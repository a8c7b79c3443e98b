// Run-length decomposition of one row's colours, the abstraction behind the
// `currentColor`/`runLength` scan of main.go:98-131: a run is a colour and a
// length, and the runs of a row are its maximal stretches of one colour,
// found left to right.

module RunLength {
  import opened Classifier

  datatype Run = Run(colour: Colour, length: nat)

  /** `n` pixels of colour `c`. */
  function Repeat(c: Colour, n: nat): (q: seq<Colour>)
    ensures |q| == n
    ensures forall i :: 0 <= i < n ==> q[i] == c
  {
    seq(n, _ => c)
  }

  /** The pixels a list of runs stands for, run after run. */
  function Expand(rs: seq<Run>): seq<Colour>
  {
    if rs == [] then [] else Expand(rs[..|rs| - 1]) + Repeat(rs[|rs| - 1].colour, rs[|rs| - 1].length)
  }

  /** The total number of pixels a list of runs covers. */
  function SumLengths(rs: seq<Run>): nat
  {
    if rs == [] then 0 else SumLengths(rs[..|rs| - 1]) + rs[|rs| - 1].length
  }

  /** Every run is non-empty and two neighbouring runs differ in colour. */
  predicate Maximal(rs: seq<Run>)
  {
    (forall i :: 0 <= i < |rs| ==> rs[i].length >= 1) &&
    (forall i :: 0 < i < |rs| ==> rs[i - 1].colour != rs[i].colour)
  }

  /** One more pixel of colour `c` after the runs `rs`: it lengthens the last
      run when it has the same colour, and starts a new run of length 1 otherwise. */
  function Extend(rs: seq<Run>, c: Colour): seq<Run>
  {
    if rs != [] && rs[|rs| - 1].colour == c
    then rs[|rs| - 1 := Run(c, rs[|rs| - 1].length + 1)]
    else rs + [Run(c, 1)]
  }

  /** The runs of the first `n` pixels of a row, found by scanning them left to right. */
  function Scan(q: seq<Colour>, n: nat): (rs: seq<Run>)
    requires n <= |q|
    ensures |rs| == 0 <==> n == 0
    ensures |rs| <= n
  {
    if n == 0 then [] else Extend(Scan(q, n - 1), q[n - 1])
  }

  /** The runs of a whole row. */
  function Runs(q: seq<Colour>): seq<Run>
  {
    Scan(q, |q|)
  }

  /** Extending keeps the runs maximal and adds exactly the one pixel. */
  lemma ExtendExpand(rs: seq<Run>, c: Colour)
    requires Maximal(rs)
    ensures Maximal(Extend(rs, c))
    ensures Expand(Extend(rs, c)) == Expand(rs) + [c]
  {
    var ext := Extend(rs, c);
    if rs != [] && rs[|rs| - 1].colour == c {
      var init, last := rs[..|rs| - 1], rs[|rs| - 1];
      assert rs == init + [last];
      assert ext == init + [Run(c, last.length + 1)];
      ExpandSnoc(init, last);
      ExpandSnoc(init, Run(c, last.length + 1));
      assert Repeat(c, last.length + 1) == Repeat(c, last.length) + [c];
      forall i | 0 <= i < |ext| ensures ext[i].length >= 1 && ext[i].colour == rs[i].colour {
      }
    } else {
      ExpandSnoc(rs, Run(c, 1));
      forall i | 0 <= i < |rs| ensures ext[i] == rs[i] {
      }
    }
  }

  /** The runs the scan finds are maximal and rebuild the scanned pixels exactly. */
  lemma {:induction false} ScanTiles(q: seq<Colour>, n: nat)
    requires n <= |q|
    ensures Maximal(Scan(q, n))
    ensures Expand(Scan(q, n)) == q[..n]
  {
    if n > 0 {
      ScanTiles(q, n - 1);
      ExtendExpand(Scan(q, n - 1), q[n - 1]);
      PrefixSnoc(q, n);
    }
  }

  lemma PrefixSnoc(q: seq<Colour>, n: nat)
    requires 0 < n <= |q|
    ensures q[..n - 1] + [q[n - 1]] == q[..n]
  {
  }

  /** The runs of a row are maximal and rebuild the row exactly. */
  lemma RunsTileRow(q: seq<Colour>)
    ensures Maximal(Runs(q))
    ensures Expand(Runs(q)) == q
  {
    ScanTiles(q, |q|);
    assert q[..|q|] == q;
  }

  lemma ExpandLength(rs: seq<Run>)
    ensures |Expand(rs)| == SumLengths(rs)
  {
  }

  lemma ExpandSnoc(rs: seq<Run>, r: Run)
    ensures Expand(rs + [r]) == Expand(rs) + Repeat(r.colour, r.length)
  {
    assert (rs + [r])[..|rs|] == rs;
  }

  /** The run lengths of a row add up to the row's width. */
  lemma RunsSumToWidth(q: seq<Colour>)
    ensures SumLengths(Runs(q)) == |q|
  {
    RunsTileRow(q);
    ExpandLength(Runs(q));
  }

  /** The decomposition is unique: any list of maximal runs that rebuilds the
      scanned pixels is the one the scan finds. */
  lemma {:induction false} ScanUnique(rs: seq<Run>, q: seq<Colour>, n: nat)
    requires n <= |q|
    requires Maximal(rs) && Expand(rs) == q[..n]
    ensures Scan(q, n) == rs
    decreases n
  {
    if rs != [] {
      var init, last := rs[..|rs| - 1], rs[|rs| - 1];
      if last.length == 1 {
        UniqueLastAlone(rs, q[..n]);
        PrefixOfPrefix(q, n);
        ScanUnique(init, q, n - 1);
        ExtendAlone(rs);
      } else {
        UniqueLastLonger(rs, q[..n]);
        PrefixOfPrefix(q, n);
        ScanUnique(init + [Run(last.colour, last.length - 1)], q, n - 1);
        ExtendLonger(rs);
      }
    } else {
      ExpandLength(rs);
    }
  }

  lemma PrefixOfPrefix(q: seq<Colour>, n: nat)
    requires 0 < n <= |q|
    ensures q[..n][..n - 1] == q[..n - 1] && q[..n][n - 1] == q[n - 1]
  {
  }

  /** A last run of one pixel after a run of another colour is what
      extending the other runs by that pixel gives. */
  lemma ExtendAlone(rs: seq<Run>)
    requires rs != [] && rs[|rs| - 1].length == 1
    requires |rs| > 1 ==> rs[|rs| - 2].colour != rs[|rs| - 1].colour
    ensures Extend(rs[..|rs| - 1], rs[|rs| - 1].colour) == rs
  {
    assert rs == rs[..|rs| - 1] + [rs[|rs| - 1]];
  }

  /** A last run of several pixels is what extending it, one pixel shorter, gives. */
  lemma ExtendLonger(rs: seq<Run>)
    requires rs != [] && rs[|rs| - 1].length > 1
    ensures var last := rs[|rs| - 1];
      Extend(rs[..|rs| - 1] + [Run(last.colour, last.length - 1)], last.colour) == rs
  {
    var init, last := rs[..|rs| - 1], rs[|rs| - 1];
    var shorter := init + [Run(last.colour, last.length - 1)];
    assert shorter[|shorter| - 1 := last] == rs;
  }

  /** The decomposition of a whole row is unique. */
  lemma RunsUnique(rs: seq<Run>, q: seq<Colour>)
    requires Maximal(rs) && Expand(rs) == q
    ensures Runs(q) == rs
  {
    assert q[..|q|] == q;
    ScanUnique(rs, q, |q|);
  }

  /** Removing the last run of maximal runs leaves maximal runs, and the
      pixels of the last run end the row. */
  lemma SplitLast(rs: seq<Run>, w: seq<Colour>)
    requires Maximal(rs) && Expand(rs) == w && rs != []
    ensures Maximal(rs[..|rs| - 1])
    ensures w == Expand(rs[..|rs| - 1]) + Repeat(rs[|rs| - 1].colour, rs[|rs| - 1].length)
    ensures |w| >= 1 && w[|w| - 1] == rs[|rs| - 1].colour
  {
    var init := rs[..|rs| - 1];
    forall i | 0 < i < |init| ensures init[i - 1].colour != init[i].colour {
      assert init[i - 1] == rs[i - 1] && init[i] == rs[i];
    }
  }

  /** A last run of one pixel: the rest of the runs rebuild the rest of the
      pixels and end in another colour. */
  lemma UniqueLastAlone(rs: seq<Run>, w: seq<Colour>)
    requires Maximal(rs) && Expand(rs) == w && rs != [] && rs[|rs| - 1].length == 1
    ensures Maximal(rs[..|rs| - 1]) && Expand(rs[..|rs| - 1]) == w[..|w| - 1]
    ensures |w| >= 1 && w[|w| - 1] == rs[|rs| - 1].colour
    ensures |rs| > 1 ==> rs[|rs| - 2].colour != rs[|rs| - 1].colour
  {
    SplitLast(rs, w);
  }

  /** A last run of several pixels: the runs with that run one pixel shorter
      rebuild the rest of the pixels. */
  lemma UniqueLastLonger(rs: seq<Run>, w: seq<Colour>)
    requires Maximal(rs) && Expand(rs) == w && rs != [] && rs[|rs| - 1].length > 1
    ensures var shorter := rs[..|rs| - 1] + [Run(rs[|rs| - 1].colour, rs[|rs| - 1].length - 1)];
      Maximal(shorter) && Expand(shorter) == w[..|w| - 1]
    ensures |w| >= 1 && w[|w| - 1] == rs[|rs| - 1].colour
  {
    var init, last := rs[..|rs| - 1], rs[|rs| - 1];
    var c := last.colour;
    SplitLast(rs, w);
    var shorter := init + [Run(c, last.length - 1)];
    ExpandSnoc(init, Run(c, last.length - 1));
    assert Repeat(c, last.length) == Repeat(c, last.length - 1) + [c];
    forall i | 0 < i < |shorter| ensures shorter[i - 1].colour != shorter[i].colour {
      assert shorter[i - 1].colour == rs[i - 1].colour && shorter[i].colour == rs[i].colour;
    }
  }

  /** A row of one colour is a single run spanning the row. */
  lemma {:induction false} RunsOfUniform(q: seq<Colour>, c: Colour)
    requires |q| >= 1
    requires forall i :: 0 <= i < |q| ==> q[i] == c
    ensures Runs(q) == [Run(c, |q|)]
  {
    assert Expand([Run(c, |q|)]) == q by {
      ExpandSnoc([], Run(c, |q|));
      assert [] + [Run(c, |q|)] == [Run(c, |q|)];
    }
    RunsUnique([Run(c, |q|)], q);
  }

  /** Conversely, a row whose scan finds a single run is of one colour. */
  lemma SingleRunIsUniform(q: seq<Colour>)
    requires |Runs(q)| == 1
    ensures forall i :: 0 <= i < |q| ==> q[i] == Runs(q)[0].colour
    ensures Runs(q)[0].length == |q|
  {
    var rs := Runs(q);
    RunsTileRow(q);
    assert rs == [] + [rs[0]];
    ExpandSnoc([], rs[0]);
  }

  /** With two runs or more, the runs cover more pixels than the last one. */
  lemma SumLengthsAtLeastLast(rs: seq<Run>)
    requires Maximal(rs) && |rs| >= 2
    ensures SumLengths(rs) > rs[|rs| - 1].length
  {
    var init := rs[..|rs| - 1];
    assert init[|init| - 1] == rs[|rs| - 2];
  }

  /** The run still open after `n` pixels spans all of them exactly when no
      run was flushed before it: `x - Min.X` is the flushed lengths plus the
      current one, so the source's `runLength == x - Min.X` tests that the run
      started at the row's first column. */
  lemma FirstRunTest(q: seq<Colour>, n: nat, flushed: seq<Run>, current: Run)
    requires 1 <= n <= |q|
    requires Scan(q, n) == flushed + [current]
    ensures SumLengths(flushed) + current.length == n
    ensures current.length == n <==> flushed == []
  {
    var rs := flushed + [current];
    ScanTiles(q, n);
    ExpandLength(rs);
    assert rs[..|rs| - 1] == flushed;
    if flushed != [] {
      SumLengthsAtLeastLast(rs);
    }
  }

  /** The last run of a row spans the whole row exactly when it is the row's
      only run: the source's test `runLength == bounds.Dx()`. */
  lemma LastRunSpans(q: seq<Colour>)
    requires |q| >= 1
    ensures |Runs(q)| >= 1
    ensures Runs(q)[|Runs(q)| - 1].length == |q| <==> |Runs(q)| == 1
  {
    var rs := Runs(q);
    RunsTileRow(q);
    RunsSumToWidth(q);
    if |rs| >= 2 {
      SumLengthsAtLeastLast(rs);
    } else {
      assert rs[..|rs| - 1] == [];
    }
  }
}
