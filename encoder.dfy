// The prompt builder of `run` (main.go:88-141): one pass over the rows, a
// left-to-right scan of each row that keeps the current run's colour and
// length, and a phrase written to the builder whenever a run is flushed.

module Encoder {
  import opened Decimal
  import opened Classifier
  import opened RunLength
  import opened Writer
  import opened PromptText

  /** Builds the prompt of a decoded image (main.go:89-143): the header, then
      the phrases of every row, top to bottom, written to one builder whose
      contents is the prompt. */
  method BuildPrompt(img: Image) returns (prompt: string)
    ensures prompt == Prompt(img)
  {
    var b := new Builder();
    var bounds := img.bounds;
    b.Write(Header(bounds.dy, bounds.dx));
    assert b.parts == [Header(img.bounds.dy, img.bounds.dx)] + [];

    var y := bounds.minY;
    while y < bounds.MaxY()
      invariant bounds.minY <= y <= bounds.MaxY()
      invariant b.parts == [Header(img.bounds.dy, img.bounds.dx)] + LineWrites(img, y)
    {
      DescribeRow(img, y, b);
      LinesStep(img, y, [Header(img.bounds.dy, img.bounds.dx)], b.parts);
      y := y + 1;
    }
    prompt := b.String();
  }

  /** The body of the row loop (main.go:95-140) for row `y`: a left-to-right
      scan that keeps the current run's colour and length, flushes a phrase
      whenever the colour changes, and flushes the last run at the end. */
  method DescribeRow(img: Image, y: int, b: Builder)
    requires img.bounds.minY <= y < img.bounds.MaxY()
    modifies b
    ensures b.parts == old(b.parts) + RowWrites(img, y)
  {
    var bounds := img.bounds;
    var row := y - bounds.minY;
    ghost var q := ScanColours(img, y);
    ghost var start := b.parts;
    var x := bounds.minX;

    // Colour of the first pixel
    var currentColour := Classify(img.At(x, y));
    ScanColoursAt(img, y, x, 0);
    var runLength := 1;
    x := x + 1;
    ghost var n := 1;  // x - Min.X, the pixels scanned
    ghost var flushed: seq<Run> := [];
    ScanStart(q);
    assert b.parts == start + [];

    // Walk the rest of the row
    while x < bounds.MaxX()
      invariant n == x - bounds.minX && 1 <= n <= |q|
      invariant Scan(q, n) == flushed + [Run(currentColour, runLength)]
      invariant 1 <= runLength <= n
      invariant runLength == n <==> flushed == []
      invariant b.parts == start + FlushedPhrases(row + 1, flushed, |flushed|)
    {
      var c := Classify(img.At(x, y));
      ScanColoursAt(img, y, x, n);
      if c == currentColour {
        ScanSame(q, n, flushed, Run(currentColour, runLength));
        runLength := runLength + 1;
        x := x + 1;
        n := n + 1;
        continue;
      }

      // Flush the current run
      ghost var run := Run(currentColour, runLength);
      ScanChange(q, n, flushed, run);
      FlushRun(b, row + 1, currentColour, runLength, x - bounds.minX);
      FlushedStep(start, row + 1, flushed, run, runLength == x - bounds.minX, b.parts);
      flushed := flushed + [run];

      currentColour := c;
      runLength := 1;
      x := x + 1;
      n := n + 1;
    }

    // Flush the last run of the row
    FinishRow(b, row + 1, currentColour, runLength, bounds.dx);
    RowOfRuns(img, y, row + 1, q, n, flushed, Run(currentColour, runLength), start, b.parts);
  }

  /** Writes the phrase of a run closed by a change of colour (main.go:114-126);
      `scanned` is `x - Min.X`, the pixels read so far. */
  method FlushRun(b: Builder, row: nat, colour: Colour, runLength: nat, scanned: int)
    modifies b
    ensures b.parts == old(b.parts) + [FlushPhrase(row, Run(colour, runLength), runLength == scanned)]
  {
    if runLength == 1 {
      if runLength == scanned {
        b.Write("Line " + NatToString(row) + " starts with 1 " + colour.Name() + " pixel, ");
      } else {
        b.Write("followed by 1 " + colour.Name() + " pixel, ");
      }
    } else {
      if runLength == scanned {
        b.Write("Line " + NatToString(row) + " starts with " + NatToString(runLength) + " "
                + colour.Name() + " pixels, ");
      } else {
        b.Write("followed by " + NatToString(runLength) + " " + colour.Name() + " pixels, ");
      }
    }
  }

  /** Writes the phrase of the run still open at the end of the row
      (main.go:133-140). */
  method FinishRow(b: Builder, row: nat, colour: Colour, runLength: nat, width: nat)
    modifies b
    ensures b.parts == old(b.parts) + [FinalPhrase(row, Run(colour, runLength), width)]
  {
    if runLength == width {
      b.Write("Line " + NatToString(row) + " only contains " + colour.Name() + " pixels.\n");
    } else if runLength == 1 {
      b.Write("and finally 1 " + colour.Name() + " pixel.\n");
    } else {
      b.Write("and finally " + NatToString(runLength) + " " + colour.Name() + " pixels.\n");
    }
  }

  lemma ScanColoursAt(img: Image, y: int, x: int, n: int)
    requires n == x - img.bounds.minX
    requires n == 0 || 0 <= n < img.bounds.dx
    ensures 0 <= n < |ScanColours(img, y)|
    ensures ScanColours(img, y)[n] == Classify(img.At(x, y))
  {
  }

  /** Writing the phrases of row `y` extends the writes by that row. */
  lemma LinesStep(img: Image, y: int, header: seq<string>, parts: seq<string>)
    requires img.bounds.minY <= y < img.bounds.MaxY()
    requires parts == (header + LineWrites(img, y)) + RowWrites(img, y)
    ensures parts == header + LineWrites(img, y + 1)
  {
  }

  /** The scan starts with a run of the first pixel alone. */
  lemma ScanStart(q: seq<Colour>)
    requires |q| >= 1
    ensures Scan(q, 1) == [] + [Run(q[0], 1)]
  {
  }

  /** A pixel of the current run's colour lengthens that run. */
  lemma ScanSame(q: seq<Colour>, k: nat, flushed: seq<Run>, current: Run)
    requires 0 < k < |q|
    requires Scan(q, k) == flushed + [current]
    requires q[k] == current.colour
    ensures Scan(q, k + 1) == flushed + [Run(current.colour, current.length + 1)]
  {
    assert (flushed + [current])[|flushed| := Run(current.colour, current.length + 1)]
        == flushed + [Run(current.colour, current.length + 1)];
  }

  /** A pixel of another colour closes the current run and opens a new one. */
  lemma ScanChange(q: seq<Colour>, k: nat, flushed: seq<Run>, current: Run)
    requires 0 < k < |q|
    requires Scan(q, k) == flushed + [current]
    requires q[k] != current.colour
    ensures Scan(q, k + 1) == (flushed + [current]) + [Run(q[k], 1)]
  {
  }

  /** Flushing a run writes its phrase, which opens the line exactly when
      nothing was flushed before it. */
  lemma FlushedStep(start: seq<string>, row: nat, flushed: seq<Run>, run: Run, first: bool,
                    parts: seq<string>)
    requires first <==> flushed == []
    requires parts == (start + FlushedPhrases(row, flushed, |flushed|)) + [FlushPhrase(row, run, first)]
    ensures parts == start + FlushedPhrases(row, flushed + [run], |flushed + [run]|)
  {
    FlushedPhrasesPrefix(row, flushed, [run], |flushed|);
  }

  /** The phrases of the first `k` runs depend on those runs only. */
  lemma {:induction false} FlushedPhrasesPrefix(row: nat, rs: seq<Run>, more: seq<Run>, k: nat)
    requires k <= |rs|
    ensures FlushedPhrases(row, rs + more, k) == FlushedPhrases(row, rs, k)
  {
    if k > 0 {
      FlushedPhrasesPrefix(row, rs, more, k - 1);
      assert (rs + more)[k - 1] == rs[k - 1];
    }
  }

  /** The end of the scan: the flushed runs and the last one are the runs of
      the row, so the writes are the row's phrases. */
  lemma RowOfRuns(img: Image, y: int, row: nat, q: seq<Colour>, n: nat, flushed: seq<Run>, last: Run,
                  start: seq<string>, parts: seq<string>)
    requires img.bounds.minY <= y && row == y - img.bounds.minY + 1
    requires q == ScanColours(img, y) && n == |q|
    requires Scan(q, n) == flushed + [last]
    requires parts == (start + FlushedPhrases(row, flushed, |flushed|)) + [FinalPhrase(row, last, img.bounds.dx)]
    ensures parts == start + RowWrites(img, y)
  {
    RowPhrasesOfRuns(row, q, n, img.bounds.dx, flushed, last);
    AppendAssoc(start, FlushedPhrases(row, flushed, |flushed|), [FinalPhrase(row, last, img.bounds.dx)]);
  }

  lemma RowPhrasesOfRuns(row: nat, q: seq<Colour>, n: nat, width: nat, flushed: seq<Run>, last: Run)
    requires n == |q| && Scan(q, n) == flushed + [last]
    ensures |q| >= 1
    ensures RowPhrases(row, q, width) == FlushedPhrases(row, flushed, |flushed|) + [FinalPhrase(row, last, width)]
  {
    assert Runs(q) == flushed + [last];
    FlushedPhrasesPrefix(row, flushed, [last], |flushed|);
  }

  lemma AppendAssoc(a: seq<string>, b: seq<string>, c: seq<string>)
    ensures (a + b) + c == a + (b + c)
  {
  }
}
