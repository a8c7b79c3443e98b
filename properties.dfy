// Properties of the prompt: its header, the one line each row contributes,
// the order and wording of the phrases of a row, and the rows of one colour.

module PromptProperties {
  import opened Decimal
  import opened Classifier
  import opened RunLength
  import opened Writer
  import opened PromptText

  // ---------------------------------------------------------------------
  // Lines of text

  predicate NoNewline(s: string) {
    forall i :: 0 <= i < |s| ==> s[i] != '\n'
  }

  /** One line of text: a single newline, at its end. */
  predicate IsLine(s: string) {
    |s| >= 1 && s[|s| - 1] == '\n' && NoNewline(s[..|s| - 1])
  }

  lemma NoNewlineAppend(a: string, b: string)
    ensures NoNewline(a + b) <==> NoNewline(a) && NoNewline(b)
  {
    if NoNewline(a + b) {
      forall i | 0 <= i < |b| ensures b[i] != '\n' {
        assert b[i] == (a + b)[|a| + i];
      }
      forall i | 0 <= i < |a| ensures a[i] != '\n' {
        assert a[i] == (a + b)[i];
      }
    }
  }

  /** Text without a newline followed by a line is a line. */
  lemma LineAfterText(a: string, b: string)
    requires NoNewline(a) && IsLine(b)
    ensures IsLine(a + b)
  {
    assert (a + b)[..|a + b| - 1] == a + b[..|b| - 1];
    NoNewlineAppend(a, b[..|b| - 1]);
  }

  lemma DigitsNoNewline(n: nat)
    ensures NoNewline(NatToString(n))
  {
    NatToStringDigits(n);
  }

  lemma NameNoNewline(c: Colour)
    ensures NoNewline(c.Name())
  {
  }

  lemma NoNewline5(a: string, b: string, c: string, d: string, e: string)
    requires NoNewline(a) && NoNewline(b) && NoNewline(c) && NoNewline(d) && NoNewline(e)
    ensures NoNewline(a + b + c + d + e)
  {
    NoNewlineAppend(a, b);
    NoNewlineAppend(a + b, c);
    NoNewlineAppend(a + b + c, d);
    NoNewlineAppend(a + b + c + d, e);
  }

  // ---------------------------------------------------------------------
  // Phrases

  /** A flushed run's phrase never ends the line. */
  lemma FlushPhraseNoNewline(row: nat, r: Run, first: bool)
    ensures NoNewline(FlushPhrase(row, r, first))
  {
    DigitsNoNewline(row);
    DigitsNoNewline(r.length);
    NameNoNewline(r.colour);
    var name := r.colour.Name();
    if first {
      if r.length == 1 {
        NoNewline5("Line ", NatToString(row), " starts with 1 ", name, " pixel, ");
      } else {
        NoNewline5("Line " + NatToString(row), " starts with ", NatToString(r.length), " ", name);
        NoNewlineAppend("Line " + NatToString(row) + " starts with " + NatToString(r.length) + " " + name,
                        " pixels, ");
      }
    } else {
      if r.length == 1 {
        NoNewline5("", "", "followed by 1 ", name, " pixel, ");
        assert "" + "" + "followed by 1 " == "followed by 1 ";
      } else {
        NoNewline5("", "followed by ", NatToString(r.length), " " + name, " pixels, ");
        assert "" + "followed by " == "followed by ";
        assert "followed by " + NatToString(r.length) + (" " + name)
            == "followed by " + NatToString(r.length) + " " + name;
      }
    }
  }

  /** The phrase of a row's last run is a line: it holds the row's only newline. */
  lemma FinalPhraseIsLine(row: nat, r: Run, width: nat)
    ensures IsLine(FinalPhrase(row, r, width))
  {
    DigitsNoNewline(row);
    DigitsNoNewline(r.length);
    NameNoNewline(r.colour);
    var name := r.colour.Name();
    if r.length == width {
      NoNewline5("Line ", NatToString(row), " only contains ", name, "");
      assert "Line " + NatToString(row) + " only contains " + name + "" == "Line " + NatToString(row) + " only contains " + name;
      LineAfterText("Line " + NatToString(row) + " only contains " + name, " pixels.\n");
    } else if r.length == 1 {
      NoNewlineAppend("and finally 1 ", name);
      LineAfterText("and finally 1 " + name, " pixel.\n");
    } else {
      NoNewline5("and finally ", NatToString(r.length), " ", name, "");
      assert "and finally " + NatToString(r.length) + " " + name + "" == "and finally " + NatToString(r.length) + " " + name;
      LineAfterText("and finally " + NatToString(r.length) + " " + name, " pixels.\n");
    }
  }

  /** The flushed phrases of a row, written one after the other, hold no newline. */
  lemma {:induction false} FlushedNoNewline(row: nat, rs: seq<Run>, k: nat)
    requires k <= |rs|
    ensures NoNewline(Concat(FlushedPhrases(row, rs, k)))
  {
    if k > 0 {
      FlushedNoNewline(row, rs, k - 1);
      ConcatSnoc(FlushedPhrases(row, rs, k - 1), FlushPhrase(row, rs[k - 1], k == 1));
      FlushPhraseNoNewline(row, rs[k - 1], k == 1);
      NoNewlineAppend(Concat(FlushedPhrases(row, rs, k - 1)), FlushPhrase(row, rs[k - 1], k == 1));
    }
  }

  /** The phrases of a row make one line. */
  lemma RowIsLine(row: nat, q: seq<Colour>, width: nat)
    requires |q| >= 1
    ensures IsLine(Concat(RowPhrases(row, q, width)))
  {
    var rs := Runs(q);
    var flushed := FlushedPhrases(row, rs, |rs| - 1);
    var last := FinalPhrase(row, rs[|rs| - 1], width);
    ConcatSnoc(flushed, last);
    FlushedNoNewline(row, rs, |rs| - 1);
    FinalPhraseIsLine(row, rs[|rs| - 1], width);
    LineAfterText(Concat(flushed), last);
  }

  /** Every row of the image adds exactly one line to the prompt. */
  lemma RowTextIsLine(img: Image, y: int)
    requires img.bounds.minY <= y
    ensures IsLine(RowText(img, y))
  {
    RowIsLine(y - img.bounds.minY + 1, ScanColours(img, y), img.bounds.dx);
  }

  // ---------------------------------------------------------------------
  // The layout of the prompt

  /** The lines of the rows from Min.Y up to, not including, `y`, top to bottom. */
  function RowTexts(img: Image, y: int): (ls: seq<string>)
    requires img.bounds.minY <= y <= img.bounds.MaxY()
    ensures |ls| == y - img.bounds.minY
    decreases y - img.bounds.minY
  {
    if y == img.bounds.minY then [] else RowTexts(img, y - 1) + [RowText(img, y - 1)]
  }

  lemma {:induction false} LineWritesText(img: Image, y: int)
    requires img.bounds.minY <= y <= img.bounds.MaxY()
    ensures Concat(LineWrites(img, y)) == Concat(RowTexts(img, y))
    decreases y - img.bounds.minY
  {
    if y > img.bounds.minY {
      LineWritesText(img, y - 1);
      ConcatAppend(LineWrites(img, y - 1), RowWrites(img, y - 1));
      ConcatSnoc(RowTexts(img, y - 1), RowText(img, y - 1));
    } else {
      ConcatEmpty();
    }
  }

  /** The prompt is the header followed by the line of every row, from the
      top row down. */
  lemma PromptLayout(img: Image)
    ensures Prompt(img) == Header(img.bounds.dy, img.bounds.dx) + Concat(RowTexts(img, img.bounds.MaxY()))
  {
    ConcatAppend([Header(img.bounds.dy, img.bounds.dx)], LineWrites(img, img.bounds.MaxY()));
    ConcatSingle(Header(img.bounds.dy, img.bounds.dx));
    LineWritesText(img, img.bounds.MaxY());
  }

  predicate AllLines(ls: seq<string>) {
    forall i :: 0 <= i < |ls| ==> IsLine(ls[i])
  }

  lemma LinesSnoc(ls: seq<string>, l: string)
    requires AllLines(ls) && IsLine(l)
    ensures AllLines(ls + [l])
  {
    forall i | 0 <= i < |ls + [l]| ensures IsLine((ls + [l])[i]) {
      if i < |ls| {
        assert (ls + [l])[i] == ls[i];
      }
    }
  }

  /** Each row's text is one line. */
  lemma {:induction false} RowTextsAreLines(img: Image, y: int)
    requires img.bounds.minY <= y <= img.bounds.MaxY()
    ensures AllLines(RowTexts(img, y))
    decreases y - img.bounds.minY
  {
    if y > img.bounds.minY {
      RowTextsAreLines(img, y - 1);
      RowTextIsLine(img, y - 1);
      LinesSnoc(RowTexts(img, y - 1), RowText(img, y - 1));
    }
  }

  /** The number of newlines in `s`. */
  function Newlines(s: string): nat {
    multiset(s)['\n']
  }

  lemma NewlinesAppend(a: string, b: string)
    ensures Newlines(a + b) == Newlines(a) + Newlines(b)
  {
    assert multiset(a + b) == multiset(a) + multiset(b);
  }

  lemma NoNewlineCount(s: string)
    requires NoNewline(s)
    ensures Newlines(s) == 0
  {
    assert '\n' !in s;
  }

  /** A line holds one newline. */
  lemma LineCount(s: string)
    requires IsLine(s)
    ensures Newlines(s) == 1
  {
    NoNewlineCount(s[..|s| - 1]);
    assert s == s[..|s| - 1] + [s[|s| - 1]];
    NewlinesAppend(s[..|s| - 1], [s[|s| - 1]]);
  }

  /** Lines written one after the other hold one newline each. */
  lemma {:induction false} LinesNewlines(ls: seq<string>)
    requires AllLines(ls)
    ensures Newlines(Concat(ls)) == |ls|
    decreases |ls|
  {
    if ls == [] {
      ConcatEmpty();
    } else {
      var init, last := ls[..|ls| - 1], ls[|ls| - 1];
      assert ls == init + [last];
      assert AllLines(init) by {
        forall i | 0 <= i < |init| ensures IsLine(init[i]) {
          assert init[i] == ls[i];
        }
      }
      ConcatSnoc(init, last);
      LinesNewlines(init);
      LineCount(last);
      NewlinesAppend(Concat(init), last);
    }
  }

  /** The header ends in the two newlines of its blank line. */
  lemma HeaderCount(height: nat, width: nat)
    ensures Newlines(Header(height, width)) == 2
  {
    DigitsNoNewline(height);
    DigitsNoNewline(width);
    HeaderWordsNoNewline();
    ColumnsCount();
    NewlinesAfterText("Please create an image with ", NatToString(height), " rows and ", NatToString(width),
                      " columns.\n\n");
  }

  lemma HeaderWordsNoNewline()
    ensures NoNewline("Please create an image with ") && NoNewline(" rows and ")
  {
  }

  /** Text without newlines adds none. */
  lemma NewlinesAfterText(a: string, b: string, c: string, d: string, e: string)
    requires NoNewline(a) && NoNewline(b) && NoNewline(c) && NoNewline(d)
    ensures Newlines(a + b + c + d + e) == Newlines(e)
  {
    NoNewlineAppend(a, b);
    NoNewlineAppend(a + b, c);
    NoNewlineAppend(a + b + c, d);
    NoNewlineCount(a + b + c + d);
    NewlinesAppend(a + b + c + d, e);
  }

  lemma ColumnsCount()
    ensures Newlines(" columns.\n\n") == 2
  {
  }

  /** One line per row: the prompt holds the header's two newlines and one
      more for every row of the image. */
  lemma PromptLineCount(img: Image)
    ensures Newlines(Prompt(img)) == img.bounds.dy + 2
  {
    var h, rows := Header(img.bounds.dy, img.bounds.dx), RowTexts(img, img.bounds.MaxY());
    PromptLayout(img);
    HeaderCount(img.bounds.dy, img.bounds.dx);
    RowTextsAreLines(img, img.bounds.MaxY());
    LinesNewlines(rows);
    NewlinesAppend(h, Concat(rows));
  }

  /** An image without rows gives the header alone. */
  lemma ZeroHeightPrompt(img: Image)
    requires img.bounds.dy == 0
    ensures Prompt(img) == Header(0, img.bounds.dx)
  {
    PromptLayout(img);
    ConcatEmpty();
    var h := Header(0, img.bounds.dx);
    assert h + "" == h;
  }

  /** The prompt begins with exactly the header. */
  lemma PromptBeginsWithHeader(img: Image)
    ensures var h := "Please create an image with " + NatToString(img.bounds.dy) + " rows and "
                     + NatToString(img.bounds.dx) + " columns.\n\n";
      |h| <= |Prompt(img)| && Prompt(img)[..|h|] == h
  {
    PromptLayout(img);
  }

  lemma PrefixCancel(p: string, a: string, b: string)
    requires p + a == p + b
    ensures a == b
  {
    assert a == (p + a)[|p|..];
  }

  lemma AssocRight(a: string, b: string, c: string, d: string, e: string)
    ensures a + b + c + d + e == a + (b + (c + (d + e)))
  {
  }

  /** The header states the image's dimensions recoverably: two headers are
      the same only for the same number of rows and of columns. */
  lemma HeaderDetermines(h1: nat, w1: nat, h2: nat, w2: nat)
    requires Header(h1, w1) == Header(h2, w2)
    ensures h1 == h2 && w1 == w2
  {
    var please, rows, cols := "Please create an image with ", " rows and ", " columns.\n\n";
    AssocRight(please, NatToString(h1), rows, NatToString(w1), cols);
    AssocRight(please, NatToString(h2), rows, NatToString(w2), cols);
    PrefixCancel(please, NatToString(h1) + (rows + (NatToString(w1) + cols)),
                 NatToString(h2) + (rows + (NatToString(w2) + cols)));
    NatToStringSplit(h1, rows + (NatToString(w1) + cols), h2, rows + (NatToString(w2) + cols));
    PrefixCancel(rows, NatToString(w1) + cols, NatToString(w2) + cols);
    NatToStringSplit(w1, cols, w2, cols);
  }

  // ---------------------------------------------------------------------
  // The phrases of a row

  /** The `i`-th flushed phrase is the `i`-th run's, as the row's opening
      exactly for the first run. */
  lemma {:induction false} FlushedPhrasesAt(row: nat, rs: seq<Run>, k: nat, i: nat)
    requires i < k <= |rs|
    ensures FlushedPhrases(row, rs, k)[i] == FlushPhrase(row, rs[i], i == 0)
  {
    if i < k - 1 {
      FlushedPhrasesAt(row, rs, k - 1, i);
    }
  }

  /** The phrases of a row whose width is its number of pixels: one phrase per
      run; a single run "only contains"; otherwise "starts with" for the
      first run, "followed by" for every middle run and "and finally" for the
      last. */
  lemma RowPhrasesShape(row: nat, q: seq<Colour>)
    requires |q| >= 1
    ensures var rs, ps := Runs(q), RowPhrases(row, q, |q|);
      |ps| == |rs| >= 1 &&
      (|rs| == 1 ==> ps == [OnlyContains(row, rs[0].colour)]) &&
      (|rs| >= 2 ==>
         ps[0] == StartPhrase(row, rs[0]) &&
         (forall i :: 0 < i < |rs| - 1 ==> ps[i] == FollowPhrase(rs[i])) &&
         ps[|rs| - 1] == FinallyPhrase(rs[|rs| - 1]))
  {
    var rs, ps := Runs(q), RowPhrases(row, q, |q|);
    var fs := FlushedPhrases(row, rs, |rs| - 1);
    var last := rs[|rs| - 1];
    LastRunSpans(q);
    assert ps == fs + [FinalPhrase(row, last, |q|)];
    if |rs| >= 2 {
      assert FinalPhrase(row, last, |q|) == FinallyPhrase(last);
      FlushedPhrasesAt(row, rs, |rs| - 1, 0);
      assert fs[0] == FlushPhrase(row, rs[0], true) == StartPhrase(row, rs[0]);
      assert ps[0] == fs[0];
      forall i | 0 < i < |rs| - 1 ensures ps[i] == FollowPhrase(rs[i]) {
        FlushedPhrasesAt(row, rs, |rs| - 1, i);
        assert ps[i] == fs[i];
      }
    } else {
      assert FinalPhrase(row, last, |q|) == OnlyContains(row, rs[0].colour);
      assert fs == [];
    }
  }

  predicate StartsWith(s: string, prefix: string) {
    |prefix| <= |s| && s[..|prefix|] == prefix
  }

  /** The first write opens the builder's contents. */
  lemma ConcatStartsWithFirst(parts: seq<string>)
    requires parts != []
    ensures StartsWith(Concat(parts), parts[0])
  {
    assert parts == [parts[0]] + parts[1..];
    ConcatAppend([parts[0]], parts[1..]);
    ConcatSingle(parts[0]);
  }

  lemma StartsWithTrans(s: string, t: string, prefix: string)
    requires StartsWith(s, t) && StartsWith(t, prefix)
    ensures StartsWith(s, prefix)
  {
    assert s[..|prefix|] == s[..|t|][..|prefix|];
  }

  /** Every pixel of row `y` is classified `c`. */
  predicate RowOfColour(img: Image, y: int, c: Colour) {
    forall x :: img.bounds.minX <= x < img.bounds.MaxX() ==> Classify(img.At(x, y)) == c
  }

  /** For a row at least one pixel wide, the scan reads the class of every
      pixel of the row, so it reads only `c` exactly when the row is of colour `c`. */
  lemma ScanColoursOfRow(img: Image, y: int, c: Colour)
    requires img.bounds.dx >= 1
    ensures |ScanColours(img, y)| == img.bounds.dx
    ensures RowOfColour(img, y, c) <==> forall i :: 0 <= i < img.bounds.dx ==> ScanColours(img, y)[i] == c
  {
    var q := ScanColours(img, y);
    if RowOfColour(img, y, c) {
      forall i | 0 <= i < img.bounds.dx ensures q[i] == c {
        assert q[i] == Classify(img.At(img.bounds.minX + i, y));
      }
    }
    if forall i :: 0 <= i < img.bounds.dx ==> q[i] == c {
      forall x | img.bounds.minX <= x < img.bounds.MaxX() ensures Classify(img.At(x, y)) == c {
        assert q[x - img.bounds.minX] == Classify(img.At(x, y));
      }
    }
  }

  lemma CharAfterPrefix(p: string, s: string, t: string, i: nat)
    requires i < |s|
    ensures (p + s + t)[|p| + i] == s[i]
  {
  }

  /** Right after "Line N ", the opening of a row of several runs reads "starts". */
  lemma StartPhraseAt(row: nat, r: Run)
    ensures var k := |"Line " + NatToString(row)| + 1;
      k < |StartPhrase(row, r)| && StartPhrase(row, r)[k] == 's'
  {
    var head := "Line " + NatToString(row);
    if r.length == 1 {
      CharAfterPrefix(head, " starts with 1 ", r.colour.Name() + " pixel, ", 1);
      assert StartPhrase(row, r) == head + " starts with 1 " + (r.colour.Name() + " pixel, ");
    } else {
      var rest := NatToString(r.length) + " " + r.colour.Name() + " pixels, ";
      CharAfterPrefix(head, " starts with ", rest, 1);
      assert StartPhrase(row, r) == head + " starts with " + rest;
    }
  }

  /** Right after "Line N ", the line of a row of one colour reads "only". */
  lemma OnlyContainsAt(row: nat, c: Colour)
    ensures var k := |"Line " + NatToString(row)| + 1;
      k < |OnlyContains(row, c)| && OnlyContains(row, c)[k] == 'o'
  {
    var head := "Line " + NatToString(row);
    CharAfterPrefix(head, " only contains ", c.Name() + " pixels.\n", 1);
    assert OnlyContains(row, c) == head + " only contains " + (c.Name() + " pixels.\n");
  }

  /** The phrase of a row of one colour names the colour recoverably. */
  lemma OnlyContainsDetermines(row: nat, c: Colour, d: Colour)
    requires OnlyContains(row, c) == OnlyContains(row, d)
    ensures c == d
  {
    var head := "Line " + NatToString(row) + " only contains ";
    CharAfterPrefix(head, c.Name(), " pixels.\n", 0);
    CharAfterPrefix(head, d.Name(), " pixels.\n", 0);
    NameInjective(c, d);
  }

  /** A row of width at least 1 is of a single colour `c` exactly when its
      line is "Line N only contains c pixels.\n" -- plural even when the row
      is one pixel wide. */
  lemma UniformRowIff(img: Image, y: int, c: Colour)
    requires img.bounds.minY <= y && img.bounds.dx >= 1
    ensures RowText(img, y) == OnlyContains(y - img.bounds.minY + 1, c) <==> RowOfColour(img, y, c)
  {
    ScanColoursOfRow(img, y, c);
    UniformPhrasesIff(y - img.bounds.minY + 1, ScanColours(img, y), c);
  }

  /** The phrases of a row whose scan reads `q` over the whole width make the
      line "only contains c" exactly when every colour read is `c`. */
  lemma UniformPhrasesIff(row: nat, q: seq<Colour>, c: Colour)
    requires |q| >= 1
    ensures Concat(RowPhrases(row, q, |q|)) == OnlyContains(row, c) <==> forall i :: 0 <= i < |q| ==> q[i] == c
  {
    var rs, ps := Runs(q), RowPhrases(row, q, |q|);
    RowPhrasesShape(row, q);
    if forall i :: 0 <= i < |q| ==> q[i] == c {
      RunsOfUniform(q, c);
      ConcatSingle(OnlyContains(row, c));
    } else if |rs| == 1 {
      SingleRunIsUniform(q);
      ConcatSingle(OnlyContains(row, rs[0].colour));
      if OnlyContains(row, rs[0].colour) == OnlyContains(row, c) {
        OnlyContainsDetermines(row, rs[0].colour, c);
      }
    } else {
      SeveralRunsNotOnly(row, ps, rs[0], c);
    }
  }

  /** A line that opens with "starts with" is no "only contains" line. */
  lemma SeveralRunsNotOnly(row: nat, ps: seq<string>, first: Run, c: Colour)
    requires ps != [] && ps[0] == StartPhrase(row, first)
    ensures Concat(ps) != OnlyContains(row, c)
  {
    ConcatStartsWithFirst(ps);
    StartPhraseAt(row, first);
    OnlyContainsAt(row, c);
    var k := |"Line " + NatToString(row)| + 1;
    assert Concat(ps)[k] == ps[0][k];
  }

  // ---------------------------------------------------------------------
  // Rows of width 0 and 1, and the row number

  /** A row of width 0 still reads the pixel at Min.X: its line is the last
      phrase of a one-pixel run, "and finally 1 c pixel.\n", without a row
      number. */
  lemma ZeroWidthRow(img: Image, y: int)
    requires img.bounds.minY <= y && img.bounds.dx == 0
    ensures RowText(img, y) == "and finally 1 " + Classify(img.At(img.bounds.minX, y)).Name() + " pixel.\n"
  {
    var q := ScanColours(img, y);
    assert q[0] == Classify(img.At(img.bounds.minX, y));
    RunsOfUniform(q, q[0]);
    var last := FinallyPhrase(Run(q[0], 1));
    assert RowWrites(img, y) == [] + [last];
    assert [] + [last] == [last];
    ConcatSingle(last);
  }

  /** A row one pixel wide is "only contains", with the plural "pixels". */
  lemma WidthOneRow(img: Image, y: int)
    requires img.bounds.minY <= y && img.bounds.dx == 1
    ensures RowText(img, y)
         == "Line " + NatToString(y - img.bounds.minY + 1) + " only contains "
            + Classify(img.At(img.bounds.minX, y)).Name() + " pixels.\n"
  {
    UniformRowIff(img, y, Classify(img.At(img.bounds.minX, y)));
  }

  lemma StartsWithLonger(t: string, p: string, s: string)
    requires StartsWith(t, p)
    ensures StartsWith(t + s, p)
  {
    assert (t + s)[..|p|] == t[..|p|];
  }

  /** `h` followed by a text that opens with a space starts with `h + " "`. */
  lemma StartsWithSpace(h: string, sp: string)
    requires StartsWith(sp, " ")
    ensures StartsWith(h + sp, h + " ")
  {
    assert (h + sp)[..|h| + 1] == h + sp[..1];
  }

  /** Both ways to open a line begin with "Line N ". */
  lemma StartNamesTheLine(row: nat, r: Run)
    ensures StartsWith(StartPhrase(row, r), "Line " + NatToString(row) + " ")
  {
    var h, name := "Line " + NatToString(row), r.colour.Name();
    var head := h + " ";
    if r.length == 1 {
      StartsWithSpace(h, " starts with 1 ");
      StartsWithLonger(h + " starts with 1 ", head, name);
      StartsWithLonger(h + " starts with 1 " + name, head, " pixel, ");
    } else {
      StartsWithSpace(h, " starts with ");
      StartsWithLonger(h + " starts with ", head, NatToString(r.length));
      StartsWithLonger(h + " starts with " + NatToString(r.length), head, " ");
      StartsWithLonger(h + " starts with " + NatToString(r.length) + " ", head, name);
      StartsWithLonger(h + " starts with " + NatToString(r.length) + " " + name, head, " pixels, ");
    }
  }

  lemma OnlyNamesTheLine(row: nat, c: Colour)
    ensures StartsWith(OnlyContains(row, c), "Line " + NatToString(row) + " ")
  {
    var h := "Line " + NatToString(row);
    StartsWithSpace(h, " only contains ");
    StartsWithLonger(h + " only contains ", h + " ", c.Name());
    StartsWithLonger(h + " only contains " + c.Name(), h + " ", " pixels.\n");
  }

  /** The line of a row at least one pixel wide begins "Line N ", where `N`
      counts the rows from 1 at Min.Y. */
  lemma RowNumbered(img: Image, y: int)
    requires img.bounds.minY <= y && img.bounds.dx >= 1
    ensures StartsWith(RowText(img, y), "Line " + NatToString(y - img.bounds.minY + 1) + " ")
  {
    PhrasesNumbered(y - img.bounds.minY + 1, ScanColours(img, y));
  }

  /** The phrases of a row whose scan reads `q` over the whole width begin
      with "Line N ". */
  lemma PhrasesNumbered(row: nat, q: seq<Colour>)
    requires |q| >= 1
    ensures StartsWith(Concat(RowPhrases(row, q, |q|)), "Line " + NatToString(row) + " ")
  {
    var rs, ps := Runs(q), RowPhrases(row, q, |q|);
    var head := "Line " + NatToString(row) + " ";
    RowPhrasesShape(row, q);
    ConcatStartsWithFirst(ps);
    StartNamesTheLine(row, rs[0]);
    OnlyNamesTheLine(row, rs[0].colour);
    StartsWithTrans(Concat(ps), ps[0], head);
  }

  // ---------------------------------------------------------------------
  // The wording of a run

  /** How a phrase counts a run: its length, its colour, and "pixel" for a
      run of one, "pixels" otherwise. */
  function Quantity(r: Run): string {
    NatToString(r.length) + " " + r.colour.Name() + (if r.length == 1 then " pixel" else " pixels")
  }

  /** Every phrase of a run counts it the same way, whether or not the source
      spells out the "1": the opening of a row of several runs, ... */
  lemma StartWording(row: nat, r: Run)
    ensures StartPhrase(row, r) == "Line " + NatToString(row) + " starts with " + Quantity(r) + ", "
  {
    var h, name := "Line " + NatToString(row), r.colour.Name();
    if r.length == 1 {
      assert NatToString(1) == "1";
      assert " starts with 1 " == " starts with " + ("1" + " ");
      assert " pixel, " == " pixel" + ", ";
      Regroup(h, " starts with ", "1" + " ", name, " pixel", ", ");
    } else {
      assert " pixels, " == " pixels" + ", ";
      Regroup(h, " starts with ", NatToString(r.length) + " ", name, " pixels", ", ");
    }
  }

  /** ... a middle run, ... */
  lemma FollowWording(r: Run)
    ensures FollowPhrase(r) == "followed by " + Quantity(r) + ", "
  {
    var name := r.colour.Name();
    if r.length == 1 {
      assert NatToString(1) == "1";
      assert "followed by 1 " == "followed by " + ("1" + " ");
      assert " pixel, " == " pixel" + ", ";
      RegroupHead("followed by ", "1" + " ", name, " pixel", ", ");
    } else {
      assert " pixels, " == " pixels" + ", ";
      RegroupTail("followed by ", NatToString(r.length) + " ", name, " pixels", ", ");
    }
  }

  /** ... and the last run of a row of several runs. */
  lemma FinallyWording(r: Run)
    ensures FinallyPhrase(r) == "and finally " + Quantity(r) + ".\n"
  {
    var name := r.colour.Name();
    if r.length == 1 {
      assert NatToString(1) == "1";
      assert "and finally 1 " == "and finally " + ("1" + " ");
      assert " pixel.\n" == " pixel" + ".\n";
      RegroupHead("and finally ", "1" + " ", name, " pixel", ".\n");
    } else {
      assert " pixels.\n" == " pixels" + ".\n";
      RegroupTail("and finally ", NatToString(r.length) + " ", name, " pixels", ".\n");
    }
  }

  lemma RegroupHead(s: string, n: string, name: string, noun: string, end: string)
    ensures (s + n) + name + (noun + end) == s + (n + name + noun) + end
  {
  }

  lemma RegroupTail(s: string, n: string, name: string, noun: string, end: string)
    ensures s + n + name + (noun + end) == s + (n + name + noun) + end
  {
  }

  lemma Regroup(h: string, s: string, n: string, name: string, noun: string, end: string)
    ensures h + (s + n) + name + (noun + end) == h + s + (n + name + noun) + end
  {
  }

  /** The noun is singular exactly for a run of one pixel. */
  lemma QuantitySingular(r: Run)
    ensures Quantity(r) == "1 " + r.colour.Name() + " pixel" <==> r.length == 1
  {
    if r.length == 1 {
      assert NatToString(1) == "1";
    } else {
      assert |Quantity(r)| == |NatToString(r.length)| + |r.colour.Name()| + 8;
    }
  }

  /** A quantity is read back from the front of the text: followed by any
      text at all, it gives away its run's length and colour. */
  lemma QuantityDetermines(r: Run, s: Run, t: string, u: string)
    requires Quantity(r) + t == Quantity(s) + u
    ensures r == s
  {
    var nr := if r.length == 1 then " pixel" else " pixels";
    var ns := if s.length == 1 then " pixel" else " pixels";
    AssocRight(NatToString(r.length), " ", r.colour.Name(), nr, t);
    AssocRight(NatToString(s.length), " ", s.colour.Name(), ns, u);
    var tr, ts := " " + (r.colour.Name() + (nr + t)), " " + (s.colour.Name() + (ns + u));
    NatToStringSplit(r.length, tr, s.length, ts);
    ColourAfterSpace(r.colour, nr + t);
    ColourAfterSpace(s.colour, ns + u);
  }

  lemma ColourAfterSpace(c: Colour, t: string)
    ensures (" " + (c.Name() + t))[1] == if c == Black then 'b' else 'w'
  {
  }
}
