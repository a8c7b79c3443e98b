// Three worked prompts: a 1x1 white image, and the 1x3 and 1x5 images whose
// rows are black-black-white and white-black-black-black-white.

module Scenarios {
  import opened Decimal
  import opened Classifier
  import opened RunLength
  import opened Writer
  import opened PromptText
  import opened PromptProperties

  lemma ConcatPair(a: string, b: string)
    ensures Concat([a, b]) == a + b
  {
    ConcatAppend([a], [b]);
    ConcatSingle(a);
    ConcatSingle(b);
    assert [a] + [b] == [a, b];
  }

  lemma ConcatTriple(a: string, b: string, c: string)
    ensures Concat([a, b, c]) == a + b + c
  {
    ConcatPair(a, b);
    ConcatSnoc([a, b], c);
    assert [a, b] + [c] == [a, b, c];
  }

  // ---------------------------------------------------------------------
  // A 1x1 white image

  /** The image of one pixel of the lightest gray. */
  function WhitePixel(): Image {
    Image(Rectangle(0, 0, 1, 1), (x: int, y: int) => 255 as Gray)
  }

  /** The prompt of an image of one row is the header and that row's line. */
  lemma SingleRowPrompt(img: Image)
    requires img.bounds.dy == 1
    ensures Prompt(img) == Header(1, img.bounds.dx) + RowText(img, img.bounds.minY)
  {
    PromptLayout(img);
    var r := RowText(img, img.bounds.minY);
    assert RowTexts(img, img.bounds.MaxY()) == [] + [r];
    assert [] + [r] == [r];
    ConcatSingle(r);
  }

  lemma WhitePixelHeader()
    ensures Header(1, 1) == "Please create an image with " + "1" + " rows and " + "1" + " columns.\n\n"
  {
    assert NatToString(1) == "1";
  }

  lemma WhitePixelRow()
    ensures RowText(WhitePixel(), 0) == "Line " + "1" + " only contains " + "white" + " pixels.\n"
  {
    WidthOneRow(WhitePixel(), 0);
    assert NatToString(1) == "1";
    assert Classify(WhitePixel().At(0, 0)) == White;
  }

  /** Its prompt is the header followed by the one line "only contains". */
  lemma WhitePixelPrompt()
    ensures Prompt(WhitePixel())
         == ("Please create an image with " + "1" + " rows and " + "1" + " columns.\n\n")
            + ("Line " + "1" + " only contains " + "white" + " pixels.\n")
  {
    SingleRowPrompt(WhitePixel());
    WhitePixelHeader();
    WhitePixelRow();
  }

  // ---------------------------------------------------------------------
  // The row black, black, white

  lemma RunsBBW()
    ensures Runs([Black, Black, White]) == [Run(Black, 2), Run(White, 1)]
  {
    RunsUnique([Run(Black, 2), Run(White, 1)], [Black, Black, White]);
  }

  lemma PhrasesBBW()
    ensures RowPhrases(1, [Black, Black, White], 3)
         == [StartPhrase(1, Run(Black, 2)), FinallyPhrase(Run(White, 1))]
  {
    RunsBBW();
  }

  lemma StartTwoBlack()
    ensures StartPhrase(1, Run(Black, 2)) == "Line " + "1" + " starts with " + "2" + " black pixels, "
  {
    assert NatToString(1) == "1" && NatToString(2) == "2";
    assert " " + "black" + " pixels, " == " black pixels, ";
  }

  lemma FinallyOneWhite()
    ensures FinallyPhrase(Run(White, 1)) == "and finally 1 white pixel.\n"
  {
  }

  lemma RowBBW()
    ensures Concat(RowPhrases(1, [Black, Black, White], 3))
         == "Line " + "1" + " starts with " + "2" + " black pixels, " + "and finally 1 white pixel.\n"
  {
    PhrasesBBW();
    StartTwoBlack();
    FinallyOneWhite();
    ConcatPair(StartPhrase(1, Run(Black, 2)), FinallyPhrase(Run(White, 1)));
  }

  // ---------------------------------------------------------------------
  // The row white, black, black, black, white

  lemma RunsWBBBW()
    ensures Runs([White, Black, Black, Black, White]) == [Run(White, 1), Run(Black, 3), Run(White, 1)]
  {
    var rs := [Run(White, 1), Run(Black, 3), Run(White, 1)];
    assert rs[..2][..1] == [Run(White, 1)] && rs[..2] == [Run(White, 1), Run(Black, 3)];
    assert Repeat(White, 1) == [White] && Repeat(Black, 3) == [Black, Black, Black];
    assert Expand(rs[..2][..1]) == [White];
    assert Expand(rs[..2]) == [White, Black, Black, Black];
    RunsUnique(rs, [White, Black, Black, Black, White]);
  }

  lemma PhrasesWBBBW()
    ensures RowPhrases(1, [White, Black, Black, Black, White], 5)
         == [StartPhrase(1, Run(White, 1)), FollowPhrase(Run(Black, 3)), FinallyPhrase(Run(White, 1))]
  {
    RunsWBBBW();
  }

  lemma StartOneWhite()
    ensures StartPhrase(1, Run(White, 1)) == "Line " + "1" + " starts with 1 " + "white" + " pixel, "
  {
    assert NatToString(1) == "1";
  }

  lemma FollowThreeBlack()
    ensures FollowPhrase(Run(Black, 3)) == "followed by " + "3" + " black pixels, "
  {
    assert NatToString(3) == "3";
    assert " " + "black" + " pixels, " == " black pixels, ";
  }

  lemma RowWBBBW()
    ensures Concat(RowPhrases(1, [White, Black, Black, Black, White], 5))
         == ("Line " + "1" + " starts with 1 " + "white" + " pixel, ")
            + ("followed by " + "3" + " black pixels, ")
            + "and finally 1 white pixel.\n"
  {
    PhrasesWBBBW();
    StartOneWhite();
    FollowThreeBlack();
    FinallyOneWhite();
    ConcatTriple(StartPhrase(1, Run(White, 1)), FollowPhrase(Run(Black, 3)), FinallyPhrase(Run(White, 1)));
  }

  // ---------------------------------------------------------------------
  // The 1x3 and 1x5 images

  /** One row of three pixels: two of the darkest gray, then one of the lightest. */
  function BlackBlackWhite(): Image {
    Image(Rectangle(0, 0, 3, 1), (x: int, y: int) => if x < 2 then 0 as Gray else 255 as Gray)
  }

  /** One row of five pixels: the lightest gray at both ends, the darkest between. */
  function WhiteBlackWhite(): Image {
    Image(Rectangle(0, 0, 5, 1), (x: int, y: int) => if x == 0 || x == 4 then 255 as Gray else 0 as Gray)
  }

  lemma ScanBlackBlackWhite()
    ensures ScanColours(BlackBlackWhite(), 0) == [Black, Black, White]
  {
    var img := BlackBlackWhite();
    var q := ScanColours(img, 0);
    assert img.At(0, 0) == 0 && img.At(1, 0) == 0 && img.At(2, 0) == 255;
    assert q[0] == Classify(img.At(0, 0)) && q[1] == Classify(img.At(1, 0)) && q[2] == Classify(img.At(2, 0));
    assert q[0] == Black && q[1] == Black && q[2] == White;
  }

  lemma ScanWhiteBlackWhite()
    ensures ScanColours(WhiteBlackWhite(), 0) == [White, Black, Black, Black, White]
  {
    var img := WhiteBlackWhite();
    var q := ScanColours(img, 0);
    assert img.At(0, 0) == 255 && img.At(1, 0) == 0 && img.At(2, 0) == 0 && img.At(3, 0) == 0 && img.At(4, 0) == 255;
    assert q[0] == Classify(img.At(0, 0)) && q[1] == Classify(img.At(1, 0)) && q[2] == Classify(img.At(2, 0));
    assert q[3] == Classify(img.At(3, 0)) && q[4] == Classify(img.At(4, 0));
    assert q[0] == White && q[1] == Black && q[2] == Black && q[3] == Black && q[4] == White;
  }

  lemma OneRowHeader(width: nat)
    requires 1 <= width < 10
    ensures Header(1, width) == "Please create an image with " + "1" + " rows and " + [DigitChar(width)] + " columns.\n\n"
  {
    assert NatToString(1) == "1";
  }

  /** The first run is counted in the plural, the last in the singular. */
  lemma BlackBlackWhitePrompt()
    ensures Prompt(BlackBlackWhite())
         == ("Please create an image with " + "1" + " rows and " + "3" + " columns.\n\n")
            + ("Line " + "1" + " starts with " + "2" + " black pixels, " + "and finally 1 white pixel.\n")
  {
    SingleRowPrompt(BlackBlackWhite());
    OneRowHeader(3);
    assert [DigitChar(3)] == "3";
    ScanBlackBlackWhite();
    RowBBW();
  }

  /** A middle run is "followed by"; both runs of one pixel are singular. */
  lemma WhiteBlackWhitePrompt()
    ensures Prompt(WhiteBlackWhite())
         == ("Please create an image with " + "1" + " rows and " + "5" + " columns.\n\n")
            + (("Line " + "1" + " starts with 1 " + "white" + " pixel, ")
               + ("followed by " + "3" + " black pixels, ")
               + "and finally 1 white pixel.\n")
  {
    SingleRowPrompt(WhiteBlackWhite());
    OneRowHeader(5);
    assert [DigitChar(5)] == "5";
    ScanWhiteBlackWhite();
    RowWBBBW();
  }
}
