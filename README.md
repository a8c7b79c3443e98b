# image-to-prompt: the prompt encoder

`image-to-prompt` turns an image into an English prompt. The prompt describes the image pixel
by pixel as black and white runs. This project models the encoder at its core and proves
properties of the model. The encoder is the prompt-building part of `run` (main.go:88-141) and
the classifier `blackOrWhite` (main.go:149-156).

The encoder works as follows:
- It writes a header with the image's height and width.
- It walks every row from `Min.Y` down and scans it from `Min.X` to the right.
- During the scan it keeps a current run: a colour and a length.
- When the colour changes it flushes the run as a phrase. The first run of a row gives
  "Line N starts with …". Every later flushed run gives "followed by …".
- At the end of the row the last run gives "Line N only contains … pixels." when it spans the
  whole width, and "and finally …." otherwise.

The model is organised in these modules:

- `Decimal` (decimal.dfy): `%d` on non-negative integers, `NatToString`. It is proved to print
  digits without a leading zero, to read back to the number printed, and to split uniquely
  from the text that follows it.
- `Classifier` (classifier.dfy): the 8-bit gray value `Gray` and `Classify`, which is
  `blackOrWhite` applied to the gray value `color.GrayModel` gives, with threshold 128. The
  two classes are a datatype `Colour` whose `Name()` is the word the prompt prints.
- `RunLength` (runs.dfy): runs and the left-to-right scan `Scan(q, n)`. It lengthens the
  current run or opens a new one at each pixel, exactly as the inner loop does. `Runs(q)` is
  the scan of a whole row; it is proved to tile the row with maximal runs and to be the only
  such tiling.
- `Writer` (builder.dfy): the `strings.Builder` as a class `Builder` whose field `parts` is
  the sequence of strings written to it, one per `Fprintf`. Its contents `String()` is their
  concatenation `Concat(parts)`.
- `PromptText` (prompt.dfy): the image, as Go's `image.Image` (bounds and `At`), and the
  prompt as functions of it. `RowWrites(img, y)` are the phrases written for row `y`,
  `Writes(img)` is everything written, and `Prompt(img)` is the prompt.
- `Encoder` (encoder.dfy): the encoder itself, written imperatively. `BuildPrompt` has the
  row loop, `DescribeRow` the scan of one row, and `FlushRun` and `FinishRow` the two flushing
  blocks with their literal branches. Each is proved against the functions of `PromptText`
  through its loop invariants. The invariants of the scan say two things. First, the flushed
  runs and the current run are the scan of the pixels read so far. Second,
  `runLength == x - Min.X` exactly when nothing has been flushed.
- `PromptProperties` (properties.dfy): the header, one line per row, the row number, the
  phrase order, the singular and the plural, and the rows of one colour.
- `Scenarios` (scenarios.dfy): three worked prompts, for a 1×1 white image, a 1×3 image whose
  row is black-black-white and a 1×5 image whose row is white-black-black-black-white.

Three behaviours of the code are modelled as written:
- A row of width 0 still reads `At(Min.X, y)`, a point outside the bounds (main.go:96-100).
  Its line is then "and finally 1 c pixel.\n", with no row number, because `runLength` (1) is
  not `Dx()` (0) (main.go:134-137). The row still gets a line of its own (`ZeroWidthRow`).
- A row one pixel wide is "only contains … pixels", in the plural (main.go:134-135).
- An image without rows gives the header alone.

## Model

| member | source | states |
|---|---|---|
| Encoder.BuildPrompt | main.go:88-143 | the string the builder holds after the header and the row loop is `Prompt(img)`: the header, then every row's phrases from Min.Y down |
| Encoder.DescribeRow | main.go:94-140 | the scan of row `y` appends exactly that row's phrases `RowWrites(img, y)` to the builder and nothing else |
| Encoder.FlushRun | main.go:113-126 | a flushed run writes "Line N starts with" when `runLength == x - Min.X` and "followed by" otherwise, singular for a run of 1 |
| Encoder.FinishRow | main.go:133-140 | the last run writes "only contains … pixels." when its length is `Dx()`, otherwise "and finally" with the singular for a run of 1 |
| Encoder.ScanSame | main.go:106-108 | a pixel of the current colour lengthens the current run by one |
| Encoder.ScanChange | main.go:128-130 | a pixel of another colour closes the current run and opens a run of length 1 of the new colour |
| Encoder.FlushedStep | main.go:113-126 | flushing a run adds its phrase, and the phrase opens the line exactly when nothing was flushed before it |
| Encoder.RowOfRuns | main.go:133-140 | after the last flush, the writes for the row are the row's phrases |
| PromptText.Prompt | main.go:88-143 | the prompt is the concatenation of everything written to the builder, `Concat(Writes(img))` |
| PromptText.Writes | main.go:88-141 | the builder receives the header first, then the writes of every row from Min.Y to Max.Y - 1 |
| PromptText.LineWrites | main.go:94-141 | the writes of the rows from Min.Y up to, not including, `y`, top row first |
| PromptText.RowWrites | main.go:94-140 | row `y` is numbered `y - Min.Y + 1`, and its writes are the phrases of the colours its scan reads, with width `Dx()` |
| PromptText.RowPhrases | main.go:98-140 | the phrases of a row are one phrase per flushed run (every run but the last) and then the last run's phrase |
| PromptText.RowText | main.go:94-140 | the line of row `y` is the concatenation of that row's writes |
| PromptText.Header | main.go:92 | the header is "Please create an image with {Dy} rows and {Dx} columns." followed by a blank line |
| PromptText.StartPhrase | main.go:116-122 | the first flushed run is "Line N starts with {n} {colour} pixel(s), " |
| PromptText.FollowPhrase | main.go:118-124 | a later flushed run is "followed by {n} {colour} pixel(s), " |
| PromptText.OnlyContains | main.go:135 | a row that is one run as wide as `Dx()` is "Line N only contains {colour} pixels.\n" |
| PromptText.FinallyPhrase | main.go:137-139 | the last run of any other row is "and finally {n} {colour} pixel(s).\n" |
| PromptText.FlushPhrase | main.go:114-126 | a flushed run is the "starts with" phrase when nothing was flushed before it and the "followed by" phrase otherwise |
| PromptText.FinalPhrase | main.go:134-139 | the last run is "only contains" when its length is `Dx()`, and "and finally" otherwise |
| RunLength.Extend | main.go:104-131 | one more pixel lengthens the last run when it has the same colour, and opens a run of length 1 otherwise |
| RunLength.Runs | main.go:98-131 | the runs of a row are the scan of all its pixels |
| Writer.Concat | main.go:143 | the builder's contents are its writes joined in order, with nothing between them |
| Writer.Builder.String | main.go:143 | `String()` is the concatenation of the parts written |
| Writer.Builder.constructor | main.go:89 | a new builder holds nothing |
| Writer.Builder.Write | main.go:92 | a write appends its string to the builder and changes nothing else |
| Writer.ConcatAppend | main.go:143 | the contents of two successive batches of writes is the first batch's contents followed by the second's |
| Writer.ConcatSnoc | main.go:143 | one more write extends the contents by exactly its string |
| Classifier.Classify | main.go:149-156 | black exactly when the gray value is below 128, white exactly when it is 128 or more |
| Classifier.ClassifyBoundary | main.go:151-155 | 127 is black and 128 is white; 0 is named "black" and 255 "white" |
| Classifier.ClassifyMonotone | main.go:151-155 | a lighter pixel is never classified blacker than a darker one |
| Classifier.NameInjective | main.go:106 | comparing the colour strings, as the scan does, is comparing the classes |
| Decimal.NatToString | main.go:92 | `%d` prints at least one character, and exactly one for numbers below 10 |
| Decimal.NatToStringDigits | main.go:92 | `%d` prints only digits, with no leading zero except for 0 itself |
| Decimal.DecimalRoundTrip | main.go:92 | reading the printed digits back gives the number printed |
| Decimal.NatToStringInjective | main.go:92 | different numbers print differently |
| Decimal.NatToStringSplit | main.go:92 | a printed number followed by a non-digit splits off uniquely: same number, same rest |
| RunLength.Scan | main.go:98-131 | the scan of `n` pixels has no run exactly when `n` is 0, and at most `n` runs |
| RunLength.ExtendExpand | main.go:104-131 | one step of the scan keeps the runs maximal and extends the pixels they stand for by the pixel read |
| RunLength.ScanTiles | main.go:98-131 | after `n` pixels, the flushed runs plus the current run are maximal and rebuild exactly those `n` pixels |
| RunLength.RunsTileRow | main.go:98-131 | the runs of a row are maximal (lengths at least 1, neighbours of different colour) and rebuild the row |
| RunLength.RunsSumToWidth | main.go:98-131 | the run lengths of a row sum to its width |
| RunLength.ScanUnique | main.go:98-131 | any maximal tiling of the first `n` pixels is the scan's |
| RunLength.RunsUnique | main.go:98-131 | the runs of a row are its only maximal tiling |
| RunLength.RunsOfUniform | main.go:134 | a row of one colour is a single run as long as the row |
| RunLength.SingleRunIsUniform | main.go:134 | a row with a single run is of that run's colour, and the run spans it |
| RunLength.SumLengthsAtLeastLast | main.go:134 | with two runs or more, the last run is shorter than the row |
| RunLength.FirstRunTest | main.go:115-121 | `x - Min.X` is the flushed lengths plus `runLength`, so `runLength == x - Min.X` exactly when nothing has been flushed |
| RunLength.LastRunSpans | main.go:134 | the last run's length is the width exactly when the row is a single run |
| PromptText.ScanColours | main.go:96-105 | the scan reads `Dx()` pixels, or the one pixel at Min.X when `Dx()` is 0 |
| PromptText.FlushedPhrases | main.go:113-126 | one phrase per flushed run |
| PromptProperties.RowTexts | main.go:94 | one text per row from Min.Y to the row given |
| PromptProperties.PromptBeginsWithHeader | main.go:92 | the prompt begins with exactly "Please create an image with {Dy} rows and {Dx} columns.\n\n" |
| PromptProperties.HeaderDetermines | main.go:92 | two headers are equal only for the same height and width |
| PromptProperties.PromptLayout | main.go:92-141 | the prompt is the header followed by the rows' texts, top row first |
| PromptProperties.LineWritesText | main.go:94-141 | the writes of the rows above `y` concatenate to those rows' texts |
| PromptProperties.ZeroHeightPrompt | main.go:92-94 | an image without rows gives the header alone |
| PromptProperties.FlushPhraseNoNewline | main.go:113-126 | no flushed phrase holds a newline |
| PromptProperties.FinalPhraseIsLine | main.go:133-140 | the last phrase of a row holds one newline, at its end |
| PromptProperties.RowIsLine | main.go:94-140 | the phrases of a row make exactly one line |
| PromptProperties.RowTextIsLine | main.go:94-140 | every row adds exactly one line, ending in its only newline |
| PromptProperties.RowTextsAreLines | main.go:94-140 | every row's text is one line |
| PromptProperties.LinesNewlines | main.go:94-140 | lines written one after another hold one newline each |
| PromptProperties.HeaderCount | main.go:92 | the header holds two newlines |
| PromptProperties.PromptLineCount | main.go:92-141 | the prompt holds `Dy() + 2` newlines: two for the header, one per row |
| PromptProperties.RowNumbered | main.go:95-135 | a row at least one pixel wide begins "Line N ", with `N = y - Min.Y + 1` |
| PromptProperties.PhrasesNumbered | main.go:116-135 | the phrases of a row begin "Line N " whether it opens with "starts with" or "only contains" |
| PromptProperties.FlushedPhrasesAt | main.go:113-126 | the i-th flushed phrase is the i-th run's, and opens the line exactly for i = 0 |
| PromptProperties.RowPhrasesShape | main.go:113-139 | one phrase per run. A single run gives "only contains". With two runs or more: "starts with" first, "followed by" for every middle run, "and finally" last |
| PromptProperties.UniformRowIff | main.go:134-135 | a row at least one pixel wide is of colour `c` exactly when its line is "Line N only contains c pixels.\n" |
| PromptProperties.UniformPhrasesIff | main.go:134-135 | the phrases of a row are "only contains c" exactly when every pixel read is `c` |
| PromptProperties.SeveralRunsNotOnly | main.go:116-122 | a line opened by "starts with" is never an "only contains" line |
| PromptProperties.WidthOneRow | main.go:134-135 | a row one pixel wide is "Line N only contains c pixels.\n", in the plural |
| PromptProperties.ZeroWidthRow | main.go:99-137 | a row of width 0 reads the pixel at Min.X and is "and finally 1 c pixel.\n" |
| PromptProperties.StartWording | main.go:114-122 | both "starts with" branches count the run as "{n} {colour} pixel(s)" |
| PromptProperties.FollowWording | main.go:117-124 | both "followed by" branches count the run as "{n} {colour} pixel(s)" |
| PromptProperties.FinallyWording | main.go:136-139 | both "and finally" branches count the run as "{n} {colour} pixel(s)" |
| PromptProperties.QuantitySingular | main.go:114-139 | a run is counted "1 c pixel", in the singular, exactly when its length is 1 |
| PromptProperties.QuantityDetermines | main.go:114-139 | a run's count can be read back from the front of any text it opens: equal counts come from equal runs |
| PromptProperties.OnlyContainsDetermines | main.go:135 | the "only contains" line names its colour recoverably |
| PromptProperties.ScanColoursOfRow | main.go:99-105 | the scan of a row at least one pixel wide reads the class of every pixel of the row |
| Scenarios.WhitePixelPrompt | main.go:88-140 | a 1×1 white image gives the header and "Line 1 only contains white pixels.\n" |
| Scenarios.BlackBlackWhitePrompt | main.go:88-140 | a 1×3 image of two black pixels then one white gives the header for 1 row and 3 columns, then "Line 1 starts with 2 black pixels, and finally 1 white pixel.\n" |
| Scenarios.WhiteBlackWhitePrompt | main.go:88-140 | a 1×5 image white, black, black, black, white gives the header for 1 row and 5 columns, then "Line 1 starts with 1 white pixel, followed by 3 black pixels, and finally 1 white pixel.\n" |
| Scenarios.ScanBlackBlackWhite | main.go:96-105 | the scan of the 1×3 image reads black, black, white |
| Scenarios.ScanWhiteBlackWhite | main.go:96-105 | the scan of the 1×5 image reads white, black, black, black, white |
| Scenarios.OneRowHeader | main.go:92 | the header of one row and a one-digit width names 1 row and that digit of columns |
| Scenarios.RowBBW | main.go:113-139 | black, black, white gives "Line 1 starts with 2 black pixels, and finally 1 white pixel.\n" |
| Scenarios.RowWBBBW | main.go:113-139 | white, black, black, black, white gives "Line 1 starts with 1 white pixel, followed by 3 black pixels, and finally 1 white pixel.\n" |
| Scenarios.SingleRowPrompt | main.go:92-141 | the prompt of an image of one row is the header followed by that row's line |

## Left out

- The command line (cobra command, flags, version, `main`, main.go:15-37): glue around the encoder.
- The logging setup through `slog` (main.go:40-70): process configuration with no effect on the prompt.
- Opening the file, `image.Decode` and the PNG decoder registration (main.go:7, 75-86), with their errors: I/O and library calls. The model takes the decoded image as input.
- The luma formula of `color.GrayModel.Convert` (main.go:150): a library conversion. An `Image`'s `At` yields the gray value directly.
- The final `fmt.Print` (main.go:143): output. `BuildPrompt` returns the string printed.
- Writer.Builder: keeps the sequence of strings written, one per `Fprintf`, rather than one character buffer. Its contents `String()` is their concatenation, so what it holds is the same. `Fprintf` is modelled as a `Write` of the phrase already formatted.
- Classifier.Colour: the colours are a datatype rather than the strings "black" and "white". `Name()` gives the string, and `NameInjective` shows that comparing names, as main.go:106 does, is comparing colours.
- Go's `int` is 64 bits wide. The model's coordinates, run lengths and counts are unbounded. No decodable image comes near the limit.
- `At` is total: for the point outside the bounds that a zero-width row reads, the model uses whatever gray value the image gives there.
- PromptText.Rectangle: the bounds are taken well formed, with Max at least Min, so `Dx()` and `Dy()` are never negative, as for every decoded image. A rectangle with Max below Min, whose negative sizes `%d` would print in the header, cannot be expressed.
