// The prompt the encoder of main.go:88-141 builds, stated as functions of
// the image: the header, then one line per row that phrases the row's runs.

module PromptText {
  import opened Decimal
  import opened Classifier
  import opened RunLength
  import opened Writer

  /** Go's `image.Rectangle` as a decoder returns it, well formed: the points
      minX <= x < minX + dx, minY <= y < minY + dy, where `dx` and `dy` are
      its `Dx()` and `Dy()`. */
  datatype Rectangle = Rectangle(minX: int, minY: int, dx: nat, dy: nat) {
    /** `Max.X`. */
    function MaxX(): int {
      minX + dx
    }

    /** `Max.Y`. */
    function MaxY(): int {
      minY + dy
    }
  }

  /** Go's `image.Image`: its bounds and the gray value of the colour `At`
      returns for every point, inside the bounds or not. */
  datatype Image = Image(bounds: Rectangle, at: (int, int) -> Gray) {
    /** The gray value of `img.At(x, y)`. */
    function At(x: int, y: int): Gray {
      at(x, y)
    }
  }

  /** The colours the scan of row `y` classifies: the pixel at Min.X is read
      whatever the width, then every further column of the row. */
  function ScanColours(img: Image, y: int): (q: seq<Colour>)
    ensures |q| == if img.bounds.dx == 0 then 1 else img.bounds.dx
  {
    var n := if img.bounds.dx == 0 then 1 else img.bounds.dx;
    seq(n, i => Classify(img.At(img.bounds.minX + i, y)))
  }

  // ---------------------------------------------------------------------
  // The phrases

  function Header(height: nat, width: nat): string {
    "Please create an image with " + NatToString(height) + " rows and " + NatToString(width) + " columns.\n\n"
  }

  /** The phrase of the first run of a row when the row has more runs. */
  function StartPhrase(row: nat, r: Run): string {
    if r.length == 1 then "Line " + NatToString(row) + " starts with 1 " + r.colour.Name() + " pixel, "
    else "Line " + NatToString(row) + " starts with " + NatToString(r.length) + " " + r.colour.Name() + " pixels, "
  }

  /** The phrase of a run between the first and the last of its row. */
  function FollowPhrase(r: Run): string {
    if r.length == 1 then "followed by 1 " + r.colour.Name() + " pixel, "
    else "followed by " + NatToString(r.length) + " " + r.colour.Name() + " pixels, "
  }

  /** The phrase of a row of one colour. */
  function OnlyContains(row: nat, c: Colour): string {
    "Line " + NatToString(row) + " only contains " + c.Name() + " pixels.\n"
  }

  /** The phrase of the last run of a row that has more runs. */
  function FinallyPhrase(r: Run): string {
    if r.length == 1 then "and finally 1 " + r.colour.Name() + " pixel.\n"
    else "and finally " + NatToString(r.length) + " " + r.colour.Name() + " pixels.\n"
  }

  /** The phrase of a run flushed before the end of the row: the run that
      opens the row names the line, every later one follows it. */
  function FlushPhrase(row: nat, r: Run, first: bool): string {
    if first then StartPhrase(row, r) else FollowPhrase(r)
  }

  /** The phrase of the run still open at the end of the row: "only contains"
      when its length is the image width, "and finally" otherwise. */
  function FinalPhrase(row: nat, r: Run, width: nat): string {
    if r.length == width then OnlyContains(row, r.colour) else FinallyPhrase(r)
  }

  /** The phrases of the first `k` runs of `rs`, flushed in order, the first
      as the row's opening. */
  function FlushedPhrases(row: nat, rs: seq<Run>, k: nat): (ps: seq<string>)
    requires k <= |rs|
    ensures |ps| == k
  {
    if k == 0 then [] else FlushedPhrases(row, rs, k - 1) + [FlushPhrase(row, rs[k - 1], k == 1)]
  }

  /** The phrases written for a row with 1-based number `row` whose scan reads
      the colours `q`: one per run, every run but the last flushed, then the
      last run's phrase. */
  function RowPhrases(row: nat, q: seq<Colour>, width: nat): (ps: seq<string>)
    requires |q| >= 1
  {
    var rs := Runs(q);
    FlushedPhrases(row, rs, |rs| - 1) + [FinalPhrase(row, rs[|rs| - 1], width)]
  }

  /** The phrases written for row `y` of the image; its number counts from 1 at Min.Y. */
  function RowWrites(img: Image, y: int): seq<string>
    requires img.bounds.minY <= y
  {
    RowPhrases(y - img.bounds.minY + 1, ScanColours(img, y), img.bounds.dx)
  }

  /** The phrases written for the rows from Min.Y up to, not including, `y`, top to bottom. */
  function LineWrites(img: Image, y: int): seq<string>
    requires img.bounds.minY <= y <= img.bounds.MaxY()
    decreases y - img.bounds.minY
  {
    if y == img.bounds.minY then [] else LineWrites(img, y - 1) + RowWrites(img, y - 1)
  }

  /** Everything written to the builder: the header, then the rows. */
  function Writes(img: Image): seq<string>
  {
    [Header(img.bounds.dy, img.bounds.dx)] + LineWrites(img, img.bounds.MaxY())
  }

  /** The line of row `y`. */
  function RowText(img: Image, y: int): string
    requires img.bounds.minY <= y
  {
    Concat(RowWrites(img, y))
  }

  /** The whole prompt. */
  function Prompt(img: Image): string
  {
    Concat(Writes(img))
  }
}
