// The pixel classifier `blackOrWhite` (main.go:149-156): a pixel is black
// when its 8-bit gray value is below one half of the range, white otherwise.

module Classifier {

  /** An 8-bit gray value, the `Y` of Go's `color.Gray`. */
  newtype Gray = g: int | 0 <= g < 256

  /** The threshold: gray values strictly below it are black. */
  const Threshold: Gray := 128

  /** The two classes; the source carries them as the strings "black" and "white". */
  datatype Colour = Black | White {
    /** The word the prompt uses for this colour. */
    function Name(): string
    {
      match this
      case Black => "black"
      case White => "white"
    }
  }

  /** `blackOrWhite`, applied to the gray value of a pixel. */
  function Classify(g: Gray): (c: Colour)
    ensures c == Black <==> g < Threshold
    ensures c == White <==> Threshold <= g
  {
    if g < Threshold then Black else White
  }

  /** Comparing colour names, as the source does, is comparing colours. */
  lemma NameInjective(c: Colour, d: Colour)
    ensures c.Name() == d.Name() <==> c == d
  {
    if c != d {
      assert c.Name()[0] != d.Name()[0];
    }
  }

  /** A darker pixel is never classified whiter than a lighter one. */
  lemma ClassifyMonotone(g: Gray, h: Gray)
    requires g <= h
    ensures Classify(g) == White ==> Classify(h) == White
    ensures Classify(h) == Black ==> Classify(g) == Black
  {
  }

  /** The boundary: 127 is the lightest black, 128 the darkest white. */
  lemma ClassifyBoundary()
    ensures Classify(127) == Black && Classify(128) == White
    ensures Classify(0).Name() == "black" && Classify(255).Name() == "white"
  {
  }
}
