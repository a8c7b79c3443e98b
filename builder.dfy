// Go's `strings.Builder` as the prompt code uses it: `fmt.Fprintf(&prompt, ...)`
// formats one string and writes it to the builder, and `prompt.String()`
// returns everything written so far, in order.

module Writer {

  /** The first `k` strings of `parts`, one after the other. */
  function ConcatFirst(parts: seq<string>, k: nat): string
    requires k <= |parts|
  {
    if k == 0 then "" else ConcatFirst(parts, k - 1) + parts[k - 1]
  }

  /** All of `parts`, one after the other. */
  function Concat(parts: seq<string>): string {
    ConcatFirst(parts, |parts|)
  }

  /** The concatenation of the first `k` strings depends on those strings only. */
  lemma {:induction false} ConcatFirstPrefix(parts: seq<string>, more: seq<string>, k: nat)
    requires k <= |parts|
    ensures ConcatFirst(parts + more, k) == ConcatFirst(parts, k)
  {
    if k > 0 {
      ConcatFirstPrefix(parts, more, k - 1);
      assert (parts + more)[k - 1] == parts[k - 1];
    }
  }

  /** Writing one more string appends it to the contents. */
  lemma ConcatSnoc(parts: seq<string>, s: string)
    ensures Concat(parts + [s]) == Concat(parts) + s
  {
    ConcatFirstPrefix(parts, [s], |parts|);
  }

  /** The contents of two batches of writes is the contents of the first
      followed by that of the second. */
  lemma {:induction false} ConcatAppend(a: seq<string>, b: seq<string>)
    ensures Concat(a + b) == Concat(a) + Concat(b)
    decreases |b|
  {
    if b == [] {
      assert a + b == a;
    } else {
      var init, last := b[..|b| - 1], b[|b| - 1];
      assert b == init + [last];
      assert a + b == (a + init) + [last];
      ConcatAppend(a, init);
      ConcatSnoc(a + init, last);
      ConcatSnoc(init, last);
    }
  }

  /** Nothing written, nothing in the builder. */
  lemma ConcatEmpty()
    ensures Concat([]) == ""
  {
  }

  /** A single write. */
  lemma ConcatSingle(s: string)
    ensures Concat([s]) == s
  {
    ConcatSnoc([], s);
    assert [] + [s] == [s];
  }

  /** The builder, as the sequence of strings written to it. */
  class Builder {
    var parts: seq<string>

    /** The zero value `var prompt strings.Builder`: nothing written. */
    constructor ()
      ensures parts == []
    {
      parts := [];
    }

    /** `prompt.String()`: everything written, in order. */
    function String(): string
      reads this
    {
      Concat(parts)
    }

    /** One `Fprintf` into the builder: the formatted string is written once. */
    method Write(s: string)
      modifies this
      ensures parts == old(parts) + [s]
    {
      parts := parts + [s];
    }
  }
}
