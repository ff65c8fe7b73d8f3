/** Writes into byte sequences, as both file systems make them. */
module ByteSeq {
  type Bytes = seq<int>

  /** data over the bytes of s from `at` on, which must be there. */
  function Poke(s: Bytes, at: int, data: Bytes): (r: Bytes)
    requires 0 <= at && at + |data| <= |s|
    ensures |r| == |s|
    ensures forall i :: 0 <= i < |r| ==> r[i] == if at <= i < at + |data| then data[i - at] else s[i]
  {
    s[..at] + data + s[at + |data|..]
  }

  /** data over the bytes of s from off on, and beyond its end if need be. */
  function Overwritten(s: Bytes, off: int, data: Bytes): (r: Bytes)
    requires 0 <= off <= |s|
    ensures |r| == if off + |data| > |s| then off + |data| else |s|
    ensures forall k :: 0 <= k < |r| ==> r[k] == if off <= k < off + |data| then data[k - off] else s[k]
  {
    s[..off] + data + (if off + |data| < |s| then s[off + |data|..] else [])
  }

  lemma SliceJoin(s: Bytes, a: int, b: int, c: int)
    requires 0 <= a <= b <= c <= |s|
    ensures s[a..c] == s[a..b] + s[b..c]
  {
  }

  /** Two writes, one behind the other, are one. */
  lemma OverwrittenTwice(s: Bytes, off: int, a: Bytes, b: Bytes)
    requires 0 <= off <= |s|
    ensures Overwritten(Overwritten(s, off, a), off + |a|, b) == Overwritten(s, off, a + b)
  {
    var x, y := Overwritten(Overwritten(s, off, a), off + |a|, b), Overwritten(s, off, a + b);
    forall k | 0 <= k < |x|
      ensures x[k] == y[k]
    {
    }
  }
}
