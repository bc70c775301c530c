/**
 Bytes of one terminal's stream.  Offsets count from the first byte the terminal ever
 produced, so a piece of the stream is an offset together with the bytes found there.
 */
module Bytes {

  newtype byte = x: int | 0 <= x < 0x100

  datatype Option<+T> = None | Some(value: T)

  function Min(a: int, b: int): int { if a <= b then a else b }

  function Max(a: int, b: int): int { if a <= b then b else a }

  /** Subtraction that stops at zero, as `saturating_sub` does. */
  function Minus(a: nat, b: nat): nat { Max(a - b, 0) }

  /** `data` is exactly what `stream` holds from offset `off` on. */
  predicate At(stream: seq<byte>, off: int, data: seq<byte>) {
    0 <= off && off + |data| <= |stream| && data == stream[off..off + |data|]
  }

  lemma AtGrows(stream: seq<byte>, more: seq<byte>, off: int, data: seq<byte>)
    requires At(stream, off, data)
    ensures At(stream + more, off, data)
  {
  }

  lemma AtCut(stream: seq<byte>, off: int, data: seq<byte>, n: nat)
    requires At(stream, off, data) && off + |data| <= n <= |stream|
    ensures At(stream[..n], off, data)
  {
  }

  lemma AtSlice(stream: seq<byte>, off: int, data: seq<byte>, lo: int, hi: int)
    requires At(stream, off, data) && 0 <= lo <= hi <= |data|
    ensures At(stream, off + lo, data[lo..hi])
  {
    forall i | 0 <= i < hi - lo
      ensures data[lo..hi][i] == stream[off + lo + i]
    {
      assert data[lo + i] == stream[off..off + |data|][lo + i];
    }
  }

  lemma AtJoin(stream: seq<byte>, off: int, a: seq<byte>, b: seq<byte>)
    requires At(stream, off, a) && At(stream, off + |a|, b)
    ensures At(stream, off, a + b)
  {
    assert stream[off..off + |a| + |b|]
        == stream[off..off + |a|] + stream[off + |a|..off + |a| + |b|];
  }

  lemma Rejoin(log: seq<byte>, bytes: seq<byte>, k: nat)
    requires k <= |bytes|
    ensures log + bytes[..k] + bytes[k..] == log + bytes
  {
    assert bytes[..k] + bytes[k..] == bytes;
    assert log + bytes[..k] + bytes[k..] == log + (bytes[..k] + bytes[k..]);
  }

  /** The newest `n` bytes, or all of them when there are fewer. */
  function Last(s: seq<byte>, n: nat): (r: seq<byte>)
    ensures |r| == Min(|s|, n)
  {
    s[|s| - Min(|s|, n)..]
  }

  /** Trimming early changes nothing: bytes that would be cut later may be cut now. */
  lemma LastOfLast(a: seq<byte>, b: seq<byte>, n: nat, m: nat)
    requires n <= m
    ensures Last(Last(a, m) + b, n) == Last(a + b, n)
  {
    var cut := |a| - Min(|a|, m);
    assert Last(a, m) + b == (a + b)[cut..];
  }
}
