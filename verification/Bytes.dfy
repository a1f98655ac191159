/** Bytes and the big-endian integers of encoding/binary. */
module Bytes {

  type byte = b: int | 0 <= b < 256

  const TWO_TO_64: int := 0x1_0000_0000_0000_0000

  type uint64 = n: int | 0 <= n < TWO_TO_64

  datatype Option<+T> = None | Some(value: T)

  function Pow256(width: nat): (p: nat)
    ensures p > 0
  {
    if width == 0 then 1 else 256 * Pow256(width - 1)
  }

  /** The `width` low-order bytes of n, most significant first. */
  function BigEndian(n: nat, width: nat): (s: seq<byte>)
    ensures |s| == width
  {
    if width == 0 then [] else BigEndian(n / 256, width - 1) + [n % 256]
  }

  function FromBigEndian(s: seq<byte>): (n: nat)
    ensures n < Pow256(|s|)
  {
    if s == [] then 0 else FromBigEndian(s[..|s| - 1]) * 256 + s[|s| - 1]
  }

  /** PutUint16 and PutUint64: writes the bytes into a buffer, and nothing else of it. */
  method PutBigEndian(a: array<byte>, at: nat, width: nat, n: nat)
    requires at + width <= a.Length
    modifies a
    ensures a[at..at + width] == BigEndian(n, width)
    ensures forall i :: 0 <= i < a.Length && !(at <= i < at + width) ==> a[i] == old(a[i])
  {
    var k, high := width, n;
    while k > 0
      invariant 0 <= k <= width
      invariant BigEndian(n, width) == BigEndian(high, k) + a[at + k..at + width]
      invariant forall i :: 0 <= i < a.Length && !(at + k <= i < at + width) ==> a[i] == old(a[i])
    {
      k := k - 1;
      a[at + k] := high % 256;
      assert a[at + k..at + width] == [high % 256] + a[at + k + 1..at + width];
      high := high / 256;
    }
  }

  /** Encoding an integer that fits loses nothing. */
  lemma {:induction false} BigEndianRoundTrip(n: nat, width: nat)
    requires n < Pow256(width)
    ensures FromBigEndian(BigEndian(n, width)) == n
  {
    if width == 0 {
    } else {
      var high, low := n / 256, n % 256;
      assert n == high * 256 + low;
      BigEndianRoundTrip(high, width - 1);
      assert (BigEndian(high, width - 1) + [low])[..width - 1] == BigEndian(high, width - 1);
    }
  }

  /** Every byte string is the encoding of the integer it decodes to. */
  lemma {:induction false} BigEndianOnto(s: seq<byte>)
    ensures BigEndian(FromBigEndian(s), |s|) == s
  {
    if s == [] {
    } else {
      BigEndianOnto(s[..|s| - 1]);
    }
  }

  /** The first byte weighs most. */
  lemma {:induction false} MostSignificantFirst(s: seq<byte>)
    requires s != []
    ensures FromBigEndian(s) == s[0] * Pow256(|s| - 1) + FromBigEndian(s[1..])
  {
    var n := |s| - 1;
    if n == 0 {
      assert s[..0] == [] && s[1..] == [];
    } else {
      MostSignificantFirst(s[..n]);
      assert s[..n][1..] == s[1..][..n - 1] && s[1..][n - 1] == s[n];
      Shifted(s[0], Pow256(n - 1));
    }
  }

  lemma Shifted(a: nat, p: nat)
    ensures a * (256 * p) == a * p * 256
  {
  }

  lemma Uint64Fits(n: uint64)
    ensures n < Pow256(8) && FromBigEndian(BigEndian(n, 8)) == n
  {
    assert Pow256(8) == TWO_TO_64;
    BigEndianRoundTrip(n, 8);
  }

  /** The bytes of an ASCII string constant. */
  function Ascii(s: string): (r: seq<byte>)
    requires forall i :: 0 <= i < |s| ==> s[i] < 128 as char
    ensures |r| == |s|
    ensures forall i :: 0 <= i < |s| ==> r[i] == s[i] as int
  {
    seq(|s|, i requires 0 <= i < |s| => s[i] as int)
  }
}
