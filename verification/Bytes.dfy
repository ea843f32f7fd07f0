/** Machine integers and their little-endian encodings. */
module Bytes {
  type byte = x: int | 0 <= x < 256
  type u16 = x: int | 0 <= x < 0x1_0000
  type u32 = x: int | 0 <= x < 0x1_0000_0000
  type u64 = x: int | 0 <= x < 0x1_0000_0000_0000_0000

  const U64_MAX: u64 := 0xFFFF_FFFF_FFFF_FFFF

  function SatAdd(a: u64, b: u64): u64 {
    if a + b > U64_MAX then U64_MAX else a + b
  }

  function SatSub(a: u64, b: u64): u64 {
    if a < b then 0 else a - b
  }

  function Min(a: int, b: int): int {
    if a < b then a else b
  }

  function Pow256(n: nat): (r: nat)
    ensures r > 0
  {
    if n == 0 then 1 else 256 * Pow256(n - 1)
  }

  function LeDecode(s: seq<byte>): nat {
    if s == [] then 0 else s[0] + 256 * LeDecode(s[1..])
  }

  /** The `width` low-order bytes of `n`, least significant first: an integer
      cast to that width truncates in the same way. */
  function LeEncode(n: nat, width: nat): (s: seq<byte>)
    ensures |s| == width
  {
    if width == 0 then [] else [n % 256] + LeEncode(n / 256, width - 1)
  }

  lemma {:induction false} LeDecodeBound(s: seq<byte>)
    ensures LeDecode(s) < Pow256(|s|)
  {
    if s == [] {
    } else {
      LeDecodeBound(s[1..]);
    }
  }

  lemma {:induction false} LeDecodeEncode(n: nat, width: nat)
    ensures LeDecode(LeEncode(n, width)) == n % Pow256(width)
    ensures n < Pow256(width) ==> LeDecode(LeEncode(n, width)) == n
  {
    if width == 0 {
    } else {
      LeDecodeEncode(n / 256, width - 1);
      var p := Pow256(width - 1);
      assert LeEncode(n, width)[1..] == LeEncode(n / 256, width - 1);
      assert LeDecode(LeEncode(n, width)) == n % 256 + 256 * ((n / 256) % p);
      LeModStep(n, p);
    }
  }

  lemma LeModStep(n: nat, p: nat)
    requires p > 0
    ensures n % (256 * p) == n % 256 + 256 * ((n / 256) % p)
    ensures n < 256 * p ==> n % (256 * p) == n
  {
    var q := n / 256;
    var r := n % 256 + 256 * (q % p);
    assert n == 256 * q + n % 256;
    assert q == p * (q / p) + q % p;
    assert n == (256 * p) * (q / p) + r by {
      assert 256 * (p * (q / p)) == (256 * p) * (q / p);
    }
    assert 0 <= r < 256 * p;
    DivModUnique(n, 256 * p, q / p, r);
  }

  lemma DivModUnique(n: int, d: int, q: int, r: int)
    requires d > 0 && 0 <= r < d && n == d * q + r
    ensures n / d == q && n % d == r
  {
    var q', r' := n / d, n % d;
    assert n == d * q' + r';
    assert d * (q - q') == r' - r;
    assert q - q' >= 1 ==> d * (q - q') >= d;
    assert q - q' <= -1 ==> d * (q - q') <= -d;
  }

  lemma {:induction false} LeEncodeDecode(s: seq<byte>)
    ensures LeEncode(LeDecode(s), |s|) == s
  {
    if s == [] {
    } else {
      LeEncodeDecode(s[1..]);
      var n := LeDecode(s);
      assert n % 256 == s[0] && n / 256 == LeDecode(s[1..]);
      assert s == [s[0]] + s[1..];
    }
  }

  lemma PowConstants()
    ensures Pow256(2) == 0x1_0000
    ensures Pow256(4) == 0x1_0000_0000
    ensures Pow256(8) == 0x1_0000_0000_0000_0000
  {
    assert Pow256(2) == 256 * Pow256(1) == 0x1_0000;
    assert Pow256(4) == 256 * Pow256(3) == 256 * (256 * Pow256(2));
    assert Pow256(6) == 256 * Pow256(5) == 256 * (256 * Pow256(4));
    assert Pow256(8) == 256 * Pow256(7) == 256 * (256 * Pow256(6));
  }

  function ReadU16(s: seq<byte>, offset: nat): u16
    requires offset + 2 <= |s|
  {
    LeDecodeBound(s[offset..offset + 2]); PowConstants();
    LeDecode(s[offset..offset + 2])
  }

  function ReadU32(s: seq<byte>, offset: nat): u32
    requires offset + 4 <= |s|
  {
    LeDecodeBound(s[offset..offset + 4]); PowConstants();
    LeDecode(s[offset..offset + 4])
  }

  function ReadU64(s: seq<byte>, offset: nat): u64
    requires offset + 8 <= |s|
  {
    LeDecodeBound(s[offset..offset + 8]); PowConstants();
    LeDecode(s[offset..offset + 8])
  }

  /** `s` with the bytes from `offset` on replaced by `t`. */
  function Splice(s: seq<byte>, offset: nat, t: seq<byte>): (r: seq<byte>)
    requires offset + |t| <= |s|
    ensures |r| == |s|
  {
    s[..offset] + t + s[offset + |t|..]
  }

  /** Writing just behind a prefix extends it. */
  lemma SpliceExtends(before: seq<byte>, after: seq<byte>, offset: nat, t: seq<byte>)
    requires offset + |t| <= |before| && after == Splice(before, offset, t)
    ensures after[..offset + |t|] == before[..offset] + t
  {
  }

  lemma U64RoundTrip(s: seq<byte>, offset: nat, v: u64)
    requires offset + 8 <= |s|
    requires s[offset..offset + 8] == LeEncode(v, 8)
    ensures ReadU64(s, offset) == v
  {
    PowConstants();
    LeDecodeEncode(v, 8);
  }

  /** Overwrites bytes `offset .. offset + |t|` in place and nothing else. */
  method CopyInto(data: array<byte>, offset: nat, t: seq<byte>)
    requires offset + |t| <= data.Length
    modifies data
    ensures data[..] == Splice(old(data[..]), offset, t)
  {
    for i := 0 to |t|
      invariant forall k :: 0 <= k < i ==> data[offset + k] == t[k]
      invariant forall k :: 0 <= k < data.Length && !(offset <= k < offset + i) ==> data[k] == old(data[k])
    {
      data[offset + i] := t[i];
    }
  }

  method WriteU64(data: array<byte>, offset: nat, value: u64)
    requires offset + 8 <= data.Length
    modifies data
    ensures data[..] == Splice(old(data[..]), offset, LeEncode(value, 8))
    ensures ReadU64(data[..], offset) == value
  {
    CopyInto(data, offset, LeEncode(value, 8));
    U64RoundTrip(data[..], offset, value);
  }
}
