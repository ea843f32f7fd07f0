/** The WebAuthn pieces beside the JSON scanner: unpadded base64url (section 5
    of RFC 4648), the constant-time comparison and the authenticator data. */
module Webauthn {
  import opened Bytes
  import opened Slices

  /** The base64url alphabet: letters, digits, minus and underscore. */
  function Symbol(v: nat): byte
    requires v < 64
  {
    if v < 26 then 65 + v else if v < 52 then 97 + (v - 26) else if v < 62 then 48 + (v - 52)
    else if v == 62 then 45 else 95
  }

  function SymbolValue(c: byte): nat {
    if 65 <= c <= 90 then c - 65 else if 97 <= c <= 122 then c - 97 + 26 else if 48 <= c <= 57 then c - 48 + 52
    else if c == 45 then 62 else 63
  }

  predicate InAlphabet(c: byte) {
    65 <= c <= 90 || 97 <= c <= 122 || 48 <= c <= 57 || c == 45 || c == 95
  }

  /** The four sextets of three bytes. */
  function Sextet(c0: byte, c1: byte, c2: byte, k: nat): (v: nat)
    requires k < 4
    ensures v < 64
  {
    if k == 0 then c0 / 4
    else if k == 1 then c0 % 4 * 16 + c1 / 16
    else if k == 2 then c1 % 16 * 4 + c2 / 64
    else c2 % 64
  }

  /** The symbols of three bytes. */
  function Symbols(c0: byte, c1: byte, c2: byte): (s: seq<byte>)
    ensures |s| == 4
  {
    [Symbol(Sextet(c0, c1, c2, 0)), Symbol(Sextet(c0, c1, c2, 1)),
     Symbol(Sextet(c0, c1, c2, 2)), Symbol(Sextet(c0, c1, c2, 3))]
  }

  /** A missing byte counts as zero, and the sextets it alone would fill are left out. */
  function Encode(d: seq<byte>): seq<byte> {
    if |d| == 0 then []
    else if |d| == 1 then Symbols(d[0], 0, 0)[..2]
    else if |d| == 2 then Symbols(d[0], d[1], 0)[..3]
    else Symbols(d[0], d[1], d[2]) + Encode(d[3..])
  }

  /** The shifts and masks pick exactly the sextets. */
  lemma ShiftsAreSextets(c0: byte, c1: byte, c2: byte)
    ensures var b := c0 * 0x1_0000 + c1 * 0x100 + c2;
      && b / 0x4_0000 % 64 == Sextet(c0, c1, c2, 0) && b / 0x1000 % 64 == Sextet(c0, c1, c2, 1)
      && b / 0x40 % 64 == Sextet(c0, c1, c2, 2) && b % 64 == Sextet(c0, c1, c2, 3)
  {
    var b := c0 * 0x1_0000 + c1 * 0x100 + c2;
    DivModUnique(b, 64, c0 * 1024 + c1 * 4 + c2 / 64, c2 % 64);
    DivModUnique(b / 64, 64, c0 * 16 + c1 / 16, c1 % 16 * 4 + c2 / 64);
    DivModUnique(b, 0x1000, c0 * 16 + c1 / 16, c1 % 16 * 0x100 + c2);
    DivModUnique(c0 * 16 + c1 / 16, 64, c0 / 4, c0 % 4 * 16 + c1 / 16);
    DivModUnique(b, 0x4_0000, c0 / 4, c0 % 4 * 0x1_0000 + c1 * 0x100 + c2);
  }

  method Base64UrlEncodeNoPad(data: seq<byte>) returns (result: seq<byte>)
    ensures result == Encode(data)
  {
    result := [];
    var i := 0;
    assert data[0..] == data && [] + Encode(data) == Encode(data);
    EncodeNothing();
    hide *;
    while i < |data|
      invariant i <= |data|
      invariant result + Encode(data[i..]) == Encode(data)
    {
      ghost var before := result;
      var n := if |data| - i < 3 then |data| - i else 3;
      var c0: byte := data[i];
      var c1: byte := if n > 1 then data[i + 1] else 0;
      var c2: byte := if n > 2 then data[i + 2] else 0;
      var b := c0 * 0x1_0000 + c1 * 0x100 + c2;
      ShiftsAreSextets(c0, c1, c2);
      result := result + [Symbol(b / 0x4_0000 % 64)];
      result := result + [Symbol(b / 0x1000 % 64)];
      if n > 1 { result := result + [Symbol(b / 0x40 % 64)]; }
      if n > 2 { result := result + [Symbol(b % 64)]; }
      ChunkStep(data, i, n, before, result);
      i := i + n;
    }
    assert data[i..] == [] && result + [] == result;
  }

  lemma EncodeNothing()
    ensures Encode([]) == []
  {
  }

  lemma ChunkStep(data: seq<byte>, i: nat, n: nat, before: seq<byte>, after: seq<byte>)
    requires i < |data| && n == if |data| - i < 3 then |data| - i else 3
    requires var c0, c1: byte, c2: byte := data[i], if n > 1 then data[i + 1] else 0, if n > 2 then data[i + 2] else 0;
      after == before + [Symbol(Sextet(c0, c1, c2, 0))] + [Symbol(Sextet(c0, c1, c2, 1))]
        + (if n > 1 then [Symbol(Sextet(c0, c1, c2, 2))] else [])
        + (if n > 2 then [Symbol(Sextet(c0, c1, c2, 3))] else [])
    ensures before + Encode(data[i..]) == after + Encode(data[i + n..])
  {
    hide Symbol, Sextet;
    var s := data[i..];
    var c0, c1: byte, c2: byte := data[i], if n > 1 then data[i + 1] else 0, if n > 2 then data[i + 2] else 0;
    assert after == before + Symbols(c0, c1, c2)[..n + 1];
    hide Symbols;
    if n == 3 {
      DropDrop(data, i, 3);
      assert Encode(s) == Symbols(c0, c1, c2) + Encode(s[3..]);
      Associate(before, Symbols(c0, c1, c2), Encode(s[3..]));
    } else {
      assert data[i + n..] == [];
      assert Encode(s) == Symbols(c0, c1, c2)[..n + 1];
    }
  }

  /** The bytes that four sextets hold. */
  function Octet(a: nat, b: nat, c: nat, d: nat, k: nat): int
    requires k < 3
  {
    if k == 0 then a * 4 + b / 16 else if k == 1 then b % 16 * 16 + c / 4 else c % 4 * 64 + d
  }

  function Decode(s: seq<byte>): seq<int> {
    if |s| < 2 then []
    else
      var a, b := SymbolValue(s[0]), SymbolValue(s[1]);
      if |s| == 2 then [Octet(a, b, 0, 0, 0)]
      else
        var c := SymbolValue(s[2]);
        if |s| == 3 then [Octet(a, b, c, 0, 0), Octet(a, b, c, 0, 1)]
        else
          var d := SymbolValue(s[3]);
          [Octet(a, b, c, d, 0), Octet(a, b, c, d, 1), Octet(a, b, c, d, 2)] + Decode(s[4..])
  }

  lemma SymbolBack(v: nat)
    requires v < 64
    ensures SymbolValue(Symbol(v)) == v && InAlphabet(Symbol(v))
  {
  }

  lemma OctetsBack(c0: byte, c1: byte, c2: byte, c: nat, d: nat)
    ensures Octet(Sextet(c0, c1, c2, 0), Sextet(c0, c1, c2, 1), c, d, 0) == c0
    ensures Octet(Sextet(c0, c1, c2, 0), Sextet(c0, c1, c2, 1), Sextet(c0, c1, c2, 2), d, 1) == c1
    ensures Octet(Sextet(c0, c1, c2, 0), Sextet(c0, c1, c2, 1), Sextet(c0, c1, c2, 2), Sextet(c0, c1, c2, 3), 2) == c2
  {
    DivModUnique(c0 % 4 * 16 + c1 / 16, 16, c0 % 4, c1 / 16);
    DivModUnique(c1 % 16 * 4 + c2 / 64, 4, c1 % 16, c2 / 64);
  }

  lemma SymbolsBack(c0: byte, c1: byte, c2: byte, k: nat)
    requires k < 4
    ensures SymbolValue(Symbols(c0, c1, c2)[k]) == Sextet(c0, c1, c2, k)
  {
    hide Symbol, SymbolValue, Sextet;
    SymbolBack(Sextet(c0, c1, c2, k));
  }

  /** Decoding the symbols of a chunk gives its bytes back. */
  lemma DecodeChunk(c0: byte, c1: byte, c2: byte, rest: seq<byte>)
    ensures Decode(Symbols(c0, c1, c2) + rest) == [c0 as int, c1, c2] + Decode(rest)
    ensures Decode(Symbols(c0, c1, c2)[..3]) == [c0 as int, c1]
    ensures Decode(Symbols(c0, c1, c2)[..2]) == [c0 as int]
  {
    OctetsBack(c0, c1, c2, 0, 0);
    OctetsBack(c0, c1, c2, Sextet(c0, c1, c2, 2), 0);
    OctetsBack(c0, c1, c2, Sextet(c0, c1, c2, 2), Sextet(c0, c1, c2, 3));
    SymbolsBack(c0, c1, c2, 0);
    SymbolsBack(c0, c1, c2, 1);
    SymbolsBack(c0, c1, c2, 2);
    SymbolsBack(c0, c1, c2, 3);
    hide Symbols, SymbolValue, Sextet, Octet;
    assert (Symbols(c0, c1, c2) + rest)[4..] == rest;
  }

  /** Decoding undoes encoding. */
  lemma {:induction false} DecodeEncode(d: seq<byte>)
    ensures Decode(Encode(d)) == d
  {
    if d == [] {
    } else {
      DecodeChunk(d[0], if |d| > 1 then d[1] else 0, if |d| > 2 then d[2] else 0,
                  if |d| >= 3 then Encode(d[3..]) else []);
      hide Symbols, Decode;
      if |d| >= 3 {
        DecodeEncode(d[3..]);
        assert d == [d[0], d[1], d[2]] + d[3..];
      }
    }
  }

  /** The length is that of an unpadded encoding. */
  lemma {:induction false} EncodeLength(d: seq<byte>)
    ensures |Encode(d)| == |d| / 3 * 4 + (if |d| % 3 == 0 then 0 else |d| % 3 + 1)
  {
    hide Symbols;
    if |d| < 3 {
    } else {
      EncodeLength(d[3..]);
    }
  }

  /** Only characters of the alphabet are written. */
  lemma {:induction false} EncodeAlphabet(d: seq<byte>, i: nat)
    requires i < |Encode(d)|
    ensures InAlphabet(Encode(d)[i])
  {
    if |d| >= 3 && i >= 4 {
      EncodeAlphabet(d[3..], i - 4);
    } else {
      var c0: byte, c1: byte, c2: byte := d[0], if |d| > 1 then d[1] else 0, if |d| > 2 then d[2] else 0;
      SymbolBack(Sextet(c0, c1, c2, i));
      hide Symbol, Sextet, InAlphabet;
      assert Symbols(c0, c1, c2)[i] == Symbol(Sextet(c0, c1, c2, i));
      hide Symbols;
      assert Encode(d)[i] == Symbols(c0, c1, c2)[i];
    }
  }

  /** Distinct byte strings have distinct encodings. */
  lemma EncodeInjective(a: seq<byte>, b: seq<byte>)
    ensures Encode(a) == Encode(b) <==> a == b
  {
    DecodeEncode(a);
    DecodeEncode(b);
  }

  // ---------------------------------------------------------------------
  // Constant-time equality

  function Pack(b7: bool, b6: bool, b5: bool, b4: bool, b3: bool, b2: bool, b1: bool, b0: bool): bv8 {
    (if b7 then 0x80 else 0) | (if b6 then 0x40 else 0) | (if b5 then 0x20 else 0) | (if b4 then 0x10 else 0)
    | (if b3 then 0x08 else 0) | (if b2 then 0x04 else 0) | (if b1 then 0x02 else 0) | (if b0 then 0x01 else 0)
  }

  predicate Odd(x: nat) {
    x % 2 == 1
  }

  /** What is left of `x` without its last `n` binary digits. */
  function Halved(x: nat, n: nat): nat {
    if n == 0 then x else Halved(x, n - 1) / 2
  }

  predicate Digit(x: nat, n: nat) {
    Odd(Halved(x, n))
  }

  /** A byte as the bits the loop works on. */
  function Bits(x: byte): bv8 {
    Pack(Digit(x, 7), Digit(x, 6), Digit(x, 5), Digit(x, 4), Digit(x, 3), Digit(x, 2), Digit(x, 1), Digit(x, 0))
  }

  lemma PackInjective(a7: bool, a6: bool, a5: bool, a4: bool, a3: bool, a2: bool, a1: bool, a0: bool,
                      b7: bool, b6: bool, b5: bool, b4: bool, b3: bool, b2: bool, b1: bool, b0: bool)
    requires Pack(a7, a6, a5, a4, a3, a2, a1, a0) == Pack(b7, b6, b5, b4, b3, b2, b1, b0)
    ensures a7 == b7 && a6 == b6 && a5 == b5 && a4 == b4 && a3 == b3 && a2 == b2 && a1 == b1 && a0 == b0
  {
  }

  lemma {:induction false} HalvedSmall(x: nat, n: nat, limit: nat)
    requires Halved(x, n) < 2 * limit
    ensures Halved(x, n + 1) < limit
  {
  }

  /** Equal digits below `n` and equal rests above make equal numbers. */
  lemma {:induction false} DigitsDetermine(x: nat, y: nat, n: nat)
    requires Halved(x, n) == Halved(y, n)
    requires forall k: nat :: k < n ==> Digit(x, k) == Digit(y, k)
    ensures x == y
  {
    if n == 0 {
    } else {
      assert Digit(x, n - 1) == Digit(y, n - 1);
      DigitsDetermine(x, y, n - 1);
    }
  }

  lemma NothingAbove(x: byte)
    ensures Halved(x, 8) == 0
  {
    assert Halved(x, 0) < 256;
    HalvedSmall(x, 0, 128);
    HalvedSmall(x, 1, 64);
    HalvedSmall(x, 2, 32);
    HalvedSmall(x, 3, 16);
    HalvedSmall(x, 4, 8);
    HalvedSmall(x, 5, 4);
    HalvedSmall(x, 6, 2);
    HalvedSmall(x, 7, 1);
  }

  lemma BitsInjective(x: byte, y: byte)
    ensures Bits(x) == Bits(y) <==> x == y
  {
    if Bits(x) == Bits(y) {
      NothingAbove(x);
      NothingAbove(y);
      hide Pack, Digit, Halved;
      PackInjective(Digit(x, 7), Digit(x, 6), Digit(x, 5), Digit(x, 4),
                    Digit(x, 3), Digit(x, 2), Digit(x, 1), Digit(x, 0),
                    Digit(y, 7), Digit(y, 6), Digit(y, 5), Digit(y, 4),
                    Digit(y, 3), Digit(y, 2), Digit(y, 1), Digit(y, 0));
      DigitsDetermine(x, y, 8);
    }
  }

  lemma XorZeroBits(x: bv8, y: bv8)
    ensures x ^ y == 0 <==> x == y
  {
  }

  lemma XorZero(x: byte, y: byte)
    ensures Bits(x) ^ Bits(y) == 0 <==> x == y
  {
    BitsInjective(x, y);
    XorZeroBits(Bits(x), Bits(y));
    hide Bits;
  }

  lemma OrZero(a: bv8, b: bv8)
    ensures a | b == 0 <==> a == 0 && b == 0
  {
  }

  /** The accumulated comparison is equality. */
  method CtEq(a: seq<byte>, b: seq<byte>) returns (equal: bool)
    ensures equal <==> a == b
  {
    if |a| != |b| { return false; }
    var acc: bv8 := 0;
    hide Bits;
    for i := 0 to |a|
      invariant acc == 0 <==> a[..i] == b[..i]
    {
      XorZero(a[i], b[i]);
      OrZero(acc, Bits(a[i]) ^ Bits(b[i]));
      assert a[..i + 1] == a[..i] + [a[i]] && b[..i + 1] == b[..i] + [b[i]];
      acc := acc | (Bits(a[i]) ^ Bits(b[i]));
    }
    assert a[..|a|] == a && b[..|b|] == b;
    return acc == 0;
  }

  /** The challenge comparison accepts exactly the encoding of the hash. */
  lemma ChallengeText(hash: seq<byte>, other: seq<byte>, text: seq<byte>)
    requires text == Encode(hash)
    ensures text == Encode(other) <==> other == hash
    ensures |hash| == 32 ==> |text| == 43
  {
    EncodeInjective(hash, other);
    EncodeLength(hash);
  }

  // ---------------------------------------------------------------------
  // Authenticator data

  const AUTH_DATA_MIN_LEN: nat := 37

  predicate UserPresent(data: seq<byte>)
    requires |data| >= AUTH_DATA_MIN_LEN
  {
    data[32] % 2 == 1
  }

  function RpIdHash(data: seq<byte>): (h: seq<byte>)
    requires |data| >= AUTH_DATA_MIN_LEN
    ensures |h| == 32
  {
    data[..32]
  }
}
