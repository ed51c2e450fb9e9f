/**
 Byte encodings of numbers (util/coding.h, util/coding.cc): fixed-width little-endian words,
 varints of seven bits a byte, and length-prefixed strings.
 */
module Coding {
  import opened Keys

  type Byte = n: nat | n < 0x100

  const TWO32 := 0x1_0000_0000
  const TWO64 := 0x1_0000_0000_0000_0000

  /* ---- fixed width ---- */

  // coding.cc:9
  function EncodeFixed32(n: nat): (r: seq<Byte>)
    requires n < TWO32
    ensures |r| == 4
  {
    [n % 0x100, n / 0x100 % 0x100, n / 0x100 / 0x100 % 0x100, n / 0x100 / 0x100 / 0x100 % 0x100]
  }

  function DecodeFixed32(b: seq<Byte>): (n: nat)
    requires |b| >= 4
    ensures n < TWO32
  {
    b[0] as nat + 0x100 * (b[1] as nat) + 0x1_0000 * (b[2] as nat) + 0x100_0000 * (b[3] as nat)
  }

  lemma Fixed32RoundTrip(n: nat, rest: seq<Byte>)
    requires n < TWO32
    ensures DecodeFixed32(EncodeFixed32(n) + rest) == n
  {
  }

  lemma Fixed32Bytes(b: seq<Byte>)
    requires |b| == 4
    ensures EncodeFixed32(DecodeFixed32(b)) == b
  {
    var a0, a1, a2, a3 := b[0] as nat, b[1] as nat, b[2] as nat, b[3] as nat;
    var n := DecodeFixed32(b);
    assert n % 0x100 == a0 && n / 0x100 == a1 + 0x100 * a2 + 0x1_0000 * a3;
    assert n / 0x100 / 0x100 == a2 + 0x100 * a3;
  }

  // coding.cc:20
  function EncodeFixed64(n: nat): (r: seq<Byte>)
    requires n < TWO64
    ensures |r| == 8
  {
    EncodeFixed32(n % TWO32) + EncodeFixed32(n / TWO32)
  }

  function DecodeFixed64(b: seq<Byte>): (n: nat)
    requires |b| >= 8
    ensures n < TWO64
  {
    DecodeFixed32(b) + TWO32 * DecodeFixed32(b[4..])
  }

  lemma Fixed64RoundTrip(n: nat, rest: seq<Byte>)
    requires n < TWO64
    ensures DecodeFixed64(EncodeFixed64(n) + rest) == n
  {
    hide EncodeFixed32, DecodeFixed32;
    var low, high := EncodeFixed32(n % TWO32), EncodeFixed32(n / TWO32);
    assert EncodeFixed64(n) + rest == low + (high + rest);
    assert (low + (high + rest))[4..] == high + rest;
    Fixed32RoundTrip(n % TWO32, high + rest);
    Fixed32RoundTrip(n / TWO32, rest);
  }

  /* ---- varints ---- */

  // coding.cc:81: seven bits a byte, lowest first, the high bit set on all but the last.
  function EncodeVarint(v: nat): (r: seq<Byte>)
    ensures |r| > 0
  {
    if v < 128 then [v] else [128 + v % 128] + EncodeVarint(v / 128)
  }

  function Pow128(n: nat): (p: nat)
    ensures p > 0
  {
    if n == 0 then 1 else 128 * Pow128(n - 1)
  }

  lemma {:induction false} VarintLength(v: nat, n: nat)
    requires n > 0 && v < Pow128(n)
    ensures |EncodeVarint(v)| <= n
  {
    if v >= 128 {
      VarintLength(v / 128, n - 1);
    }
  }

  lemma VarintLengths(v: nat)
    ensures v < TWO32 ==> |EncodeVarint(v)| <= 5
    ensures v < TWO64 ==> |EncodeVarint(v)| <= 10
  {
    assert Pow128(1) == 128 && Pow128(2) == 0x4000 && Pow128(4) == 0x1000_0000 && Pow128(5) == 0x8_0000_0000;
    assert Pow128(7) == 0x2_0000_0000_0000 && Pow128(9) == 0x8000_0000_0000_0000 && Pow128(10) == 0x40_0000_0000_0000_0000;
    if v < TWO32 {
      VarintLength(v, 5);
    }
    if v < TWO64 {
      VarintLength(v, 10);
    }
  }

  lemma VarintStep(v: nat)
    ensures v >= 128 ==> EncodeVarint(v) == [128 + v % 128] + EncodeVarint(v / 128)
    ensures v < 128 ==> EncodeVarint(v) == [v]
  {
  }

  // coding.cc:47
  method PutVarint32(dst: seq<Byte>, v: nat) returns (r: seq<Byte>)
    requires v < TWO32
    ensures r == dst + EncodeVarint(v)
  {
    var v1, v2, v3, v4 := v / 0x80, v / 0x4000, v / 0x20_0000, v / 0x1000_0000;
    assert v2 == v1 / 128 && v3 == v2 / 128 && v4 == v3 / 128 && v4 < 128;
    VarintStep(v);
    VarintStep(v1);
    VarintStep(v2);
    VarintStep(v3);
    VarintStep(v4);
    hide EncodeVarint;
    if v < 0x80 {
      r := dst + [v];
    } else if v < 0x4000 {
      r := dst + [128 + v % 128, v1];
    } else if v < 0x20_0000 {
      r := dst + [128 + v % 128, 128 + v1 % 128, v2];
    } else if v < 0x1000_0000 {
      r := dst + [128 + v % 128, 128 + v1 % 128, 128 + v2 % 128, v3];
    } else {
      r := dst + [128 + v % 128, 128 + v1 % 128, 128 + v2 % 128, 128 + v3 % 128, v4];
    }
  }

  // The number that at most so many bytes hold, and the bytes after it.
  function ReadVarint(p: seq<Byte>, bytes: nat): (r: Option<(nat, seq<Byte>)>)
    ensures r.Some? ==> |r.value.1| < |p|
  {
    if p == [] || bytes == 0 then None
    else if p[0] < 128 then Some((p[0], p[1..]))
    else
      match ReadVarint(p[1..], bytes - 1)
      case None => None
      case Some(v) => Some((p[0] - 128 + 128 * v.0, v.1))
  }

  lemma {:induction false} VarintRoundTrip(v: nat, bytes: nat, rest: seq<Byte>)
    requires |EncodeVarint(v)| <= bytes
    ensures ReadVarint(EncodeVarint(v) + rest, bytes) == Some((v, rest))
  {
    if v < 128 {
      assert (EncodeVarint(v) + rest)[1..] == rest;
    } else {
      VarintRoundTrip(v / 128, bytes - 1, rest);
      assert (EncodeVarint(v) + rest)[1..] == EncodeVarint(v / 128) + rest;
    }
  }

  // A word takes what fits of the last byte.
  function DecodeVarint(p: seq<Byte>, bytes: nat, modulus: nat): Option<(nat, seq<Byte>)>
    requires modulus > 0
  {
    var r := ReadVarint(p, bytes);
    if r.None? then None else Some((r.value.0 % modulus, r.value.1))
  }

  function DecodeVarint32(p: seq<Byte>): Option<(nat, seq<Byte>)> {
    DecodeVarint(p, 5, TWO32)
  }

  function DecodeVarint64(p: seq<Byte>): Option<(nat, seq<Byte>)> {
    DecodeVarint(p, 10, TWO64)
  }

  // A varint that starts p ends with byte n: the first byte below 128, soon enough.
  ghost predicate EndsAt(p: seq<Byte>, bytes: nat, n: nat) {
    n < bytes && n < |p| && p[n] < 128 && forall i :: 0 <= i < n ==> p[i] >= 128
  }

  // Digit i of v to the base 128.
  ghost function Digit(v: nat, i: nat): nat {
    if i == 0 then v % 128 else Digit(v / 128, i - 1)
  }

  // What is read: the number whose digits are in the bytes up to the last one.
  lemma {:induction false} ReadsDigits(p: seq<Byte>, bytes: nat, n: nat)
    requires EndsAt(p, bytes, n)
    ensures var r := ReadVarint(p, bytes);
      && r.Some? && r.value.1 == p[n + 1..] && r.value.0 < Pow128(n + 1)
      && forall i :: 0 <= i <= n ==> Digit(r.value.0, i) == p[i] % 128
  {
    if n > 0 {
      var q := p[1..];
      assert EndsAt(q, bytes - 1, n - 1);
      ReadsDigits(q, bytes - 1, n - 1);
      var v, w := ReadVarint(p, bytes).value.0, ReadVarint(q, bytes - 1).value.0;
      assert v % 128 == p[0] - 128 && v / 128 == w;
      forall i | 0 <= i <= n
        ensures Digit(v, i) == p[i] % 128
      {
        if i > 0 {
          var k := i - 1;
          assert q[k] == p[i];
        }
      }
    }
  }

  lemma {:induction false} FindsEnd(p: seq<Byte>, bytes: nat) returns (n: nat)
    requires ReadVarint(p, bytes).Some?
    ensures EndsAt(p, bytes, n)
  {
    if p[0] < 128 {
      n := 0;
    } else {
      var m := FindsEnd(p[1..], bytes - 1);
      n := m + 1;
      forall i | 0 <= i < n
        ensures p[i] >= 128
      {
        var k := i - 1;
        assert i > 0 ==> p[1..][k] == p[i];
      }
    }
  }

  // There is a number to read if and only if one of the first bytes is below 128.
  lemma VarintIff(p: seq<Byte>, bytes: nat)
    ensures ReadVarint(p, bytes).Some? <==> exists n: nat :: EndsAt(p, bytes, n)
  {
    if ReadVarint(p, bytes).Some? {
      var n := FindsEnd(p, bytes);
    } else {
      forall n: nat | EndsAt(p, bytes, n)
        ensures false
      {
        ReadsDigits(p, bytes, n);
      }
    }
  }

  lemma FitsWord(p: seq<Byte>, bytes: nat, modulus: nat)
    requires modulus > 0 && ReadVarint(p, bytes).Some? && ReadVarint(p, bytes).value.0 < modulus
    ensures DecodeVarint(p, bytes, modulus) == ReadVarint(p, bytes)
  {
  }

  lemma Varint32RoundTrip(v: nat, rest: seq<Byte>)
    requires v < TWO32
    ensures DecodeVarint32(EncodeVarint(v) + rest) == Some((v, rest))
  {
    hide EncodeVarint, ReadVarint, DecodeVarint;
    VarintLengths(v);
    VarintRoundTrip(v, 5, rest);
    FitsWord(EncodeVarint(v) + rest, 5, TWO32);
  }

  lemma Varint64RoundTrip(v: nat, rest: seq<Byte>)
    requires v < TWO64
    ensures DecodeVarint64(EncodeVarint(v) + rest) == Some((v, rest))
  {
    hide EncodeVarint, ReadVarint, DecodeVarint;
    VarintLengths(v);
    VarintRoundTrip(v, 10, rest);
    FitsWord(EncodeVarint(v) + rest, 10, TWO64);
  }

  // What comes after a number does not matter to it.
  lemma {:induction false} VarintMore(h: seq<Byte>, bytes: nat, rest: seq<Byte>)
    requires ReadVarint(h, bytes).Some?
    ensures ReadVarint(h + rest, bytes) == Some((ReadVarint(h, bytes).value.0, ReadVarint(h, bytes).value.1 + rest))
  {
    assert (h + rest)[1..] == h[1..] + rest;
    if h[0] >= 128 {
      VarintMore(h[1..], bytes - 1, rest);
    }
  }

  // h is a varint of the word v, not always the shortest one.
  ghost predicate IsVarint32(h: seq<Byte>, v: nat) {
    DecodeVarint32(h) == Some((v, []))
  }

  ghost predicate IsVarint64(h: seq<Byte>, v: nat) {
    DecodeVarint64(h) == Some((v, []))
  }

  // Where a number that was read ends.
  lemma VarintFront(p: seq<Byte>, bytes: nat, modulus: nat) returns (h: seq<Byte>)
    requires modulus > 0 && DecodeVarint(p, bytes, modulus).Some?
    ensures var r := DecodeVarint(p, bytes, modulus).value; p == h + r.1 && DecodeVarint(h, bytes, modulus) == Some((r.0, []))
  {
    var n := FindsEnd(p, bytes);
    h := p[..n + 1];
    var rest := p[n + 1..];
    assert p == h + rest;
    assert EndsAt(h, bytes, n);
    ReadsDigits(h, bytes, n);
    VarintMore(h, bytes, rest);
    assert h[n + 1..] == [];
    assert [] + rest == rest;
  }

  lemma VarintBehind(h: seq<Byte>, bytes: nat, modulus: nat, v: nat, rest: seq<Byte>)
    requires modulus > 0 && DecodeVarint(h, bytes, modulus) == Some((v, []))
    ensures DecodeVarint(h + rest, bytes, modulus) == Some((v, rest))
  {
    VarintMore(h, bytes, rest);
    assert [] + rest == rest;
  }

  // coding.cc:112 and coding.cc:142: shift the bytes in, seven bits at a time.
  method GetVarint(input: seq<Byte>, bytes: nat, modulus: nat) returns (r: Option<(nat, seq<Byte>)>)
    requires modulus > 0
    ensures r == DecodeVarint(input, bytes, modulus)
  {
    var p, result: nat, scale: nat := input, 0, 1;
    for i := 0 to bytes
      invariant ReadVarint(input, bytes) == Shifted(ReadVarint(p, bytes - i), result, scale)
    {
      if p == [] {
        return None;
      }
      var byte := p[0];
      p := p[1..];
      if byte < 128 {
        return Some(((result + scale * byte) % modulus, p));
      }
      ShiftedTwice(ReadVarint(p, bytes - i - 1), byte - 128, result, scale);
      result, scale := result + scale * (byte - 128), scale * 128;
    }
    return None;
  }

  // What is left to read counts in units of scale.
  function Shifted(r: Option<(nat, seq<Byte>)>, result: nat, scale: nat): Option<(nat, seq<Byte>)> {
    if r.None? then None else Some((result + scale * r.value.0, r.value.1))
  }

  lemma ShiftedTwice(r: Option<(nat, seq<Byte>)>, low: nat, result: nat, scale: nat)
    ensures Shifted(Shifted(r, low, 128), result, scale) == Shifted(r, result + scale * low, scale * 128)
  {
    if r.Some? {
      var v := r.value.0;
      assert scale * (low + 128 * v) == scale * low + scale * 128 * v;
    }
  }

  /* ---- strings ---- */

  // coding.cc:98
  function EncodePrefixed(s: seq<Byte>): seq<Byte> {
    EncodeVarint(|s|) + s
  }

  // coding.cc:181
  function DecodePrefixed(p: seq<Byte>): Option<(seq<Byte>, seq<Byte>)> {
    var r := DecodeVarint32(p);
    if r.None? || |r.value.1| < r.value.0 then None
    else Some((r.value.1[..r.value.0], r.value.1[r.value.0..]))
  }

  lemma PrefixedRoundTrip(s: seq<Byte>, rest: seq<Byte>)
    requires |s| < TWO32
    ensures DecodePrefixed(EncodePrefixed(s) + rest) == Some((s, rest))
  {
    Varint32RoundTrip(|s|, s + rest);
    assert EncodePrefixed(s) + rest == EncodeVarint(|s|) + (s + rest);
  }

  // A length, and a string of that length.
  ghost predicate IsPrefixed(b: seq<Byte>, s: seq<Byte>) {
    exists h :: IsVarint32(h, |s|) && b == h + s
  }

  // A string is read if and only if it stands there whole after its length.
  lemma PrefixedIff(p: seq<Byte>, s: seq<Byte>, rest: seq<Byte>)
    ensures DecodePrefixed(p) == Some((s, rest)) <==> exists b :: IsPrefixed(b, s) && p == b + rest
  {
    hide DecodeVarint;
    if DecodePrefixed(p) == Some((s, rest)) {
      var b := PrefixedFront(p);
    }
    forall b | IsPrefixed(b, s) && p == b + rest
      ensures DecodePrefixed(p) == Some((s, rest))
    {
      PrefixedBehind(b, s, rest);
    }
  }

  lemma PrefixedFront(p: seq<Byte>) returns (b: seq<Byte>)
    requires DecodePrefixed(p).Some?
    ensures IsPrefixed(b, DecodePrefixed(p).value.0) && p == b + DecodePrefixed(p).value.1
  {
    hide DecodeVarint;
    var h := VarintFront(p, 5, TWO32);
    var r := DecodePrefixed(p).value;
    assert IsVarint32(h, |r.0|);
    b := h + r.0;
    var tail := DecodeVarint32(p).value.1;
    assert tail == r.0 + r.1;
    assert h + (r.0 + r.1) == b + r.1;
  }

  lemma PrefixedBehind(b: seq<Byte>, s: seq<Byte>, rest: seq<Byte>)
    requires IsPrefixed(b, s)
    ensures DecodePrefixed(b + rest) == Some((s, rest))
  {
    hide DecodeVarint;
    var h :| IsVarint32(h, |s|) && b == h + s;
    assert b + rest == h + (s + rest);
    VarintBehind(h, 5, TWO32, |s|, s + rest);
  }
}
