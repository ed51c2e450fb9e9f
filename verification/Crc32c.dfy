/**
 CRC-32C (util/crc32c.cc, util/crc32c.h; the polynomial of section 12.1 of RFC 3720,
 bit-reflected). The reference is the bit-at-a-time definition; the fast form keeps four
 interleaved partial results, advances each over 16 bytes at a time, and combines them at
 the end. A byte or a 32-bit word is the sequence of its bits, lowest first.
 */
module Crc32c {
  import Coding

  type Byte = b: seq<bool> | |b| == 8 witness Repeat(8, false)
  type Word = w: seq<bool> | |w| == 32 witness Repeat(32, false)

  function Repeat(n: nat, bit: bool): (r: seq<bool>)
    ensures |r| == n && forall i :: 0 <= i < n ==> r[i] == bit
  {
    if n == 0 then [] else Repeat(n - 1, bit) + [bit]
  }

  const ZERO: Word := Repeat(32, false)

  // crc32c.cc:246
  const ALL_ONES: Word := Repeat(32, true)

  // 0x82f63b78
  const POLYNOMIAL: Word :=
    [false, false, false, true, true, true, true, false, true, true, false, true, true, true, false, false,
     false, true, true, false, true, true, true, true, false, true, false, false, false, false, false, true]

  function Xor(a: Word, b: Word): Word {
    seq(32, i requires 0 <= i < 32 => a[i] != b[i])
  }

  // Shift right by n bits.
  function Shift(w: Word, n: nat): Word
    requires n <= 32
  {
    w[n..] + Repeat(n, false)
  }

  function Widen(b: Byte): Word {
    b + Repeat(24, false)
  }

  /* ---- the reference ---- */

  function Fold(x: Word): Word {
    if x[0] then POLYNOMIAL else ZERO
  }

  function BitStep(x: Word): Word {
    Xor(Shift(x, 1), Fold(x))
  }

  function BitSteps(x: Word, n: nat): Word {
    if n == 0 then x else BitStep(BitSteps(x, n - 1))
  }

  // Advance over n zero bytes.
  function Zeros(x: Word, n: nat): Word {
    BitSteps(x, 8 * n)
  }

  // The remainder after one more byte, and after a whole string.
  function StepByte(x: Word, b: Byte): Word {
    Zeros(Xor(x, Widen(b)), 1)
  }

  function Remainder(x: Word, data: seq<Byte>): Word {
    if data == [] then x else StepByte(Remainder(x, data[..|data| - 1]), data[|data| - 1])
  }

  /* ---- exclusive or ---- */

  lemma XorZero(a: Word)
    ensures Xor(a, ZERO) == a && Xor(ZERO, a) == a
  {
  }

  lemma XorSelf(a: Word)
    ensures Xor(a, a) == ZERO
  {
  }

  lemma XorCommutes(a: Word, b: Word)
    ensures Xor(a, b) == Xor(b, a)
  {
  }

  lemma XorAssociates(a: Word, b: Word, c: Word)
    ensures Xor(Xor(a, b), c) == Xor(a, Xor(b, c))
  {
  }

  lemma XorRegroups(a: Word, b: Word, c: Word, d: Word)
    ensures Xor(Xor(a, b), Xor(c, d)) == Xor(Xor(a, c), Xor(b, d))
  {
  }

  /* ---- linearity ---- */

  lemma ShiftLinear(x: Word, y: Word)
    ensures Shift(Xor(x, y), 1) == Xor(Shift(x, 1), Shift(y, 1))
  {
  }

  lemma FoldLinear(x: Word, y: Word)
    ensures Fold(Xor(x, y)) == Xor(Fold(x), Fold(y))
  {
    XorZero(POLYNOMIAL);
    XorZero(ZERO);
    XorSelf(POLYNOMIAL);
  }

  lemma {:induction false} BitStepsLinear(x: Word, y: Word, n: nat)
    ensures BitSteps(Xor(x, y), n) == Xor(BitSteps(x, n), BitSteps(y, n))
  {
    if n > 0 {
      BitStepsLinear(x, y, n - 1);
      var a, b := BitSteps(x, n - 1), BitSteps(y, n - 1);
      ShiftLinear(a, b);
      FoldLinear(a, b);
      XorRegroups(Shift(a, 1), Shift(b, 1), Fold(a), Fold(b));
    }
  }

  lemma ZerosLinear(x: Word, y: Word, n: nat)
    ensures Zeros(Xor(x, y), n) == Xor(Zeros(x, n), Zeros(y, n))
  {
    BitStepsLinear(x, y, 8 * n);
  }

  lemma {:induction false} BitStepsAdd(x: Word, m: nat, n: nat)
    ensures BitSteps(BitSteps(x, m), n) == BitSteps(x, m + n)
  {
    if n > 0 {
      BitStepsAdd(x, m, n - 1);
    }
  }

  lemma ZerosAdd(x: Word, m: nat, n: nat)
    ensures Zeros(Zeros(x, m), n) == Zeros(x, m + n)
  {
    BitStepsAdd(x, 8 * m, 8 * n);
  }

  lemma {:induction false} RemainderAppend(x: Word, a: seq<Byte>, b: seq<Byte>)
    ensures Remainder(x, a + b) == Remainder(Remainder(x, a), b)
  {
    if b == [] {
      assert a + b == a;
    } else {
      var n := |b| - 1;
      RemainderAppend(x, a, b[..n]);
      assert (a + b)[..|a + b| - 1] == a + b[..n];
    }
  }

  /* ---- bytes and words ---- */

  // Cleared low bits only move the others down.
  lemma {:induction false} ShiftOut(w: Word, n: nat)
    requires n <= 32 && forall i :: 0 <= i < n ==> !w[i]
    ensures BitSteps(w, n) == Shift(w, n)
  {
    if n > 0 {
      ShiftOut(w, n - 1);
      XorZero(Shift(Shift(w, n - 1), 1));
      assert Shift(Shift(w, n - 1), 1) == Shift(w, n);
    }
  }

  function Low(w: Word): Byte {
    w[..8]
  }

  // The bits above the low byte, in place.
  function High(w: Word): Word {
    Repeat(8, false) + w[8..]
  }

  // One byte looked up, the other bytes moved down (crc32c.cc:287).
  lemma TableStep(x: Word)
    ensures Zeros(x, 1) == Xor(Zeros(Widen(Low(x)), 1), Shift(x, 8))
  {
    assert x == Xor(Widen(Low(x)), High(x));
    BitStepsLinear(Widen(Low(x)), High(x), 8);
    ShiftOut(High(x), 8);
    assert Shift(High(x), 8) == Shift(x, 8);
  }

  // A word taken in whole is its low byte now and the rest after the step.
  lemma AbsorbByte(x: Word, w: Word)
    ensures Zeros(Xor(x, w), 1) == Xor(StepByte(x, Low(w)), Shift(w, 8))
  {
    var low := Widen(Low(w));
    assert w == Xor(low, High(w));
    XorAssociates(x, low, High(w));
    BitStepsLinear(Xor(x, low), High(w), 8);
    ShiftOut(High(w), 8);
    assert Shift(High(w), 8) == Shift(w, 8);
  }

  // coding.h DecodeFixed32
  function WordAt(data: seq<Byte>, p: nat): Word
    requires p + 4 <= |data|
  {
    var first: seq<bool> := data[p];
    first + data[p + 1] + data[p + 2] + data[p + 3]
  }

  lemma RemainderPush(x: Word, data: seq<Byte>, p: nat)
    requires p < |data|
    ensures Remainder(x, data[..p + 1]) == StepByte(Remainder(x, data[..p]), data[p])
  {
    assert data[..p + 1][..p] == data[..p];
  }

  // A byte taken off the front.
  lemma TakenOff(a: Byte, rest: seq<bool>)
    requires |rest| == 24
    ensures Low(a + rest) == a && Shift(a + rest, 8) == rest + Repeat(8, false)
  {
  }

  lemma BytesOfWord(data: seq<Byte>, p: nat)
    requires p + 4 <= |data|
    ensures var w := WordAt(data, p);
            var w1, w2, w3 := Shift(w, 8), Shift(w, 16), Shift(w, 24);
            && Shift(w1, 8) == w2 && Shift(w2, 8) == w3 && Shift(w3, 8) == ZERO
            && Low(w) == data[p] && Low(w1) == data[p + 1] && Low(w2) == data[p + 2] && Low(w3) == data[p + 3]
  {
    hide Shift, Low, Repeat;
    var z := Repeat(8, false);
    var b, c, d: seq<bool> := data[p + 1], data[p + 2], data[p + 3];
    assert WordAt(data, p) == data[p] + (b + c + d);
    TakenOff(data[p], b + c + d);
    assert b + c + d + z == b + (c + d + z);
    TakenOff(data[p + 1], c + d + z);
    assert c + d + z + z == c + (d + z + z);
    TakenOff(data[p + 2], d + z + z);
    assert d + z + z + z == d + (z + z + z);
    TakenOff(data[p + 3], z + z + z);
    ShiftTwice(WordAt(data, p), 8);
    ShiftTwice(WordAt(data, p), 16);
    ShiftTwice(WordAt(data, p), 24);
  }

  lemma ShiftTwice(w: Word, n: nat)
    requires n <= 24
    ensures Shift(Shift(w, n), 8) == Shift(w, n + 8) && Shift(w, 32) == ZERO
  {
    assert Repeat(n, false) + Repeat(8, false) == Repeat(n + 8, false);
  }

  // Four bytes at once.
  lemma WordStep(x: Word, data: seq<Byte>, p: nat)
    requires p + 4 <= |data|
    ensures Zeros(Xor(Remainder(x, data[..p]), WordAt(data, p)), 4) == Remainder(x, data[..p + 4])
  {
    hide Remainder, StepByte, Zeros, Xor, Shift, Low, WordAt;
    var w := WordAt(data, p);
    var w1, w2, w3 := Shift(w, 8), Shift(w, 16), Shift(w, 24);
    BytesOfWord(data, p);
    var x0 := Remainder(x, data[..p]);
    var x1, x2 := Remainder(x, data[..p + 1]), Remainder(x, data[..p + 2]);
    var x3, x4 := Remainder(x, data[..p + 3]), Remainder(x, data[..p + 4]);
    AbsorbFour(x0, x1, x2, x3, x4, w, w1, w2, w3) by {
      RemainderPush(x, data, p);
      RemainderPush(x, data, p + 1);
      RemainderPush(x, data, p + 2);
      RemainderPush(x, data, p + 3);
    }
  }

  lemma AbsorbFour(x0: Word, x1: Word, x2: Word, x3: Word, x4: Word, w: Word, w1: Word, w2: Word, w3: Word)
    requires w1 == Shift(w, 8) && w2 == Shift(w1, 8) && w3 == Shift(w2, 8) && Shift(w3, 8) == ZERO
    requires x1 == StepByte(x0, Low(w)) && x2 == StepByte(x1, Low(w1)) && x3 == StepByte(x2, Low(w2)) && x4 == StepByte(x3, Low(w3))
    ensures Zeros(Xor(x0, w), 4) == x4
  {
    AbsorbByte(x0, w);
    AbsorbByte(x1, w1);
    AbsorbByte(x2, w2);
    AbsorbByte(x3, w3);
    XorZero(x4);
    ZerosAdd(Xor(x0, w), 1, 1);
    ZerosAdd(Xor(x0, w), 2, 1);
    ZerosAdd(Xor(x0, w), 3, 1);
  }

  /* ---- the tables ---- */

  // The word with byte c at byte position j.
  function Place(c: Byte, j: nat): Word
    requires j < 4
  {
    Repeat(8 * j, false) + c + Repeat(24 - 8 * j, false)
  }

  function ByteAt(w: Word, j: nat): Byte
    requires j < 4
  {
    w[8 * j..8 * j + 8]
  }

  // kByteExtensionTable: advance over one byte.
  function ByteExtension(c: Byte): Word {
    Zeros(Widen(c), 1)
  }

  // kStrideExtensionTable0 to 3: advance over 16 bytes, for the highest byte in table 0.
  function StrideExtension(table: nat, c: Byte): Word
    requires table < 4
  {
    Zeros(Place(c, 3 - table), 16)
  }

  function XorByte(a: Byte, b: Byte): Byte {
    Low(Xor(Widen(a), Widen(b)))
  }

  lemma ByteIn(l: Word, b: Byte)
    ensures Low(Xor(l, Widen(b))) == XorByte(Low(l), b) && Shift(Xor(l, Widen(b)), 8) == Shift(l, 8)
  {
  }

  // crc32c.cc:287
  function Step1(l: Word, b: Byte): (r: Word)
    ensures r == StepByte(l, b)
  {
    ByteIn(l, b);
    TableStep(Xor(l, Widen(b)));
    Xor(ByteExtension(XorByte(Low(l), b)), Shift(l, 8))
  }

  lemma FromBytes(w: Word)
    ensures w == Xor(Xor(Place(ByteAt(w, 0), 0), Place(ByteAt(w, 1), 1)), Xor(Place(ByteAt(w, 2), 2), Place(ByteAt(w, 3), 3)))
  {
  }

  lemma ZerosOfBytes(w: Word, n: nat)
    ensures Zeros(w, n) == Xor(Xor(Zeros(Place(ByteAt(w, 0), 0), n), Zeros(Place(ByteAt(w, 1), 1), n)),
                               Xor(Zeros(Place(ByteAt(w, 2), 2), n), Zeros(Place(ByteAt(w, 3), 3), n)))
  {
    var a, b, c, d := Place(ByteAt(w, 0), 0), Place(ByteAt(w, 1), 1), Place(ByteAt(w, 2), 2), Place(ByteAt(w, 3), 3);
    FromBytes(w);
    ZerosLinear(Xor(a, b), Xor(c, d), n);
    ZerosLinear(a, b, n);
    ZerosLinear(c, d, n);
  }

  lemma XorChain(w: Word, a: Word, b: Word, c: Word, d: Word)
    ensures Xor(Xor(Xor(Xor(w, a), b), c), d) == Xor(w, Xor(Xor(a, b), Xor(c, d)))
  {
  }

  // crc32c.cc:294: the next word for this stride, 16 bytes on.
  function Step4(crc: Word, w: Word): (r: Word)
    ensures r == Xor(w, Zeros(crc, 16))
  {
    ZerosOfBytes(crc, 16);
    XorChain(w, StrideExtension(3, ByteAt(crc, 0)), StrideExtension(2, ByteAt(crc, 1)),
             StrideExtension(1, ByteAt(crc, 2)), StrideExtension(0, ByteAt(crc, 3)));
    Xor(Xor(Xor(Xor(w, StrideExtension(3, ByteAt(crc, 0))), StrideExtension(2, ByteAt(crc, 1))),
            StrideExtension(1, ByteAt(crc, 2))), StrideExtension(0, ByteAt(crc, 3)))
  }

  // crc32c.cc:313
  method Step4W(word: Word, l: Word) returns (w: Word)
    ensures w == Zeros(Xor(word, l), 4)
  {
    w := Xor(word, l);
    for i := 0 to 4
      invariant w == Zeros(Xor(word, l), i)
    {
      TableStep(w);
      XorCommutes(ByteExtension(Low(w)), Shift(w, 8));
      ZerosAdd(Xor(word, l), i, 1);
      w := Xor(Shift(w, 8), ByteExtension(Low(w)));
    }
  }

  /* ---- the four partial results ---- */

  // What the four stride results stand for.
  function Combined(c0: Word, c1: Word, c2: Word, c3: Word): Word {
    Xor(Xor(Zeros(c0, 16), Zeros(c1, 12)), Xor(Zeros(c2, 8), Zeros(c3, 4)))
  }

  lemma CombinedLinear(a0: Word, a1: Word, a2: Word, a3: Word, b0: Word, b1: Word, b2: Word, b3: Word)
    ensures Combined(Xor(a0, b0), Xor(a1, b1), Xor(a2, b2), Xor(a3, b3)) == Xor(Combined(a0, a1, a2, a3), Combined(b0, b1, b2, b3))
  {
    ZerosLinear(a0, b0, 16);
    ZerosLinear(a1, b1, 12);
    ZerosLinear(a2, b2, 8);
    ZerosLinear(a3, b3, 4);
    XorRegroups(Zeros(a0, 16), Zeros(b0, 16), Zeros(a1, 12), Zeros(b1, 12));
    XorRegroups(Zeros(a2, 8), Zeros(b2, 8), Zeros(a3, 4), Zeros(b3, 4));
    XorRegroups(Xor(Zeros(a0, 16), Zeros(a1, 12)), Xor(Zeros(b0, 16), Zeros(b1, 12)),
                Xor(Zeros(a2, 8), Zeros(a3, 4)), Xor(Zeros(b2, 8), Zeros(b3, 4)));
  }

  lemma ZerosCommute(x: Word, m: nat, n: nat)
    ensures Zeros(Zeros(x, m), n) == Zeros(Zeros(x, n), m)
  {
    ZerosAdd(x, m, n);
    ZerosAdd(x, n, m);
  }

  lemma CombinedZeros(c0: Word, c1: Word, c2: Word, c3: Word, n: nat)
    ensures Combined(Zeros(c0, n), Zeros(c1, n), Zeros(c2, n), Zeros(c3, n)) == Zeros(Combined(c0, c1, c2, c3), n)
  {
    ZerosCommute(c0, n, 16);
    ZerosCommute(c1, n, 12);
    ZerosCommute(c2, n, 8);
    ZerosCommute(c3, n, 4);
    var a, b := Xor(Zeros(c0, 16), Zeros(c1, 12)), Xor(Zeros(c2, 8), Zeros(c3, 4));
    ZerosLinear(a, b, n);
    ZerosLinear(Zeros(c0, 16), Zeros(c1, 12), n);
    ZerosLinear(Zeros(c2, 8), Zeros(c3, 4), n);
  }

  // Zeros(Xor(Zeros(x, m), w), 4), one word after m bytes.
  lemma OneMoreWord(x: Word, w: Word, m: nat)
    ensures Zeros(Xor(Zeros(x, m), w), 4) == Xor(Zeros(x, m + 4), Zeros(w, 4))
  {
    ZerosLinear(Zeros(x, m), w, 4);
    ZerosAdd(x, m, 4);
  }

  // Sixteen bytes at once, as four words with 16, 12, 8 and 4 bytes to go.
  lemma FourWords(l: Word, w0: Word, w1: Word, w2: Word, w3: Word)
    ensures Zeros(Xor(Zeros(Xor(Zeros(Xor(Zeros(Xor(l, w0), 4), w1), 4), w2), 4), w3), 4) == Combined(Xor(w0, l), w1, w2, w3)
  {
    var x := Xor(l, w0);
    XorCommutes(l, w0);
    OneMoreWord(x, w1, 4);
    var y := Xor(Zeros(x, 8), Zeros(w1, 4));
    ZerosLinear(y, w2, 4);
    ZerosLinear(Zeros(x, 8), Zeros(w1, 4), 4);
    ZerosAdd(x, 8, 4);
    ZerosAdd(w1, 4, 4);
    var z := Xor(Xor(Zeros(x, 12), Zeros(w1, 8)), Zeros(w2, 4));
    ZerosLinear(z, w3, 4);
    ZerosLinear(Xor(Zeros(x, 12), Zeros(w1, 8)), Zeros(w2, 4), 4);
    ZerosLinear(Zeros(x, 12), Zeros(w1, 8), 4);
    ZerosAdd(x, 12, 4);
    ZerosAdd(w1, 8, 4);
    ZerosAdd(w2, 4, 4);
    XorAssociates(Xor(Zeros(x, 16), Zeros(w1, 12)), Zeros(w2, 8), Zeros(w3, 4));
  }

  // crc32c.cc:334: loading the first swath.
  lemma FirstSwath(x: Word, data: seq<Byte>, p: nat)
    requires p + 16 <= |data|
    ensures Combined(Xor(WordAt(data, p), Remainder(x, data[..p])), WordAt(data, p + 4), WordAt(data, p + 8), WordAt(data, p + 12))
            == Remainder(x, data[..p + 16])
  {
    WordStep(x, data, p);
    WordStep(x, data, p + 4);
    WordStep(x, data, p + 8);
    WordStep(x, data, p + 12);
    FourWords(Remainder(x, data[..p]), WordAt(data, p), WordAt(data, p + 4), WordAt(data, p + 8), WordAt(data, p + 12));
  }

  // crc32c.cc:345: each stride moves on by 16 bytes.
  lemma NextSwath(x: Word, data: seq<Byte>, p: nat, c0: Word, c1: Word, c2: Word, c3: Word)
    requires p + 16 <= |data| && Combined(c0, c1, c2, c3) == Remainder(x, data[..p])
    ensures Combined(Step4(c0, WordAt(data, p)), Step4(c1, WordAt(data, p + 4)), Step4(c2, WordAt(data, p + 8)), Step4(c3, WordAt(data, p + 12)))
            == Remainder(x, data[..p + 16])
  {
    var w0, w1, w2, w3 := WordAt(data, p), WordAt(data, p + 4), WordAt(data, p + 8), WordAt(data, p + 12);
    var l := Remainder(x, data[..p]);
    FirstSwath(x, data, p);
    CombinedLinear(w0, w1, w2, w3, Zeros(c0, 16), Zeros(c1, 16), Zeros(c2, 16), Zeros(c3, 16));
    CombinedZeros(c0, c1, c2, c3, 16);
    LoadIsLinear(l, w0, w1, w2, w3);
  }

  lemma LoadIsLinear(l: Word, w0: Word, w1: Word, w2: Word, w3: Word)
    ensures Combined(Xor(w0, l), w1, w2, w3) == Xor(Combined(w0, w1, w2, w3), Zeros(l, 16))
  {
    ZerosLinear(w0, l, 16);
    XorMovesOut(Zeros(w0, 16), Zeros(l, 16), Zeros(w1, 12), Xor(Zeros(w2, 8), Zeros(w3, 4)));
  }

  lemma XorMovesOut(a: Word, b: Word, c: Word, d: Word)
    ensures Xor(Xor(Xor(a, b), c), d) == Xor(Xor(Xor(a, c), d), b)
  {
  }

  // crc32c.cc:350: one word more, and the strides change places.
  lemma NextWord(x: Word, data: seq<Byte>, p: nat, c0: Word, c1: Word, c2: Word, c3: Word)
    requires p + 4 <= |data| && Combined(c0, c1, c2, c3) == Remainder(x, data[..p])
    ensures Combined(c1, c2, c3, Step4(c0, WordAt(data, p))) == Remainder(x, data[..p + 4])
  {
    var w := WordAt(data, p);
    WordStep(x, data, p);
    ZerosLinear(Remainder(x, data[..p]), w, 4);
    var a, b := Xor(Zeros(c0, 16), Zeros(c1, 12)), Xor(Zeros(c2, 8), Zeros(c3, 4));
    ZerosLinear(a, b, 4);
    ZerosLinear(Zeros(c0, 16), Zeros(c1, 12), 4);
    ZerosLinear(Zeros(c2, 8), Zeros(c3, 4), 4);
    ZerosAdd(c0, 16, 4);
    ZerosAdd(c1, 12, 4);
    ZerosAdd(c2, 8, 4);
    ZerosAdd(c3, 4, 4);
    ZerosLinear(w, Zeros(c0, 16), 4);
    XorRotates(Zeros(c0, 20), Zeros(c1, 16), Zeros(c2, 12), Zeros(c3, 8), Zeros(w, 4));
  }

  lemma XorRotates(a: Word, b: Word, c: Word, d: Word, w: Word)
    ensures Xor(Xor(Xor(a, b), Xor(c, d)), w) == Xor(Xor(b, c), Xor(d, Xor(w, a)))
  {
  }

  // crc32c.cc:361: folding the four results into one.
  lemma FoldStrides(c0: Word, c1: Word, c2: Word, c3: Word)
    ensures Zeros(Xor(c3, Zeros(Xor(c2, Zeros(Xor(c1, Zeros(Xor(c0, ZERO), 4)), 4)), 4)), 4) == Combined(c0, c1, c2, c3)
  {
    XorZero(c0);
    XorCommutes(c1, Zeros(c0, 4));
    var y := Zeros(Xor(c1, Zeros(c0, 4)), 4);
    XorCommutes(c2, y);
    XorCommutes(c3, Zeros(Xor(c2, y), 4));
    FourWords(ZERO, c0, c1, c2, c3);
    XorCommutes(ZERO, c0);
  }

  /* ---- Extend ---- */

  function Checksum(crc: Word, data: seq<Byte>): Word {
    Xor(Remainder(Xor(crc, ALL_ONES), data), ALL_ONES)
  }

  // crc32c.cc:276. The address decides only how the bytes are grouped.
  method Extend(crc: Word, data: seq<Byte>, address: nat) returns (r: Word)
    ensures r == Checksum(crc, data)
  {
    var p, e := 0, |data|;
    var l := Xor(crc, ALL_ONES);
    ghost var x := l;
    var aligned := (4 - address % 4) % 4;
    if aligned <= e {
      while p != aligned
        invariant p <= aligned && l == Remainder(x, data[..p])
      {
        RemainderPush(x, data, p);
        l := Step1(l, data[p]);
        p := p + 1;
      }
    }
    if e - p >= 16 {
      l, p := ExtendBySwaths(x, l, data, p);
    }
    while p != e
      invariant p <= e && l == Remainder(x, data[..p])
    {
      RemainderPush(x, data, p);
      l := Step1(l, data[p]);
      p := p + 1;
    }
    assert data[..e] == data;
    r := Xor(l, ALL_ONES);
  }

  // crc32c.cc:361
  method CombineStrides(crc0: Word, crc1: Word, crc2: Word, crc3: Word) returns (l: Word)
    ensures l == Combined(crc0, crc1, crc2, crc3)
  {
    FoldStrides(crc0, crc1, crc2, crc3);
    l := Step4W(crc0, ZERO);
    l := Step4W(crc1, l);
    l := Step4W(crc2, l);
    l := Step4W(crc3, l);
  }

  // crc32c.cc:334
  method LoadSwath(ghost x: Word, l: Word, data: seq<Byte>, p: nat) returns (crc0: Word, crc1: Word, crc2: Word, crc3: Word, q: nat)
    requires p + 16 <= |data| && l == Remainder(x, data[..p])
    ensures q == p + 16 && Combined(crc0, crc1, crc2, crc3) == Remainder(x, data[..q])
  {
    FirstSwath(x, data, p);
    crc0, crc1, crc2, crc3 := Xor(WordAt(data, p), l), WordAt(data, p + 4), WordAt(data, p + 8), WordAt(data, p + 12);
    q := p + 16;
  }

  // crc32c.cc:303
  method Step16(ghost x: Word, data: seq<Byte>, p: nat, c0: Word, c1: Word, c2: Word, c3: Word)
    returns (crc0: Word, crc1: Word, crc2: Word, crc3: Word, q: nat)
    requires p + 16 <= |data| && Combined(c0, c1, c2, c3) == Remainder(x, data[..p])
    ensures q == p + 16 && Combined(crc0, crc1, crc2, crc3) == Remainder(x, data[..q])
  {
    NextSwath(x, data, p, c0, c1, c2, c3);
    crc0 := Step4(c0, WordAt(data, p));
    crc1 := Step4(c1, WordAt(data, p + 4));
    crc2 := Step4(c2, WordAt(data, p + 8));
    crc3 := Step4(c3, WordAt(data, p + 12));
    q := p + 16;
  }

  // crc32c.cc:351: one word, and the strides change places.
  method StepWord(ghost x: Word, data: seq<Byte>, p: nat, c0: Word, c1: Word, c2: Word, c3: Word)
    returns (crc0: Word, crc1: Word, crc2: Word, crc3: Word, q: nat)
    requires p + 4 <= |data| && Combined(c0, c1, c2, c3) == Remainder(x, data[..p])
    ensures q == p + 4 && Combined(crc0, crc1, crc2, crc3) == Remainder(x, data[..q])
  {
    NextWord(x, data, p, c0, c1, c2, c3);
    crc0, crc1, crc2, crc3 := c1, c2, c3, Step4(c0, WordAt(data, p));
    q := p + 4;
  }

  // crc32c.cc:332
  method ExtendBySwaths(ghost x: Word, l0: Word, data: seq<Byte>, p0: nat) returns (l: Word, p: nat)
    requires p0 + 16 <= |data| && l0 == Remainder(x, data[..p0])
    ensures p0 <= p <= |data| && |data| - p < 4 && l == Remainder(x, data[..p])
  {
    var crc0, crc1, crc2, crc3;
    crc0, crc1, crc2, crc3, p := LoadSwath(x, l0, data, p0);
    while |data| - p >= 16
      invariant p0 <= p <= |data| && Combined(crc0, crc1, crc2, crc3) == Remainder(x, data[..p])
    {
      crc0, crc1, crc2, crc3, p := Step16(x, data, p, crc0, crc1, crc2, crc3);
    }
    while |data| - p >= 4
      invariant p0 <= p <= |data| && Combined(crc0, crc1, crc2, crc3) == Remainder(x, data[..p])
    {
      crc0, crc1, crc2, crc3, p := StepWord(x, data, p, crc0, crc1, crc2, crc3);
    }
    l := CombineStrides(crc0, crc1, crc2, crc3);
  }

  // The checksum of a concatenation, from the checksum of its first part.
  lemma ExtendExtends(crc: Word, a: seq<Byte>, b: seq<Byte>)
    ensures Checksum(Checksum(crc, a), b) == Checksum(crc, a + b)
  {
    var m := Remainder(Xor(crc, ALL_ONES), a);
    XorAssociates(m, ALL_ONES, ALL_ONES);
    XorSelf(ALL_ONES);
    XorZero(m);
    RemainderAppend(Xor(crc, ALL_ONES), a, b);
  }

  /* ---- numbers ---- */

  const TWO32 := Coding.TWO32

  type Octet = Coding.Byte

  function ToBits(n: nat, width: nat): (r: seq<bool>)
    ensures |r| == width
  {
    if width == 0 then [] else [n % 2 == 1] + ToBits(n / 2, width - 1)
  }

  function FromBits(bits: seq<bool>): (n: nat)
    ensures n < Pow2(|bits|)
  {
    if bits == [] then 0 else (if bits[0] then 1 else 0) + 2 * FromBits(bits[1..])
  }

  function Pow2(n: nat): nat {
    if n == 0 then 1 else 2 * Pow2(n - 1)
  }

  function OctetBits(data: seq<Octet>): seq<Byte> {
    if data == [] then [] else OctetBits(data[..|data| - 1]) + [ToBits(data[|data| - 1], 8)]
  }

  lemma ThirtyTwoBits()
    ensures Pow2(32) == TWO32
  {
    assert Pow2(8) == 0x100 && Pow2(16) == 0x1_0000 && Pow2(24) == 0x100_0000;
  }

  // crc32c.h:20
  function Value(data: seq<Octet>): (crc: nat)
    ensures crc < TWO32
  {
    ThirtyTwoBits();
    FromBits(Checksum(ZERO, OctetBits(data)))
  }

  // crc32c.h:17, on numbers.
  function ExtendValue(crc: nat, data: seq<Octet>): (r: nat)
    requires crc < TWO32
    ensures r < TWO32
  {
    ThirtyTwoBits();
    FromBits(Checksum(ToBits(crc, 32), OctetBits(data)))
  }

  lemma {:induction false} NumberOfBits(bits: seq<bool>)
    ensures ToBits(FromBits(bits), |bits|) == bits
  {
    if bits != [] {
      NumberOfBits(bits[1..]);
    }
  }

  lemma {:induction false} OctetBitsAppend(a: seq<Octet>, b: seq<Octet>)
    ensures OctetBits(a + b) == OctetBits(a) + OctetBits(b)
  {
    if b == [] {
      assert a + b == a;
    } else {
      var n := |b| - 1;
      assert (a + b)[..|a| + n] == a + b[..n];
      OctetBitsAppend(a, b[..n]);
    }
  }

  // A checksum may be computed in pieces.
  lemma ValueExtends(a: seq<Octet>, b: seq<Octet>)
    ensures ExtendValue(Value(a), b) == Value(a + b)
  {
    NumberOfBits(Checksum(ZERO, OctetBits(a)));
    OctetBitsAppend(a, b);
    hide Checksum;
    ExtendExtends(ZERO, OctetBits(a), OctetBits(b));
  }

  /* ---- masking ---- */

  // crc32c.h:22
  const MASK_DELTA := 0xa282_ead8

  // Rotate right by 15 bits and add; the two parts of the rotation share no bits.
  function Mask(crc: nat): (r: nat)
    requires crc < TWO32
    ensures r < TWO32
  {
    (crc / 0x8000 + crc % 0x8000 * 0x2_0000 + MASK_DELTA) % TWO32
  }

  function Unmask(masked: nat): (r: nat)
    requires masked < TWO32
    ensures r < TWO32
  {
    var rot := (masked - MASK_DELTA) % TWO32;
    rot / 0x2_0000 + rot % 0x2_0000 * 0x8000
  }

  lemma WrapsBack(a: nat, d: nat)
    requires a < TWO32 && d < TWO32
    ensures ((a + d) % TWO32 - d) % TWO32 == a
    ensures ((a - d) % TWO32 + d) % TWO32 == a
  {
  }

  lemma TwoParts(high: nat, low: nat)
    ensures low < 0x2_0000 ==> (low + high * 0x2_0000) / 0x2_0000 == high && (low + high * 0x2_0000) % 0x2_0000 == low
    ensures low < 0x8000 ==> (low + high * 0x8000) / 0x8000 == high && (low + high * 0x8000) % 0x8000 == low
  {
  }

  // Masking loses nothing, in either order.
  lemma UnmaskMask(crc: nat)
    requires crc < TWO32
    ensures Unmask(Mask(crc)) == crc
  {
    TwoParts(crc % 0x8000, crc / 0x8000);
    WrapsBack(crc / 0x8000 + crc % 0x8000 * 0x2_0000, MASK_DELTA);
  }

  lemma MaskUnmask(masked: nat)
    requires masked < TWO32
    ensures Mask(Unmask(masked)) == masked
  {
    var rot := (masked - MASK_DELTA) % TWO32;
    TwoParts(rot % 0x2_0000, rot / 0x2_0000);
    WrapsBack(masked, MASK_DELTA);
  }
}
