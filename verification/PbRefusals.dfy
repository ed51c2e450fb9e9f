/**
 What the nanopb decoder refuses (Pods/nanopb/pb_decode.c): numbers and strings that are too
 large for their storage, and elements for which an array has no room. And how a message
 ends, and what becomes of a field that occurs again.
 */
module PbRefusals {
  import opened Keys
  import opened Coding
  import opened PbMessage
  import opened PbDecode
  import opened PbRoundTrip
  import opened PbSafety

  /* ---- numbers ---- */

  lemma {:induction false} VarintLong(v: nat, bytes: nat, rest: Bytes)
    requires |EncodeVarint(v)| > bytes
    ensures ReadVarint(EncodeVarint(v) + rest, bytes).None?
  {
    if bytes > 0 && v >= 128 {
      VarintLong(v / 128, bytes - 1, rest);
      assert (EncodeVarint(v) + rest)[1..] == EncodeVarint(v / 128) + rest;
    }
  }

  // A number of 32 bits is read; a larger one is not.
  lemma Word32Reads(n: nat, rest: Bytes)
    ensures ReadWord32(EncodeVarint(n) + rest) == if n < TWO32 then Some((n, rest)) else None
  {
    hide EncodeVarint, ReadVarint;
    if n < TWO32 {
      Word32RoundTrip(n, rest);
    } else if |EncodeVarint(n)| <= 5 {
      VarintRoundTrip(n, 5, rest);
    } else {
      VarintLong(n, 5, rest);
    }
  }

  // A number without a sign is taken if its storage can hold it, and refused otherwise.
  lemma UnsignedReads(t: FieldType, n: nat, rest: Bytes)
    requires n < TWO64 && (t.Bool? || t.UVarint?)
    ensures DecodeNumber(t, EncodeVarint(n) + rest) ==
      match t
      case Bool => if n < TWO32 then Some((Flag(n != 0), rest)) else None
      case _ => if n < Range(t.size) then Some((Number(n), rest)) else None
  {
    hide EncodeVarint, DecodeVarint64, ReadWord32;
    Word32Reads(n, rest);
    Varint64RoundTrip(n, rest);
  }

  // The same for numbers with a sign, in either encoding.
  lemma SignedReads(t: FieldType, i: int, rest: Bytes)
    requires GoodType(t) && Signed(i, 8) && (t.SVarint? || (t.Varint? && (t.size == 8 || Signed(i, 4))))
    ensures DecodeNumber(t, EncodeVarint(if t.SVarint? then ZigZag(i) else i % TWO64) + rest) ==
      if Signed(i, t.size) then Some((Number(i), rest)) else None
  {
    hide EncodeVarint, DecodeVarint64, AsSigned;
    ZigZagRoundTrip(i);
    if t.SVarint? {
      Varint64RoundTrip(ZigZag(i), rest);
    } else {
      Varint64RoundTrip(i % TWO64, rest);
      SignedRoundTrip(i, if t.size == 8 then 8 else 4);
    }
  }

  /* ---- strings ---- */

  // The bytes before the first zero.
  ghost predicate IsUpToZero(bytes: Bytes, r: Bytes) {
    r <= bytes && 0 !in r && (r == bytes || bytes[|r|] == 0)
  }

  lemma {:induction false} UpToZeroIs(bytes: Bytes)
    ensures IsUpToZero(bytes, UpToZero(bytes))
  {
    if bytes != [] && bytes[0] != 0 {
      UpToZeroIs(bytes[1..]);
      assert bytes == [bytes[0]] + bytes[1..];
    }
  }

  // A string is taken if its storage can hold it, a C string with its final zero, and
  // refused otherwise; an empty one fills storage of a fixed size with zeros.
  lemma BytesRead(t: FieldType, bytes: Bytes, rest: Bytes)
    requires |bytes| < TWO32 && (t.Blob? || t.Text? || t.FixedBlob?)
    ensures var r := DecodeBytes(t, EncodePrefixed(bytes) + rest);
      match t
      case Blob(max) => r == if |bytes| <= max then Some((Raw(bytes), rest)) else None
      case Text(size) => if |bytes| < size then r.Some? && r.value.0.Raw? && r.value.1 == rest && IsUpToZero(bytes, r.value.0.bytes) else r.None?
      case _ => r == if |bytes| == t.size then Some((Raw(bytes), rest)) else if bytes == [] then Some((Raw(Zeros(t.size)), rest)) else None
  {
    hide EncodePrefixed, ReadPrefixed, UpToZero;
    PrefixedReads(bytes, rest);
    UpToZeroIs(bytes);
    if bytes == [] && t.FixedBlob? && t.size == 0 {
      assert Zeros(0) == bytes;
    }
  }

  /* ---- arrays ---- */

  // More packed values than there is room for are refused.
  lemma {:induction false} TooManyPacked(t: FieldType, vs: seq<Value>, j: nat, count: nat)
    requires Packable(t) && AllSound(t, vs) && j <= count < |vs|
    ensures AllHaveType(t, vs[j..]) && DecodePacked(t, EncodeValues(t, vs[j..]), vs[..j], count) == None
    decreases count - j
  {
    hide HasType, EncodeValue, DecodeNumber, GoodType, ValueFits, Terminated;
    assert vs[j..][0] == vs[j] && vs[j..][1..] == vs[j + 1..] && vs[..j] + [vs[j]] == vs[..j + 1];
    if j < count {
      NumberRoundTrip(t, vs[j], EncodeValues(t, vs[j + 1..]));
      TooManyPacked(t, vs, j + 1, count);
    }
  }

  // An array that is full takes nothing more, packed or not; a packed array that is empty
  // adds nothing to it.
  lemma FullArray(fields: seq<Field>, k: nat, wire: nat, body: Bytes, p: Bytes, rest: Bytes, slots: seq<Slot>, seen: set<nat>)
    requires GoodFields(fields) && k < |fields| == |slots| && wire < 8 && fields[k].rule.Repeated?
    requires slots[k].Many? && |slots[k].vs| == fields[k].rule.count
    requires wire == WIRE_STRING && Packable(fields[k].ftype) ==> |p| < TWO32 && body == EncodePrefixed(p) + rest
    ensures DecodeSlots(fields, TagBytes(fields[k].tag, wire) + body, slots, seen) ==
      if wire == WIRE_STRING && Packable(fields[k].ftype) && p == [] then DecodeSlots(fields, rest, slots, Seen(fields, k, seen)) else None
  {
    hide DecodeSlots, TagBytes, EncodePrefixed, ReadPrefixed, DecodeValue, GoodFields, Seen;
    TagStep(fields, k, wire, body, slots, seen);
    if wire == WIRE_STRING && Packable(fields[k].ftype) {
      PrefixedReads(p, rest);
      SetPlain(fields, slots, k, slots[k]);
      assert slots[k := slots[k]] == slots;
    }
  }

  /* ---- fields again, and the end ---- */

  // A submessage that occurs again is decoded into what is there; in a oneof it starts anew.
  lemma SubmessageAgain(fields: seq<Field>, k: nat, b: Bytes, rest: Bytes, ms: seq<Slot>, slots: seq<Slot>, seen: set<nat>)
    requires GoodFields(fields) && k < |fields| == |slots| && !fields[k].rule.Repeated? && fields[k].ftype.Submessage?
    requires slots[k] == One(Message(ms)) && |ms| == |fields[k].ftype.fields| && |b| < TWO32
    ensures var inner := fields[k].ftype.fields;
      var r := DecodeSlots(inner, b, if fields[k].rule.Oneof? then ZeroSlots(inner) else ms, {});
      DecodeSlots(fields, TagBytes(fields[k].tag, WIRE_STRING) + (EncodePrefixed(b) + rest), slots, seen) ==
      if r.None? then None
      else DecodeSlots(fields, rest, SetSlot(fields, slots, k, One(Message(r.value.0))), Seen(fields, k, seen))
  {
    hide DecodeSlots, TagBytes, EncodePrefixed, ReadPrefixed, GoodFields, Seen, SetSlot;
    TagStep(fields, k, WIRE_STRING, EncodePrefixed(b) + rest, slots, seen);
    PrefixedReads(b, rest);
  }

  // A zero byte after the fields ends the message; what follows is left.
  lemma ZeroTagEnds(fields: seq<Field>, slots: seq<Slot>, rest: Bytes)
    requires SoundMessage(fields, slots) && |slots| == |fields| && SlotsOk(fields, slots)
    requires |EncodeSlots(fields, slots)| < TWO32 && TerminatedBefore(fields, slots, |fields|)
    ensures Decode(fields, EncodeSlots(fields, slots) + ([0] + rest)) == Some((slots, rest))
  {
    var n := |fields|;
    assert fields[..n] == fields && slots[..n] == slots;
    ReadsPrefix(fields, slots, n, [0] + rest);
    assert EncodeVarint(0) == [0];
    Word32RoundTrip(0, rest);
    hide SeenAfter, EncodeSlots, ReadWord32;
    SeenAll(fields, n, Least(RequiredBefore(fields, n), MAX_REQUIRED));
    assert Partial(fields, slots, n) == slots;
  }

  /* ---- messages that another table wrote ---- */

  ghost predicate Unknown(others: seq<Field>, tag: nat) {
    forall i :: 0 <= i < |others| ==> others[i].tag != tag
  }

  lemma ValueIsBody(t: FieldType, v: Value)
    requires HasType(t, v) && |EncodeValue(t, v)| < TWO32
    ensures IsBody(WireType(t), EncodeValue(t, v))
  {
    hide EncodeVarint, EncodeSlots;
    if t.Submessage? {
      assert HasTypes(t.fields, v.slots);
      EncodedLength(EncodeSlots(t.fields, v.slots));
    } else if !Packable(t) {
      EncodedLength(v.bytes);
    }
  }

  lemma ValueSkipped(others: seq<Field>, f: Field, v: Value, rest: Bytes, slots: seq<Slot>, seen: set<nat>)
    requires |slots| == |others| && Unknown(others, f.tag) && 0 < f.tag < 0x2000_0000
    requires HasType(f.ftype, v) && |EncodeValue(f.ftype, v)| < TWO32
    ensures DecodeSlots(others, TagBytes(f.tag, WireType(f.ftype)) + EncodeValue(f.ftype, v) + rest, slots, seen) == DecodeSlots(others, rest, slots, seen)
  {
    hide DecodeSlots, TagBytes, EncodeValue, IsBody, HasType;
    ValueIsBody(f.ftype, v);
    UnknownFieldSkipped(others, f.tag, WireType(f.ftype), EncodeValue(f.ftype, v), rest, slots, seen);
  }

  lemma {:induction false} TaggedSkipped(others: seq<Field>, f: Field, vs: seq<Value>, rest: Bytes, slots: seq<Slot>, seen: set<nat>)
    requires |slots| == |others| && Unknown(others, f.tag) && 0 < f.tag < 0x2000_0000
    requires AllHaveType(f.ftype, vs) && |EncodeTagged(f, vs)| < TWO32
    ensures DecodeSlots(others, EncodeTagged(f, vs) + rest, slots, seen) == DecodeSlots(others, rest, slots, seen)
    decreases |vs|
  {
    hide DecodeSlots, TagBytes, EncodeValue, HasType;
    if vs == [] {
      assert EncodeTagged(f, vs) + rest == rest;
    } else {
      var more := EncodeTagged(f, vs[1..]);
      Regroup(TagBytes(f.tag, WireType(f.ftype)) + EncodeValue(f.ftype, vs[0]), more, rest);
      ValueSkipped(others, f, vs[0], more + rest, slots, seen);
      TaggedSkipped(others, f, vs[1..], rest, slots, seen);
    }
  }

  lemma SlotSkipped(others: seq<Field>, f: Field, s: Slot, rest: Bytes, slots: seq<Slot>, seen: set<nat>)
    requires |slots| == |others| && Unknown(others, f.tag) && 0 < f.tag < 0x2000_0000
    requires SlotOk(f, s) && |EncodeSlot(f, s)| < TWO32
    ensures DecodeSlots(others, EncodeSlot(f, s) + rest, slots, seen) == DecodeSlots(others, rest, slots, seen)
  {
    hide DecodeSlots, TagBytes, EncodeValue, EncodeValues, EncodePrefixed, HasType, AllHaveType, EncodeTagged, IsZero, Unknown;
    if EncodeSlot(f, s) == [] {
      assert EncodeSlot(f, s) + rest == rest;
    } else if s.One? {
      ValueSkipped(others, f, s.v, rest, slots, seen);
    } else if Packable(f.ftype) {
      var values := EncodeValues(f.ftype, s.vs);
      EncodedLength(values);
      PrefixedIsBody(values);
      UnknownTag(others, f.tag);
      UnknownFieldSkipped(others, f.tag, WIRE_STRING, EncodePrefixed(values), rest, slots, seen);
    } else {
      TaggedSkipped(others, f, s.vs, rest, slots, seen);
    }
  }

  lemma PrefixedIsBody(s: Bytes)
    requires |s| < TWO32
    ensures IsBody(WIRE_STRING, EncodePrefixed(s))
  {
  }

  lemma UnknownTag(others: seq<Field>, tag: nat)
    requires Unknown(others, tag)
    ensures forall i :: 0 <= i < |others| ==> others[i].tag != tag
  {
  }

  // What was encoded by a table with other tags is skipped whole, because every field says by
  // its wire type how long it is.
  lemma {:induction false} OtherMessageSkipped(others: seq<Field>, fields: seq<Field>, ms: seq<Slot>, rest: Bytes, slots: seq<Slot>, seen: set<nat>)
    requires |slots| == |others| && |ms| == |fields| && SlotsOk(fields, ms) && |EncodeSlots(fields, ms)| < TWO32
    requires forall i :: 0 <= i < |fields| ==> 0 < fields[i].tag < 0x2000_0000 && Unknown(others, fields[i].tag)
    ensures DecodeSlots(others, EncodeSlots(fields, ms) + rest, slots, seen) == DecodeSlots(others, rest, slots, seen)
    decreases |fields|
  {
    hide DecodeSlots, EncodeSlot, SlotOk, Unknown;
    if fields == [] {
      assert EncodeSlots(fields, ms) + rest == rest;
    } else {
      var n := |fields| - 1;
      Regroup(EncodeSlots(fields[..n], ms[..n]), EncodeSlot(fields[n], ms[n]), rest);
      OtherMessageSkipped(others, fields[..n], ms[..n], EncodeSlot(fields[n], ms[n]) + rest, slots, seen);
      SlotSkipped(others, fields[n], ms[n], rest, slots, seen);
    }
  }
}
