/**
 Decoding what the nanopb encoder wrote gives the message back, for every table of fields
 and every message that fits it, if and only if every string in it leaves room for its final
 zero: the encoder writes a string that fills its storage, and the decoder refuses it.
 */
module PbRoundTrip {
  import opened Keys
  import opened Coding
  import opened PbMessage
  import opened PbDecode

  /* ---- numbers ---- */

  lemma Word32RoundTrip(v: nat, rest: Bytes)
    requires v < TWO32
    ensures ReadWord32(EncodeVarint(v) + rest) == Some((v, rest))
  {
    hide EncodeVarint, ReadVarint;
    VarintLengths(v);
    VarintRoundTrip(v, 5, rest);
  }

  lemma WrapsAround(i: int, m: nat)
    requires m > 0 && 0 <= i + m < 2 * m
    ensures i % m == if i < 0 then i + m else i
  {
    if i < 0 {
      assert (i + m) % m == i + m;
    }
  }

  lemma WideSigned(i: int)
    requires Signed(i, 8)
    ensures AsSigned(i % TWO64, 8) == i
  {
    WrapsAround(i, TWO64);
  }

  lemma NarrowSigned(i: int)
    requires Signed(i, 4)
    ensures AsSigned(i % TWO64, 4) == i
  {
    WrapsAround(i, TWO64);
    WrapsAround(i, TWO32);
    if i < 0 {
      assert i + TWO64 == (i + TWO32) + (TWO32 - 1) * TWO32;
    }
  }

  lemma SignedRoundTrip(i: int, size: nat)
    requires SizeOk(size) && Signed(i, size)
    ensures AsSigned(i % TWO64, if size == 8 then 8 else 4) == i
  {
    if size == 8 {
      WideSigned(i);
    } else {
      NarrowSigned(i);
    }
  }

  lemma ZigZagRoundTrip(i: int)
    ensures UnZigZag(ZigZag(i)) == i
  {
  }

  lemma Signed64(i: int, size: nat)
    requires SizeOk(size) && Signed(i, size)
    ensures Signed(i, 8)
  {
  }

  lemma PrefixedReads(bytes: Bytes, rest: Bytes)
    requires |bytes| < TWO32
    ensures ReadPrefixed(EncodePrefixed(bytes) + rest) == Some((bytes, rest))
  {
    hide EncodeVarint, ReadWord32;
    Word32RoundTrip(|bytes|, bytes + rest);
    assert EncodePrefixed(bytes) + rest == EncodeVarint(|bytes|) + (bytes + rest);
  }

  lemma NumberRoundTrip(t: FieldType, v: Value, rest: Bytes)
    requires Packable(t) && GoodType(t) && HasType(t, v)
    ensures DecodeNumber(t, EncodeValue(t, v) + rest) == Some((v, rest))
  {
    hide EncodeVarint, ReadWord32, ReadVarint, DecodeVarint, EncodeFixed32, DecodeFixed32, EncodeFixed64, DecodeFixed64, AsSigned, ZigZag, UnZigZag;
    match t
    case Bool =>
      Word32RoundTrip(if v.b then 1 else 0, rest);
    case Varint(size) =>
      Varint64RoundTrip(v.i % TWO64, rest);
      SignedRoundTrip(v.i, size);
    case UVarint(size) =>
      Varint64RoundTrip(v.i, rest);
    case SVarint(size) =>
      Signed64(v.i, size);
      Varint64RoundTrip(ZigZag(v.i), rest);
      ZigZagRoundTrip(v.i);
    case Fixed32 =>
      Fixed32RoundTrip(v.i, rest);
      assert (EncodeFixed32(v.i) + rest)[4..] == rest;
    case Fixed64 =>
      Fixed64RoundTrip(v.i, rest);
      assert (EncodeFixed64(v.i) + rest)[8..] == rest;
  }

  lemma {:induction false} NoZeros(bytes: Bytes)
    requires 0 !in bytes
    ensures UpToZero(bytes) == bytes
  {
    if bytes != [] {
      NoZeros(bytes[1..]);
    }
  }

  // A string reads back if and only if its storage has room for a zero behind it.
  lemma TextRoundTrip(size: nat, v: Value, rest: Bytes)
    requires HasType(Text(size), v) && |v.bytes| < TWO32
    ensures |v.bytes| < size ==> DecodeBytes(Text(size), EncodeValue(Text(size), v) + rest) == Some((v, rest))
    ensures |v.bytes| == size ==> DecodeBytes(Text(size), EncodeValue(Text(size), v) + rest) == None
  {
    PrefixedReads(v.bytes, rest);
    NoZeros(v.bytes);
  }

  /* ---- messages ---- */

  // Strings leave room for their final zero.
  ghost predicate Terminated(t: FieldType, v: Value)
    decreases t, 0
  {
    match t
    case Text(size) => v.Raw? ==> |v.bytes| < size
    case Submessage(fields) => v.Message? && |v.slots| == |fields| ==> AllTerminated(fields, v.slots)
    case _ => true
  }

  ghost predicate SlotTerminated(f: Field, s: Slot)
    decreases f, 0
  {
    match s
    case Absent => true
    case One(v) => Terminated(f.ftype, v)
    case Many(vs) => forall j :: 0 <= j < |vs| ==> Terminated(f.ftype, vs[j])
  }

  ghost predicate AllTerminated(fields: seq<Field>, slots: seq<Slot>)
    requires |slots| == |fields|
    decreases fields, 0
  {
    forall i :: 0 <= i < |fields| ==> SlotTerminated(fields[i], slots[i])
  }

  // What the encoder accepts.
  ghost predicate Sound(t: FieldType, v: Value) {
    GoodType(t) && HasType(t, v) && ValueFits(t, v)
  }

  ghost predicate SoundSlot(f: Field, s: Slot) {
    GoodField(f) && SlotOk(f, s) && SlotFits(f, s)
  }

  ghost predicate SoundMessage(fields: seq<Field>, slots: seq<Slot>) {
    GoodFields(fields) && HasTypes(fields, slots) && SlotsFit(fields, slots)
  }

  lemma SoundSlots(fields: seq<Field>, slots: seq<Slot>, i: nat)
    requires SoundMessage(fields, slots) && i < |fields|
    ensures SoundSlot(fields[i], slots[i])
  {
    assert SlotsOk(fields, slots);
  }

  lemma SoundValue(f: Field, s: Slot)
    requires SoundSlot(f, s)
    ensures s.One? ==> Sound(f.ftype, s.v)
    ensures s.Many? ==> f.rule.Repeated? && |s.vs| <= f.rule.count && AllSound(f.ftype, s.vs)
  {
    if s.Many? {
      assert AllHaveType(f.ftype, s.vs);
    }
  }

  ghost predicate AllSound(t: FieldType, vs: seq<Value>) {
    AllHaveType(t, vs) && forall j :: 0 <= j < |vs| ==> Sound(t, vs[j])
  }

  lemma SoundSubmessage(t: FieldType, v: Value)
    requires Sound(t, v) && t.Submessage?
    ensures v.Message? && SoundMessage(t.fields, v.slots)
    ensures EncodeValue(t, v) == EncodePrefixed(EncodeSlots(t.fields, v.slots))
  {
    assert HasTypes(t.fields, v.slots);
  }

  // A result that there is only under a condition.
  function Only<T>(condition: bool, r: Option<T>): Option<T> {
    if condition then r else None
  }

  lemma BytesRoundTrip(t: FieldType, v: Value, rest: Bytes)
    requires Sound(t, v) && !Packable(t) && !t.Submessage? && |v.bytes| < TWO32
    ensures DecodeBytes(t, EncodeValue(t, v) + rest) == Only(Terminated(t, v), Some((v, rest)))
  {
    hide EncodeVarint, ReadPrefixed, UpToZero, EncodePrefixed;
    PrefixedReads(v.bytes, rest);
    if t.Text? {
      NoZeros(v.bytes);
    }
  }

  lemma EncodedLength(bytes: Bytes)
    ensures |EncodePrefixed(bytes)| > |bytes|
  {
  }

  // A value reads back, whatever follows it, if its strings leave room for a zero.
  lemma {:induction false} ValueRoundTrip(t: FieldType, v: Value, rest: Bytes)
    requires Sound(t, v) && |EncodeValue(t, v)| < TWO32
    ensures DecodeValue(t, EncodeValue(t, v) + rest, ZeroOf(t)) == Only(Terminated(t, v), Some((v, rest)))
    decreases t, 4
  {
    if Packable(t) {
      NumberRoundTrip(t, v, rest);
    } else if !t.Submessage? {
      EncodedLength(v.bytes);
      BytesRoundTrip(t, v, rest);
    } else {
      SoundSubmessage(t, v);
      var bytes := EncodeSlots(t.fields, v.slots);
      EncodedLength(bytes);
      PrefixedReads(bytes, rest);
      MessageParts(t.fields, v.slots);
      MessageRoundTrip(t.fields, v.slots);
    }
  }

  // A tag sends the decoder to its field.
  lemma TagStep(fields: seq<Field>, k: nat, wire: nat, body: Bytes, slots: seq<Slot>, seen: set<nat>)
    requires GoodFields(fields) && k < |fields| == |slots| && wire < 8
    ensures DecodeSlots(fields, TagBytes(fields[k].tag, wire) + body, slots, seen) ==
      var r := DecodeField(fields[k], wire, body, slots[k]);
      if r.None? then None
      else DecodeSlots(fields, r.value.1, SetSlot(fields, slots, k, r.value.0), Seen(fields, k, seen))
  {
    assert GoodField(fields[k]);
    var tag := fields[k].tag;
    Word32RoundTrip(tag * 8 + wire, body);
    FindsField(fields, k);
    hide EncodeVarint, ReadWord32, DecodeField, SetSlot, Seen, Find, Finish, GoodFields, GoodField;
    assert (tag * 8 + wire) / 8 == tag && (tag * 8 + wire) % 8 == wire && tag * 8 + wire > 0;
  }

  lemma FindsField(fields: seq<Field>, k: nat)
    requires GoodFields(fields) && k < |fields|
    ensures Find(fields, fields[k].tag) == k
  {
    var i := Find(fields, fields[k].tag);
    assert i < |fields|;
    TagsDiffer(fields, i, k);
  }

  lemma TagsDiffer(fields: seq<Field>, i: nat, j: nat)
    requires GoodFields(fields) && i < |fields| && j < |fields| && fields[i].tag == fields[j].tag
    ensures i == j
  {
  }

  /* ---- arrays ---- */

  lemma {:induction false} PackedRoundTrip(t: FieldType, vs: seq<Value>, j: nat, count: nat)
    requires Packable(t) && AllSound(t, vs) && j <= |vs| <= count
    ensures AllHaveType(t, vs[j..]) && DecodePacked(t, EncodeValues(t, vs[j..]), vs[..j], count) == Some(vs)
    decreases |vs| - j
  {
    hide HasType, EncodeValue, DecodeNumber, GoodType, ValueFits, Terminated;
    if j == |vs| {
      assert vs[..j] == vs;
    } else {
      assert vs[j..][0] == vs[j] && vs[j..][1..] == vs[j + 1..] && vs[..j] + [vs[j]] == vs[..j + 1];
      NumberRoundTrip(t, vs[j], EncodeValues(t, vs[j + 1..]));
      PackedRoundTrip(t, vs, j + 1, count);
    }
  }

  lemma SetPlain(fields: seq<Field>, slots: seq<Slot>, k: nat, s: Slot)
    requires k < |fields| == |slots| && fields[k].rule.Repeated?
    ensures SetSlot(fields, slots, k, s) == slots[k := s]
  {
  }

  ghost predicate TerminatedFrom(t: FieldType, vs: seq<Value>, j: nat) {
    forall i :: j <= i < |vs| ==> Terminated(t, vs[i])
  }

  lemma FirstTerminated(t: FieldType, vs: seq<Value>, j: nat)
    requires j <= |vs|
    ensures TerminatedFrom(t, vs, j) <==> j == |vs| || (Terminated(t, vs[j]) && TerminatedFrom(t, vs, j + 1))
  {
  }

  // The values of an array that is not packed come one by one.
  lemma {:induction false} TaggedRoundTrip(fields: seq<Field>, k: nat, vs: seq<Value>, j: nat, rest: Bytes, slots: seq<Slot>, seen: set<nat>)
    requires GoodFields(fields) && k < |fields| == |slots| && fields[k].rule.Repeated? && !Packable(fields[k].ftype)
    requires AllSound(fields[k].ftype, vs) && j <= |vs| <= fields[k].rule.count && slots[k] == Many(vs[..j])
    requires AllHaveType(fields[k].ftype, vs[j..]) && |EncodeTagged(fields[k], vs[j..])| < TWO32
    ensures DecodeSlots(fields, EncodeTagged(fields[k], vs[j..]) + rest, slots, seen)
      == Only(TerminatedFrom(fields[k].ftype, vs, j), DecodeSlots(fields, rest, slots[k := Many(vs)], seen))
    decreases fields[k], |vs| - j
  {
    var f := fields[k];
    hide HasType, EncodeValue, DecodeValue, GoodType, GoodFields, ValueFits, Terminated, TerminatedFrom, TagBytes, DecodeSlots, SetSlot;
    FirstTerminated(f.ftype, vs, j);
    if j == |vs| {
      assert vs[..j] == vs && slots[k := Many(vs)] == slots;
      assert EncodeTagged(f, vs[j..]) + rest == rest;
    } else {
      assert vs[j..][0] == vs[j] && vs[j..][1..] == vs[j + 1..] && vs[..j] + [vs[j]] == vs[..j + 1];
      var tag, value, more := TagBytes(f.tag, WireType(f.ftype)), EncodeValue(f.ftype, vs[j]), EncodeTagged(f, vs[j + 1..]);
      Regroup(tag + value, more, rest);
      Regroup(tag, value, more + rest);
      ValueRoundTrip(f.ftype, vs[j], more + rest);
      TagStep(fields, k, WireType(f.ftype), value + (more + rest), slots, seen);
      SetPlain(fields, slots, k, Many(vs[..j + 1]));
      TaggedRoundTrip(fields, k, vs, j + 1, rest, slots[k := Many(vs[..j + 1])], seen);
      assert slots[k := Many(vs[..j + 1])][k := Many(vs)] == slots[k := Many(vs)];
    }
  }

  /* ---- whole messages ---- */

  // The encoding of the fields from one on.
  ghost function EncodeFrom(fields: seq<Field>, slots: seq<Slot>, k: nat): Bytes
    requires |slots| == |fields| && SlotsOk(fields, slots) && k <= |fields|
    decreases |fields| - k
  {
    if k == |fields| then [] else EncodeSlot(fields[k], slots[k]) + EncodeFrom(fields, slots, k + 1)
  }

  lemma Regroup<T>(a: seq<T>, b: seq<T>, c: seq<T>)
    ensures a + b + c == a + (b + c)
  {
  }

  lemma {:induction false} EncodeSplits(fields: seq<Field>, slots: seq<Slot>, k: nat)
    requires |slots| == |fields| && SlotsOk(fields, slots) && k <= |fields|
    ensures SlotsOk(fields[..k], slots[..k])
    ensures EncodeSlots(fields, slots) == EncodeSlots(fields[..k], slots[..k]) + EncodeFrom(fields, slots, k)
    decreases |fields| - k
  {
    hide EncodeSlot, SlotOk;
    if k == |fields| {
      assert fields[..k] == fields && slots[..k] == slots;
    } else {
      EncodeSplits(fields, slots, k + 1);
      var fs, ss := fields[..k + 1], slots[..k + 1];
      assert fs[..k] == fields[..k] && ss[..k] == slots[..k] && fs[k] == fields[k] && ss[k] == slots[k];
      assert EncodeSlots(fs, ss) == EncodeSlots(fs[..k], ss[..k]) + EncodeSlot(fs[k], ss[k]);
      hide EncodeSlots;
      Regroup(EncodeSlots(fields[..k], slots[..k]), EncodeSlot(fields[k], slots[k]), EncodeFrom(fields, slots, k + 1));
    }
  }

  // The message when the fields before one have been decoded.
  ghost function Partial(fields: seq<Field>, slots: seq<Slot>, k: nat): (r: seq<Slot>)
    requires |slots| == |fields| && k <= |fields|
    ensures |r| == |fields| && forall i :: 0 <= i < |fields| ==> r[i] == if i < k then slots[i] else ZeroSlot(fields[i])
  {
    slots[..k] + ZeroSlots(fields)[k..]
  }

  ghost function SeenAfter(fields: seq<Field>, k: nat): set<nat>
    requires k <= |fields|
  {
    if k == 0 then {} else Seen(fields, k - 1, SeenAfter(fields, k - 1))
  }

  lemma {:induction false} SeenAll(fields: seq<Field>, k: nat, n: nat)
    requires k <= |fields| && n <= RequiredBefore(fields, k) && n <= MAX_REQUIRED
    ensures SeenUpTo(SeenAfter(fields, k), n)
    decreases k, n
  {
    if n > 0 {
      SeenAll(fields, k, n - 1);
      SeenOne(fields, k, n - 1);
    }
  }

  lemma {:induction false} SeenOne(fields: seq<Field>, k: nat, m: nat)
    requires k <= |fields| && m < RequiredBefore(fields, k) && m < MAX_REQUIRED
    ensures m in SeenAfter(fields, k)
    decreases k
  {
    if m < RequiredBefore(fields, k - 1) {
      SeenOne(fields, k - 1, m);
    }
  }

  // Setting the slot of a field that comes next.
  lemma SetNext(fields: seq<Field>, slots: seq<Slot>, k: nat)
    requires |slots| == |fields| && k < |fields| && OneofsOk(fields, slots) && !slots[k].Absent?
    ensures SetSlot(fields, Partial(fields, slots, k), k, slots[k]) == Partial(fields, slots, k + 1)
  {
    forall j | 0 <= j < |fields|
      ensures SetSlot(fields, Partial(fields, slots, k), k, slots[k])[j] == Partial(fields, slots, k + 1)[j]
    {
      if j != k && SameOneof(fields[k], fields[j]) {
        assert j < k ==> SameOneof(fields[j], fields[k]);
      }
    }
  }

  // A field that is left out holds what the message held before.
  lemma LeftOut(f: Field, s: Slot)
    requires SoundSlot(f, s) && EncodeSlot(f, s) == []
    ensures s == ZeroSlot(f) && !f.rule.Required?
  {
    SoundValue(f, s);
    if s.One? {
      ZeroIsDefault(f.ftype, s.v);
    }
  }

  // A field with one value reads back.
  lemma {:induction false} OneRoundTrip(fields: seq<Field>, slots: seq<Slot>, k: nat, rest: Bytes)
    requires |slots| == |fields| && GoodFields(fields) && OneofsOk(fields, slots) && k < |fields|
    requires SoundSlot(fields[k], slots[k]) && slots[k].One?
    requires Sound(fields[k].ftype, slots[k].v) && |EncodeValue(fields[k].ftype, slots[k].v)| < TWO32
    ensures DecodeSlots(fields, TagBytes(fields[k].tag, WireType(fields[k].ftype)) + EncodeValue(fields[k].ftype, slots[k].v) + rest,
        Partial(fields, slots, k), SeenAfter(fields, k))
      == Only(SlotTerminated(fields[k], slots[k]), DecodeSlots(fields, rest, Partial(fields, slots, k + 1), SeenAfter(fields, k + 1)))
    decreases fields[k], 5
  {
    var f, v := fields[k], slots[k].v;
    var tag, value := TagBytes(f.tag, WireType(f.ftype)), EncodeValue(f.ftype, v);
    hide TagBytes, EncodeValue, DecodeValue, DecodeSlots, SetSlot, GoodFields, Sound, OneofsOk;
    assert tag + value + rest == tag + (value + rest);
    ValueRoundTrip(f.ftype, v, rest);
    TagStep(fields, k, WireType(f.ftype), value + rest, Partial(fields, slots, k), SeenAfter(fields, k));
    SetNext(fields, slots, k);
  }

  lemma PackedDecodes(f: Field, vs: seq<Value>, rest: Bytes)
    requires f.rule.Repeated? && Packable(f.ftype) && AllSound(f.ftype, vs) && |vs| <= f.rule.count
    requires |EncodeValues(f.ftype, vs)| < TWO32
    ensures DecodeField(f, WIRE_STRING, EncodePrefixed(EncodeValues(f.ftype, vs)) + rest, Many([])) == Some((Many(vs), rest))
  {
    var values := EncodeValues(f.ftype, vs);
    hide EncodeValues, EncodePrefixed, ReadPrefixed, DecodePacked, DecodeValue, AllHaveType, Sound;
    PrefixedReads(values, rest);
    PackedRoundTrip(f.ftype, vs, 0, f.rule.count);
    assert vs[0..] == vs && vs[..0] == [];
  }

  // A packed array reads back.
  lemma {:induction false} PackedFieldRoundTrip(fields: seq<Field>, slots: seq<Slot>, k: nat, rest: Bytes)
    requires |slots| == |fields| && GoodFields(fields) && OneofsOk(fields, slots) && k < |fields|
    requires slots[k].Many? && fields[k].rule.Repeated? && Packable(fields[k].ftype)
    requires AllSound(fields[k].ftype, slots[k].vs) && |slots[k].vs| <= fields[k].rule.count
    requires |EncodeValues(fields[k].ftype, slots[k].vs)| < TWO32
    ensures DecodeSlots(fields, TagBytes(fields[k].tag, WIRE_STRING) + EncodePrefixed(EncodeValues(fields[k].ftype, slots[k].vs)) + rest,
        Partial(fields, slots, k), SeenAfter(fields, k))
      == DecodeSlots(fields, rest, Partial(fields, slots, k + 1), SeenAfter(fields, k + 1))
  {
    var f, vs := fields[k], slots[k].vs;
    var tag, values := TagBytes(f.tag, WIRE_STRING), EncodeValues(f.ftype, vs);
    hide TagBytes, EncodeValues, EncodePrefixed, DecodeSlots, DecodeField, SetSlot, GoodFields, AllSound, OneofsOk, Packable, SeenAfter;
    assert tag + EncodePrefixed(values) + rest == tag + (EncodePrefixed(values) + rest);
    PackedDecodes(f, vs, rest);
    TagStep(fields, k, WIRE_STRING, EncodePrefixed(values) + rest, Partial(fields, slots, k), SeenAfter(fields, k));
    SetNext(fields, slots, k);
    NotRequired(fields, k);
  }

  lemma NotRequired(fields: seq<Field>, k: nat)
    requires k < |fields| && !fields[k].rule.Required?
    ensures SeenAfter(fields, k + 1) == SeenAfter(fields, k)
  {
  }

  // An array that is not packed reads back.
  lemma {:induction false} TaggedFieldRoundTrip(fields: seq<Field>, slots: seq<Slot>, k: nat, rest: Bytes)
    requires |slots| == |fields| && GoodFields(fields) && k < |fields|
    requires slots[k].Many? && fields[k].rule.Repeated? && !Packable(fields[k].ftype)
    requires AllSound(fields[k].ftype, slots[k].vs) && |slots[k].vs| <= fields[k].rule.count
    requires |EncodeTagged(fields[k], slots[k].vs)| < TWO32
    ensures DecodeSlots(fields, EncodeTagged(fields[k], slots[k].vs) + rest, Partial(fields, slots, k), SeenAfter(fields, k))
      == Only(SlotTerminated(fields[k], slots[k]), DecodeSlots(fields, rest, Partial(fields, slots, k + 1), SeenAfter(fields, k + 1)))
    decreases fields, 1
  {
    var vs := slots[k].vs;
    assert SlotTerminated(fields[k], slots[k]) <==> TerminatedFrom(fields[k].ftype, vs, 0);
    hide EncodeTagged, SlotTerminated, TerminatedFrom, DecodeSlots, GoodFields, AllHaveType, Sound, Packable;
    assert vs[0..] == vs && vs[..0] == [];
    TaggedRoundTrip(fields, k, vs, 0, rest, Partial(fields, slots, k), SeenAfter(fields, k));
    assert Partial(fields, slots, k)[k := Many(vs)] == Partial(fields, slots, k + 1);
  }

  lemma PackedTerminated(f: Field, s: Slot)
    requires Packable(f.ftype)
    ensures SlotTerminated(f, s)
  {
  }

  lemma {:induction false} ZeroTerminated(f: Field, s: Slot)
    requires GoodField(f) && s == ZeroSlot(f)
    ensures SlotTerminated(f, s)
    decreases f, 0
  {
    if s.One? && f.ftype.Submessage? {
      var fields := f.ftype.fields;
      assert GoodFields(fields);
      forall i | 0 <= i < |fields|
        ensures SlotTerminated(fields[i], ZeroSlots(fields)[i])
      {
        ZeroTerminated(fields[i], ZeroSlot(fields[i]));
      }
    }
  }

  // A field reads back.
  lemma {:induction false} FieldRoundTrip(fields: seq<Field>, slots: seq<Slot>, k: nat, rest: Bytes)
    requires SoundMessage(fields, slots) && k < |fields|
    requires SlotOk(fields[k], slots[k]) && |EncodeSlot(fields[k], slots[k])| < TWO32
    ensures DecodeSlots(fields, EncodeSlot(fields[k], slots[k]) + rest, Partial(fields, slots, k), SeenAfter(fields, k))
      == Only(SlotTerminated(fields[k], slots[k]), DecodeSlots(fields, rest, Partial(fields, slots, k + 1), SeenAfter(fields, k + 1)))
    decreases fields, 2
  {
    var f, s := fields[k], slots[k];
    SoundSlots(fields, slots, k);
    SoundValue(f, s);
    MessageParts(fields, slots);
    hide DecodeSlots, GoodFields, OneofsOk, EncodeValue, EncodeTagged, EncodeValues, SoundSlot, Sound, SoundMessage, TagBytes;
    if EncodeSlot(f, s) == [] {
      LeftOut(f, s);
      ZeroTerminated(f, s);
      assert [] + rest == rest;
      assert Partial(fields, slots, k) == Partial(fields, slots, k + 1);
    } else if s.One? {
      OneRoundTrip(fields, slots, k, rest);
    } else if Packable(f.ftype) {
      EncodedLength(EncodeValues(f.ftype, s.vs));
      PackedTerminated(f, s);
      PackedFieldRoundTrip(fields, slots, k, rest);
    } else {
      TaggedFieldRoundTrip(fields, slots, k, rest);
    }
  }

  lemma MessageParts(fields: seq<Field>, slots: seq<Slot>)
    requires SoundMessage(fields, slots)
    ensures |slots| == |fields| && GoodFields(fields) && OneofsOk(fields, slots) && SlotsOk(fields, slots)
  {
  }

  // A message reads back.
  lemma {:induction false} MessageRoundTrip(fields: seq<Field>, slots: seq<Slot>)
    requires SoundMessage(fields, slots) && SlotsOk(fields, slots) && |EncodeSlots(fields, slots)| < TWO32
    ensures Decode(fields, EncodeSlots(fields, slots)) == Only(AllTerminated(fields, slots), Some((slots, [])))
    decreases fields, 4
  {
    MessageParts(fields, slots);
    hide SoundMessage, SlotsOk, DecodeSlots, EncodeFrom;
    EncodeSplits(fields, slots, 0);
    NoFields(fields, slots);
    assert EncodeSlots(fields, slots) == EncodeFrom(fields, slots, 0);
    ReadsFrom(fields, slots, 0);
    assert AllTerminated(fields, slots) <==> SlotsTerminatedFrom(fields, slots, 0);
    assert Partial(fields, slots, 0) == ZeroSlots(fields) && SeenAfter(fields, 0) == {};
  }

  lemma NoFields(fields: seq<Field>, slots: seq<Slot>)
    requires |slots| == |fields|
    ensures SlotsOk(fields[..0], slots[..0]) && EncodeSlots(fields[..0], slots[..0]) == []
  {
  }

  ghost predicate SlotsTerminatedFrom(fields: seq<Field>, slots: seq<Slot>, k: nat)
    requires |slots| == |fields|
  {
    forall i :: k <= i < |fields| ==> SlotTerminated(fields[i], slots[i])
  }

  lemma FirstSlotTerminated(fields: seq<Field>, slots: seq<Slot>, k: nat)
    requires |slots| == |fields| && k < |fields|
    ensures SlotsTerminatedFrom(fields, slots, k) <==> SlotTerminated(fields[k], slots[k]) && SlotsTerminatedFrom(fields, slots, k + 1)
  {
  }

  lemma {:induction false} ReadsFrom(fields: seq<Field>, slots: seq<Slot>, k: nat)
    requires SoundMessage(fields, slots) && |slots| == |fields| && SlotsOk(fields, slots) && k <= |fields|
    requires |EncodeFrom(fields, slots, k)| < TWO32
    ensures DecodeSlots(fields, EncodeFrom(fields, slots, k), Partial(fields, slots, k), SeenAfter(fields, k))
      == Only(SlotsTerminatedFrom(fields, slots, k), Some((slots, [])))
    decreases fields, 3, |fields| - k
  {
    hide SoundMessage, EncodeSlot, SeenAfter, SlotOk, DecodeSlots, Partial, SlotTerminated;
    if k == |fields| {
      ReadsEnd(fields, slots);
    } else {
      FieldRoundTrip(fields, slots, k, EncodeFrom(fields, slots, k + 1));
      FirstSlotTerminated(fields, slots, k);
      ReadsFrom(fields, slots, k + 1);
    }
  }

  lemma ReadsEnd(fields: seq<Field>, slots: seq<Slot>)
    requires |slots| == |fields|
    ensures DecodeSlots(fields, [], Partial(fields, slots, |fields|), SeenAfter(fields, |fields|)) == Some((slots, []))
  {
    hide SeenAfter;
    SeenAll(fields, |fields|, Least(RequiredBefore(fields, |fields|), MAX_REQUIRED));
    assert Partial(fields, slots, |fields|) == slots;
  }
}
