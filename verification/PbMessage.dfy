/**
 nanopb messages (Pods/nanopb/pb.h): the table that describes the fields of a message, the
 values that a message holds, and the bytes that stand for it in the Protocol Buffers wire
 format (Protocol Buffers Encoding guide, sections "Base 128 Varints", "Signed Integers",
 "Length-Delimited Records").
 */
module PbMessage {
  import opened Coding

  type Bytes = seq<Byte>

  /* ---- descriptors ---- */

  // pb.h:153: what a field holds; sizes are those of its storage.
  datatype FieldType =
    | Bool
    | Varint(size: nat)
    | UVarint(size: nat)
    | SVarint(size: nat)
    | Fixed32
    | Fixed64
    | Blob(max: nat)
    | Text(size: nat)
    | FixedBlob(size: nat)
    | Submessage(fields: seq<Field>)

  // pb.h:191: how often a field occurs. A singular field has no flag for its presence.
  datatype Rule = Required | Optional | Singular | Repeated(count: nat) | Oneof(group: nat)

  datatype Field = Field(tag: nat, rule: Rule, ftype: FieldType)

  /* ---- values ---- */

  datatype Value = Flag(b: bool) | Number(i: int) | Raw(bytes: Bytes) | Message(slots: seq<Slot>)

  // What a message holds for a field.
  datatype Slot = Absent | One(v: Value) | Many(vs: seq<Value>)

  // The numbers of so many bytes.
  function Range(size: nat): (r: nat)
    ensures r > 0 && r % 2 == 0
  {
    if size == 1 then 0x100 else if size == 2 then 0x1_0000 else if size == 4 then TWO32 else TWO64
  }

  predicate SizeOk(size: nat) {
    size == 1 || size == 2 || size == 4 || size == 8
  }

  // A table that the generator writes: tags differ and fit their encoding.
  ghost predicate GoodFields(fields: seq<Field>)
    decreases fields, 1
  {
    && (forall i :: 0 <= i < |fields| ==> GoodField(fields[i]))
    && (forall i, j :: 0 <= i < j < |fields| ==> fields[i].tag != fields[j].tag)
  }

  ghost predicate GoodField(f: Field)
    decreases f, 0
  {
    0 < f.tag < 0x2000_0000 && GoodType(f.ftype)
  }

  ghost predicate GoodType(t: FieldType)
    decreases t, 0
  {
    match t
    case Varint(size) => SizeOk(size)
    case UVarint(size) => SizeOk(size)
    case SVarint(size) => SizeOk(size)
    case Text(size) => size > 0
    case Submessage(fields) => GoodFields(fields)
    case _ => true
  }

  predicate Signed(i: int, size: nat) {
    -(Range(size) / 2) <= i < Range(size) / 2
  }

  // A value of the type of the field.
  ghost predicate HasType(t: FieldType, v: Value)
    decreases t, 0
  {
    match t
    case Bool => v.Flag?
    case Varint(size) => v.Number? && Signed(v.i, size)
    case UVarint(size) => v.Number? && 0 <= v.i < Range(size)
    case SVarint(size) => v.Number? && Signed(v.i, size)
    case Fixed32 => v.Number? && 0 <= v.i < TWO32
    case Fixed64 => v.Number? && 0 <= v.i < TWO64
    case Blob(_) => v.Raw?
    case Text(size) => v.Raw? && |v.bytes| <= size && 0 !in v.bytes
    case FixedBlob(size) => v.Raw? && |v.bytes| == size
    case Submessage(fields) => v.Message? && HasTypes(fields, v.slots)
  }

  ghost predicate AllHaveType(t: FieldType, vs: seq<Value>)
    decreases t, 1
  {
    forall j :: 0 <= j < |vs| ==> HasType(t, vs[j])
  }

  ghost predicate SlotOk(f: Field, s: Slot)
    decreases f, 0
  {
    match s
    case Absent => f.rule.Optional? || f.rule.Oneof?
    case One(v) => !f.rule.Repeated? && HasType(f.ftype, v)
    case Many(vs) => f.rule.Repeated? && AllHaveType(f.ftype, vs)
  }

  ghost predicate SlotsOk(fields: seq<Field>, slots: seq<Slot>)
    requires |slots| == |fields|
    decreases fields, 0
  {
    forall i :: 0 <= i < |fields| ==> SlotOk(fields[i], slots[i])
  }

  // At most one member of a oneof is set.
  ghost predicate OneofsOk(fields: seq<Field>, slots: seq<Slot>)
    requires |slots| == |fields|
  {
    forall i, j :: 0 <= i < j < |fields| && SameOneof(fields[i], fields[j]) ==> slots[i].Absent? || slots[j].Absent?
  }

  predicate SameOneof(f: Field, g: Field) {
    f.rule.Oneof? && f.rule == g.rule
  }

  ghost predicate HasTypes(fields: seq<Field>, slots: seq<Slot>)
    decreases fields, 1
  {
    |slots| == |fields| && SlotsOk(fields, slots) && OneofsOk(fields, slots)
  }

  /* ---- defaults ---- */

  function Zeros(n: nat): (r: Bytes)
    ensures |r| == n
  {
    seq(n, i => 0)
  }

  function ZeroOf(t: FieldType): Value
    decreases t, 1
  {
    match t
    case Bool => Flag(false)
    case Blob(_) => Raw([])
    case Text(_) => Raw([])
    case FixedBlob(size) => Raw(Zeros(size))
    case Submessage(fields) => Message(ZeroSlots(fields))
    case _ => Number(0)
  }

  function ZeroSlot(f: Field): Slot
    decreases f, 0
  {
    match f.rule
    case Required => One(ZeroOf(f.ftype))
    case Singular => One(ZeroOf(f.ftype))
    case Repeated(_) => Many([])
    case _ => Absent
  }

  // pb_decode.c:836: a message before anything is decoded into it.
  function ZeroSlots(fields: seq<Field>): (r: seq<Slot>)
    ensures |r| == |fields| && forall i :: 0 <= i < |fields| ==> r[i] == ZeroSlot(fields[i])
    decreases fields, 0
  {
    if fields == [] then [] else ZeroSlots(fields[..|fields| - 1]) + [ZeroSlot(fields[|fields| - 1])]
  }

  // pb_encode.c:240: whether a field of a message without flags has nothing to say.
  predicate IsZero(t: FieldType, v: Value)
    decreases t, 1
  {
    match v
    case Flag(b) => !b
    case Number(i) => i == 0
    case Raw(bytes) => bytes == []
    case Message(slots) => t.Submessage? && |slots| == |t.fields| && forall i :: 0 <= i < |slots| ==> IsZeroSlot(t.fields[i], slots[i])
  }

  predicate IsZeroSlot(f: Field, s: Slot)
    decreases f, 0
  {
    match s
    case Absent => true
    case One(v) => f.rule.Singular? && IsZero(f.ftype, v)
    case Many(vs) => vs == []
  }

  // What is left out of an encoding is what a message holds before it is decoded.
  lemma {:induction false} ZeroIsDefault(t: FieldType, v: Value)
    requires HasType(t, v) && IsZero(t, v)
    ensures v == ZeroOf(t)
    decreases t, 0
  {
    if t.Submessage? {
      assert HasTypes(t.fields, v.slots);
      assert SlotsOk(t.fields, v.slots);
      forall i | 0 <= i < |t.fields|
        ensures v.slots[i] == ZeroSlot(t.fields[i])
      {
        assert SlotOk(t.fields[i], v.slots[i]) && IsZeroSlot(t.fields[i], v.slots[i]);
        if v.slots[i].One? {
          ZeroIsDefault(t.fields[i].ftype, v.slots[i].v);
        }
      }
    }
  }

  /* ---- the encoding ---- */

  const WIRE_VARINT := 0
  const WIRE_64BIT := 1
  const WIRE_STRING := 2
  const WIRE_32BIT := 5

  // pb_encode.c:679
  function WireType(t: FieldType): (w: nat)
    ensures w < 8
  {
    match t
    case Fixed32 => WIRE_32BIT
    case Fixed64 => WIRE_64BIT
    case Blob(_) => WIRE_STRING
    case Text(_) => WIRE_STRING
    case FixedBlob(_) => WIRE_STRING
    case Submessage(_) => WIRE_STRING
    case _ => WIRE_VARINT
  }

  // pb.h:161: values that a repeated field packs together.
  predicate Packable(t: FieldType) {
    !(t.Blob? || t.Text? || t.FixedBlob? || t.Submessage?)
  }

  // pb_encode.c:630: small numbers of either sign are small.
  function ZigZag(i: int): (z: nat)
    ensures Signed(i, 8) ==> z < TWO64
  {
    if i < 0 then -2 * i - 1 else 2 * i
  }

  function TagBytes(tag: nat, wire: nat): (r: Bytes)
    ensures |r| > 0
  {
    EncodeVarint(tag * 8 + wire)
  }

  function EncodeValue(t: FieldType, v: Value): (r: Bytes)
    requires HasType(t, v)
    ensures Packable(t) ==> |r| > 0
    decreases t, 0
  {
    match t
    case Bool => EncodeVarint(if v.b then 1 else 0)
    case Varint(_) => EncodeVarint(v.i % TWO64)
    case UVarint(_) => EncodeVarint(v.i)
    case SVarint(_) => EncodeVarint(ZigZag(v.i))
    case Fixed32 => EncodeFixed32(v.i)
    case Fixed64 => EncodeFixed64(v.i)
    case Submessage(fields) =>
      assert HasTypes(fields, v.slots);
      EncodePrefixed(EncodeSlots(fields, v.slots))
    case _ => EncodePrefixed(v.bytes)
  }

  // The values of a packed array.
  function EncodeValues(t: FieldType, vs: seq<Value>): Bytes
    requires AllHaveType(t, vs)
    decreases t, 1, |vs|
  {
    if vs == [] then [] else EncodeValue(t, vs[0]) + EncodeValues(t, vs[1..])
  }

  // The values of an array, each with its tag.
  function EncodeTagged(f: Field, vs: seq<Value>): Bytes
    requires AllHaveType(f.ftype, vs)
    decreases f, 0, |vs|
  {
    if vs == [] then []
    else TagBytes(f.tag, WireType(f.ftype)) + EncodeValue(f.ftype, vs[0]) + EncodeTagged(f, vs[1..])
  }

  function EncodeSlot(f: Field, s: Slot): Bytes
    requires SlotOk(f, s)
    decreases f, 1
  {
    match s
    case Absent => []
    case One(v) =>
      if f.rule.Singular? && IsZero(f.ftype, v) then [] else TagBytes(f.tag, WireType(f.ftype)) + EncodeValue(f.ftype, v)
    case Many(vs) =>
      if vs == [] then []
      else if Packable(f.ftype) then TagBytes(f.tag, WIRE_STRING) + EncodePrefixed(EncodeValues(f.ftype, vs))
      else EncodeTagged(f, vs)
  }

  function EncodeSlots(fields: seq<Field>, slots: seq<Slot>): Bytes
    requires |slots| == |fields| && SlotsOk(fields, slots)
    decreases fields, 2
  {
    if fields == [] then []
    else
      var n := |fields| - 1;
      EncodeSlots(fields[..n], slots[..n]) + EncodeSlot(fields[n], slots[n])
  }

  /* ---- limits ---- */

  // pb_encode.c:157 and pb_encode.c:866: arrays and byte strings within their storage.
  ghost predicate ValueFits(t: FieldType, v: Value)
    decreases t, 0
  {
    match t
    case Blob(max) => v.Raw? ==> |v.bytes| <= max
    case Submessage(fields) => v.Message? && |v.slots| == |fields| ==> SlotsFit(fields, v.slots)
    case _ => true
  }

  ghost predicate SlotFits(f: Field, s: Slot)
    decreases f, 0
  {
    match s
    case Absent => true
    case One(v) => ValueFits(f.ftype, v)
    case Many(vs) => (f.rule.Repeated? ==> |vs| <= f.rule.count) && forall j :: 0 <= j < |vs| ==> ValueFits(f.ftype, vs[j])
  }

  ghost predicate SlotsFit(fields: seq<Field>, slots: seq<Slot>)
    requires |slots| == |fields|
    decreases fields, 0
  {
    forall i :: 0 <= i < |fields| ==> SlotFits(fields[i], slots[i])
  }

  lemma {:induction false} ZeroFits(t: FieldType, v: Value)
    requires HasType(t, v) && IsZero(t, v)
    ensures ValueFits(t, v)
    decreases t, 0
  {
    if t.Submessage? {
      assert HasTypes(t.fields, v.slots);
      assert SlotsOk(t.fields, v.slots);
      forall i | 0 <= i < |t.fields|
        ensures SlotFits(t.fields[i], v.slots[i])
      {
        assert SlotOk(t.fields[i], v.slots[i]) && IsZeroSlot(t.fields[i], v.slots[i]);
        if v.slots[i].One? {
          ZeroFits(t.fields[i].ftype, v.slots[i].v);
        }
      }
    }
  }
}
