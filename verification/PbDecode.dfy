/**
 Decoding of nanopb messages (Pods/nanopb/pb_decode.c, Pods/nanopb/pb_common.c), as a
 function of the bytes: fields in any order, unknown fields skipped, packed and unpacked
 arrays, submessages merged into what is there, and the required fields checked at the end.
 */
module PbDecode {
  import opened Keys
  import opened Coding
  import opened PbMessage

  /* ---- numbers ---- */

  // pb_decode.c:187: a number of 32 bits in at most five bytes.
  function ReadWord32(p: Bytes): (r: Option<(nat, Bytes)>)
    ensures r.Some? ==> |r.value.1| < |p| && r.value.0 < TWO32
  {
    var r := ReadVarint(p, 5);
    if r.None? || r.value.0 >= TWO32 then None else r
  }

  // pb_decode.c:255
  function ReadWord64(p: Bytes): (r: Option<(nat, Bytes)>)
    ensures r.Some? ==> |r.value.1| < |p| && r.value.0 < TWO64
  {
    DecodeVarint64(p)
  }

  // A word taken as a number of so many bytes with a sign.
  function AsSigned(n: nat, size: nat): (i: int)
    ensures Signed(i, size)
  {
    var m := n % Range(size);
    if m < Range(size) / 2 then m else m - Range(size)
  }

  // pb_decode.c:1269
  function UnZigZag(z: nat): int {
    if z % 2 == 1 then -(z / 2) - 1 else z / 2
  }

  /* ---- byte strings ---- */

  // pb_decode.c:372: a length and so many bytes.
  function ReadPrefixed(p: Bytes): (r: Option<(Bytes, Bytes)>)
    ensures r.Some? ==> |r.value.0| + |r.value.1| < |p|
  {
    var r := ReadWord32(p);
    if r.None? || |r.value.1| < r.value.0 then None
    else Some((r.value.1[..r.value.0], r.value.1[r.value.0..]))
  }

  // What a C string holds: the bytes before the first zero.
  function UpToZero(bytes: Bytes): Bytes {
    if bytes == [] || bytes[0] == 0 then [] else [bytes[0]] + UpToZero(bytes[1..])
  }

  /* ---- values ---- */

  // The value that a submessage is decoded into.
  function Into(fields: seq<Field>, start: Value): (r: seq<Slot>)
    ensures |r| == |fields|
  {
    if start.Message? && |start.slots| == |fields| then start.slots else ZeroSlots(fields)
  }

  function DecodeNumber(t: FieldType, p: Bytes): (r: Option<(Value, Bytes)>)
    requires Packable(t)
    ensures r.Some? ==> |r.value.1| < |p|
  {
    match t
    case Bool =>
      var r := ReadWord32(p);
      if r.None? then None else Some((Flag(r.value.0 != 0), r.value.1))
    case Varint(size) =>
      var r := ReadWord64(p);
      if r.None? then None
      else
        var i := AsSigned(r.value.0, if size == 8 then 8 else 4);
        if Signed(i, size) then Some((Number(i), r.value.1)) else None
    case UVarint(size) =>
      var r := ReadWord64(p);
      if r.None? || r.value.0 >= Range(size) then None else Some((Number(r.value.0), r.value.1))
    case SVarint(size) =>
      var r := ReadWord64(p);
      if r.None? || !Signed(UnZigZag(r.value.0), size) then None else Some((Number(UnZigZag(r.value.0)), r.value.1))
    case Fixed32 =>
      if |p| < 4 then None else Some((Number(DecodeFixed32(p)), p[4..]))
    case Fixed64 =>
      if |p| < 8 then None else Some((Number(DecodeFixed64(p)), p[8..]))
  }

  // pb_decode.c:1431, pb_decode.c:1468 and pb_decode.c:1527
  function DecodeBytes(t: FieldType, p: Bytes): (r: Option<(Value, Bytes)>)
    requires t.Blob? || t.Text? || t.FixedBlob?
    ensures r.Some? ==> |r.value.1| < |p|
  {
    var r := ReadPrefixed(p);
    if r.None? then None
    else
      var (bytes, rest) := r.value;
      match t
      case Blob(max) => if |bytes| > max then None else Some((Raw(bytes), rest))
      case Text(size) => if |bytes| + 1 > size then None else Some((Raw(UpToZero(bytes)), rest))
      case FixedBlob(size) =>
        if |bytes| == 0 then Some((Raw(Zeros(size)), rest))
        else if |bytes| != size then None else Some((Raw(bytes), rest))
  }

  function DecodeValue(t: FieldType, p: Bytes, start: Value): (r: Option<(Value, Bytes)>)
    ensures r.Some? ==> |r.value.1| < |p|
    decreases t, 0
  {
    if Packable(t) then DecodeNumber(t, p)
    else if !t.Submessage? then DecodeBytes(t, p)
    else
      var r := ReadPrefixed(p);
      if r.None? then None
      else
        var slots := DecodeSlots(t.fields, r.value.0, Into(t.fields, start), {});
        if slots.None? then None else Some((Message(slots.value.0), r.value.1))
  }

  /* ---- fields ---- */

  // pb_decode.c:423: the values of a packed array, as many as there is room for.
  function DecodePacked(t: FieldType, p: Bytes, vs: seq<Value>, count: nat): Option<seq<Value>>
    requires Packable(t)
    decreases |p|
  {
    if p == [] then Some(vs)
    else if |vs| >= count then None
    else
      var r := DecodeNumber(t, p);
      if r.None? then None else DecodePacked(t, r.value.1, vs + [r.value.0], count)
  }

  function Current(f: Field, s: Slot): Value {
    if s.One? && !f.rule.Oneof? then s.v else ZeroOf(f.ftype)
  }

  function ValuesOf(s: Slot): seq<Value> {
    if s.Many? then s.vs else []
  }

  // pb_decode.c:406
  function DecodeField(f: Field, wire: nat, p: Bytes, s: Slot): (r: Option<(Slot, Bytes)>)
    ensures r.Some? ==> |r.value.1| <= |p|
    decreases f, 0
  {
    if !f.rule.Repeated? then
      var r := DecodeValue(f.ftype, p, Current(f, s));
      if r.None? then None else Some((One(r.value.0), r.value.1))
    else if wire == WIRE_STRING && Packable(f.ftype) then
      var r := ReadPrefixed(p);
      if r.None? then None
      else
        var vs := DecodePacked(f.ftype, r.value.0, ValuesOf(s), f.rule.count);
        if vs.None? then None else Some((Many(vs.value), r.value.1))
    else if |ValuesOf(s)| >= f.rule.count then None
    else
      var r := DecodeValue(f.ftype, p, ZeroOf(f.ftype));
      if r.None? then None else Some((Many(ValuesOf(s) + [r.value.0]), r.value.1))
  }

  // pb_decode.c:278
  function SkipVarint(p: Bytes): (r: Option<Bytes>)
    ensures r.Some? ==> |r.value| < |p|
  {
    if p == [] then None else if p[0] < 128 then Some(p[1..]) else SkipVarint(p[1..])
  }

  function SkipBytes(p: Bytes, n: nat): (r: Option<Bytes>)
    ensures r.Some? ==> |r.value| <= |p|
  {
    if |p| < n then None else Some(p[n..])
  }

  // pb_decode.c:321
  function SkipField(wire: nat, p: Bytes): (r: Option<Bytes>)
    ensures r.Some? ==> |r.value| <= |p|
  {
    if wire == WIRE_VARINT then SkipVarint(p)
    else if wire == WIRE_64BIT then SkipBytes(p, 8)
    else if wire == WIRE_32BIT then SkipBytes(p, 4)
    else if wire == WIRE_STRING then
      var r := ReadPrefixed(p);
      if r.None? then None else Some(r.value.1)
    else None
  }

  /* ---- messages ---- */

  // pb_common.c:78: the field with a tag; past the end if there is none.
  function Find(fields: seq<Field>, tag: nat): (i: nat)
    ensures i <= |fields| && (i < |fields| ==> fields[i].tag == tag)
    ensures i == |fields| ==> forall j :: 0 <= j < |fields| ==> fields[j].tag != tag
  {
    if fields == [] then 0 else if fields[0].tag == tag then 0 else 1 + Find(fields[1..], tag)
  }

  // pb.h:136: only so many required fields are tracked.
  const MAX_REQUIRED := 64

  // The number of required fields before one.
  function RequiredBefore(fields: seq<Field>, i: nat): nat
    requires i <= |fields|
  {
    if i == 0 then 0 else RequiredBefore(fields, i - 1) + (if fields[i - 1].rule.Required? then 1 else 0)
  }

  function Seen(fields: seq<Field>, i: nat, seen: set<nat>): set<nat>
    requires i < |fields|
  {
    if fields[i].rule.Required? && RequiredBefore(fields, i) < MAX_REQUIRED then seen + {RequiredBefore(fields, i)} else seen
  }

  function Least(a: nat, b: nat): nat {
    if a < b then a else b
  }

  // pb_decode.c:1051: every one of the first n required fields.
  predicate SeenUpTo(seen: set<nat>, n: nat) {
    n == 0 || (n - 1 in seen && SeenUpTo(seen, n - 1))
  }

  // Setting one member of a oneof unsets the others.
  function SetSlot(fields: seq<Field>, slots: seq<Slot>, i: nat, s: Slot): (r: seq<Slot>)
    requires |slots| == |fields| && i < |fields|
    ensures |r| == |fields|
  {
    seq(|fields|, j requires 0 <= j < |fields| =>
      if j == i then s else if SameOneof(fields[i], fields[j]) then Absent else slots[j])
  }

  // pb_decode.c:925: field after field, until the bytes or a zero tag end the message; the
  // message and the bytes that are left.
  function DecodeSlots(fields: seq<Field>, p: Bytes, slots: seq<Slot>, seen: set<nat>): (r: Option<(seq<Slot>, Bytes)>)
    requires |slots| == |fields|
    ensures r.Some? ==> |r.value.0| == |fields|
    decreases fields, 0, |p|
  {
    if p == [] then Finish(fields, slots, seen, [])
    else
      var tag := ReadWord32(p);
      if tag.None? then None
      else if tag.value.0 == 0 then Finish(fields, slots, seen, tag.value.1)
      else
        var i := Find(fields, tag.value.0 / 8);
        if i == |fields| then
          var rest := SkipField(tag.value.0 % 8, tag.value.1);
          if rest.None? then None else DecodeSlots(fields, rest.value, slots, seen)
        else
          var r := DecodeField(fields[i], tag.value.0 % 8, tag.value.1, slots[i]);
          if r.None? then None
          else DecodeSlots(fields, r.value.1, SetSlot(fields, slots, i, r.value.0), Seen(fields, i, seen))
  }

  function Finish(fields: seq<Field>, slots: seq<Slot>, seen: set<nat>, rest: Bytes): Option<(seq<Slot>, Bytes)> {
    if SeenUpTo(seen, Least(RequiredBefore(fields, |fields|), MAX_REQUIRED)) then Some((slots, rest)) else None
  }

  // pb_decode.c:1075
  function Decode(fields: seq<Field>, p: Bytes): Option<(seq<Slot>, Bytes)> {
    DecodeSlots(fields, p, ZeroSlots(fields), {})
  }
}
