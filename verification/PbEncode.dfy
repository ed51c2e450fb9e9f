/**
 The nanopb encoder (Pods/nanopb/pb_encode.c): a stream that writes, or only counts; a
 submessage is encoded twice, first to learn its size and then to write it, and the second
 pass always writes what the first one counted.
 */
module PbEncode {
  import opened Coding
  import opened PbMessage

  // pb_encode.c:608
  method VarintBytes(v: nat) returns (buffer: Bytes)
    requires v > 0
    ensures buffer == EncodeVarint(v)
  {
    hide EncodeVarint;
    var value: nat := v;
    buffer := [];
    while value > 0
      invariant value > 0 ==> EncodeVarint(v) == buffer + EncodeVarint(value)
      invariant value == 0 ==> LastUnset(buffer, EncodeVarint(v))
    {
      VarintStep(value);
      assert value >= 128 ==> buffer + EncodeVarint(value) == buffer + [128 + value % 128] + EncodeVarint(value / 128);
      buffer := buffer + [128 + value % 128];
      value := value / 128;
    }
    buffer := buffer[|buffer| - 1 := buffer[|buffer| - 1] - 128];
  }

  // Without the top bit of its last byte, the buffer is these bytes.
  ghost predicate LastUnset(buffer: Bytes, bytes: Bytes) {
    buffer != [] && buffer[|buffer| - 1] >= 128 && buffer[|buffer| - 1 := buffer[|buffer| - 1] - 128] == bytes
  }

  class OutStream {
    // A stream that only counts has no limit.
    const sizing: bool
    const maxSize: nat
    var bytesWritten: nat
    var out: Bytes

    ghost predicate Valid()
      reads this
    {
      sizing || bytesWritten <= maxSize
    }

    // There is room for so many bytes more.
    ghost predicate Room(n: nat)
      reads this
    {
      sizing || bytesWritten + n <= maxSize
    }

    // These bytes have been written, or counted.
    twostate predicate Emitted(bytes: Bytes)
      reads this
    {
      bytesWritten == old(bytesWritten) + |bytes| && out == if sizing then old(out) else old(out) + bytes
    }

    constructor (sizing: bool, maxSize: nat, out: Bytes)
      ensures Valid() && this.sizing == sizing && this.maxSize == maxSize && this.out == out && bytesWritten == 0
    {
      this.sizing, this.maxSize, this.out, bytesWritten := sizing, maxSize, out, 0;
    }

    // pb_encode.c:103
    method Write(buf: Bytes) returns (ok: bool)
      requires Valid()
      modifies this
      ensures Valid() && (ok <==> old(Room(|buf|))) && (ok ==> Emitted(buf))
    {
      if |buf| > 0 && !sizing {
        if bytesWritten + |buf| > maxSize {
          return false;
        }
        out := out + buf;
      }
      bytesWritten := bytesWritten + |buf|;
      ok := true;
    }

    // pb_encode.c:103 without a buffer, on a stream that only counts.
    method Count(n: nat)
      requires sizing
      modifies this
      ensures Valid() && out == old(out) && bytesWritten == old(bytesWritten) + n
    {
      bytesWritten := bytesWritten + n;
    }

    // pb_encode.c:608: seven bits a byte, and the last byte without its top bit.
    method WriteVarint(v: nat) returns (ok: bool)
      requires Valid()
      modifies this
      ensures Valid() && (ok <==> old(Room(|EncodeVarint(v)|))) && (ok ==> Emitted(EncodeVarint(v)))
    {
      if v <= 0x7f {
        ok := Write([v]);
        return;
      }
      var buffer := VarintBytes(v);
      ok := Write(buffer);
    }

    // pb_encode.c:675
    method WriteTag(wire: nat, tag: nat) returns (ok: bool)
      requires Valid()
      modifies this
      ensures Valid() && (ok <==> old(Room(|TagBytes(tag, wire)|))) && (ok ==> Emitted(TagBytes(tag, wire)))
    {
      ok := WriteVarint(tag * 8 + wire);
    }

    // pb_encode.c:709
    method WriteString(bytes: Bytes) returns (ok: bool)
      requires Valid()
      modifies this
      ensures Valid() && (ok <==> old(Room(|EncodePrefixed(bytes)|))) && (ok ==> Emitted(EncodePrefixed(bytes)))
    {
      hide EncodeVarint;
      ok := WriteVarint(|bytes|);
      if ok {
        ok := Write(bytes);
      }
    }
  }

  // pb_encode.c:630
  function ZigZagged(value: int): (z: nat)
    requires Signed(value, 8)
    ensures z == ZigZag(value)
  {
    var shifted := value % TWO64 * 2 % TWO64;
    if value < 0 then TWO64 - 1 - shifted else shifted
  }

  // pb_encode.c:341
  method EncodeField(stream: OutStream, f: Field, s: Slot) returns (ok: bool)
    requires stream.Valid() && SlotOk(f, s)
    modifies stream
    ensures stream.Valid() && (ok <==> SlotFits(f, s) && old(stream.Room(|EncodeSlot(f, s)|)))
    ensures ok ==> stream.Emitted(EncodeSlot(f, s))
    decreases f, 4
  {
    hide TagBytes, EncodeValue, IsZero;
    match s
    case Absent =>
      ok := true;
    case One(v) =>
      if f.rule.Singular? && IsZero(f.ftype, v) {
        ZeroFits(f.ftype, v);
        return true;
      }
      ok := stream.WriteTag(WireType(f.ftype), f.tag);
      if ok {
        ok := EncodeOne(stream, f.ftype, v);
      }
    case Many(vs) =>
      ok := EncodeArray(stream, f, vs);
  }

  // pb_encode.c:147: an array, packed if its values allow it.
  method EncodeArray(stream: OutStream, f: Field, vs: seq<Value>) returns (ok: bool)
    requires stream.Valid() && SlotOk(f, Many(vs))
    modifies stream
    ensures stream.Valid() && (ok <==> SlotFits(f, Many(vs)) && old(stream.Room(|EncodeSlot(f, Many(vs))|)))
    ensures ok ==> stream.Emitted(EncodeSlot(f, Many(vs)))
    decreases f, 3
  {
    if |vs| == 0 {
      return true;
    }
    if |vs| > f.rule.count {
      return false;
    }
    if Packable(f.ftype) {
      PackedFits(f, vs);
      ok := EncodePacked(stream, f, vs);
    } else {
      ok := EncodeRepeated(stream, f, vs);
    }
  }

  lemma PackedFits(f: Field, vs: seq<Value>)
    requires Packable(f.ftype) && f.rule.Repeated?
    ensures SlotFits(f, Many(vs)) <==> |vs| <= f.rule.count
  {
    forall j | 0 <= j < |vs|
      ensures ValueFits(f.ftype, vs[j])
    {
      PackableFits(f.ftype, vs[j]);
    }
  }

  lemma PackableFits(t: FieldType, v: Value)
    requires Packable(t)
    ensures ValueFits(t, v)
  {
  }

  // pb_encode.c:163: the size of the values first, then the values.
  method EncodePacked(stream: OutStream, f: Field, vs: seq<Value>) returns (ok: bool)
    requires stream.Valid() && AllHaveType(f.ftype, vs) && Packable(f.ftype) && vs != []
    modifies stream
    ensures var bytes := TagBytes(f.tag, WIRE_STRING) + EncodePrefixed(EncodeValues(f.ftype, vs));
      stream.Valid() && (ok <==> old(stream.Room(|bytes|))) && (ok ==> stream.Emitted(bytes))
    decreases f, 2
  {
    hide EncodeVarint, TagBytes, EncodeValues, Packable, AllHaveType;
    ok := stream.WriteTag(WIRE_STRING, f.tag);
    if !ok {
      return;
    }
    var size := PackedSize(f.ftype, vs);
    ok := stream.WriteVarint(size);
    if !ok {
      return;
    }
    if stream.sizing {
      stream.Count(size);
      return true;
    }
    ok := EncodeEach(stream, f.ftype, vs);
  }

  // pb_encode.c:169
  method PackedSize(t: FieldType, vs: seq<Value>) returns (size: nat)
    requires AllHaveType(t, vs) && Packable(t)
    ensures size == |EncodeValues(t, vs)|
    decreases t, 4
  {
    FixedSizes(t, vs);
    if t.Fixed32? {
      size := 4 * |vs|;
    } else if t.Fixed64? {
      size := 8 * |vs|;
    } else {
      var counter := new OutStream(true, 0, []);
      var _ := EncodeEach(counter, t, vs);
      size := counter.bytesWritten;
    }
  }

  lemma {:induction false} FixedSizes(t: FieldType, vs: seq<Value>)
    requires AllHaveType(t, vs)
    ensures t.Fixed32? ==> |EncodeValues(t, vs)| == 4 * |vs|
    ensures t.Fixed64? ==> |EncodeValues(t, vs)| == 8 * |vs|
    decreases |vs|
  {
    if vs != [] {
      FixedSizes(t, vs[1..]);
    }
  }

  // pb_encode.c:198: the values one after the other.
  method EncodeEach(stream: OutStream, t: FieldType, vs: seq<Value>) returns (ok: bool)
    requires stream.Valid() && AllHaveType(t, vs) && Packable(t)
    modifies stream
    ensures stream.Valid() && (ok <==> old(stream.Room(|EncodeValues(t, vs)|))) && (ok ==> stream.Emitted(EncodeValues(t, vs)))
    decreases t, 3
  {
    hide HasType, AllHaveType, EncodeValue, EncodeValues, ValueFits;
    ghost var done: Bytes := [];
    assert vs[0..] == vs;
    for i := 0 to |vs|
      invariant stream.Valid() && stream.Emitted(done) && old(stream.Room(|done|))
      invariant AllHaveType(t, vs[i..]) && EncodeValues(t, vs) == done + EncodeValues(t, vs[i..])
    {
      ValuesNext(t, vs, i);
      Joined(done, EncodeValue(t, vs[i]), EncodeValues(t, vs[i + 1..]));
      Joined(old(stream.out), done, EncodeValue(t, vs[i]));
      PackableFits(t, vs[i]);
      ok := EncodeOne(stream, t, vs[i]);
      if !ok {
        return;
      }
      done := done + EncodeValue(t, vs[i]);
    }
    NoValues(t, vs);
    ok := true;
  }

  lemma Joined<T>(a: seq<T>, b: seq<T>, c: seq<T>)
    ensures a + b + c == a + (b + c) && |a + (b + c)| == |a| + |b| + |c|
  {
  }

  lemma ValuesNext(t: FieldType, vs: seq<Value>, i: nat)
    requires AllHaveType(t, vs) && i < |vs|
    ensures AllHaveType(t, vs[i..]) && AllHaveType(t, vs[i + 1..]) && HasType(t, vs[i])
    ensures EncodeValues(t, vs[i..]) == EncodeValue(t, vs[i]) + EncodeValues(t, vs[i + 1..])
  {
    hide EncodeValue, HasType;
    assert vs[i..][0] == vs[i] && vs[i..][1..] == vs[i + 1..];
  }

  lemma NoValues(t: FieldType, vs: seq<Value>)
    requires AllHaveType(t, vs)
    ensures EncodeValues(t, vs[|vs|..]) == []
  {
  }

  lemma TaggedNext(f: Field, vs: seq<Value>, i: nat)
    requires AllHaveType(f.ftype, vs) && i < |vs|
    ensures AllHaveType(f.ftype, vs[i..]) && AllHaveType(f.ftype, vs[i + 1..]) && HasType(f.ftype, vs[i])
    ensures EncodeTagged(f, vs[i..]) == TagBytes(f.tag, WireType(f.ftype)) + EncodeValue(f.ftype, vs[i]) + EncodeTagged(f, vs[i + 1..])
  {
    hide EncodeValue, HasType, TagBytes;
    assert vs[i..][0] == vs[i] && vs[i..][1..] == vs[i + 1..];
  }

  lemma NoTagged(f: Field, vs: seq<Value>)
    requires AllHaveType(f.ftype, vs)
    ensures EncodeTagged(f, vs[|vs|..]) == []
  {
  }

  // pb_encode.c:207: the values, each with its tag.
  method EncodeRepeated(stream: OutStream, f: Field, vs: seq<Value>) returns (ok: bool)
    requires stream.Valid() && AllHaveType(f.ftype, vs) && f.rule.Repeated? && |vs| <= f.rule.count
    modifies stream
    ensures stream.Valid() && (ok <==> SlotFits(f, Many(vs)) && old(stream.Room(|EncodeTagged(f, vs)|)))
    ensures ok ==> stream.Emitted(EncodeTagged(f, vs))
    decreases f, 2
  {
    hide HasType, EncodeValue, EncodeTagged, ValueFits, TagBytes;
    ghost var done: Bytes := [];
    assert vs[0..] == vs;
    for i := 0 to |vs|
      invariant stream.Valid() && stream.Emitted(done) && old(stream.Room(|done|))
      invariant EncodeTagged(f, vs) == done + EncodeTagged(f, vs[i..])
      invariant forall j :: 0 <= j < i ==> ValueFits(f.ftype, vs[j])
    {
      TaggedNext(f, vs, i);
      ghost var piece := TagBytes(f.tag, WireType(f.ftype)) + EncodeValue(f.ftype, vs[i]);
      Joined(done, piece, EncodeTagged(f, vs[i + 1..]));
      Joined(old(stream.out), done, piece);
      ok := EncodeTaggedOne(stream, f, vs[i]);
      if !ok {
        return;
      }
      done := done + piece;
    }
    NoTagged(f, vs);
    ok := true;
  }

  method EncodeTaggedOne(stream: OutStream, f: Field, v: Value) returns (ok: bool)
    requires stream.Valid() && HasType(f.ftype, v)
    modifies stream
    ensures stream.Valid()
    ensures ok <==> ValueFits(f.ftype, v) && old(stream.Room(|TagBytes(f.tag, WireType(f.ftype)) + EncodeValue(f.ftype, v)|))
    ensures ok ==> stream.Emitted(TagBytes(f.tag, WireType(f.ftype)) + EncodeValue(f.ftype, v))
    decreases f, 1
  {
    hide HasType, EncodeValue, ValueFits, TagBytes;
    Joined(old(stream.out), TagBytes(f.tag, WireType(f.ftype)), EncodeValue(f.ftype, v));
    ok := stream.WriteTag(WireType(f.ftype), f.tag);
    if ok {
      ok := EncodeOne(stream, f.ftype, v);
    }
  }

  // pb_encode.c:55
  method EncodeOne(stream: OutStream, t: FieldType, v: Value) returns (ok: bool)
    requires stream.Valid() && HasType(t, v)
    modifies stream
    ensures stream.Valid() && (ok <==> ValueFits(t, v) && old(stream.Room(|EncodeValue(t, v)|)))
    ensures ok ==> stream.Emitted(EncodeValue(t, v))
    decreases t, 2
  {
    match t
    case Bool =>
      ok := stream.WriteVarint(if v.b then 1 else 0);
    case Varint(_) =>
      ok := stream.WriteVarint(v.i % TWO64);
    case UVarint(_) =>
      ok := stream.WriteVarint(v.i);
    case SVarint(_) =>
      ok := stream.WriteVarint(ZigZagged(v.i));
    case Fixed32 =>
      ok := stream.Write(EncodeFixed32(v.i));
    case Fixed64 =>
      ok := stream.Write(EncodeFixed64(v.i));
    case Blob(max) =>
      if |v.bytes| > max {
        return false;
      }
      ok := stream.WriteString(v.bytes);
    case Text(_) =>
      ok := stream.WriteString(v.bytes);
    case FixedBlob(_) =>
      ok := stream.WriteString(v.bytes);
    case Submessage(fields) =>
      assert HasTypes(fields, v.slots);
      ok := EncodeSubmessage(stream, fields, v.slots);
  }

  // pb_encode.c:717
  method EncodeSubmessage(stream: OutStream, fields: seq<Field>, slots: seq<Slot>) returns (ok: bool)
    requires stream.Valid() && |slots| == |fields| && SlotsOk(fields, slots)
    modifies stream
    ensures stream.Valid() && (ok <==> SlotsFit(fields, slots) && old(stream.Room(|EncodePrefixed(EncodeSlots(fields, slots))|)))
    ensures ok ==> stream.Emitted(EncodePrefixed(EncodeSlots(fields, slots)))
    decreases fields, 4
  {
    hide EncodeSlots, SlotsOk, SlotsFit, EncodeVarint;
    var counter := new OutStream(true, 0, []);
    ok := Encode(counter, fields, slots);
    if !ok {
      return;
    }
    var size := counter.bytesWritten;
    ok := stream.WriteVarint(size);
    if !ok {
      return;
    }
    if stream.sizing {
      stream.Count(size);
      return true;
    }
    if stream.bytesWritten + size > stream.maxSize {
      return false;
    }
    var substream := new OutStream(false, size, stream.out);
    ok := Encode(substream, fields, slots);
    stream.bytesWritten := stream.bytesWritten + substream.bytesWritten;
    stream.out := substream.out;
    if substream.bytesWritten != size {
      assert false;
    }
  }

  // pb_encode.c:528: every field in the order of the table.
  method Encode(stream: OutStream, fields: seq<Field>, slots: seq<Slot>) returns (ok: bool)
    requires stream.Valid() && |slots| == |fields| && SlotsOk(fields, slots)
    modifies stream
    ensures stream.Valid() && (ok <==> SlotsFit(fields, slots) && old(stream.Room(|EncodeSlots(fields, slots)|)))
    ensures ok ==> stream.Emitted(EncodeSlots(fields, slots))
    decreases fields, 3
  {
    hide EncodeSlot, EncodeSlots, SlotOk, SlotFits;
    NoSlots(fields, slots);
    for i := 0 to |fields|
      invariant stream.Valid() && SlotsFit(fields[..i], slots[..i])
      invariant stream.Emitted(EncodeSlots(fields[..i], slots[..i]))
      invariant old(stream.Room(|EncodeSlots(fields[..i], slots[..i])|))
    {
      SlotsNext(fields, slots, i);
      SlotsWithin(fields, slots, i + 1);
      Joined(old(stream.out), EncodeSlots(fields[..i], slots[..i]), EncodeSlot(fields[i], slots[i]));
      ok := EncodeField(stream, fields[i], slots[i]);
      if !ok {
        return;
      }
    }
    assert fields[..|fields|] == fields && slots[..|fields|] == slots;
    ok := true;
  }

  lemma {:induction false} SlotsWithin(fields: seq<Field>, slots: seq<Slot>, i: nat)
    requires |slots| == |fields| && SlotsOk(fields, slots) && i <= |fields|
    ensures SlotsOk(fields[..i], slots[..i]) && |EncodeSlots(fields[..i], slots[..i])| <= |EncodeSlots(fields, slots)|
    ensures SlotsFit(fields, slots) ==> SlotsFit(fields[..i], slots[..i])
    decreases |fields|
  {
    if i == |fields| {
      assert fields[..i] == fields && slots[..i] == slots;
    } else {
      var n := |fields| - 1;
      SlotsWithin(fields[..n], slots[..n], i);
      assert fields[..n][..i] == fields[..i] && slots[..n][..i] == slots[..i];
    }
  }

  lemma NoSlots(fields: seq<Field>, slots: seq<Slot>)
    requires |slots| == |fields|
    ensures SlotsOk(fields[..0], slots[..0]) && EncodeSlots(fields[..0], slots[..0]) == [] && SlotsFit(fields[..0], slots[..0])
  {
  }

  // One field more.
  lemma SlotsNext(fields: seq<Field>, slots: seq<Slot>, i: nat)
    requires |slots| == |fields| && SlotsOk(fields, slots) && i < |fields|
    ensures SlotsOk(fields[..i], slots[..i]) && SlotsOk(fields[..i + 1], slots[..i + 1])
    ensures EncodeSlots(fields[..i + 1], slots[..i + 1]) == EncodeSlots(fields[..i], slots[..i]) + EncodeSlot(fields[i], slots[i])
    ensures SlotsFit(fields[..i + 1], slots[..i + 1]) <==> SlotsFit(fields[..i], slots[..i]) && SlotFits(fields[i], slots[i])
  {
    hide EncodeSlot, SlotOk, SlotFits, SlotsFit;
    var fs, ss := fields[..i + 1], slots[..i + 1];
    assert fs[..i] == fields[..i] && ss[..i] == slots[..i];
    assert fs[i] == fields[i] && ss[i] == slots[i];
    SlotsFitNext(fields, slots, i);
  }

  lemma SlotsFitNext(fields: seq<Field>, slots: seq<Slot>, i: nat)
    requires |slots| == |fields| && i < |fields|
    ensures SlotsFit(fields[..i + 1], slots[..i + 1]) <==> SlotsFit(fields[..i], slots[..i]) && SlotFits(fields[i], slots[i])
  {
    hide SlotFits;
    var fs, ss := fields[..i + 1], slots[..i + 1];
    assert forall j :: 0 <= j < i ==> fs[j] == fields[..i][j] && ss[j] == slots[..i][j];
    assert fs[i] == fields[i] && ss[i] == slots[i];
    if SlotsFit(fs, ss) {
      assert forall j :: 0 <= j < i ==> SlotFits(fs[j], ss[j]);
      assert SlotFits(fs[i], ss[i]);
    }
  }

  // pb_encode.c:567: what the encoding of a message takes.
  method GetEncodedSize(fields: seq<Field>, slots: seq<Slot>) returns (ok: bool, size: nat)
    requires |slots| == |fields| && SlotsOk(fields, slots)
    ensures ok <==> SlotsFit(fields, slots)
    ensures ok ==> size == |EncodeSlots(fields, slots)|
  {
    var stream := new OutStream(true, 0, []);
    ok := Encode(stream, fields, slots);
    size := stream.bytesWritten;
  }
}
