/**
 The nanopb decoder (Pods/nanopb/pb_decode.c, Pods/nanopb/pb_common.c): a stream that is
 consumed, an iterator that walks the table of fields in circles, and the loops over fields
 and packed values, each against the function that says what it computes. Encoding a
 message and decoding the bytes gives the message.
 */
module PbDecoder {
  import opened Keys
  import opened Coding
  import opened PbMessage
  import opened PbDecode
  import opened PbEncode
  import opened PbRoundTrip

  /* ---- the field iterator ---- */

  class FieldIter {
    const fields: seq<Field>
    var pos: nat
    var requiredIndex: nat

    ghost predicate Valid()
      reads this
    {
      && pos <= |fields| && (fields != [] ==> pos < |fields|)
      && requiredIndex == RequiredBefore(fields, pos)
    }

    // pb_common.c:8
    constructor (fields: seq<Field>)
      ensures Valid() && this.fields == fields && pos == 0
    {
      this.fields, pos, requiredIndex := fields, 0, 0;
    }

    // pb_common.c:20: the next field, or the first one after the last.
    method Next() returns (more: bool)
      requires Valid()
      modifies this
      ensures Valid() && more == (old(pos) + 1 < |fields|)
      ensures pos == if more then old(pos) + 1 else 0
    {
      if |fields| == 0 {
        return false;
      }
      var previous := fields[pos];
      pos := pos + 1;
      if pos == |fields| {
        pos, requiredIndex := 0, 0;
        return false;
      }
      if previous.rule.Required? {
        requiredIndex := requiredIndex + 1;
      }
      more := true;
    }

    // pb_common.c:78: once around from where it stands.
    method Find(tag: nat) returns (found: bool)
      requires Valid()
      modifies this
      ensures Valid()
      ensures found ==> pos < |fields| && fields[pos].tag == tag
      ensures !found ==> forall j :: 0 <= j < |fields| ==> fields[j].tag != tag
    {
      if |fields| == 0 {
        return false;
      }
      var start := pos;
      ghost var wrapped := false;
      while true
        invariant Valid() && (if wrapped then pos < start else start <= pos)
        invariant forall j :: 0 <= j < |fields| && (if wrapped then j < pos || start <= j else start <= j < pos) ==> fields[j].tag != tag
        decreases !wrapped, |fields| - pos
      {
        if fields[pos].tag == tag {
          return true;
        }
        var more := Next();
        wrapped := wrapped || !more;
        if pos == start {
          return false;
        }
      }
    }
  }

  /* ---- the stream ---- */

  lemma {:induction false} VarintBound(p: Bytes, bytes: nat)
    ensures ReadVarint(p, bytes).Some? ==> ReadVarint(p, bytes).value.0 < Pow128(bytes)
  {
    if p != [] && bytes > 0 && p[0] >= 128 {
      VarintBound(p[1..], bytes - 1);
    }
  }

  class InStream {
    var buf: Bytes

    constructor (buf: Bytes)
      ensures this.buf == buf
    {
      this.buf := buf;
    }

    // pb_decode.c:102
    method Read(count: nat) returns (r: Option<Bytes>)
      modifies this
      ensures if |old(buf)| < count then r.None? else r == Some(old(buf)[..count]) && buf == old(buf)[count..]
    {
      if |buf| < count {
        return None;
      }
      r := Some(buf[..count]);
      buf := buf[count..];
    }

    // pb_decode.c:187: too large a number is an error.
    method ReadVarint32() returns (r: Option<nat>)
      modifies this
      ensures var w := ReadWord32(old(buf));
        if w.None? then r.None? else r == Some(w.value.0) && buf == w.value.1
    {
      var v := GetVarint(buf, 5, TWO64);
      VarintBound(buf, 5);
      assert Pow128(3) == 0x20_0000 && Pow128(5) == 0x8_0000_0000;
      if v.None? || v.value.0 >= TWO32 {
        return None;
      }
      buf := v.value.1;
      r := Some(v.value.0);
    }

    // pb_decode.c:255
    method ReadVarint64() returns (r: Option<nat>)
      modifies this
      ensures var w := ReadWord64(old(buf));
        if w.None? then r.None? else r == Some(w.value.0) && buf == w.value.1
    {
      var v := GetVarint(buf, 10, TWO64);
      if v.None? {
        return None;
      }
      buf := v.value.1;
      r := Some(v.value.0);
    }

    // pb_decode.c:372: the bytes that a length announces, apart from the rest.
    method MakeSubstream() returns (sub: InStream?)
      modifies this
      ensures var w := ReadPrefixed(old(buf));
        if w.None? then sub == null else sub != null && fresh(sub) && sub.buf == w.value.0 && buf == w.value.1
    {
      var size := ReadVarint32();
      if size.None? || |buf| < size.value {
        return null;
      }
      sub := new InStream(buf[..size.value]);
      buf := buf[size.value..];
    }

    // pb_decode.c:278
    method SkipVarintBytes() returns (ok: bool)
      modifies this
      ensures var w := SkipVarint(old(buf));
        ok == w.Some? && (ok ==> buf == w.value)
    {
      var more := true;
      while more
        invariant SkipVarint(old(buf)) == if more then SkipVarint(buf) else Some(buf)
        decreases more, |buf|
      {
        if |buf| == 0 {
          return false;
        }
        more := buf[0] >= 128;
        buf := buf[1..];
      }
      ok := true;
    }

    // pb_decode.c:321
    method Skip(wire: nat) returns (ok: bool)
      modifies this
      ensures var w := SkipField(wire, old(buf));
        ok == w.Some? && (ok ==> buf == w.value)
    {
      if wire == WIRE_VARINT {
        ok := SkipVarintBytes();
      } else if wire == WIRE_64BIT {
        var r := Read(8);
        ok := r.Some?;
      } else if wire == WIRE_STRING {
        var sub := MakeSubstream();
        ok := sub != null;
      } else if wire == WIRE_32BIT {
        var r := Read(4);
        ok := r.Some?;
      } else {
        ok := false;
      }
    }
  }

  /* ---- values ---- */

  // pb_decode.c:1318 to pb_decode.c:1429
  method DecodeOneNumber(stream: InStream, t: FieldType) returns (r: Option<Value>)
    requires Packable(t)
    modifies stream
    ensures var w := DecodeNumber(t, old(stream.buf));
      if w.None? then r.None? else r == Some(w.value.0) && stream.buf == w.value.1
  {
    r := None;
    match t
    case Bool =>
      var v := stream.ReadVarint32();
      if v.Some? {
        r := Some(Flag(v.value != 0));
      }
    case Varint(size) =>
      var v := stream.ReadVarint64();
      if v.Some? {
        var i := AsSigned(v.value, if size == 8 then 8 else 4);
        if Signed(i, size) {
          r := Some(Number(i));
        }
      }
    case UVarint(size) =>
      var v := stream.ReadVarint64();
      if v.Some? && v.value < Range(size) {
        r := Some(Number(v.value));
      }
    case SVarint(size) =>
      var v := stream.ReadVarint64();
      if v.Some? {
        var i := UnZigZag(v.value);
        if Signed(i, size) {
          r := Some(Number(i));
        }
      }
    case Fixed32 =>
      var b := stream.Read(4);
      if b.Some? {
        r := Some(Number(DecodeFixed32(b.value)));
      }
    case Fixed64 =>
      var b := stream.Read(8);
      if b.Some? {
        assert old(stream.buf)[..8][4..] == old(stream.buf)[4..][..4];
        r := Some(Number(DecodeFixed64(b.value)));
      }
  }

  // The string in storage of bytes behind which there is a zero.
  method CString(bytes: Bytes) returns (r: Bytes)
    ensures r == UpToZero(bytes)
  {
    var n := 0;
    assert bytes[0..] == bytes;
    while n < |bytes| && bytes[n] != 0
      invariant n <= |bytes| && UpToZero(bytes) == bytes[..n] + UpToZero(bytes[n..])
    {
      assert bytes[n..][1..] == bytes[n + 1..];
      n := n + 1;
    }
    r := bytes[..n];
  }

  method DecodeOneString(stream: InStream, t: FieldType) returns (r: Option<Value>)
    requires t.Blob? || t.Text? || t.FixedBlob?
    modifies stream
    ensures var w := DecodeBytes(t, old(stream.buf));
      if w.None? then r.None? else r == Some(w.value.0) && stream.buf == w.value.1
  {
    r := None;
    hide ReadPrefixed;
    var sub := stream.MakeSubstream();
    if sub == null {
      return;
    }
    var size := |sub.buf|;
    match t
    case Blob(max) =>
      if size <= max {
        r := Some(Raw(sub.buf));
      }
    case Text(max) =>
      if size + 1 <= max {
        var s := CString(sub.buf);
        r := Some(Raw(s));
      }
    case FixedBlob(n) =>
      if size == 0 {
        r := Some(Raw(Zeros(n)));
      } else if size == n {
        r := Some(Raw(sub.buf));
      }
  }

  // pb_decode.c:68
  method DecodeOne(stream: InStream, t: FieldType, start: Value) returns (r: Option<Value>)
    requires GoodType(t)
    modifies stream
    ensures var w := DecodeValue(t, old(stream.buf), start);
      if w.None? then r.None? else r == Some(w.value.0) && stream.buf == w.value.1
    decreases t, 0
  {
    if Packable(t) {
      r := DecodeOneNumber(stream, t);
    } else if !t.Submessage? {
      r := DecodeOneString(stream, t);
    } else {
      var sub := stream.MakeSubstream();
      if sub == null {
        return None;
      }
      var slots := DecodeInto(sub, t.fields, Into(t.fields, start));
      r := if slots.None? then None else Some(Message(slots.value));
    }
  }

  // pb_decode.c:423: values until the bytes or the room runs out.
  method DecodePackedArray(stream: InStream, t: FieldType, vs: seq<Value>, count: nat) returns (r: Option<seq<Value>>)
    requires Packable(t)
    modifies stream
    ensures var w := ReadPrefixed(old(stream.buf));
      if w.None? || DecodePacked(t, w.value.0, vs, count).None? then r.None?
      else r == DecodePacked(t, w.value.0, vs, count) && stream.buf == w.value.1
  {
    hide ReadPrefixed, DecodeNumber, Packable;
    var sub := stream.MakeSubstream();
    if sub == null {
      return None;
    }
    ghost var all, rest := sub.buf, stream.buf;
    var values := vs;
    while |sub.buf| > 0 && |values| < count
      invariant stream.buf == rest
      invariant DecodePacked(t, all, vs, count) == DecodePacked(t, sub.buf, values, count)
      decreases |sub.buf|
    {
      var v := DecodeOneNumber(sub, t);
      if v.None? {
        return None;
      }
      values := values + [v.value];
    }
    r := if |sub.buf| != 0 then None else Some(values);
  }

  // pb_decode.c:406
  method DecodeStaticField(stream: InStream, f: Field, wire: nat, s: Slot) returns (r: Option<Slot>)
    requires GoodField(f)
    modifies stream
    ensures var w := DecodeField(f, wire, old(stream.buf), s);
      if w.None? then r.None? else r == Some(w.value.0) && stream.buf == w.value.1
    decreases f, 0
  {
    hide DecodeValue, ReadPrefixed, DecodePacked, GoodType;
    if f.rule.Repeated? {
      if wire == WIRE_STRING && Packable(f.ftype) {
        var vs := DecodePackedArray(stream, f.ftype, ValuesOf(s), f.rule.count);
        r := if vs.None? then None else Some(Many(vs.value));
      } else {
        if |ValuesOf(s)| >= f.rule.count {
          return None;
        }
        var v := DecodeOne(stream, f.ftype, ZeroOf(f.ftype));
        r := if v.None? then None else Some(Many(ValuesOf(s) + [v.value]));
      }
    } else {
      var v := DecodeOne(stream, f.ftype, Current(f, s));
      r := if v.None? then None else Some(One(v.value));
    }
  }

  // pb_decode.c:1036: the number of required fields, from the iterator.
  method CountRequired(iter: FieldIter) returns (n: nat)
    requires iter.Valid()
    modifies iter
    ensures n == RequiredBefore(iter.fields, |iter.fields|)
  {
    if |iter.fields| == 0 {
      return 0;
    }
    var last := iter.fields[iter.pos];
    n := iter.requiredIndex;
    var more := iter.Next();
    ghost var at := if more then iter.pos - 1 else |iter.fields| - 1;
    while more
      invariant iter.Valid() && at < |iter.fields| && last == iter.fields[at] && n == RequiredBefore(iter.fields, at)
      invariant if more then iter.pos == at + 1 else at == |iter.fields| - 1
      decreases |iter.fields| - at, more
    {
      at := iter.pos;
      n := iter.requiredIndex;
      last := iter.fields[iter.pos];
      more := iter.Next();
    }
    if last.rule.Required? {
      n := n + 1;
    }
  }

  // pb_decode.c:925
  method DecodeInto(stream: InStream, fields: seq<Field>, slots: seq<Slot>) returns (r: Option<seq<Slot>>)
    requires GoodFields(fields) && |slots| == |fields|
    modifies stream
    ensures var w := DecodeSlots(fields, old(stream.buf), slots, {});
      if w.None? then r.None? else r == Some(w.value.0) && stream.buf == w.value.1
    decreases fields, 0
  {
    ghost var all := stream.buf;
    var current, seen: set<nat> := slots, {};
    var iter := new FieldIter(fields);
    hide ReadWord32, DecodeField, SkipField, SetSlot, GoodFields, Finish;
    while |stream.buf| > 0
      invariant iter.Valid() && fresh(iter) && |current| == |fields|
      invariant DecodeSlots(fields, all, slots, {}) == DecodeSlots(fields, stream.buf, current, seen)
      decreases |stream.buf|
    {
      var tag := stream.ReadVarint32();
      if tag.None? {
        return None;
      }
      if tag.value == 0 {
        r := FinishMessage(iter, current, seen, stream.buf);
        return;
      }
      var found := iter.Find(tag.value / 8);
      FindAgrees(fields, tag.value / 8, iter.pos, found);
      if !found {
        var ok := stream.Skip(tag.value % 8);
        if !ok {
          return None;
        }
      } else {
        var s := DecodeStaticField(stream, fields[iter.pos], tag.value % 8, current[iter.pos]);
        if s.None? {
          return None;
        }
        if fields[iter.pos].rule.Required? && iter.requiredIndex < MAX_REQUIRED {
          seen := seen + {iter.requiredIndex};
        }
        current := SetSlot(fields, current, iter.pos, s.value);
      }
    }
    r := FinishMessage(iter, current, seen, stream.buf);
  }

  lemma FindAgrees(fields: seq<Field>, tag: nat, pos: nat, found: bool)
    requires GoodFields(fields)
    requires found ==> pos < |fields| && fields[pos].tag == tag
    requires !found ==> forall j :: 0 <= j < |fields| ==> fields[j].tag != tag
    ensures PbDecode.Find(fields, tag) == if found then pos else |fields|
    ensures found ==> GoodField(fields[pos])
  {
    if found {
      TagsDiffer(fields, PbDecode.Find(fields, tag), pos);
    }
  }

  // pb_decode.c:1031: were all required fields seen?
  method FinishMessage(iter: FieldIter, slots: seq<Slot>, seen: set<nat>, ghost rest: Bytes) returns (r: Option<seq<Slot>>)
    requires iter.Valid()
    modifies iter
    ensures var w := Finish(iter.fields, slots, seen, rest);
      r == if w.None? then None else Some(w.value.0)
  {
    var n: nat := CountRequired(iter);
    if n > MAX_REQUIRED {
      n := MAX_REQUIRED;
    }
    var i: nat := n;
    while i > 0
      invariant i <= n && SeenUpTo(seen, n) == SeenUpTo(seen, i)
    {
      if i - 1 !in seen {
        return None;
      }
      i := i - 1;
    }
    r := Some(slots);
  }

  // pb_decode.c:1075
  method DecodeMessage(stream: InStream, fields: seq<Field>) returns (r: Option<seq<Slot>>)
    requires GoodFields(fields)
    modifies stream
    ensures var w := Decode(fields, old(stream.buf));
      if w.None? then r.None? else r == Some(w.value.0) && stream.buf == w.value.1
  {
    r := DecodeInto(stream, fields, ZeroSlots(fields));
  }

  // A message that the encoder accepts comes back from the decoder, and all of its bytes
  // are read, if and only if its strings leave room for a zero.
  method EncodeThenDecode(fields: seq<Field>, slots: seq<Slot>, bufferSize: nat) returns (ok: bool, r: Option<seq<Slot>>, left: nat)
    requires GoodFields(fields) && HasTypes(fields, slots) && bufferSize < TWO32
    ensures ok <==> SlotsFit(fields, slots) && |EncodeSlots(fields, slots)| <= bufferSize
    ensures ok ==> (r == Some(slots) <==> AllTerminated(fields, slots)) && (r.Some? ==> r == Some(slots) && left == 0)
  {
    assert SlotsOk(fields, slots);
    var stream := new OutStream(false, bufferSize, []);
    ok := Encode(stream, fields, slots);
    r, left := None, 0;
    if ok {
      var input := new InStream(stream.out);
      assert [] + EncodeSlots(fields, slots) == EncodeSlots(fields, slots);
      MessageRoundTrip(fields, slots);
      r := DecodeMessage(input, fields);
      left := |input.buf|;
    }
  }
}
