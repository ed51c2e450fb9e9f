/**
 Decoding of arbitrary bytes (Pods/nanopb/pb_decode.c): what is decoded is a message of its
 table, within its storage; a message is accepted only with its required fields; unknown
 fields change nothing.
 */
module PbSafety {
  import opened Keys
  import opened Coding
  import opened PbMessage
  import opened PbDecode
  import opened PbRoundTrip

  /* ---- within storage ---- */

  // A value of the field's type that fits its storage, strings with their final zero.
  ghost predicate Safe(t: FieldType, v: Value) {
    HasType(t, v) && ValueFits(t, v) && Terminated(t, v)
  }

  ghost predicate SafeSlot(f: Field, s: Slot) {
    SlotOk(f, s) && SlotFits(f, s) && SlotTerminated(f, s)
  }

  ghost predicate SafeMessage(fields: seq<Field>, slots: seq<Slot>) {
    HasTypes(fields, slots) && SlotsFit(fields, slots) && AllTerminated(fields, slots)
  }

  lemma SafeSlots(fields: seq<Field>, slots: seq<Slot>)
    requires |slots| == |fields|
    ensures SafeMessage(fields, slots) <==> OneofsOk(fields, slots) && forall i :: 0 <= i < |fields| ==> SafeSlot(fields[i], slots[i])
  {
    hide SlotOk, SlotFits, SlotTerminated, OneofsOk;
    assert HasTypes(fields, slots) <==> SlotsOk(fields, slots) && OneofsOk(fields, slots);
    if SafeMessage(fields, slots) {
      forall i | 0 <= i < |fields|
        ensures SafeSlot(fields[i], slots[i])
      {
      }
    }
  }

  lemma SafeSubmessage(t: FieldType, slots: seq<Slot>)
    requires t.Submessage?
    ensures Safe(t, Message(slots)) <==> SafeMessage(t.fields, slots)
  {
    hide SlotOk, SlotFits, SlotTerminated, OneofsOk;
    assert HasType(t, Message(slots)) <==> HasTypes(t.fields, slots);
  }

  lemma SafeOne(f: Field, v: Value)
    ensures SafeSlot(f, One(v)) <==> !f.rule.Repeated? && Safe(f.ftype, v)
  {
  }

  lemma SafeMany(f: Field, vs: seq<Value>)
    ensures SafeSlot(f, Many(vs)) <==> f.rule.Repeated? && |vs| <= f.rule.count && forall j :: 0 <= j < |vs| ==> Safe(f.ftype, vs[j])
  {
    hide HasType, ValueFits, Terminated;
    assert SlotOk(f, Many(vs)) <==> f.rule.Repeated? && AllHaveType(f.ftype, vs);
  }

  lemma {:induction false} ZeroSafe(t: FieldType)
    requires GoodType(t)
    ensures Safe(t, ZeroOf(t))
    decreases t, 0
  {
    if t.Submessage? {
      assert GoodFields(t.fields);
      ZeroMessageSafe(t.fields);
      SafeSubmessage(t, ZeroSlots(t.fields));
    }
  }

  lemma {:induction false} ZeroMessageSafe(fields: seq<Field>)
    requires GoodFields(fields)
    ensures SafeMessage(fields, ZeroSlots(fields))
    decreases fields, 1
  {
    forall i | 0 <= i < |fields|
      ensures SafeSlot(fields[i], ZeroSlots(fields)[i])
    {
      assert GoodField(fields[i]);
      ZeroSlotSafe(fields[i]);
    }
    hide SafeSlot;
    SafeSlots(fields, ZeroSlots(fields));
  }

  lemma {:induction false} ZeroSlotSafe(f: Field)
    requires GoodField(f)
    ensures SafeSlot(f, ZeroSlot(f))
    decreases f, 0
  {
    ZeroSafe(f.ftype);
    SafeOne(f, ZeroOf(f.ftype));
    SafeMany(f, []);
  }

  lemma NumberSafe(t: FieldType, p: Bytes)
    requires Packable(t) && GoodType(t) && DecodeNumber(t, p).Some?
    ensures Safe(t, DecodeNumber(t, p).value.0)
  {
    hide DecodeFixed64, DecodeFixed32, ReadWord64, ReadWord32;
  }

  lemma {:induction false} NoZeroBefore(bytes: Bytes)
    ensures 0 !in UpToZero(bytes) && |UpToZero(bytes)| <= |bytes|
  {
    if bytes != [] && bytes[0] != 0 {
      NoZeroBefore(bytes[1..]);
    }
  }

  lemma BytesSafe(t: FieldType, p: Bytes)
    requires (t.Blob? || t.Text? || t.FixedBlob?) && DecodeBytes(t, p).Some?
    ensures Safe(t, DecodeBytes(t, p).value.0)
  {
    hide UpToZero, ReadWord32;
    var r := ReadPrefixed(p);
    NoZeroBefore(r.value.0);
  }

  lemma {:induction false} PackedSafe(t: FieldType, p: Bytes, vs: seq<Value>, count: nat)
    requires Packable(t) && GoodType(t) && DecodePacked(t, p, vs, count).Some?
    requires |vs| <= count && forall j :: 0 <= j < |vs| ==> Safe(t, vs[j])
    ensures var r := DecodePacked(t, p, vs, count).value; |r| <= count && forall j :: 0 <= j < |r| ==> Safe(t, r[j])
    decreases |p|
  {
    hide Safe, DecodeNumber;
    if p != [] {
      NumberSafe(t, p);
      var r := DecodeNumber(t, p);
      PackedSafe(t, r.value.1, vs + [r.value.0], count);
    }
  }

  lemma {:induction false} ValueSafe(t: FieldType, p: Bytes, start: Value)
    requires GoodType(t) && Safe(t, start) && DecodeValue(t, p, start).Some?
    ensures Safe(t, DecodeValue(t, p, start).value.0)
    decreases t, 0
  {
    if Packable(t) {
      NumberSafe(t, p);
    } else if !t.Submessage? {
      BytesSafe(t, p);
    } else {
      assert GoodFields(t.fields);
      hide DecodeSlots, HasTypes, SafeMessage;
      var r := ReadPrefixed(p);
      ZeroMessageSafe(t.fields);
      IntoSafe(t, start);
      SlotsSafe(t.fields, r.value.0, Into(t.fields, start), {});
      SafeSubmessage(t, DecodeSlots(t.fields, r.value.0, Into(t.fields, start), {}).value.0);
    }
  }

  lemma IntoSafe(t: FieldType, start: Value)
    requires t.Submessage? && Safe(t, start)
    ensures SafeMessage(t.fields, Into(t.fields, start))
  {
    hide HasTypes, SlotsFit, AllTerminated;
    assert start.Message?;
    SafeSubmessage(t, start.slots);
    assert |start.slots| == |t.fields| by {
      MessageLength(t, start.slots);
    }
  }

  lemma MessageLength(t: FieldType, slots: seq<Slot>)
    requires t.Submessage? && HasType(t, Message(slots))
    ensures |slots| == |t.fields|
  {
    assert HasTypes(t.fields, slots);
  }

  lemma {:induction false} FieldSafe(f: Field, wire: nat, p: Bytes, s: Slot)
    requires GoodField(f) && SafeSlot(f, s) && DecodeField(f, wire, p, s).Some?
    ensures SafeSlot(f, DecodeField(f, wire, p, s).value.0) && !DecodeField(f, wire, p, s).value.0.Absent?
    decreases f, 0
  {
    hide SafeSlot, Safe, DecodeValue, DecodePacked;
    var r := DecodeField(f, wire, p, s).value.0;
    ZeroSafe(f.ftype);
    if s.One? {
      SafeOne(f, s.v);
    }
    SafeMany(f, ValuesOf(s));
    if !f.rule.Repeated? {
      ValueSafe(f.ftype, p, Current(f, s));
      SafeOne(f, r.v);
    } else {
      RepeatedSafe(f, s);
      if wire == WIRE_STRING && Packable(f.ftype) {
        PackedSafe(f.ftype, ReadPrefixed(p).value.0, ValuesOf(s), f.rule.count);
      } else {
        ValueSafe(f.ftype, p, ZeroOf(f.ftype));
      }
      SafeMany(f, r.vs);
    }
  }

  lemma RepeatedSafe(f: Field, s: Slot)
    requires f.rule.Repeated? && SafeSlot(f, s)
    ensures SafeSlot(f, Many(ValuesOf(s)))
  {
  }

  // Setting the slot of a field keeps a message in order.
  lemma SetSafe(fields: seq<Field>, slots: seq<Slot>, i: nat, s: Slot)
    requires |slots| == |fields| && i < |fields| && SafeMessage(fields, slots) && SafeSlot(fields[i], s)
    ensures SafeMessage(fields, SetSlot(fields, slots, i, s))
  {
    var r := SetSlot(fields, slots, i, s);
    SafeSlots(fields, slots);
    forall j | 0 <= j < |fields|
      ensures SafeSlot(fields[j], r[j])
    {
      assert SafeSlot(fields[j], slots[j]);
    }
    hide SafeSlot, SafeMessage;
    assert OneofsOk(fields, r);
    SafeSlots(fields, r);
  }

  // Whatever the bytes: what is decoded is a message of its table, with numbers in the range
  // of their types, arrays and byte strings within their storage, terminated strings and at
  // most one member of each oneof.
  lemma {:induction false} SlotsSafe(fields: seq<Field>, p: Bytes, slots: seq<Slot>, seen: set<nat>)
    requires GoodFields(fields) && |slots| == |fields| && SafeMessage(fields, slots) && DecodeSlots(fields, p, slots, seen).Some?
    ensures SafeMessage(fields, DecodeSlots(fields, p, slots, seen).value.0)
    decreases fields, 0, |p|
  {
    hide SafeMessage, SetSlot, DecodeField, Seen, SkipField, SafeSlot, Find, ReadWord32;
    if p != [] {
      var tag := ReadWord32(p);
      if tag.value.0 != 0 {
        var i := Find(fields, tag.value.0 / 8);
        if i == |fields| {
          SlotsSafe(fields, SkipField(tag.value.0 % 8, tag.value.1).value, slots, seen);
        } else {
          assert GoodField(fields[i]);
          SafeSlots(fields, slots);
          var r := DecodeField(fields[i], tag.value.0 % 8, tag.value.1, slots[i]);
          FieldSafe(fields[i], tag.value.0 % 8, tag.value.1, slots[i]);
          SetSafe(fields, slots, i, r.value.0);
          SlotsSafe(fields, r.value.1, SetSlot(fields, slots, i, r.value.0), Seen(fields, i, seen));
        }
      }
    }
  }

  lemma DecodedIsSafe(fields: seq<Field>, p: Bytes)
    requires GoodFields(fields) && Decode(fields, p).Some?
    ensures SafeMessage(fields, Decode(fields, p).value.0)
  {
    hide SafeMessage, DecodeSlots;
    ZeroMessageSafe(fields);
    SlotsSafe(fields, p, ZeroSlots(fields), {});
  }

  // So what is decoded from any bytes can be encoded again, and decodes to the same message.
  lemma DecodedReencodes(fields: seq<Field>, p: Bytes)
    requires GoodFields(fields) && Decode(fields, p).Some?
    ensures var m := Decode(fields, p).value.0;
            && SlotsOk(fields, m) && SlotsFit(fields, m)
            && (|EncodeSlots(fields, m)| < TWO32 ==> Decode(fields, EncodeSlots(fields, m)) == Some((m, [])))
  {
    hide DecodeSlots, EncodeSlots;
    DecodedIsSafe(fields, p);
    var m := Decode(fields, p).value.0;
    if |EncodeSlots(fields, m)| < TWO32 {
      MessageRoundTrip(fields, m);
    }
  }

  /* ---- required fields ---- */

  // The same walk through the fields of some bytes, with no question of what is required: the
  // message, the bytes left, and the tags of the known fields met on the way.
  datatype Walk = Walk(slots: seq<Slot>, rest: Bytes, tags: seq<nat>)

  function WalkFields(fields: seq<Field>, p: Bytes, slots: seq<Slot>): (r: Option<Walk>)
    requires |slots| == |fields|
    decreases |p|
  {
    if p == [] then Some(Walk(slots, [], []))
    else
      var tag := ReadWord32(p);
      if tag.None? then None
      else if tag.value.0 == 0 then Some(Walk(slots, tag.value.1, []))
      else
        var i := Find(fields, tag.value.0 / 8);
        if i == |fields| then
          var rest := SkipField(tag.value.0 % 8, tag.value.1);
          if rest.None? then None else WalkFields(fields, rest.value, slots)
        else
          var r := DecodeField(fields[i], tag.value.0 % 8, tag.value.1, slots[i]);
          if r.None? then None
          else
            var more := WalkFields(fields, r.value.1, SetSlot(fields, slots, i, r.value.0));
            if more.None? then None else Some(more.value.(tags := [fields[i].tag] + more.value.tags))
  }

  // Only the first so many required fields are looked after.
  ghost predicate Tracked(fields: seq<Field>, k: nat)
    requires k < |fields|
  {
    fields[k].rule.Required? && RequiredBefore(fields, k) < MAX_REQUIRED
  }

  ghost predicate Has(fields: seq<Field>, tags: seq<nat>, seen: set<nat>, k: nat)
    requires k < |fields|
  {
    RequiredBefore(fields, k) in seen || fields[k].tag in tags
  }

  lemma {:induction false} RequiredGrows(fields: seq<Field>, i: nat, j: nat)
    requires i <= j <= |fields|
    ensures RequiredBefore(fields, i) <= RequiredBefore(fields, j)
    decreases j
  {
    if i < j {
      RequiredGrows(fields, i, j - 1);
    }
  }

  lemma TrackedApart(fields: seq<Field>, i: nat, k: nat)
    requires i < |fields| && k < |fields| && Tracked(fields, i) && Tracked(fields, k) && RequiredBefore(fields, i) == RequiredBefore(fields, k)
    ensures i == k
  {
    if i < k {
      CountsUp(fields, i, k);
    } else if k < i {
      CountsUp(fields, k, i);
    }
  }

  lemma CountsUp(fields: seq<Field>, i: nat, k: nat)
    requires i < k <= |fields| && fields[i].rule.Required?
    ensures RequiredBefore(fields, i) < RequiredBefore(fields, k)
  {
    RequiredGrows(fields, i + 1, k);
  }

  lemma {:induction false} SeenUpToIs(seen: set<nat>, n: nat)
    ensures SeenUpTo(seen, n) <==> forall m :: 0 <= m < n ==> m in seen
  {
    if n > 0 {
      SeenUpToIs(seen, n - 1);
    }
  }

  // Every number below the count belongs to a tracked field.
  lemma {:induction false} TrackedAt(fields: seq<Field>, n: nat, m: nat) returns (k: nat)
    requires n <= |fields| && m < RequiredBefore(fields, n) && m < MAX_REQUIRED
    ensures k < n && Tracked(fields, k) && RequiredBefore(fields, k) == m
    decreases n
  {
    if m < RequiredBefore(fields, n - 1) {
      k := TrackedAt(fields, n - 1, m);
    } else {
      k := n - 1;
    }
  }

  // The end is reached with success exactly when every tracked field has been seen.
  lemma FinishIff(fields: seq<Field>, slots: seq<Slot>, seen: set<nat>, rest: Bytes)
    ensures Finish(fields, slots, seen, rest) ==
      if forall k :: 0 <= k < |fields| && Tracked(fields, k) ==> Has(fields, [], seen, k) then Some((slots, rest)) else None
  {
    hide SeenUpTo;
    var n := Least(RequiredBefore(fields, |fields|), MAX_REQUIRED);
    SeenUpToIs(seen, n);
    if SeenUpTo(seen, n) {
      forall k | 0 <= k < |fields| && Tracked(fields, k)
        ensures Has(fields, [], seen, k)
      {
        RequiredGrows(fields, k + 1, |fields|);
      }
    } else {
      var m :| 0 <= m < n && m !in seen;
      var k := TrackedAt(fields, |fields|, m);
      assert Tracked(fields, k) && !Has(fields, [], seen, k);
    }
  }

  // A field that is met counts for itself and for no other.
  lemma SeesOne(fields: seq<Field>, seen: set<nat>, i: nat, tags: seq<nat>, k: nat)
    requires GoodFields(fields) && i < |fields| && k < |fields| && Tracked(fields, k)
    ensures Has(fields, tags, Seen(fields, i, seen), k) <==> Has(fields, [fields[i].tag] + tags, seen, k)
  {
    if RequiredBefore(fields, i) == RequiredBefore(fields, k) && Tracked(fields, i) {
      TrackedApart(fields, i, k);
    }
    if fields[i].tag == fields[k].tag {
      TagsDiffer(fields, i, k);
    }
  }

  // Whatever the bytes, they are accepted exactly when they can be walked through and every
  // tracked required field is met on the way.
  lemma {:induction false} AcceptedIff(fields: seq<Field>, p: Bytes, slots: seq<Slot>, seen: set<nat>)
    requires GoodFields(fields) && |slots| == |fields|
    ensures var w := WalkFields(fields, p, slots);
            DecodeSlots(fields, p, slots, seen) ==
              if w.Some? && forall k :: 0 <= k < |fields| && Tracked(fields, k) ==> Has(fields, w.value.tags, seen, k)
              then Some((w.value.slots, w.value.rest)) else None
    decreases |p|
  {
    hide GoodFields, DecodeField, SetSlot, SkipField, Finish, Seen, Has, Tracked, Find, ReadWord32;
    if p == [] {
      FinishIff(fields, slots, seen, []);
    } else {
      var tag := ReadWord32(p);
      if tag.Some? {
        if tag.value.0 == 0 {
          FinishIff(fields, slots, seen, tag.value.1);
        } else {
          var i := Find(fields, tag.value.0 / 8);
          if i == |fields| {
            var rest := SkipField(tag.value.0 % 8, tag.value.1);
            if rest.Some? {
              AcceptedIff(fields, rest.value, slots, seen);
            }
          } else {
            var r := DecodeField(fields[i], tag.value.0 % 8, tag.value.1, slots[i]);
            if r.Some? {
              var slots' := SetSlot(fields, slots, i, r.value.0);
              AcceptedIff(fields, r.value.1, slots', Seen(fields, i, seen));
              var more := WalkFields(fields, r.value.1, slots');
              if more.Some? {
                forall k | 0 <= k < |fields| && Tracked(fields, k)
                  ensures Has(fields, more.value.tags, Seen(fields, i, seen), k) <==> Has(fields, [fields[i].tag] + more.value.tags, seen, k)
                {
                  SeesOne(fields, seen, i, more.value.tags, k);
                }
              }
            }
          }
        }
      }
    }
  }

  // A message without a required field is refused.
  lemma MissingFieldRefused(fields: seq<Field>, p: Bytes, k: nat)
    requires GoodFields(fields) && k < |fields| && Tracked(fields, k)
    requires WalkFields(fields, p, ZeroSlots(fields)).Some? ==> fields[k].tag !in WalkFields(fields, p, ZeroSlots(fields)).value.tags
    ensures Decode(fields, p) == None
  {
    hide WalkFields, DecodeSlots, Tracked;
    AcceptedIff(fields, p, ZeroSlots(fields), {});
    if WalkFields(fields, p, ZeroSlots(fields)).Some? {
      assert !Has(fields, WalkFields(fields, p, ZeroSlots(fields)).value.tags, {}, k);
    }
  }

  /* ---- unknown fields ---- */

  // The bytes of a field, by its wire type alone (Protocol Buffers Encoding guide, section
  // "Message Structure").
  ghost predicate IsBody(wire: nat, body: Bytes) {
    || (wire == WIRE_VARINT && exists v: nat :: body == EncodeVarint(v))
    || (wire == WIRE_64BIT && |body| == 8)
    || (wire == WIRE_32BIT && |body| == 4)
    || (wire == WIRE_STRING && exists s: Bytes :: |s| < TWO32 && body == EncodePrefixed(s))
  }

  lemma {:induction false} VarintSkipped(v: nat, rest: Bytes)
    ensures SkipVarint(EncodeVarint(v) + rest) == Some(rest)
  {
    if v < 128 {
      assert (EncodeVarint(v) + rest)[1..] == rest;
    } else {
      VarintSkipped(v / 128, rest);
      assert (EncodeVarint(v) + rest)[1..] == EncodeVarint(v / 128) + rest;
    }
  }

  lemma BodySkipped(wire: nat, body: Bytes, rest: Bytes)
    requires IsBody(wire, body)
    ensures SkipField(wire, body + rest) == Some(rest)
  {
    hide EncodeVarint, EncodePrefixed, ReadPrefixed, SkipVarint;
    if wire == WIRE_VARINT {
      var v: nat :| body == EncodeVarint(v);
      VarintSkipped(v, rest);
    } else if wire == WIRE_STRING {
      var s: Bytes :| |s| < TWO32 && body == EncodePrefixed(s);
      PrefixedReads(s, rest);
    } else {
      assert (body + rest)[|body|..] == rest;
    }
  }

  // A field that the table does not know, wherever a field may stand, changes nothing.
  lemma UnknownFieldSkipped(fields: seq<Field>, tag: nat, wire: nat, body: Bytes, rest: Bytes, slots: seq<Slot>, seen: set<nat>)
    requires |slots| == |fields| && 0 < tag < 0x2000_0000 && wire < 8 && IsBody(wire, body)
    requires forall i :: 0 <= i < |fields| ==> fields[i].tag != tag
    ensures DecodeSlots(fields, TagBytes(tag, wire) + body + rest, slots, seen) == DecodeSlots(fields, rest, slots, seen)
  {
    hide EncodeVarint, ReadWord32, SkipField, Find, IsBody;
    Word32RoundTrip(tag * 8 + wire, body + rest);
    Regroup(TagBytes(tag, wire), body, rest);
    BodySkipped(wire, body, rest);
    assert (tag * 8 + wire) / 8 == tag && (tag * 8 + wire) % 8 == wire && tag * 8 + wire > 0;
    assert Find(fields, tag) == |fields|;
  }

  // One whose wire type is none of these ends the decoding.
  lemma UnknownWireTypeRefused(fields: seq<Field>, tag: nat, wire: nat, rest: Bytes, slots: seq<Slot>, seen: set<nat>)
    requires |slots| == |fields| && 0 < tag < 0x2000_0000 && wire in {3, 4, 6, 7}
    requires forall i :: 0 <= i < |fields| ==> fields[i].tag != tag
    ensures DecodeSlots(fields, TagBytes(tag, wire) + rest, slots, seen) == None
  {
    hide EncodeVarint, ReadWord32, Find;
    Word32RoundTrip(tag * 8 + wire, rest);
    assert (tag * 8 + wire) / 8 == tag && (tag * 8 + wire) % 8 == wire && tag * 8 + wire > 0;
    assert Find(fields, tag) == |fields|;
  }

  // The fields before one read back, whatever follows them.
  lemma {:induction false} ReadsPrefix(fields: seq<Field>, slots: seq<Slot>, k: nat, rest: Bytes)
    requires SoundMessage(fields, slots) && |slots| == |fields| && SlotsOk(fields, slots) && k <= |fields|
    requires SlotsOk(fields[..k], slots[..k]) && |EncodeSlots(fields[..k], slots[..k])| < TWO32
    ensures DecodeSlots(fields, EncodeSlots(fields[..k], slots[..k]) + rest, ZeroSlots(fields), {})
         == Only(TerminatedBefore(fields, slots, k), DecodeSlots(fields, rest, Partial(fields, slots, k), SeenAfter(fields, k)))
    decreases k
  {
    hide SoundMessage, EncodeSlot, EncodeSlots, SlotsOk, SlotOk, DecodeSlots, SlotTerminated, Seen, SeenAfter, Partial;
    if k == 0 {
      NothingRead(fields, slots, rest);
    } else {
      var n := k - 1;
      EncodesNext(fields, slots, n);
      Regroup(EncodeSlots(fields[..n], slots[..n]), EncodeSlot(fields[n], slots[n]), rest);
      ReadsPrefix(fields, slots, n, EncodeSlot(fields[n], slots[n]) + rest);
      FieldRoundTrip(fields, slots, n, rest);
    }
  }

  ghost predicate TerminatedBefore(fields: seq<Field>, slots: seq<Slot>, k: nat)
    requires k <= |fields| == |slots|
  {
    forall i :: 0 <= i < k ==> SlotTerminated(fields[i], slots[i])
  }

  lemma NothingRead(fields: seq<Field>, slots: seq<Slot>, rest: Bytes)
    requires |slots| == |fields| && SlotsOk(fields[..0], slots[..0])
    ensures EncodeSlots(fields[..0], slots[..0]) + rest == rest
    ensures Partial(fields, slots, 0) == ZeroSlots(fields) && SeenAfter(fields, 0) == {}
  {
  }

  lemma EncodesNext(fields: seq<Field>, slots: seq<Slot>, n: nat)
    requires |slots| == |fields| && SlotsOk(fields, slots) && n < |fields| && SlotsOk(fields[..n + 1], slots[..n + 1])
    ensures SlotsOk(fields[..n], slots[..n]) && SlotOk(fields[n], slots[n])
    ensures EncodeSlots(fields[..n + 1], slots[..n + 1]) == EncodeSlots(fields[..n], slots[..n]) + EncodeSlot(fields[n], slots[n])
  {
    hide EncodeSlot;
    EncodeSplits(fields, slots, n);
    var fs, ss := fields[..n + 1], slots[..n + 1];
    assert fs[..n] == fields[..n] && ss[..n] == slots[..n] && fs[n] == fields[n] && ss[n] == slots[n];
  }

  // An unknown field anywhere between the fields of an encoded message changes nothing.
  lemma UnknownFieldBetween(fields: seq<Field>, slots: seq<Slot>, k: nat, tag: nat, wire: nat, body: Bytes)
    requires SoundMessage(fields, slots) && |slots| == |fields| && SlotsOk(fields, slots) && k <= |fields|
    requires SlotsOk(fields[..k], slots[..k]) && |EncodeSlots(fields, slots)| < TWO32
    requires 0 < tag < 0x2000_0000 && wire < 8 && IsBody(wire, body) && forall i :: 0 <= i < |fields| ==> fields[i].tag != tag
    ensures Decode(fields, EncodeSlots(fields[..k], slots[..k]) + (TagBytes(tag, wire) + body + EncodeFrom(fields, slots, k)))
         == Decode(fields, EncodeSlots(fields, slots))
  {
    hide SoundMessage, DecodeSlots, EncodeFrom, SlotTerminated, Partial, SeenAfter, IsBody, TagBytes, SlotsOk;
    EncodeSplits(fields, slots, k);
    hide EncodeSlots;
    var rest := EncodeFrom(fields, slots, k);
    ReadsPrefix(fields, slots, k, rest);
    ReadsPrefix(fields, slots, k, TagBytes(tag, wire) + body + rest);
    UnknownFieldSkipped(fields, tag, wire, body, rest, Partial(fields, slots, k), SeenAfter(fields, k));
  }
}
