/**
 Version edits and their encoding as tagged fields (db/version_edit.h, db/version_edit.cc).
 */
module VersionEdits {
  import opened Keys
  import opened Tables
  import opened Coding

  type Bytes = seq<Byte>

  // A table as the manifest knows it: its keys are internal keys, as bytes.
  datatype Meta = Meta(number: nat, size: nat, smallest: Bytes, largest: Bytes)

  // deleted stands for a set of (level, number), listed in order.
  datatype Edit = Edit(
    comparator: Option<Bytes>, logNumber: Option<nat>, prevLogNumber: Option<nat>,
    nextFile: Option<nat>, lastSequence: Option<nat>,
    pointers: seq<(nat, Bytes)>, deleted: seq<(nat, nat)>, added: seq<(nat, Meta)>)

  // version_edit.cc:26. The compaction pointers stay.
  function Cleared(pointers: seq<(nat, Bytes)>): Edit {
    Edit(None, None, None, None, None, pointers, [], [])
  }

  /* ---- fields ---- */

  datatype Field =
    | Comparator(name: Bytes)
    | LogNumber(log: nat)
    | PrevLogNumber(prev: nat)
    | NextFileNumber(next: nat)
    | LastSequence(last: nat)
    | CompactPointer(at: nat, key: Bytes)
    | DeletedFile(from: nat, number: nat)
    | NewFile(level: nat, file: Meta)

  // version_edit.cc:14; 8 was used once.
  const COMPARATOR := 1
  const LOG_NUMBER := 2
  const NEXT_FILE_NUMBER := 3
  const LAST_SEQUENCE := 4
  const COMPACT_POINTER := 5
  const DELETED_FILE := 6
  const NEW_FILE := 7
  const PREV_LOG_NUMBER := 9

  function TagOf(f: Field): nat {
    match f
    case Comparator(_) => COMPARATOR
    case LogNumber(_) => LOG_NUMBER
    case PrevLogNumber(_) => PREV_LOG_NUMBER
    case NextFileNumber(_) => NEXT_FILE_NUMBER
    case LastSequence(_) => LAST_SEQUENCE
    case CompactPointer(_, _) => COMPACT_POINTER
    case DeletedFile(_, _) => DELETED_FILE
    case NewFile(_, _) => NEW_FILE
  }

  function EncodeMeta(m: Meta): Bytes {
    EncodeVarint(m.number) + (EncodeVarint(m.size) + (EncodePrefixed(m.smallest) + EncodePrefixed(m.largest)))
  }

  function EncodeBody(f: Field): Bytes {
    match f
    case Comparator(name) => EncodePrefixed(name)
    case LogNumber(n) => EncodeVarint(n)
    case PrevLogNumber(n) => EncodeVarint(n)
    case NextFileNumber(n) => EncodeVarint(n)
    case LastSequence(n) => EncodeVarint(n)
    case CompactPointer(l, key) => EncodeVarint(l) + EncodePrefixed(key)
    case DeletedFile(l, n) => EncodeVarint(l) + EncodeVarint(n)
    case NewFile(l, m) => EncodeVarint(l) + EncodeMeta(m)
  }

  function EncodeField(f: Field): (r: Bytes)
    ensures |r| > 0
  {
    EncodeVarint(TagOf(f)) + EncodeBody(f)
  }

  // What the words of the machine can hold.
  predicate MetaFits(m: Meta) {
    m.number < TWO64 && m.size < TWO64 && |m.smallest| < TWO32 && |m.largest| < TWO32
  }

  predicate FieldFits(f: Field) {
    match f
    case Comparator(name) => |name| < TWO32
    case LogNumber(n) => n < TWO64
    case PrevLogNumber(n) => n < TWO64
    case NextFileNumber(n) => n < TWO64
    case LastSequence(n) => n < TWO64
    case CompactPointer(l, key) => l < TWO32 && |key| < TWO32
    case DeletedFile(l, n) => l < TWO32 && n < TWO64
    case NewFile(l, m) => l < TWO32 && MetaFits(m)
  }

  predicate LevelKnown(f: Field) {
    match f
    case CompactPointer(l, _) => l < NUM_LEVELS
    case DeletedFile(l, _) => l < NUM_LEVELS
    case NewFile(l, _) => l < NUM_LEVELS
    case _ => true
  }

  /* ---- reading a field ---- */

  datatype Result<T> = Ok(value: T) | Corruption(message: string)

  // version_edit.cc:97
  function GetLevel(p: Bytes): (r: Option<(nat, Bytes)>)
    ensures r.Some? ==> r.value.0 < NUM_LEVELS
  {
    var v := DecodeVarint32(p);
    if v.Some? && v.value.0 < NUM_LEVELS then v else None
  }

  function GetMeta(p: Bytes): (r: Option<(Meta, Bytes)>)
    ensures r.Some? ==> MetaFits(r.value.0)
  {
    var number := DecodeVarint64(p);
    if number.None? then None
    else
      var size := DecodeVarint64(number.value.1);
      if size.None? then None
      else
        var smallest := DecodePrefixed(size.value.1);
        if smallest.None? then None
        else
          var largest := DecodePrefixed(smallest.value.1);
          if largest.None? then None
          else Some((Meta(number.value.0, size.value.0, smallest.value.0, largest.value.0), largest.value.1))
  }

  function GetPointer(p: Bytes): (r: Option<(Field, Bytes)>) {
    var level := GetLevel(p);
    if level.None? then None
    else
      var key := DecodePrefixed(level.value.1);
      if key.None? then None else Some((CompactPointer(level.value.0, key.value.0), key.value.1))
  }

  function GetDeleted(p: Bytes): (r: Option<(Field, Bytes)>) {
    var level := GetLevel(p);
    if level.None? then None
    else
      var number := DecodeVarint64(level.value.1);
      if number.None? then None else Some((DeletedFile(level.value.0, number.value.0), number.value.1))
  }

  function GetNewFile(p: Bytes): (r: Option<(Field, Bytes)>) {
    var level := GetLevel(p);
    if level.None? then None
    else
      var file := GetMeta(level.value.1);
      if file.None? then None else Some((NewFile(level.value.0, file.value.0), file.value.1))
  }

  function GetNumber(p: Bytes, tag: nat): (r: Option<(Field, Bytes)>) {
    var n := DecodeVarint64(p);
    if n.None? then None
    else
      var f := if tag == LOG_NUMBER then LogNumber(n.value.0)
               else if tag == PREV_LOG_NUMBER then PrevLogNumber(n.value.0)
               else if tag == NEXT_FILE_NUMBER then NextFileNumber(n.value.0)
               else LastSequence(n.value.0);
      Some((f, n.value.1))
  }

  function GetComparator(p: Bytes): (r: Option<(Field, Bytes)>) {
    var name := DecodePrefixed(p);
    if name.None? then None else Some((Comparator(name.value.0), name.value.1))
  }

  function Message(tag: nat): string {
    if tag == COMPARATOR then "comparator name"
    else if tag == LOG_NUMBER then "log number"
    else if tag == PREV_LOG_NUMBER then "previous log number"
    else if tag == NEXT_FILE_NUMBER then "next file number"
    else if tag == LAST_SEQUENCE then "last sequence number"
    else if tag == COMPACT_POINTER then "compaction pointer"
    else if tag == DELETED_FILE then "deleted file"
    else if tag == NEW_FILE then "new-file entry"
    else "unknown tag"
  }

  // The branches of version_edit.cc:121.
  function GetBody(tag: nat, p: Bytes): Option<(Field, Bytes)> {
    if tag == COMPARATOR then GetComparator(p)
    else if tag == COMPACT_POINTER then GetPointer(p)
    else if tag == DELETED_FILE then GetDeleted(p)
    else if tag == NEW_FILE then GetNewFile(p)
    else if LOG_NUMBER <= tag <= LAST_SEQUENCE || tag == PREV_LOG_NUMBER then GetNumber(p, tag)
    else None
  }

  function ReadField(p: Bytes): (r: Result<(Field, Bytes)>)
    ensures r.Ok? ==> |r.value.1| < |p|
  {
    var tag := DecodeVarint32(p);
    if tag.None? then Corruption("invalid tag")
    else
      var body := GetBody(tag.value.0, tag.value.1);
      if body.None? then Corruption(Message(tag.value.0)) else Ok(body.value)
  }

  /* ---- a field that was written is read back ---- */

  lemma Join<T>(a: seq<T>, b: seq<T>, c: seq<T>)
    ensures a + b + c == a + (b + c)
  {
  }

  lemma LevelRoundTrip(l: nat, rest: Bytes)
    requires l < TWO32
    ensures GetLevel(EncodeVarint(l) + rest) == if l < NUM_LEVELS then Some((l, rest)) else None
  {
    Varint32RoundTrip(l, rest);
  }

  lemma MetaRoundTrip(m: Meta, rest: Bytes)
    requires MetaFits(m)
    ensures GetMeta(EncodeMeta(m) + rest) == Some((m, rest))
  {
    hide EncodeVarint, EncodePrefixed, DecodePrefixed, DecodeVarint64;
    var keys := EncodePrefixed(m.smallest) + EncodePrefixed(m.largest);
    Join(EncodeVarint(m.number), EncodeVarint(m.size) + keys, rest);
    Join(EncodeVarint(m.size), keys, rest);
    Join(EncodePrefixed(m.smallest), EncodePrefixed(m.largest), rest);
    Varint64RoundTrip(m.number, EncodeVarint(m.size) + keys + rest);
    Varint64RoundTrip(m.size, keys + rest);
    PrefixedRoundTrip(m.smallest, EncodePrefixed(m.largest) + rest);
    PrefixedRoundTrip(m.largest, rest);
  }

  lemma BodyRoundTrip(f: Field, rest: Bytes)
    requires FieldFits(f)
    ensures GetBody(TagOf(f), EncodeBody(f) + rest) == if LevelKnown(f) then Some((f, rest)) else None
  {
    hide EncodeVarint, EncodePrefixed, DecodePrefixed, DecodeVarint64, GetLevel, GetMeta, EncodeMeta;
    match f
    case Comparator(name) => PrefixedRoundTrip(name, rest);
    case LogNumber(n) => Varint64RoundTrip(n, rest);
    case PrevLogNumber(n) => Varint64RoundTrip(n, rest);
    case NextFileNumber(n) => Varint64RoundTrip(n, rest);
    case LastSequence(n) => Varint64RoundTrip(n, rest);
    case CompactPointer(l, key) =>
      Join(EncodeVarint(l), EncodePrefixed(key), rest);
      LevelRoundTrip(l, EncodePrefixed(key) + rest);
      PrefixedRoundTrip(key, rest);
    case DeletedFile(l, n) =>
      Join(EncodeVarint(l), EncodeVarint(n), rest);
      LevelRoundTrip(l, EncodeVarint(n) + rest);
      Varint64RoundTrip(n, rest);
    case NewFile(l, m) =>
      Join(EncodeVarint(l), EncodeMeta(m), rest);
      LevelRoundTrip(l, EncodeMeta(m) + rest);
      MetaRoundTrip(m, rest);
  }

  lemma FieldRoundTrip(f: Field, rest: Bytes)
    requires FieldFits(f)
    ensures ReadField(EncodeField(f) + rest) == if LevelKnown(f) then Ok((f, rest)) else Corruption(Message(TagOf(f)))
  {
    hide EncodeVarint, EncodeBody, GetBody, DecodeVarint32, Message;
    Join(EncodeVarint(TagOf(f)), EncodeBody(f), rest);
    Varint32RoundTrip(TagOf(f), EncodeBody(f) + rest);
    BodyRoundTrip(f, rest);
  }

  lemma ReadsWhatFits(p: Bytes)
    ensures ReadField(p).Ok? ==> FieldFits(ReadField(p).value.0) && LevelKnown(ReadField(p).value.0)
  {
  }

  /* ---- edits as fields ---- */

  predicate PairLess(a: (nat, nat), b: (nat, nat)) {
    a.0 < b.0 || (a.0 == b.0 && a.1 < b.1)
  }

  ghost predicate Ascending(ds: seq<(nat, nat)>) {
    forall i, j :: 0 <= i < j < |ds| ==> PairLess(ds[i], ds[j])
  }

  // std::set insert.
  function InsertPair(ds: seq<(nat, nat)>, d: (nat, nat)): seq<(nat, nat)> {
    if ds == [] then [d]
    else if PairLess(d, ds[0]) then [d] + ds
    else if d == ds[0] then ds
    else [ds[0]] + InsertPair(ds[1..], d)
  }

  // What a field says about the edit it is part of.
  function Set(e: Edit, f: Field): Edit {
    match f
    case Comparator(name) => e.(comparator := Some(name))
    case LogNumber(n) => e.(logNumber := Some(n))
    case PrevLogNumber(n) => e.(prevLogNumber := Some(n))
    case NextFileNumber(n) => e.(nextFile := Some(n))
    case LastSequence(n) => e.(lastSequence := Some(n))
    case CompactPointer(l, key) => e.(pointers := e.pointers + [(l, key)])
    case DeletedFile(l, n) => e.(deleted := InsertPair(e.deleted, (l, n)))
    case NewFile(l, m) => e.(added := e.added + [(l, m)])
  }

  function SetAll(e: Edit, fs: seq<Field>): Edit
    decreases |fs|
  {
    if fs == [] then e else SetAll(Set(e, fs[0]), fs[1..])
  }

  function Encode(fs: seq<Field>): Bytes {
    if fs == [] then [] else EncodeField(fs[0]) + Encode(fs[1..])
  }

  // The edit read so far and the message that stopped the reading (version_edit.cc:121-197).
  function Decode(p: Bytes, e: Edit): (Edit, Option<string>)
    decreases |p|
  {
    if p == [] then (e, None)
    else
      match ReadField(p)
      case Corruption(message) => (e, Some(message))
      case Ok(r) => Decode(r.1, Set(e, r.0))
  }

  function Maybe<A>(a: Option<A>, field: A -> Field): seq<Field> {
    if a.None? then [] else [field(a.value)]
  }

  function ScalarFields(e: Edit): seq<Field> {
    Maybe(e.comparator, s => Comparator(s)) + Maybe(e.logNumber, n => LogNumber(n)) + Maybe(e.prevLogNumber, n => PrevLogNumber(n))
    + Maybe(e.nextFile, n => NextFileNumber(n)) + Maybe(e.lastSequence, n => LastSequence(n))
  }

  function PointerFields(ps: seq<(nat, Bytes)>): seq<Field> {
    seq(|ps|, i requires 0 <= i < |ps| => CompactPointer(ps[i].0, ps[i].1))
  }

  function DeletedFields(ds: seq<(nat, nat)>): seq<Field> {
    seq(|ds|, i requires 0 <= i < |ds| => DeletedFile(ds[i].0, ds[i].1))
  }

  function NewFields(ms: seq<(nat, Meta)>): seq<Field> {
    seq(|ms|, i requires 0 <= i < |ms| => NewFile(ms[i].0, ms[i].1))
  }

  function Fields(e: Edit): seq<Field> {
    ScalarFields(e) + PointerFields(e.pointers) + DeletedFields(e.deleted) + NewFields(e.added)
  }

  // An edit as the words of the machine can hold it.
  ghost predicate EditFits(e: Edit) {
    && (e.comparator.Some? ==> |e.comparator.value| < TWO32)
    && NumberFits(e.logNumber) && NumberFits(e.prevLogNumber) && NumberFits(e.nextFile) && NumberFits(e.lastSequence)
    && (forall p :: p in e.pointers ==> p.0 < TWO32 && |p.1| < TWO32)
    && Ascending(e.deleted) && (forall d :: d in e.deleted ==> d.0 < TWO32 && d.1 < TWO64)
    && (forall a :: a in e.added ==> a.0 < TWO32 && MetaFits(a.1))
  }

  predicate NumberFits(n: Option<nat>) {
    n.Some? ==> n.value < TWO64
  }

  ghost predicate LevelsKnown(e: Edit) {
    && (forall p :: p in e.pointers ==> p.0 < NUM_LEVELS)
    && (forall d :: d in e.deleted ==> d.0 < NUM_LEVELS)
    && (forall a :: a in e.added ==> a.0 < NUM_LEVELS)
  }

  lemma FieldsFit(e: Edit)
    requires EditFits(e)
    ensures forall f :: f in Fields(e) ==> FieldFits(f)
  {
    ScalarsFit(e);
    PointersFit(e.pointers);
    DeletedFit(e.deleted);
    AddedFit(e.added);
    hide FieldFits, ScalarFields, PointerFields, DeletedFields, NewFields, EditFits;
    forall f | f in Fields(e)
      ensures FieldFits(f)
    {
      OneOfFour(ScalarFields(e), PointerFields(e.pointers), DeletedFields(e.deleted), NewFields(e.added), f);
    }
  }

  lemma OneOfFour<T>(a: seq<T>, b: seq<T>, c: seq<T>, d: seq<T>, x: T)
    ensures x in a + b + c + d <==> x in a || x in b || x in c || x in d
  {
  }

  lemma ScalarsFit(e: Edit)
    requires EditFits(e)
    ensures forall f :: f in ScalarFields(e) ==> FieldFits(f)
  {
    hide Ascending, MetaFits;
    OneOf(e.comparator, s => Comparator(s));
    OneOf(e.logNumber, n => LogNumber(n));
    OneOf(e.prevLogNumber, n => PrevLogNumber(n));
    OneOf(e.nextFile, n => NextFileNumber(n));
    OneOf(e.lastSequence, n => LastSequence(n));
  }

  lemma OneOf<A>(a: Option<A>, field: A -> Field)
    ensures forall f :: f in Maybe(a, field) ==> a.Some? && f == field(a.value)
  {
  }

  lemma PointersFit(ps: seq<(nat, Bytes)>)
    requires forall p :: p in ps ==> p.0 < TWO32 && |p.1| < TWO32
    ensures forall f :: f in PointerFields(ps) ==> FieldFits(f)
  {
    assert forall i :: 0 <= i < |ps| ==> ps[i] in ps;
  }

  lemma DeletedFit(ds: seq<(nat, nat)>)
    requires forall d :: d in ds ==> d.0 < TWO32 && d.1 < TWO64
    ensures forall f :: f in DeletedFields(ds) ==> FieldFits(f)
  {
    assert forall i :: 0 <= i < |ds| ==> ds[i] in ds;
  }

  lemma AddedFit(ms: seq<(nat, Meta)>)
    requires forall a :: a in ms ==> a.0 < TWO32 && MetaFits(a.1)
    ensures forall f :: f in NewFields(ms) ==> FieldFits(f)
  {
    hide MetaFits;
    assert forall i :: 0 <= i < |ms| ==> ms[i] in ms;
  }

  lemma LevelsOfFields(e: Edit)
    ensures LevelsKnown(e) <==> forall f :: f in Fields(e) ==> LevelKnown(f)
  {
    if LevelsKnown(e) {
      LevelsGiveFields(e);
    }
    if forall f :: f in Fields(e) ==> LevelKnown(f) {
      FieldsGiveLevels(e);
    }
  }

  lemma LevelsGiveFields(e: Edit)
    requires LevelsKnown(e)
    ensures forall f :: f in Fields(e) ==> LevelKnown(f)
  {
    var s, p, d, a := ScalarFields(e), PointerFields(e.pointers), DeletedFields(e.deleted), NewFields(e.added);
    ScalarsHaveNoLevel(e);
    assert forall f :: f in p ==> LevelKnown(f) by {
      assert forall i :: 0 <= i < |p| ==> e.pointers[i] in e.pointers;
    }
    assert forall f :: f in d ==> LevelKnown(f) by {
      assert forall i :: 0 <= i < |d| ==> e.deleted[i] in e.deleted;
    }
    assert forall f :: f in a ==> LevelKnown(f) by {
      assert forall i :: 0 <= i < |a| ==> e.added[i] in e.added;
    }
    hide LevelKnown, ScalarFields, PointerFields, DeletedFields, NewFields;
    forall f | f in Fields(e)
      ensures LevelKnown(f)
    {
      OneOfFour(s, p, d, a, f);
    }
  }

  lemma ScalarsHaveNoLevel(e: Edit)
    ensures forall f :: f in ScalarFields(e) ==> LevelKnown(f)
  {
    OneOf(e.comparator, s => Comparator(s));
    OneOf(e.logNumber, n => LogNumber(n));
    OneOf(e.prevLogNumber, n => PrevLogNumber(n));
    OneOf(e.nextFile, n => NextFileNumber(n));
    OneOf(e.lastSequence, n => LastSequence(n));
  }

  lemma FieldsGiveLevels(e: Edit)
    requires forall f :: f in Fields(e) ==> LevelKnown(f)
    ensures LevelsKnown(e)
  {
    var p, d, a := PointerFields(e.pointers), DeletedFields(e.deleted), NewFields(e.added);
    forall x | x in e.pointers
      ensures x.0 < NUM_LEVELS
    {
      var i :| 0 <= i < |e.pointers| && e.pointers[i] == x;
      assert p[i] in p && p[i] in Fields(e);
    }
    forall x | x in e.deleted
      ensures x.0 < NUM_LEVELS
    {
      var i :| 0 <= i < |e.deleted| && e.deleted[i] == x;
      assert d[i] in d && d[i] in Fields(e);
    }
    forall x | x in e.added
      ensures x.0 < NUM_LEVELS
    {
      var i :| 0 <= i < |e.added| && e.added[i] == x;
      assert a[i] in a && a[i] in Fields(e);
    }
  }

  /* ---- the round trip ---- */

  lemma {:induction false} SetAllAppend(e: Edit, a: seq<Field>, b: seq<Field>)
    ensures SetAll(e, a + b) == SetAll(SetAll(e, a), b)
    decreases |a|
  {
    if a == [] {
      assert a + b == b;
    } else {
      assert (a + b)[0] == a[0] && (a + b)[1..] == a[1..] + b;
      SetAllAppend(Set(e, a[0]), a[1..], b);
    }
  }

  lemma {:induction false} SetPointers(e: Edit, ps: seq<(nat, Bytes)>)
    ensures SetAll(e, PointerFields(ps)) == e.(pointers := e.pointers + ps)
    decreases |ps|
  {
    if ps == [] {
      assert e.pointers + [] == e.pointers;
    } else {
      assert PointerFields(ps)[1..] == PointerFields(ps[1..]);
      SetPointers(Set(e, PointerFields(ps)[0]), ps[1..]);
      assert e.pointers + [ps[0]] + ps[1..] == e.pointers + ps;
    }
  }

  lemma {:induction false} InsertLast(ds: seq<(nat, nat)>, d: (nat, nat))
    requires forall i :: 0 <= i < |ds| ==> PairLess(ds[i], d)
    ensures InsertPair(ds, d) == ds + [d]
  {
    if ds != [] {
      InsertLast(ds[1..], d);
      assert [ds[0]] + (ds[1..] + [d]) == ds + [d];
    }
  }

  lemma {:induction false} SetDeleted(e: Edit, ds: seq<(nat, nat)>)
    requires Ascending(e.deleted + ds)
    ensures SetAll(e, DeletedFields(ds)) == e.(deleted := e.deleted + ds)
    decreases |ds|
  {
    if ds == [] {
      assert e.deleted + [] == e.deleted;
    } else {
      var all := e.deleted + ds;
      assert forall i :: 0 <= i < |e.deleted| ==> all[i] == e.deleted[i];
      assert all[|e.deleted|] == ds[0];
      InsertLast(e.deleted, ds[0]);
      assert e.deleted + [ds[0]] + ds[1..] == all;
      assert DeletedFields(ds)[1..] == DeletedFields(ds[1..]);
      SetDeleted(Set(e, DeletedFields(ds)[0]), ds[1..]);
    }
  }

  lemma {:induction false} SetAdded(e: Edit, ms: seq<(nat, Meta)>)
    ensures SetAll(e, NewFields(ms)) == e.(added := e.added + ms)
    decreases |ms|
  {
    if ms == [] {
      assert e.added + [] == e.added;
    } else {
      assert NewFields(ms)[1..] == NewFields(ms[1..]);
      SetAdded(Set(e, NewFields(ms)[0]), ms[1..]);
      assert e.added + [ms[0]] + ms[1..] == e.added + ms;
    }
  }

  lemma SetOne(e: Edit, f: Field)
    ensures SetAll(e, [f]) == Set(e, f) && SetAll(e, []) == e
  {
    assert [f][1..] == [];
    assert SetAll(Set(e, f), []) == Set(e, f);
  }

  lemma SetScalars(e: Edit, before: seq<(nat, Bytes)>)
    ensures SetAll(Cleared(before), ScalarFields(e)) == e.(pointers := before, deleted := [], added := [])
  {
    var c, l, p := Maybe(e.comparator, s => Comparator(s)), Maybe(e.logNumber, n => LogNumber(n)), Maybe(e.prevLogNumber, n => PrevLogNumber(n));
    var n, q := Maybe(e.nextFile, n => NextFileNumber(n)), Maybe(e.lastSequence, n => LastSequence(n));
    var e0 := Cleared(before);
    var e1 := e0.(comparator := e.comparator);
    var e2 := e1.(logNumber := e.logNumber);
    var e3 := e2.(prevLogNumber := e.prevLogNumber);
    var e4 := e3.(nextFile := e.nextFile);
    SetAllAppend(e0, c + l + p + n, q);
    SetAllAppend(e0, c + l + p, n);
    SetAllAppend(e0, c + l, p);
    SetAllAppend(e0, c, l);
    SetOne(e0, Comparator(if e.comparator.Some? then e.comparator.value else []));
    SetOne(e1, LogNumber(if e.logNumber.Some? then e.logNumber.value else 0));
    SetOne(e2, PrevLogNumber(if e.prevLogNumber.Some? then e.prevLogNumber.value else 0));
    SetOne(e3, NextFileNumber(if e.nextFile.Some? then e.nextFile.value else 0));
    SetOne(e4, LastSequence(if e.lastSequence.Some? then e.lastSequence.value else 0));
  }

  // An edit is what its fields say.
  lemma FieldsSayAll(e: Edit, before: seq<(nat, Bytes)>)
    requires Ascending(e.deleted)
    ensures SetAll(Cleared(before), Fields(e)) == e.(pointers := before + e.pointers)
  {
    hide SetAll, ScalarFields, PointerFields, DeletedFields, NewFields;
    var s, p, d, a := ScalarFields(e), PointerFields(e.pointers), DeletedFields(e.deleted), NewFields(e.added);
    var e0 := Cleared(before);
    SetAllAppend(e0, s + p + d, a);
    SetAllAppend(e0, s + p, d);
    SetAllAppend(e0, s, p);
    SetScalars(e, before);
    var e1 := e.(pointers := before, deleted := [], added := []);
    SetPointers(e1, e.pointers);
    var e2 := e1.(pointers := before + e.pointers);
    assert [] + e.deleted == e.deleted && [] + e.added == e.added;
    SetDeleted(e2, e.deleted);
    SetAdded(e2.(deleted := e.deleted), e.added);
  }

  // Fields are read back in turn, up to the first whose level is unknown.
  lemma {:induction false} DecodeFields(fs: seq<Field>, e: Edit)
    requires forall f :: f in fs ==> FieldFits(f)
    ensures (forall f :: f in fs ==> LevelKnown(f)) ==> Decode(Encode(fs), e) == (SetAll(e, fs), None)
    ensures Decode(Encode(fs), e).1.None? ==> forall f :: f in fs ==> LevelKnown(f)
  {
    if fs != [] {
      FieldRoundTrip(fs[0], Encode(fs[1..]));
      DecodeFields(fs[1..], Set(e, fs[0]));
      assert fs == [fs[0]] + fs[1..];
    }
  }

  // Decoding an encoded edit gives it back exactly when all its levels are ones the store
  // has; an edit that is read into keeps the compaction pointers it had.
  lemma EditRoundTrip(e: Edit, before: seq<(nat, Bytes)>)
    requires EditFits(e)
    ensures LevelsKnown(e) ==> Decode(Encode(Fields(e)), Cleared(before)) == (e.(pointers := before + e.pointers), None)
    ensures !LevelsKnown(e) ==> Decode(Encode(Fields(e)), Cleared(before)).1.Some?
  {
    hide Decode, Encode, Fields, FieldFits, LevelKnown, LevelsKnown;
    FieldsFit(e);
    LevelsOfFields(e);
    DecodeFields(Fields(e), Cleared(before));
    FieldsSayAll(e, before);
  }

  /* ---- what is read fits ---- */

  lemma {:induction false} InsertPairFacts(ds: seq<(nat, nat)>, d: (nat, nat))
    requires Ascending(ds)
    ensures Ascending(InsertPair(ds, d))
    ensures forall x :: x in InsertPair(ds, d) <==> x in ds || x == d
  {
    if ds != [] && !PairLess(d, ds[0]) && d != ds[0] {
      InsertPairFacts(ds[1..], d);
      assert ds == [ds[0]] + ds[1..];
      forall x | x in InsertPair(ds[1..], d)
        ensures PairLess(ds[0], x)
      {
      }
    } else if ds != [] {
      assert forall i :: 0 <= i < |ds| ==> PairLess(d, ds[0]) ==> PairLess(d, ds[i]);
    }
  }

  lemma SetFits(e: Edit, f: Field)
    requires EditFits(e) && LevelsKnown(e) && FieldFits(f) && LevelKnown(f)
    ensures EditFits(Set(e, f)) && LevelsKnown(Set(e, f))
  {
    if f.DeletedFile? {
      InsertPairFacts(e.deleted, (f.from, f.number));
    }
  }

  lemma {:induction false} DecodeFits(p: Bytes, e: Edit)
    requires EditFits(e) && LevelsKnown(e)
    ensures EditFits(Decode(p, e).0) && LevelsKnown(Decode(p, e).0)
    decreases |p|
  {
    hide EditFits, LevelsKnown;
    if p != [] && ReadField(p).Ok? {
      var r := ReadField(p).value;
      ReadsWhatFits(p);
      SetFits(e, r.0);
      DecodeFits(r.1, Set(e, r.0));
    }
  }

  /* ---- the class ---- */

  lemma {:induction false} EncodeAppend(a: seq<Field>, b: seq<Field>)
    ensures Encode(a + b) == Encode(a) + Encode(b)
  {
    if a == [] {
      assert a + b == b;
    } else {
      assert (a + b)[0] == a[0] && (a + b)[1..] == a[1..] + b;
      EncodeAppend(a[1..], b);
      Join(EncodeField(a[0]), Encode(a[1..]), Encode(b));
    }
  }

  lemma EncodePush(a: seq<Field>, f: Field)
    ensures Encode(a + [f]) == Encode(a) + EncodeField(f)
  {
    EncodeAppend(a, [f]);
    assert [f][1..] == [];
    assert EncodeField(f) + [] == EncodeField(f);
  }

  lemma NothingEncoded()
    ensures Encode([]) == []
  {
  }

  // A field that is there goes to the end.
  method PutMaybe<A>(dst: Bytes, ghost done: seq<Field>, a: Option<A>, field: A -> Field) returns (r: Bytes, ghost after: seq<Field>)
    requires dst == Encode(done)
    ensures after == done + Maybe(a, field) && r == Encode(after)
  {
    r, after := dst, done + Maybe(a, field);
    if a.Some? {
      EncodePush(done, field(a.value));
      r := dst + EncodeField(field(a.value));
    } else {
      AppendNothing(done);
    }
  }

  class VersionEdit {
    var comparator: Option<Bytes>
    var logNumber: Option<nat>
    var prevLogNumber: Option<nat>
    var nextFile: Option<nat>
    var lastSequence: Option<nat>
    var pointers: seq<(nat, Bytes)>
    var deleted: seq<(nat, nat)>
    var added: seq<(nat, Meta)>

    function Value(): Edit
      reads this
    {
      Edit(comparator, logNumber, prevLogNumber, nextFile, lastSequence, pointers, deleted, added)
    }

    constructor ()
      ensures Value() == Cleared([])
    {
      comparator, logNumber, prevLogNumber, nextFile, lastSequence := None, None, None, None, None;
      pointers, deleted, added := [], [], [];
    }

    // version_edit.cc:26
    method Clear()
      modifies this
      ensures Value() == Cleared(old(pointers))
    {
      comparator, logNumber, prevLogNumber, nextFile, lastSequence := None, None, None, None, None;
      deleted, added := [], [];
    }

    // version_edit.h:63
    method AddFile(level: nat, file: Meta)
      modifies this
      ensures Value() == old(Value()).(added := old(added) + [(level, file)])
    {
      added := added + [(level, file)];
    }

    // version_edit.h:74
    method DeleteFile(level: nat, file: nat)
      requires Ascending(deleted)
      modifies this
      ensures Value() == old(Value()).(deleted := deleted) && Ascending(deleted)
      ensures forall d :: d in deleted <==> d in old(deleted) || d == (level, file)
    {
      InsertPairFacts(deleted, (level, file));
      deleted := InsertPair(deleted, (level, file));
    }

    method EncodeScalars() returns (dst: Bytes)
      ensures dst == Encode(ScalarFields(Value()))
    {
      hide Encode, EncodeField;
      ghost var done: seq<Field>;
      dst, done := [], [];
      assert dst == Encode(done) by {
        NothingEncoded();
      }
      dst, done := PutMaybe(dst, done, comparator, s => Comparator(s));
      dst, done := PutMaybe(dst, done, logNumber, n => LogNumber(n));
      dst, done := PutMaybe(dst, done, prevLogNumber, n => PrevLogNumber(n));
      dst, done := PutMaybe(dst, done, nextFile, n => NextFileNumber(n));
      dst, done := PutMaybe(dst, done, lastSequence, n => LastSequence(n));
      assert done == ScalarFields(Value());
    }

    // version_edit.cc:41
    method EncodeTo() returns (dst: Bytes)
      ensures dst == Encode(Fields(Value()))
    {
      dst := EncodeScalars();
      ghost var s, p, d, a := ScalarFields(Value()), PointerFields(pointers), DeletedFields(deleted), NewFields(added);
      hide Encode;
      AppendNothing(s);
      for i := 0 to |pointers|
        invariant dst == Encode(s + p[..i])
      {
        PushNext(s, p, i);
        dst := dst + EncodeField(CompactPointer(pointers[i].0, pointers[i].1));
      }
      assert p[..|pointers|] == p;
      AppendNothing(s + p);
      for i := 0 to |deleted|
        invariant dst == Encode(s + p + d[..i])
      {
        PushNext(s + p, d, i);
        dst := dst + EncodeField(DeletedFile(deleted[i].0, deleted[i].1));
      }
      assert d[..|deleted|] == d;
      AppendNothing(s + p + d);
      for i := 0 to |added|
        invariant dst == Encode(s + p + d + a[..i])
      {
        PushNext(s + p + d, a, i);
        dst := dst + EncodeField(NewFile(added[i].0, added[i].1));
      }
      assert a[..|added|] == a;
    }

    method SetField(f: Field)
      modifies this
      ensures Value() == Set(old(Value()), f)
    {
      match f
      case Comparator(name) => comparator := Some(name);
      case LogNumber(n) => logNumber := Some(n);
      case PrevLogNumber(n) => prevLogNumber := Some(n);
      case NextFileNumber(n) => nextFile := Some(n);
      case LastSequence(n) => lastSequence := Some(n);
      case CompactPointer(l, key) => pointers := pointers + [(l, key)];
      case DeletedFile(l, n) => deleted := InsertPair(deleted, (l, n));
      case NewFile(l, m) => added := added + [(l, m)];
    }

    // version_edit.cc:107
    method DecodeFrom(src: Bytes) returns (msg: Option<string>)
      modifies this
      ensures (Value(), msg) == Decode(src, Cleared(old(pointers)))
    {
      Clear();
      var input := src;
      msg := None;
      while input != [] && msg.None?
        invariant Decode(src, Cleared(old(pointers))) == if msg.None? then Decode(input, Value()) else (Value(), msg)
        decreases |input|, msg.None?
      {
        var r := ReadField(input);
        if r.Corruption? {
          msg := Some(r.message);
        } else {
          SetField(r.value.0);
          input := r.value.1;
        }
      }
    }
  }

  lemma PushNext(done: seq<Field>, fs: seq<Field>, i: nat)
    requires i < |fs|
    ensures Encode(done + fs[..i + 1]) == Encode(done + fs[..i]) + EncodeField(fs[i])
  {
    hide Encode, EncodeField;
    EncodePush(done + fs[..i], fs[i]);
    assert done + fs[..i] + [fs[i]] == done + fs[..i + 1];
  }
}
