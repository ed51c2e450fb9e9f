/**
 Which bytes are a version edit (db/version_edit.cc:108), said of the bytes alone: fields one
 after another, each a known tag and a body of its form, with a level that exists. Decoding
 any other bytes gives the message for the first field that is not one.
 */
module EditChecks {
  import opened Keys
  import opened Coding
  import opened Tables
  import opened VersionEdits

  ghost predicate IsLevelAnd(b: Bytes, level: nat, y: Bytes) {
    exists x: Bytes :: IsVarint32(x, level) && b == x + y
  }

  ghost predicate AreKeys(b: Bytes, smallest: Bytes, largest: Bytes) {
    exists x: Bytes, y: Bytes :: IsPrefixed(x, smallest) && IsPrefixed(y, largest) && b == x + y
  }

  ghost predicate IsMeta(b: Bytes, m: Meta) {
    exists x: Bytes, y: Bytes, z: Bytes ::
      IsVarint64(x, m.number) && IsVarint64(y, m.size) && AreKeys(z, m.smallest, m.largest) && b == x + (y + z)
  }

  ghost predicate IsBody(b: Bytes, f: Field) {
    match f
    case Comparator(name) => IsPrefixed(b, name)
    case LogNumber(n) => IsVarint64(b, n)
    case PrevLogNumber(n) => IsVarint64(b, n)
    case NextFileNumber(n) => IsVarint64(b, n)
    case LastSequence(n) => IsVarint64(b, n)
    case CompactPointer(l, key) => l < NUM_LEVELS && exists y :: IsLevelAnd(b, l, y) && IsPrefixed(y, key)
    case DeletedFile(l, n) => l < NUM_LEVELS && exists y :: IsLevelAnd(b, l, y) && IsVarint64(y, n)
    case NewFile(l, m) => l < NUM_LEVELS && exists y :: IsLevelAnd(b, l, y) && IsMeta(y, m)
  }

  ghost predicate IsField(b: Bytes, f: Field) {
    exists x: Bytes, y: Bytes :: IsVarint32(x, TagOf(f)) && IsBody(y, f) && b == x + y
  }

  ghost predicate AreFields(b: Bytes, fs: seq<Field>)
    decreases |fs|
  {
    if fs == [] then b == []
    else exists x, y :: IsField(x, fs[0]) && AreFields(y, fs[1..]) && b == x + y
  }

  /* ---- what is read is there ---- */

  lemma LevelFront(p: Bytes) returns (x: Bytes)
    requires GetLevel(p).Some?
    ensures IsVarint32(x, GetLevel(p).value.0) && p == x + GetLevel(p).value.1
  {
    hide DecodeVarint;
    x := VarintFront(p, 5, TWO32);
  }

  lemma LevelBehind(x: Bytes, level: nat, rest: Bytes)
    requires IsVarint32(x, level) && level < NUM_LEVELS
    ensures GetLevel(x + rest) == Some((level, rest))
  {
    hide DecodeVarint;
    VarintBehind(x, 5, TWO32, level, rest);
  }

  lemma WordFront(p: Bytes) returns (x: Bytes)
    requires DecodeVarint64(p).Some?
    ensures IsVarint64(x, DecodeVarint64(p).value.0) && p == x + DecodeVarint64(p).value.1
  {
    hide DecodeVarint;
    x := VarintFront(p, 10, TWO64);
  }

  lemma WordBehind(x: Bytes, n: nat, rest: Bytes)
    requires IsVarint64(x, n)
    ensures DecodeVarint64(x + rest) == Some((n, rest))
  {
    hide DecodeVarint;
    VarintBehind(x, 10, TWO64, n, rest);
  }

  lemma MetaFront(p: Bytes) returns (b: Bytes)
    requires GetMeta(p).Some?
    ensures IsMeta(b, GetMeta(p).value.0) && p == b + GetMeta(p).value.1
  {
    hide DecodeVarint64, DecodePrefixed, IsVarint64, IsPrefixed;
    var x := WordFront(p);
    var p1 := DecodeVarint64(p).value.1;
    var y := WordFront(p1);
    var p2 := DecodeVarint64(p1).value.1;
    var s := PrefixedFront(p2);
    var l := PrefixedFront(DecodePrefixed(p2).value.1);
    var rest := GetMeta(p).value.1;
    Join(s, l, rest);
    Join(y, s + l, rest);
    Join(x, y + (s + l), rest);
    var m := GetMeta(p).value.0;
    assert AreKeys(s + l, m.smallest, m.largest);
    b := x + (y + (s + l));
  }

  lemma MetaBehind(b: Bytes, m: Meta, rest: Bytes)
    requires IsMeta(b, m)
    ensures GetMeta(b + rest) == Some((m, rest))
  {
    hide DecodeVarint64, DecodePrefixed, IsVarint64, IsPrefixed;
    var x: Bytes, y: Bytes, z: Bytes :| IsVarint64(x, m.number) && IsVarint64(y, m.size) && AreKeys(z, m.smallest, m.largest) && b == x + (y + z);
    var s: Bytes, l: Bytes :| IsPrefixed(s, m.smallest) && IsPrefixed(l, m.largest) && z == s + l;
    Join(s, l, rest);
    Join(y, s + l, rest);
    Join(x, y + (s + l), rest);
    WordBehind(x, m.number, y + (s + l) + rest);
    WordBehind(y, m.size, s + l + rest);
    PrefixedBehind(s, m.smallest, l + rest);
    PrefixedBehind(l, m.largest, rest);
  }

  lemma NumberFront(tag: nat, p: Bytes) returns (b: Bytes)
    requires LOG_NUMBER <= tag <= LAST_SEQUENCE || tag == PREV_LOG_NUMBER
    requires GetNumber(p, tag).Some?
    ensures var f := GetNumber(p, tag).value.0; TagOf(f) == tag && IsBody(b, f) && p == b + GetNumber(p, tag).value.1
  {
    hide DecodeVarint64, IsVarint64;
    b := WordFront(p);
  }

  lemma LeveledFront(tag: nat, p: Bytes) returns (b: Bytes)
    requires tag == COMPACT_POINTER || tag == DELETED_FILE || tag == NEW_FILE
    requires GetBody(tag, p).Some?
    ensures var f := GetBody(tag, p).value.0; TagOf(f) == tag && IsBody(b, f) && p == b + GetBody(tag, p).value.1
  {
    hide GetLevel, GetMeta, DecodeVarint64, DecodePrefixed, IsVarint32, IsVarint64, IsPrefixed, IsMeta;
    var x := LevelFront(p);
    var level, p1 := GetLevel(p).value.0, GetLevel(p).value.1;
    var y: Bytes;
    if tag == COMPACT_POINTER {
      y := PrefixedFront(p1);
    } else if tag == DELETED_FILE {
      y := WordFront(p1);
    } else {
      y := MetaFront(p1);
    }
    b := x + y;
    assert IsLevelAnd(b, level, y);
    Join(x, y, GetBody(tag, p).value.1);
  }

  lemma BodyFront(tag: nat, p: Bytes) returns (b: Bytes)
    requires GetBody(tag, p).Some?
    ensures var f := GetBody(tag, p).value.0; TagOf(f) == tag && IsBody(b, f) && p == b + GetBody(tag, p).value.1
  {
    hide GetNumber, GetPointer, GetDeleted, GetNewFile, DecodePrefixed, IsPrefixed;
    if tag == COMPARATOR {
      b := PrefixedFront(p);
    } else if tag == COMPACT_POINTER || tag == DELETED_FILE || tag == NEW_FILE {
      b := LeveledFront(tag, p);
    } else {
      b := NumberFront(tag, p);
    }
  }

  lemma LeveledBehind(b: Bytes, f: Field, rest: Bytes)
    requires IsBody(b, f) && (f.CompactPointer? || f.DeletedFile? || f.NewFile?)
    ensures GetBody(TagOf(f), b + rest) == Some((f, rest))
  {
    hide GetLevel, GetMeta, DecodeVarint64, DecodePrefixed, IsVarint32, IsVarint64, IsPrefixed, IsMeta;
    match f
    case CompactPointer(l, key) =>
      var y :| IsLevelAnd(b, l, y) && IsPrefixed(y, key);
      LevelSplit(b, l, y, rest);
      PrefixedBehind(y, key, rest);
    case DeletedFile(l, n) =>
      var y :| IsLevelAnd(b, l, y) && IsVarint64(y, n);
      LevelSplit(b, l, y, rest);
      WordBehind(y, n, rest);
    case NewFile(l, m) =>
      var y :| IsLevelAnd(b, l, y) && IsMeta(y, m);
      LevelSplit(b, l, y, rest);
      MetaBehind(y, m, rest);
  }

  lemma LevelSplit(b: Bytes, level: nat, y: Bytes, rest: Bytes)
    requires IsLevelAnd(b, level, y) && level < NUM_LEVELS
    ensures GetLevel(b + rest) == Some((level, y + rest))
  {
    hide GetLevel, IsVarint32;
    var x: Bytes :| IsVarint32(x, level) && b == x + y;
    Join(x, y, rest);
    LevelBehind(x, level, y + rest);
  }

  lemma BodyBehind(b: Bytes, f: Field, rest: Bytes)
    requires IsBody(b, f)
    ensures GetBody(TagOf(f), b + rest) == Some((f, rest))
  {
    hide GetPointer, GetDeleted, GetNewFile, DecodePrefixed, DecodeVarint64, IsPrefixed, IsVarint64;
    match f
    case Comparator(name) => PrefixedBehind(b, name, rest);
    case LogNumber(n) => WordBehind(b, n, rest);
    case PrevLogNumber(n) => WordBehind(b, n, rest);
    case NextFileNumber(n) => WordBehind(b, n, rest);
    case LastSequence(n) => WordBehind(b, n, rest);
    case _ => LeveledBehind(b, f, rest);
  }

  lemma FieldFront(p: Bytes) returns (b: Bytes)
    requires ReadField(p).Ok?
    ensures IsField(b, ReadField(p).value.0) && p == b + ReadField(p).value.1
  {
    hide GetBody, DecodeVarint, IsBody;
    var x := VarintFront(p, 5, TWO32);
    var tag := DecodeVarint32(p).value;
    var y := BodyFront(tag.0, tag.1);
    Join(x, y, ReadField(p).value.1);
    assert IsVarint32(x, tag.0);
    b := x + y;
  }

  lemma FieldBehind(b: Bytes, f: Field, rest: Bytes)
    requires IsField(b, f)
    ensures ReadField(b + rest) == Ok((f, rest))
  {
    hide GetBody, DecodeVarint, IsBody;
    var x: Bytes, y: Bytes :| IsVarint32(x, TagOf(f)) && IsBody(y, f) && b == x + y;
    Join(x, y, rest);
    VarintBehind(x, 5, TWO32, TagOf(f), y + rest);
    BodyBehind(y, f, rest);
  }

  /* ---- whole edits ---- */

  lemma {:induction false} DecodeReads(p: Bytes, e: Edit) returns (fs: seq<Field>, x: Bytes, y: Bytes)
    ensures p == x + y && AreFields(x, fs) && Decode(p, e).0 == SetAll(e, fs)
    ensures y != [] ==> ReadField(y).Corruption?
    ensures Decode(p, e).1 == if y == [] then None else Some(ReadField(y).message)
    decreases |p|
  {
    hide ReadField, IsField, Set;
    if p == [] || ReadField(p).Corruption? {
      fs, x, y := [], [], p;
      assert x + y == p;
    } else {
      var f, rest := ReadField(p).value.0, ReadField(p).value.1;
      var b := FieldFront(p);
      ReadsLess(p);
      var fs1, x1;
      fs1, x1, y := DecodeReads(rest, Set(e, f));
      fs, x := [f] + fs1, b + x1;
      assert fs[1..] == fs1;
      Join(b, x1, y);
    }
  }

  lemma ReadsLess(p: Bytes)
    ensures ReadField(p).Ok? ==> |ReadField(p).value.1| < |p|
  {
  }

  lemma {:induction false} FieldsDecode(x: Bytes, fs: seq<Field>, y: Bytes, e: Edit)
    requires AreFields(x, fs)
    ensures Decode(x + y, e) == Decode(y, SetAll(e, fs))
    decreases |fs|
  {
    hide ReadField, IsField, Set;
    if fs == [] {
      assert x + y == y;
    } else {
      var b: Bytes, more: Bytes :| IsField(b, fs[0]) && AreFields(more, fs[1..]) && x == b + more;
      Join(b, more, y);
      FieldBehind(b, fs[0], more + y);
      ReadsLess(b + (more + y));
      FieldsDecode(more, fs[1..], y, Set(e, fs[0]));
    }
  }

  // Bytes decode without a message if and only if they are fields one after another; the
  // edit is then what the fields say.
  lemma AcceptedIff(p: Bytes, e: Edit, after: Edit)
    ensures Decode(p, e) == (after, None) <==> exists fs :: AreFields(p, fs) && after == SetAll(e, fs)
  {
    hide ReadField, SetAll, AreFields;
    if Decode(p, e) == (after, None) {
      var fs, x, y := DecodeReads(p, e);
      assert p == x + [] == x;
    }
    forall fs | AreFields(p, fs) && after == SetAll(e, fs)
      ensures Decode(p, e) == (after, None)
    {
      FieldsDecode(p, fs, [], e);
      assert p + [] == p;
    }
  }

  // The message for bytes that no field starts.
  ghost predicate Refuses(y: Bytes, message: string) {
    && y != [] && (forall b, f, rest :: IsField(b, f) ==> y != b + rest)
    && message == if DecodeVarint32(y).None? then "invalid tag" else Message(DecodeVarint32(y).value.0)
  }

  // Bytes that do not decode are fields up to the first place where none starts: the edit is
  // what those fields say, and the message names the tag there.
  lemma RefusedIff(p: Bytes, e: Edit, after: Edit, message: string)
    ensures Decode(p, e) == (after, Some(message)) <==>
      exists fs, x: Bytes, y: Bytes :: AreFields(x, fs) && Refuses(y, message) && p == x + y && after == SetAll(e, fs)
  {
    hide SetAll, AreFields, IsField;
    if Decode(p, e) == (after, Some(message)) {
      var fs, x, y := DecodeReads(p, e);
      Stops(y);
    }
    forall fs, x: Bytes, y: Bytes | AreFields(x, fs) && Refuses(y, message) && p == x + y && after == SetAll(e, fs)
      ensures Decode(p, e) == (after, Some(message))
    {
      FieldsDecode(x, fs, y, e);
      Stops(y);
    }
  }

  lemma Stops(y: Bytes)
    requires y != []
    ensures ReadField(y).Corruption? ==> Refuses(y, ReadField(y).message)
    ensures forall message :: Refuses(y, message) ==> ReadField(y) == Corruption(message)
  {
    hide GetBody, DecodeVarint, IsField;
    if ReadField(y).Ok? {
      var b := FieldFront(y);
    }
    forall b, f, rest | IsField(b, f) && y == b + rest
      ensures ReadField(y).Ok?
    {
      FieldBehind(b, f, rest);
    }
  }
}
