/**
 The manifest (db/version_set.cc:757-1001): a log of version edits. What LogAndApply puts
 into it, and what Recover gets out of it, whole or cut off anywhere.
 */
module Manifest {
  import opened Keys
  import opened Tables
  import opened Coding
  import opened Builder
  import opened VersionEdits
  import C = Comparators
  import Log

  // What orders the tables of a level. The user's comparator is the rank it gives a key.
  function MetaKey(rank: Bytes -> UserKey): Meta -> FileKey {
    (m: Meta) => FileKey(rank(C.UserPart(m.smallest)), C.TagPart(m.smallest), m.number)
  }

  // The part of an edit that the builder applies.
  function FilesIn(e: Edit): FileEdit<Meta> {
    FileEdit((set d | d in e.deleted), e.added)
  }

  function AllFiles(es: seq<Edit>): (r: seq<FileEdit<Meta>>)
    ensures |r| == |es|
  {
    seq(|es|, i requires 0 <= i < |es| => FilesIn(es[i]))
  }

  lemma AllFilesPush(es: seq<Edit>, e: Edit)
    ensures AllFiles(es + [e]) == AllFiles(es) + [FilesIn(e)]
  {
  }

  lemma AllFilesPrefix(es: seq<Edit>, n: nat)
    requires n <= |es|
    ensures AllFiles(es[..n]) == AllFiles(es)[..n]
  {
  }

  /* ---- what a list of edits says ---- */

  function LogIn(e: Edit): Option<nat> { e.logNumber }
  function PrevLogIn(e: Edit): Option<nat> { e.prevLogNumber }
  function NextFileIn(e: Edit): Option<nat> { e.nextFile }
  function SequenceIn(e: Edit): Option<nat> { e.lastSequence }

  // The last edit that has the number decides.
  function Latest(number: Edit -> Option<nat>, es: seq<Edit>): Option<nat> {
    if es == [] then None
    else
      var n := |es| - 1;
      if number(es[n]).Some? then number(es[n]) else Latest(number, es[..n])
  }

  lemma LatestPush(number: Edit -> Option<nat>, es: seq<Edit>, e: Edit)
    ensures Latest(number, es + [e]) == if number(e).Some? then number(e) else Latest(number, es)
  {
    assert (es + [e])[..|es|] == es;
  }

  // The numbers found so far in a manifest (version_set.cc:916).
  datatype Numbers = Numbers(log: Option<nat>, prevLog: Option<nat>, nextFile: Option<nat>, lastSequence: Option<nat>) {
    function Then(e: Edit): Numbers {
      Numbers(if e.logNumber.Some? then e.logNumber else log, if e.prevLogNumber.Some? then e.prevLogNumber else prevLog,
              if e.nextFile.Some? then e.nextFile else nextFile, if e.lastSequence.Some? then e.lastSequence else lastSequence)
    }
  }

  function NumbersIn(es: seq<Edit>): Numbers {
    Numbers(Latest(LogIn, es), Latest(PrevLogIn, es), Latest(NextFileIn, es), Latest(SequenceIn, es))
  }

  lemma NumbersPush(es: seq<Edit>, e: Edit)
    ensures NumbersIn(es + [e]) == NumbersIn(es).Then(e)
  {
    LatestPush(LogIn, es, e);
    LatestPush(PrevLogIn, es, e);
    LatestPush(NextFileIn, es, e);
    LatestPush(SequenceIn, es, e);
  }

  // The compaction pointers after some changes, in order.
  function Pointed(ps: seq<Bytes>, changes: seq<(nat, Bytes)>): (r: seq<Bytes>)
    ensures |r| == |ps|
  {
    if changes == [] then ps
    else
      var n := |changes| - 1;
      var before := Pointed(ps, changes[..n]);
      if changes[n].0 < |ps| then before[changes[n].0 := changes[n].1] else before
  }

  function PointedBy(ps: seq<Bytes>, es: seq<Edit>): (r: seq<Bytes>)
    ensures |r| == |ps|
  {
    if es == [] then ps else Pointed(PointedBy(ps, es[..|es| - 1]), es[|es| - 1].pointers)
  }

  // What LogAndApply leaves in the version set.
  datatype Logged = Logged(version: Levels<Meta>, logNumber: nat, prevLogNumber: nat, nextFile: nat, lastSequence: nat)

  ghost predicate Replays(key: Meta -> FileKey, es: seq<Edit>, r: Logged) {
    && IsChainVersion(key, r.version, AllFiles(es))
    && var n := NumbersIn(es);
       && n.log == Some(r.logNumber) && n.nextFile == Some(r.nextFile) && n.lastSequence == Some(r.lastSequence)
       && r.prevLogNumber == if n.prevLog.Some? then n.prevLog.value else 0
  }

  lemma ReplaysOne(key: Meta -> FileKey, es: seq<Edit>, r: Logged, r': Logged)
    requires Replays(key, es, r) && Replays(key, es, r')
    ensures r == r'
  {
    ChainVersionUnique(key, r.version, r'.version, AllFiles(es));
  }

  /* ---- the files a manifest lists ---- */

  ghost predicate LevelsFit(v: Levels<Meta>) {
    forall l, f :: 0 <= l < NUM_LEVELS && f in v[l] ==> MetaFits(f)
  }

  ghost predicate LevelsOneEach(key: Meta -> FileKey, v: Levels<Meta>) {
    forall l :: 0 <= l < NUM_LEVELS ==> OneEach(key, v[l])
  }

  lemma {:induction false} GatheredFit(key: Meta -> FileKey, es: seq<Edit>, l: nat)
    requires forall e :: e in es ==> EditFits(e)
    ensures forall f :: f in Gathered(key, AllFiles(es), l).1 ==> MetaFits(f)
  {
    if es != [] {
      var n := |es| - 1;
      AllFilesPrefix(es, n);
      GatheredFit(key, es[..n], l);
      assert es[n] in es;
    }
  }

  lemma {:induction false} GatheredOneEach(key: Meta -> FileKey, edits: seq<FileEdit<Meta>>, l: nat)
    requires AddedOnce(key, edits)
    ensures forall f, g :: f in Gathered(key, edits, l).1 && g in Gathered(key, edits, l).1 && key(f).number == key(g).number ==> f == g
  {
    if edits != [] {
      var n := |edits| - 1;
      AddedOncePrefix(key, edits, n);
      GatheredOneEach(key, edits[..n], l);
      AddedOneEach(key, edits[n].added, l);
    }
  }

  lemma AddedOneEach(key: Meta -> FileKey, added: seq<(nat, Meta)>, l: nat)
    requires NumbersOnce(key, added)
    ensures forall f, g :: f in AddedAt(added, l) && g in AddedAt(added, l) && key(f).number == key(g).number ==> f == g
    ensures forall f :: f in AddedAt(added, l) ==> key(f).number in AddedNumbers(key, added, l)
  {
    forall f, g | f in AddedAt(added, l) && g in AddedAt(added, l) && key(f).number == key(g).number
      ensures f == g
    {
      var i :| 0 <= i < |added| && added[i] == (l, f);
      var j :| 0 <= j < |added| && added[j] == (l, g);
      assert i == j || i < j || j < i;
    }
  }

  // A version that a manifest chain leads to can be listed in the next manifest.
  lemma ChainListable(key: Meta -> FileKey, v: Levels<Meta>, es: seq<Edit>)
    requires IsChainVersion(key, v, AllFiles(es)) && AddedOnce(key, AllFiles(es))
    requires forall e :: e in es ==> EditFits(e)
    ensures LevelsFit(v) && LevelsOneEach(key, v) && AllInOrder(key, v)
  {
    forall l | 0 <= l < NUM_LEVELS
      ensures OneEach(key, v[l]) && forall f :: f in v[l] ==> MetaFits(f)
    {
      ChainWithinGathered(key, AllFiles(es), l);
      GatheredFit(key, es, l);
      GatheredOneEach(key, AllFiles(es), l);
      assert forall f :: f in v[l] ==> f in FileSet(v[l]);
    }
  }

  /* ---- the snapshot a manifest starts with (version_set.cc:1088) ---- */

  function PointersSet(ps: seq<Bytes>, n: nat): seq<(nat, Bytes)>
    requires n <= |ps|
  {
    if n == 0 then []
    else PointersSet(ps, n - 1) + if ps[n - 1] == [] then [] else [(n - 1, ps[n - 1])]
  }

  function Listed(v: Levels<Meta>, n: nat): seq<(nat, Meta)>
    requires n <= NUM_LEVELS
  {
    if n == 0 then [] else Listed(v, n - 1) + At(n - 1, v[n - 1])
  }

  function SnapshotOf(name: Bytes, ps: seq<Bytes>, v: Levels<Meta>): Edit
    requires |ps| == NUM_LEVELS
  {
    Edit(Some(name), None, None, None, None, PointersSet(ps, NUM_LEVELS), [], Listed(v, NUM_LEVELS))
  }

  // The files a snapshot adds do not depend on its pointers.
  lemma SnapshotFiles(name: Bytes, ps: seq<Bytes>, v: Levels<Meta>)
    requires |ps| == NUM_LEVELS
    ensures AllFiles([SnapshotOf(name, ps, v)]) == [FileEdit({}, Listed(v, NUM_LEVELS))]
  {
    assert (set d: (nat, nat) | d in []) == {};
    assert FilesIn(SnapshotOf(name, ps, v)) == FileEdit({}, Listed(v, NUM_LEVELS));
  }

  lemma {:induction false} PointersListed(ps: seq<Bytes>, n: nat)
    requires n <= |ps| <= NUM_LEVELS && forall p :: p in ps ==> |p| < TWO32
    ensures forall p :: p in PointersSet(ps, n) ==> p.0 < n && |p.1| < TWO32
  {
    if n > 0 {
      PointersListed(ps, n - 1);
    }
  }

  lemma {:induction false} FilesListed(key: Meta -> FileKey, v: Levels<Meta>, n: nat)
    requires n <= NUM_LEVELS && AllInOrder(key, v) && LevelsFit(v) && LevelsOneEach(key, v)
    ensures forall a :: a in Listed(v, n) ==> a.0 < n && MetaFits(a.1)
    ensures NumbersOnce(key, Listed(v, n))
    ensures forall l: nat :: l < NUM_LEVELS ==> AddedAt(Listed(v, n), l) == if l < n then FileSet(v[l]) else {}
  {
    if n > 0 {
      FilesListed(key, v, n - 1);
      var at := At(n - 1, v[n - 1]);
      AtOnce(key, n - 1, v[n - 1]);
      assert Listed(v, n) == Listed(v, n - 1) + at;
      forall l: nat | l < NUM_LEVELS
        ensures AddedAt(Listed(v, n), l) == AddedAt(Listed(v, n - 1), l) + AddedAt(at, l)
      {
      }
    }
  }

  lemma AtOnce(key: Meta -> FileKey, level: nat, files: seq<Meta>)
    requires InOrder(key, files) && OneEach(key, files)
    ensures NumbersOnce(key, At(level, files))
    ensures forall l: nat :: AddedAt(At(level, files), l) == if l == level then FileSet(files) else {}
    ensures forall a :: a in At(level, files) ==> a.0 == level && a.1 in files
  {
    var at := At(level, files);
    forall i, j | 0 <= i < j < |files|
      ensures key(files[i]).number != key(files[j]).number
    {
      assert KeyBefore(key(files[i]), key(files[j]));
      assert files[i] in files && files[j] in files;
    }
    forall f | f in files
      ensures (level, f) in at
    {
      var i :| 0 <= i < |files| && files[i] == f;
      assert at[i] == (level, f);
    }
  }

  lemma SnapshotFits(key: Meta -> FileKey, name: Bytes, ps: seq<Bytes>, v: Levels<Meta>)
    requires |ps| == NUM_LEVELS && |name| < TWO32 && forall p :: p in ps ==> |p| < TWO32
    requires AllInOrder(key, v) && LevelsFit(v) && LevelsOneEach(key, v)
    ensures EditFits(SnapshotOf(name, ps, v)) && LevelsKnown(SnapshotOf(name, ps, v))
    ensures AddedOnce(key, AllFiles([SnapshotOf(name, ps, v)])) && IsChainVersion(key, v, AllFiles([SnapshotOf(name, ps, v)]))
  {
    var e := SnapshotOf(name, ps, v);
    PointersListed(ps, NUM_LEVELS);
    FilesListed(key, v, NUM_LEVELS);
    var es := AllFiles([e]);
    assert es == [FilesIn(e)] && es[..0] == [];
    assert EditOk(es[0]);
    forall l | 0 <= l < NUM_LEVELS
      ensures FileSet(v[l]) == Chain(key, es, l)
    {
      assert DeletedAt(es[0].deleted, l) == {};
    }
  }

  /* ---- a manifest that LogAndApply wrote ---- */

  // The records are edits that fit, each after the first with the numbers to go with it.
  ghost predicate Written(key: Meta -> FileKey, name: Bytes, records: seq<Bytes>, es: seq<Edit>, states: seq<Logged>) {
    && |records| == |es| == |states|
    && (forall i :: 0 <= i < |es| ==> records[i] == Encode(Fields(es[i])) && GoodEdit(es[i], name))
    && AddedOnce(key, AllFiles(es))
    && (forall i :: 1 <= i < |es| ==> Replays(key, es[..i + 1], states[i]))
    && (es != [] ==> NoNumbers(es[0]) && es[0].comparator == Some(name))
  }

  ghost predicate GoodEdit(e: Edit, name: Bytes) {
    EditFits(e) && LevelsKnown(e) && (e.comparator.Some? ==> e.comparator.value == name)
  }

  predicate NoNumbers(e: Edit) {
    e.logNumber.None? && e.prevLogNumber.None? && e.nextFile.None? && e.lastSequence.None?
  }

  lemma GoodParts(e: Edit, name: Bytes)
    requires GoodEdit(e, name)
    ensures EditFits(e) && NumberFits(e.logNumber) && NumberFits(e.prevLogNumber)
    ensures forall p :: p in e.pointers ==> p.0 < NUM_LEVELS && |p.1| < TWO32
  {
  }

  lemma WrittenParts(key: Meta -> FileKey, name: Bytes, records: seq<Bytes>, es: seq<Edit>, states: seq<Logged>)
    requires Written(key, name, records, es, states)
    ensures forall e :: e in es ==> EditFits(e)
    ensures |es| >= 2 ==> IsChainVersion(key, states[|states| - 1].version, AllFiles(es))
  {
    hide EditFits, LevelsKnown, AddedOnce, IsChainVersion, AllFiles, Latest;
    if |es| >= 2 {
      var n := |es| - 1;
      assert es[..n + 1] == es;
    }
  }

  // A manifest with only its snapshot.
  lemma StartsWritten(key: Meta -> FileKey, name: Bytes, ps: seq<Bytes>, v: Levels<Meta>, e: Edit, record: Bytes)
    requires |ps| == NUM_LEVELS && |name| < TWO32 && forall p :: p in ps ==> |p| < TWO32
    requires AllInOrder(key, v) && LevelsFit(v) && LevelsOneEach(key, v)
    requires e == SnapshotOf(name, ps, v) && record == Encode(Fields(e))
    ensures Written(key, name, [record], [e], [Logged(v, 0, 0, 0, 0)]) && IsChainVersion(key, v, AllFiles([e]))
  {
    hide Encode, Fields, AllInOrder, LevelsFit, LevelsOneEach, AddedOnce, IsChainVersion, EditFits, LevelsKnown, AllFiles;
    SnapshotFits(key, name, ps, v);
  }

  lemma WrittenPush(key: Meta -> FileKey, name: Bytes, records: seq<Bytes>, es: seq<Edit>, states: seq<Logged>, e: Edit, r: Logged)
    requires Written(key, name, records, es, states) && es != []
    requires GoodEdit(e, name) && AddedOnce(key, AllFiles(es + [e])) && Replays(key, es + [e], r)
    ensures Written(key, name, records + [Encode(Fields(e))], es + [e], states + [r])
  {
    var es' := es + [e];
    forall i | 1 <= i < |es'|
      ensures Replays(key, es'[..i + 1], (states + [r])[i])
    {
      if i < |es| {
        assert es'[..i + 1] == es[..i + 1];
      } else {
        assert es'[..i + 1] == es';
      }
    }
  }

  // One more edit with all its numbers.
  lemma ReplaysPush(key: Meta -> FileKey, es: seq<Edit>, e: Edit, v: Levels<Meta>)
    requires e.logNumber.Some? && e.prevLogNumber.Some? && e.nextFile.Some? && e.lastSequence.Some?
    requires IsChainVersion(key, v, AllFiles(es + [e]))
    ensures Replays(key, es + [e], Logged(v, e.logNumber.value, e.prevLogNumber.value, e.nextFile.value, e.lastSequence.value))
  {
    NumbersPush(es, e);
  }

  /* ---- reading a manifest ---- */

  datatype Loading = Loading(edits: seq<Edit>, error: Option<string>)

  // version_set.cc:934: a record is an edit of a store with this comparator, or an error.
  function Accept(record: Bytes, name: Bytes, es: seq<Edit>): Loading {
    var d := Decode(record, Cleared([]));
    if d.1.Some? then Loading(es, d.1)
    else if d.0.comparator.Some? && d.0.comparator.value != name then Loading(es, Some("does not match existing comparator"))
    else Loading(es + [d.0], None)
  }

  // version_set.cc:933: the edits up to the end of the log or the first error.
  function Load(s: Log.State, name: Bytes, es: seq<Edit>): Loading
    decreases |s.buffer| + |s.rest|
  {
    var next := Log.ReadLogical(s, false, []);
    if next.state.drops > 0 then Loading(es, Some("log corruption"))
    else if next.record.None? then Loading(es, None)
    else
      var a := Accept(next.record.value, name, es);
      if a.error.Some? then a else Load(next.state, name, a.edits)
  }

  // version_set.cc:974
  function Missing(n: Numbers): Option<string> {
    if n.nextFile.None? then Some("no meta-nextfile entry in descriptor")
    else if n.log.None? then Some("no meta-lognumber entry in descriptor")
    else if n.lastSequence.None? then Some("no last-sequence-number entry in descriptor")
    else None
  }

  lemma {:induction false} LoadExtends(s: Log.State, name: Bytes, es: seq<Edit>)
    ensures es <= Load(s, name, es).edits
    decreases |s.buffer| + |s.rest|
  {
    var next := Log.ReadLogical(s, false, []);
    if next.state.drops == 0 && next.record.Some? {
      var a := Accept(next.record.value, name, es);
      if a.error.None? {
        LoadExtends(next.state, name, a.edits);
      }
    }
  }

  // Every edit that is loaded fits.
  lemma {:induction false} LoadFits(s: Log.State, name: Bytes, es: seq<Edit>)
    requires forall e :: e in es ==> EditFits(e) && LevelsKnown(e)
    ensures forall e :: e in Load(s, name, es).edits ==> EditFits(e) && LevelsKnown(e)
    decreases |s.buffer| + |s.rest|
  {
    hide EditFits, LevelsKnown;
    var next := Log.ReadLogical(s, false, []);
    if next.state.drops == 0 && next.record.Some? {
      assert EditFits(Cleared([])) && LevelsKnown(Cleared([])) by {
        ClearedFits();
      }
      DecodeFits(next.record.value, Cleared([]));
      var a := Accept(next.record.value, name, es);
      if a.error.None? {
        LoadFits(next.state, name, a.edits);
      }
    }
  }

  lemma ClearedFits()
    ensures EditFits(Cleared([])) && LevelsKnown(Cleared([]))
  {
  }

  /* ---- what was written is read ---- */

  lemma AcceptsWritten(e: Edit, name: Bytes, es: seq<Edit>)
    requires GoodEdit(e, name)
    ensures Accept(Encode(Fields(e)), name, es) == Loading(es + [e], None)
  {
    EditRoundTrip(e, []);
    assert [] + e.pointers == e.pointers;
  }

  // The records of a log that reads without a report, if edits, are what is loaded.
  lemma {:induction false} LoadsRecords(s: Log.State, name: Bytes, sofar: seq<Bytes>, records: seq<Bytes>, es: seq<Edit>, todo: seq<Edit>)
    requires Log.ReadRecords(s, sofar).1 == sofar + records && Log.ReadRecords(s, sofar).0.drops == 0
    requires |records| == |todo|
    requires forall i :: 0 <= i < |todo| ==> records[i] == Encode(Fields(todo[i])) && GoodEdit(todo[i], name)
    ensures Load(s, name, es) == Loading(es + todo, None)
    decreases |s.buffer| + |s.rest|
  {
    hide GoodEdit, Encode, Fields, Accept;
    var next := Log.ReadLogical(s, false, []);
    Log.RecordsDrops(s, sofar);
    if next.record.None? {
      Log.LogicalDrops(s, false, []);
      assert |sofar + records| == |sofar|;
      assert es + todo == es;
    } else {
      var record := next.record.value;
      Log.RecordsDrops(next.state, sofar + [record]);
      assert sofar + [record] <= sofar + records;
      assert (sofar + records)[|sofar|] == record;
      assert records[0] == record;
      AcceptsWritten(todo[0], name, es);
      assert sofar + [record] + records[1..] == sofar + records;
      assert es + [todo[0]] + todo[1..] == es + todo;
      LoadsRecords(next.state, name, sofar + [record], records[1..], es + [todo[0]], todo[1..]);
    }
  }

  // A manifest cut off anywhere loads as the edits whose records are whole, all of them.
  lemma LoadsWritten(key: Meta -> FileKey, name: Bytes, file: Bytes, records: seq<Bytes>, es: seq<Edit>, states: seq<Logged>) returns (k: nat)
    requires Written(key, name, records, es, states) && file <= Log.LogOf(records)
    ensures k <= |es| && Load(Log.Opened(file), name, []) == Loading(es[..k], None)
    ensures |Log.LogOf(records[..k])| <= |file| && (k < |records| ==> |file| < |Log.LogOf(records[..k + 1])|)
  {
    hide Log.LogOf, Log.ReadRecords, Load;
    k := Log.CrashPrefix(file, records);
    assert [] + records[..k] == records[..k] && [] + es[..k] == es[..k];
    LoadsRecords(Log.Opened(file), name, [], records[..k], [], es[..k]);
  }

  // With less than the first edit after the snapshot, numbers are missing.
  lemma TooShort(key: Meta -> FileKey, name: Bytes, records: seq<Bytes>, es: seq<Edit>, states: seq<Logged>, k: nat)
    requires Written(key, name, records, es, states) && k <= |es|
    ensures Missing(NumbersIn(es[..k])).Some? <==> k < 2
  {
    if k == 1 {
      assert es[..1] == [] + [es[0]];
      NumbersPush([], es[0]);
    } else if k >= 2 {
      assert Replays(key, es[..k - 1 + 1], states[k - 1]);
    }
  }

  /* ---- the version set ---- */

  // version_set.cc:802-814: the numbers an edit lacks, and those that always go with it.
  function Filled(e: Edit, logNumber: nat, prevLogNumber: nat, nextFile: nat, lastSequence: nat): Edit {
    e.(logNumber := if e.logNumber.Some? then e.logNumber else Some(logNumber),
       prevLogNumber := if e.prevLogNumber.Some? then e.prevLogNumber else Some(prevLogNumber),
       nextFile := Some(nextFile), lastSequence := Some(lastSequence))
  }

  lemma NothingYet(key: Meta -> FileKey, ps: seq<Bytes>)
    ensures NumbersIn([]) == Numbers(None, None, None, None) && PointedBy(ps, []) == ps
    ensures AllFiles([]) == [] && forall l :: Gathered(key, [], l) == ({}, {})
  {
  }

  lemma DecodedPointers(record: Bytes, e: Edit)
    requires Decode(record, Cleared([])).0 == e
    ensures forall p :: p in e.pointers ==> p.0 < NUM_LEVELS && |p.1| < TWO32
  {
    hide Decode;
    ClearedFits();
    DecodeFits(record, Cleared([]));
  }

  // What is accepted on the way is part of what is loaded.
  lemma AcceptedOnce(key: Meta -> FileKey, s: Log.State, name: Bytes, es: seq<Edit>)
    ensures var next := Log.ReadLogical(s, false, []);
            (next.state.drops == 0 && next.record.Some? && AddedOnce(key, AllFiles(Load(s, name, es).edits)) ==>
              AddedOnce(key, AllFiles(Accept(next.record.value, name, es).edits)))
  {
    hide AddedOnce, Accept, AllFiles, Log.ReadLogical;
    var next := Log.ReadLogical(s, false, []);
    if next.state.drops == 0 && next.record.Some? && AddedOnce(key, AllFiles(Load(s, name, es).edits)) {
      var a, all := Accept(next.record.value, name, es), Load(s, name, es).edits;
      if a.error.None? {
        LoadExtends(next.state, name, a.edits);
      }
      assert a.edits == all[..|a.edits|];
      AllFilesPrefix(all, |a.edits|);
      AddedOncePrefix(key, AllFiles(all), |a.edits|);
    }
  }

  lemma {:induction false} LatestFits(number: Edit -> Option<nat>, es: seq<Edit>)
    requires forall e :: e in es ==> NumberFits(number(e))
    ensures NumberFits(Latest(number, es))
  {
    if es != [] {
      LatestFits(number, es[..|es| - 1]);
      assert es[|es| - 1] in es;
    }
  }

  lemma LoadedFits(key: Meta -> FileKey, s: Log.State, name: Bytes, v: Levels<Meta>)
    requires AddedOnce(key, AllFiles(Load(s, name, []).edits)) && IsChainVersion(key, v, AllFiles(Load(s, name, []).edits))
    ensures LevelsFit(v) && LevelsOneEach(key, v) && AllInOrder(key, v)
    ensures var n := NumbersIn(Load(s, name, []).edits);
            NumberFits(n.log) && NumberFits(n.prevLog) && NumberFits(n.nextFile) && NumberFits(n.lastSequence)
  {
    hide Load, AddedOnce, IsChainVersion, Latest;
    var es := Load(s, name, []).edits;
    LoadFits(s, name, []);
    ChainListable(key, v, es);
    LatestFits(LogIn, es);
    LatestFits(PrevLogIn, es);
    LatestFits(NextFileIn, es);
    LatestFits(SequenceIn, es);
  }

  class VersionSet {
    const name: Bytes
    const key: Meta -> FileKey
    var current: Levels<Meta>
    var nextFileNumber: nat
    var manifestFileNumber: nat
    var lastSequence: nat
    var logNumber: nat
    var prevLogNumber: nat
    var compactPointer: seq<Bytes>
    var descriptor: Log.Writer?
    // The edits in the current manifest, and what each left behind.
    ghost var edits: seq<Edit>
    ghost var states: seq<Logged>

    // What the version set would be if it were recovered now.
    ghost predicate LastState(r: Logged)
      reads this
    {
      && r.version == current && r.logNumber == logNumber && r.prevLogNumber == prevLogNumber
      && r.nextFile <= nextFileNumber && r.lastSequence <= lastSequence
    }

    ghost predicate FieldsOk()
      reads this
    {
      && |name| < TWO32 && |compactPointer| == NUM_LEVELS && (forall p :: p in compactPointer ==> |p| < TWO32)
      && AllInOrder(key, current) && LevelsFit(current) && LevelsOneEach(key, current)
      && nextFileNumber < TWO64 && lastSequence < TWO64 && logNumber < TWO64 && prevLogNumber < TWO64
    }

    ghost predicate Valid()
      reads this, descriptor
    {
      && FieldsOk()
      && (descriptor != null ==>
            && descriptor.Valid() && |edits| >= 2
            && Written(key, name, descriptor.records, edits, states) && LastState(states[|states| - 1]))
    }

    // version_set.cc:757
    constructor (name: Bytes, rank: Bytes -> UserKey)
      requires |name| < TWO32
      ensures Valid() && descriptor == null && this.name == name && key == MetaKey(rank)
      ensures current == Nothing() && compactPointer == NoPointers() && nextFileNumber == 2
      ensures lastSequence == logNumber == prevLogNumber == 0
    {
      this.name, key := name, MetaKey(rank);
      current, compactPointer := Nothing(), NoPointers();
      nextFileNumber, manifestFileNumber, lastSequence, logNumber, prevLogNumber := 2, 0, 0, 0, 0;
      descriptor, edits, states := null, [], [];
    }

    // version_set.h:194
    method NewFileNumber() returns (n: nat)
      requires Valid() && nextFileNumber + 1 < TWO64
      modifies this
      ensures Valid() && n == old(nextFileNumber) && nextFileNumber == n + 1
      ensures current == old(current) && descriptor == old(descriptor) && edits == old(edits) && states == old(states)
      ensures logNumber == old(logNumber) && prevLogNumber == old(prevLogNumber) && lastSequence == old(lastSequence)
    {
      hide Written;
      n := nextFileNumber;
      nextFileNumber := n + 1;
    }

    // version_set.h:215
    method SetLastSequence(s: nat)
      requires Valid() && lastSequence <= s < TWO64
      modifies this
      ensures Valid() && lastSequence == s
      ensures current == old(current) && descriptor == old(descriptor) && edits == old(edits) && states == old(states)
      ensures logNumber == old(logNumber) && prevLogNumber == old(prevLogNumber) && nextFileNumber == old(nextFileNumber)
    {
      lastSequence := s;
    }

    // The edits before the next one: a new manifest starts with a snapshot.
    ghost function Before(): seq<Edit>
      reads this
      requires |compactPointer| == NUM_LEVELS
    {
      if descriptor == null then [SnapshotOf(name, compactPointer, current)] else edits
    }

    // version_set.cc:1088
    method WriteSnapshot() returns (record: Bytes)
      requires FieldsOk()
      ensures record == Encode(Fields(SnapshotOf(name, compactPointer, current)))
    {
      hide Encode, Fields, AllInOrder, LevelsFit, LevelsOneEach;
      var edit := new VersionEdit();
      edit.comparator := Some(name);
      for level := 0 to NUM_LEVELS
        invariant edit.Value() == Cleared(PointersSet(compactPointer, level)).(comparator := Some(name))
      {
        if compactPointer[level] != [] {
          edit.pointers := edit.pointers + [(level, compactPointer[level])];
        } else {
          AppendNothing(edit.pointers);
        }
      }
      for level := 0 to NUM_LEVELS
        invariant edit.Value() == Cleared(PointersSet(compactPointer, NUM_LEVELS)).(comparator := Some(name), added := Listed(current, level))
      {
        var files := current[level];
        AppendNothing(Listed(current, level));
        for i := 0 to |files|
          invariant edit.Value() == Cleared(PointersSet(compactPointer, NUM_LEVELS)).(comparator := Some(name),
                                      added := Listed(current, level) + At(level, files)[..i])
        {
          edit.AddFile(level, files[i]);
          SlicePush(At(level, files), 0, i);
          Join(Listed(current, level), At(level, files)[..i], [(level, files[i])]);
        }
        assert At(level, files)[..|files|] == At(level, files);
      }
      record := edit.EncodeTo();
    }

    // version_set.cc:828: a new manifest, with a snapshot of what there is.
    method StartManifest()
      requires FieldsOk() && descriptor == null
      modifies this`descriptor, this`edits, this`states
      ensures descriptor != null && fresh(descriptor) && descriptor.Valid()
      ensures edits == [SnapshotOf(name, compactPointer, current)] && descriptor.records == [Encode(Fields(edits[0]))]
      ensures Written(key, name, descriptor.records, edits, states) && IsChainVersion(key, current, AllFiles(edits))
    {
      hide Log.LogOf, Written, Encode, Fields, AllInOrder, LevelsFit, LevelsOneEach, IsChainVersion, AllFiles, SnapshotOf;
      descriptor := new Log.Writer();
      var record := WriteSnapshot();
      descriptor.AddRecord(record);
      ghost var e := SnapshotOf(name, compactPointer, current);
      edits, states := [e], [Logged(current, 0, 0, 0, 0)];
      StartsWritten(key, name, compactPointer, current, e, record);
    }

    // version_set.cc:802
    method Fill(edit: VersionEdit)
      requires FieldsOk() && GoodEdit(edit.Value(), name)
      modifies edit
      ensures edit.Value() == Filled(old(edit.Value()), logNumber, prevLogNumber, nextFileNumber, lastSequence)
      ensures GoodEdit(edit.Value(), name)
    {
      if edit.logNumber.None? {
        edit.logNumber := Some(logNumber);
      }
      if edit.prevLogNumber.None? {
        edit.prevLogNumber := Some(prevLogNumber);
      }
      edit.nextFile, edit.lastSequence := Some(nextFileNumber), Some(lastSequence);
    }

    // version_set.cc:652
    method MovePointers(changes: seq<(nat, Bytes)>)
      requires FieldsOk() && forall p :: p in changes ==> p.0 < NUM_LEVELS && |p.1| < TWO32
      modifies this`compactPointer
      ensures FieldsOk() && compactPointer == Pointed(old(compactPointer), changes)
    {
      for i := 0 to |changes|
        invariant FieldsOk() && compactPointer == Pointed(old(compactPointer), changes[..i])
      {
        assert changes[..i + 1][..i] == changes[..i];
        compactPointer := compactPointer[changes[i].0 := changes[i].1];
      }
      assert changes[..|changes|] == changes;
    }

    // version_set.cc:840-871: the record, then the new version.
    method Install(edit: VersionEdit, v: Levels<Meta>)
      requires FieldsOk() && descriptor != null && descriptor.Valid() && edits != []
      requires Written(key, name, descriptor.records, edits, states)
      requires GoodEdit(edit.Value(), name) && edit.logNumber.Some? && edit.prevLogNumber.Some?
      requires edit.nextFile == Some(nextFileNumber) && edit.lastSequence == Some(lastSequence)
      requires AddedOnce(key, AllFiles(edits + [edit.Value()])) && IsChainVersion(key, v, AllFiles(edits + [edit.Value()]))
      modifies this, descriptor
      ensures Valid() && descriptor == old(descriptor) && current == v
      ensures edits == old(edits) + [edit.Value()]
      ensures states == old(states) + [Logged(v, logNumber, prevLogNumber, nextFileNumber, lastSequence)]
      ensures descriptor.records == old(descriptor.records) + [Encode(Fields(edit.Value()))]
      ensures Some(logNumber) == edit.logNumber && Some(prevLogNumber) == edit.prevLogNumber
      ensures nextFileNumber == old(nextFileNumber) && lastSequence == old(lastSequence) && compactPointer == old(compactPointer)
    {
      hide Log.LogOf, Written, Encode, Fields, AllInOrder, LevelsFit, LevelsOneEach, IsChainVersion, AllFiles, AddedOnce, GoodEdit;
      ghost var e := edit.Value();
      ghost var r := Logged(v, e.logNumber.value, e.prevLogNumber.value, nextFileNumber, lastSequence);
      GoodParts(e, name);
      WrittenParts(key, name, descriptor.records, edits, states);
      ReplaysPush(key, edits, e, v);
      WrittenPush(key, name, descriptor.records, edits, states, e, r);
      ChainListable(key, v, edits + [e]);
      var record := edit.EncodeTo();
      descriptor.AddRecord(record);
      edits, states := edits + [e], states + [r];
      current, logNumber, prevLogNumber := v, edit.logNumber.value, edit.prevLogNumber.value;
    }

    // version_set.cc:801
    method LogAndApply(edit: VersionEdit)
      requires Valid() && GoodEdit(edit.Value(), name)
      requires edit.logNumber.Some? ==> logNumber <= edit.logNumber.value < nextFileNumber
      requires AddedOnce(key, AllFiles(Before() + [edit.Value()]))
      modifies this, edit, descriptor
      ensures Valid() && descriptor != null && (if old(descriptor) == null then fresh(descriptor) else descriptor == old(descriptor))
      ensures edit.Value() == Filled(old(edit.Value()), old(logNumber), old(prevLogNumber), nextFileNumber, lastSequence)
      ensures compactPointer == Pointed(old(compactPointer), edit.pointers)
      ensures old(descriptor) == null ==> |edits| == 2 && edits[0] == SnapshotOf(name, compactPointer, old(current)) && edits[1] == edit.Value()
      ensures old(descriptor) != null ==> edits == old(edits) + [edit.Value()] && states[..|states| - 1] == old(states)
      ensures forall l :: 0 <= l < NUM_LEVELS ==> FileSet(current[l]) == Edited(key, FileSet(old(current)[l]), FilesIn(edit.Value()), l)
      ensures Some(logNumber) == edit.logNumber && Some(prevLogNumber) == edit.prevLogNumber
      ensures nextFileNumber == old(nextFileNumber) && lastSequence == old(lastSequence)
      ensures states[|states| - 1] == Logged(current, logNumber, prevLogNumber, nextFileNumber, lastSequence)
    {
      hide Log.LogOf, Written, Encode, Fields, AllInOrder, LevelsFit, LevelsOneEach, IsChainVersion, AllFiles, AddedOnce, GoodEdit,
        EditFits, LevelsKnown, SnapshotOf, Edited, FileSet, Pointed;
      ghost var before := Before();
      var v := Prepare(edit);
      if descriptor == null {
        SnapshotFiles(name, old(compactPointer), current);
        SnapshotFiles(name, compactPointer, current);
        StartManifest();
      }
      AllFilesPush(before, edit.Value());
      AllFilesPush(edits, edit.Value());
      Install(edit, v);
    }

    // version_set.cc:801-821: the edit filled in, and the version it leads to.
    method Prepare(edit: VersionEdit) returns (v: Levels<Meta>)
      requires Valid() && GoodEdit(edit.Value(), name) && AddedOnce(key, AllFiles(Before() + [edit.Value()]))
      modifies edit, this`compactPointer
      ensures Valid() && GoodEdit(edit.Value(), name)
      ensures edit.Value() == Filled(old(edit.Value()), logNumber, prevLogNumber, nextFileNumber, lastSequence)
      ensures compactPointer == Pointed(old(compactPointer), edit.pointers)
      ensures AddedOnce(key, AllFiles(old(Before()) + [edit.Value()])) && IsChainVersion(key, v, AllFiles(old(Before()) + [edit.Value()]))
      ensures forall l :: 0 <= l < NUM_LEVELS ==> FileSet(v[l]) == Edited(key, FileSet(current[l]), FilesIn(edit.Value()), l)
    {
      hide Log.LogOf, Written, Encode, Fields, AllInOrder, LevelsFit, LevelsOneEach, IsChainVersion, AllFiles, AddedOnce, GoodEdit,
        EditFits, LevelsKnown, SnapshotOf, Edited, FileSet, Pointed;
      ghost var before, e := Before(), edit.Value();
      AllFilesPush(before, e);
      Fill(edit);
      assert FilesIn(edit.Value()) == FilesIn(e);
      AllFilesPush(before, edit.Value());
      GoodParts(edit.Value(), name);
      BeforeChain();
      v := ApplyNext(key, current, FilesIn(edit.Value()), AllFiles(before));
      MovePointers(edit.pointers);
    }

    // version_set.cc:1044
    method MarkFileNumberUsed(number: nat)
      modifies this`nextFileNumber
      ensures nextFileNumber == if old(nextFileNumber) <= number then number + 1 else old(nextFileNumber)
    {
      if nextFileNumber <= number {
        nextFileNumber := number + 1;
      }
    }

    // version_set.cc:934-966
    method TakeRecord(record: Bytes, builder: VersionBuilder<Meta>, numbers: Numbers, ghost es: seq<Edit>)
      returns (error: Option<string>, numbers': Numbers, ghost es': seq<Edit>)
      requires FieldsOk() && builder.Valid() && builder.key == key && builder.Gathers(AllFiles(es))
      requires numbers == NumbersIn(es) && AddedOnce(key, AllFiles(Accept(record, name, es).edits))
      modifies this`compactPointer, builder
      ensures FieldsOk() && builder.Valid() && builder.Gathers(AllFiles(es'))
      ensures Accept(record, name, es) == Loading(es', error)
      ensures numbers' == NumbersIn(es')
      ensures forall ps :: |ps| == NUM_LEVELS && old(compactPointer) == PointedBy(ps, es) ==> compactPointer == PointedBy(ps, es')
    {
      hide AddedOnce, Gathered, EditFits, LevelsKnown, AllInOrder, LevelsFit, LevelsOneEach, AllFiles, Latest, Decode, Pointed;
      numbers', es' := numbers, es;
      var edit := new VersionEdit();
      error := edit.DecodeFrom(record);
      if error.None? && edit.comparator.Some? && edit.comparator.value != name {
        error := Some("does not match existing comparator");
      }
      if error.None? {
        ghost var e := edit.Value();
        DecodedPointers(record, e);
        AllFilesPush(es, e);
        builder.ApplyNext(FilesIn(edit.Value()), AllFiles(es));
        MovePointers(edit.pointers);
        NumbersPush(es, e);
        numbers', es' := numbers.Then(edit.Value()), es + [e];
        assert es'[..|es|] == es;
      }
    }

    // The edits of a manifest, gathered in a builder (version_set.cc:916-969).
    method LoadEdits(file: Bytes) returns (builder: VersionBuilder<Meta>, numbers: Numbers, error: Option<string>, ghost es: seq<Edit>)
      requires FieldsOk() && current == Nothing()
      requires AddedOnce(key, AllFiles(Load(Log.Opened(file), name, []).edits))
      modifies this`compactPointer
      ensures FieldsOk() && Load(Log.Opened(file), name, []) == Loading(es, error)
      ensures fresh(builder) && builder.Valid() && builder.key == key && builder.Gathers(AllFiles(es))
      ensures numbers == NumbersIn(es)
      ensures compactPointer == PointedBy(old(compactPointer), es)
    {
      hide AddedOnce, Gathered, AllInOrder, LevelsFit, LevelsOneEach, AllFiles, Accept, Log.ReadLogical, PointedBy, NumbersIn;
      NothingYet(key, compactPointer);
      var reader := new Log.Reader(file);
      builder := new VersionBuilder(key, current);
      numbers, error, es := Numbers(None, None, None, None), None, [];
      var reading := true;
      while reading
        invariant reading ==> Load(Log.Opened(file), name, []) == Load(reader.Abs(), name, es) && error == None
        invariant !reading ==> Load(Log.Opened(file), name, []) == Loading(es, error)
        invariant fresh(reader) && fresh(builder) && builder.Valid() && builder.key == key && builder.Gathers(AllFiles(es))
        invariant numbers == NumbersIn(es)
        invariant FieldsOk() && compactPointer == PointedBy(old(compactPointer), es)
        decreases reading, |reader.buffer| + |reader.rest|
      {
        AcceptedOnce(key, reader.Abs(), name, es);
        var record := reader.ReadRecord();
        if reader.drops > 0 {
          error, reading := Some("log corruption"), false;
        } else if record.None? {
          reading := false;
        } else {
          error, numbers, es := TakeRecord(record.value, builder, numbers, es);
          reading := error.None?;
        }
      }
    }

    // version_set.cc:995-1000
    method Adopt(v: Levels<Meta>, n: Numbers, prev: nat)
      requires descriptor == null && |name| < TWO32 && |compactPointer| == NUM_LEVELS && (forall p :: p in compactPointer ==> |p| < TWO32)
      requires AllInOrder(key, v) && LevelsFit(v) && LevelsOneEach(key, v)
      requires Missing(n).None? && NumberFits(n.log) && NumberFits(n.nextFile) && NumberFits(n.lastSequence) && prev < TWO64
      modifies this
      ensures Valid() && descriptor == null && compactPointer == old(compactPointer)
      ensures current == v && Some(logNumber) == n.log && prevLogNumber == prev && Some(lastSequence) == n.lastSequence
      ensures Some(manifestFileNumber) == n.nextFile && nextFileNumber == (manifestFileNumber + 1) % TWO64
    {
      current, manifestFileNumber, nextFileNumber := v, n.nextFile.value, (n.nextFile.value + 1) % TWO64;
      lastSequence, logNumber, prevLogNumber := n.lastSequence.value, n.log.value, prev;
    }

    // version_set.cc:886: what the manifest's edits say becomes the state of a new version set.
    method Recover(file: Bytes) returns (status: Option<string>)
      requires Valid() && descriptor == null && current == Nothing()
      requires AddedOnce(key, AllFiles(Load(Log.Opened(file), name, []).edits))
      modifies this
      ensures descriptor == null
      ensures var l := Load(Log.Opened(file), name, []);
              && status == (if l.error.Some? then l.error else Missing(NumbersIn(l.edits)))
              && (status.None? ==>
                    && Valid()
                    && Replays(key, l.edits, Logged(current, logNumber, prevLogNumber, manifestFileNumber, lastSequence))
                    && nextFileNumber == (manifestFileNumber + 1) % TWO64)
              && compactPointer == PointedBy(old(compactPointer), l.edits)
              && (status.Some? ==>
                    && current == old(current) && logNumber == old(logNumber) && prevLogNumber == old(prevLogNumber)
                    && lastSequence == old(lastSequence) && manifestFileNumber == old(manifestFileNumber))
              && (l.error.Some? ==> nextFileNumber == old(nextFileNumber))
    {
      hide Log.LogOf, Load, Written, AddedOnce, IsChainVersion, AllFiles, AllInOrder, LevelsFit, LevelsOneEach, PointedBy, NumbersIn, Gathered;
      var builder, numbers, error; ghost var es;
      builder, numbers, error, es := LoadEdits(file);
      if error.Some? {
        return error;
      }
      status := Missing(numbers);
      var prev := if numbers.prevLog.Some? then numbers.prevLog.value else 0;
      MarkFileNumberUsed(prev);
      MarkFileNumberUsed(if numbers.log.Some? then numbers.log.value else 0);
      if status.None? {
        var v := builder.SaveReplayed(AllFiles(es));
        LoadedFits(key, Log.Opened(file), name, v);
        Adopt(v, numbers, prev);
      }
    }

    lemma BeforeChain()
      requires Valid()
      ensures IsChainVersion(key, current, AllFiles(Before()))
    {
      hide Log.LogOf, Written, IsChainVersion, AllFiles, SnapshotOf, AllInOrder, LevelsFit, LevelsOneEach;
      if descriptor == null {
        SnapshotFits(key, name, compactPointer, current);
      } else {
        WrittenParts(key, name, descriptor.records, edits, states);
      }
    }
  }

  function Nothing(): Levels<Meta> {
    [[], [], [], [], [], [], []]
  }

  function NoPointers(): (r: seq<Bytes>)
    ensures |r| == NUM_LEVELS
  {
    [[], [], [], [], [], [], []]
  }

  // A manifest cut off anywhere is recovered as of the last LogAndApply whose record is
  // whole in it: same files in every level, same log numbers, file number and last
  // sequence number. It cannot be recovered only when that takes it back before the first.
  method Reopen(db: VersionSet, rank: Bytes -> UserKey, file: Bytes) returns (again: VersionSet, status: Option<string>, ghost k: nat)
    requires db.Valid() && db.descriptor != null && db.key == MetaKey(rank) && file <= db.descriptor.dest
    ensures fresh(again) && k <= |db.edits| == |db.descriptor.records|
    ensures |Log.LogOf(db.descriptor.records[..k])| <= |file|
    ensures k < |db.edits| ==> |file| < |Log.LogOf(db.descriptor.records[..k + 1])|
    ensures file == db.descriptor.dest ==> k == |db.edits|
    ensures file == db.descriptor.dest ==> again.current == db.current && again.logNumber == db.logNumber && again.prevLogNumber == db.prevLogNumber
    ensures status.None? <==> k >= 2
    ensures k >= 2 ==>
              && again.Valid() && again.descriptor == null
              && Logged(again.current, again.logNumber, again.prevLogNumber, again.manifestFileNumber, again.lastSequence) == db.states[k - 1]
              && again.nextFileNumber == (again.manifestFileNumber + 1) % TWO64
              && again.compactPointer == PointedBy(NoPointers(), db.edits[..k])
  {
    hide Log.LogOf, Load, Replays, AddedOnce, AllFiles, PointedBy, Encode, Fields, AllInOrder, LevelsFit, LevelsOneEach, GoodEdit;
    again := new VersionSet(db.name, rank);
    ghost var records := db.descriptor.records;
    k := LoadsWritten(db.key, db.name, file, records, db.edits, db.states);
    if k < |records| {
      Log.LogGrows(records, k + 1);
    }
    AllFilesPrefix(db.edits, k);
    AddedOncePrefix(db.key, AllFiles(db.edits), k);
    TooShort(db.key, db.name, records, db.edits, db.states, k);
    status := again.Recover(file);
    if k >= 2 {
      ghost var r := Logged(again.current, again.logNumber, again.prevLogNumber, again.manifestFileNumber, again.lastSequence);
      assert db.edits[..k - 1 + 1] == db.edits[..k];
      ReplaysOne(db.key, db.edits[..k], r, db.states[k - 1]);
    }
  }
}
