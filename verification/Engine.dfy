/**
 The database object (db/db_impl.cc): its fields, and its operations as steps of the
 store's state machine.
 */
module Engine {
  import opened Keys
  import opened FlatMap
  import opened Tables
  import opened Selection
  import opened Picking
  import opened OutputCutting
  import opened CompactionWork
  import opened Preservation
  import opened Versions
  import opened Store
  import opened StoreSteps
  import opened Runs
  import opened Builder

  /* ---- the memtable as a sorted list ---- */

  lemma InsertAtSorted(es: seq<Entry>, i: nat, e: Entry)
    requires Sorted(es) && i <= |es|
    requires forall j :: 0 <= j < i ==> Before(es[j], e)
    requires forall j :: i <= j < |es| ==> Before(e, es[j])
    ensures Sorted(es[..i] + [e] + es[i..])
  {
    var r := es[..i] + [e] + es[i..];
    assert forall a :: 0 <= a < i ==> r[a] == es[a];
    assert forall a :: i < a < |r| ==> r[a] == es[a - 1];
  }

  lemma InsertAtMembers(es: seq<Entry>, i: nat, e: Entry)
    requires i <= |es|
    ensures Members(es[..i] + [e] + es[i..]) == Members(es) + {e}
  {
    assert es == es[..i] + es[i..];
  }

  lemma LowerBoundSplits(es: seq<Entry>, e: Entry)
    requires Sorted(es) && forall x :: x in es ==> x.sn != e.sn
    ensures var i := LowerBound(es, e.Ik());
            && (forall j :: 0 <= j < i ==> Before(es[j], e))
            && (forall j :: i <= j < |es| ==> Before(e, es[j]))
  {
    var i := LowerBound(es, e.Ik());
    if i < |es| {
      assert es[i] in es;
      assert Before(e, es[i]);
      forall j | i <= j < |es|
        ensures Before(e, es[j])
      {
        assert i == j || Before(es[i], es[j]);
      }
    }
  }

  // memtable.cc:75 over the skip list's Insert.
  method MemTableAdd(mem: seq<Entry>, e: Entry) returns (r: seq<Entry>)
    requires Sorted(mem) && forall x :: x in mem ==> x.sn != e.sn
    ensures Sorted(r) && Members(r) == Members(mem) + {e}
  {
    var i := LowerBound(mem, e.Ik());
    LowerBoundSplits(mem, e);
    InsertAtSorted(mem, i, e);
    InsertAtMembers(mem, i, e);
    r := mem[..i] + [e] + mem[i..];
  }

  // memtable.cc:100: the first entry at or after the lookup key, if it has the user key.
  method MemTableGet(mem: seq<Entry>, k: UserKey, s: nat) returns (r: Option<Entry>)
    requires Sorted(mem)
    ensures r.Some? ==> IsNewest(Members(mem), k, s, r.value)
    ensures r.None? ==> NoMatch(Members(mem), k, s)
  {
    var i := LowerBound(mem, SeekKey(k, s));
    forall x | x in Members(mem) && Matches(x, k, s)
      ensures i < |mem| && mem[i].key == k && x.sn <= mem[i].sn
    {
      var j :| 0 <= j < |mem| && mem[j] == x;
      assert i <= j;
      assert i == j || Before(mem[i], x);
    }
    r := if i < |mem| && mem[i].key == k then Some(mem[i]) else None;
  }

  // The next sequence number is above everything in the memtable.
  lemma {:induction false} FreshForMem(s: State, mem: seq<Entry>, done: seq<Op>)
    requires ContentOk(s) && Members(mem) == Members(s.mem) + Members(BatchEntries(done, s.lastSequence + 1))
    ensures forall x :: x in Members(mem) ==> x.sn < s.lastSequence + 1 + |done|
  {
    BatchFacts(done, s.lastSequence + 1);
    assert Members(s.mem) <= s.history;
  }

  lemma BatchPush(batch: seq<Op>, i: nat, first: nat)
    requires i < |batch|
    ensures Members(BatchEntries(batch[..i + 1], first)) ==
            Members(BatchEntries(batch[..i], first)) + {Entry(batch[i].key, first + i, batch[i].kind)}
  {
    assert batch[..i + 1][..i] == batch[..i];
  }

  // write_batch.cc:132: the inserter numbers the operations as it goes.
  method InsertInto(ghost s: State, mem: seq<Entry>, batch: seq<Op>, first: nat) returns (r: seq<Entry>)
    requires ContentOk(s) && mem == s.mem && first == s.lastSequence + 1
    ensures Sorted(r) && Members(r) == Members(mem) + Members(BatchEntries(batch, first))
  {
    r := mem;
    for i := 0 to |batch|
      invariant Sorted(r) && Members(r) == Members(mem) + Members(BatchEntries(batch[..i], first))
    {
      FreshForMem(s, r, batch[..i]);
      assert forall x :: x in r ==> x in Members(r);
      r := MemTableAdd(r, Entry(batch[i].key, first + i, batch[i].kind));
      BatchPush(batch, i, first);
    }
    assert batch[..|batch|] == batch;
  }

  /* ---- version edits as steps ---- */

  // version_set.cc:593, for a table.
  function TableKey(f: File): FileKey {
    FileKey(Smallest(f).user, Tag(Smallest(f)), f.number)
  }

  lemma TablesInOrder(files: seq<File>)
    ensures InOrder(TableKey, files) <==> SortedBySmallest(files)
  {
  }

  ghost predicate AppliedTo(v: Version, e: FileEdit<File>, w: Version) {
    LevelsSorted(w) && forall l :: 0 <= l < NUM_LEVELS ==> FileSet(w[l]) == Edited(TableKey, FileSet(v[l]), e, l)
  }

  // What the builder makes of tables.
  method ApplyTables(v: Version, e: FileEdit<File>) returns (w: Version)
    requires LevelsSorted(v) && NumbersNew(TableKey, v, e)
    ensures AppliedTo(v, e, w)
  {
    forall l | 0 <= l < NUM_LEVELS
      ensures InOrder(TableKey, v[l])
    {
      TablesInOrder(v[l]);
    }
    w := ApplyEdit(TableKey, v, e);
    forall l | 0 <= l < NUM_LEVELS
      ensures SortedBySmallest(w[l])
    {
      TablesInOrder(w[l]);
    }
  }

  lemma UntouchedLevel(v: Version, e: FileEdit<File>, w: Version, l: nat)
    requires LevelsSorted(v) && AppliedTo(v, e, w) && l < NUM_LEVELS
    requires DeletedAt(e.deleted, l) == {} && AddedAt(e.added, l) == {}
    ensures w[l] == v[l]
  {
    assert FileSet(w[l]) == FileSet(v[l]);
    TablesInOrder(w[l]);
    TablesInOrder(v[l]);
    SortedUnique(TableKey, w[l], v[l]);
  }

  lemma TouchedLevel(v: Version, e: FileEdit<File>, w: Version, l: nat, added: seq<File>)
    requires AppliedTo(v, e, w) && l < NUM_LEVELS && AddedAt(e.added, l) == FileSet(added)
    requires forall f :: f in v[l] && f.number in AddedNumbers(TableKey, e.added, l) ==> f.number in DeletedAt(e.deleted, l)
    requires DeletedAt(e.deleted, l) !! AddedNumbers(TableKey, e.added, l)
    ensures LevelSaved(v[l], DeletedAt(e.deleted, l), added, w[l])
  {
    forall f
      ensures f in w[l] <==> (f in v[l] && f.number !in DeletedAt(e.deleted, l)) || f in added
    {
      assert f in w[l] <==> f in FileSet(w[l]);
      assert f in added <==> f in AddedAt(e.added, l);
      assert f in AddedAt(e.added, l) ==> f.number in AddedNumbers(TableKey, e.added, l);
    }
  }

  lemma AtFacts(level: nat, files: seq<File>)
    ensures forall l :: AddedAt(At(level, files), l) == if l == level then FileSet(files) else {}
    ensures forall l :: AddedNumbers(TableKey, At(level, files), l) == if l == level then NumbersOf(files) else {}
    ensures (forall i, j :: 0 <= i < j < |files| ==> files[i].number != files[j].number) ==> NumbersOnce(TableKey, At(level, files))
    ensures forall a :: a in At(level, files) ==> a.0 == level
  {
    var at := At(level, files);
    forall f | f in files
      ensures (level, f) in at
    {
      var i :| 0 <= i < |files| && files[i] == f;
      assert at[i] == (level, f);
    }
    forall l
      ensures AddedAt(at, l) == if l == level then FileSet(files) else {}
      ensures AddedNumbers(TableKey, at, l) == if l == level then NumbersOf(files) else {}
    {
    }
  }

  lemma FlushApplied(v: Version, w: Version, level: nat, g: File)
    requires LevelsSorted(v) && level <= MAX_MEM_COMPACT_LEVEL && AppliedTo(v, FileEdit({}, [(level, g)]), w)
    requires NumbersBelow(v, g.number)
    ensures Flushed(v, w, level, g)
  {
    var e := FileEdit({}, [(level, g)]);
    forall l | 0 <= l < NUM_LEVELS && l != level
      ensures w[l] == v[l]
    {
      UntouchedLevel(v, e, w, l);
    }
    assert e.added[0] == (level, g);
    assert AddedAt(e.added, level) == FileSet([g]);
    assert DeletedAt(e.deleted, level) == {};
    forall f | f in v[level]
      ensures f.number !in AddedNumbers(TableKey, e.added, level)
    {
      assert Placed(v, level, f);
    }
    TouchedLevel(v, e, w, level, [g]);
  }

  lemma FlushNumbersNew(v: Version, level: nat, g: File)
    requires level < NUM_LEVELS && NumbersBelow(v, g.number)
    ensures NumbersNew(TableKey, v, FileEdit({}, [(level, g)]))
  {
    forall l, f | 0 <= l < NUM_LEVELS && f in v[l]
      ensures f.number !in AddedNumbers(TableKey, [(level, g)], l)
    {
      assert Placed(v, l, f);
    }
  }

  // db_impl.cc:491: build the table, pick its level, apply the edit.
  method WriteLevel0Table(v: Version, entries: seq<Entry>, number: nat, size: nat, maxFileSize: nat) returns (w: Version, level: nat)
    requires VersionValid(v) && LevelsSorted(v) && NumbersBelow(v, number)
    ensures if entries == [] then w == v
            else var g: File := TableFile(number, size, entries);
                 Flushed(v, w, level, g) && NoOverlapDownTo(v, level, g)
                 && IsOutputLevel(v, Smallest(g).user, Largest(g).user, maxFileSize, level)
  {
    w, level := v, 0;
    if entries != [] {
      var g: File := TableFile(number, size, entries);
      level := PickLevelForMemTableOutput(v, Smallest(g).user, Largest(g).user, maxFileSize);
      FlushNumbersNew(v, level, g);
      w := ApplyTables(v, FileEdit({}, [(level, g)]));
      FlushApplied(v, w, level, g);
    }
  }

  // Numbers of a compaction's files at both levels, as AddInputDeletions lists them.
  function Deletions(level: nat, files: seq<File>): set<(nat, nat)> {
    set f | f in files :: (level, f.number)
  }

  function InstallEdit(level: nat, inputs0: seq<File>, inputs1: seq<File>, outputs: seq<File>): FileEdit<File> {
    FileEdit(Deletions(level, inputs0) + Deletions(level + 1, inputs1), At(level + 1, outputs))
  }

  lemma DeletionsAt(level: nat, inputs0: seq<File>, inputs1: seq<File>)
    ensures DeletedAt(Deletions(level, inputs0) + Deletions(level + 1, inputs1), level) == NumbersOf(inputs0)
    ensures DeletedAt(Deletions(level, inputs0) + Deletions(level + 1, inputs1), level + 1) == NumbersOf(inputs1)
    ensures var d := Deletions(level, inputs0) + Deletions(level + 1, inputs1);
            forall l :: l != level && l != level + 1 ==> DeletedAt(d, l) == {}
  {
    var d := Deletions(level, inputs0) + Deletions(level + 1, inputs1);
    forall f | f in inputs0
      ensures f.number in DeletedAt(d, level)
    {
      assert (level, f.number) in d;
    }
    forall f | f in inputs1
      ensures f.number in DeletedAt(d, level + 1)
    {
      assert (level + 1, f.number) in d;
    }
  }

  // None of the added numbers is at the output level already.
  ghost predicate OutputsNew(v: Version, level: nat, outputs: seq<File>)
    requires level + 1 < NUM_LEVELS
  {
    && (forall f, o :: f in v[level + 1] && o in outputs ==> f.number != o.number)
    && (forall i, j :: 0 <= i < j < |outputs| ==> outputs[i].number != outputs[j].number)
  }

  lemma InstallNumbersNew(v: Version, level: nat, inputs0: seq<File>, inputs1: seq<File>, outputs: seq<File>)
    requires level + 1 < NUM_LEVELS && OutputsNew(v, level, outputs)
    ensures NumbersNew(TableKey, v, InstallEdit(level, inputs0, inputs1, outputs))
  {
    AtFacts(level + 1, outputs);
  }

  lemma InstallApplied(v: Version, w: Version, level: nat, inputs0: seq<File>, inputs1: seq<File>, outputs: seq<File>)
    requires LevelsSorted(v) && level + 1 < NUM_LEVELS && OutputsNew(v, level, outputs)
    requires Subset(inputs1, v[level + 1])
    requires AppliedTo(v, InstallEdit(level, inputs0, inputs1, outputs), w)
    ensures Installed(v, w, level, inputs0, inputs1, outputs)
  {
    var e := InstallEdit(level, inputs0, inputs1, outputs);
    AtFacts(level + 1, outputs);
    DeletionsAt(level, inputs0, inputs1);
    forall l | 0 <= l < NUM_LEVELS && l != level && l != level + 1
      ensures w[l] == v[l]
    {
      UntouchedLevel(v, e, w, l);
    }
    assert FileSet<File>([]) == {};
    TouchedLevel(v, e, w, level, []);
    TouchedLevel(v, e, w, level + 1, outputs);
  }

  lemma InvLevelsOk(s: State)
    requires Inv(s)
    ensures LevelsOk(s.version)
  {
  }

  // A file moved down one level brings its number along.
  lemma MoveNumbersNew(v: Version, level: nat, f: File)
    requires UniqueNumbers(v) && level + 1 < NUM_LEVELS && f in v[level]
    ensures OutputsNew(v, level, [f])
  {
    assert Placed(v, level, f);
    forall g | g in v[level + 1]
      ensures g.number != f.number
    {
      assert Placed(v, level + 1, g);
    }
  }

  lemma LoneInput(s: State, c: Inputs)
    requires Inv(s) && WellChosen(s.version, c) && |c.inputs0| == 1
    ensures LevelsSorted(s.version) && UniqueNumbers(s.version) && c.inputs0[0] in s.version[c.level]
  {
    hide ContentOk, SnapshotsOk, JobOk, MeaningOk, MeetsBelow, ClosedInputs;
    InvLevelsOk(s);
    ClosedInputsInLevel(c.level, s.version[c.level], c.inputs0);
  }

  // db_impl.cc:718
  method MoveFile(v: Version, level: nat, f: File) returns (w: Version)
    requires LevelsSorted(v) && UniqueNumbers(v) && level + 1 < NUM_LEVELS && f in v[level]
    ensures Installed(v, w, level, [f], [], [f]) && LevelsSorted(w)
  {
    MoveNumbersNew(v, level, f);
    InstallNumbersNew(v, level, [f], [], [f]);
    w := ApplyTables(v, InstallEdit(level, [f], [], [f]));
    InstallApplied(v, w, level, [f], [], [f]);
  }

  // db_impl.cc:860
  method InstallResults(v: Version, level: nat, inputs0: seq<File>, inputs1: seq<File>, outputs: seq<File>) returns (w: Version)
    requires LevelsSorted(v) && level + 1 < NUM_LEVELS && OutputsNew(v, level, outputs) && Subset(inputs1, v[level + 1])
    ensures Installed(v, w, level, inputs0, inputs1, outputs) && LevelsSorted(w)
  {
    InstallNumbersNew(v, level, inputs0, inputs1, outputs);
    w := ApplyTables(v, InstallEdit(level, inputs0, inputs1, outputs));
    InstallApplied(v, w, level, inputs0, inputs1, outputs);
  }

  lemma NumberedFresh(s: State, outputs: seq<File>, first: nat)
    requires NumbersBelow(s.version, first) && first + |outputs| <= s.nextFile
    requires forall i :: 0 <= i < |outputs| ==> outputs[i].number == first + i
    ensures FreshNumbers(s, outputs, s.nextFile)
    ensures forall l :: 0 <= l < NUM_LEVELS - 1 ==> OutputsNew(s.version, l, outputs)
  {
    forall l, f, o | Placed(s.version, l, f) && o in outputs
      ensures f.number != o.number
    {
      var i :| 0 <= i < |outputs| && outputs[i] == o;
    }
    forall l | 0 <= l < NUM_LEVELS - 1
      ensures OutputsNew(s.version, l, outputs)
    {
      forall f, o | f in s.version[l + 1] && o in outputs
        ensures f.number != o.number
      {
        assert Placed(s.version, l + 1, f);
      }
    }
  }

  // The file numbers of the outputs are taken before the outputs are installed.
  lemma FinishedKeepsInv(s: State, start: State, s': State, input: seq<Entry>, outputs: seq<File>)
    requires Inv(s) && s.nextFile <= start.nextFile && start == s.(nextFile := start.nextFile)
    requires FinishStep(start, s', input, outputs)
    ensures Inv(s') <==> !Hazard(s, input) && !Straddles(s, outputs)
  {
    assert s.job == start.job && start.job.Some?;
    hide Inv, FinishStep;
    NumbersKeepInv(s, start);
    NumbersKeepHazards(s, start, input, outputs);
    FinishKeepsInvIff(start, s', input, outputs);
  }

  lemma NumbersKeepHazards(s: State, start: State, input: seq<Entry>, outputs: seq<File>)
    requires s.job.Some? && start == s.(nextFile := start.nextFile)
    ensures Hazard(start, input) == Hazard(s, input) && Straddles(start, outputs) == Straddles(s, outputs)
  {
    assert All(start) == All(s) && BoundaryBehind(start) == BoundaryBehind(s);
    hide All, BoundaryBehind, OutputsApart, IsNewest, BaseLevel;
  }

  lemma NumbersKeepInv(s: State, start: State)
    requires Inv(s) && s.nextFile <= start.nextFile && start == s.(nextFile := start.nextFile)
    ensures Inv(start) && All(start) == All(s)
  {
  }

  // What the background work itself relies on.
  ghost predicate JobReady(s: State) {
    s.job.Some? &&
    var j := s.job.value;
    && j.inputs.level + 1 < NUM_LEVELS && DeepLevelsOk(j.version, j.inputs.level) && j.snapshot < MAX_SEQUENCE
    && Subset(j.inputs.inputs1, s.version[j.inputs.level + 1])
    && LevelsSorted(s.version) && NumbersBelow(s.version, s.nextFile)
  }

  lemma JobIsReady(s: State)
    requires Inv(s) && s.job.Some?
    ensures JobReady(s)
  {
  }

  class DbImpl {
    var mem: seq<Entry>
    var imm: Option<seq<Entry>>
    var current: Version
    var lastSequence: nat
    var snapshots: seq<nat>
    var nextFileNumber: nat
    var compactPointer: seq<Option<InternalKey>>
    // The compaction the background thread is working on.
    var job: Option<Job>
    const maxFileSize: nat
    ghost var history: set<Entry>
    ghost var floor: nat

    ghost function Abs(): State
      reads this
    {
      State(mem, imm, current, lastSequence, snapshots, nextFileNumber, job, history, floor)
    }

    ghost predicate Valid()
      reads this
    {
      Inv(Abs()) && |compactPointer| == NUM_LEVELS
    }

    constructor (maxFileSize: nat)
      ensures Valid() && Init(Abs()) && this.maxFileSize == maxFileSize && compactPointer == seq(NUM_LEVELS, _ => None)
    {
      this.maxFileSize := maxFileSize;
      mem, imm, lastSequence, snapshots, job := [], None, 0, [], None;
      current := seq(NUM_LEVELS, _ => []);
      // version_set.cc:765
      nextFileNumber := 2;
      compactPointer := seq(NUM_LEVELS, _ => None);
      history, floor := {}, 0;
      new;
      InitInv(Abs());
    }

    // db_impl.cc:1236: the sequence number moves once the batch is in the memtable.
    method SetLastSequence(inserted: seq<Entry>, ghost batch: seq<Op>, last: nat)
      requires last == lastSequence + |batch| < MAX_SEQUENCE && Sorted(inserted)
      requires Members(inserted) == Members(mem) + Members(BatchEntries(batch, lastSequence + 1))
      modifies `mem, `lastSequence, `history
      ensures WriteStep(old(Abs()), Abs(), batch)
    {
      history := history + Members(BatchEntries(batch, lastSequence + 1));
      mem, lastSequence := inserted, last;
    }

    // db_impl.cc:1185, the leader's part.
    method Write(batch: seq<Op>)
      requires Valid() && lastSequence + |batch| < MAX_SEQUENCE
      modifies this
      ensures Valid() && WriteStep(old(Abs()), Abs(), batch) && compactPointer == old(compactPointer)
    {
      ghost var before := Abs();
      var inserted := InsertInto(before, mem, batch, lastSequence + 1);
      SetLastSequence(inserted, batch, lastSequence + |batch|);
      WriteKeepsInv(before, Abs(), batch);
    }

    // db_impl.cc:1346: the memtable is full and the previous one is written out.
    method SwitchMemTable()
      requires Valid() && imm.None?
      modifies this
      ensures Valid() && SwitchStep(old(Abs()).(nextFile := old(nextFileNumber) + 1), Abs()) && compactPointer == old(compactPointer)
    {
      ghost var before := Abs();
      // The new log file takes a number.
      nextFileNumber := nextFileNumber + 1;
      ghost var middle := Abs();
      NewFileKeepsInv(before, middle);
      imm, mem := Some(mem), [];
      SwitchKeepsInv(middle, Abs());
    }

    // db_impl.cc:535, with the level picked at db_impl.cc:522.
    method CompactMemTable(size: nat) returns (ghost level: nat)
      requires Valid() && imm.Some?
      modifies this
      ensures Valid() && FlushStep(old(Abs()), Abs(), level, size) && compactPointer == old(compactPointer)
      ensures old(imm).value != [] ==>
        var g: File := TableFile(old(nextFileNumber), size, old(imm).value);
        IsOutputLevel(old(current), Smallest(g).user, Largest(g).user, maxFileSize, level)
    {
      ghost var before := Abs();
      var version, at := WriteLevel0Table(current, imm.value, nextFileNumber, size, maxFileSize);
      level := at;
      imm, current, nextFileNumber := None, version, nextFileNumber + 1;
      FlushKeepsInv(before, Abs(), level, size);
    }

    // db_impl.cc:718: a lone file moves down without being rewritten.
    method MoveDown(c: Inputs)
      requires Valid() && job.None? && WellChosen(current, c) && |c.inputs0| == 1 && c.inputs1 == []
      modifies `current
      ensures Valid() && MoveStep(old(Abs()), Abs(), c)
    {
      hide ContentOk, LayersOk, SnapshotsOk, JobOk, MeaningOk, Installed, MeetsBelow;
      ghost var before := Abs();
      var f := c.inputs0[0];
      assert c.inputs0 == [f];
      LoneInput(before, c);
      var version := MoveFile(current, c.level, f);
      current := version;
      assert MoveStep(before, Abs(), c);
      MoveKeepsInv(before, Abs(), c);
    }

    // db_impl.cc:890: the oldest snapshot is taken when the work starts.
    method StartCompaction(c: Inputs)
      requires Valid() && job.None? && WellChosen(current, c)
      modifies `job
      ensures Valid() && StartStep(old(Abs()), Abs(), c) && job.Some? && job.value.inputs == c
    {
      ghost var before := Abs();
      job := Some(Job(c, current, if snapshots == [] then lastSequence else snapshots[0]));
      StartKeepsInv(before, Abs(), c);
    }

    // db_impl.cc:696: pick a compaction; move a lone file down at once, start the rest.
    method BackgroundCompaction(sizeLevel: Option<nat>, seek: Option<(nat, File)>) returns (c: Option<Inputs>, ghost picked: Option<File>)
      requires Valid() && job.None?
      requires sizeLevel.Some? ==> sizeLevel.value + 1 < NUM_LEVELS && current[sizeLevel.value] != []
      requires seek.Some? ==> seek.value.0 + 1 < NUM_LEVELS && seek.value.1 in current[seek.value.0]
      modifies this
      ensures Valid()
      ensures Picked(old(current), old(compactPointer), sizeLevel, seek, maxFileSize, c, compactPointer, picked)
      ensures c.None? ==> Abs() == old(Abs())
      ensures c.Some? ==> if job.None? then MoveStep(old(Abs()), Abs(), c.value) else StartStep(old(Abs()), Abs(), c.value)
      ensures c.Some? ==> (job.None? <==> |c.value.inputs0| == 1 && c.value.inputs1 == []
                                          && TotalFileSize(c.value.grandparents) <= MaxGrandParentOverlapBytes(maxFileSize))
      ensures job.Some? ==> Connected(job.value.inputs.inputs0 + job.value.inputs.inputs1)
    {
      hide Inv, MoveStep, StartStep, WellChosen, Connected, TotalFileSize, LevelsOk, Picked;
      ghost var before := Abs();
      InvLevelsOk(before);
      var pointers;
      c, pointers, picked := PickCompaction(current, compactPointer, sizeLevel, seek, maxFileSize);
      compactPointer := pointers;
      assert Abs() == before;
      if c.None? {
        return;
      }
      if |c.value.inputs0| == 1 && c.value.inputs1 == []
         && TotalFileSize(c.value.grandparents) <= MaxGrandParentOverlapBytes(maxFileSize)
      {
        MoveDown(c.value);
      } else {
        StartCompaction(c.value);
      }
    }

    // db_impl.cc:701: a manual compaction is never a trivial move.
    method ManualCompaction(level: nat, begin: Option<UserKey>, end: Option<UserKey>) returns (c: Option<Inputs>)
      requires Valid() && job.None? && level + 1 < NUM_LEVELS
      modifies this
      ensures Valid()
      ensures ManuallyPicked(old(current), level, begin, end, old(compactPointer), maxFileSize, c, compactPointer)
      ensures if c.None? then Abs() == old(Abs()) else StartStep(old(Abs()), Abs(), c.value)
    {
      hide Inv, StartStep, WellChosen, ManuallyPicked, LevelsOk;
      ghost var before := Abs();
      InvLevelsOk(before);
      var pointers;
      c, pointers := CompactRange(current, level, begin, end, compactPointer, maxFileSize);
      compactPointer := pointers;
      assert Abs() == before;
      if c.Some? {
        StartCompaction(c.value);
      }
    }

    // db_impl.cc:860
    method InstallCompactionResults(ghost input: seq<Entry>, outputs: seq<File>)
      requires job.Some? && job.value.inputs.level + 1 < NUM_LEVELS && DeepLevelsOk(job.value.version, job.value.inputs.level)
      requires Subset(job.value.inputs.inputs1, current[job.value.inputs.level + 1]) && LevelsSorted(current)
      requires MergeOf(job.value, input)
      requires Concat(outputs) == Kept(job.value.version, job.value.inputs.level, input, |input|, job.value.snapshot)
      requires FreshNumbers(Abs(), outputs, nextFileNumber) && OutputsNew(current, job.value.inputs.level, outputs)
      modifies `current, `job, `floor
      ensures FinishStep(old(Abs()), Abs(), input, outputs)
    {
      var j := job.value;
      var version := InstallResults(current, j.inputs.level, j.inputs.inputs0, j.inputs.inputs1, outputs);
      current, job := version, None;
      floor := if floor < j.snapshot then j.snapshot else floor;
    }

    // db_impl.cc:878: merge, drop and write, then install.
    method RunCompaction(input: seq<Entry>, sizeOf: seq<Entry> -> nat) returns (ghost start: State, outputs: seq<File>)
      requires JobReady(Abs()) && MergeOf(job.value, input)
      modifies `nextFileNumber, `current, `job, `floor
      ensures start == old(Abs()).(nextFile := nextFileNumber) && old(nextFileNumber) <= nextFileNumber
      ensures FinishStep(start, Abs(), input, outputs)
      ensures CutAsDue(Rule(old(job).value.inputs.grandparents, maxFileSize, sizeOf), input, outputs)
    {
      var j := job.value;
      var c := new CompactionWork.Compaction(j.inputs.level, j.version, j.inputs.grandparents, maxFileSize);
      var first := nextFileNumber;
      outputs := DoCompactionWork(c, input, j.snapshot, i => first + i, sizeOf);
      nextFileNumber := first + |outputs|;
      start := Abs();
      NumberedFresh(start, outputs, first);
      InstallCompactionResults(input, outputs);
    }

    // Valid afterwards exactly when it was neither of the hazards that no caller checks for.
    method FinishCompaction(input: seq<Entry>, sizeOf: seq<Entry> -> nat) returns (ghost start: State, outputs: seq<File>)
      requires Valid() && job.Some? && MergeOf(job.value, input)
      modifies this
      ensures start == old(Abs()).(nextFile := nextFileNumber) && old(nextFileNumber) <= nextFileNumber
      ensures FinishStep(start, Abs(), input, outputs)
      ensures Valid() <==> !Hazard(old(Abs()), input) && !Straddles(old(Abs()), outputs)
      ensures CutAsDue(Rule(old(job).value.inputs.grandparents, maxFileSize, sizeOf), input, outputs)
      ensures compactPointer == old(compactPointer)
    {
      ghost var before := Abs();
      JobIsReady(before);
      start, outputs := RunCompaction(input, sizeOf);
      FinishedKeepsInv(before, start, Abs(), input, outputs);
    }

    // db_impl.cc:1166
    method GetSnapshot() returns (n: nat)
      requires Valid()
      modifies this
      ensures Valid() && SnapshotStep(old(Abs()), Abs()) && n == lastSequence && compactPointer == old(compactPointer)
    {
      ghost var before := Abs();
      n := lastSequence;
      snapshots := snapshots + [n];
      SnapshotKeepsInv(before, Abs());
    }

    // db_impl.cc:1171
    method ReleaseSnapshot(i: nat)
      requires Valid() && i < |snapshots|
      modifies this
      ensures Valid() && ReleaseStep(old(Abs()), Abs(), i) && compactPointer == old(compactPointer)
    {
      ghost var before := Abs();
      snapshots := snapshots[..i] + snapshots[i + 1..];
      ReleaseKeepsInv(before, Abs(), i);
    }

    // db_impl.cc:1100: memtable, then immutable memtable, then the tables.
    method Get(k: UserKey, snapshot: Option<nat>) returns (r: Option<string>)
      requires Valid() && (snapshot.Some? ==> snapshot.value in snapshots)
      ensures r == FlatMap.Get(history, k, if snapshot.Some? then snapshot.value else lastSequence)
    {
      var s := if snapshot.Some? then snapshot.value else lastSequence;
      LiveReads(Abs(), k, s);
      var found := MemTableGet(mem, k, s);
      if found.Some? {
        FoundInMem(Abs(), k, s, found.value);
        return Answer(found);
      }
      if imm.Some? {
        found := MemTableGet(imm.value, k, s);
        if found.Some? {
          FoundInImm(Abs(), k, s, found.value);
          return Answer(found);
        }
      }
      FoundInTables(Abs(), k, s);
      r := VersionGet(current, k, s);
    }
  }

  lemma FoundInMem(s: State, k: UserKey, q: nat, e: Entry)
    requires Inv(s) && IsNewest(Members(s.mem), k, q, e)
    ensures Get(All(s), k, q) == Answer(Some(e))
  {
    assert IsNewest(All(s), k, q, e);
    LookupIs(All(s), k, q, e);
  }

  lemma FoundInImm(s: State, k: UserKey, q: nat, e: Entry)
    requires Inv(s) && NoMatch(Members(s.mem), k, q) && IsNewest(ImmEntries(s), k, q, e)
    ensures Get(All(s), k, q) == Answer(Some(e))
  {
    assert IsNewest(All(s), k, q, e);
    LookupIs(All(s), k, q, e);
  }

  lemma FoundInTables(s: State, k: UserKey, q: nat)
    requires Inv(s) && NoMatch(Members(s.mem), k, q) && NoMatch(ImmEntries(s), k, q)
    ensures UniqueSeq(TableEntries(s)) && Get(All(s), k, q) == Get(TableEntries(s), k, q)
  {
    var r := Lookup(TableEntries(s), k, q);
    if r.Some? {
      assert IsNewest(All(s), k, q, r.value);
      LookupIs(All(s), k, q, r.value);
    }
  }
}
