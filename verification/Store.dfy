/**
 The whole store as one state machine: memtables, versions, snapshots, and a background
 compaction during which memtables may be flushed. Every state carries the history of
 all writes, the flat map that the state must still mean.
 */
module Store {
  import opened Keys
  import opened FlatMap
  import opened Tables
  import opened Selection
  import opened Picking
  import opened CompactionWork
  import opened Preservation
  import opened Versions
  import opened Readiness

  // A compaction between the choice of its inputs and the installation of its result:
  // the version it was chosen in and the oldest snapshot at that time (db_impl.cc:890).
  datatype Job = Job(inputs: Inputs, version: Version, snapshot: nat)

  // history: every entry ever written; floor: reads below it have been given up, because
  // some compaction ran when no older snapshot was live.
  datatype State = State(
    mem: seq<Entry>, imm: Option<seq<Entry>>, version: Version,
    lastSequence: nat, snapshots: seq<nat>, nextFile: nat, job: Option<Job>,
    history: set<Entry>, floor: nat)

  ghost function ImmEntries(s: State): set<Entry> {
    if s.imm.Some? then Members(s.imm.value) else {}
  }

  ghost function TableEntries(s: State): set<Entry> {
    VersionEntries(s.version)
  }

  ghost function All(s: State): set<Entry> {
    Members(s.mem) + ImmEntries(s) + TableEntries(s)
  }

  ghost function JobEntries(j: Job): set<Entry> {
    LevelEntries(j.inputs.inputs0) + LevelEntries(j.inputs.inputs1)
  }

  /* ---- the invariant ---- */

  ghost predicate ContentOk(s: State) {
    && Sorted(s.mem) && (s.imm.Some? ==> Sorted(s.imm.value))
    && All(s) <= s.history
    && UniqueSeq(s.history)
    && (forall e :: e in s.history ==> e.sn <= s.lastSequence)
    && s.lastSequence < MAX_SEQUENCE
  }

  ghost predicate LayersOk(s: State) {
    && VersionValid(s.version)
    && Newer(Members(s.mem), ImmEntries(s) + TableEntries(s))
    && Newer(ImmEntries(s), TableEntries(s))
  }

  ghost predicate FilesOk(s: State) {
    UniqueNumbers(s.version) && NumbersBelow(s.version, s.nextFile) && LevelsSorted(s.version)
  }

  ghost predicate SnapshotsOk(s: State) {
    && (forall i, j :: 0 <= i < j < |s.snapshots| ==> s.snapshots[i] <= s.snapshots[j])
    && (forall n :: n in s.snapshots ==> s.floor <= n <= s.lastSequence)
    && s.floor <= s.lastSequence
  }

  ghost predicate JobOk(s: State) {
    s.job.Some? ==>
      var j := s.job.value;
      && j.inputs.inputs0 != [] && DeepLevelsOk(j.version, j.inputs.level)
      && Ready(s.version, j.inputs.level, j.inputs.inputs0, j.inputs.inputs1)
      && BaseStillBase(s.version, j.version, j.inputs.level, j.inputs.inputs0, j.inputs.inputs1)
      && s.floor <= j.snapshot <= s.lastSequence
      && forall n :: n in s.snapshots ==> j.snapshot <= n
  }

  // Reads that can still be asked for are those of the flat map.
  ghost predicate MeaningOk(s: State) {
    SameReads(s.history, All(s), s.floor)
  }

  ghost predicate Inv(s: State) {
    ContentOk(s) && LayersOk(s) && FilesOk(s) && SnapshotsOk(s) && JobOk(s) && MeaningOk(s)
  }

  ghost predicate Init(s: State) {
    && s.mem == [] && s.imm == None && (forall l :: 0 <= l < NUM_LEVELS ==> s.version[l] == [])
    && s.lastSequence == 0 && s.snapshots == [] && s.job == None && s.history == {} && s.floor == 0
  }

  /* ---- the steps ---- */

  datatype Op = Op(key: UserKey, kind: Kind)

  // Consecutive sequence numbers for the operations of a batch (write_batch.cc:121).
  function BatchEntries(batch: seq<Op>, first: nat): seq<Entry> {
    if batch == [] then []
    else
      var n := |batch| - 1;
      BatchEntries(batch[..n], first) + [Entry(batch[n].key, first + n, batch[n].kind)]
  }

  ghost predicate WriteStep(s: State, s': State, batch: seq<Op>) {
    && s.lastSequence + |batch| < MAX_SEQUENCE
    && s' == s.(mem := s'.mem, lastSequence := s.lastSequence + |batch|,
                history := s.history + Members(BatchEntries(batch, s.lastSequence + 1)))
    && Sorted(s'.mem)
    && Members(s'.mem) == Members(s.mem) + Members(BatchEntries(batch, s.lastSequence + 1))
  }

  // db_impl.cc:1346
  ghost predicate SwitchStep(s: State, s': State) {
    s.imm.None? && s' == s.(mem := [], imm := Some(s.mem))
  }

  ghost predicate NewFileStep(s: State, s': State) {
    s' == s.(nextFile := s.nextFile + 1)
  }

  // db_impl.cc:535. An empty memtable leaves no table behind. A compaction may be running.
  ghost predicate FlushStep(s: State, s': State, level: nat, size: nat) {
    && s.imm.Some?
    && s' == s.(imm := None, nextFile := s.nextFile + 1, version := s'.version)
    && if s.imm.value == [] then s'.version == s.version
       else
         var g: File := TableFile(s.nextFile, size, s.imm.value);
         Flushed(s.version, s'.version, level, g) && NoOverlapDownTo(s.version, level, g)
  }

  function OldestSnapshot(s: State): nat {
    if s.snapshots == [] then s.lastSequence else s.snapshots[0]
  }

  // db_impl.cc:696 and db_impl.cc:890
  ghost predicate StartStep(s: State, s': State, c: Inputs) {
    && s.job.None? && WellChosen(s.version, c)
    && s' == s.(job := Some(Job(c, s.version, OldestSnapshot(s))))
  }

  // The merged input of the compaction's files (version_set.cc:1237).
  ghost predicate MergeOf(j: Job, input: seq<Entry>) {
    Sorted(input) && Members(input) == JobEntries(j)
  }

  ghost predicate FreshNumbers(s: State, outputs: seq<File>, nextFile: nat) {
    && (forall o :: o in outputs ==> o.number < nextFile)
    && (forall o, p :: o in outputs && p in outputs && o.number == p.number ==> o == p)
    && (forall l, f, o :: Placed(s.version, l, f) && o in outputs ==> f.number != o.number)
  }

  // db_impl.cc:860 after the merge loop.
  ghost predicate FinishStep(s: State, s': State, input: seq<Entry>, outputs: seq<File>) {
    && s.job.Some?
    && var j := s.job.value;
       && MergeOf(j, input)
       && Concat(outputs) == Kept(j.version, j.inputs.level, input, |input|, j.snapshot)
       && FreshNumbers(s, outputs, s.nextFile)
       && Installed(s.version, s'.version, j.inputs.level, j.inputs.inputs0, j.inputs.inputs1, outputs)
       && LevelsSorted(s'.version)
       && s' == s.(version := s'.version, job := None, floor := if s.floor < j.snapshot then j.snapshot else s.floor)
  }

  // A failed compaction installs nothing (db_impl.cc:737).
  ghost predicate AbandonStep(s: State, s': State) {
    s.job.Some? && s' == s.(job := None)
  }

  // db_impl.cc:718
  ghost predicate MoveStep(s: State, s': State, c: Inputs) {
    && s.job.None? && WellChosen(s.version, c) && |c.inputs0| == 1 && c.inputs1 == []
    && Installed(s.version, s'.version, c.level, c.inputs0, [], c.inputs0)
    && LevelsSorted(s'.version)
    && s' == s.(version := s'.version)
  }

  // snapshot.h:57
  ghost predicate SnapshotStep(s: State, s': State) {
    s' == s.(snapshots := s.snapshots + [s.lastSequence])
  }

  // snapshot.h:79
  ghost predicate ReleaseStep(s: State, s': State, i: nat) {
    i < |s.snapshots| && s' == s.(snapshots := s.snapshots[..i] + s.snapshots[i + 1..])
  }

  // The other hazard: an output reaches across a file that is not an input, as one flushed
  // into a gap between the inputs.
  ghost predicate Straddles(s: State, outputs: seq<File>)
    requires s.job.Some?
  {
    var c := s.job.value.inputs;
    c.level + 1 < NUM_LEVELS && !OutputsApart(s.version, c.level, c.inputs1, outputs)
  }

  // The first file behind the lower inputs that continues their last user key, if any.
  ghost function BoundaryBehind(s: State): Option<File>
    requires s.job.Some?
  {
    var c := s.job.value.inputs;
    if c.level + 1 >= NUM_LEVELS || c.inputs1 == [] then None
    else SmallestBoundary(s.version[c.level + 1], TopKey(c.inputs1))
  }

  // One hazard: the first file left behind at the boundary of the lower inputs starts
  // with a value, and what a read of its user key at the snapshot finds is a deletion among
  // the inputs, at its base level.
  ghost predicate Hazard(s: State, input: seq<Entry>)
    requires s.job.Some?
  {
    var j, b := s.job.value, BoundaryBehind(s);
    && b.Some? && b.value.entries[0].kind.Put?
    && BaseLevel(j.version, j.inputs.level, Smallest(b.value).user)
    && exists m :: m in input && m.kind.Deletion? && IsNewest(All(s), Smallest(b.value).user, j.snapshot, m)
  }
}
