/**
 Every step of the store keeps its invariant, and what the invariant means for a reader.
 */
module StoreSteps {
  import opened Keys
  import opened FlatMap
  import opened Tables
  import opened Selection
  import opened Picking
  import opened CompactionWork
  import opened Preservation
  import opened Versions
  import opened Readiness
  import opened Store

  lemma InitInv(s: State)
    requires Init(s)
    ensures Inv(s)
  {
  }

  /* ---- writes ---- */

  lemma {:induction false} BatchFacts(batch: seq<Op>, first: nat)
    ensures forall e :: e in BatchEntries(batch, first) ==> first <= e.sn < first + |batch|
    ensures UniqueSeq(Members(BatchEntries(batch, first)))
  {
    if batch != [] {
      BatchFacts(batch[..|batch| - 1], first);
    }
  }

  // New entries above every old sequence number change a read of both sets alike.
  lemma WriteKeepsReads(H: set<Entry>, A: set<Entry>, N: set<Entry>, floor: nat)
    requires SameReads(H, A, floor) && A <= H && UniqueSeq(N + H) && Newer(N, H)
    ensures SameReads(H + N, A + N, floor)
  {
    assert H + N == N + H && A + N == N + A;
    forall k, q | floor <= q
      ensures Get(A + N, k, q) == Get(H + N, k, q)
    {
      assert Get(A, k, q) == Get(H, k, q);
      LookupInNewer(N, H, k, q);
      LookupInNewer(N, A, k, q);
    }
  }

  lemma WriteKeepsLayers(s: State, s': State, N: set<Entry>)
    requires LayersOk(s) && All(s) <= s.history && Newer(N, s.history)
    requires s'.imm == s.imm && s'.version == s.version && Members(s'.mem) == Members(s.mem) + N
    ensures LayersOk(s')
  {
  }

  lemma WriteKeepsContent(s: State, s': State, N: set<Entry>)
    requires ContentOk(s) && UniqueSeq(N) && Sorted(s'.mem) && s'.lastSequence < MAX_SEQUENCE
    requires s.lastSequence <= s'.lastSequence && forall e :: e in N ==> s.lastSequence < e.sn <= s'.lastSequence
    requires s'.imm == s.imm && s'.version == s.version && Members(s'.mem) == Members(s.mem) + N && s'.history == s.history + N
    ensures ContentOk(s') && All(s') == All(s) + N && UniqueSeq(N + s.history) && Newer(N, s.history)
  {
  }

  lemma WriteKeepsRest(s: State, s': State)
    requires FilesOk(s) && SnapshotsOk(s) && JobOk(s) && s.lastSequence <= s'.lastSequence
    requires s'.version == s.version && s'.job == s.job && s'.nextFile == s.nextFile
    requires s'.snapshots == s.snapshots && s'.floor == s.floor
    ensures FilesOk(s') && SnapshotsOk(s') && JobOk(s')
  {
  }

  lemma WriteKeepsInv(s: State, s': State, batch: seq<Op>)
    requires Inv(s) && WriteStep(s, s', batch)
    ensures Inv(s')
  {
    hide FilesOk, SnapshotsOk, JobOk, LayersOk;
    var N := Members(BatchEntries(batch, s.lastSequence + 1));
    BatchFacts(batch, s.lastSequence + 1);
    assert forall e :: e in N ==> s.lastSequence < e.sn <= s'.lastSequence;
    WriteKeepsContent(s, s', N);
    WriteKeepsLayers(s, s', N);
    WriteKeepsReads(s.history, All(s), N, s.floor);
    WriteKeepsRest(s, s');
  }

  lemma SwitchKeepsInv(s: State, s': State)
    requires Inv(s) && SwitchStep(s, s')
    ensures Inv(s')
  {
    assert All(s') == All(s);
  }

  lemma NewFileKeepsInv(s: State, s': State)
    requires Inv(s) && NewFileStep(s, s')
    ensures Inv(s')
  {
    assert All(s') == All(s);
  }

  /* ---- flushes ---- */

  // New numbers among old ones: a level edit keeps numbers unique when each file of the
  // new version is an old one in its place or one of the added ones at one level.
  lemma NumbersStayUnique(v: Version, v': Version, n: nat, n': nat, added: seq<File>, level: nat)
    requires UniqueNumbers(v) && NumbersBelow(v, n) && n <= n'
    requires forall l, f :: Placed(v', l, f) ==> Placed(v, l, f) || (f in added && l == level)
    requires forall f :: f in added ==> f.number < n'
    requires forall f, g :: f in added && g in added && f.number == g.number ==> f == g
    requires forall l, f, g :: Placed(v, l, f) && g in added ==> f.number != g.number
    ensures UniqueNumbers(v') && NumbersBelow(v', n')
  {
  }

  lemma FlushedNumbers(s: State, s': State, level: nat, g: File)
    requires FilesOk(s) && Flushed(s.version, s'.version, level, g) && g.number == s.nextFile && s'.nextFile == s.nextFile + 1
    ensures FilesOk(s')
  {
    forall l, f | Placed(s'.version, l, f)
      ensures Placed(s.version, l, f) || (f in [g] && l == level)
    {
    }
    NumbersStayUnique(s.version, s'.version, s.nextFile, s'.nextFile, [g], level);
  }

  lemma FlushKeepsInv(s: State, s': State, level: nat, size: nat)
    requires Inv(s) && FlushStep(s, s', level, size)
    ensures Inv(s')
  {
    if s.imm.value == [] {
      assert All(s') == All(s);
    } else {
      TableKeepsInv(s, s', level, size);
    }
  }

  lemma ImmTable(s: State, size: nat)
    requires s.imm.Some? && s.imm.value != [] && ContentOk(s)
    ensures TableValid(TableFile(s.nextFile, size, s.imm.value)) && FileEntries(TableFile(s.nextFile, size, s.imm.value)) == ImmEntries(s)
  {
    assert forall e :: e in s.imm.value ==> e in Members(s.imm.value);
  }

  lemma TableKeepsJob(s: State, s': State, level: nat, g: File)
    requires LayersOk(s) && JobOk(s) && s' == s.(imm := None, nextFile := s.nextFile + 1, version := s'.version)
    requires Flushed(s.version, s'.version, level, g) && NoOverlapDownTo(s.version, level, g) && TableValid(g)
    requires Newer(FileEntries(g), VersionEntries(s.version))
    ensures JobOk(s')
  {
    hide Flushed, NoOverlapDownTo, TableValid, Newer, Ready, BaseStillBase, DeepLevelsOk, VersionValid;
    if s.job.Some? {
      var j := s.job.value;
      FlushKeepsReady(s.version, s'.version, j.inputs.level, j.inputs.inputs0, j.inputs.inputs1, g, level);
      FlushKeepsBase(s.version, s'.version, j.version, j.inputs.level, j.inputs.inputs0, j.inputs.inputs1, g, level);
    }
  }

  lemma TableKeepsInv(s: State, s': State, level: nat, size: nat)
    requires Inv(s) && FlushStep(s, s', level, size) && s.imm.value != []
    ensures Inv(s')
  {
    hide Flushed, NoOverlapDownTo, TableValid, VersionValid, JobOk, FilesOk, UniqueSeq, Sorted, SameReads;
    var g: File := TableFile(s.nextFile, size, s.imm.value);
    ImmTable(s, size);
    FlushedEntries(s.version, s'.version, level, g);
    assert TableEntries(s') == TableEntries(s) + ImmEntries(s);
    FlushedNumbers(s, s', level, g);
    NumbersAreBelow(s);
    FlushKeepsValid(s.version, s'.version, level, g);
    TableKeepsJob(s, s', level, g);
    assert All(s') == All(s) && ImmEntries(s') + TableEntries(s') == ImmEntries(s) + TableEntries(s);
  }

  lemma NumbersAreBelow(s: State)
    requires FilesOk(s)
    ensures NumbersBelow(s.version, s.nextFile)
  {
  }

  /* ---- snapshots ---- */

  lemma SnapshotKeepsInv(s: State, s': State)
    requires Inv(s) && SnapshotStep(s, s')
    ensures Inv(s')
  {
    assert All(s') == All(s);
    assert forall i :: 0 <= i < |s.snapshots| ==> s.snapshots[i] in s.snapshots;
    assert SnapshotsOk(s') && JobOk(s');
  }

  lemma RemovedStaysSorted(a: seq<nat>, i: nat, r: seq<nat>)
    requires i < |a| && forall x, y :: 0 <= x < y < |a| ==> a[x] <= a[y]
    requires r == a[..i] + a[i + 1..]
    ensures forall x, y :: 0 <= x < y < |r| ==> r[x] <= r[y]
    ensures forall n :: n in r ==> n in a
  {
    forall x, y | 0 <= x < y < |r|
      ensures r[x] <= r[y]
    {
      assert r[x] == a[if x < i then x else x + 1];
      assert r[y] == a[if y < i then y else y + 1];
    }
  }

  lemma ReleaseKeepsInv(s: State, s': State, i: nat)
    requires Inv(s) && ReleaseStep(s, s', i)
    ensures Inv(s')
  {
    assert All(s') == All(s);
    RemovedStaysSorted(s.snapshots, i, s'.snapshots);
    assert SnapshotsOk(s') && JobOk(s');
  }

  /* ---- compactions ---- */

  lemma OldestIsLeast(s: State)
    requires SnapshotsOk(s)
    ensures s.floor <= OldestSnapshot(s) <= s.lastSequence
    ensures forall n :: n in s.snapshots ==> OldestSnapshot(s) <= n
  {
    if s.snapshots != [] {
      assert s.snapshots[0] in s.snapshots;
    }
  }

  lemma StartKeepsInv(s: State, s': State, c: Inputs)
    requires Inv(s) && StartStep(s, s', c)
    ensures Inv(s')
  {
    assert All(s') == All(s);
    assert UniqueSeq(VersionEntries(s.version));
    ChosenReady(s.version, c);
    ChosenBase(s.version, c.level, c.inputs0, c.inputs1);
    assert c.inputs0 != [];
    OldestIsLeast(s);
    assert JobOk(s');
  }

  lemma AbandonKeepsInv(s: State, s': State)
    requires Inv(s) && AbandonStep(s, s')
    ensures Inv(s')
  {
    assert All(s') == All(s);
  }

  lemma {:induction false} ConcatEntries(files: seq<File>)
    ensures Members(Concat(files)) == LevelEntries(files)
  {
    if files != [] {
      var n := |files| - 1;
      ConcatEntries(files[..n]);
      LevelEntriesPush(files[..n], files[n]);
      assert files[..n] + [files[n]] == files;
      assert Concat(files) == Concat(files[..n]) + files[n].entries;
    }
  }

  lemma LevelEntriesPush(files: seq<File>, f: File)
    ensures LevelEntries(files + [f]) == LevelEntries(files) + FileEntries(f)
  {
    assert forall g :: g in files + [f] <==> g in files || g == f;
  }

  // Files cut from one sorted sequence are sorted and apart.
  lemma {:induction false} CutFiles(files: seq<File>)
    requires Sorted(Concat(files)) && forall e :: e in Concat(files) ==> e.sn <= MAX_SEQUENCE
    ensures TablesValid(files) && PairwiseDisjoint(files)
  {
    if files != [] {
      var n := |files| - 1;
      var front, last := files[..n], files[n];
      var es := Concat(front);
      assert Concat(files) == es + last.entries;
      assert forall i :: 0 <= i < |es| ==> Concat(files)[i] == es[i];
      assert forall i :: 0 <= i < |last.entries| ==> Concat(files)[|es| + i] == last.entries[i];
      CutFiles(front);
      ConcatEntries(front);
      forall f | f in front
        ensures Less(Largest(f), Smallest(last))
      {
        var e := f.entries[|f.entries| - 1];
        assert e in f.entries && e in LevelEntries(front);
        assert e in Members(es);
        var i :| 0 <= i < |es| && es[i] == e;
        assert Before(Concat(files)[i], Concat(files)[|es|]);
      }
      assert forall f :: f in files <==> f in front || f == last;
    }
  }

  lemma OutputsAreKept(s: State, input: seq<Entry>, outputs: seq<File>)
    requires ContentOk(s) && s.job.Some? && MergeOf(s.job.value, input)
    requires JobEntries(s.job.value) <= All(s)
    requires Concat(outputs) == Kept(s.job.value.version, s.job.value.inputs.level, input, |input|, s.job.value.snapshot)
    ensures OutputsOf(s.job.value.inputs.inputs0, s.job.value.inputs.inputs1, outputs)
    ensures LevelEntries(outputs) == Members(Concat(outputs))
  {
    var j := s.job.value;
    KeptSorted(j.version, j.inputs.level, input, |input|, j.snapshot);
    assert input[..|input|] == input;
    assert forall e :: e in Concat(outputs) ==> e in Members(input);
    CutFiles(outputs);
    ConcatEntries(outputs);
  }

  lemma JobWithin(s: State)
    requires Inv(s) && s.job.Some?
    ensures JobEntries(s.job.value) <= TableEntries(s)
    ensures JobEntries(s.job.value) !! Members(s.mem) && JobEntries(s.job.value) !! ImmEntries(s)
  {
    var j := s.job.value;
    VersionLevelTables(s.version, j.inputs.level);
    VersionLevelTables(s.version, j.inputs.level + 1);
  }

  /* ---- the hazard ---- */

  // Reads at or above the job's snapshot would change.
  ghost predicate Resurrecting(s: State, input: seq<Entry>)
    requires s.job.Some?
  {
    Resurrects(All(s), s.job.value.version, s.job.value.inputs.level, input, s.job.value.snapshot)
  }

  // What a read of the marker's key at the job's snapshot finds.
  ghost predicate HidesAtSnapshot(s: State, m: Entry)
    requires s.job.Some?
  {
    var j := s.job.value;
    && m in JobEntries(j) && m.kind.Deletion? && IsNewest(All(s), m.key, j.snapshot, m)
    && BaseLevel(j.version, j.inputs.level, m.key)
  }

  // What is older than an entry of the tables is in the tables.
  lemma OlderInTables(s: State, m: Entry, x: Entry)
    requires Inv(s) && m in TableEntries(s) && x in All(s) && x.key == m.key && x.sn < m.sn
    ensures x in TableEntries(s)
  {
  }

  // What the marker hides outside the inputs lies in or behind the first file behind them.
  lemma HiddenIsBehind(s: State, m: Entry, x: Entry)
    requires Inv(s) && s.job.Some? && HidesAtSnapshot(s, m)
    requires x in All(s) && x !in JobEntries(s.job.value) && Matches(x, m.key, s.job.value.snapshot)
    ensures BoundaryBehind(s).Some? && Smallest(BoundaryBehind(s).value).user == m.key
    ensures x.sn <= BoundaryBehind(s).value.entries[0].sn
  {
    var j := s.job.value;
    JobWithin(s);
    assert x.sn < m.sn by {
      hide JobOk, LayersOk, FilesOk, MeaningOk, SnapshotsOk;
      assert x in s.history && m in s.history;
    }
    OlderInTables(s, m, x);
    HiddenInTables(s, m, x);
  }

  lemma HiddenInTables(s: State, m: Entry, x: Entry)
    requires VersionValid(s.version) && JobOk(s) && s.job.Some? && x in TableEntries(s)
    requires m in JobEntries(s.job.value) && BaseLevel(s.job.value.version, s.job.value.inputs.level, m.key)
    requires x !in JobEntries(s.job.value) && x.key == m.key && x.sn < m.sn
    ensures BoundaryBehind(s).Some? && Smallest(BoundaryBehind(s).value).user == m.key
    ensures x.sn <= BoundaryBehind(s).value.entries[0].sn
  {
    hide VersionValid, Ready, BaseStillBase, BaseLevel, SmallestBoundary, TopKey, LevelEntries, VersionEntries;
    var j := s.job.value;
    var b := UncoveredBehind(s.version, j.version, j.inputs.level, j.inputs.inputs0, j.inputs.inputs1, m, x);
  }

  lemma BehindHidden(s: State, b: File, m: Entry)
    requires VersionValid(s.version) && JobOk(s) && s.job.Some? && BoundaryBehind(s) == Some(b)
    requires m in JobEntries(s.job.value) && m.key == Smallest(b).user
    ensures b.entries[0] in TableEntries(s) && b.entries[0] !in JobEntries(s.job.value) && b.entries[0].sn <= m.sn
  {
    hide VersionValid, Ready, BaseStillBase, BaseLevel, SmallestBoundary, TopKey, LevelEntries, VersionEntries;
    var c := s.job.value.inputs;
    BehindIsLeft(s.version, c.level, c.inputs0, c.inputs1, b, b.entries[0]);
    InputBeforeBehind(s.version, c.level, c.inputs0, c.inputs1, b, m);
  }

  lemma NewestBehind(s: State, b: File, m: Entry)
    requires Inv(s) && s.job.Some? && BoundaryBehind(s) == Some(b)
    requires HidesAtSnapshot(s, m) && m.key == Smallest(b).user
    ensures Lookup(All(s) - JobEntries(s.job.value), m.key, s.job.value.snapshot) == Some(b.entries[0])
  {
    var rest := All(s) - JobEntries(s.job.value);
    BehindHidden(s, b, m);
    forall x | x in rest && Matches(x, m.key, s.job.value.snapshot)
      ensures x.sn <= b.entries[0].sn
    {
      HiddenIsBehind(s, m, x);
    }
    assert UniqueSeq(rest) by {
      hide JobOk, LayersOk, FilesOk, MeaningOk, SnapshotsOk;
    }
    LookupIs(rest, m.key, s.job.value.snapshot, b.entries[0]);
  }

  lemma HazardResurrects(s: State, input: seq<Entry>)
    requires Inv(s) && s.job.Some? && MergeOf(s.job.value, input) && Hazard(s, input)
    ensures Resurrecting(s, input)
  {
    hide Inv, All, JobEntries, BaseLevel, BoundaryBehind, Sorted;
    var j, b := s.job.value, BoundaryBehind(s).value;
    var m :| m in input && m.kind.Deletion? && IsNewest(All(s), Smallest(b).user, j.snapshot, m);
    assert m in Members(input);
    NewestBehind(s, b, m);
  }

  lemma ResurrectingIsHazard(s: State, input: seq<Entry>)
    requires Inv(s) && s.job.Some? && MergeOf(s.job.value, input) && Resurrecting(s, input)
    ensures Hazard(s, input)
  {
    hide Inv, All, JobEntries, BaseLevel, BoundaryBehind, Sorted;
    var j := s.job.value;
    var rest := All(s) - Members(input);
    var m :| m in input && m.kind.Deletion? && IsNewest(All(s), m.key, j.snapshot, m)
             && BaseLevel(j.version, j.inputs.level, m.key) && Get(rest, m.key, j.snapshot).Some?;
    assert m in Members(input) && HidesAtSnapshot(s, m);
    HiddenIsBehind(s, m, Lookup(rest, m.key, j.snapshot).value);
    NewestBehind(s, BoundaryBehind(s).value, m);
  }

  // What a caller can check on the first file behind the inputs says exactly whether a
  // deleted value would come back.
  lemma HazardIsResurrection(s: State, input: seq<Entry>)
    requires Inv(s) && s.job.Some? && MergeOf(s.job.value, input)
    ensures Hazard(s, input) <==> Resurrecting(s, input)
  {
    hide Inv, All, JobEntries, MergeOf, Hazard, Resurrecting;
    if Hazard(s, input) {
      HazardResurrects(s, input);
    }
    if Resurrecting(s, input) {
      ResurrectingIsHazard(s, input);
    }
  }

  lemma InstalledNumbers(s: State, s': State, level: nat, inputs0: seq<File>, inputs1: seq<File>, outputs: seq<File>)
    requires FilesOk(s) && Installed(s.version, s'.version, level, inputs0, inputs1, outputs) && LevelsSorted(s'.version)
    requires FreshNumbers(s, outputs, s.nextFile) && s'.nextFile == s.nextFile
    ensures FilesOk(s')
  {
    forall l, f | Placed(s'.version, l, f)
      ensures Placed(s.version, l, f) || (f in outputs && l == level + 1)
    {
    }
    NumbersStayUnique(s.version, s'.version, s.nextFile, s'.nextFile, outputs, level + 1);
  }

  // What finishing a compaction does to the store's entries.
  lemma FinishedEntries(s: State, s': State, input: seq<Entry>, outputs: seq<File>)
    requires Inv(s) && FinishStep(s, s', input, outputs)
    ensures All(s') == Compacted(All(s), s.job.value.version, s.job.value.inputs.level, input, s.job.value.snapshot)
    ensures TableEntries(s') <= TableEntries(s)
  {
    var j := s.job.value;
    var c := j.inputs;
    JobWithin(s);
    OutputsAreKept(s, input, outputs);
    InstalledContent(s.version, s'.version, c.level, c.inputs0, c.inputs1, outputs);
    ReplacedEntries(s, s', JobEntries(j), LevelEntries(outputs));
  }

  // The version stays in order exactly when no output reaches across a file that stays.
  lemma FinishedValidIff(s: State, s': State, input: seq<Entry>, outputs: seq<File>)
    requires Inv(s) && FinishStep(s, s', input, outputs)
    ensures VersionValid(s'.version) <==> !Straddles(s, outputs)
  {
    var c := s.job.value.inputs;
    JobWithin(s);
    OutputsAreKept(s, input, outputs);
    hide Inv, OutputsOf, Kept, JobEntries;
    PlacedReady(s);
    if Straddles(s, outputs) {
      var g, o :| g in s.version[c.level + 1] && g !in c.inputs1 && o in outputs && !ApartFrom(g, o);
      assert Placed(s.version, c.level + 1, g);
      StraddlingBreaks(s.version, s'.version, c.level, c.inputs0, c.inputs1, outputs, g, o);
    } else {
      InstallKeepsValid(s.version, s'.version, c.level, c.inputs0, c.inputs1, outputs);
    }
  }

  lemma PlacedReady(s: State)
    requires Inv(s) && s.job.Some?
    ensures VersionValid(s.version) && UniqueNumbers(s.version)
    ensures var c := s.job.value.inputs;
            c.level + 1 < NUM_LEVELS && Ready(s.version, c.level, c.inputs0, c.inputs1) && Subset(c.inputs1, s.version[c.level + 1])
  {
  }

  // Inputs without a gap keep clear of every file that stays.
  lemma ConnectedNeverStraddles(s: State, s': State, input: seq<Entry>, outputs: seq<File>)
    requires Inv(s) && FinishStep(s, s', input, outputs)
    requires Connected(s.job.value.inputs.inputs0 + s.job.value.inputs.inputs1)
    ensures !Straddles(s, outputs)
  {
    var c := s.job.value.inputs;
    JobWithin(s);
    OutputsAreKept(s, input, outputs);
    ConnectedIsApart(s.version, c.level, c.inputs0, c.inputs1, outputs);
  }

  lemma ReplacedEntries(s: State, s': State, gone: set<Entry>, added: set<Entry>)
    requires s'.mem == s.mem && s'.imm == s.imm && gone !! Members(s.mem) && gone !! ImmEntries(s)
    requires TableEntries(s') == TableEntries(s) - gone + added && added <= gone <= TableEntries(s)
    ensures All(s') == All(s) - gone + added
    ensures TableEntries(s') <= TableEntries(s)
  {
  }

  lemma RaisedFloor(H: set<Entry>, A: set<Entry>, A': set<Entry>, floor: nat, snapshot: nat)
    requires SameReads(H, A, floor) && SameReads(A, A', snapshot)
    ensures SameReads(H, A', if floor < snapshot then snapshot else floor)
  {
  }

  lemma FinishKeepsInv(s: State, s': State, input: seq<Entry>, outputs: seq<File>)
    requires Inv(s) && FinishStep(s, s', input, outputs) && !Hazard(s, input) && !Straddles(s, outputs)
    ensures Inv(s')
  {
    var j := s.job.value;
    HazardIsResurrection(s, input);
    JobWithin(s);
    FinishedEntries(s, s', input, outputs);
    FinishedValidIff(s, s', input, outputs);
    assert MergeInput(All(s), input);
    CompactionPreservesReadsIff(All(s), j.version, j.inputs.level, input, j.snapshot);
    RaisedFloor(s.history, All(s), All(s'), s.floor, j.snapshot);
    CompactedSubset(All(s), j.version, j.inputs.level, input, j.snapshot);
    InstalledNumbers(s, s', j.inputs.level, j.inputs.inputs0, j.inputs.inputs1, outputs);
    assert ContentOk(s');
    assert LayersOk(s');
    assert SnapshotsOk(s');
  }

  // With a hazard, a reader at the job's snapshot sees a deleted key come back.
  lemma FinishHazardBreaks(s: State, s': State, input: seq<Entry>, outputs: seq<File>) returns (k: UserKey)
    requires Inv(s) && FinishStep(s, s', input, outputs) && Hazard(s, input)
    ensures Get(All(s), k, s.job.value.snapshot) == None && Get(All(s'), k, s.job.value.snapshot).Some?
  {
    HazardIsResurrection(s, input);
    JobWithin(s);
    FinishedEntries(s, s', input, outputs);
    k := ReadResurrected(All(s), s.job.value.version, s.job.value.inputs.level, input, s.job.value.snapshot);
  }

  // Finishing keeps the invariant exactly when it is neither hazard.
  lemma FinishKeepsInvIff(s: State, s': State, input: seq<Entry>, outputs: seq<File>)
    requires Inv(s) && FinishStep(s, s', input, outputs)
    ensures Inv(s') <==> !Hazard(s, input) && !Straddles(s, outputs)
  {
    if !Hazard(s, input) && !Straddles(s, outputs) {
      FinishKeepsInv(s, s', input, outputs);
    } else {
      FinishedValidIff(s, s', input, outputs);
      if Hazard(s, input) {
        HazardBreaksMeaning(s, s', input, outputs);
      }
    }
  }

  lemma HazardBreaksMeaning(s: State, s': State, input: seq<Entry>, outputs: seq<File>)
    requires Inv(s) && FinishStep(s, s', input, outputs) && Hazard(s, input)
    ensures !MeaningOk(s')
  {
    var k := FinishHazardBreaks(s, s', input, outputs);
    var q := s.job.value.snapshot;
    assert Get(All(s), k, q) == Get(s.history, k, q);
    assert s'.floor == q && s'.history == s.history;
  }

  /* ---- the trivial move ---- */

  lemma MovedNumbers(s: State, s': State, level: nat, f: File)
    requires FilesOk(s) && level + 1 < NUM_LEVELS && f in s.version[level]
    requires Installed(s.version, s'.version, level, [f], [], [f]) && LevelsSorted(s'.version)
    requires s'.nextFile == s.nextFile
    ensures FilesOk(s')
  {
    assert f in [f] && f.number in NumbersOf([f]);
    assert Placed(s.version, level, f);
    forall l, g | Placed(s'.version, l, g)
      ensures (g == f && l == level + 1) || (Placed(s.version, l, g) && g.number != f.number)
    {
      if !(g == f && l == level + 1) {
        assert Placed(s.version, l, g);
      }
    }
  }

  lemma MovedEntries(v: Version, v': Version, level: nat, f: File)
    requires VersionValid(v) && UniqueNumbers(v) && Ready(v, level, [f], [])
    requires Installed(v, v', level, [f], [], [f])
    ensures VersionValid(v') && VersionEntries(v') == VersionEntries(v)
  {
    MovedApart(v, level, f);
    assert f in [f] && f in v[level];
    VersionLevelTables(v, level);
    assert OutputsOf([f], [], [f]);
    InstalledContent(v, v', level, [f], [], [f]);
    InstallKeepsValid(v, v', level, [f], [], [f]);
    assert LevelEntries([f]) <= LevelEntries(v[level]);
  }

  lemma SingleReady(v: Version, c: Inputs)
    requires VersionValid(v) && UniqueSeq(VersionEntries(v)) && WellChosen(v, c) && |c.inputs0| == 1 && c.inputs1 == []
    ensures c.inputs0 == [c.inputs0[0]] && Ready(v, c.level, [c.inputs0[0]], [])
  {
    hide VersionValid, WellChosen, UniqueSeq, VersionEntries, Ready;
    ChosenReady(v, c);
    assert c.inputs0 == [c.inputs0[0]];
  }

  lemma MovedInv(s: State, s': State, level: nat, f: File)
    requires Inv(s) && s.job.None? && Ready(s.version, level, [f], [])
    requires Installed(s.version, s'.version, level, [f], [], [f]) && LevelsSorted(s'.version)
    requires s' == s.(version := s'.version)
    ensures Inv(s')
  {
    MovedEntries(s.version, s'.version, level, f);
    assert All(s') == All(s);
    assert f in [f] && f in s.version[level];
    MovedNumbers(s, s', level, f);
  }

  lemma MoveKeepsInv(s: State, s': State, c: Inputs)
    requires Inv(s) && MoveStep(s, s', c)
    ensures Inv(s')
  {
    assert UniqueSeq(VersionEntries(s.version));
    SingleReady(s.version, c);
    MovedInv(s, s', c.level, c.inputs0[0]);
  }
}
