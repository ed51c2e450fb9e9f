/**
 A concrete run in which a put is lost from sight. A manual compaction may have inputs with
 a gap between them, and while it runs a memtable may be flushed into that gap
 (db_impl.cc:908): the level for it is picked from the current version, which does not show
 what the compaction is about to write (version_set.cc:491). The output then reaches across
 the flushed table, the level is out of order, and the binary search of a lookup passes the
 table by.

 All it takes is Write and CompactRange: four puts, each flushed, the first two to level 2
 and the others to level 1; a compaction of the whole range of level 1; and a put between
 the keys that fills the memtable while the compaction runs.
 */
module GapFlush {
  import opened Keys
  import opened FlatMap
  import opened Tables
  import opened Selection
  import opened Picking
  import opened CompactionWork
  import opened Preservation
  import opened Versions
  import opened Store
  import opened Runs

  const P1 := Entry(1, 1, Put("a"))
  const P9 := Entry(9, 2, Put("b"))
  const Q1 := Entry(1, 3, Put("c"))
  const Q9 := Entry(9, 4, Put("d"))
  const P5 := Entry(5, 5, Put("e"))

  const A: File := TableFile(3, 1, [P1])
  const B: File := TableFile(5, 1, [P9])
  const C: File := TableFile(7, 1, [Q1])
  const D: File := TableFile(9, 1, [Q9])
  const G: File := TableFile(11, 1, [P5])
  const O: File := TableFile(12, 1, [Q1, Q9])

  function Levels(one: seq<File>, two: seq<File>): Version {
    [[], one, two, [], [], [], []]
  }

  const V0 := Levels([], [])
  const V1 := Levels([], [A])
  const V2 := Levels([], [A, B])
  const V3 := Levels([C], [A, B])
  const V4 := Levels([C, D], [A, B])
  const V5 := Levels([C, D], [A, G, B])
  const V6 := Levels([], [O, G])

  const JOB := Job(Inputs(1, [C, D], [A, B], []), V4, 4)

  const S0 := State([], None, V0, 0, [], 2, None, {}, 0)
  const S1 := State([], None, V1, 1, [], 4, None, {P1}, 0)
  const S2 := State([], None, V2, 2, [], 6, None, {P1, P9}, 0)
  const S3 := State([], None, V3, 3, [], 8, None, {P1, P9, Q1}, 0)
  const S4 := State([], None, V4, 4, [], 10, None, {P1, P9, Q1, Q9}, 0)
  const S5 := State([], None, V4, 4, [], 10, Some(JOB), {P1, P9, Q1, Q9}, 0)
  const S6 := State([], None, V5, 5, [], 12, Some(JOB), {P1, P9, Q1, Q9, P5}, 0)
  const S7 := State([], None, V5, 5, [], 13, Some(JOB), {P1, P9, Q1, Q9, P5}, 0)
  const S8 := State([], None, V6, 5, [], 13, None, {P1, P9, Q1, Q9, P5}, 4)

  /* ---- a put and its flush ---- */

  // What is left once a put has been written, switched away and flushed.
  function Flushed1(s: State, e: Entry, v: Version): State {
    s.(version := v, lastSequence := e.sn, nextFile := s.nextFile + 2, history := s.history + {e})
  }

  // The level is the one that the code picks.
  ghost predicate FlushesTo(s: State, e: Entry, level: nat, v: Version) {
    var g: File := TableFile(s.nextFile + 1, 1, [e]);
    && Versions.Flushed(s.version, v, level, g) && NoOverlapDownTo(s.version, level, g)
    && IsOutputLevel(s.version, e.key, e.key, 1, level)
  }

  lemma PutFlushed(s: State, e: Entry, level: nat, v: Version)
    requires Reachable(s) && s.mem == [] && s.imm.None? && e.sn == s.lastSequence + 1 < MAX_SEQUENCE
    requires FlushesTo(s, e, level, v)
    ensures Reachable(Flushed1(s, e, v))
  {
    var s1 := s.(mem := [e], lastSequence := e.sn, history := s.history + {e});
    var s2 := s1.(nextFile := s1.nextFile + 1);
    var s3 := s2.(mem := [], imm := Some([e]));
    var s4 := Flushed1(s, e, v);
    PutWritten(s, e, s1);
    Switched(s1, s2, s3);
    FlushedTo(s3, s4, level, 1);
  }

  lemma PutWritten(s: State, e: Entry, s1: State)
    requires Reachable(s) && s.mem == [] && e.sn == s.lastSequence + 1 < MAX_SEQUENCE
    requires s1 == s.(mem := [e], lastSequence := e.sn, history := s.history + {e})
    ensures Reachable(s1)
  {
    var batch := [Op(e.key, e.kind)];
    assert batch[..0] == [] && BatchEntries(batch, e.sn) == [e];
    assert WriteStep(s, s1, batch) by {
      hide Reachable;
    }
    hide WriteStep, BatchEntries;
    Written(s, s1, batch);
  }

  // Files of size 1 do not weigh more than they are many.
  lemma {:induction false} FewBytes(files: seq<File>, k: UserKey)
    requires forall f :: f in files ==> f.size == 1
    ensures TotalFileSize(Overlapping(files, Some(k), Some(k))) <= |files|
  {
    if files != [] {
      var n := |files| - 1;
      FewBytes(files[..n], k);
      TotalFileSizePush(Overlapping(files[..n], Some(k), Some(k)), files[n]);
      AppendNothing(Overlapping(files[..n], Some(k), Some(k)));
    }
  }

  /* ---- the run ---- */

  lemma FirstFlush()
    ensures FlushesTo(S0, P1, 2, V1)
  {
    FewBytes([], 1);
  }

  lemma SecondFlush()
    ensures FlushesTo(S1, P9, 2, V2)
  {
    FewBytes([A], 9);
    FewBytes([], 9);
  }

  lemma ThirdFlush()
    ensures FlushesTo(S2, Q1, 1, V3)
  {
    FewBytes([A, B], 1);
    assert A in V2[2] && Overlaps(A, Some(1), Some(1));
  }

  lemma FourthFlush()
    ensures FlushesTo(S3, Q9, 1, V4)
  {
    FewBytes([A, B], 9);
    assert B in V3[2] && Overlaps(B, Some(9), Some(9));
  }

  // Into the gap between the files that are being compacted.
  lemma GapIsFree()
    ensures FlushesTo(S5, P5, 2, V5)
  {
    GapAtLevel();
    GapFlushed();
    hide IsOutputLevel, Versions.Flushed, NoOverlapDownTo;
  }

  lemma GapFlushed()
    ensures Versions.Flushed(V4, V5, 2, G) && NoOverlapDownTo(V4, 2, G)
  {
    hide Overlapping;
  }

  lemma GapAtLevel()
    ensures IsOutputLevel(V4, 5, 5, 1, 2)
  {
    FewBytes([A, B], 5);
    FewBytes([], 5);
    hide Overlapping;
  }

  lemma FourPuts()
    ensures Reachable(S4)
  {
    InitReachable(S0);
    FirstFlush();
    PutFlushed(S0, P1, 2, V1);
    assert Flushed1(S0, P1, V1) == S1;
    SecondFlush();
    PutFlushed(S1, P9, 2, V2);
    assert Flushed1(S1, P9, V2) == S2;
    ThirdFlush();
    PutFlushed(S2, Q1, 1, V3);
    assert Flushed1(S2, Q1, V3) == S3;
    FourthFlush();
    PutFlushed(S3, Q9, 1, V4);
    assert Flushed1(S3, Q9, V4) == S4;
  }

  lemma BothMet()
    ensures Overlapping([A, B], Some(1), Some(9)) == [A, B]
  {
    assert [A, B][..1] == [A] && [A][..0] == [];
    assert Overlapping([A], Some(1), Some(9)) == [A];
  }

  lemma InputsChosen()
    ensures WellChosen(V4, JOB.inputs)
  {
    InputsAlone();
    InputsMeet();
    hide IsClosedRun, MeetsBelow;
  }

  lemma InputsAlone()
    ensures IsClosedRun([C, D], [C, D])
  {
    AllOfLevel([C, D]);
  }

  lemma InputsMeet()
    ensures MeetsBelow([A, B], [C, D], [A, B])
  {
    BothMet();
    hide Overlapping;
    assert C in [C, D] && D in [C, D];
    assert IsSmallestKey([C, D], Q1.Ik()) && IsLargestKey([C, D], Q9.Ik());
  }

  lemma MiddlePut()
    requires Reachable(S4)
    ensures Reachable(S7)
  {
    InputsChosen();
    Started(S4, S5, JOB.inputs);
    GapIsFree();
    PutFlushed(S5, P5, 2, V5);
    assert Flushed1(S5, P5, V5) == S6;
    Renumbered(S6, S7);
  }

  lemma EntriesOfTwo(f: File, g: File)
    ensures LevelEntries([f, g]) == Members(f.entries) + Members(g.entries)
  {
    var fs := [f, g];
    assert f in fs && g in fs && forall x :: x in fs ==> x == f || x == g;
  }

  lemma InputsMerged(input: seq<Entry>)
    requires input == [Q1, P1, Q9, P9]
    ensures MergeOf(JOB, input)
  {
    EntriesOfTwo(C, D);
    EntriesOfTwo(A, B);
    assert Q1 in input && P1 in input && Q9 in input && P9 in input;
  }

  lemma InputsKept(input: seq<Entry>)
    requires input == [Q1, P1, Q9, P9]
    ensures Kept(JOB.version, 1, input, 4, 4) == [Q1, Q9]
    ensures Concat([O]) == [Q1, Q9]
  {
    assert Kept(JOB.version, 1, input, 1, 4) == [Q1];
    assert Kept(JOB.version, 1, input, 2, 4) == [Q1];
    assert Kept(JOB.version, 1, input, 3, 4) == [Q1, Q9];
    assert [O][..0] == [];
  }

  lemma OutputInstalled()
    ensures Installed(V5, V6, 1, [C, D], [A, B], [O]) && LevelsSorted(V6)
  {
    assert C in [C, D] && D in [C, D] && A in [A, B] && B in [A, B];
    assert NumbersOf([C, D]) == {7, 9} && NumbersOf([A, B]) == {3, 5};
  }

  lemma OutputIsFresh()
    ensures FreshNumbers(S7, [O], 13)
  {
  }

  lemma LastFinish()
    ensures Next(S7, S8)
  {
    var input := [Q1, P1, Q9, P9];
    InputsMerged(input);
    InputsKept(input);
    OutputInstalled();
    OutputIsFresh();
    hide Installed, FreshNumbers, MergeOf, LevelsSorted;
    assert FinishStep(S7, S8, input, [O]);
  }

  /* ---- the result ---- */

  // Nothing in memory, nothing at level 0, and no level's search finds the key.
  ghost predicate SearchMisses(s: State, k: UserKey) {
    && s.mem == [] && s.imm.None? && s.version[0] == []
    && forall l :: 1 <= l < NUM_LEVELS ==> LevelAnswer(s.version[l], k, s.lastSequence) == None
  }

  lemma SearchPassesBy()
    ensures SearchMisses(S8, 5)
  {
    var seek := SeekKey(5, 5);
    assert Bisect([O, G], seek, 0, 1) == 0 && Bisect([O, G], seek, 0, 2) == 0;
    assert LowerBound([Q9], seek) == 0;
    assert O.entries[1..] == [Q9] && LowerBound(O.entries, seek) == 1;
  }

  lemma StillThere()
    ensures Get(S8.history, 5, 5) == Some("e") && Get(All(S8), 5, 5) == Some("e")
  {
    LookupIs(S8.history, 5, 5, P5);
    assert G in S8.version[2] && P5 in G.entries;
    assert IsNewest(All(S8), 5, 5, P5);
    assert All(S8) <= S8.history;
    LookupIs(All(S8), 5, 5, P5);
  }

  // From a state that a safe run may reach, one finished compaction leaves a value where
  // the last write put it, and no lookup finds it.
  lemma PutOutOfSight()
    ensures exists s, s', k :: Reachable(s) && Next(s, s') && Get(s'.history, k, s'.lastSequence).Some? && SearchMisses(s', k)
  {
    FourPuts();
    MiddlePut();
    LastFinish();
    SearchPassesBy();
    StillThere();
    assert Reachable(S7) && Next(S7, S8);
  }
}
