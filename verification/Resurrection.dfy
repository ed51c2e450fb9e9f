/**
 A concrete run in which a deleted value comes back. Every step is one the engine takes for a
 caller of Write, GetSnapshot, ReleaseSnapshot and CompactRange; only the last compaction is
 a hazard. The upper inputs of a compaction are closed under boundary files
 (version_set.cc:1407), the lower inputs are not (version_set.cc:1410), so a deletion marker
 can be dropped while the value it hides stays behind in the next file.

 CompactRange (db_impl.cc:568) flushes the memtable and then compacts each level above the
 deepest one with files in the range. The first flush meets nothing and goes to level 2, the
 two later ones meet level 2 and stay at level 1 (version_set.cc:491), so both compactions
 are of level 1 with level 2. The first one's output is cut behind the marker, as a block
 size above the file size limit and a large value for key 4 make it (db_impl.cc:988).
 */
module Resurrection {
  import opened Keys
  import opened FlatMap
  import opened Tables
  import opened Selection
  import opened Picking
  import opened CompactionWork
  import opened Preservation
  import opened Versions
  import opened Store
  import opened Runs

  const PUT4 := Entry(4, 1, Put("a"))
  const PUT5 := Entry(5, 2, Put("b"))
  const DEL5 := Entry(5, 3, Deletion)
  const NEW4 := Entry(4, 4, Put("c"))

  const FIRST: File := TableFile(3, 1, [PUT4, PUT5])
  const MARK: File := TableFile(5, 1, [DEL5])
  const UPPER: File := TableFile(6, 1, [PUT4, DEL5])
  const LOWER: File := TableFile(7, 1, [PUT5])
  const SECOND: File := TableFile(9, 1, [NEW4])
  const RESULT: File := TableFile(10, 1, [NEW4])

  function Levels(one: seq<File>, two: seq<File>): Version {
    [[], one, two, [], [], [], []]
  }

  const V0 := Levels([], [])
  const V1 := Levels([], [FIRST])
  const V2 := Levels([MARK], [FIRST])
  const V3 := Levels([], [UPPER, LOWER])
  const V4 := Levels([SECOND], [UPPER, LOWER])
  const V5 := Levels([], [RESULT, LOWER])

  const JOB1 := Job(Inputs(1, [MARK], [FIRST], []), V2, 2)
  const JOB2 := Job(Inputs(1, [SECOND], [UPPER], []), V4, 4)

  const H2 := {PUT4, PUT5}
  const H3 := {PUT4, PUT5, DEL5}
  const H4 := {PUT4, PUT5, DEL5, NEW4}

  // Two puts, flushed. A switch of memtables takes a file number for its log.
  const S0 := State([], None, V0, 0, [], 2, None, {}, 0)
  const S1 := State([PUT4, PUT5], None, V0, 2, [], 2, None, H2, 0)
  const S2 := State([PUT4, PUT5], None, V0, 2, [], 3, None, H2, 0)
  const S3 := State([], Some([PUT4, PUT5]), V0, 2, [], 3, None, H2, 0)
  const S4 := State([], None, V1, 2, [], 4, None, H2, 0)
  // A snapshot, and a deletion, flushed.
  const S5 := State([], None, V1, 2, [2], 4, None, H2, 0)
  const S6 := State([DEL5], None, V1, 3, [2], 4, None, H3, 0)
  const S7 := State([DEL5], None, V1, 3, [2], 5, None, H3, 0)
  const S8 := State([], Some([DEL5]), V1, 3, [2], 5, None, H3, 0)
  const S9 := State([], None, V2, 3, [2], 6, None, H3, 0)
  // A compaction; the snapshot keeps the deleted value, and the cut falls before it.
  const S10 := State([], None, V2, 3, [2], 6, Some(JOB1), H3, 0)
  const S11 := State([], None, V2, 3, [2], 7, Some(JOB1), H3, 0)
  const S12 := State([], None, V2, 3, [2], 8, Some(JOB1), H3, 0)
  const S13 := State([], None, V3, 3, [2], 8, None, H3, 2)
  // The snapshot goes, and another put is flushed.
  const S14 := State([], None, V3, 3, [], 8, None, H3, 2)
  const S15 := State([NEW4], None, V3, 4, [], 8, None, H4, 2)
  const S16 := State([NEW4], None, V3, 4, [], 9, None, H4, 2)
  const S17 := State([], Some([NEW4]), V3, 4, [], 9, None, H4, 2)
  const S18 := State([], None, V4, 4, [], 10, None, H4, 2)
  // The compaction that drops the marker and leaves the value.
  const S19 := State([], None, V4, 4, [], 10, Some(JOB2), H4, 2)
  const S20 := State([], None, V4, 4, [], 11, Some(JOB2), H4, 2)
  const S21 := State([], None, V5, 4, [], 11, None, H4, 4)

  /* ---- the run up to the first compaction ---- */

  lemma Batches()
    ensures BatchEntries([Op(4, Put("a")), Op(5, Put("b"))], 1) == [PUT4, PUT5]
    ensures BatchEntries([Op(5, Deletion)], 3) == [DEL5] && BatchEntries([Op(4, Put("c"))], 4) == [NEW4]
  {
    var b, d, c := [Op(4, Put("a")), Op(5, Put("b"))], [Op(5, Deletion)], [Op(4, Put("c"))];
    assert b[..1] == [Op(4, Put("a"))] && b[..1][..0] == [] && d[..0] == [] && c[..0] == [];
    assert BatchEntries(b[..1], 1) == [PUT4];
  }

  lemma FirstWrite()
    ensures Reachable(S3)
  {
    Batches();
    InitReachable(S0);
    Written(S0, S1, [Op(4, Put("a")), Op(5, Put("b"))]);
    Switched(S1, S2, S3);
  }

  lemma FirstFlush()
    requires Reachable(S3)
    ensures Reachable(S5)
  {
    FlushedTo(S3, S4, 2, 1);
    assert SnapshotStep(S4, S5);
    Onward(S4, S5);
  }

  lemma SecondWrite()
    requires Reachable(S5)
    ensures Reachable(S8)
  {
    Batches();
    Written(S5, S6, [Op(5, Deletion)]);
    Switched(S6, S7, S8);
  }

  lemma SecondFlush()
    requires Reachable(S8)
    ensures Reachable(S9)
  {
    FlushedTo(S8, S9, 1, 1);
  }

  lemma LoneFile(f: File, below: seq<File>)
    requires TableValid(f)
    ensures IsClosedRun([f], [f]) && MeetsBelow(below, [f], Overlapping(below, Some(Smallest(f).user), Some(Largest(f).user)))
  {
    assert f in [f];
    AllOfLevel([f]);
    assert IsSmallestKey([f], Smallest(f)) && IsLargestKey([f], Largest(f));
  }

  lemma LoneChosen(v: Version, c: Inputs, f: File)
    requires 1 <= c.level && c.level + 1 < NUM_LEVELS && v[c.level] == [f] && c.inputs0 == [f] && TableValid(f)
    requires c.inputs1 == Overlapping(v[c.level + 1], Some(Smallest(f).user), Some(Largest(f).user))
    ensures WellChosen(v, c)
  {
    hide IsClosedRun, MeetsBelow, Overlapping, TableValid;
    LoneFile(f, v[c.level + 1]);
  }

  lemma LoneEntries(f: File)
    ensures LevelEntries([f]) == Members(f.entries)
  {
    assert f in [f];
  }

  lemma FirstInputs()
    ensures WellChosen(S9.version, JOB1.inputs)
  {
    assert [FIRST][..0] == [];
    assert Overlapping([FIRST], Some(5), Some(5)) == [FIRST];
    LoneChosen(V2, JOB1.inputs, MARK);
  }

  lemma FirstStart()
    requires Reachable(S9)
    ensures Reachable(S12)
  {
    FirstInputs();
    Started(S9, S10, JOB1.inputs);
    Renumbered(S10, S11);
    Renumbered(S11, S12);
  }

  lemma FirstKept(input: seq<Entry>)
    requires input == [PUT4, DEL5, PUT5]
    ensures Kept(JOB1.version, 1, input, 3, 2) == input
    ensures Concat([UPPER, LOWER]) == input
  {
    assert Kept(JOB1.version, 1, input, 1, 2) == [PUT4];
    assert Kept(JOB1.version, 1, input, 2, 2) == [PUT4, DEL5];
    assert [UPPER, LOWER][..1] == [UPPER] && [UPPER][..0] == [];
    assert Concat([UPPER]) == UPPER.entries;
  }

  lemma FirstInstall()
    ensures Installed(S12.version, S13.version, 1, [MARK], [FIRST], [UPPER, LOWER]) && LevelsSorted(S13.version)
    ensures FreshNumbers(S12, [UPPER, LOWER], 8)
  {
    assert FIRST in [FIRST] && MARK in [MARK];
  }

  // No file is left behind the inputs, and nothing is dropped yet: the deletion is newer
  // than the snapshot.
  lemma FirstIsSafe(input: seq<Entry>)
    requires input == [PUT4, DEL5, PUT5]
    ensures MergeOf(JOB1, input) && !Hazard(S12, input) && !Straddles(S12, [UPPER, LOWER])
  {
    LoneEntries(FIRST);
    LoneEntries(MARK);
    assert S12.version[2] == [FIRST];
  }

  lemma FirstFinish()
    requires Reachable(S12)
    ensures Reachable(S13)
  {
    var input := [PUT4, DEL5, PUT5];
    FirstKept(input);
    FirstIsSafe(input);
    FirstInstall();
    Finished(S12, S13, input, [UPPER, LOWER]);
  }

  /* ---- the run up to the second compaction ---- */

  lemma Release()
    requires Reachable(S13)
    ensures Reachable(S14)
  {
    assert ReleaseStep(S13, S14, 0);
    Onward(S13, S14);
  }

  lemma LastWrite()
    requires Reachable(S14)
    ensures Reachable(S17)
  {
    hide Reachable;
    Batches();
    Written(S14, S15, [Op(4, Put("c"))]);
    Switched(S15, S16, S17);
  }

  lemma LastFlush()
    requires Reachable(S17)
    ensures Reachable(S18)
  {
    FlushedTo(S17, S18, 1, 1);
  }

  // The lower inputs of the second compaction stop between the marker and the value.
  lemma SecondOverlaps()
    ensures Overlapping([UPPER, LOWER], Some(4), Some(4)) == [UPPER]
  {
    assert [UPPER, LOWER][..1] == [UPPER] && [UPPER][..0] == [];
    assert Overlaps(UPPER, Some(4), Some(4)) && !Overlaps(LOWER, Some(4), Some(4));
    assert Overlapping([UPPER], Some(4), Some(4)) == [UPPER];
  }

  lemma SecondInputs()
    ensures WellChosen(S18.version, JOB2.inputs)
  {
    hide Overlapping, WellChosen;
    SecondOverlaps();
    LoneChosen(V4, JOB2.inputs, SECOND);
  }

  lemma SecondStart()
    requires Reachable(S18)
    ensures Reachable(S20)
  {
    SecondInputs();
    Started(S18, S19, JOB2.inputs);
    Renumbered(S19, S20);
  }

  lemma SecondKept(input: seq<Entry>)
    requires input == [NEW4, PUT4, DEL5]
    ensures Kept(JOB2.version, 1, input, 3, 4) == [NEW4]
    ensures Concat([RESULT]) == [NEW4]
  {
    assert Kept(JOB2.version, 1, input, 1, 4) == [NEW4];
    assert Kept(JOB2.version, 1, input, 2, 4) == [NEW4];
    assert BaseLevel(JOB2.version, 1, 5);
    assert [RESULT][..0] == [];
  }

  lemma SecondMerge(input: seq<Entry>)
    requires input == [NEW4, PUT4, DEL5]
    ensures MergeOf(JOB2, input)
  {
    LoneEntries(SECOND);
    LoneEntries(UPPER);
    assert input == SECOND.entries + UPPER.entries;
  }

  lemma SecondInstall()
    ensures Installed(S20.version, S21.version, 1, [SECOND], [UPPER], [RESULT]) && LevelsSorted(S21.version)
    ensures FreshNumbers(S20, [RESULT], 11)
  {
    assert SECOND in [SECOND] && UPPER in [UPPER];
  }

  lemma SecondFinish()
    ensures Next(S20, S21)
  {
    var input := [NEW4, PUT4, DEL5];
    SecondKept(input);
    SecondMerge(input);
    SecondInstall();
    assert FinishStep(S20, S21, input, [RESULT]);
  }

  /* ---- the result ---- */

  lemma LastReads()
    ensures Get(S21.history, 5, 4) == None && Get(All(S21), 5, 4) == Some("b")
  {
    LookupIs(H4, 5, 4, DEL5);
    assert LOWER in S21.version[2] && PUT5 in LOWER.entries;
    assert IsNewest(All(S21), 5, 4, PUT5);
    assert All(S21) <= H4;
    LookupIs(All(S21), 5, 4, PUT5);
  }

  // From a state that every safe run may reach, one finished compaction hands a reader of
  // the latest data a value whose deletion was the last thing written for its key.
  lemma DeletedValueReturns()
    ensures exists s, s', k :: Reachable(s) && Next(s, s')
                               && Get(s'.history, k, s'.lastSequence) == None && Get(All(s'), k, s'.lastSequence).Some?
  {
    FirstWrite();
    FirstFlush();
    SecondWrite();
    SecondFlush();
    FirstStart();
    FirstFinish();
    Release();
    LastWrite();
    LastFlush();
    SecondStart();
    SecondFinish();
    LastReads();
    assert Reachable(S20) && Next(S20, S21);
  }
}
