/**
 A whole compaction: its input is the merge of its files (db/version_set.cc:1237), read to
 the end and handed to the merge loop (db/db_impl.cc:878).
 */
module Compacting {
  import opened Keys
  import opened FlatMap
  import opened Tables
  import opened Selection
  import opened Picking
  import opened OutputCutting
  import opened CompactionWork
  import opened Preservation
  import opened Versions
  import Readiness
  import opened Store
  import opened StoreSteps
  import opened Engine
  import opened Merging
  import opened Scanning

  /* ---- the files of one side as sources ---- */

  // No entry is in two files of the list.
  ghost predicate FilesApart(files: seq<File>) {
    forall i :: 0 <= i < |files| ==> FileEntries(files[i]) !! LevelEntries(files[..i])
  }

  lemma {:induction false} OverlappingApart(files: seq<File>, lo: Option<UserKey>, hi: Option<UserKey>)
    requires FilesApart(files)
    ensures FilesApart(Overlapping(files, lo, hi))
  {
    if files != [] {
      var n := |files| - 1;
      var front, last := files[..n], files[n];
      assert FilesApart(front) by {
        assert forall i :: 0 <= i < n ==> front[..i] == files[..i] && front[i] == files[i];
      }
      OverlappingApart(front, lo, hi);
      if Overlaps(last, lo, hi) {
        OverlappingMembers(front, lo, hi);
        ApartPush(Overlapping(front, lo, hi), last, front);
      } else {
        AppendNothing(Overlapping(front, lo, hi));
      }
    }
  }

  lemma ApartPush(part: seq<File>, last: File, front: seq<File>)
    requires FilesApart(part) && FileEntries(last) !! LevelEntries(front)
    requires forall f :: f in part ==> f in front
    ensures FilesApart(part + [last])
  {
    var all := part + [last];
    forall i | 0 <= i < |all|
      ensures FileEntries(all[i]) !! LevelEntries(all[..i])
    {
      if i < |part| {
        assert all[..i] == part[..i] && all[i] == part[i];
      } else {
        assert all[..i] == part;
        assert LevelEntries(part) <= LevelEntries(front);
      }
    }
  }

  // What makes the files of one side readable: in order, or each by itself.
  ghost predicate Readable(level: nat, files: seq<File>) {
    if level == 0 then TablesValid(files) && FilesApart(files) else Disjoint(files)
  }

  // version_set.cc:1247: one source for each file of level 0, one for a deeper level.
  method AddFiles(sources: seq<seq<Entry>>, level: nat, files: seq<File>) returns (r: seq<seq<Entry>>)
    requires PairwiseApart(sources) && AllSorted(sources)
    requires Readable(level, files) && Union(sources) !! LevelEntries(files)
    ensures PairwiseApart(r) && AllSorted(r) && Union(r) == Union(sources) + LevelEntries(files)
  {
    r := sources;
    if level == 0 {
      for i := 0 to |files|
        invariant PairwiseApart(r) && AllSorted(r) && Union(r) == Union(sources) + LevelEntries(files[..i])
      {
        var f := files[i];
        assert files[..i] + [f] == files[..i + 1];
        LevelEntriesPush(files[..i], f);
        assert TableValid(f) && FileEntries(f) == Members(f.entries) && FileEntries(f) <= LevelEntries(files);
        r := Push(r, f.entries);
      }
      assert files[..|files|] == files;
    } else if files != [] {
      ConcatIsSorted(files);
      ConcatEntries(files);
      r := Push(r, Concat(files));
    } else {
      assert LevelEntries([]) == {};
    }
  }

  /* ---- what a compaction's inputs look like ---- */

  lemma SliceDisjoint(files: seq<File>, i: nat, j: nat)
    requires Disjoint(files) && i <= j <= |files|
    ensures Disjoint(files[i..j])
  {
  }

  lemma UpperReadable(v: Version, c: Inputs)
    requires VersionValid(v) && LevelsSorted(v) && WellChosen(v, c)
    ensures Readable(c.level, c.inputs0)
  {
    VersionLevelTables(v, c.level);
    if c.level == 0 {
      forall i | 0 <= i < |v[0]|
        ensures FileEntries(v[0][i]) !! LevelEntries(v[0][..i])
      {
        FileApart(v[0], i);
      }
      var lo, hi :| ClosedRange(v[0], lo, hi) && c.inputs0 == Overlapping(v[0], lo, hi);
      OverlappingApart(v[0], lo, hi);
      OverlappingMembers(v[0], lo, hi);
    } else {
      var i, j :| Selection.IsRun(v[c.level], c.inputs0, i, j) && BoundaryEnd(v[c.level], j) == j;
      SliceDisjoint(v[c.level], i, j);
    }
  }

  lemma LowerReadable(v: Version, c: Inputs)
    requires VersionValid(v) && WellChosen(v, c)
    ensures Readable(c.level + 1, c.inputs1)
  {
    var below := v[c.level + 1];
    var s, l :| IsSmallestKey(c.inputs0, s) && IsLargestKey(c.inputs0, l)
                && c.inputs1 == Overlapping(below, Some(s.user), Some(l.user));
    hide IsSmallestKey, IsLargestKey, TableValid, Overlapping, ClosedInputs, Newer, DistinctNumbers, NewestFileFirst;
    if c.inputs1 != [] {
      var i, j := OverlappingIsRun(below, Some(s.user), Some(l.user));
      SliceDisjoint(below, i, j);
    }
  }

  lemma SidesApart(v: Version, c: Inputs)
    requires VersionValid(v) && c.level + 1 < NUM_LEVELS && Subset(c.inputs0, v[c.level]) && Subset(c.inputs1, v[c.level + 1])
    ensures LevelEntries(c.inputs0) !! LevelEntries(c.inputs1)
    ensures LevelEntries(c.inputs0) + LevelEntries(c.inputs1) <= VersionEntries(v)
  {
    NewerIsApart(LevelEntries(v[c.level]), LevelEntries(v[c.level + 1]));
    assert LevelEntries(c.inputs0) <= LevelEntries(v[c.level]) && LevelEntries(c.inputs1) <= LevelEntries(v[c.level + 1]);
  }

  lemma InputsReadable(v: Version, c: Inputs)
    requires VersionValid(v) && LevelsSorted(v) && WellChosen(v, c)
    ensures Readable(c.level, c.inputs0) && Readable(c.level + 1, c.inputs1)
    ensures LevelEntries(c.inputs0) !! LevelEntries(c.inputs1)
    ensures LevelEntries(c.inputs0) + LevelEntries(c.inputs1) <= VersionEntries(v)
  {
    UpperReadable(v, c);
    LowerReadable(v, c);
    Readiness.ChosenSubset(v, c);
    SidesApart(v, c);
  }

  lemma PartUnique(part: set<Entry>, all: set<Entry>)
    requires part <= all && UniqueSeq(all)
    ensures UniqueSeq(part)
  {
  }

  lemma NothingYet()
    ensures PairwiseApart([]) && AllSorted([]) && Union([]) == {}
  {
  }

  // version_set.cc:1237
  method MakeInputIterator(v: Version, c: Inputs) returns (it: MergingIterator)
    requires VersionValid(v) && LevelsSorted(v) && UniqueSeq(VersionEntries(v)) && WellChosen(v, c)
    ensures it.Valid() && it.pos == -1 && fresh(it.Repr())
    ensures Members(it.merged) == LevelEntries(c.inputs0) + LevelEntries(c.inputs1)
  {
    hide VersionValid, LevelsSorted, WellChosen, Readable, VersionEntries, LevelEntries, PairwiseApart, AllSorted, Union, UniqueSeq, Members;
    InputsReadable(v, c);
    NothingYet();
    var sources := AddFiles([], c.level, c.inputs0);
    sources := AddFiles(sources, c.level + 1, c.inputs1);
    PartUnique(Union(sources), VersionEntries(v));
    it := MergeSources(sources);
  }

  // db_impl.cc:900: from the first entry to the last.
  method ReadThrough(it: MergingIterator) returns (input: seq<Entry>)
    requires it.Valid()
    modifies it.Repr()
    ensures input == it.merged && Sorted(input)
  {
    hide Sorted, MergingIterator.Shape, MergingIterator.ChildrenOk, MergingIterator.AllAtFirst, MergingIterator.AllAtLast;
    it.SeekToFirst();
    input := [];
    while it.current.Some?
      invariant it.Valid() && (it.current.None? <==> it.pos == -1)
      invariant input == if it.pos >= 0 then it.merged[..it.pos] else it.merged
      decreases if it.pos >= 0 then |it.merged| - it.pos else 0
    {
      input := input + [it.Current()];
      it.Next();
    }
    it.Facts();
  }

  // A compaction from the choice of its inputs to the installation of its result: one start
  // step, file numbers, and one finish step on the merge of the inputs, after which the
  // object is valid exactly when it was neither hazard.
  method Compact(db: DbImpl, c: Inputs, sizeOf: seq<Entry> -> nat)
    returns (ghost started: State, ghost start: State, input: seq<Entry>, outputs: seq<File>)
    requires db.Valid() && db.job.None? && WellChosen(db.current, c)
    modifies db
    ensures StartStep(old(db.Abs()), started, c)
    ensures start == started.(nextFile := db.nextFileNumber) && started.nextFile <= start.nextFile
    ensures Sorted(input) && Members(input) == LevelEntries(c.inputs0) + LevelEntries(c.inputs1)
    ensures FinishStep(start, db.Abs(), input, outputs)
    ensures db.Valid() <==> !Hazard(started, input) && !Straddles(started, outputs)
    ensures CutAsDue(Rule(c.grandparents, db.maxFileSize, sizeOf), input, outputs)
  {
    hide Inv, FinishStep, Hazard, Straddles, WellChosen, VersionValid, LevelsSorted, UniqueSeq, VersionEntries, LevelEntries, Sorted;
    InputsUnique(db.Abs());
    var it := MakeInputIterator(db.current, c);
    db.StartCompaction(c);
    started := db.Abs();
    input := ReadThrough(it);
    start, outputs := db.FinishCompaction(input, sizeOf);
  }

  lemma InputsUnique(s: State)
    requires Inv(s)
    ensures VersionValid(s.version) && LevelsSorted(s.version) && UniqueSeq(VersionEntries(s.version))
  {
  }
}
