/**
 What a version edit does to a version (db/version_set.cc:590-755), and why the
 engine's three kinds of edit keep it searchable newest-first.
 */
module Versions {
  import opened Keys
  import opened FlatMap
  import opened Tables
  import opened Selection
  import opened Picking

  // version_set.cc:593
  ghost predicate BySmallest(f: File, g: File) {
    Less(Smallest(f), Smallest(g)) || (Smallest(f) == Smallest(g) && f.number < g.number)
  }

  ghost predicate SortedBySmallest(files: seq<File>) {
    forall i, j :: 0 <= i < j < |files| ==> BySmallest(files[i], files[j])
  }

  // A level after an edit: what was there and not deleted, and what was added.
  ghost predicate LevelSaved(base: seq<File>, deleted: set<nat>, added: seq<File>, result: seq<File>) {
    && SortedBySmallest(result)
    && forall f :: f in result <==> (f in base && f.number !in deleted) || f in added
  }

  ghost function NumbersOf(files: seq<File>): set<nat> {
    set f | f in files :: f.number
  }

  ghost predicate Placed(v: Version, l: int, f: File) {
    0 <= l < NUM_LEVELS && f in v[l]
  }

  ghost predicate UniqueNumbers(v: Version) {
    forall l, m, f, g :: Placed(v, l, f) && Placed(v, m, g) && f.number == g.number ==> f == g && l == m
  }

  ghost predicate NumbersBelow(v: Version, n: nat) {
    forall l, f :: Placed(v, l, f) ==> f.number < n
  }

  ghost predicate LevelsSorted(v: Version) {
    forall l :: 0 <= l < NUM_LEVELS ==> SortedBySmallest(v[l])
  }

  ghost predicate PairwiseDisjoint(files: seq<File>) {
    forall f, g :: f in files && g in files && f != g ==> Less(Largest(f), Smallest(g)) || Less(Largest(g), Smallest(f))
  }

  lemma PairwiseOfDisjoint(files: seq<File>)
    requires Disjoint(files)
    ensures PairwiseDisjoint(files)
  {
    forall f, g | f in files && g in files && f != g
      ensures Less(Largest(f), Smallest(g)) || Less(Largest(g), Smallest(f))
    {
      var i :| 0 <= i < |files| && files[i] == f;
      var j :| 0 <= j < |files| && files[j] == g;
      assert i < j || j < i;
    }
  }

  lemma DisjointOfPairwise(files: seq<File>)
    requires SortedBySmallest(files) && TablesValid(files) && PairwiseDisjoint(files)
    ensures Disjoint(files)
  {
    forall i, j | 0 <= i < j < |files|
      ensures Less(Largest(files[i]), Smallest(files[j]))
    {
      var f, g := files[i], files[j];
      assert BySmallest(f, g);
      WithinBounds(f, f.entries[0]);
      WithinBounds(g, g.entries[0]);
    }
  }

  lemma LevelSavedDisjoint(base: seq<File>, deleted: set<nat>, added: seq<File>, result: seq<File>)
    requires LevelSaved(base, deleted, added, result) && Disjoint(base)
    requires TablesValid(added) && PairwiseDisjoint(added)
    requires forall f, g :: f in base && f.number !in deleted && g in added ==>
               Less(Largest(f), Smallest(g)) || Less(Largest(g), Smallest(f))
    ensures Disjoint(result)
  {
    PairwiseOfDisjoint(base);
    DisjointOfPairwise(result);
  }

  lemma LevelEntriesSaved(base: seq<File>, deleted: set<nat>, added: seq<File>, result: seq<File>, e: Entry)
    requires LevelSaved(base, deleted, added, result) && e in LevelEntries(result)
    ensures e in LevelEntries(base) || e in LevelEntries(added)
  {
  }

  lemma NewerParts(A: set<Entry>, B: set<Entry>, A': set<Entry>, B': set<Entry>)
    requires Newer(A, B) && A' <= A && B' <= B
    ensures Newer(A', B')
  {
  }

  /* ---- flushing a memtable (db_impl.cc:535) ---- */

  ghost predicate Flushed(v: Version, v': Version, level: nat, g: File) {
    && level <= MAX_MEM_COMPACT_LEVEL
    && LevelSaved(v[level], {}, [g], v'[level])
    && forall l :: 0 <= l < NUM_LEVELS && l != level ==> v'[l] == v[l]
  }

  ghost predicate NoOverlapDownTo(v: Version, level: nat, g: File) {
    level > 0 ==> forall l :: 0 <= l <= level && l < NUM_LEVELS ==> !OverlapInLevel(v, l, Smallest(g).user, Largest(g).user)
  }

  lemma FlushedEntries(v: Version, v': Version, level: nat, g: File)
    requires Flushed(v, v', level, g)
    ensures VersionEntries(v') == VersionEntries(v) + FileEntries(g)
    ensures forall l :: 0 <= l < NUM_LEVELS && l != level ==> LevelEntries(v'[l]) == LevelEntries(v[l])
    ensures LevelEntries(v'[level]) == LevelEntries(v[level]) + FileEntries(g)
  {
    assert g in v'[level];
    assert forall f :: f in v[level] ==> f in v'[level];
  }

  // A file that overlaps no file of a level shares no user key with it.
  lemma ApartNoShared(v: Version, l: nat, g: File, a: Entry, b: Entry)
    requires l < NUM_LEVELS && TablesValid(v[l]) && TableValid(g)
    requires !OverlapInLevel(v, l, Smallest(g).user, Largest(g).user)
    requires a in g.entries && b in LevelEntries(v[l])
    ensures a.key != b.key
  {
    var f :| f in v[l] && b in f.entries;
    WithinBounds(g, a);
    WithinBounds(f, b);
    assert !Overlaps(f, Some(Smallest(g).user), Some(Largest(g).user));
  }

  lemma ApartDisjoint(v: Version, l: nat, g: File, f: File)
    requires l < NUM_LEVELS && TablesValid(v[l]) && TableValid(g) && f in v[l]
    requires !OverlapInLevel(v, l, Smallest(g).user, Largest(g).user)
    ensures Less(Largest(f), Smallest(g)) || Less(Largest(g), Smallest(f))
  {
    assert !Overlaps(f, Some(Smallest(g).user), Some(Largest(g).user));
  }

  lemma VersionLevelTables(v: Version, l: nat)
    requires VersionValid(v) && l < NUM_LEVELS
    ensures TablesValid(v[l]) && LevelEntries(v[l]) <= VersionEntries(v)
  {
  }

  lemma FlushKeepsOrder(v: Version, v': Version, level: nat, g: File, l: nat, m: nat)
    requires VersionValid(v) && Flushed(v, v', level, g) && TableValid(g) && NoOverlapDownTo(v, level, g)
    requires Newer(FileEntries(g), VersionEntries(v))
    requires l < m < NUM_LEVELS
    ensures Newer(LevelEntries(v'[l]), LevelEntries(v'[m]))
  {
    FlushedEntries(v, v', level, g);
    VersionLevelTables(v, l);
    VersionLevelTables(v, m);
    assert Newer(LevelEntries(v[l]), LevelEntries(v[m]));
    if l == level {
      NewerParts(FileEntries(g), VersionEntries(v), FileEntries(g), LevelEntries(v[m]));
    } else if m == level {
      forall a, b | a in LevelEntries(v[l]) && b in FileEntries(g) && a.key == b.key
        ensures false
      {
        ApartNoShared(v, l, g, b, a);
      }
    }
  }

  lemma FlushKeepsLevel(v: Version, v': Version, level: nat, g: File)
    requires VersionValid(v) && Flushed(v, v', level, g) && TableValid(g) && NoOverlapDownTo(v, level, g) && level > 0
    ensures Disjoint(v'[level])
  {
    forall f, h | f in v[level] && f.number !in {} && h in [g]
      ensures Less(Largest(f), Smallest(h)) || Less(Largest(h), Smallest(f))
    {
      ApartDisjoint(v, level, g, f);
    }
    LevelSavedDisjoint(v[level], {}, [g], v'[level]);
  }

  lemma FlushKeepsValid(v: Version, v': Version, level: nat, g: File)
    requires VersionValid(v) && Flushed(v, v', level, g) && TableValid(g) && NoOverlapDownTo(v, level, g)
    requires Newer(FileEntries(g), VersionEntries(v)) && NumbersBelow(v, g.number)
    ensures VersionValid(v')
  {
    if level > 0 {
      FlushKeepsLevel(v, v', level, g);
    } else {
      forall f | f in v'[0]
        ensures f == g || (f in v[0] && f.number < g.number)
      {
        assert f in v[0] ==> Placed(v, 0, f);
      }
      forall f, h | f in v'[0] && h in v'[0] && f.number > h.number
        ensures Newer(FileEntries(f), FileEntries(h))
      {
        if f == g {
          assert FileEntries(h) <= VersionEntries(v);
          NewerParts(FileEntries(g), VersionEntries(v), FileEntries(g), FileEntries(h));
        }
      }
    }
    forall l, m | 0 <= l < m < NUM_LEVELS
      ensures Newer(LevelEntries(v'[l]), LevelEntries(v'[m]))
    {
      FlushKeepsOrder(v, v', level, g, l, m);
    }
  }

  /* ---- installing a compaction (db_impl.cc:860) and the trivial move (db_impl.cc:718) ---- */

  ghost predicate Installed(v: Version, v': Version, level: nat, inputs0: seq<File>, inputs1: seq<File>, outputs: seq<File>) {
    && level + 1 < NUM_LEVELS
    && LevelSaved(v[level], NumbersOf(inputs0), [], v'[level])
    && LevelSaved(v[level + 1], NumbersOf(inputs1), outputs, v'[level + 1])
    && forall l :: 0 <= l < NUM_LEVELS && l != level && l != level + 1 ==> v'[l] == v[l]
  }

  ghost predicate OneSide(g: File, files: seq<File>) {
    || (forall x :: x in files ==> Less(Largest(g), Smallest(x)))
    || (forall x :: x in files ==> Less(Largest(x), Smallest(g)))
  }

  // On one side of all the files, or in a gap between them.
  ghost predicate Beside(g: File, files: seq<File>) {
    OneSide(g, files) || SplitBy(files, Smallest(g).user, Largest(g).user)
  }

  ghost predicate ApartFrom(f: File, g: File) {
    Less(Largest(f), Smallest(g)) || Less(Largest(g), Smallest(f))
  }

  // No output reaches across a file that stays.
  ghost predicate OutputsApart(v: Version, level: nat, inputs1: seq<File>, outputs: seq<File>)
    requires level + 1 < NUM_LEVELS
  {
    forall g, o :: g in v[level + 1] && g !in inputs1 && o in outputs ==> ApartFrom(g, o)
  }

  ghost predicate NoSharedKey(A: set<Entry>, B: set<Entry>) {
    forall a, b :: a in A && b in B ==> a.key != b.key
  }

  // What the files left behind must look like for the inputs to move down.
  ghost predicate Ready(v: Version, level: nat, inputs0: seq<File>, inputs1: seq<File>) {
    && level + 1 < NUM_LEVELS
    && Subset(inputs0, v[level]) && Subset(inputs1, v[level + 1])
    && (forall f :: f in v[level] && f !in inputs0 ==> Newer(FileEntries(f), LevelEntries(inputs0)))
    && (forall g :: g in v[level + 1] && g !in inputs1 ==> Beside(g, inputs0 + inputs1))
    && (forall g :: g in v[level + 1] && g !in inputs1 ==> NoSharedKey(FileEntries(g), LevelEntries(inputs0)))
  }

  ghost predicate OutputsOf(inputs0: seq<File>, inputs1: seq<File>, outputs: seq<File>) {
    && TablesValid(outputs) && PairwiseDisjoint(outputs)
    && LevelEntries(outputs) <= LevelEntries(inputs0) + LevelEntries(inputs1)
  }

  // Deleting by number deletes exactly the inputs.
  lemma DeletedAreInputs(v: Version, level: nat, inputs: seq<File>, f: File)
    requires UniqueNumbers(v) && level < NUM_LEVELS && Subset(inputs, v[level]) && f in v[level]
    ensures f.number in NumbersOf(inputs) <==> f in inputs
  {
    assert Placed(v, level, f);
    if f.number in NumbersOf(inputs) {
      var g :| g in inputs && g.number == f.number;
      assert Placed(v, level, g);
    }
  }

  lemma OneSideOfOutput(g: File, inputs0: seq<File>, inputs1: seq<File>, o: File)
    requires TablesValid(inputs0) && TablesValid(inputs1) && OneSide(g, inputs0 + inputs1)
    requires TableValid(o) && FileEntries(o) <= LevelEntries(inputs0) + LevelEntries(inputs1)
    ensures Less(Largest(g), Smallest(o)) || Less(Largest(o), Smallest(g))
  {
    var first, last := o.entries[0], o.entries[|o.entries| - 1];
    assert first in FileEntries(o) && last in FileEntries(o);
    var f :| f in inputs0 + inputs1 && first in f.entries;
    var l :| l in inputs0 + inputs1 && last in l.entries;
    WithinBounds(f, first);
    WithinBounds(l, last);
  }

  lemma InstallKeepsLower(v: Version, v': Version, level: nat, inputs0: seq<File>, inputs1: seq<File>, outputs: seq<File>)
    requires VersionValid(v) && UniqueNumbers(v) && Installed(v, v', level, inputs0, inputs1, outputs)
    requires Ready(v, level, inputs0, inputs1) && OutputsOf(inputs0, inputs1, outputs)
    requires OutputsApart(v, level, inputs1, outputs)
    ensures Disjoint(v'[level + 1])
  {
    VersionLevelTables(v, level);
    VersionLevelTables(v, level + 1);
    forall f, o | f in v[level + 1] && f.number !in NumbersOf(inputs1) && o in outputs
      ensures Less(Largest(f), Smallest(o)) || Less(Largest(o), Smallest(f))
    {
      DeletedAreInputs(v, level + 1, inputs1, f);
      assert ApartFrom(f, o);
    }
    LevelSavedDisjoint(v[level + 1], NumbersOf(inputs1), outputs, v'[level + 1]);
  }

  lemma InstallKeepsUpper(v: Version, v': Version, level: nat, inputs0: seq<File>, inputs1: seq<File>, outputs: seq<File>)
    requires VersionValid(v) && Installed(v, v', level, inputs0, inputs1, outputs)
    ensures TablesValid(v'[level]) && (level > 0 ==> Disjoint(v'[level]))
    ensures level == 0 ==> DistinctNumbers(v'[0]) && NewestFileFirst(v'[0])
  {
    if level > 0 {
      LevelSavedDisjoint(v[level], NumbersOf(inputs0), [], v'[level]);
    }
  }

  lemma InstalledEntries(v: Version, v': Version, level: nat, inputs0: seq<File>, inputs1: seq<File>, outputs: seq<File>, l: nat)
    requires Installed(v, v', level, inputs0, inputs1, outputs) && l < NUM_LEVELS
    requires Ready(v, level, inputs0, inputs1) && OutputsOf(inputs0, inputs1, outputs)
    ensures l != level + 1 ==> LevelEntries(v'[l]) <= LevelEntries(v[l])
    ensures l == level + 1 ==> LevelEntries(v'[l]) <= LevelEntries(v[l]) + LevelEntries(inputs0)
    ensures LevelEntries(inputs0) <= LevelEntries(v[level])
  {
    if l == level + 1 {
      forall e | e in LevelEntries(v'[l])
        ensures e in LevelEntries(v[l]) + LevelEntries(inputs0)
      {
        LevelEntriesSaved(v[l], NumbersOf(inputs1), outputs, v'[l], e);
      }
    } else if l == level {
      forall e | e in LevelEntries(v'[l])
        ensures e in LevelEntries(v[l])
      {
        LevelEntriesSaved(v[l], NumbersOf(inputs0), [], v'[l], e);
      }
    }
  }

  lemma RemainingNewer(v: Version, v': Version, level: nat, inputs0: seq<File>, inputs1: seq<File>, outputs: seq<File>)
    requires UniqueNumbers(v) && Installed(v, v', level, inputs0, inputs1, outputs)
    requires Ready(v, level, inputs0, inputs1)
    ensures Newer(LevelEntries(v'[level]), LevelEntries(inputs0))
  {
    forall a, b | a in LevelEntries(v'[level]) && b in LevelEntries(inputs0) && a.key == b.key
      ensures a.sn > b.sn
    {
      var f :| f in v'[level] && a in f.entries;
      DeletedAreInputs(v, level, inputs0, f);
      assert a in FileEntries(f);
    }
  }

  lemma NewerUnion(A: set<Entry>, B: set<Entry>, C: set<Entry>, A': set<Entry>, BC: set<Entry>)
    requires Newer(A, B) && Newer(A, C) && A' <= A && BC <= B + C
    ensures Newer(A', BC)
  {
  }

  lemma UnionNewer(A: set<Entry>, B: set<Entry>, C: set<Entry>, AB: set<Entry>, C': set<Entry>)
    requires Newer(A, C) && Newer(B, C) && AB <= A + B && C' <= C
    ensures Newer(AB, C')
  {
  }

  lemma InstallKeepsOrder(v: Version, v': Version, level: nat, inputs0: seq<File>, inputs1: seq<File>, outputs: seq<File>, l: nat, m: nat)
    requires VersionValid(v) && UniqueNumbers(v) && Installed(v, v', level, inputs0, inputs1, outputs)
    requires Ready(v, level, inputs0, inputs1) && OutputsOf(inputs0, inputs1, outputs)
    requires l < m < NUM_LEVELS
    ensures Newer(LevelEntries(v'[l]), LevelEntries(v'[m]))
  {
    InstalledEntries(v, v', level, inputs0, inputs1, outputs, l);
    InstalledEntries(v, v', level, inputs0, inputs1, outputs, m);
    assert Newer(LevelEntries(v[l]), LevelEntries(v[m]));
    if m == level + 1 {
      if l == level {
        RemainingNewer(v, v', level, inputs0, inputs1, outputs);
        NewerParts(LevelEntries(v[l]), LevelEntries(v[m]), LevelEntries(v'[l]), LevelEntries(v[m]));
        NewerUnion(LevelEntries(v'[l]), LevelEntries(v[m]), LevelEntries(inputs0), LevelEntries(v'[l]), LevelEntries(v'[m]));
      } else {
        assert Newer(LevelEntries(v[l]), LevelEntries(v[level]));
        NewerParts(LevelEntries(v[l]), LevelEntries(v[level]), LevelEntries(v[l]), LevelEntries(inputs0));
        NewerUnion(LevelEntries(v[l]), LevelEntries(v[m]), LevelEntries(inputs0), LevelEntries(v'[l]), LevelEntries(v'[m]));
      }
    } else if l == level + 1 {
      assert Newer(LevelEntries(v[level]), LevelEntries(v[m]));
      NewerParts(LevelEntries(v[level]), LevelEntries(v[m]), LevelEntries(inputs0), LevelEntries(v[m]));
      UnionNewer(LevelEntries(v[l]), LevelEntries(inputs0), LevelEntries(v[m]), LevelEntries(v'[l]), LevelEntries(v'[m]));
    } else {
      NewerParts(LevelEntries(v[l]), LevelEntries(v[m]), LevelEntries(v'[l]), LevelEntries(v'[m]));
    }
  }

  // Installing a compaction keeps every level sorted and newer data first.
  lemma InstallKeepsValid(v: Version, v': Version, level: nat, inputs0: seq<File>, inputs1: seq<File>, outputs: seq<File>)
    requires VersionValid(v) && UniqueNumbers(v) && Installed(v, v', level, inputs0, inputs1, outputs)
    requires Ready(v, level, inputs0, inputs1) && OutputsOf(inputs0, inputs1, outputs)
    requires OutputsApart(v, level, inputs1, outputs)
    ensures VersionValid(v')
  {
    InstallKeepsLower(v, v', level, inputs0, inputs1, outputs);
    InstallKeepsUpper(v, v', level, inputs0, inputs1, outputs);
    forall l, m | 0 <= l < m < NUM_LEVELS
      ensures Newer(LevelEntries(v'[l]), LevelEntries(v'[m]))
    {
      InstallKeepsOrder(v, v', level, inputs0, inputs1, outputs, l, m);
    }
  }

  // An output that reaches across a file that stays puts its level out of order.
  lemma StraddlingBreaks(v: Version, v': Version, level: nat, inputs0: seq<File>, inputs1: seq<File>, outputs: seq<File>, g: File, o: File)
    requires UniqueNumbers(v) && Installed(v, v', level, inputs0, inputs1, outputs) && Subset(inputs1, v[level + 1])
    requires g in v[level + 1] && g !in inputs1 && o in outputs && g != o && !ApartFrom(g, o)
    ensures !Disjoint(v'[level + 1])
  {
    DeletedAreInputs(v, level + 1, inputs1, g);
    assert g in v'[level + 1] && o in v'[level + 1];
    if Disjoint(v'[level + 1]) {
      PairwiseOfDisjoint(v'[level + 1]);
    }
  }

  // What is on one side of all inputs is apart from what they are merged into.
  lemma OneSideIsApart(v: Version, level: nat, inputs0: seq<File>, inputs1: seq<File>, outputs: seq<File>)
    requires VersionValid(v) && Ready(v, level, inputs0, inputs1) && OutputsOf(inputs0, inputs1, outputs)
    requires forall g :: g in v[level + 1] && g !in inputs1 ==> OneSide(g, inputs0 + inputs1)
    ensures OutputsApart(v, level, inputs1, outputs)
  {
    VersionLevelTables(v, level);
    VersionLevelTables(v, level + 1);
    forall g, o | g in v[level + 1] && g !in inputs1 && o in outputs
      ensures ApartFrom(g, o)
    {
      OneSideOfOutput(g, inputs0, inputs1, o);
    }
  }

  // A file moved down is apart from what it is beside.
  lemma MovedApart(v: Version, level: nat, f: File)
    requires VersionValid(v) && Ready(v, level, [f], [])
    ensures OutputsApart(v, level, [], [f])
  {
    assert f in [f] && [f] + [] == [f];
    VersionLevelTables(v, level + 1);
    forall g | g in v[level + 1]
      ensures ApartFrom(g, f)
    {
      assert Beside(g, [f]);
      WithinBounds(g, g.entries[0]);
    }
  }

  // No entry is in both an input file and a file that stays.
  lemma OneLevelOnly(v: Version, l: nat, m: nat, e: Entry)
    requires VersionValid(v) && l < NUM_LEVELS && m < NUM_LEVELS
    requires e in LevelEntries(v[l]) && e in LevelEntries(v[m])
    ensures l == m
  {
    assert l < m ==> Newer(LevelEntries(v[l]), LevelEntries(v[m]));
    assert m < l ==> Newer(LevelEntries(v[m]), LevelEntries(v[l]));
  }

  lemma InputsApart0(v: Version, level: nat, inputs0: seq<File>, inputs1: seq<File>, l: nat, f: File, e: Entry)
    requires VersionValid(v) && Ready(v, level, inputs0, inputs1)
    requires l < NUM_LEVELS && f in v[l] && e in f.entries && e in LevelEntries(inputs0)
    ensures l == level && f in inputs0
  {
    assert e in LevelEntries(v[l]) && e in FileEntries(f);
    assert e in LevelEntries(v[level]);
    OneLevelOnly(v, l, level, e);
    assert f !in inputs0 ==> Newer(FileEntries(f), LevelEntries(inputs0));
  }

  lemma InputsApart1(v: Version, level: nat, inputs0: seq<File>, inputs1: seq<File>, l: nat, f: File, e: Entry)
    requires VersionValid(v) && level + 1 < NUM_LEVELS && Subset(inputs1, v[level + 1])
    requires l < NUM_LEVELS && f in v[l] && e in f.entries && e in LevelEntries(inputs1)
    ensures l == level + 1 && f in inputs1
  {
    assert e in LevelEntries(v[l]);
    assert e in LevelEntries(v[level + 1]);
    OneLevelOnly(v, l, level + 1, e);
    var h :| h in inputs1 && e in h.entries;
    OneFileOnly(v[l], f, h, e);
  }

  lemma OneFileOnly(files: seq<File>, f: File, h: File, e: Entry)
    requires Disjoint(files) && f in files && h in files && e in f.entries && e in h.entries
    ensures f == h
  {
    PairwiseOfDisjoint(files);
    WithinBounds(f, e);
    WithinBounds(h, e);
  }

  lemma StaysInstalled(v: Version, v': Version, level: nat, inputs0: seq<File>, inputs1: seq<File>, outputs: seq<File>, e: Entry)
    requires UniqueNumbers(v) && Installed(v, v', level, inputs0, inputs1, outputs)
    requires Ready(v, level, inputs0, inputs1)
    requires e in VersionEntries(v) && e !in LevelEntries(inputs0) && e !in LevelEntries(inputs1)
    ensures e in VersionEntries(v')
  {
    var l, f :| 0 <= l < NUM_LEVELS && f in v[l] && e in f.entries;
    if l == level {
      DeletedAreInputs(v, level, inputs0, f);
    } else if l == level + 1 {
      DeletedAreInputs(v, level + 1, inputs1, f);
    }
    assert f in v'[l];
  }

  lemma InstalledStayed(v: Version, v': Version, level: nat, inputs0: seq<File>, inputs1: seq<File>, outputs: seq<File>, e: Entry)
    requires VersionValid(v) && UniqueNumbers(v) && Installed(v, v', level, inputs0, inputs1, outputs)
    requires Ready(v, level, inputs0, inputs1)
    requires e in VersionEntries(v') && e !in LevelEntries(outputs)
    ensures e in VersionEntries(v) && e !in LevelEntries(inputs0) && e !in LevelEntries(inputs1)
  {
    var l, f :| 0 <= l < NUM_LEVELS && f in v'[l] && e in f.entries;
    assert f !in outputs;
    assert f in v[l];
    if l == level {
      DeletedAreInputs(v, level, inputs0, f);
    } else if l == level + 1 {
      DeletedAreInputs(v, level + 1, inputs1, f);
    }
    if e in LevelEntries(inputs0) {
      InputsApart0(v, level, inputs0, inputs1, l, f, e);
    } else if e in LevelEntries(inputs1) {
      InputsApart1(v, level, inputs0, inputs1, l, f, e);
    }
  }

  lemma InstalledContent(v: Version, v': Version, level: nat, inputs0: seq<File>, inputs1: seq<File>, outputs: seq<File>)
    requires VersionValid(v) && UniqueNumbers(v) && Installed(v, v', level, inputs0, inputs1, outputs)
    requires Ready(v, level, inputs0, inputs1)
    ensures VersionEntries(v') == VersionEntries(v) - (LevelEntries(inputs0) + LevelEntries(inputs1)) + LevelEntries(outputs)
  {
    forall e | e in VersionEntries(v) && e !in LevelEntries(inputs0) && e !in LevelEntries(inputs1)
      ensures e in VersionEntries(v')
    {
      StaysInstalled(v, v', level, inputs0, inputs1, outputs, e);
    }
    forall e | e in VersionEntries(v') && e !in LevelEntries(outputs)
      ensures e in VersionEntries(v) && e !in LevelEntries(inputs0) && e !in LevelEntries(inputs1)
    {
      InstalledStayed(v, v', level, inputs0, inputs1, outputs, e);
    }
    forall e | e in LevelEntries(outputs)
      ensures e in VersionEntries(v')
    {
      var o :| o in outputs && e in o.entries;
      assert o in v'[level + 1];
    }
  }
}
