/**
 Why a compaction's inputs can move down one level: what the choice of inputs
 guarantees, and why a memtable flush in the meantime does not disturb it.
 */
module Readiness {
  import opened Keys
  import opened FlatMap
  import opened Tables
  import opened Selection
  import opened Picking
  import opened CompactionWork
  import opened Versions

  ghost predicate KeysApart(f: File, lo: UserKey, hi: UserKey) {
    Largest(f).user < lo || hi < Smallest(f).user
  }

  // Nothing at level 0 outside a closed part has a user key inside it.
  lemma PartLeavesNewer(files: seq<File>, inputs: seq<File>, f: File)
    requires TablesValid(files) && IsClosedPart(files, inputs) && f in files && f !in inputs
    ensures Newer(FileEntries(f), LevelEntries(inputs))
  {
    var lo, hi :| ClosedRange(files, lo, hi) && inputs == Overlapping(files, lo, hi);
    OverlappingMembers(files, lo, hi);
    forall a, b | a in FileEntries(f) && b in LevelEntries(inputs)
      ensures a.key != b.key
    {
      var g :| g in inputs && b in g.entries;
      WithinBounds(f, a);
      WithinBounds(g, b);
      assert Inside(g, lo, hi) && !Overlaps(f, lo, hi);
    }
  }

  // A file before a closed run is newer for any shared key; a file after it shares none.
  lemma RunLeavesNewer(files: seq<File>, inputs: seq<File>, f: File)
    requires IsClosedRun(files, inputs) && f in files && f !in inputs && UniqueSeq(LevelEntries(files))
    ensures Newer(FileEntries(f), LevelEntries(inputs))
  {
    var i: nat, j: nat :| IsRun(files, inputs, i, j) && BoundaryEnd(files, j) == j;
    var m: nat :| m < |files| && files[m] == f;
    OutsideRun(files, i, j, m);
    forall g | g in inputs
      ensures Newer(FileEntries(f), FileEntries(g))
    {
      var n := InRun(files, i, j, g);
      RunMemberOrder(files, i, j, m, n);
    }
    NewerThanFiles(FileEntries(f), inputs);
  }

  lemma OutsideRun(files: seq<File>, i: nat, j: nat, m: nat)
    requires i <= j <= |files| && m < |files| && files[m] !in files[i..j]
    ensures !(i <= m < j)
  {
  }

  lemma InRun(files: seq<File>, i: nat, j: nat, g: File) returns (n: nat)
    requires i <= j <= |files| && g in files[i..j]
    ensures i <= n < j && files[n] == g
  {
    var d: nat :| d < |files[i..j]| && files[i..j][d] == g;
    n := i + d;
  }

  lemma NewerThanFiles(A: set<Entry>, files: seq<File>)
    requires forall g :: g in files ==> Newer(A, FileEntries(g))
    ensures Newer(A, LevelEntries(files))
  {
    forall a, b | a in A && b in LevelEntries(files) && a.key == b.key
      ensures a.sn > b.sn
    {
      var g :| g in files && b in g.entries;
      assert b in FileEntries(g);
    }
  }

  lemma EarlierFileNewer(files: seq<File>, m: nat, n: nat)
    requires Disjoint(files) && m < n < |files| && UniqueSeq(LevelEntries(files))
    ensures Newer(FileEntries(files[m]), FileEntries(files[n]))
  {
    forall a, b | a in FileEntries(files[m]) && b in FileEntries(files[n]) && a.key == b.key
      ensures a.sn > b.sn
    {
      WithinBounds(files[m], a);
      WithinBounds(files[n], b);
      assert Before(a, b);
      assert a in LevelEntries(files) && b in LevelEntries(files);
    }
  }

  lemma AfterRunNoShared(files: seq<File>, j: nat, m: nat, n: nat)
    requires Disjoint(files) && n < j <= m < |files| && BoundaryEnd(files, j) == j
    ensures Largest(files[n]).user < Smallest(files[m]).user
  {
    UserOrder(files, n, j - 1);
    UserOrder(files, j - 1, j);
    UserOrder(files, j, m);
  }

  lemma RunMemberOrder(files: seq<File>, i: nat, j: nat, m: nat, n: nat)
    requires Disjoint(files) && i < j <= |files| && BoundaryEnd(files, j) == j && UniqueSeq(LevelEntries(files))
    requires m < |files| && !(i <= m < j) && i <= n < j
    ensures Newer(FileEntries(files[m]), FileEntries(files[n]))
  {
    if m < i {
      EarlierFileNewer(files, m, n);
    } else {
      AfterRunNoShared(files, j, m, n);
      forall a, b | a in FileEntries(files[m]) && b in FileEntries(files[n])
        ensures a.key != b.key
      {
        WithinBounds(files[m], a);
        WithinBounds(files[n], b);
      }
    }
  }

  lemma MetFilesApart(below: seq<File>, inputs0: seq<File>, inputs1: seq<File>, s: InternalKey, l: InternalKey, g: File)
    requires TablesValid(inputs0) && TablesValid(below) && g in below && g !in inputs1
    requires IsSmallestKey(inputs0, s) && IsLargestKey(inputs0, l)
    requires inputs1 == Overlapping(below, Some(s.user), Some(l.user))
    ensures KeysApart(g, s.user, l.user)
    ensures NoSharedKey(FileEntries(g), LevelEntries(inputs0))
  {
    OverlappingMembers(below, Some(s.user), Some(l.user));
    forall a, b | a in FileEntries(g) && b in LevelEntries(inputs0)
      ensures a.key != b.key
    {
      var f :| f in inputs0 && b in f.entries;
      WithinBounds(g, a);
      WithinBounds(f, b);
    }
  }

  lemma MetFilesOneSide(below: seq<File>, inputs0: seq<File>, inputs1: seq<File>, s: InternalKey, l: InternalKey, g: File)
    requires TablesValid(inputs0) && Disjoint(below) && g in below && g !in inputs1
    requires IsSmallestKey(inputs0, s) && IsLargestKey(inputs0, l)
    requires inputs1 == Overlapping(below, Some(s.user), Some(l.user))
    ensures OneSide(g, inputs0 + inputs1)
  {
    MetFilesApart(below, inputs0, inputs1, s, l, g);
    OverlappingMembers(below, Some(s.user), Some(l.user));
    PairwiseOfDisjoint(below);
    hide Overlapping, Disjoint;
    if Largest(g).user < s.user {
      forall x | x in inputs0 + inputs1
        ensures Less(Largest(g), Smallest(x))
      {
        WithinBounds(g, g.entries[0]);
        assert x in inputs0 || (x in below && Overlaps(x, Some(s.user), Some(l.user)));
      }
    } else {
      forall x | x in inputs0 + inputs1
        ensures Less(Largest(x), Smallest(g))
      {
        WithinBounds(g, g.entries[0]);
        assert x in inputs0 || (x in below && Overlaps(x, Some(s.user), Some(l.user)));
      }
    }
  }

  lemma ChosenUpper(v: Version, c: Inputs, f: File)
    requires VersionValid(v) && WellChosen(v, c) && UniqueSeq(VersionEntries(v)) && f in v[c.level] && f !in c.inputs0
    ensures Newer(FileEntries(f), LevelEntries(c.inputs0))
  {
    VersionLevelTables(v, c.level);
    if c.level == 0 {
      PartLeavesNewer(v[c.level], c.inputs0, f);
    } else {
      RunLeavesNewer(v[c.level], c.inputs0, f);
    }
  }

  lemma ChosenLower(v: Version, c: Inputs, g: File)
    requires VersionValid(v) && WellChosen(v, c) && g in v[c.level + 1] && g !in c.inputs1
    ensures OneSide(g, c.inputs0 + c.inputs1) && NoSharedKey(FileEntries(g), LevelEntries(c.inputs0))
  {
    VersionLevelTables(v, c.level);
    VersionLevelTables(v, c.level + 1);
    ClosedInputsInLevel(c.level, v[c.level], c.inputs0);
    var s, l :| IsSmallestKey(c.inputs0, s) && IsLargestKey(c.inputs0, l)
                && c.inputs1 == Overlapping(v[c.level + 1], Some(s.user), Some(l.user));
    hide OneSide, NoSharedKey, ClosedInputs;
    MetFilesOneSide(v[c.level + 1], c.inputs0, c.inputs1, s, l, g);
    MetFilesApart(v[c.level + 1], c.inputs0, c.inputs1, s, l, g);
  }

  lemma ChosenSubset(v: Version, c: Inputs)
    requires VersionValid(v) && WellChosen(v, c)
    ensures Subset(c.inputs0, v[c.level]) && Subset(c.inputs1, v[c.level + 1])
  {
    hide TableValid, Disjoint, IsClosedPart, IsClosedRun, MeetsBelow, Subset;
    VersionLevelTables(v, c.level);
    ClosedInputsInLevel(c.level, v[c.level], c.inputs0);
    MetSubset(v[c.level + 1], c.inputs0, c.inputs1);
  }

  lemma MetSubset(below: seq<File>, inputs0: seq<File>, inputs1: seq<File>)
    requires MeetsBelow(below, inputs0, inputs1)
    ensures Subset(inputs1, below)
  {
    var s, l :| IsSmallestKey(inputs0, s) && IsLargestKey(inputs0, l) && inputs1 == Overlapping(below, Some(s.user), Some(l.user));
    hide IsSmallestKey, IsLargestKey, Overlaps;
    OverlappingMembers(below, Some(s.user), Some(l.user));
  }

  lemma ChosenReady(v: Version, c: Inputs)
    requires VersionValid(v) && WellChosen(v, c) && UniqueSeq(VersionEntries(v))
    ensures Ready(v, c.level, c.inputs0, c.inputs1)
  {
    hide VersionValid, ClosedInputs, MeetsBelow, UniqueSeq, VersionEntries, OneSide, NoSharedKey, Newer, SplitBy, Subset;
    ChosenSubset(v, c);
    forall f | f in v[c.level] && f !in c.inputs0
      ensures Newer(FileEntries(f), LevelEntries(c.inputs0))
    {
      ChosenUpper(v, c, f);
    }
    forall g | g in v[c.level + 1] && g !in c.inputs1
      ensures Beside(g, c.inputs0 + c.inputs1)
      ensures NoSharedKey(FileEntries(g), LevelEntries(c.inputs0))
    {
      ChosenLower(v, c, g);
    }
  }

  // An input key that was at its base level when the compaction was chosen still has
  // nothing below the output level.
  ghost predicate BaseStillBase(v: Version, chosenIn: Version, level: nat, inputs0: seq<File>, inputs1: seq<File>) {
    forall l, e, b :: level + 2 <= l < NUM_LEVELS && e in LevelEntries(v[l])
                      && b in LevelEntries(inputs0) + LevelEntries(inputs1) && e.key == b.key
                      ==> !BaseLevel(chosenIn, level, b.key)
  }

  lemma ChosenBase(v: Version, level: nat, inputs0: seq<File>, inputs1: seq<File>)
    requires VersionValid(v)
    ensures BaseStillBase(v, v, level, inputs0, inputs1)
  {
    forall l, e, b | level + 2 <= l < NUM_LEVELS && e in LevelEntries(v[l])
                      && b in LevelEntries(inputs0) + LevelEntries(inputs1) && e.key == b.key
      ensures !BaseLevel(v, level, b.key)
    {
      VersionLevelTables(v, l);
      var f :| f in v[l] && e in f.entries;
      WithinBounds(f, e);
    }
  }

  /* ---- a flush while the compaction runs (db_impl.cc:908) ---- */

  lemma FlushApartFromInputs(v: Version, level: nat, inputs0: seq<File>, inputs1: seq<File>, g: File, at: nat)
    requires VersionValid(v) && Ready(v, level, inputs0, inputs1) && TableValid(g)
    requires level + 1 <= at < NUM_LEVELS && NoOverlapDownTo(v, at, g)
    ensures SplitBy(inputs0 + inputs1, Smallest(g).user, Largest(g).user)
    ensures NoSharedKey(FileEntries(g), LevelEntries(inputs0) + LevelEntries(inputs1))
  {
    assert !OverlapInLevel(v, level, Smallest(g).user, Largest(g).user);
    assert !OverlapInLevel(v, level + 1, Smallest(g).user, Largest(g).user);
    VersionLevelTables(v, level);
    VersionLevelTables(v, level + 1);
    forall a, b | a in FileEntries(g) && b in LevelEntries(inputs0) + LevelEntries(inputs1)
      ensures a.key != b.key
    {
      if b in LevelEntries(inputs0) {
        ApartNoShared(v, level, g, a, b);
      } else {
        ApartNoShared(v, level + 1, g, a, b);
      }
    }
  }

  lemma SplitOneSide(files: seq<File>, g: File)
    requires TableValid(g) && Connected(files) && SplitBy(files, Smallest(g).user, Largest(g).user)
    ensures OneSide(g, files)
  {
    WithinBounds(g, g.entries[0]);
    if AllAbove(files, Largest(g).user) {
      assert forall x :: x in files ==> Less(Largest(g), Smallest(x));
    } else {
      assert AllBelow(files, Smallest(g).user);
      assert forall x :: x in files ==> Less(Largest(x), Smallest(g));
    }
  }

  lemma FlushKeepsReady(v: Version, v': Version, level: nat, inputs0: seq<File>, inputs1: seq<File>, g: File, at: nat)
    requires VersionValid(v) && Ready(v, level, inputs0, inputs1)
    requires Flushed(v, v', at, g) && TableValid(g) && NoOverlapDownTo(v, at, g)
    requires Newer(FileEntries(g), VersionEntries(v))
    ensures Ready(v', level, inputs0, inputs1)
  {
    VersionLevelTables(v, level);
    if at == level {
      NewerParts(FileEntries(g), VersionEntries(v), FileEntries(g), LevelEntries(inputs0));
    } else if at == level + 1 {
      FlushApartFromInputs(v, level, inputs0, inputs1, g, at);
    }
  }

  // Without a gap in the inputs, what stays is on one side of them.
  lemma ConnectedIsApart(v: Version, level: nat, inputs0: seq<File>, inputs1: seq<File>, outputs: seq<File>)
    requires VersionValid(v) && Ready(v, level, inputs0, inputs1) && OutputsOf(inputs0, inputs1, outputs)
    requires Connected(inputs0 + inputs1)
    ensures OutputsApart(v, level, inputs1, outputs)
  {
    VersionLevelTables(v, level + 1);
    forall g | g in v[level + 1] && g !in inputs1
      ensures OneSide(g, inputs0 + inputs1)
    {
      if !OneSide(g, inputs0 + inputs1) {
        SplitOneSide(inputs0 + inputs1, g);
      }
    }
    OneSideIsApart(v, level, inputs0, inputs1, outputs);
  }

  lemma FlushKeepsBase(v: Version, v': Version, chosenIn: Version, level: nat, inputs0: seq<File>, inputs1: seq<File>, g: File, at: nat)
    requires VersionValid(v) && Ready(v, level, inputs0, inputs1) && BaseStillBase(v, chosenIn, level, inputs0, inputs1)
    requires Flushed(v, v', at, g) && TableValid(g) && NoOverlapDownTo(v, at, g)
    ensures BaseStillBase(v', chosenIn, level, inputs0, inputs1)
  {
    FlushedEntries(v, v', at, g);
    if level + 2 <= at {
      FlushApartFromInputs(v, level, inputs0, inputs1, g, at);
    }
  }

  /* ---- the boundary gap ---- */

  // A value that an obsolete deletion marker uncovers can only be in a file that
  // continues the last user key of the lower inputs.
  lemma UncoveredAtBoundary(v: Version, chosenIn: Version, level: nat, inputs0: seq<File>, inputs1: seq<File>, m: Entry, x: Entry) returns (g: File)
    requires VersionValid(v) && Ready(v, level, inputs0, inputs1) && BaseStillBase(v, chosenIn, level, inputs0, inputs1)
    requires m in LevelEntries(inputs0) + LevelEntries(inputs1) && BaseLevel(chosenIn, level, m.key)
    requires x in VersionEntries(v) && x !in LevelEntries(inputs0) && x !in LevelEntries(inputs1)
    requires x.key == m.key && x.sn < m.sn
    ensures inputs1 != [] && g in v[level + 1] && IsBoundaryFile(g, TopKey(inputs1))
    ensures x in g.entries && m.key == TopKey(inputs1).user
  {
    var l: nat;
    l, g :| 0 <= l < NUM_LEVELS && g in v[l] && x in g.entries;
    UncoveredLevel(v, chosenIn, level, inputs0, inputs1, m, x, l, g);
    VersionLevelTables(v, level + 1);
    var f :| f in inputs1 && m in f.entries;
    FollowsInputs(inputs0, inputs1, f, g, m, x);
  }

  lemma FollowsInputs(inputs0: seq<File>, inputs1: seq<File>, f: File, g: File, m: Entry, x: Entry)
    requires f in inputs1 && TableValid(f) && TableValid(g) && Beside(g, inputs0 + inputs1)
    requires m in f.entries && x in g.entries && x.key == m.key && x.sn < m.sn
    ensures IsBoundaryFile(g, TopKey(inputs1)) && m.key == TopKey(inputs1).user
  {
    WithinBounds(g, x);
    WithinBounds(f, m);
    assert f in inputs0 + inputs1;
    var top :| top in inputs1 && Largest(top) == TopKey(inputs1);
    assert top in inputs0 + inputs1;
  }

  // The first file that continues the last user key of the lower inputs.
  ghost predicate Behind(v: Version, level: nat, inputs1: seq<File>, b: File) {
    level + 1 < NUM_LEVELS && inputs1 != [] && SmallestBoundary(v[level + 1], TopKey(inputs1)) == Some(b)
  }

  lemma BoundaryNotInput(inputs1: seq<File>, b: File)
    requires inputs1 != [] && TableValid(b) && IsBoundaryFile(b, TopKey(inputs1))
    ensures b !in inputs1
  {
    WithinBounds(b, b.entries[0]);
    assert IsLargestKey(inputs1, TopKey(inputs1));
  }

  lemma BehindPlaced(v: Version, level: nat, inputs1: seq<File>, b: File)
    requires VersionValid(v) && Behind(v, level, inputs1, b)
    ensures b in v[level + 1] && TableValid(b) && IsBoundaryFile(b, TopKey(inputs1)) && b !in inputs1
  {
    VersionLevelTables(v, level + 1);
    BoundaryNotInput(inputs1, b);
  }

  // Nothing in it is among the inputs.
  lemma BehindIsLeft(v: Version, level: nat, inputs0: seq<File>, inputs1: seq<File>, b: File, e: Entry)
    requires VersionValid(v) && Ready(v, level, inputs0, inputs1) && Behind(v, level, inputs1, b) && e in b.entries
    ensures e in VersionEntries(v) && e !in LevelEntries(inputs0) + LevelEntries(inputs1)
  {
    BehindPlaced(v, level, inputs1, b);
    if e in LevelEntries(inputs0) {
      InputsApart0(v, level, inputs0, inputs1, level + 1, b, e);
    } else if e in LevelEntries(inputs1) {
      InputsApart1(v, level, inputs0, inputs1, level + 1, b, e);
    }
  }

  // An input entry for its first user key is at least as new as what it starts with.
  lemma InputBeforeBehind(v: Version, level: nat, inputs0: seq<File>, inputs1: seq<File>, b: File, m: Entry)
    requires VersionValid(v) && Ready(v, level, inputs0, inputs1) && Behind(v, level, inputs1, b)
    requires m in LevelEntries(inputs0) + LevelEntries(inputs1) && m.key == Smallest(b).user
    ensures b.entries[0].sn <= m.sn
  {
    BehindPlaced(v, level, inputs1, b);
    assert b.entries[0] in FileEntries(b);
    assert NoSharedKey(FileEntries(b), LevelEntries(inputs0));
    var f :| f in inputs1 && m in f.entries;
    VersionLevelTables(v, level + 1);
    WithinBounds(f, m);
    assert !Less(TopKey(inputs1), Largest(f));
  }

  // What a marker at its base level uncovers is no newer than what that file starts with.
  lemma UncoveredBehind(v: Version, chosenIn: Version, level: nat, inputs0: seq<File>, inputs1: seq<File>, m: Entry, x: Entry) returns (b: File)
    requires VersionValid(v) && Ready(v, level, inputs0, inputs1) && BaseStillBase(v, chosenIn, level, inputs0, inputs1)
    requires m in LevelEntries(inputs0) + LevelEntries(inputs1) && BaseLevel(chosenIn, level, m.key)
    requires x in VersionEntries(v) && x !in LevelEntries(inputs0) && x !in LevelEntries(inputs1)
    requires x.key == m.key && x.sn < m.sn
    ensures Behind(v, level, inputs1, b) && Smallest(b).user == m.key && x.sn <= b.entries[0].sn
  {
    var g := UncoveredAtBoundary(v, chosenIn, level, inputs0, inputs1, m, x);
    b := SmallestBoundary(v[level + 1], TopKey(inputs1)).value;
    VersionLevelTables(v, level + 1);
    WithinBounds(g, x);
  }

  lemma LevelsNewer(v: Version, l: nat, n: nat, a: Entry, b: Entry)
    requires VersionValid(v) && l < n < NUM_LEVELS
    requires a in LevelEntries(v[l]) && b in LevelEntries(v[n]) && a.key == b.key
    ensures a.sn > b.sn
  {
    assert Newer(LevelEntries(v[l]), LevelEntries(v[n]));
  }

  lemma UncoveredLevel(v: Version, chosenIn: Version, level: nat, inputs0: seq<File>, inputs1: seq<File>, m: Entry, x: Entry, l: nat, h: File)
    requires VersionValid(v) && Ready(v, level, inputs0, inputs1) && BaseStillBase(v, chosenIn, level, inputs0, inputs1)
    requires m in LevelEntries(inputs0) + LevelEntries(inputs1) && BaseLevel(chosenIn, level, m.key)
    requires l < NUM_LEVELS && h in v[l] && x in h.entries
    requires x !in LevelEntries(inputs0) && x !in LevelEntries(inputs1)
    requires x.key == m.key && x.sn < m.sn
    ensures l == level + 1 && h !in inputs1 && m in LevelEntries(inputs1)
  {
    assert x in LevelEntries(v[l]);
    assert l < level + 2;
    UncoveredNotUpper(v, level, inputs0, inputs1, m, x, l, h);
    UncoveredByLower(v, level, inputs1, m, x, l);
  }

  lemma UncoveredByLower(v: Version, level: nat, inputs1: seq<File>, m: Entry, x: Entry, l: nat)
    requires VersionValid(v) && level + 1 < NUM_LEVELS && Subset(inputs1, v[level + 1])
    requires m in LevelEntries(inputs1) && l < NUM_LEVELS && x in LevelEntries(v[l])
    requires x.key == m.key && x.sn < m.sn
    ensures l >= level + 1
  {
    assert m in LevelEntries(v[level + 1]);
    if l < level + 1 {
      LevelsNewer(v, l, level + 1, x, m);
    }
  }

  lemma UncoveredNotUpper(v: Version, level: nat, inputs0: seq<File>, inputs1: seq<File>, m: Entry, x: Entry, l: nat, h: File)
    requires VersionValid(v) && Ready(v, level, inputs0, inputs1)
    requires l < level + 2 && h in v[l] && x in h.entries
    requires x !in LevelEntries(inputs0) && x !in LevelEntries(inputs1)
    requires x.key == m.key && x.sn < m.sn
    ensures m !in LevelEntries(inputs0)
  {
    if m in LevelEntries(inputs0) {
      assert x in LevelEntries(v[l]) && m in LevelEntries(v[level]) && x in FileEntries(h);
      if l < level {
        LevelsNewer(v, l, level, x, m);
      } else if l == level {
        NewerPair(FileEntries(h), LevelEntries(inputs0), x, m);
      }
    }
  }

  lemma NewerPair(A: set<Entry>, B: set<Entry>, a: Entry, b: Entry)
    requires Newer(A, B) && a in A && b in B && a.key == b.key
    ensures a.sn > b.sn
  {
  }
}
