/**
 Choosing the inputs of a compaction and the level of a flushed memtable
 (db/version_set.cc:491-559 and 1200-1495).
 */
module Selection {
  import opened Keys
  import opened Tables

  // Option max_file_size drives all size limits (version_set.cc:25-40).
  function MaxGrandParentOverlapBytes(maxFileSize: nat): nat {
    10 * maxFileSize
  }

  function ExpandedCompactionByteSizeLimit(maxFileSize: nat): nat {
    25 * maxFileSize
  }

  function TotalFileSize(files: seq<File>): nat {
    if files == [] then 0 else files[0].size + TotalFileSize(files[1..])
  }

  lemma TotalFileSizePush(files: seq<File>, f: File)
    ensures TotalFileSize(files + [f]) == TotalFileSize(files) + f.size
  {
    if files != [] {
      assert (files + [f])[1..] == files[1..] + [f];
    }
  }

  /* ---- GetOverlappingInputs ---- */

  // The files that meet the range, in the level's own order.
  function Overlapping(files: seq<File>, lo: Option<UserKey>, hi: Option<UserKey>): seq<File> {
    if files == [] then []
    else
      var n := |files| - 1;
      Overlapping(files[..n], lo, hi) + if Overlaps(files[n], lo, hi) then [files[n]] else []
  }

  lemma {:induction false} OverlappingMembers(files: seq<File>, lo: Option<UserKey>, hi: Option<UserKey>)
    ensures forall f :: f in Overlapping(files, lo, hi) <==> f in files && Overlaps(f, lo, hi)
  {
    if files != [] {
      var n := |files| - 1;
      OverlappingMembers(files[..n], lo, hi);
      assert forall f :: f in files <==> f in files[..n] || f == files[n];
    }
  }

  ghost predicate Inside(f: File, lo: Option<UserKey>, hi: Option<UserKey>) {
    && (lo.Some? ==> lo.value <= Smallest(f).user)
    && (hi.Some? ==> Largest(f).user <= hi.value)
  }

  // No file sticks out of the range it meets.
  ghost predicate ClosedRange(files: seq<File>, lo: Option<UserKey>, hi: Option<UserKey>) {
    forall f :: f in files && Overlaps(f, lo, hi) ==> Inside(f, lo, hi)
  }

  ghost predicate Wider(lo: Option<UserKey>, hi: Option<UserKey>, lo0: Option<UserKey>, hi0: Option<UserKey>) {
    && (lo.Some? ==> lo0.Some? && lo.value <= lo0.value)
    && (hi.Some? ==> hi0.Some? && hi0.value <= hi.value)
  }

  // Every closed range around the given one is also around this one.
  ghost predicate WithinAllClosed(files: seq<File>, lo0: Option<UserKey>, hi0: Option<UserKey>, lo: Option<UserKey>, hi: Option<UserKey>) {
    forall b, e :: ClosedRange(files, b, e) && Wider(b, e, lo0, hi0) ==> Wider(b, e, lo, hi)
  }

  ghost predicate LeastClosed(files: seq<File>, lo0: Option<UserKey>, hi0: Option<UserKey>, lo: Option<UserKey>, hi: Option<UserKey>) {
    && ClosedRange(files, lo, hi)
    && Wider(lo, hi, lo0, hi0)
    && WithinAllClosed(files, lo0, hi0, lo, hi)
  }

  lemma ExtendKeepsWithin(files: seq<File>, lo0: Option<UserKey>, hi0: Option<UserKey>, lo: Option<UserKey>, hi: Option<UserKey>, f: File)
    requires WithinAllClosed(files, lo0, hi0, lo, hi) && f in files && Overlaps(f, lo, hi)
    ensures lo.Some? ==> WithinAllClosed(files, lo0, hi0, Some(Smallest(f).user), hi)
    ensures hi.Some? ==> WithinAllClosed(files, lo0, hi0, lo, Some(Largest(f).user))
  {
    forall b, e | ClosedRange(files, b, e) && Wider(b, e, lo0, hi0)
      ensures lo.Some? ==> Wider(b, e, Some(Smallest(f).user), hi)
      ensures hi.Some? ==> Wider(b, e, lo, Some(Largest(f).user))
    {
      assert Wider(b, e, lo, hi);
      assert Overlaps(f, b, e);
    }
  }

  // How many files stick out on each side; a restart of the scan lowers one of them.
  function StartsBelow(files: seq<File>, lo: Option<UserKey>): nat {
    if files == [] || lo.None? then 0
    else (if Smallest(files[0]).user < lo.value then 1 else 0) + StartsBelow(files[1..], lo)
  }

  function EndsAbove(files: seq<File>, hi: Option<UserKey>): nat {
    if files == [] || hi.None? then 0
    else (if Largest(files[0]).user > hi.value then 1 else 0) + EndsAbove(files[1..], hi)
  }

  lemma StartsBelowShrinks(files: seq<File>, lo: UserKey, f: File)
    ensures Smallest(f).user < lo ==> StartsBelow(files, Some(Smallest(f).user)) <= StartsBelow(files, Some(lo))
    ensures Smallest(f).user < lo && f in files ==> StartsBelow(files, Some(Smallest(f).user)) < StartsBelow(files, Some(lo))
  {
  }

  lemma EndsAboveShrinks(files: seq<File>, hi: UserKey, f: File)
    ensures Largest(f).user > hi ==> EndsAbove(files, Some(Largest(f).user)) <= EndsAbove(files, Some(hi))
    ensures Largest(f).user > hi && f in files ==> EndsAbove(files, Some(Largest(f).user)) < EndsAbove(files, Some(hi))
  {
  }

  // version_set.cc:519. The ghost results are the range the scan ended with.
  method GetOverlappingInputs(level: nat, files: seq<File>, begin: Option<UserKey>, end: Option<UserKey>)
    returns (inputs: seq<File>, ghost lo: Option<UserKey>, ghost hi: Option<UserKey>)
    ensures inputs == Overlapping(files, lo, hi)
    ensures level > 0 ==> lo == begin && hi == end
    ensures level == 0 ==> LeastClosed(files, begin, end, lo, hi)
    ensures lo.Some? == begin.Some? && hi.Some? == end.Some?
  {
    inputs := [];
    var userBegin, userEnd := begin, end;
    var i := 0;
    while i < |files|
      invariant 0 <= i <= |files|
      invariant inputs == Overlapping(files[..i], userBegin, userEnd)
      invariant begin.Some? == userBegin.Some? && end.Some? == userEnd.Some?
      invariant level > 0 ==> userBegin == begin && userEnd == end
      invariant level == 0 ==> ClosedRange(files[..i], userBegin, userEnd) && Wider(userBegin, userEnd, begin, end)
      invariant WithinAllClosed(files, begin, end, userBegin, userEnd)
      decreases StartsBelow(files, userBegin), EndsAbove(files, userEnd), |files| - i
    {
      var f := files[i];
      assert files[..i + 1][..i] == files[..i];
      i := i + 1;
      var fileStart, fileLimit := Smallest(f).user, Largest(f).user;
      if userBegin.Some? && fileLimit < userBegin.value {
      } else if userEnd.Some? && fileStart > userEnd.value {
      } else {
        inputs := inputs + [f];
        if level == 0 {
          ExtendKeepsWithin(files, begin, end, userBegin, userEnd, f);
          if userBegin.Some? && fileStart < userBegin.value {
            StartsBelowShrinks(files, userBegin.value, f);
            userBegin, inputs, i := Some(fileStart), [], 0;
          } else if userEnd.Some? && fileLimit > userEnd.value {
            EndsAboveShrinks(files, userEnd.value, f);
            userEnd, inputs, i := Some(fileLimit), [], 0;
          }
        }
      }
    }
    assert files[..i] == files;
    lo, hi := userBegin, userEnd;
  }

  /* ---- PickLevelForMemTableOutput ---- */

  ghost predicate OverlapInLevel(v: Version, level: nat, lo: UserKey, hi: UserKey)
    requires level < NUM_LEVELS
  {
    exists f :: f in v[level] && Overlaps(f, Some(lo), Some(hi))
  }

  ghost predicate TooMuchBelow(v: Version, level: nat, lo: UserKey, hi: UserKey, maxFileSize: nat)
    requires level + 2 < NUM_LEVELS
  {
    TotalFileSize(Overlapping(v[level + 2], Some(lo), Some(hi))) > MaxGrandParentOverlapBytes(maxFileSize)
  }

  // The one level that a flushed table goes to.
  ghost predicate IsOutputLevel(v: Version, lo: UserKey, hi: UserKey, maxFileSize: nat, level: nat) {
    && level <= MAX_MEM_COMPACT_LEVEL
    && (level > 0 ==> forall l :: 0 <= l <= level ==> !OverlapInLevel(v, l, lo, hi))
    && (forall l :: 0 <= l < level ==> !TooMuchBelow(v, l, lo, hi, maxFileSize))
    && (level < MAX_MEM_COMPACT_LEVEL && !OverlapInLevel(v, 0, lo, hi) ==>
          OverlapInLevel(v, level + 1, lo, hi) || TooMuchBelow(v, level, lo, hi, maxFileSize))
  }

  lemma OutputLevelUnique(v: Version, lo: UserKey, hi: UserKey, maxFileSize: nat, a: nat, b: nat)
    requires IsOutputLevel(v, lo, hi, maxFileSize, a) && IsOutputLevel(v, lo, hi, maxFileSize, b)
    ensures a == b
  {
  }

  // version_set.cc:485
  method FindOverlapInLevel(v: Version, level: nat, lo: UserKey, hi: UserKey) returns (overlap: bool)
    requires VersionValid(v) && level < NUM_LEVELS
    ensures overlap <==> OverlapInLevel(v, level, lo, hi)
  {
    overlap := SomeFileOverlapsRange(level > 0, v[level], Some(lo), Some(hi));
  }

  // version_set.cc:491: the flushed table goes below level 0 only past levels it does
  // not overlap, and as far as the limits allow.
  method PickLevelForMemTableOutput(v: Version, smallest: UserKey, largest: UserKey, maxFileSize: nat)
    returns (level: nat)
    requires VersionValid(v)
    ensures IsOutputLevel(v, smallest, largest, maxFileSize, level)
  {
    hide VersionValid, OverlapInLevel, Overlapping, TotalFileSize;
    level := 0;
    var overlap := FindOverlapInLevel(v, 0, smallest, largest);
    if !overlap {
      while level < MAX_MEM_COMPACT_LEVEL
        invariant level <= MAX_MEM_COMPACT_LEVEL
        invariant forall l :: 0 <= l <= level ==> !OverlapInLevel(v, l, smallest, largest)
        invariant forall l :: 0 <= l < level ==> !TooMuchBelow(v, l, smallest, largest, maxFileSize)
      {
        overlap := FindOverlapInLevel(v, level + 1, smallest, largest);
        if overlap {
          break;
        }
        if level + 2 < NUM_LEVELS {
          var overlaps, _, _ := GetOverlappingInputs(level + 2, v[level + 2], Some(smallest), Some(largest));
          if TotalFileSize(overlaps) > MaxGrandParentOverlapBytes(maxFileSize) {
            break;
          }
        }
        level := level + 1;
      }
    }
  }

  /* ---- ranges ---- */

  ghost predicate IsSmallestKey(files: seq<File>, k: InternalKey) {
    (exists f :: f in files && Smallest(f) == k) && forall f :: f in files ==> !Less(Smallest(f), k)
  }

  ghost predicate IsLargestKey(files: seq<File>, k: InternalKey) {
    (exists f :: f in files && Largest(f) == k) && forall f :: f in files ==> !Less(k, Largest(f))
  }

  // version_set.cc:1205
  method GetRange(inputs: seq<File>) returns (smallest: InternalKey, largest: InternalKey)
    requires inputs != []
    ensures IsSmallestKey(inputs, smallest) && IsLargestKey(inputs, largest)
  {
    smallest, largest := Smallest(inputs[0]), Largest(inputs[0]);
    ghost var a, b := 0, 0;
    for i := 1 to |inputs|
      invariant 0 <= a < i && smallest == Smallest(inputs[a])
      invariant 0 <= b < i && largest == Largest(inputs[b])
      invariant forall j :: 0 <= j < i ==> !Less(Smallest(inputs[j]), smallest) && !Less(largest, Largest(inputs[j]))
    {
      var f := inputs[i];
      if Compare(Smallest(f), smallest) < 0 {
        smallest, a := Smallest(f), i;
      }
      if Compare(Largest(f), largest) > 0 {
        largest, b := Largest(f), i;
      }
    }
    assert inputs[a] in inputs && inputs[b] in inputs;
  }

  /* ---- boundary files ---- */

  // version_set.cc:1326
  method FindLargestKey(files: seq<File>) returns (largest: Option<InternalKey>)
    ensures files == [] <==> largest.None?
    ensures largest.Some? ==> IsLargestKey(files, largest.value)
  {
    if files == [] {
      return None;
    }
    var _, k := GetRange(files);
    return Some(k);
  }

  predicate IsBoundaryFile(f: File, largest: InternalKey) {
    Less(largest, Smallest(f)) && Smallest(f).user == largest.user
  }

  // The boundary file with the least smallest key, the first of them in the list.
  function SmallestBoundary(files: seq<File>, largest: InternalKey): (r: Option<File>)
    ensures r.None? ==> forall f :: f in files ==> !IsBoundaryFile(f, largest)
    ensures r.Some? ==> r.value in files && IsBoundaryFile(r.value, largest)
    ensures r.Some? ==> forall f :: f in files && IsBoundaryFile(f, largest) ==> !Less(Smallest(f), Smallest(r.value))
  {
    if files == [] then None
    else
      var n := |files| - 1;
      var rest := SmallestBoundary(files[..n], largest);
      if IsBoundaryFile(files[n], largest) && (rest.None? || Less(Smallest(files[n]), Smallest(rest.value)))
      then Some(files[n]) else rest
  }

  // version_set.cc:1344
  method FindSmallestBoundaryFile(levelFiles: seq<File>, largest: InternalKey) returns (r: Option<File>)
    ensures r == SmallestBoundary(levelFiles, largest)
  {
    r := None;
    for i := 0 to |levelFiles|
      invariant r == SmallestBoundary(levelFiles[..i], largest)
    {
      var f := levelFiles[i];
      assert levelFiles[..i + 1][..i] == levelFiles[..i];
      if Compare(Smallest(f), largest) > 0 && Smallest(f).user == largest.user {
        if r.None? || Compare(Smallest(f), Smallest(r.value)) < 0 {
          r := Some(f);
        }
      }
    }
    assert levelFiles[..|levelFiles|] == levelFiles;
  }

  // Files wholly after a key: those a boundary search can still pick up.
  function After(files: seq<File>, k: InternalKey): nat {
    if files == [] then 0 else (if Less(k, Smallest(files[0])) then 1 else 0) + After(files[1..], k)
  }

  lemma AfterShrinks(files: seq<File>, k: InternalKey, f: File)
    requires TableValid(f) && Less(k, Smallest(f))
    ensures After(files, Largest(f)) <= After(files, k)
    ensures f in files ==> After(files, Largest(f)) < After(files, k)
  {
    WithinBounds(f, f.entries[0]);
  }

  // The chain of boundary files that follow a key.
  ghost function Boundaries(files: seq<File>, k: InternalKey): seq<File>
    requires TablesValid(files)
    decreases After(files, k)
  {
    var b := SmallestBoundary(files, k);
    if b.None? then []
    else
      AfterShrinks(files, k, b.value);
      [b.value] + Boundaries(files, Largest(b.value))
  }

  lemma LargestAfterPush(files: seq<File>, k: InternalKey, b: File)
    requires IsLargestKey(files, k) && TableValid(b) && IsBoundaryFile(b, k)
    ensures IsLargestKey(files + [b], Largest(b))
  {
    WithinBounds(b, b.entries[0]);
    assert b in files + [b];
  }

  lemma {:induction false} BoundariesClose(files: seq<File>, chosen: seq<File>, k: InternalKey) returns (last: InternalKey)
    requires TablesValid(files) && IsLargestKey(chosen, k)
    ensures IsLargestKey(chosen + Boundaries(files, k), last)
    ensures forall f :: f in files ==> !IsBoundaryFile(f, last)
    decreases After(files, k)
  {
    var b := SmallestBoundary(files, k);
    if b.None? {
      assert chosen + [] == chosen;
      last := k;
    } else {
      AfterShrinks(files, k, b.value);
      LargestAfterPush(chosen, k, b.value);
      last := BoundariesClose(files, chosen + [b.value], Largest(b.value));
      AppendCons(chosen, b.value, Boundaries(files, Largest(b.value)));
    }
  }

  ghost function TopKey(files: seq<File>): (k: InternalKey)
    requires files != []
    ensures IsLargestKey(files, k)
  {
    if |files| == 1 then Largest(files[0])
    else
      var n := |files| - 1;
      var t := TopKey(files[..n]);
      assert forall f :: f in files <==> f in files[..n] || f == files[n];
      if Less(t, Largest(files[n])) then Largest(files[n]) else t
  }

  lemma LargestKeyUnique(files: seq<File>, k: InternalKey)
    requires files != [] && IsLargestKey(files, k)
    ensures k == TopKey(files)
  {
  }

  // A set of inputs once its boundary files are in.
  ghost function CloseUp(files: seq<File>, inputs: seq<File>): seq<File>
    requires TablesValid(files) && inputs != []
  {
    inputs + Boundaries(files, TopKey(inputs))
  }

  // version_set.cc:1378
  method AddBoundaryInputs(levelFiles: seq<File>, compactionFiles: seq<File>) returns (r: seq<File>)
    requires TablesValid(levelFiles)
    ensures compactionFiles == [] ==> r == []
    ensures compactionFiles != [] ==> r == CloseUp(levelFiles, compactionFiles)
  {
    r := compactionFiles;
    var first := FindLargestKey(compactionFiles);
    if first.None? {
      return;
    }
    var largest := first.value;
    var searching := true;
    while searching
      invariant compactionFiles + Boundaries(levelFiles, first.value) == if searching then r + Boundaries(levelFiles, largest) else r
      decreases searching, After(levelFiles, largest)
    {
      var b := FindSmallestBoundaryFile(levelFiles, largest);
      if b.Some? {
        AfterShrinks(levelFiles, largest, b.value);
        r, largest := r + [b.value], Largest(b.value);
      } else {
        searching := false;
      }
    }
    LargestKeyUnique(compactionFiles, first.value);
  }

  /* ---- runs of a sorted level ---- */

  predicate SharesBoundary(files: seq<File>, j: nat)
    requires 1 <= j <= |files|
  {
    j < |files| && Smallest(files[j]).user == Largest(files[j - 1]).user
  }

  // Where the run of files sharing their boundary user key ends.
  function BoundaryEnd(files: seq<File>, j: nat): (r: nat)
    requires 1 <= j <= |files|
    ensures j <= r <= |files|
    ensures r < |files| ==> Smallest(files[r]).user != Largest(files[r - 1]).user
    decreases |files| - j
  {
    if SharesBoundary(files, j) then BoundaryEnd(files, j + 1) else j
  }

  lemma BoundaryFileIsNext(files: seq<File>, j: nat, m: nat)
    requires Disjoint(files) && 1 <= j <= |files| && m < |files| && IsBoundaryFile(files[m], Largest(files[j - 1]))
    ensures j <= m && IsBoundaryFile(files[j], Largest(files[j - 1]))
    ensures j < m ==> Less(Smallest(files[j]), Smallest(files[m]))
  {
    if m < j {
      DisjointOrder(files, m, j - 1);
      WithinBounds(files[m], files[m].entries[0]);
    }
    DisjointOrder(files, j, m);
  }

  lemma NoBoundaryUnlessNext(files: seq<File>, j: nat)
    requires Disjoint(files) && 1 <= j <= |files| && !SharesBoundary(files, j)
    ensures SmallestBoundary(files, Largest(files[j - 1])).None?
  {
    var b := SmallestBoundary(files, Largest(files[j - 1]));
    if b.Some? {
      var m :| 0 <= m < |files| && files[m] == b.value;
      BoundaryFileIsNext(files, j, m);
    }
  }

  lemma SmallestBoundaryIsNext(files: seq<File>, j: nat)
    requires Disjoint(files) && 1 <= j <= |files| && SharesBoundary(files, j)
    ensures SmallestBoundary(files, Largest(files[j - 1])) == Some(files[j])
  {
    hide Disjoint, TableValid, SmallestBoundary, IsBoundaryFile, Less;
    NextIsBoundary(files, j);
    var b := SmallestBoundary(files, Largest(files[j - 1]));
    assert b.Some?;
    var m :| 0 <= m < |files| && files[m] == b.value;
    BoundaryFileIsNext(files, j, m);
    assert j == m;
  }

  lemma NextIsBoundary(files: seq<File>, j: nat)
    requires Disjoint(files) && 1 <= j <= |files| && SharesBoundary(files, j)
    ensures files[j] in files && IsBoundaryFile(files[j], Largest(files[j - 1]))
  {
    assert Less(Largest(files[j - 1]), Smallest(files[j]));
  }

  lemma {:induction false} BoundariesOfRun(files: seq<File>, j: nat)
    requires Disjoint(files) && 1 <= j <= |files|
    ensures Boundaries(files, Largest(files[j - 1])) == files[j..BoundaryEnd(files, j)]
    decreases |files| - j
  {
    hide Disjoint, TableValid, Boundaries;
    if !SharesBoundary(files, j) {
      RunEnds(files, j);
    } else {
      RunGoesOn(files, j);
      BoundariesOfRun(files, j + 1);
      SliceCons(files, j, BoundaryEnd(files, j + 1));
    }
  }

  lemma RunEnds(files: seq<File>, j: nat)
    requires Disjoint(files) && 1 <= j <= |files| && !SharesBoundary(files, j)
    ensures Boundaries(files, Largest(files[j - 1])) == []
  {
    NoBoundaryUnlessNext(files, j);
    hide SmallestBoundary;
  }

  lemma RunGoesOn(files: seq<File>, j: nat)
    requires Disjoint(files) && 1 <= j <= |files| && SharesBoundary(files, j)
    ensures Boundaries(files, Largest(files[j - 1])) == [files[j]] + Boundaries(files, Largest(files[j]))
  {
    SmallestBoundaryIsNext(files, j);
    NextInChain(files, Largest(files[j - 1]), files[j]);
  }

  lemma NextInChain(files: seq<File>, k: InternalKey, b: File)
    requires TablesValid(files) && SmallestBoundary(files, k) == Some(b)
    ensures Boundaries(files, k) == [b] + Boundaries(files, Largest(b))
  {
    hide SmallestBoundary;
  }

  // A stretch of consecutive files of a sorted level.
  ghost predicate IsRun(level: seq<File>, files: seq<File>, i: nat, j: nat) {
    Disjoint(level) && i < j <= |level| && files == level[i..j]
  }

  lemma RunLargest(level: seq<File>, files: seq<File>, i: nat, j: nat)
    requires IsRun(level, files, i, j)
    ensures IsLargestKey(files, Largest(level[j - 1]))
  {
    assert files[j - 1 - i] == level[j - 1] && level[j - 1] in files;
    forall f | f in files
      ensures !Less(Largest(level[j - 1]), Largest(f))
    {
      var m :| 0 <= m < |files| && files[m] == f;
      DisjointOrder(level, i + m, j - 1);
    }
  }

  lemma RunWithBoundaries(level: seq<File>, files: seq<File>, i: nat, j: nat)
    requires IsRun(level, files, i, j)
    ensures IsRun(level, files + Boundaries(level, Largest(level[j - 1])), i, BoundaryEnd(level, j))
  {
    var k := BoundaryEnd(level, j);
    BoundariesOfRun(level, j);
    hide Disjoint, Boundaries, BoundaryEnd;
    SliceJoin(level, i, j, k);
  }
}
