/**
 Picking a compaction: the inputs at a level, the files they meet one level down,
 and the optional growth of the upper set (db/version_set.cc:1270-1495).
 */
module Picking {
  import opened Keys
  import opened Tables
  import opened Selection

  // Inputs of a level that leave no file behind which they would overtake: at level 0
  // the whole content of a closed range, below it a run ended by a user-key boundary.
  ghost predicate ClosedInputs(level: nat, files: seq<File>, inputs: seq<File>) {
    if level == 0 then IsClosedPart(files, inputs) else IsClosedRun(files, inputs)
  }

  ghost predicate IsClosedPart(files: seq<File>, inputs: seq<File>) {
    exists lo, hi :: ClosedRange(files, lo, hi) && inputs == Overlapping(files, lo, hi)
  }

  ghost predicate IsClosedRun(files: seq<File>, inputs: seq<File>) {
    exists i, j :: IsRun(files, inputs, i, j) && BoundaryEnd(files, j) == j
  }

  // All files of a level together.
  lemma AllOfLevel(level: seq<File>)
    requires Disjoint(level) && level != []
    ensures IsClosedRun(level, level)
  {
    assert level == level[0..|level|];
    assert IsRun(level, level, 0, |level|) && BoundaryEnd(level, |level|) == |level|;
  }

  // What a caller of SetupOtherInputs has put into the upper set.
  ghost predicate FirstInputs(level: nat, files: seq<File>, inputs: seq<File>) {
    if level == 0 then IsClosedPart(files, inputs) else exists i, j :: IsRun(files, inputs, i, j)
  }

  // The lower set is what the upper set's user-key range meets.
  ghost predicate MeetsBelow(below: seq<File>, inputs0: seq<File>, inputs1: seq<File>) {
    exists s, l :: IsSmallestKey(inputs0, s) && IsLargestKey(inputs0, l)
                   && inputs1 == Overlapping(below, Some(s.user), Some(l.user))
  }

  // A set of files whose key ranges leave no gap that some other range could fall into.
  ghost predicate Connected(files: seq<File>) {
    forall p, q :: p <= q && SplitBy(files, p, q) ==> AllAbove(files, q) || AllBelow(files, p)
  }

  ghost predicate SplitBy(files: seq<File>, p: UserKey, q: UserKey) {
    forall f :: f in files ==> !Overlaps(f, Some(p), Some(q))
  }

  ghost predicate AllAbove(files: seq<File>, q: UserKey) {
    forall f :: f in files ==> q < Smallest(f).user
  }

  ghost predicate AllBelow(files: seq<File>, p: UserKey) {
    forall f :: f in files ==> Largest(f).user < p
  }

  /* ---- runs ---- */

  lemma UserOrder(files: seq<File>, i: nat, j: nat)
    requires Disjoint(files) && i <= j < |files|
    ensures Smallest(files[i]).user <= Largest(files[i]).user
    ensures Smallest(files[i]).user <= Smallest(files[j]).user
    ensures Largest(files[i]).user <= Largest(files[j]).user
    ensures i < j ==> Largest(files[i]).user <= Smallest(files[j]).user
  {
    DisjointOrder(files, i, j);
    WithinBounds(files[i], files[i].entries[0]);
  }

  lemma OverlappingConvex(files: seq<File>, lo: Option<UserKey>, hi: Option<UserKey>, i: nat, m: nat, j: nat)
    requires Disjoint(files) && i <= m <= j < |files|
    requires Overlaps(files[i], lo, hi) && Overlaps(files[j], lo, hi)
    ensures Overlaps(files[m], lo, hi)
  {
    UserOrder(files, i, m);
    UserOrder(files, m, j);
  }

  lemma {:induction false} OverlappingSpan(files: seq<File>, lo: Option<UserKey>, hi: Option<UserKey>, n: nat) returns (i: nat, j: nat)
    requires Disjoint(files) && n <= |files|
    ensures i <= j <= n
    ensures forall m :: 0 <= m < n ==> (Overlaps(files[m], lo, hi) <==> i <= m < j)
  {
    i, j := 0, 0;
    if n > 0 {
      i, j := OverlappingSpan(files, lo, hi, n - 1);
      if Overlaps(files[n - 1], lo, hi) {
        if i == j {
          i := n - 1;
        } else if j < n - 1 {
          OverlappingConvex(files, lo, hi, i, j, n - 1);
        }
        j := n;
      }
    }
  }

  lemma {:induction false} OverlappingIsSuffix(files: seq<File>, lo: Option<UserKey>, hi: Option<UserKey>, i: nat)
    requires i <= |files|
    requires forall m :: 0 <= m < |files| ==> (Overlaps(files[m], lo, hi) <==> i <= m)
    ensures Overlapping(files, lo, hi) == files[i..]
  {
    if files != [] {
      var n := |files| - 1;
      hide Overlaps;
      if i <= n {
        OverlappingIsSuffix(files[..n], lo, hi, i);
        assert files[i..] == files[..n][i..] + [files[n]];
      } else {
        OverlappingIsSuffix(files[..n], lo, hi, n);
        assert files[..n][n..] == [] && files[i..] == [];
      }
    }
  }

  lemma {:induction false} OverlappingIsSlice(files: seq<File>, lo: Option<UserKey>, hi: Option<UserKey>, i: nat, j: nat)
    requires i <= j <= |files|
    requires forall m :: 0 <= m < |files| ==> (Overlaps(files[m], lo, hi) <==> i <= m < j)
    ensures Overlapping(files, lo, hi) == files[i..j]
  {
    if j == |files| {
      OverlappingIsSuffix(files, lo, hi, i);
    } else {
      var n := |files| - 1;
      OverlappingIsSlice(files[..n], lo, hi, i, j);
      assert files[i..j] == files[..n][i..j];
    }
  }

  lemma OverlappingIsRun(files: seq<File>, lo: Option<UserKey>, hi: Option<UserKey>) returns (i: nat, j: nat)
    requires Disjoint(files) && Overlapping(files, lo, hi) != []
    ensures IsRun(files, Overlapping(files, lo, hi), i, j)
  {
    i, j := OverlappingSpan(files, lo, hi, |files|);
    OverlappingIsSlice(files, lo, hi, i, j);
  }

  lemma OverlappingGrows(files: seq<File>, lo: Option<UserKey>, hi: Option<UserKey>, lo': Option<UserKey>, hi': Option<UserKey>)
    requires Wider(lo', hi', lo, hi)
    ensures |Overlapping(files, lo, hi)| <= |Overlapping(files, lo', hi')|
    ensures |Overlapping(files, lo, hi)| == |Overlapping(files, lo', hi')| ==> Overlapping(files, lo, hi) == Overlapping(files, lo', hi')
  {
  }

  /* ---- closing the upper set ---- */

  lemma ClosedPartHasNoBoundary(files: seq<File>, inputs: seq<File>, k: InternalKey)
    requires TablesValid(files) && IsClosedPart(files, inputs) && IsLargestKey(inputs, k)
    ensures Boundaries(files, k) == []
  {
    var lo, hi :| ClosedRange(files, lo, hi) && inputs == Overlapping(files, lo, hi);
    OverlappingMembers(files, lo, hi);
    var b := SmallestBoundary(files, k);
    if b.Some? {
      var top :| top in inputs && Largest(top) == k;
      WithinBounds(top, top.entries[0]);
      WithinBounds(b.value, b.value.entries[0]);
    }
  }

  lemma BoundariesCloseInputs(level: nat, files: seq<File>, inputs: seq<File>, k: InternalKey)
    requires TablesValid(files) && FirstInputs(level, files, inputs) && IsLargestKey(inputs, k)
    ensures ClosedInputs(level, files, inputs + Boundaries(files, k))
  {
    if level == 0 {
      ClosedPartHasNoBoundary(files, inputs, k);
      assert inputs + [] == inputs;
    } else {
      var i: nat, j: nat :| IsRun(files, inputs, i, j);
      RunLargest(files, inputs, i, j);
      LargestKeyUnique(inputs, k);
      LargestKeyUnique(inputs, Largest(files[j - 1]));
      RunWithBoundaries(files, inputs, i, j);
      assert BoundaryEnd(files, BoundaryEnd(files, j)) == BoundaryEnd(files, j);
    }
  }

  lemma OverlappingIsFirst(level: nat, files: seq<File>, lo: Option<UserKey>, hi: Option<UserKey>)
    requires if level == 0 then ClosedRange(files, lo, hi) else Disjoint(files)
    requires Overlapping(files, lo, hi) != []
    ensures FirstInputs(level, files, Overlapping(files, lo, hi))
  {
    if level > 0 {
      var i, j := OverlappingIsRun(files, lo, hi);
    }
  }

  /* ---- connected sets ---- */

  lemma AddTouching(files: seq<File>, more: seq<File>, lo: InternalKey, hi: InternalKey)
    requires files != [] && Connected(files) && IsSmallestKey(files, lo) && IsLargestKey(files, hi)
    requires forall f :: f in files ==> f in more
    requires forall f :: f in more ==> Overlaps(f, Some(lo.user), Some(hi.user))
    ensures Connected(more)
  {
    forall p, q | p <= q && SplitBy(more, p, q)
      ensures AllAbove(more, q) || AllBelow(more, p)
    {
      assert SplitBy(files, p, q);
      var a :| a in files && Smallest(a) == lo;
      var b :| b in files && Largest(b) == hi;
      if AllAbove(files, q) {
        assert q < lo.user;
      } else {
        assert AllBelow(files, p);
      }
    }
  }

  lemma AddSharing(files: seq<File>, next: seq<File>, f: File, g: File)
    requires Connected(files) && f in files && TableValid(f) && TableValid(g)
    requires Largest(f).user == Smallest(g).user
    requires forall h :: h in next <==> h in files || h == g
    ensures Connected(next)
  {
    WithinBounds(f, f.entries[0]);
    WithinBounds(g, g.entries[0]);
    forall p, q | p <= q && SplitBy(next, p, q)
      ensures AllAbove(next, q) || AllBelow(next, p)
    {
      assert SplitBy(files, p, q);
      assert !Overlaps(g, Some(p), Some(q));
    }
  }

  lemma RunStepConnected(level: seq<File>, other: seq<File>, i: nat, j: nat)
    requires Disjoint(level) && i < j < |level| && SharesBoundary(level, j) && Connected(level[i..j] + other)
    ensures Connected(level[i..j + 1] + other)
  {
    assert level[i..j][j - 1 - i] == level[j - 1];
    SlicePush(level, i, j);
    AddSharing(level[i..j] + other, level[i..j + 1] + other, level[j - 1], level[j]);
  }

  lemma {:induction false} RunConnected(level: seq<File>, other: seq<File>, i: nat, j: nat)
    requires Disjoint(level) && i < j <= |level| && Connected(level[i..j] + other)
    ensures Connected(level[i..BoundaryEnd(level, j)] + other)
    decreases |level| - j
  {
    if SharesBoundary(level, j) {
      RunStepConnected(level, other, i, j);
      RunConnected(level, other, i, j + 1);
    }
  }

  lemma SingleConnected(f: File)
    requires TableValid(f)
    ensures Connected([f])
  {
    WithinBounds(f, f.entries[0]);
  }

  // The content of the least closed range around a connected set is connected with it.
  lemma LeastClosedConnected(files: seq<File>, core: seq<File>, other: seq<File>, s: InternalKey, l: InternalKey, lo: Option<UserKey>, hi: Option<UserKey>)
    requires TablesValid(files) && core != [] && Connected(core) && IsSmallestKey(core, s) && IsLargestKey(core, l)
    requires LeastClosed(files, Some(s.user), Some(l.user), lo, hi) && lo.Some? && hi.Some?
    requires forall f :: f in core ==> f in Overlapping(files, lo, hi) + other
    requires forall f :: f in other ==> f in core
    ensures Connected(Overlapping(files, lo, hi) + other)
  {
    hide TableValid, Overlapping, WithinAllClosed, ClosedRange;
    OverlappingMembers(files, lo, hi);
    var all := Overlapping(files, lo, hi) + other;
    forall p, q | p <= q && SplitBy(all, p, q)
      ensures AllAbove(all, q) || AllBelow(all, p)
    {
      assert SplitBy(core, p, q);
      var a :| a in core && Smallest(a) == s;
      var b :| b in core && Largest(b) == l;
      if AllBelow(core, p) {
        assert l.user < p;
        if hi.Some? && q <= hi.value {
          LeftPartClosed(files, all, lo, hi, p, q);
          LeastIsWithin(files, Some(s.user), Some(l.user), lo, hi, lo, Some(q));
        }
        assert AllBelow(all, p);
      } else {
        assert q < s.user;
        if lo.Some? && lo.value <= p {
          RightPartClosed(files, all, lo, hi, p, q);
          LeastIsWithin(files, Some(s.user), Some(l.user), lo, hi, Some(p), hi);
        }
        assert AllAbove(all, q);
      }
    }
  }

  lemma LeastIsWithin(files: seq<File>, lo0: Option<UserKey>, hi0: Option<UserKey>, lo: Option<UserKey>, hi: Option<UserKey>, b: Option<UserKey>, e: Option<UserKey>)
    requires LeastClosed(files, lo0, hi0, lo, hi) && ClosedRange(files, b, e) && Wider(b, e, lo0, hi0)
    ensures Wider(b, e, lo, hi)
  {
  }

  lemma LeftPartClosed(files: seq<File>, all: seq<File>, lo: Option<UserKey>, hi: Option<UserKey>, p: UserKey, q: UserKey)
    requires ClosedRange(files, lo, hi) && p <= q && SplitBy(all, p, q)
    requires forall f :: f in Overlapping(files, lo, hi) ==> f in all
    requires hi.Some? && q <= hi.value
    ensures ClosedRange(files, lo, Some(q))
  {
    OverlappingMembers(files, lo, hi);
    forall f | f in files && Overlaps(f, lo, Some(q))
      ensures Inside(f, lo, Some(q))
    {
      assert f in Overlapping(files, lo, hi);
    }
  }

  lemma RightPartClosed(files: seq<File>, all: seq<File>, lo: Option<UserKey>, hi: Option<UserKey>, p: UserKey, q: UserKey)
    requires ClosedRange(files, lo, hi) && p <= q && SplitBy(all, p, q)
    requires forall f :: f in Overlapping(files, lo, hi) ==> f in all
    requires lo.Some? && lo.value <= p
    ensures ClosedRange(files, Some(p), hi)
  {
    OverlappingMembers(files, lo, hi);
    forall f | f in files && Overlaps(f, Some(p), hi)
      ensures Inside(f, Some(p), hi)
    {
      assert f in Overlapping(files, lo, hi);
    }
  }

  /* ---- SetupOtherInputs ---- */

  ghost predicate LevelOk(level: nat, files: seq<File>) {
    TablesValid(files) && (level > 0 ==> Disjoint(files))
  }

  ghost predicate Subset(a: seq<File>, b: seq<File>) {
    forall f :: f in a ==> f in b
  }

  lemma CloseUpFacts(level: nat, files: seq<File>, inputs: seq<File>)
    requires LevelOk(level, files) && inputs != [] && FirstInputs(level, files, inputs)
    ensures ClosedInputs(level, files, CloseUp(files, inputs))
    ensures Subset(inputs, CloseUp(files, inputs)) && CloseUp(files, inputs) != []
    ensures Subset(CloseUp(files, inputs), files)
  {
    BoundariesCloseInputs(level, files, inputs, TopKey(inputs));
    ClosedInputsInLevel(level, files, CloseUp(files, inputs));
  }

  lemma ClosedInputsInLevel(level: nat, files: seq<File>, inputs: seq<File>)
    requires ClosedInputs(level, files, inputs)
    ensures Subset(inputs, files)
  {
    if level == 0 {
      var lo, hi :| ClosedRange(files, lo, hi) && inputs == Overlapping(files, lo, hi);
      OverlappingMembers(files, lo, hi);
    }
  }

  lemma CloseUpIsRun(files: seq<File>, inputs: seq<File>, i: nat, j: nat)
    requires IsRun(files, inputs, i, j)
    ensures CloseUp(files, inputs) == files[i..BoundaryEnd(files, j)]
  {
    RunLargest(files, inputs, i, j);
    LargestKeyUnique(inputs, Largest(files[j - 1]));
    BoundariesOfRun(files, j);
    SliceJoin(files, i, j, BoundaryEnd(files, j));
  }

  lemma CloseUpConnected(level: nat, files: seq<File>, inputs: seq<File>, other: seq<File>)
    requires LevelOk(level, files) && inputs != [] && FirstInputs(level, files, inputs)
    requires Connected(inputs + other)
    ensures Connected(CloseUp(files, inputs) + other)
  {
    if level == 0 {
      ClosedPartHasNoBoundary(files, inputs, TopKey(inputs));
      assert CloseUp(files, inputs) == inputs;
    } else {
      var i: nat, j: nat :| IsRun(files, inputs, i, j);
      CloseUpIsRun(files, inputs, i, j);
      RunConnected(files, other, i, j);
    }
  }

  lemma BoundsOfMore(a: seq<File>, b: seq<File>, s: InternalKey, l: InternalKey, s': InternalKey, l': InternalKey)
    requires Subset(a, b)
    requires IsSmallestKey(a, s) && IsLargestKey(a, l) && IsSmallestKey(b, s') && IsLargestKey(b, l')
    ensures s'.user <= s.user && l.user <= l'.user
  {
  }

  lemma MembersMeetHull(files: seq<File>, s: InternalKey, l: InternalKey)
    requires TablesValid(files) && IsSmallestKey(files, s) && IsLargestKey(files, l)
    ensures forall f :: f in files ==> Overlaps(f, Some(s.user), Some(l.user))
  {
    forall f | f in files
      ensures Overlaps(f, Some(s.user), Some(l.user))
    {
      WithinBounds(f, f.entries[0]);
    }
  }

  // Everything a compaction picks lies in one connected stretch of keys.
  lemma MetConnected(inputs0: seq<File>, below: seq<File>, s: InternalKey, l: InternalKey)
    requires TablesValid(inputs0) && inputs0 != [] && Connected(inputs0)
    requires IsSmallestKey(inputs0, s) && IsLargestKey(inputs0, l)
    ensures Connected(inputs0 + Overlapping(below, Some(s.user), Some(l.user)))
  {
    OverlappingMembers(below, Some(s.user), Some(l.user));
    MembersMeetHull(inputs0, s, l);
    AddTouching(inputs0, inputs0 + Overlapping(below, Some(s.user), Some(l.user)), s, l);
  }

  // The optional growth of the upper set (version_set.cc:1419-1447).
  lemma ExpandedFacts(level: nat, files: seq<File>, inputs0: seq<File>, inputs1: seq<File>, s: InternalKey, l: InternalKey,
                      expanded: seq<File>, lo: Option<UserKey>, hi: Option<UserKey>)
    requires LevelOk(level, files) && TablesValid(inputs1)
    requires inputs0 != [] && ClosedInputs(level, files, inputs0)
    requires IsSmallestKey(inputs0 + inputs1, s) && IsLargestKey(inputs0 + inputs1, l)
    requires expanded == Overlapping(files, lo, hi)
    requires level > 0 ==> lo == Some(s.user) && hi == Some(l.user)
    requires level == 0 ==> LeastClosed(files, Some(s.user), Some(l.user), lo, hi)
    ensures Subset(inputs0, expanded) && expanded != [] && FirstInputs(level, files, expanded)
    ensures Connected(inputs0 + inputs1) && lo.Some? && hi.Some? ==> Connected(expanded + inputs1)
  {
    var all := inputs0 + inputs1;
    OverlappingMembers(files, lo, hi);
    ClosedInputsInLevel(level, files, inputs0);
    MembersMeetHull(all, s, l);
    forall f | f in inputs0
      ensures f in expanded
    {
      assert f in all;
      assert Overlaps(f, lo, hi);
    }
    assert inputs0[0] in expanded;
    OverlappingIsFirst(level, files, lo, hi);
    if Connected(all) && lo.Some? && hi.Some? {
      if level == 0 {
        LeastClosedConnected(files, all, inputs1, s, l, lo, hi);
      } else {
        AddTouching(all, expanded + inputs1, s, l);
      }
    }
  }

  // What has been decided about a compaction's inputs, and why.
  ghost predicate Selected(level: nat, files: seq<File>, below: seq<File>, first: seq<File>, inputs0: seq<File>, inputs1: seq<File>)
    requires TablesValid(files) && first != []
  {
    && inputs0 != [] && ClosedInputs(level, files, inputs0)
    && Subset(first, inputs0)
    && MeetsBelow(below, inputs0, inputs1)
    && MeetsBelow(below, CloseUp(files, first), inputs1)
    && (Connected(first) ==> Connected(inputs0 + inputs1))
  }

  // The facts that allow the growth step, gathered.
  lemma GrowthFacts(level: nat, files: seq<File>, below: seq<File>, first: seq<File>, inputs0: seq<File>, inputs1: seq<File>,
                    smallest: InternalKey, largest: InternalKey, allStart: InternalKey, allLimit: InternalKey,
                    expanded: seq<File>, lo: Option<UserKey>, hi: Option<UserKey>)
    requires LevelOk(level, files) && Disjoint(below) && first != []
    requires Selected(level, files, below, first, inputs0, inputs1)
    requires IsSmallestKey(inputs0 + inputs1, allStart) && IsLargestKey(inputs0 + inputs1, allLimit)
    requires inputs1 == Overlapping(below, Some(smallest.user), Some(largest.user))
    requires expanded == Overlapping(files, lo, hi) && lo.Some? && hi.Some?
    requires level > 0 ==> lo == Some(allStart.user) && hi == Some(allLimit.user)
    requires level == 0 ==> LeastClosed(files, Some(allStart.user), Some(allLimit.user), lo, hi)
    ensures expanded != []
    ensures ClosedInputs(level, files, CloseUp(files, expanded))
    ensures Subset(inputs0, CloseUp(files, expanded)) && CloseUp(files, expanded) != []
    ensures Connected(first) ==> Connected(CloseUp(files, expanded) + inputs1)
  {
    OverlappingMembers(below, Some(smallest.user), Some(largest.user));
    ExpandedFacts(level, files, inputs0, inputs1, allStart, allLimit, expanded, lo, hi);
    CloseUpFacts(level, files, expanded);
    if Connected(first) {
      CloseUpConnected(level, files, expanded, inputs1);
    }
  }

  // All files of the upper level that the range of both sets meets, closed.
  ghost predicate IsExpansion(level: nat, files: seq<File>, all: seq<File>, expanded0: seq<File>)
    requires TablesValid(files)
  {
    exists s, l, lo, hi ::
      && IsSmallestKey(all, s) && IsLargestKey(all, l)
      && (if level > 0 then lo == Some(s.user) && hi == Some(l.user) else LeastClosed(files, Some(s.user), Some(l.user), lo, hi))
      && Overlapping(files, lo, hi) != [] && expanded0 == CloseUp(files, Overlapping(files, lo, hi))
  }

  // More files in the upper set, not too many bytes in both, and the lower set as it is.
  ghost predicate GrowthDue(below: seq<File>, inputs0: seq<File>, inputs1: seq<File>, expanded0: seq<File>, maxFileSize: nat) {
    && |expanded0| > |inputs0|
    && TotalFileSize(inputs1) + TotalFileSize(expanded0) < ExpandedCompactionByteSizeLimit(maxFileSize)
    && MeetsBelow(below, expanded0, inputs1)
  }

  // The upper set grows exactly when that is due.
  ghost predicate GrowsTo(level: nat, files: seq<File>, below: seq<File>, inputs0: seq<File>, inputs1: seq<File>, grown0: seq<File>, maxFileSize: nat)
    requires TablesValid(files)
  {
    if inputs1 == [] then grown0 == inputs0
    else
      exists e :: IsExpansion(level, files, inputs0 + inputs1, e)
                  && grown0 == if GrowthDue(below, inputs0, inputs1, e, maxFileSize) then e else inputs0
  }

  lemma ExpansionIs(level: nat, files: seq<File>, all: seq<File>, s: InternalKey, l: InternalKey, lo: Option<UserKey>, hi: Option<UserKey>)
    requires TablesValid(files) && IsSmallestKey(all, s) && IsLargestKey(all, l)
    requires if level > 0 then lo == Some(s.user) && hi == Some(l.user) else LeastClosed(files, Some(s.user), Some(l.user), lo, hi)
    requires Overlapping(files, lo, hi) != []
    ensures IsExpansion(level, files, all, CloseUp(files, Overlapping(files, lo, hi)))
  {
    hide IsSmallestKey, IsLargestKey, LeastClosed, CloseUp, Overlapping;
  }

  // The lower set stays as it is exactly when as many files are met.
  lemma SameLowerSet(level: nat, files: seq<File>, below: seq<File>, first: seq<File>, inputs0: seq<File>, inputs1: seq<File>,
                     expanded0: seq<File>, expanded1: seq<File>, s: InternalKey, l: InternalKey, s': InternalKey, l': InternalKey)
    requires TablesValid(files) && first != [] && Selected(level, files, below, first, inputs0, inputs1)
    requires IsSmallestKey(inputs0, s) && IsLargestKey(inputs0, l) && inputs1 == Overlapping(below, Some(s.user), Some(l.user))
    requires IsSmallestKey(expanded0, s') && IsLargestKey(expanded0, l') && expanded1 == Overlapping(below, Some(s'.user), Some(l'.user))
    requires Subset(inputs0, expanded0) && expanded0 != [] && ClosedInputs(level, files, expanded0)
    requires Connected(first) ==> Connected(expanded0 + inputs1)
    ensures MeetsBelow(below, expanded0, inputs1) <==> |expanded1| == |inputs1|
    ensures |expanded1| == |inputs1| ==> expanded1 == inputs1 && Selected(level, files, below, first, expanded0, inputs1)
  {
    hide ClosedInputs, Connected, Overlapping, CloseUp, IsSmallestKey, IsLargestKey;
    MeetsOne(below, expanded0, expanded1, s', l');
    BoundsOfMore(inputs0, expanded0, s, l, s', l');
    OverlappingGrows(below, Some(s.user), Some(l.user), Some(s'.user), Some(l'.user));
  }

  // version_set.cc:1421
  method Expand(level: nat, files: seq<File>, ghost below: seq<File>, ghost first: seq<File>, ghost inputs0: seq<File>, ghost inputs1: seq<File>,
                ghost smallest: InternalKey, ghost largest: InternalKey, allStart: InternalKey, allLimit: InternalKey)
    returns (expanded0: seq<File>)
    requires LevelOk(level, files) && Disjoint(below) && first != []
    requires Selected(level, files, below, first, inputs0, inputs1)
    requires inputs1 == Overlapping(below, Some(smallest.user), Some(largest.user))
    requires IsSmallestKey(inputs0 + inputs1, allStart) && IsLargestKey(inputs0 + inputs1, allLimit)
    ensures IsExpansion(level, files, inputs0 + inputs1, expanded0)
    ensures expanded0 != [] && Subset(inputs0, expanded0) && ClosedInputs(level, files, expanded0)
    ensures Connected(first) ==> Connected(expanded0 + inputs1)
  {
    assert TablesValid(files);
    hide TablesValid, Selected, ClosedInputs, Connected, Subset, IsSmallestKey, IsLargestKey, Overlapping, CloseUp, LeastClosed, IsExpansion;
    var expanded, lo, hi := GetOverlappingInputs(level, files, Some(allStart.user), Some(allLimit.user));
    GrowthFacts(level, files, below, first, inputs0, inputs1, smallest, largest, allStart, allLimit, expanded, lo, hi);
    ExpansionIs(level, files, inputs0 + inputs1, allStart, allLimit, lo, hi);
    expanded0 := AddBoundaryInputs(files, expanded);
  }

  // version_set.cc:1419: grow the upper set when that leaves the lower set as it is.
  method GrowInputs(level: nat, files: seq<File>, below: seq<File>, ghost first: seq<File>, inputs0: seq<File>, inputs1: seq<File>,
                    smallest: InternalKey, largest: InternalKey, allStart: InternalKey, allLimit: InternalKey, maxFileSize: nat)
    returns (grown0: seq<File>, grown1: seq<File>, newLargest: InternalKey)
    requires LevelOk(level, files) && Disjoint(below) && first != []
    requires Selected(level, files, below, first, inputs0, inputs1)
    requires IsSmallestKey(inputs0, smallest) && IsLargestKey(inputs0, largest)
    requires inputs1 == Overlapping(below, Some(smallest.user), Some(largest.user))
    requires IsSmallestKey(inputs0 + inputs1, allStart) && IsLargestKey(inputs0 + inputs1, allLimit)
    ensures Selected(level, files, below, first, grown0, grown1) && IsLargestKey(grown0, newLargest)
    ensures grown1 == inputs1
    ensures inputs1 != [] ==> GrowsTo(level, files, below, inputs0, inputs1, grown0, maxFileSize)
  {
    assert TablesValid(files);
    hide TablesValid, Selected, MeetsBelow, ClosedInputs, Connected, Subset, IsSmallestKey, IsLargestKey, Overlapping, CloseUp, Boundaries, TotalFileSize, LeastClosed, IsExpansion, GrowsTo, Disjoint;
    grown0, grown1, newLargest := inputs0, inputs1, largest;
    var expanded0 := Expand(level, files, below, first, inputs0, inputs1, smallest, largest, allStart, allLimit);
    if |expanded0| > |inputs0| &&
       TotalFileSize(inputs1) + TotalFileSize(expanded0) < ExpandedCompactionByteSizeLimit(maxFileSize)
    {
      var newStart, newLimit := GetRange(expanded0);
      var expanded1, _, _ := GetOverlappingInputs(1, below, Some(newStart.user), Some(newLimit.user));
      SameLowerSet(level, files, below, first, inputs0, inputs1, expanded0, expanded1, smallest, largest, newStart, newLimit);
      if |expanded1| == |inputs1| {
        grown0, grown1, newLargest := expanded0, expanded1, newLimit;
      }
    }
    GrowsIs(level, files, below, inputs0, inputs1, expanded0, grown0, maxFileSize);
  }

  lemma GrowsIs(level: nat, files: seq<File>, below: seq<File>, inputs0: seq<File>, inputs1: seq<File>, e: seq<File>, grown0: seq<File>, maxFileSize: nat)
    requires TablesValid(files) && IsExpansion(level, files, inputs0 + inputs1, e)
    requires grown0 == if GrowthDue(below, inputs0, inputs1, e, maxFileSize) then e else inputs0
    ensures inputs1 != [] ==> GrowsTo(level, files, below, inputs0, inputs1, grown0, maxFileSize)
  {
    hide IsExpansion, GrowthDue;
  }

  // What a set of files meets is determined by the set.
  lemma MeetsOne(below: seq<File>, inputs0: seq<File>, met: seq<File>, s: InternalKey, l: InternalKey)
    requires IsSmallestKey(inputs0, s) && IsLargestKey(inputs0, l) && met == Overlapping(below, Some(s.user), Some(l.user))
    ensures forall inputs1 :: MeetsBelow(below, inputs0, inputs1) ==> inputs1 == met
  {
  }

  lemma FirstFacts(level: nat, files: seq<File>, below: seq<File>, first: seq<File>, smallest: InternalKey, largest: InternalKey)
    requires LevelOk(level, files) && first != [] && FirstInputs(level, files, first)
    requires IsSmallestKey(CloseUp(files, first), smallest) && IsLargestKey(CloseUp(files, first), largest)
    ensures Selected(level, files, below, first, CloseUp(files, first), Overlapping(below, Some(smallest.user), Some(largest.user)))
  {
    var inputs0 := CloseUp(files, first);
    CloseUpFacts(level, files, first);
    if Connected(first) {
      AppendNothing(first);
      AppendNothing(inputs0);
      CloseUpConnected(level, files, first, []);
      MetConnected(inputs0, below, smallest, largest);
    }
    assert MeetsBelow(below, inputs0, Overlapping(below, Some(smallest.user), Some(largest.user)));
  }

  // version_set.cc:1403. Grandparents are the files the whole range meets two levels down.
  method SetupOtherInputs(v: Version, level: nat, first: seq<File>, maxFileSize: nat)
    returns (inputs0: seq<File>, inputs1: seq<File>, grandparents: seq<File>, largest: InternalKey)
    requires level + 1 < NUM_LEVELS && LevelOk(level, v[level]) && Disjoint(v[level + 1])
    requires first != [] && FirstInputs(level, v[level], first)
    ensures Selected(level, v[level], v[level + 1], first, inputs0, inputs1)
    ensures largest == TopKey(inputs0)
    ensures GrowsTo(level, v[level], v[level + 1], CloseUp(v[level], first), inputs1, inputs0, maxFileSize)
    ensures if level + 2 < NUM_LEVELS then MeetsBelow(v[level + 2], inputs0 + inputs1, grandparents) else grandparents == []
  {
    hide Connected, MeetsBelow, ClosedInputs, TableValid;
    CloseUpFacts(level, v[level], first);
    inputs0 := AddBoundaryInputs(v[level], first);
    var smallest, last := GetRange(inputs0);
    largest := last;
    var met, _, _ := GetOverlappingInputs(level + 1, v[level + 1], Some(smallest.user), Some(largest.user));
    inputs1 := met;
    FirstFacts(level, v[level], v[level + 1], first, smallest, largest);
    var allStart, allLimit := GetRange(inputs0 + inputs1);
    if inputs1 != [] {
      inputs0, inputs1, largest := GrowInputs(level, v[level], v[level + 1], first, inputs0, inputs1, smallest, largest, allStart, allLimit, maxFileSize);
      allStart, allLimit := GetRange(inputs0 + inputs1);
    }
    LargestKeyUnique(inputs0, largest);
    grandparents := Grandparents(v, level, inputs0 + inputs1, allStart, allLimit);
  }

  // version_set.cc:1451
  method Grandparents(v: Version, level: nat, inputs: seq<File>, allStart: InternalKey, allLimit: InternalKey) returns (grandparents: seq<File>)
    requires IsSmallestKey(inputs, allStart) && IsLargestKey(inputs, allLimit)
    ensures if level + 2 < NUM_LEVELS then MeetsBelow(v[level + 2], inputs, grandparents) else grandparents == []
  {
    grandparents := [];
    if level + 2 < NUM_LEVELS {
      var overlaps, _, _ := GetOverlappingInputs(level + 2, v[level + 2], Some(allStart.user), Some(allLimit.user));
      grandparents := overlaps;
    }
  }

  /* ---- PickCompaction and CompactRange ---- */

  datatype Inputs = Inputs(level: nat, inputs0: seq<File>, inputs1: seq<File>, grandparents: seq<File>)

  // The promise a compaction's inputs keep, whichever way they were chosen.
  ghost predicate WellChosen(v: Version, c: Inputs) {
    && c.level + 1 < NUM_LEVELS
    && c.inputs0 != []
    && ClosedInputs(c.level, v[c.level], c.inputs0)
    && MeetsBelow(v[c.level + 1], c.inputs0, c.inputs1)
  }

  predicate PastPointer(f: File, pointer: Option<InternalKey>) {
    pointer.None? || Less(pointer.value, Largest(f))
  }

  // The first file past the compaction pointer, wrapping around (version_set.cc:1284).
  ghost predicate IsNextFile(files: seq<File>, pointer: Option<InternalKey>, f: File) {
    exists i :: 0 <= i < |files| && f == files[i]
                && (forall j :: 0 <= j < i ==> !PastPointer(files[j], pointer))
                && (PastPointer(f, pointer) || (i == 0 && forall j :: 0 <= j < |files| ==> !PastPointer(files[j], pointer)))
  }

  method NextFile(files: seq<File>, pointer: Option<InternalKey>) returns (f: File)
    requires files != []
    ensures IsNextFile(files, pointer, f) && f in files
  {
    for i := 0 to |files|
      invariant forall j :: 0 <= j < i ==> !PastPointer(files[j], pointer)
    {
      if pointer.None? || Compare(Largest(files[i]), pointer.value) > 0 {
        return files[i];
      }
    }
    return files[0];
  }

  lemma SingleIsRun(level: seq<File>, f: File)
    requires Disjoint(level) && f in level
    ensures exists i, j :: IsRun(level, [f], i, j)
  {
    var i :| 0 <= i < |level| && level[i] == f;
    assert level[i..i + 1] == [f];
    assert IsRun(level, [f], i, i + 1);
  }

  lemma Level0FirstFacts(files: seq<File>, f: File, lo: Option<UserKey>, hi: Option<UserKey>)
    requires TablesValid(files) && f in files && lo.Some? && hi.Some?
    requires LeastClosed(files, Some(Smallest(f).user), Some(Largest(f).user), lo, hi)
    ensures f in Overlapping(files, lo, hi) && IsClosedPart(files, Overlapping(files, lo, hi))
    ensures Connected(Overlapping(files, lo, hi))
  {
    OverlappingMembers(files, lo, hi);
    WithinBounds(f, f.entries[0]);
    SingleConnected(f);
    AppendNothing(Overlapping(files, lo, hi));
    LeastClosedConnected(files, [f], [], Smallest(f), Largest(f), lo, hi);
  }

  // Files in level 0 may overlap each other: pick up all overlapping ones (version_set.cc:1309).
  method FirstSet(level: nat, files: seq<File>, f: File) returns (first: seq<File>)
    requires LevelOk(level, files) && f in files
    ensures f in first && FirstInputs(level, files, first) && Connected(first) && IsFirstSet(level, files, f, first)
  {
    first := [f];
    if level == 0 {
      var smallest, largest := GetRange(first);
      var closed, lo, hi := GetOverlappingInputs(0, files, Some(smallest.user), Some(largest.user));
      Level0FirstFacts(files, f, lo, hi);
      first := closed;
    } else {
      SingleIsRun(files, f);
      SingleConnected(f);
    }
  }

  // Where a compaction of one file starts.
  ghost predicate IsFirstSet(level: nat, files: seq<File>, f: File, first: seq<File>) {
    if level > 0 then first == [f]
    else exists lo, hi :: LeastClosed(files, Some(Smallest(f).user), Some(Largest(f).user), lo, hi) && first == Overlapping(files, lo, hi)
  }

  // All that is decided about a compaction, from the files it starts with.
  ghost predicate ChosenFrom(v: Version, first: seq<File>, c: Inputs, maxFileSize: nat) {
    && c.level + 1 < NUM_LEVELS && TablesValid(v[c.level]) && first != []
    && Selected(c.level, v[c.level], v[c.level + 1], first, c.inputs0, c.inputs1)
    && GrowsTo(c.level, v[c.level], v[c.level + 1], CloseUp(v[c.level], first), c.inputs1, c.inputs0, maxFileSize)
    && if c.level + 2 < NUM_LEVELS then MeetsBelow(v[c.level + 2], c.inputs0 + c.inputs1, c.grandparents) else c.grandparents == []
  }

  // Whose choice it was: a file's.
  ghost predicate ChosenFor(v: Version, f: File, c: Inputs, maxFileSize: nat) {
    c.level < NUM_LEVELS && exists first :: IsFirstSet(c.level, v[c.level], f, first) && ChosenFrom(v, first, c, maxFileSize)
  }

  lemma ChosenIs(v: Version, first: seq<File>, c: Inputs, maxFileSize: nat)
    requires ChosenFrom(v, first, c, maxFileSize)
    ensures WellChosen(v, c) && (Connected(first) ==> Connected(c.inputs0 + c.inputs1)) && Subset(first, c.inputs0)
  {
  }

  lemma LevelTables(level: nat, files: seq<File>)
    requires LevelOk(level, files)
    ensures TablesValid(files)
  {
  }

  // version_set.cc:1318: the compaction that starts with these files.
  method NewCompaction(v: Version, level: nat, first: seq<File>, maxFileSize: nat) returns (c: Inputs, top: InternalKey)
    requires level + 1 < NUM_LEVELS && LevelOk(level, v[level]) && Disjoint(v[level + 1])
    requires first != [] && FirstInputs(level, v[level], first)
    ensures ChosenFrom(v, first, c, maxFileSize) && c.level == level && top == TopKey(c.inputs0)
  {
    hide LevelOk, Disjoint, TablesValid, FirstInputs, Selected, GrowsTo, MeetsBelow;
    LevelTables(level, v[level]);
    var inputs0, inputs1, grandparents, largest := SetupOtherInputs(v, level, first, maxFileSize);
    c, top := Inputs(level, inputs0, inputs1, grandparents), largest;
  }

  ghost predicate LevelsOk(v: Version) {
    forall l :: 0 <= l < NUM_LEVELS ==> LevelOk(l, v[l])
  }

  lemma ChosenForIs(v: Version, f: File, first: seq<File>, c: Inputs, maxFileSize: nat)
    requires ChosenFrom(v, first, c, maxFileSize) && IsFirstSet(c.level, v[c.level], f, first) && f in first
    ensures ChosenFor(v, f, c, maxFileSize) && f in c.inputs0
  {
    hide Selected, GrowsTo, MeetsBelow, IsFirstSet, CloseUp;
    ChosenIs(v, first, c, maxFileSize);
  }

  // version_set.cc:1309
  method PickFor(v: Version, level: nat, f: File, maxFileSize: nat) returns (c: Inputs, top: InternalKey)
    requires level + 1 < NUM_LEVELS && LevelOk(level, v[level]) && LevelOk(level + 1, v[level + 1]) && f in v[level]
    ensures WellChosen(v, c) && Connected(c.inputs0 + c.inputs1) && ChosenFor(v, f, c, maxFileSize)
    ensures c.level == level && f in c.inputs0 && top == TopKey(c.inputs0)
  {
    hide TablesValid, WellChosen, Connected, ChosenFor, ChosenFrom, FirstInputs, IsFirstSet;
    var first := FirstSet(level, v[level], f);
    c, top := NewCompaction(v, level, first, maxFileSize);
    ChosenIs(v, first, c, maxFileSize);
    ChosenForIs(v, f, first, c, maxFileSize);
  }

  // What is picked: a compaction exactly when one is due, for size before seeks, of the file
  // after the pointer or the sought one; and the pointer moves.
  ghost predicate Picked(v: Version, pointers: seq<Option<InternalKey>>, sizeLevel: Option<nat>, seek: Option<(nat, File)>, maxFileSize: nat,
                         c: Option<Inputs>, newPointers: seq<Option<InternalKey>>, picked: Option<File>)
    requires |pointers| == NUM_LEVELS
    requires sizeLevel.Some? ==> sizeLevel.value + 1 < NUM_LEVELS
  {
    && (c.None? <==> sizeLevel.None? && seek.None?)
    && (c.None? ==> newPointers == pointers)
    && (c.Some? ==>
          && picked.Some? && picked.value in c.value.inputs0 && ChosenFor(v, picked.value, c.value, maxFileSize)
          && (if sizeLevel.Some? then c.value.level == sizeLevel.value && IsNextFile(v[sizeLevel.value], pointers[sizeLevel.value], picked.value)
              else seek == Some((c.value.level, picked.value)))
          && newPointers == pointers[c.value.level := Some(TopKey(c.value.inputs0))])
  }

  // version_set.cc:1270. The size compaction's level and the seek compaction's file
  // are what Finalize and UpdateStats have stored in the version.
  method PickCompaction(v: Version, pointers: seq<Option<InternalKey>>, sizeLevel: Option<nat>, seek: Option<(nat, File)>, maxFileSize: nat)
    returns (c: Option<Inputs>, newPointers: seq<Option<InternalKey>>, ghost picked: Option<File>)
    requires LevelsOk(v) && |pointers| == NUM_LEVELS
    requires sizeLevel.Some? ==> sizeLevel.value + 1 < NUM_LEVELS && v[sizeLevel.value] != []
    requires seek.Some? ==> seek.value.0 + 1 < NUM_LEVELS && seek.value.1 in v[seek.value.0]
    ensures Picked(v, pointers, sizeLevel, seek, maxFileSize, c, newPointers, picked) && |newPointers| == NUM_LEVELS
    ensures c.Some? ==> WellChosen(v, c.value) && Connected(c.value.inputs0 + c.value.inputs1)
  {
    hide WellChosen, Connected, ChosenFor, IsNextFile, Disjoint, TablesValid;
    var level: nat, f: File;
    if sizeLevel.Some? {
      level := sizeLevel.value;
      f := NextFile(v[level], pointers[level]);
    } else if seek.Some? {
      level, f := seek.value.0, seek.value.1;
    } else {
      return None, pointers, None;
    }
    assert LevelOk(level, v[level]) && LevelOk(level + 1, v[level + 1]);
    var chosen, top := PickFor(v, level, f, maxFileSize);
    c, newPointers, picked := Some(chosen), pointers[level := Some(top)], Some(f);
  }

  // How many of the files a manual compaction takes at once (version_set.cc:1476).
  method ManualPrefix(files: seq<File>, limit: nat) returns (n: nat)
    requires files != []
    ensures 1 <= n <= |files|
    ensures n < |files| ==> TotalFileSize(files[..n]) >= limit
    ensures forall m :: 1 <= m < n ==> TotalFileSize(files[..m]) < limit
  {
    var total := 0;
    n := 0;
    while n < |files|
      invariant n <= |files| && total == TotalFileSize(files[..n])
      invariant forall m :: 1 <= m <= n ==> TotalFileSize(files[..m]) < limit
    {
      TotalFileSizePush(files[..n], files[n]);
      assert files[..n + 1] == files[..n] + [files[n]];
      total := total + files[n].size;
      n := n + 1;
      if total >= limit {
        return;
      }
    }
  }

  // version_set.cc:1464: what a manual compaction starts from.
  method ManualFirst(level: nat, files: seq<File>, begin: Option<UserKey>, end: Option<UserKey>, limit: nat) returns (inputs: seq<File>)
    requires LevelOk(level, files)
    ensures inputs == [] <==> forall f :: f in files ==> !Overlaps(f, begin, end)
    ensures inputs != [] ==> FirstInputs(level, files, inputs) && ManualPart(level, files, begin, end, limit, inputs)
  {
    var met, lo, hi := GetOverlappingInputs(level, files, begin, end);
    inputs := met;
    if level == 0 {
      LeastClosedNone(files, begin, end, lo, hi);
    } else {
      NoneOverlaps(files, begin, end);
      if inputs != [] {
        var n := ManualPrefix(met, limit);
        PrefixIsRun(files, begin, end, n);
        assert IsManualPrefix(met, limit, n);
        inputs := met[..n];
      }
    }
  }

  ghost predicate IsManualPrefix(met: seq<File>, limit: nat, n: nat) {
    && 1 <= n <= |met| && (n < |met| ==> TotalFileSize(met[..n]) >= limit)
    && forall m :: 1 <= m < n ==> TotalFileSize(met[..m]) < limit
  }

  // All that the range meets at level 0; below, the front part that reaches the limit.
  ghost predicate ManualPart(level: nat, files: seq<File>, begin: Option<UserKey>, end: Option<UserKey>, limit: nat, inputs: seq<File>) {
    if level == 0 then exists lo, hi :: LeastClosed(files, begin, end, lo, hi) && inputs == Overlapping(files, lo, hi)
    else
      var met := Overlapping(files, begin, end);
      exists n: nat :: IsManualPrefix(met, limit, n) && inputs == met[..n]
  }

  // The inputs grow out of that.
  ghost predicate ManualInputs(v: Version, begin: Option<UserKey>, end: Option<UserKey>, maxFileSize: nat, c: Inputs) {
    c.level < NUM_LEVELS &&
    exists first :: ManualPart(c.level, v[c.level], begin, end, maxFileSize, first) && ChosenFrom(v, first, c, maxFileSize)
  }

  lemma ManualIs(v: Version, begin: Option<UserKey>, end: Option<UserKey>, first: seq<File>, c: Inputs, maxFileSize: nat)
    requires ChosenFrom(v, first, c, maxFileSize) && ManualPart(c.level, v[c.level], begin, end, maxFileSize, first)
    ensures ManualInputs(v, begin, end, maxFileSize, c)
  {
    hide ManualPart, Selected, GrowsTo, MeetsBelow, CloseUp;
  }

  lemma NoneOverlaps(files: seq<File>, begin: Option<UserKey>, end: Option<UserKey>)
    ensures Overlapping(files, begin, end) == [] <==> forall f :: f in files ==> !Overlaps(f, begin, end)
  {
    var met := Overlapping(files, begin, end);
    OverlappingMembers(files, begin, end);
    if met != [] {
      assert met[0] in met;
    }
  }

  lemma PrefixIsRun(files: seq<File>, begin: Option<UserKey>, end: Option<UserKey>, n: nat)
    requires Disjoint(files) && 1 <= n <= |Overlapping(files, begin, end)|
    ensures exists i: nat, j: nat :: IsRun(files, Overlapping(files, begin, end)[..n], i, j)
  {
    var met := Overlapping(files, begin, end);
    var i, j := OverlappingIsRun(files, begin, end);
    assert met[..n] == files[i..i + n];
    assert IsRun(files, met[..n], i, i + n);
  }

  lemma LeastClosedNone(files: seq<File>, begin: Option<UserKey>, end: Option<UserKey>, lo: Option<UserKey>, hi: Option<UserKey>)
    requires LeastClosed(files, begin, end, lo, hi)
    ensures Overlapping(files, lo, hi) == [] <==> forall f :: f in files ==> !Overlaps(f, begin, end)
  {
    OverlappingMembers(files, lo, hi);
    if forall f :: f in files ==> !Overlaps(f, begin, end) {
      assert ClosedRange(files, begin, end);
      assert Wider(begin, end, lo, hi);
      if Overlapping(files, lo, hi) != [] {
        assert Overlapping(files, lo, hi)[0] in files;
      }
    } else {
      var f :| f in files && Overlaps(f, begin, end);
      assert Overlaps(f, lo, hi);
    }
  }

  // What a manual compaction picks: nothing exactly when no file meets the range.
  ghost predicate ManuallyPicked(v: Version, level: nat, begin: Option<UserKey>, end: Option<UserKey>, pointers: seq<Option<InternalKey>>,
                                 maxFileSize: nat, c: Option<Inputs>, newPointers: seq<Option<InternalKey>>)
    requires level < NUM_LEVELS == |pointers|
  {
    && (c.None? <==> forall f :: f in v[level] ==> !Overlaps(f, begin, end))
    && (c.None? ==> newPointers == pointers)
    && (c.Some? ==> c.value.level == level && ManualInputs(v, begin, end, maxFileSize, c.value)
                    && newPointers == pointers[level := Some(TopKey(c.value.inputs0))])
  }

  // version_set.cc:1464
  method CompactRange(v: Version, level: nat, begin: Option<UserKey>, end: Option<UserKey>, pointers: seq<Option<InternalKey>>, maxFileSize: nat)
    returns (c: Option<Inputs>, newPointers: seq<Option<InternalKey>>)
    requires LevelsOk(v) && level + 1 < NUM_LEVELS && |pointers| == NUM_LEVELS
    ensures ManuallyPicked(v, level, begin, end, pointers, maxFileSize, c, newPointers) && |newPointers| == NUM_LEVELS
    ensures c.Some? ==> WellChosen(v, c.value)
  {
    hide WellChosen, ManualInputs, ManualPart, Disjoint, TablesValid, Overlaps;
    assert LevelOk(level, v[level]) && LevelOk(level + 1, v[level + 1]);
    var inputs := ManualFirst(level, v[level], begin, end, maxFileSize);
    if inputs == [] {
      return None, pointers;
    }
    var chosen, top := ManualFrom(v, level, inputs, begin, end, maxFileSize);
    c, newPointers := Some(chosen), pointers[level := Some(top)];
  }

  method ManualFrom(v: Version, level: nat, inputs: seq<File>, ghost begin: Option<UserKey>, ghost end: Option<UserKey>, maxFileSize: nat)
    returns (c: Inputs, top: InternalKey)
    requires level + 1 < NUM_LEVELS && LevelOk(level, v[level]) && LevelOk(level + 1, v[level + 1])
    requires inputs != [] && FirstInputs(level, v[level], inputs) && ManualPart(level, v[level], begin, end, maxFileSize, inputs)
    ensures WellChosen(v, c) && ManualInputs(v, begin, end, maxFileSize, c) && c.level == level && top == TopKey(c.inputs0)
  {
    hide TablesValid, WellChosen, ManualInputs, ManualPart, ChosenFrom, FirstInputs;
    c, top := NewCompaction(v, level, inputs, maxFileSize);
    ChosenIs(v, inputs, c, maxFileSize);
    ManualIs(v, begin, end, inputs, c, maxFileSize);
  }
}
