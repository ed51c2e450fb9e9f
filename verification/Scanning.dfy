/**
 Iterators over the whole store (db/db_impl.cc NewInternalIterator and NewIterator): one
 child for each memtable, each level-0 table and each deeper level, merged, and read at a
 sequence number.
 */
module Scanning {
  import opened Keys
  import opened FlatMap
  import opened Tables
  import opened CompactionWork
  import opened Preservation
  import opened Versions
  import opened Merging
  import opened DbIter
  import opened Store
  import opened StoreSteps
  import opened Runs
  import opened Engine

  /* ---- sorting a set of entries ---- */

  ghost predicate Comparable(S: set<Entry>) {
    forall a, b :: a in S && b in S && a != b ==> Before(a, b) || Before(b, a)
  }

  lemma LeastExists(S: set<Entry>) returns (m: Entry)
    requires S != {} && Comparable(S)
    ensures m in S && forall e :: e in S && e != m ==> Before(m, e)
    decreases |S|
  {
    var x :| x in S;
    if S == {x} {
      m := x;
    } else {
      var n := LeastExists(S - {x});
      assert Before(x, n) || Before(n, x);
      m := if Before(x, n) then x else n;
      forall e | e in S && e != m
        ensures Before(m, e)
      {
        assert e == x || e == n || e in S - {x};
      }
    }
  }

  // A set of comparable entries has a sorted listing.
  lemma SortedListing(S: set<Entry>) returns (es: seq<Entry>)
    requires Comparable(S)
    ensures Sorted(es) && Members(es) == S
    decreases |S|
  {
    if S == {} {
      es := [];
    } else {
      var m := LeastExists(S);
      var rest := SortedListing(S - {m});
      es := [m] + rest;
      forall j | 0 <= j < |rest|
        ensures Before(m, rest[j])
      {
        assert rest[j] in Members(rest);
      }
      SortedJoin([m], rest);
      assert Members(es) == {m} + Members(rest);
    }
  }

  lemma SortedJoin(a: seq<Entry>, b: seq<Entry>)
    requires Sorted(a) && Sorted(b)
    requires forall i, j :: 0 <= i < |a| && 0 <= j < |b| ==> Before(a[i], b[j])
    ensures Sorted(a + b)
  {
  }

  lemma UniqueIsComparable(S: set<Entry>)
    requires UniqueSeq(S)
    ensures Comparable(S)
  {
    forall a, b | a in S && b in S && a != b
      ensures Before(a, b) || Before(b, a)
    {
      assert a.sn != b.sn;
    }
  }

  /* ---- the children ---- */

  ghost predicate NothingShared(a: seq<Entry>, b: seq<Entry>) {
    forall e :: e in a ==> e !in b
  }

  ghost predicate PairwiseApart(sources: seq<seq<Entry>>) {
    forall i, j :: 0 <= i < j < |sources| ==> NothingShared(sources[i], sources[j])
  }

  ghost predicate AllSorted(sources: seq<seq<Entry>>) {
    forall i :: 0 <= i < |sources| ==> Sorted(sources[i])
  }

  ghost function Union(sources: seq<seq<Entry>>): set<Entry> {
    if sources == [] then {} else Union(sources[..|sources| - 1]) + Members(sources[|sources| - 1])
  }

  lemma {:induction false} InUnion(sources: seq<seq<Entry>>, e: Entry)
    ensures e in Union(sources) <==> exists i :: 0 <= i < |sources| && e in sources[i]
  {
    if sources != [] {
      InUnion(sources[..|sources| - 1], e);
    }
  }

  lemma UnionPush(sources: seq<seq<Entry>>, es: seq<Entry>)
    ensures Union(sources + [es]) == Union(sources) + Members(es)
  {
    assert (sources + [es])[..|sources|] == sources;
  }

  // One more child, sorted and with entries of its own.
  lemma PushApart(sources: seq<seq<Entry>>, es: seq<Entry>)
    requires PairwiseApart(sources) && AllSorted(sources) && Sorted(es)
    requires Members(es) !! Union(sources)
    ensures PairwiseApart(sources + [es]) && AllSorted(sources + [es])
  {
    forall i | 0 <= i < |sources|
      ensures NothingShared(sources[i], es)
    {
      forall e | e in sources[i]
        ensures e !in es
      {
        InUnion(sources, e);
        assert e in es ==> e in Members(es);
      }
    }
  }

  lemma NewerIsApart(A: set<Entry>, B: set<Entry>)
    requires Newer(A, B)
    ensures A !! B
  {
  }

  lemma FileApart(files: seq<File>, i: nat)
    requires i < |files| && SortedBySmallest(files) && DistinctNumbers(files) && NewestFileFirst(files)
    ensures FileEntries(files[i]) !! LevelEntries(files[..i])
  {
    forall e | e in LevelEntries(files[..i])
      ensures e !in FileEntries(files[i])
    {
      var g :| g in files[..i] && e in g.entries;
      var j :| 0 <= j < i && files[j] == g;
      assert BySmallest(g, files[i]);
      assert g.number != files[i].number;
      assert e in FileEntries(g);
      assert FileEntries(g) !! FileEntries(files[i]);
    }
  }

  // A deeper level as one sorted list (version_set.cc:223).
  lemma {:induction false} ConcatIsSorted(files: seq<File>)
    requires Disjoint(files)
    ensures Sorted(Concat(files))
  {
    if files != [] {
      var n := |files| - 1;
      ConcatIsSorted(files[..n]);
      ConcatEntries(files[..n]);
      var front, last := Concat(files[..n]), files[n];
      forall i, j | 0 <= i < |front| && 0 <= j < |last.entries|
        ensures Before(front[i], last.entries[j])
      {
        assert front[i] in Members(front);
        var g :| g in files[..n] && front[i] in g.entries;
        WithinBounds(g, front[i]);
        WithinBounds(last, last.entries[j]);
      }
      assert TableValid(last);
      SortedJoin(front, last.entries);
    }
  }

  ghost function LevelsAbove(v: Version, l: nat): set<Entry>
    requires l <= NUM_LEVELS
  {
    set m, f, e | 0 <= m < l && f in v[m] && e in f.entries :: e
  }

  lemma LevelsAbovePush(v: Version, l: nat)
    requires l < NUM_LEVELS
    ensures LevelsAbove(v, l + 1) == LevelsAbove(v, l) + LevelEntries(v[l])
  {
    assert forall e :: e in LevelEntries(v[l]) ==> exists f :: f in v[l] && e in f.entries;
  }

  lemma LevelApart(v: Version, l: nat)
    requires VersionValid(v) && l < NUM_LEVELS
    ensures LevelEntries(v[l]) !! LevelsAbove(v, l)
  {
    forall e | e in LevelsAbove(v, l)
      ensures e !in LevelEntries(v[l])
    {
      var m, f :| 0 <= m < l && f in v[m] && e in f.entries;
      assert e in LevelEntries(v[m]);
      NewerIsApart(LevelEntries(v[m]), LevelEntries(v[l]));
    }
  }

  // What NewInternalIterator relies on.
  ghost predicate Layered(mem: seq<Entry>, imm: Option<seq<Entry>>, v: Version) {
    && Sorted(mem) && (imm.Some? ==> Sorted(imm.value))
    && VersionValid(v) && LevelsSorted(v)
    && var I := if imm.Some? then Members(imm.value) else {};
       Newer(Members(mem), I + VersionEntries(v)) && Newer(I, VersionEntries(v))
  }

  lemma LevelsTogether(v: Version)
    ensures LevelsAbove(v, NUM_LEVELS) == VersionEntries(v)
  {
  }

  // One child's entries must not have been seen in an earlier child.
  method Push(sources: seq<seq<Entry>>, es: seq<Entry>) returns (r: seq<seq<Entry>>)
    requires PairwiseApart(sources) && AllSorted(sources) && Sorted(es) && Members(es) !! Union(sources)
    ensures PairwiseApart(r) && AllSorted(r) && Union(r) == Union(sources) + Members(es)
  {
    PushApart(sources, es);
    UnionPush(sources, es);
    r := sources + [es];
  }

  // version_set.cc:230
  method AddIterators(sources: seq<seq<Entry>>, v: Version) returns (r: seq<seq<Entry>>)
    requires PairwiseApart(sources) && AllSorted(sources) && Union(sources) !! VersionEntries(v)
    requires VersionValid(v) && LevelsSorted(v)
    ensures PairwiseApart(r) && AllSorted(r) && Union(r) == Union(sources) + VersionEntries(v)
  {
    r := sources;
    LevelsTogether(v);
    for i := 0 to |v[0]|
      invariant PairwiseApart(r) && AllSorted(r) && Union(r) == Union(sources) + LevelEntries(v[0][..i])
    {
      FileApart(v[0], i);
      var f := v[0][i];
      assert v[0][..i] + [f] == v[0][..i + 1];
      LevelEntriesPush(v[0][..i], f);
      assert TableValid(f) && FileEntries(f) == Members(f.entries);
      assert FileEntries(f) <= VersionEntries(v);
      r := Push(r, f.entries);
    }
    assert v[0][..|v[0]|] == v[0];
    LevelsAbovePush(v, 0);
    assert LevelsAbove(v, 1) == LevelEntries(v[0]);
    for l := 1 to NUM_LEVELS
      invariant PairwiseApart(r) && AllSorted(r) && Union(r) == Union(sources) + LevelsAbove(v, l)
    {
      LevelsAbovePush(v, l);
      if v[l] != [] {
        LevelApart(v, l);
        ConcatIsSorted(v[l]);
        ConcatEntries(v[l]);
        r := Push(r, Concat(v[l]));
      }
    }
  }

  // The wrappers of the children, all of them new objects.
  method Wrap(sources: seq<seq<Entry>>) returns (children: seq<IteratorWrapper>)
    requires AllSorted(sources)
    ensures |children| == |sources|
    ensures forall i :: 0 <= i < |children| ==> children[i].Ok() && children[i].iter.entries == sources[i]
    ensures forall i :: 0 <= i < |children| ==> fresh(children[i]) && fresh(children[i].iter)
    ensures forall i, j :: 0 <= i < j < |children| ==> children[i] != children[j] && children[i].iter != children[j].iter
  {
    children := [];
    for i := 0 to |sources|
      invariant |children| == i
      invariant forall j :: 0 <= j < i ==> children[j].Ok() && children[j].iter.entries == sources[j]
      invariant forall j :: 0 <= j < i ==> fresh(children[j]) && fresh(children[j].iter)
      invariant forall j, k :: 0 <= j < k < i ==> children[j] != children[k] && children[j].iter != children[k].iter
    {
      var iter := new SourceIterator(sources[i]);
      var child := new IteratorWrapper(iter);
      children := children + [child];
    }
  }

  // merger.cc:179 over db_impl.cc:1062.
  method MergeSources(sources: seq<seq<Entry>>) returns (it: MergingIterator)
    requires PairwiseApart(sources) && AllSorted(sources) && UniqueSeq(Union(sources))
    ensures it.Valid() && it.pos == -1 && Members(it.merged) == Union(sources)
    ensures fresh(it.Repr())
  {
    UniqueIsComparable(Union(sources));
    ghost var merged := SortedListing(Union(sources));
    SourcesCover(sources, merged);
    var children := Wrap(sources);
    forall m | 0 <= m < |merged|
      ensures Owned(children, merged, m)
    {
      var e := merged[m];
      assert e in merged && InSome(sources, e);
      var i :| 0 <= i < |sources| && e in sources[i];
      assert e in children[i].iter.entries;
    }
    it := new MergingIterator(children, merged);
  }

  lemma SourcesCover(sources: seq<seq<Entry>>, merged: seq<Entry>)
    requires AllSorted(sources) && Sorted(merged) && Members(merged) == Union(sources)
    ensures forall i :: 0 <= i < |sources| ==> Within(sources[i], merged)
    ensures forall e :: e in merged ==> InSome(sources, e)
  {
    forall i | 0 <= i < |sources|
      ensures Within(sources[i], merged)
    {
      SourceWithin(sources, merged, i);
    }
    forall e | e in merged
      ensures InSome(sources, e)
    {
      assert e in Members(merged);
      InUnion(sources, e);
    }
  }

  ghost predicate InSome(sources: seq<seq<Entry>>, e: Entry) {
    exists i :: 0 <= i < |sources| && e in sources[i]
  }

  lemma SourceWithin(sources: seq<seq<Entry>>, merged: seq<Entry>, i: nat)
    requires AllSorted(sources) && Sorted(merged) && Members(merged) == Union(sources) && i < |sources|
    ensures Within(sources[i], merged)
  {
    var es := sources[i];
    forall e | e in es
      ensures e in merged
    {
      assert e in sources[i];
      InUnion(sources, e);
      assert e in Members(merged);
    }
    assert Within(es, merged);
  }

  // db_impl.cc:1062
  method NewInternalIterator(mem: seq<Entry>, imm: Option<seq<Entry>>, v: Version, ghost all: set<Entry>) returns (it: MergingIterator)
    requires Layered(mem, imm, v) && UniqueSeq(all)
    requires all == Members(mem) + (if imm.Some? then Members(imm.value) else {}) + VersionEntries(v)
    ensures it.Valid() && it.pos == -1 && Members(it.merged) == all && fresh(it.Repr())
  {
    ghost var I := if imm.Some? then Members(imm.value) else {};
    NewerIsApart(Members(mem), I + VersionEntries(v));
    NewerIsApart(I, VersionEntries(v));
    assert Union([]) == {};
    var sources := Push([], mem);
    if imm.Some? {
      sources := Push(sources, imm.value);
    }
    sources := AddIterators(sources, v);
    it := MergeSources(sources);
  }

  lemma StoreIsLayered(s: State)
    requires Inv(s)
    ensures Layered(s.mem, s.imm, s.version) && UniqueSeq(All(s))
  {
  }

  // db_impl.cc:1147: a cursor over exactly the live pairs of the history.
  method NewIterator(db: DbImpl, snapshot: Option<nat>) returns (it: DBIter)
    requires db.Valid() && (snapshot.Some? ==> snapshot.value in db.snapshots)
    ensures it.Valid() && !it.valid && fresh(it.Repr())
    ensures it.sequence == if snapshot.Some? then snapshot.value else db.lastSequence
    ensures forall k :: Get(Members(it.Source()), k, it.sequence) == Get(db.history, k, it.sequence)
  {
    var s := if snapshot.Some? then snapshot.value else db.lastSequence;
    StoreIsLayered(db.Abs());
    var inner := NewInternalIterator(db.mem, db.imm, db.current, All(db.Abs()));
    it := new DBIter(inner, s);
    forall k
      ensures Get(Members(it.Source()), k, s) == Get(db.history, k, s)
    {
      LiveReads(db.Abs(), k, s);
    }
  }
}
