/**
 The builder that applies version edits (db/version_set.cc:590), for files of any kind: all
 it looks at is what orders a file in its level. And the replay of a manifest: one builder
 over all edits against a chain of versions.
 */
module Builder {
  import opened Keys
  import opened Tables

  // What orders a file: the user key and the tag of its smallest key, then its number
  // (version_set.cc:593).
  datatype FileKey = FileKey(user: UserKey, tag: nat, number: nat)

  predicate KeyBefore(a: FileKey, b: FileKey) {
    || a.user < b.user
    || (a.user == b.user && (a.tag > b.tag || (a.tag == b.tag && a.number < b.number)))
  }

  ghost predicate InOrder<F(!new)>(key: F -> FileKey, files: seq<F>) {
    forall i, j :: 0 <= i < j < |files| ==> KeyBefore(key(files[i]), key(files[j]))
  }

  type Levels<F> = v: seq<seq<F>> | |v| == NUM_LEVELS witness [[], [], [], [], [], [], []]

  ghost predicate AllInOrder<F(!new)>(key: F -> FileKey, v: Levels<F>) {
    forall l :: 0 <= l < NUM_LEVELS ==> InOrder(key, v[l])
  }

  // The part of an edit that changes files. deleted: (level, number); added: (level, file).
  datatype FileEdit<F> = FileEdit(deleted: set<(nat, nat)>, added: seq<(nat, F)>)

  ghost predicate EditOk<F>(e: FileEdit<F>) {
    (forall d :: d in e.deleted ==> d.0 < NUM_LEVELS) && forall a :: a in e.added ==> a.0 < NUM_LEVELS
  }

  ghost function AddedAt<F>(added: seq<(nat, F)>, l: nat): set<F> {
    set a | a in added && a.0 == l :: a.1
  }

  ghost function AddedNumbers<F>(key: F -> FileKey, added: seq<(nat, F)>, l: nat): set<nat> {
    set a | a in added && a.0 == l :: key(a.1).number
  }

  ghost function DeletedAt(deleted: set<(nat, nat)>, l: nat): set<nat> {
    set d | d in deleted && d.0 == l :: d.1
  }

  ghost function FileSet<F>(files: seq<F>): set<F> {
    set f | f in files
  }

  function At<F>(level: nat, files: seq<F>): (r: seq<(nat, F)>)
    ensures |r| == |files|
    ensures forall i :: 0 <= i < |files| ==> r[i] == (level, files[i])
  {
    seq(|files|, i requires 0 <= i < |files| => (level, files[i]))
  }

  /* ---- the order of a level ---- */

  // A level's list is determined by its set of files.
  lemma {:induction false} SortedUnique<F(!new)>(key: F -> FileKey, a: seq<F>, b: seq<F>)
    requires InOrder(key, a) && InOrder(key, b) && FileSet(a) == FileSet(b)
    ensures a == b
  {
    Membership(a);
    Membership(b);
    if a != [] {
      assert a[0] in FileSet(a);
      var j :| 0 <= j < |b| && b[j] == a[0];
      assert b[0] in FileSet(b);
      var i :| 0 <= i < |a| && a[i] == b[0];
      assert i == 0;
      TailSet(key, a);
      TailSet(key, b);
      SortedUnique(key, a[1..], b[1..]);
    }
  }

  lemma Membership<F(!new)>(a: seq<F>)
    ensures FileSet(a) == {} <==> a == []
  {
    if a != [] {
      assert a[0] in FileSet(a);
    }
  }

  lemma TailSet<F(!new)>(key: F -> FileKey, a: seq<F>)
    requires InOrder(key, a) && a != []
    ensures InOrder(key, a[1..]) && FileSet(a[1..]) == FileSet(a) - {a[0]}
  {
    forall f | f in a[1..]
      ensures f in a && f != a[0]
    {
      var i :| 0 <= i < |a[1..]| && a[1..][i] == f;
      assert KeyBefore(key(a[0]), key(a[i + 1]));
    }
    forall f | f in a && f != a[0]
      ensures f in a[1..]
    {
      var i :| 0 <= i < |a| && a[i] == f;
      assert a[1..][i - 1] == f;
    }
  }

  // A builder's std::set of added files: kept in order, an equal file inserted once.
  function InsertSorted<F>(key: F -> FileKey, files: seq<F>, f: F): (r: seq<F>) {
    if files == [] then [f]
    else if KeyBefore(key(f), key(files[0])) then [f] + files
    else if !KeyBefore(key(files[0]), key(f)) then files
    else [files[0]] + InsertSorted(key, files[1..], f)
  }

  lemma {:induction false} InsertSortedFacts<F(!new)>(key: F -> FileKey, files: seq<F>, f: F)
    requires InOrder(key, files)
    requires forall g :: g in files && key(g).number == key(f).number ==> g == f
    ensures InOrder(key, InsertSorted(key, files, f))
    ensures forall g :: g in InsertSorted(key, files, f) <==> g in files || g == f
  {
    if files != [] && !KeyBefore(key(f), key(files[0])) {
      if KeyBefore(key(files[0]), key(f)) {
        assert files == [files[0]] + files[1..];
        InsertSortedFacts(key, files[1..], f);
        var rest := InsertSorted(key, files[1..], f);
        forall g | g in rest
          ensures KeyBefore(key(files[0]), key(g))
        {
          if g in files[1..] {
            var i :| 0 <= i < |files[1..]| && files[1..][i] == g;
            assert KeyBefore(key(files[0]), key(files[i + 1]));
          }
        }
        ConsSorted(key, files[0], rest);
      } else {
        assert files[0] in files;
      }
    } else if files != [] {
      forall g | g in files
        ensures KeyBefore(key(f), key(g))
      {
        var i :| 0 <= i < |files| && files[i] == g;
        assert i == 0 || KeyBefore(key(files[0]), key(files[i]));
      }
      ConsSorted(key, f, files);
    }
  }

  lemma ConsSorted<F(!new)>(key: F -> FileKey, f: F, files: seq<F>)
    requires InOrder(key, files) && forall g :: g in files ==> KeyBefore(key(f), key(g))
    ensures InOrder(key, [f] + files)
  {
    forall i, j | 0 <= i < j < |[f] + files|
      ensures KeyBefore(key(([f] + files)[i]), key(([f] + files)[j]))
    {
      assert files[j - 1] in files;
    }
  }

  lemma NextInOrder<F(!new)>(key: F -> FileKey, files: seq<F>, n: nat)
    requires InOrder(key, files) && n < |files|
    ensures forall i :: n < i < |files| ==> KeyBefore(key(files[n]), key(files[i]))
  {
  }

  lemma SnocSorted<F(!new)>(key: F -> FileKey, files: seq<F>, f: F)
    requires InOrder(key, files) && forall g :: g in files ==> KeyBefore(key(g), key(f))
    ensures InOrder(key, files + [f])
  {
    forall i, j | 0 <= i < j < |files + [f]|
      ensures KeyBefore(key((files + [f])[i]), key((files + [f])[j]))
    {
      assert files[i] in files;
    }
  }

  /* ---- the builder ---- */

  ghost predicate NumbersApart<F(!new)>(key: F -> FileKey, a: seq<F>, b: seq<F>) {
    forall f, g :: f in a && g in b ==> key(f).number != key(g).number
  }

  // What a level holds after the edits so far.
  ghost function LevelResult<F>(key: F -> FileKey, base: set<F>, deleted: set<nat>, added: set<F>): set<F> {
    set f | f in base + added && key(f).number !in deleted
  }

  // version_set.cc:709: where the base files not after f end.
  method UpperBound<F(!new)>(key: F -> FileKey, base: seq<F>, from: nat, f: F) returns (r: nat)
    requires InOrder(key, base) && from <= |base|
    ensures from <= r <= |base|
    ensures forall i :: from <= i < r ==> !KeyBefore(key(f), key(base[i]))
    ensures forall i :: r <= i < |base| ==> KeyBefore(key(f), key(base[i]))
  {
    r := from;
    while r < |base| && !KeyBefore(key(f), key(base[r]))
      invariant from <= r <= |base|
      invariant forall i :: from <= i < r ==> !KeyBefore(key(f), key(base[i]))
    {
      r := r + 1;
    }
    if r < |base| {
      forall i | r <= i < |base|
        ensures KeyBefore(key(f), key(base[i]))
      {
        assert i == r || KeyBefore(key(base[r]), key(base[i]));
      }
    }
  }

  // version_set.cc:741
  method MaybeAddFile<F(!new)>(key: F -> FileKey, files: seq<F>, deleted: set<nat>, f: F) returns (r: seq<F>)
    requires InOrder(key, files) && forall g :: g in files ==> KeyBefore(key(g), key(f))
    ensures r == Taken(key, files, deleted, f)
    ensures InOrder(key, r)
  {
    r := files;
    if key(f).number in deleted {
    } else {
      SnocSorted(key, files, f);
      r := files + [f];
    }
  }

  // out comes before what is left of files.
  ghost predicate Precedes<F(!new)>(key: F -> FileKey, out: seq<F>, files: seq<F>, from: nat) {
    forall f, i :: f in out && from <= i < |files| ==> KeyBefore(key(f), key(files[i]))
  }

  // out holds what survives of two lists.
  ghost predicate Survive<F(!new)>(key: F -> FileKey, a: seq<F>, b: seq<F>, deleted: set<nat>, out: seq<F>) {
    forall f :: f in out <==> (f in a || f in b) && key(f).number !in deleted
  }

  // The merge in progress: out holds what survives of the files already passed.
  ghost predicate Merging<F(!new)>(key: F -> FileKey, base: seq<F>, added: seq<F>, deleted: set<nat>, bi: nat, ai: nat, out: seq<F>) {
    && bi <= |base| && ai <= |added|
    && InOrder(key, out)
    && Survive(key, base[..bi], added[..ai], deleted, out)
    && Precedes(key, out, base, bi)
    && Precedes(key, out, added, ai)
  }

  // What MaybeAddFile makes of one file more.
  ghost function Taken<F>(key: F -> FileKey, out: seq<F>, deleted: set<nat>, f: F): seq<F> {
    if key(f).number in deleted then out else out + [f]
  }

  lemma TakenPrecedes<F(!new)>(key: F -> FileKey, out: seq<F>, deleted: set<nat>, f: F, files: seq<F>, from: nat, to: nat)
    requires Precedes(key, out, files, from) && from <= to
    requires forall i :: to <= i < |files| ==> KeyBefore(key(f), key(files[i]))
    ensures Precedes(key, Taken(key, out, deleted, f), files, to)
  {
    hide KeyBefore;
  }

  lemma TakenSurvives<F(!new)>(key: F -> FileKey, a: seq<F>, b: seq<F>, deleted: set<nat>, out: seq<F>, f: F)
    requires Survive(key, a, b, deleted, out)
    ensures Survive(key, a + [f], b, deleted, Taken(key, out, deleted, f))
    ensures Survive(key, a, b + [f], deleted, Taken(key, out, deleted, f))
  {
  }

  method TakeBase<F(!new)>(key: F -> FileKey, base: seq<F>, added: seq<F>, deleted: set<nat>, bi: nat, ai: nat, out: seq<F>) returns (r: seq<F>)
    requires InOrder(key, base) && InOrder(key, added)
    requires Merging(key, base, added, deleted, bi, ai, out) && bi < |base|
    requires forall i :: ai <= i < |added| ==> KeyBefore(key(base[bi]), key(added[i]))
    ensures Merging(key, base, added, deleted, bi + 1, ai, r)
  {
    hide InOrder, KeyBefore, Survive, Taken;
    var f := base[bi];
    NextInOrder(key, base, bi);
    assert base[..bi + 1] == base[..bi] + [f];
    TakenPrecedes(key, out, deleted, f, base, bi, bi + 1);
    TakenPrecedes(key, out, deleted, f, added, ai, ai);
    TakenSurvives(key, base[..bi], added[..ai], deleted, out, f);
    r := MaybeAddFile(key, out, deleted, f);
  }

  method TakeAdded<F(!new)>(key: F -> FileKey, base: seq<F>, added: seq<F>, deleted: set<nat>, bi: nat, ai: nat, out: seq<F>) returns (r: seq<F>)
    requires InOrder(key, base) && InOrder(key, added)
    requires Merging(key, base, added, deleted, bi, ai, out) && ai < |added|
    requires forall i :: bi <= i < |base| ==> KeyBefore(key(added[ai]), key(base[i]))
    ensures Merging(key, base, added, deleted, bi, ai + 1, r)
  {
    hide InOrder, KeyBefore, Survive, Taken;
    var f := added[ai];
    NextInOrder(key, added, ai);
    assert added[..ai + 1] == added[..ai] + [f];
    TakenPrecedes(key, out, deleted, f, base, bi, bi);
    TakenPrecedes(key, out, deleted, f, added, ai, ai + 1);
    TakenSurvives(key, base[..bi], added[..ai], deleted, out, f);
    r := MaybeAddFile(key, out, deleted, f);
  }

  lemma NotAfterIsBefore<F(!new)>(key: F -> FileKey, f: F, g: F)
    requires key(f).number != key(g).number && !KeyBefore(key(f), key(g))
    ensures KeyBefore(key(g), key(f))
  {
  }

  // version_set.cc:698, one level.
  method MergeLevel<F(!new)>(key: F -> FileKey, base: seq<F>, added: seq<F>, deleted: set<nat>) returns (out: seq<F>)
    requires InOrder(key, base) && InOrder(key, added) && NumbersApart(key, base, added)
    ensures InOrder(key, out)
    ensures FileSet(out) == LevelResult(key, FileSet(base), deleted, FileSet(added))
  {
    out := [];
    var bi := 0;
    for ai := 0 to |added|
      invariant Merging(key, base, added, deleted, bi, ai, out)
    {
      var bpos := UpperBound(key, base, bi, added[ai]);
      while bi < bpos
        invariant bi <= bpos && Merging(key, base, added, deleted, bi, ai, out)
      {
        assert base[bi] in base && added[ai] in added;
        NotAfterIsBefore(key, added[ai], base[bi]);
        forall i | ai <= i < |added|
          ensures KeyBefore(key(base[bi]), key(added[i]))
        {
          assert i == ai || KeyBefore(key(added[ai]), key(added[i]));
        }
        out := TakeBase(key, base, added, deleted, bi, ai, out);
        bi := bi + 1;
      }
      out := TakeAdded(key, base, added, deleted, bi, ai, out);
    }
    while bi < |base|
      invariant bi <= |base| && Merging(key, base, added, deleted, bi, |added|, out)
    {
      out := TakeBase(key, base, added, deleted, bi, |added|, out);
      bi := bi + 1;
    }
    assert base[..bi] == base && added[..|added|] == added;
  }

  ghost predicate NumbersOnce<F(!new)>(key: F -> FileKey, added: seq<(nat, F)>) {
    forall i, j :: 0 <= i < j < |added| && added[i].0 == added[j].0 ==> key(added[i].1).number != key(added[j].1).number
  }

  lemma NotAddedBefore<F(!new)>(key: F -> FileKey, added: seq<(nat, F)>, i: nat, g: F)
    requires NumbersOnce(key, added) && i < |added| && g in AddedAt(added[..i], added[i].0)
    ensures key(g).number != key(added[i].1).number
  {
  }

  lemma DeletedAtGrows(files: set<(nat, nat)>, d: (nat, nat))
    ensures forall l :: DeletedAt(files + {d}, l) == DeletedAt(files, l) + if l == d.0 then {d.1} else {}
  {
  }

  lemma AddedGrows<F(!new)>(key: F -> FileKey, added: seq<(nat, F)>, i: nat)
    requires i < |added|
    ensures forall l :: AddedAt(added[..i + 1], l) == AddedAt(added[..i], l) + if l == added[i].0 then {added[i].1} else {}
    ensures forall l :: AddedNumbers(key, added[..i + 1], l) == AddedNumbers(key, added[..i], l) + if l == added[i].0 then {key(added[i].1).number} else {}
  {
    assert added[..i + 1] == added[..i] + [added[i]];
  }

  // Files with one number are one file.
  ghost predicate OneEach<F(!new)>(key: F -> FileKey, files: seq<F>) {
    forall f, g :: f in files && g in files && key(f).number == key(g).number ==> f == g
  }

  class VersionBuilder<F(!new)> {
    const key: F -> FileKey
    const base: Levels<F>
    var deleted: seq<set<nat>>
    var added: seq<seq<F>>

    ghost predicate Valid()
      reads this
    {
      && |deleted| == NUM_LEVELS && |added| == NUM_LEVELS
      && AllInOrder(key, base)
      && (forall l :: 0 <= l < NUM_LEVELS ==> InOrder(key, added[l]))
      && (forall l :: 0 <= l < NUM_LEVELS ==> OneEach(key, added[l]))
    }

    constructor (key: F -> FileKey, base: Levels<F>)
      requires AllInOrder(key, base)
      ensures Valid() && this.key == key && this.base == base
      ensures forall l :: 0 <= l < NUM_LEVELS ==> deleted[l] == {} && added[l] == []
    {
      this.key, this.base := key, base;
      deleted := seq(NUM_LEVELS, _ => {});
      added := seq(NUM_LEVELS, _ => []);
    }

    // No file number is added twice to one level.
    ghost predicate Addable(e: FileEdit<F>)
      reads this
      requires Valid()
    {
      && EditOk(e)
      && (forall a, f :: a in e.added && f in added[a.0] ==> key(f).number != key(a.1).number)
      && NumbersOnce(key, e.added)
    }

    // version_set.cc:658
    method MarkDeleted(files: set<(nat, nat)>)
      requires Valid() && forall d :: d in files ==> d.0 < NUM_LEVELS
      modifies this`deleted
      ensures Valid()
      ensures forall l :: 0 <= l < NUM_LEVELS ==> deleted[l] == old(deleted[l]) + DeletedAt(files, l)
    {
      var todo := files;
      while todo != {}
        invariant Valid() && todo <= files
        invariant forall l :: 0 <= l < NUM_LEVELS ==> deleted[l] == old(deleted[l]) + DeletedAt(files - todo, l)
        decreases todo
      {
        var d :| d in todo;
        DeletedAtGrows(files - todo, d);
        assert files - (todo - {d}) == files - todo + {d};
        deleted := deleted[d.0 := deleted[d.0] + {d.1}];
        todo := todo - {d};
      }
      assert files - {} == files;
    }

    // version_set.cc:668
    method AddFile(l: nat, f: F)
      requires Valid() && l < NUM_LEVELS && forall g :: g in added[l] ==> key(g).number != key(f).number
      modifies this
      ensures Valid()
      ensures deleted == old(deleted)[l := old(deleted[l]) - {key(f).number}]
      ensures forall m :: 0 <= m < NUM_LEVELS && m != l ==> added[m] == old(added[m])
      ensures forall g :: g in added[l] <==> g in old(added[l]) || g == f
    {
      InsertSortedFacts(key, added[l], f);
      deleted := deleted[l := deleted[l] - {key(f).number}];
      added := added[l := InsertSorted(key, added[l], f)];
    }

    // version_set.cc:650
    method Apply(e: FileEdit<F>)
      requires Valid() && Addable(e)
      modifies this
      ensures Valid()
      ensures forall l :: 0 <= l < NUM_LEVELS ==>
                deleted[l] == old(deleted[l]) + DeletedAt(e.deleted, l) - AddedNumbers(key, e.added, l)
      ensures forall l :: 0 <= l < NUM_LEVELS ==> FileSet(added[l]) == FileSet(old(added[l])) + AddedAt(e.added, l)
    {
      MarkDeleted(e.deleted);
      for i := 0 to |e.added|
        invariant Valid()
        invariant forall l :: 0 <= l < NUM_LEVELS ==>
                    deleted[l] == old(deleted[l]) + DeletedAt(e.deleted, l) - AddedNumbers(key, e.added[..i], l)
        invariant forall l :: 0 <= l < NUM_LEVELS ==> FileSet(added[l]) == FileSet(old(added[l])) + AddedAt(e.added[..i], l)
      {
        var a := e.added[i];
        AddedGrows(key, e.added, i);
        forall g | g in added[a.0]
          ensures key(g).number != key(a.1).number
        {
          assert g in FileSet(added[a.0]);
          if g in AddedAt(e.added[..i], a.0) {
            NotAddedBefore(key, e.added, i, g);
          }
        }
        AddFile(a.0, a.1);
      }
      assert e.added[..|e.added|] == e.added;
    }

    // version_set.cc:695
    method SaveTo() returns (v: Levels<F>)
      requires Valid()
      requires forall l :: 0 <= l < NUM_LEVELS ==> NumbersApart(key, base[l], added[l])
      ensures AllInOrder(key, v)
      ensures forall l :: 0 <= l < NUM_LEVELS ==>
                FileSet(v[l]) == LevelResult(key, FileSet(base[l]), deleted[l], FileSet(added[l]))
    {
      var levels: seq<seq<F>> := [];
      for l := 0 to NUM_LEVELS
        invariant |levels| == l
        invariant forall m :: 0 <= m < l ==> InOrder(key, levels[m])
        invariant forall m :: 0 <= m < l ==> FileSet(levels[m]) == LevelResult(key, FileSet(base[m]), deleted[m], FileSet(added[m]))
      {
        var out := MergeLevel(key, base[l], added[l], deleted[l]);
        levels := levels + [out];
      }
      v := levels;
    }

    // All it holds comes from these edits, on top of nothing.
    ghost predicate Gathers(edits: seq<FileEdit<F>>)
      reads this
      requires Valid()
    {
      && (forall l :: 0 <= l < NUM_LEVELS ==> base[l] == [])
      && forall l :: 0 <= l < NUM_LEVELS ==>
           deleted[l] == Gathered(key, edits, l).0 && FileSet(added[l]) == Gathered(key, edits, l).1
    }

    // version_set.cc:946
    method ApplyNext(e: FileEdit<F>, ghost edits: seq<FileEdit<F>>)
      requires Valid() && Gathers(edits) && AddedOnce(key, edits + [e])
      modifies this
      ensures Valid() && Gathers(edits + [e])
    {
      assert (edits + [e])[|edits|] == e && (edits + [e])[..|edits|] == edits;
      forall a, f | a in e.added && f in added[a.0]
        ensures key(f).number != key(a.1).number
      {
        assert f in FileSet(added[a.0]);
        assert key(a.1).number in AddedNumbers(key, e.added, a.0);
      }
      Apply(e);
    }

    // version_set.cc:992
    method SaveReplayed(ghost edits: seq<FileEdit<F>>) returns (v: Levels<F>)
      requires Valid() && Gathers(edits) && AddedOnce(key, edits)
      ensures IsChainVersion(key, v, edits)
    {
      v := SaveTo();
      forall l | 0 <= l < NUM_LEVELS
        ensures FileSet(v[l]) == Chain(key, edits, l)
      {
        ReplayIsChain(key, edits, l);
        assert FileSet<F>([]) == {};
      }
    }
  }

  /* ---- replaying a manifest ---- */

  // The level an edit turns a set of files into.
  ghost function Edited<F>(key: F -> FileKey, files: set<F>, e: FileEdit<F>, l: nat): set<F> {
    LevelResult(key, files, DeletedAt(e.deleted, l) - AddedNumbers(key, e.added, l), AddedAt(e.added, l))
  }

  // The version after a chain of LogAndApply calls, one level of it.
  ghost function Chain<F>(key: F -> FileKey, edits: seq<FileEdit<F>>, l: nat): set<F> {
    if edits == [] then {} else Edited(key, Chain(key, edits[..|edits| - 1], l), edits[|edits| - 1], l)
  }

  // What one builder has gathered after all edits.
  ghost function Gathered<F>(key: F -> FileKey, edits: seq<FileEdit<F>>, l: nat): (set<nat>, set<F>) {
    if edits == [] then ({}, {})
    else
      var g := Gathered(key, edits[..|edits| - 1], l);
      var e := edits[|edits| - 1];
      (g.0 + DeletedAt(e.deleted, l) - AddedNumbers(key, e.added, l), g.1 + AddedAt(e.added, l))
  }

  // Every edit's added numbers are new to their level.
  ghost predicate AddedOnce<F(!new)>(key: F -> FileKey, edits: seq<FileEdit<F>>) {
    && (forall i :: 0 <= i < |edits| ==> EditOk(edits[i]) && NumbersOnce(key, edits[i].added))
    && forall i, l, f :: 0 <= i < |edits| && f in Gathered(key, edits[..i], l).1 ==> key(f).number !in AddedNumbers(key, edits[i].added, l)
  }

  lemma EditCommutes<F(!new)>(key: F -> FileKey, base: set<F>, deleted: set<nat>, added: set<F>, D: set<nat>, A: set<F>, numbers: set<nat>)
    requires forall f :: f in A ==> key(f).number in numbers
    requires forall f :: f in base + added ==> key(f).number !in numbers
    ensures LevelResult(key, base, deleted + D - numbers, added + A) == LevelResult(key, LevelResult(key, base, deleted, added), D - numbers, A)
  {
  }

  lemma AddedOncePrefix<F(!new)>(key: F -> FileKey, edits: seq<FileEdit<F>>, n: nat)
    requires AddedOnce(key, edits) && n <= |edits|
    ensures AddedOnce(key, edits[..n])
  {
    hide Gathered, AddedNumbers;
    var part := edits[..n];
    forall i, l, f | 0 <= i < n && f in Gathered(key, part[..i], l).1
      ensures key(f).number !in AddedNumbers(key, part[i].added, l)
    {
      assert part[..i] == edits[..i] && part[i] == edits[i];
    }
  }

  // One builder over the whole manifest agrees with the chain of versions.
  lemma {:induction false} ReplayIsChain<F(!new)>(key: F -> FileKey, edits: seq<FileEdit<F>>, l: nat)
    requires AddedOnce(key, edits)
    ensures LevelResult(key, {}, Gathered(key, edits, l).0, Gathered(key, edits, l).1) == Chain(key, edits, l)
  {
    if edits != [] {
      var n := |edits| - 1;
      var e := edits[n];
      AddedOncePrefix(key, edits, n);
      ReplayIsChain(key, edits[..n], l);
      var g := Gathered(key, edits[..n], l);
      EditCommutes(key, {}, g.0, g.1, DeletedAt(e.deleted, l), AddedAt(e.added, l), AddedNumbers(key, e.added, l));
    }
  }

  lemma {:induction false} ChainWithinGathered<F(!new)>(key: F -> FileKey, edits: seq<FileEdit<F>>, l: nat)
    ensures Chain(key, edits, l) <= Gathered(key, edits, l).1
  {
    if edits != [] {
      ChainWithinGathered(key, edits[..|edits| - 1], l);
    }
  }

  ghost predicate IsChainVersion<F(!new)>(key: F -> FileKey, v: Levels<F>, edits: seq<FileEdit<F>>) {
    AllInOrder(key, v) && forall l :: 0 <= l < NUM_LEVELS ==> FileSet(v[l]) == Chain(key, edits, l)
  }

  lemma ChainVersionUnique<F(!new)>(key: F -> FileKey, v: Levels<F>, w: Levels<F>, edits: seq<FileEdit<F>>)
    requires IsChainVersion(key, v, edits) && IsChainVersion(key, w, edits)
    ensures v == w
  {
    forall l | 0 <= l < NUM_LEVELS
      ensures v[l] == w[l]
    {
      SortedUnique(key, v[l], w[l]);
    }
  }

  // The edit brings no number that its level already has.
  ghost predicate NumbersNew<F(!new)>(key: F -> FileKey, v: Levels<F>, e: FileEdit<F>) {
    && EditOk(e) && NumbersOnce(key, e.added)
    && forall l, f :: 0 <= l < NUM_LEVELS && f in v[l] ==> key(f).number !in AddedNumbers(key, e.added, l)
  }

  // version_set.cc:816: a builder on the current version, one edit, a new version.
  method ApplyEdit<F(!new)>(key: F -> FileKey, v: Levels<F>, e: FileEdit<F>) returns (w: Levels<F>)
    requires AllInOrder(key, v) && NumbersNew(key, v, e)
    ensures AllInOrder(key, w) && forall l :: 0 <= l < NUM_LEVELS ==> FileSet(w[l]) == Edited(key, FileSet(v[l]), e, l)
  {
    var builder := new VersionBuilder(key, v);
    builder.Apply(e);
    forall l | 0 <= l < NUM_LEVELS
      ensures NumbersApart(key, v[l], builder.added[l])
    {
      forall f, g | f in v[l] && g in builder.added[l]
        ensures key(f).number != key(g).number
      {
        assert g in FileSet(builder.added[l]);
        assert key(g).number in AddedNumbers(key, e.added, l);
      }
    }
    w := builder.SaveTo();
    assert forall l :: 0 <= l < NUM_LEVELS ==> {} + DeletedAt(e.deleted, l) == DeletedAt(e.deleted, l)
                                               && FileSet([]) + AddedAt(e.added, l) == AddedAt(e.added, l);
  }

  // The next version of a chain.
  method ApplyNext<F(!new)>(key: F -> FileKey, v: Levels<F>, e: FileEdit<F>, ghost edits: seq<FileEdit<F>>) returns (w: Levels<F>)
    requires AddedOnce(key, edits + [e]) && IsChainVersion(key, v, edits)
    ensures IsChainVersion(key, w, edits + [e])
    ensures forall l :: 0 <= l < NUM_LEVELS ==> FileSet(w[l]) == Edited(key, FileSet(v[l]), e, l)
  {
    assert (edits + [e])[|edits|] == e && (edits + [e])[..|edits|] == edits;
    forall l, f | 0 <= l < NUM_LEVELS && f in v[l]
      ensures key(f).number !in AddedNumbers(key, e.added, l)
    {
      ChainWithinGathered(key, edits, l);
      assert f in FileSet(v[l]);
    }
    w := ApplyEdit(key, v, e);
  }
}
