/**
 Table files and the versions made of them (db/version_edit.h, db/version_set.cc).
 A table is its sorted entries; its metadata bounds are its first and last key.
 */
module Tables {
  import opened Keys
  import opened FlatMap

  // dbformat.h:23 and dbformat.h:40
  const NUM_LEVELS := 7
  const MAX_MEM_COMPACT_LEVEL := 2

  datatype TableFile = TableFile(number: nat, size: nat, entries: seq<Entry>)

  // No table is written without entries (builder.cc:71, db_impl.cc:976).
  type File = f: TableFile | f.entries != [] witness TableFile(0, 0, [Entry(0, 0, Deletion)])

  ghost predicate TableValid(f: File) {
    && Sorted(f.entries)
    && forall e :: e in f.entries ==> e.sn <= MAX_SEQUENCE
  }

  ghost predicate TablesValid(files: seq<File>) {
    forall f :: f in files ==> TableValid(f)
  }

  function Smallest(f: File): InternalKey {
    f.entries[0].Ik()
  }

  function Largest(f: File): InternalKey {
    f.entries[|f.entries| - 1].Ik()
  }

  ghost function FileEntries(f: File): set<Entry> {
    set e | e in f.entries
  }

  ghost function LevelEntries(files: seq<File>): set<Entry> {
    set f, e | f in files && e in f.entries :: e
  }

  lemma WithinBounds(f: File, e: Entry)
    requires TableValid(f) && e in f.entries
    ensures !Less(e.Ik(), Smallest(f)) && !Less(Largest(f), e.Ik())
    ensures Smallest(f).user <= e.key <= Largest(f).user
  {
    var i :| 0 <= i < |f.entries| && f.entries[i] == e;
    assert i == 0 || Before(f.entries[0], e);
    assert i == |f.entries| - 1 || Before(e, f.entries[|f.entries| - 1]);
  }

  // The files of a level >= 1: in order, with disjoint key ranges.
  ghost predicate Disjoint(files: seq<File>) {
    && TablesValid(files)
    && forall i, j :: 0 <= i < j < |files| ==> Less(Largest(files[i]), Smallest(files[j]))
  }

  lemma DisjointOrder(files: seq<File>, i: nat, j: nat)
    requires Disjoint(files) && i <= j < |files|
    ensures !Less(Smallest(files[j]), Smallest(files[i]))
    ensures !Less(Largest(files[j]), Largest(files[i]))
    ensures i < j ==> Less(Smallest(files[i]), Smallest(files[j]))
    ensures i < j ==> Less(Largest(files[i]), Largest(files[j]))
  {
    WithinBounds(files[i], files[i].entries[0]);
    WithinBounds(files[j], files[j].entries[0]);
  }

  // Where the binary search for a key ends, whatever the files.
  function Bisect(files: seq<File>, key: InternalKey, left: nat, right: nat): (index: nat)
    requires left <= right <= |files|
    ensures left <= index <= right
    decreases right - left
  {
    if left == right then right
    else
      var mid := (left + right) / 2;
      if Less(Largest(files[mid]), key) then Bisect(files, key, mid + 1, right) else Bisect(files, key, left, mid)
  }

  // version_set.cc:88: in a sorted level, the first file whose largest key is not before
  // the target.
  method FindFile(files: seq<File>, key: InternalKey) returns (index: nat)
    ensures index == Bisect(files, key, 0, |files|)
    ensures Disjoint(files) ==> forall i :: 0 <= i < index ==> Less(Largest(files[i]), key)
    ensures Disjoint(files) ==> forall i :: index <= i < |files| ==> !Less(Largest(files[i]), key)
  {
    var left, right := 0, |files|;
    while left < right
      invariant 0 <= left <= right <= |files|
      invariant Bisect(files, key, left, right) == Bisect(files, key, 0, |files|)
      invariant Disjoint(files) ==> forall i :: 0 <= i < left ==> Less(Largest(files[i]), key)
      invariant Disjoint(files) ==> forall i :: right <= i < |files| ==> !Less(Largest(files[i]), key)
    {
      var mid := (left + right) / 2;
      if Compare(Largest(files[mid]), key) < 0 {
        EarlierToo(files, key, mid);
        left := mid + 1;
      } else {
        LaterToo(files, key, mid);
        right := mid;
      }
    }
    return right;
  }

  lemma EarlierToo(files: seq<File>, key: InternalKey, mid: nat)
    requires mid < |files| && Less(Largest(files[mid]), key)
    ensures Disjoint(files) ==> forall i :: 0 <= i <= mid ==> Less(Largest(files[i]), key)
  {
    if Disjoint(files) {
      forall i | 0 <= i <= mid
        ensures Less(Largest(files[i]), key)
      {
        DisjointOrder(files, i, mid);
      }
    }
  }

  lemma LaterToo(files: seq<File>, key: InternalKey, mid: nat)
    requires mid < |files| && !Less(Largest(files[mid]), key)
    ensures Disjoint(files) ==> forall i :: mid <= i < |files| ==> !Less(Largest(files[i]), key)
  {
    if Disjoint(files) {
      forall i | mid <= i < |files|
        ensures !Less(Largest(files[i]), key)
      {
        DisjointOrder(files, mid, i);
      }
    }
  }

  // version_set.cc:108: a missing bound is before or after all keys.
  predicate AfterFile(key: Option<UserKey>, f: File) {
    key.Some? && key.value > Largest(f).user
  }

  predicate BeforeFile(key: Option<UserKey>, f: File) {
    key.Some? && key.value < Smallest(f).user
  }

  predicate Overlaps(f: File, lo: Option<UserKey>, hi: Option<UserKey>) {
    !AfterFile(lo, f) && !BeforeFile(hi, f)
  }

  // version_set.cc:122
  method SomeFileOverlapsRange(disjointSorted: bool, files: seq<File>, smallest: Option<UserKey>, largest: Option<UserKey>)
    returns (overlap: bool)
    requires disjointSorted ==> Disjoint(files)
    ensures overlap <==> exists f :: f in files && Overlaps(f, smallest, largest)
  {
    if !disjointSorted {
      for i := 0 to |files|
        invariant forall j :: 0 <= j < i ==> !Overlaps(files[j], smallest, largest)
      {
        if AfterFile(smallest, files[i]) || BeforeFile(largest, files[i]) {
        } else {
          assert files[i] in files;
          return true;
        }
      }
      return false;
    }
    var index := 0;
    if smallest.Some? {
      index := FindFile(files, InternalKey(smallest.value, MAX_SEQUENCE, VALUE_TYPE_FOR_SEEK));
      forall i | 0 <= i < |files|
        ensures i < index ==> AfterFile(smallest, files[i])
        ensures i >= index ==> !AfterFile(smallest, files[i])
      {
        var last := files[i].entries[|files[i].entries| - 1];
        assert TableValid(files[i]) && last in files[i].entries;
      }
    }
    if index >= |files| {
      return false;
    }
    forall i | index <= i < |files|
      ensures Smallest(files[index]).user <= Smallest(files[i]).user
    {
      DisjointOrder(files, index, i);
    }
    overlap := !BeforeFile(largest, files[index]);
    assert overlap ==> Overlaps(files[index], smallest, largest);
    assert !overlap ==> forall i :: 0 <= i < |files| ==> !Overlaps(files[i], smallest, largest);
  }

  /* ---- lookups ---- */

  ghost predicate NoMatch(S: set<Entry>, k: UserKey, s: nat) {
    forall x :: x in S ==> !Matches(x, k, s)
  }

  // A table lookup reports the first entry at or after the seek key, and the
  // caller keeps it only if it has the right user key (version_set.cc:263).
  function FileSearch(f: File, k: UserKey, s: nat): Option<Entry> {
    var i := LowerBound(f.entries, SeekKey(k, s));
    if i < |f.entries| && f.entries[i].key == k then Some(f.entries[i]) else None
  }

  lemma FileSearchFindsNewest(f: File, k: UserKey, s: nat)
    requires TableValid(f)
    ensures FileSearch(f, k, s).Some? ==> IsNewest(FileEntries(f), k, s, FileSearch(f, k, s).value)
    ensures FileSearch(f, k, s).None? ==> NoMatch(FileEntries(f), k, s)
  {
    var i := LowerBound(f.entries, SeekKey(k, s));
    forall x | x in FileEntries(f) && Matches(x, k, s)
      ensures i < |f.entries| && f.entries[i].key == k && x.sn <= f.entries[i].sn
    {
      var j :| 0 <= j < |f.entries| && f.entries[j] == x;
      assert i <= j;
      assert i == j || Before(f.entries[i], x);
    }
  }

  // The one file of a sorted level that can hold an answer.
  lemma LevelSearch(files: seq<File>, k: UserKey, s: nat, index: nat)
    requires Disjoint(files) && index <= |files|
    requires forall i :: 0 <= i < index ==> Less(Largest(files[i]), SeekKey(k, s))
    requires forall i :: index <= i < |files| ==> !Less(Largest(files[i]), SeekKey(k, s))
    ensures index == |files| || k < Smallest(files[index]).user ==> NoMatch(LevelEntries(files), k, s)
    ensures index < |files| && FileSearch(files[index], k, s).None? ==> NoMatch(LevelEntries(files), k, s)
    ensures index < |files| && FileSearch(files[index], k, s).Some? ==>
              IsNewest(LevelEntries(files), k, s, FileSearch(files[index], k, s).value)
  {
    forall x | x in LevelEntries(files) && Matches(x, k, s)
      ensures index < |files| && Smallest(files[index]).user <= k && FileSearch(files[index], k, s).Some?
              && x.sn <= FileSearch(files[index], k, s).value.sn
    {
      var j :| 0 <= j < |files| && x in files[j].entries;
      WithinBounds(files[j], x);
      assert index <= j;
      DisjointOrder(files, index, j);
      FileSearchFindsNewest(files[index], k, s);
      if index < j {
        var last := files[index].entries[|files[index].entries| - 1];
        assert Less(last.Ik(), Smallest(files[j]));
        assert Matches(last, k, s) && last in FileEntries(files[index]);
      }
    }
    if index < |files| {
      FileSearchFindsNewest(files[index], k, s);
      assert FileEntries(files[index]) <= LevelEntries(files);
    }
  }

  /* ---- versions ---- */

  type Version = v: seq<seq<File>> | |v| == NUM_LEVELS witness [[], [], [], [], [], [], []]

  ghost function VersionEntries(v: Version): set<Entry> {
    set l, f, e | 0 <= l < NUM_LEVELS && f in v[l] && e in f.entries :: e
  }

  ghost predicate NewestFileFirst(files: seq<File>) {
    forall f, g :: f in files && g in files && f.number > g.number ==> Newer(FileEntries(f), FileEntries(g))
  }

  ghost predicate DistinctNumbers(files: seq<File>) {
    forall f, g :: f in files && g in files && f.number == g.number ==> f == g
  }

  // What no single function of the engine states: newer data is always found first.
  ghost predicate VersionValid(v: Version) {
    && TablesValid(v[0])
    && DistinctNumbers(v[0])
    && NewestFileFirst(v[0])
    && (forall l :: 1 <= l < NUM_LEVELS ==> Disjoint(v[l]))
    && (forall l, m :: 0 <= l < m < NUM_LEVELS ==> Newer(LevelEntries(v[l]), LevelEntries(v[m])))
  }

  ghost predicate NumbersDescending(files: seq<File>) {
    forall i, j :: 0 <= i < j < |files| ==> files[i].number >= files[j].number
  }

  ghost predicate SameFiles(a: seq<File>, b: seq<File>) {
    forall f :: f in a <==> f in b
  }

  function InsertNewestFirst(f: File, files: seq<File>): (r: seq<File>)
    ensures SameFiles(r, [f] + files)
    ensures NumbersDescending(files) ==> NumbersDescending(r)
  {
    if files == [] || f.number > files[0].number then [f] + files
    else
      var rest := InsertNewestFirst(f, files[1..]);
      assert NumbersDescending(files) ==> forall g :: g in [f] + files[1..] ==> g.number <= files[0].number;
      [files[0]] + rest
  }

  // std::sort with NewestFirst (version_set.cc:278)
  function SortNewestFirst(files: seq<File>): (r: seq<File>)
    ensures SameFiles(r, files)
    ensures NumbersDescending(r)
  {
    if files == [] then []
    else
      assert files == [files[0]] + files[1..];
      InsertNewestFirst(files[0], SortNewestFirst(files[1..]))
  }

  // The level-0 files a lookup reads, newest first.
  ghost predicate Level0Candidates(v: Version, k: UserKey, files: seq<File>) {
    && NumbersDescending(files)
    && forall f :: f in files <==> f in v[0] && Smallest(f).user <= k <= Largest(f).user
  }

  lemma NewestInLevel0(v: Version, k: UserKey, s: nat, files: seq<File>, i: nat, e: Entry, x: Entry)
    requires TablesValid(v[0]) && DistinctNumbers(v[0]) && NewestFileFirst(v[0])
    requires Level0Candidates(v, k, files) && i < |files|
    requires forall j :: 0 <= j < i ==> FileSearch(files[j], k, s).None?
    requires FileSearch(files[i], k, s) == Some(e)
    requires x in LevelEntries(v[0]) && Matches(x, k, s)
    ensures x.sn <= e.sn
  {
    var f := files[i];
    var g :| g in v[0] && x in g.entries;
    WithinBounds(g, x);
    var j :| 0 <= j < |files| && files[j] == g;
    FileSearchFindsNewest(f, k, s);
    FileSearchFindsNewest(g, k, s);
    assert x in FileEntries(g);
    if g != f {
      assert f.number >= g.number;
      assert Newer(FileEntries(f), FileEntries(g));
    }
  }

  lemma FoundInLevel0(v: Version, k: UserKey, s: nat, files: seq<File>, i: nat)
    requires VersionValid(v) && UniqueSeq(VersionEntries(v))
    requires Level0Candidates(v, k, files) && i < |files|
    requires forall j :: 0 <= j < i ==> FileSearch(files[j], k, s).None?
    requires FileSearch(files[i], k, s).Some?
    ensures Get(VersionEntries(v), k, s) == Answer(FileSearch(files[i], k, s))
  {
    var e := FileSearch(files[i], k, s).value;
    FileSearchFindsNewest(files[i], k, s);
    assert e in LevelEntries(v[0]);
    forall x | x in VersionEntries(v) && Matches(x, k, s)
      ensures x.sn <= e.sn
    {
      var l, g :| 0 <= l < NUM_LEVELS && g in v[l] && x in g.entries;
      assert x in LevelEntries(v[l]);
      if l == 0 {
        NewestInLevel0(v, k, s, files, i, e, x);
      } else {
        assert Newer(LevelEntries(v[0]), LevelEntries(v[l]));
      }
    }
    LookupIs(VersionEntries(v), k, s, e);
  }

  lemma NoneInLevel0(v: Version, k: UserKey, s: nat, files: seq<File>)
    requires TablesValid(v[0]) && Level0Candidates(v, k, files)
    requires forall j :: 0 <= j < |files| ==> FileSearch(files[j], k, s).None?
    ensures NoMatch(LevelEntries(v[0]), k, s)
  {
    forall x | x in LevelEntries(v[0]) && Matches(x, k, s)
      ensures false
    {
      var g :| g in v[0] && x in g.entries;
      WithinBounds(g, x);
      assert g in files;
      FileSearchFindsNewest(g, k, s);
    }
  }

  lemma FoundInLevel(v: Version, k: UserKey, s: nat, level: nat, e: Entry)
    requires VersionValid(v) && UniqueSeq(VersionEntries(v))
    requires 1 <= level < NUM_LEVELS && IsNewest(LevelEntries(v[level]), k, s, e)
    requires forall l :: 0 <= l < level ==> NoMatch(LevelEntries(v[l]), k, s)
    ensures Get(VersionEntries(v), k, s) == Answer(Some(e))
  {
    forall x | x in VersionEntries(v) && Matches(x, k, s)
      ensures x.sn <= e.sn
    {
      var l := LevelOf(v, x);
      if l > level {
        assert Newer(LevelEntries(v[level]), LevelEntries(v[l]));
      }
    }
    hide VersionValid, LevelEntries;
    LevelWithin(v, level, e);
    LookupIs(VersionEntries(v), k, s, e);
  }

  lemma LevelOf(v: Version, x: Entry) returns (l: nat)
    requires x in VersionEntries(v)
    ensures l < NUM_LEVELS && x in LevelEntries(v[l])
  {
    var m, g :| 0 <= m < NUM_LEVELS && g in v[m] && x in g.entries;
    l := m;
  }

  lemma LevelWithin(v: Version, l: nat, x: Entry)
    requires l < NUM_LEVELS && x in LevelEntries(v[l])
    ensures x in VersionEntries(v)
  {
    var g :| g in v[l] && x in g.entries;
  }

  method FilesHolding(files: seq<File>, k: UserKey) returns (r: seq<File>)
    ensures forall f :: f in r <==> f in files && Smallest(f).user <= k <= Largest(f).user
  {
    r := [];
    for i := 0 to |files|
      invariant forall f :: f in r ==> f in files && Smallest(f).user <= k <= Largest(f).user
      invariant forall j :: 0 <= j < i && Smallest(files[j]).user <= k <= Largest(files[j]).user ==> files[j] in r
    {
      if k >= Smallest(files[i]).user && k <= Largest(files[i]).user {
        r := r + [files[i]];
      }
    }
  }

  method SearchInOrder(files: seq<File>, k: UserKey, s: nat) returns (r: Option<Entry>, ghost at: nat)
    ensures r.Some? ==> at < |files| && FileSearch(files[at], k, s) == r
    ensures r.None? ==> at == |files|
    ensures forall j :: 0 <= j < at ==> FileSearch(files[j], k, s).None?
  {
    for i := 0 to |files|
      invariant forall j :: 0 <= j < i ==> FileSearch(files[j], k, s).None?
    {
      r := FileSearch(files[i], k, s);
      if r.Some? {
        at := i;
        return;
      }
    }
    r, at := None, |files|;
  }

  lemma SortedAreCandidates(v: Version, k: UserKey, files: seq<File>, sorted: seq<File>)
    requires forall f :: f in files <==> f in v[0] && Smallest(f).user <= k <= Largest(f).user
    requires SameFiles(sorted, files) && NumbersDescending(sorted)
    ensures Level0Candidates(v, k, sorted)
  {
  }

  // The level-0 part of Version::Get: overlapping files from newest to oldest.
  method SearchLevel0(v: Version, k: UserKey, s: nat) returns (r: Option<Entry>)
    requires VersionValid(v) && UniqueSeq(VersionEntries(v))
    ensures r.Some? ==> Get(VersionEntries(v), k, s) == Answer(r)
    ensures r.None? ==> NoMatch(LevelEntries(v[0]), k, s)
  {
    var files := FilesHolding(v[0], k);
    var tmp := SortNewestFirst(files);
    SortedAreCandidates(v, k, files, tmp);
    ghost var at;
    r, at := SearchInOrder(tmp, k, s);
    if r.Some? {
      FoundInLevel0(v, k, s, tmp, at);
    } else {
      NoneInLevel0(v, k, s, tmp);
    }
  }

  // What a level below 0 answers, whether or not its files are in order.
  function LevelAnswer(files: seq<File>, k: UserKey, s: nat): Option<Entry> {
    var index := Bisect(files, SeekKey(k, s), 0, |files|);
    if index < |files| && k >= Smallest(files[index]).user then FileSearch(files[index], k, s) else None
  }

  // version_set.cc:360: the file that the binary search finds, if it begins soon enough.
  method SearchLevel(files: seq<File>, k: UserKey, s: nat) returns (r: Option<Entry>)
    ensures r == LevelAnswer(files, k, s)
    ensures Disjoint(files) ==> if r.Some? then IsNewest(LevelEntries(files), k, s, r.value) else NoMatch(LevelEntries(files), k, s)
  {
    var index := FindFile(files, SeekKey(k, s));
    if Disjoint(files) {
      LevelSearch(files, k, s, index);
    }
    r := None;
    if index < |files| && k >= Smallest(files[index]).user {
      r := FileSearch(files[index], k, s);
    }
  }

  // version_set.cc:326. NotFound covers both a missing key and a deletion.
  method VersionGet(v: Version, k: UserKey, s: nat) returns (r: Option<string>)
    requires VersionValid(v) && UniqueSeq(VersionEntries(v))
    ensures r == Get(VersionEntries(v), k, s)
  {
    for level := 0 to NUM_LEVELS
      invariant forall l :: 0 <= l < level ==> NoMatch(LevelEntries(v[l]), k, s)
    {
      var found: Option<Entry> := None;
      if level == 0 {
        found := SearchLevel0(v, k, s);
        if found.Some? {
          return Answer(found);
        }
      } else {
        found := SearchLevel(v[level], k, s);
        if found.Some? {
          FoundInLevel(v, k, s, level, found.value);
          return Answer(found);
        }
      }
    }
    NoMatchInVersion(v, k, s);
    return None;
  }

  lemma NoMatchInVersion(v: Version, k: UserKey, s: nat)
    requires forall l :: 0 <= l < NUM_LEVELS ==> NoMatch(LevelEntries(v[l]), k, s)
    ensures NoMatch(VersionEntries(v), k, s)
  {
    forall x | x in VersionEntries(v)
      ensures !Matches(x, k, s)
    {
      var l, g :| 0 <= l < NUM_LEVELS && g in v[l] && x in g.entries;
      assert x in LevelEntries(v[l]);
    }
  }
}
