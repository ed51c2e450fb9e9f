/**
 The hash table of the cache (util/cache.cc:69): buckets of handles chained through the
 handles themselves, doubled when they get crowded. Whatever the buckets, it is a map from
 names to handles.
 */
module HandleTable {
  import opened Coding

  // A handle; no handle is 0.
  type Ref = nat
  const NIL: Ref := 0

  // What a handle is found by: a key and its hash.
  datatype Name = Name(key: seq<Byte>, hash: nat)

  // A place where a handle is stored: a bucket, or the link of another handle.
  datatype Place = Bucket(i: nat) | Link(h: Ref)

  /* ---- chains ---- */

  function Head(c: seq<Ref>, i: nat): Ref {
    if i < |c| then c[i] else NIL
  }

  // The links lead through these handles to the end.
  ghost predicate Chained(c: seq<Ref>, link: map<Ref, Ref>) {
    forall i :: 0 <= i < |c| ==> ChainedAt(c, link, i)
  }

  ghost predicate ChainedAt(c: seq<Ref>, link: map<Ref, Ref>, k: nat)
    requires k < |c|
  {
    c[k] != NIL && c[k] in link && link[c[k]] == Head(c, k + 1)
  }

  ghost predicate Distinct(c: seq<Ref>) {
    forall i, j :: 0 <= i < j < |c| ==> c[i] != c[j]
  }

  // The handles of a bucket: chained, and all of one residue.
  ghost predicate BucketOk(list: seq<Ref>, link: map<Ref, Ref>, names: map<Ref, Name>, chains: seq<seq<Ref>>, b: nat)
    requires b < |list| == |chains|
  {
    && list[b] == Head(chains[b], 0) && Chained(chains[b], link) && Distinct(chains[b])
    && forall h :: h in chains[b] ==> h in names && names[h].hash % |list| == b
  }

  ghost predicate BucketsOk(list: seq<Ref>, link: map<Ref, Ref>, names: map<Ref, Name>, chains: seq<seq<Ref>>) {
    |list| == |chains| > 0 && forall b :: 0 <= b < |chains| ==> BucketOk(list, link, names, chains, b)
  }

  // The map that the chains hold.
  ghost predicate Holds(names: map<Ref, Name>, chains: seq<seq<Ref>>, contents: map<Name, Ref>) {
    && |chains| > 0
    && (forall n :: n in contents ==> InChain(names, chains, n, contents[n]))
    && (forall b, h :: 0 <= b < |chains| && h in chains[b] ==> Known(names, contents, h))
  }

  ghost predicate InChain(names: map<Ref, Name>, chains: seq<seq<Ref>>, n: Name, h: Ref)
    requires |chains| > 0
  {
    h in chains[n.hash % |chains|] && h in names && names[h] == n
  }

  ghost predicate Known(names: map<Ref, Name>, contents: map<Name, Ref>, h: Ref) {
    h in names && names[h] in contents && contents[names[h]] == h
  }

  /* ---- splicing ---- */

  // A chain in which at most one handle replaces those from i to j.
  function Spliced(c: seq<Ref>, i: nat, j: nat, mid: seq<Ref>): seq<Ref>
    requires i <= j <= |c|
  {
    c[..i] + mid + c[j..]
  }

  // The links after the new handle points to the rest and its predecessor to it.
  function SplicedLink(link: map<Ref, Ref>, c: seq<Ref>, i: nat, j: nat, mid: seq<Ref>): map<Ref, Ref>
    requires i <= j <= |c|
  {
    var base := if mid == [] then link else link[mid[0] := Head(c, j)];
    if i == 0 then base else base[c[i - 1] := Head(mid + c[j..], 0)]
  }

  lemma SpliceChain(c: seq<Ref>, link: map<Ref, Ref>, i: nat, j: nat, mid: seq<Ref>)
    requires Chained(c, link) && Distinct(c) && i <= j <= |c| && |mid| <= 1
    requires forall h :: h in mid ==> h != NIL && h !in c
    ensures Chained(Spliced(c, i, j, mid), SplicedLink(link, c, i, j, mid)) && Distinct(Spliced(c, i, j, mid))
  {
    forall k | 0 <= k < |Spliced(c, i, j, mid)|
      ensures ChainedAt(Spliced(c, i, j, mid), SplicedLink(link, c, i, j, mid), k)
    {
      SpliceAt(c, link, i, j, mid, k);
    }
    SpliceDistinct(c, i, j, mid);
  }

  lemma OneLess(contents: map<Name, Ref>, n: Name)
    requires n in contents
    ensures |contents - {n}| == |contents| - 1
  {
    assert contents == (contents - {n})[n := contents[n]];
  }

  lemma SplicedSet(link: map<Ref, Ref>, c: seq<Ref>, i: nat, j: nat, h: Ref)
    requires i <= j <= |c|
    ensures SplicedLink(link, c, i, j, [h]) ==
      if i == 0 then link[h := Head(c, j)] else link[h := Head(c, j)][c[i - 1] := h]
  {
  }

  lemma SplicedUnset(link: map<Ref, Ref>, c: seq<Ref>, i: nat, j: nat)
    requires i <= j <= |c|
    ensures SplicedLink(link, c, i, j, []) == if i == 0 then link else link[c[i - 1] := Head(c, j)]
    ensures Head([] + c[j..], 0) == Head(c, j)
  {
  }

  lemma SpliceDistinct(c: seq<Ref>, i: nat, j: nat, mid: seq<Ref>)
    requires Distinct(c) && i <= j <= |c| && |mid| <= 1 && forall h :: h in mid ==> h !in c
    ensures Distinct(Spliced(c, i, j, mid))
  {
    var s, m := Spliced(c, i, j, mid), |mid|;
    forall p, q | 0 <= p < q < |s|
      ensures s[p] != s[q]
    {
      Origin(c, i, j, mid, p);
      Origin(c, i, j, mid, q);
    }
  }

  // Where the handles of a spliced chain come from.
  lemma Origin(c: seq<Ref>, i: nat, j: nat, mid: seq<Ref>, k: nat)
    requires i <= j <= |c| && |mid| <= 1 && k < |Spliced(c, i, j, mid)|
    ensures var s := Spliced(c, i, j, mid);
      && (k < i ==> s[k] == c[k] && c[k] in c)
      && (i <= k < i + |mid| ==> s[k] == mid[0] && mid[0] in mid)
      && (i + |mid| <= k ==> s[k] == c[k - i - |mid| + j] && c[k - i - |mid| + j] in c)
  {
  }

  lemma SpliceAt(c: seq<Ref>, link: map<Ref, Ref>, i: nat, j: nat, mid: seq<Ref>, k: nat)
    requires Chained(c, link) && Distinct(c) && i <= j <= |c| && |mid| <= 1
    requires forall h :: h in mid ==> h != NIL && h !in c
    requires k < |Spliced(c, i, j, mid)|
    ensures ChainedAt(Spliced(c, i, j, mid), SplicedLink(link, c, i, j, mid), k)
  {
    if k < i {
      SpliceFront(c, link, i, j, mid, k);
    } else if k < i + |mid| {
      SpliceMiddle(c, link, i, j, mid, k);
    } else {
      SpliceBack(c, link, i, j, mid, k);
    }
  }

  lemma SpliceFront(c: seq<Ref>, link: map<Ref, Ref>, i: nat, j: nat, mid: seq<Ref>, k: nat)
    requires Chained(c, link) && Distinct(c) && k < i <= j <= |c| && |mid| <= 1 && forall h :: h in mid ==> h !in c
    ensures ChainedAt(Spliced(c, i, j, mid), SplicedLink(link, c, i, j, mid), k)
  {
    hide SplicedLink;
    assert ChainedAt(c, link, k);
    assert k < i - 1 ==> c[k] != c[i - 1];
    Origin(c, i, j, mid, k);
    assert mid != [] ==> mid[0] in mid && c[k] != mid[0];
    hide Chained, Distinct;
    After(c, i, j, mid, k);
    LinkOf(link, c, i, j, mid, c[k]);
  }

  lemma SpliceMiddle(c: seq<Ref>, link: map<Ref, Ref>, i: nat, j: nat, mid: seq<Ref>, k: nat)
    requires i <= j <= |c| && |mid| <= 1 && i <= k < i + |mid| && forall h :: h in mid ==> h != NIL && h !in c
    ensures k < |Spliced(c, i, j, mid)| && ChainedAt(Spliced(c, i, j, mid), SplicedLink(link, c, i, j, mid), k)
  {
    hide SplicedLink;
    Origin(c, i, j, mid, k);
    assert i > 0 ==> c[i - 1] in c;
    After(c, i, j, mid, k);
    LinkOf(link, c, i, j, mid, mid[0]);
  }

  lemma SpliceBack(c: seq<Ref>, link: map<Ref, Ref>, i: nat, j: nat, mid: seq<Ref>, k: nat)
    requires Chained(c, link) && Distinct(c) && i <= j <= |c| && |mid| <= 1 && forall h :: h in mid ==> h !in c
    requires i + |mid| <= k < |Spliced(c, i, j, mid)|
    ensures ChainedAt(Spliced(c, i, j, mid), SplicedLink(link, c, i, j, mid), k)
  {
    hide SplicedLink;
    var q := k - i - |mid| + j;
    assert ChainedAt(c, link, q);
    assert i > 0 ==> c[i - 1] != c[q];
    Origin(c, i, j, mid, k);
    assert mid != [] ==> mid[0] in mid && c[q] != mid[0];
    hide Chained, Distinct;
    After(c, i, j, mid, k);
    LinkOf(link, c, i, j, mid, c[q]);
  }

  lemma LinkOf(link: map<Ref, Ref>, c: seq<Ref>, i: nat, j: nat, mid: seq<Ref>, x: Ref)
    requires i <= j <= |c| && |mid| <= 1
    ensures var l := SplicedLink(link, c, i, j, mid);
      if i > 0 && x == c[i - 1] then x in l && l[x] == Head(mid + c[j..], 0)
      else if mid != [] && x == mid[0] then x in l && l[x] == Head(c, j)
      else x in link ==> x in l && l[x] == link[x]
  {
  }

  // What comes after a handle of a spliced chain.
  lemma After(c: seq<Ref>, i: nat, j: nat, mid: seq<Ref>, k: nat)
    requires i <= j <= |c| && |mid| <= 1 && k < |Spliced(c, i, j, mid)|
    ensures var next := Head(Spliced(c, i, j, mid), k + 1);
      && (k + 1 < i ==> next == c[k + 1])
      && (k + 1 == i ==> next == Head(mid + c[j..], 0))
      && (i <= k < i + |mid| ==> next == Head(c, j))
      && (i + |mid| <= k ==> next == Head(c, k - i - |mid| + j + 1))
  {
  }

  lemma SpliceOther(d: seq<Ref>, link: map<Ref, Ref>, c: seq<Ref>, i: nat, j: nat, mid: seq<Ref>)
    requires Chained(d, link) && i <= j <= |c|
    requires forall h :: h in d ==> h !in c && h !in mid
    ensures Chained(d, SplicedLink(link, c, i, j, mid))
  {
    forall k | 0 <= k < |d|
      ensures ChainedAt(d, SplicedLink(link, c, i, j, mid), k)
    {
      assert ChainedAt(d, link, k) && d[k] in d;
      assert i > 0 ==> c[i - 1] in c;
    }
  }

  ghost predicate InNone(chains: seq<seq<Ref>>, h: Ref) {
    forall d :: 0 <= d < |chains| ==> h !in chains[d]
  }

  lemma SpliceBuckets(list: seq<Ref>, link: map<Ref, Ref>, names: map<Ref, Name>, names': map<Ref, Name>, chains: seq<seq<Ref>>,
      b: nat, i: nat, j: nat, mid: seq<Ref>)
    requires BucketsOk(list, link, names, chains) && b < |chains| && i <= j <= |chains[b]| && |mid| <= 1
    requires forall h :: h in mid ==> h != NIL && InNone(chains, h) && h in names' && names'[h].hash % |list| == b
    requires forall h :: h in names ==> h in names' && names'[h] == names[h]
    ensures BucketsOk(if i == 0 then list[b := Head(mid + chains[b][j..], 0)] else list, SplicedLink(link, chains[b], i, j, mid),
      names', chains[b := Spliced(chains[b], i, j, mid)])
  {
    var c := chains[b];
    var list' := if i == 0 then list[b := Head(mid + c[j..], 0)] else list;
    var link' := SplicedLink(link, c, i, j, mid);
    var chains' := chains[b := Spliced(c, i, j, mid)];
    assert BucketOk(list, link, names, chains, b);
    forall d | 0 <= d < |chains'|
      ensures BucketOk(list', link', names', chains', d)
    {
      assert BucketOk(list, link, names, chains, d);
      if d == b {
        SpliceChain(c, link, i, j, mid);
      } else {
        SpliceOther(chains[d], link, c, i, j, mid);
      }
    }
  }

  lemma Members(c: seq<Ref>, i: nat, j: nat, mid: seq<Ref>, x: Ref)
    requires i <= j <= |c|
    ensures x in Spliced(c, i, j, mid) <==> x in c[..i] || x in mid || x in c[j..]
  {
  }

  // Handles are in the buckets of their hashes.
  ghost predicate Filed(names: map<Ref, Name>, chains: seq<seq<Ref>>)
    requires |chains| > 0
  {
    forall b, h :: 0 <= b < |chains| && h in chains[b] ==> h in names && names[h].hash % |chains| == b
  }

  lemma BucketsFiled(list: seq<Ref>, link: map<Ref, Ref>, names: map<Ref, Name>, chains: seq<seq<Ref>>)
    requires BucketsOk(list, link, names, chains)
    ensures Filed(names, chains)
  {
    forall b, h | 0 <= b < |chains| && h in chains[b]
      ensures h in names && names[h].hash % |chains| == b
    {
      assert BucketOk(list, link, names, chains, b);
    }
  }

  // At most the handle with the name makes way for a new one, or for none.
  lemma SpliceHolds(names: map<Ref, Name>, names': map<Ref, Name>, chains: seq<seq<Ref>>, contents: map<Name, Ref>, n: Name,
      i: nat, j: nat, mid: seq<Ref>)
    requires Holds(names, chains, contents) && Filed(names, chains) && Distinct(chains[n.hash % |chains|]) && i <= j <= |chains[n.hash % |chains|]|
    requires if n in contents then j == i + 1 && chains[n.hash % |chains|][i] == contents[n] else j == i
    requires |mid| <= 1 && forall h :: h in mid ==> InNone(chains, h) && h in names' && names'[h] == n
    requires forall h :: h in names ==> h in names' && names'[h] == names[h]
    ensures Holds(names', chains[n.hash % |chains| := Spliced(chains[n.hash % |chains|], i, j, mid)],
      if mid == [] then contents - {n} else contents[n := mid[0]])
  {
    var b := n.hash % |chains|;
    var c := chains[b];
    var chains' := chains[b := Spliced(c, i, j, mid)];
    var contents' := if mid == [] then contents - {n} else contents[n := mid[0]];
    forall m | m in contents'
      ensures InChain(names', chains', m, contents'[m])
    {
      if m == n {
        assert mid[0] in mid;
      } else {
        assert InChain(names, chains, m, contents[m]);
        StaysIn(names, chains, contents, n, i, j, mid, contents[m]);
      }
    }
    forall d, h | 0 <= d < |chains'| && h in chains'[d]
      ensures Known(names', contents', h)
    {
      if h !in mid {
        CameFrom(chains, b, i, j, mid, d, h);
        assert Known(names, contents, h);
      }
    }
  }

  lemma StaysIn(names: map<Ref, Name>, chains: seq<seq<Ref>>, contents: map<Name, Ref>, n: Name, i: nat, j: nat, mid: seq<Ref>, h: Ref)
    requires Holds(names, chains, contents) && i <= j <= |chains[n.hash % |chains|]|
    requires if n in contents then j == i + 1 && chains[n.hash % |chains|][i] == contents[n] else j == i
    requires h in names && names[h] != n && h in chains[names[h].hash % |chains|]
    ensures var b := n.hash % |chains|;
      h in chains[b := Spliced(chains[b], i, j, mid)][names[h].hash % |chains|]
  {
    var b := n.hash % |chains|;
    if names[h].hash % |chains| == b {
      var k :| 0 <= k < |chains[b]| && chains[b][k] == h;
      if n in contents {
        assert InChain(names, chains, n, contents[n]);
      }
      assert k < i || k >= j;
      assert k < i ==> chains[b][..i][k] == h;
      assert k >= j ==> chains[b][j..][k - j] == h;
      Members(chains[b], i, j, mid, h);
    }
  }

  lemma CameFrom(chains: seq<seq<Ref>>, b: nat, i: nat, j: nat, mid: seq<Ref>, d: nat, h: Ref)
    requires b < |chains| && i <= j <= |chains[b]| && d < |chains| && h !in mid
    requires h in chains[b := Spliced(chains[b], i, j, mid)][d]
    ensures h in chains[d]
    ensures d == b && j == i + 1 && Distinct(chains[b]) ==> h != chains[b][i]
  {
    if d == b {
      Members(chains[b], i, j, mid, h);
    }
  }

  /* ---- rehashing ---- */

  // While handles move to new buckets: what has moved, what is left of bucket i, and the
  // buckets after it.
  ghost predicate Rehashing(link: map<Ref, Ref>, names: map<Ref, Name>, contents: map<Name, Ref>, old': seq<seq<Ref>>,
      i: nat, rest: seq<Ref>, list: seq<Ref>, chains: seq<seq<Ref>>, moved: map<Name, Ref>) {
    && BucketsOk(list, link, names, chains) && Holds(names, chains, moved)
    && Left(link, old', i, rest) && Covers(contents, |old'|, i, rest, moved)
  }

  ghost predicate Left(link: map<Ref, Ref>, old': seq<seq<Ref>>, i: nat, rest: seq<Ref>) {
    && i <= |old'| && Chained(rest, link) && Distinct(rest) && (forall h :: h in rest ==> i < |old'| && h in old'[i])
    && forall k :: i < k < |old'| ==> Chained(old'[k], link)
  }

  ghost predicate Covers(contents: map<Name, Ref>, size: nat, i: nat, rest: seq<Ref>, moved: map<Name, Ref>) {
    && size > 0
    && (forall n :: n in moved ==> n in contents && moved[n] == contents[n] && moved[n] !in rest && n.hash % size <= i)
    && forall n :: n in contents ==> n in moved || n.hash % size > i || contents[n] in rest
  }

  // A handle moves to the front of its new bucket.
  lemma MoveOne(link: map<Ref, Ref>, names: map<Ref, Name>, contents: map<Name, Ref>, old': seq<seq<Ref>>,
      i: nat, rest: seq<Ref>, list: seq<Ref>, chains: seq<seq<Ref>>, moved: map<Name, Ref>)
    requires Rehashing(link, names, contents, old', i, rest, list, chains, moved) && rest != []
    requires |old'| > 0 && Holds(names, old', contents) && Filed(names, old')
    ensures rest[0] != NIL && rest[0] in link && rest[0] in names && link[rest[0]] == Head(rest, 1)
    ensures |list| == |chains| > 0
    ensures var h, n := rest[0], names[rest[0]];
      var b := n.hash % |list|;
      Rehashing(link[h := list[b]], names, contents, old', i, rest[1..], list[b := h], chains[b := [h] + chains[b]], moved[n := h])
  {
    hide BucketsOk, Holds, Left, Covers, Filed, Known, InNone, Spliced, SplicedLink, Distinct;
    FirstLeft(link, names, contents, old', i, rest, list, chains, moved);
    var h, n := rest[0], names[rest[0]];
    BucketsPresent(list, link, names, chains);
    var b := n.hash % |list|;
    SpliceBuckets(list, link, names, names, chains, b, 0, 0, [h]);
    BucketsFiled(list, link, names, chains);
    BucketDistinct(list, link, names, chains, b);
    SpliceHolds(names, names, chains, moved, n, 0, 0, [h]);
    SplicedSet(link, chains[b], 0, 0, h);
    PutInFront(chains[b], h);
    LeftOne(link, names, old', i, rest, list[b]);
    CoversOne(names, contents, |old'|, i, rest, moved);
  }

  lemma PutInFront(c: seq<Ref>, h: Ref)
    ensures Spliced(c, 0, 0, [h]) == [h] + c && Head([h] + c[0..], 0) == h
  {
  }

  lemma BucketsPresent(list: seq<Ref>, link: map<Ref, Ref>, names: map<Ref, Name>, chains: seq<seq<Ref>>)
    requires BucketsOk(list, link, names, chains)
    ensures |list| == |chains| > 0
  {
  }

  lemma BucketDistinct(list: seq<Ref>, link: map<Ref, Ref>, names: map<Ref, Name>, chains: seq<seq<Ref>>, b: nat)
    requires BucketsOk(list, link, names, chains) && b < |chains|
    ensures Distinct(chains[b]) && list[b] == Head(chains[b], 0)
  {
    assert BucketOk(list, link, names, chains, b);
  }

  // The first handle that is left has not moved.
  lemma FirstLeft(link: map<Ref, Ref>, names: map<Ref, Name>, contents: map<Name, Ref>, old': seq<seq<Ref>>,
      i: nat, rest: seq<Ref>, list: seq<Ref>, chains: seq<seq<Ref>>, moved: map<Name, Ref>)
    requires Rehashing(link, names, contents, old', i, rest, list, chains, moved) && rest != []
    requires |old'| > 0 && Holds(names, old', contents) && Filed(names, old')
    ensures rest[0] != NIL && rest[0] in link && rest[0] in names && link[rest[0]] == Head(rest, 1)
    ensures Known(names, contents, rest[0]) && names[rest[0]].hash % |old'| == i && Distinct(rest)
    ensures InNone(chains, rest[0]) && names[rest[0]] !in moved
    ensures forall m :: m in contents ==> contents[m] in names && names[contents[m]] == m
  {
    hide BucketsOk;
    var h := rest[0];
    assert ChainedAt(rest, link, 0);
    assert h in rest && h in old'[i] && Known(names, contents, h);
    NotMoved(names, contents, |old'|, i, rest, chains, moved, h);
    forall m | m in contents
      ensures contents[m] in names && names[contents[m]] == m
    {
      assert InChain(names, old', m, contents[m]);
    }
  }

  lemma NotMoved(names: map<Ref, Name>, contents: map<Name, Ref>, size: nat, i: nat, rest: seq<Ref>, chains: seq<seq<Ref>>,
      moved: map<Name, Ref>, h: Ref)
    requires Covers(contents, size, i, rest, moved) && Holds(names, chains, moved)
    requires h in rest && Known(names, contents, h)
    ensures InNone(chains, h) && names[h] !in moved
  {
    forall d | 0 <= d < |chains|
      ensures h !in chains[d]
    {
      HoldsKnown(names, chains, moved, d, h);
    }
  }

  lemma HoldsKnown(names: map<Ref, Name>, chains: seq<seq<Ref>>, contents: map<Name, Ref>, d: nat, h: Ref)
    requires Holds(names, chains, contents) && d < |chains|
    ensures h in chains[d] ==> Known(names, contents, h)
  {
  }

  lemma InOneBucket(names: map<Ref, Name>, chains: seq<seq<Ref>>, h: Ref, i: nat, k: nat)
    requires |chains| > 0 && Filed(names, chains) && i < |chains| && k < |chains| && i != k && h in chains[i]
    ensures h !in chains[k]
  {
    assert names[h].hash % |chains| == i;
    hide Filed;
    FiledAt(names, chains, h, k);
  }

  lemma FiledAt(names: map<Ref, Name>, chains: seq<seq<Ref>>, h: Ref, k: nat)
    requires |chains| > 0 && Filed(names, chains) && k < |chains|
    ensures h in chains[k] ==> h in names && names[h].hash % |chains| == k
  {
  }

  lemma LeftOne(link: map<Ref, Ref>, names: map<Ref, Name>, old': seq<seq<Ref>>, i: nat, rest: seq<Ref>, to: Ref)
    requires Left(link, old', i, rest) && rest != [] && |old'| > 0 && Filed(names, old')
    ensures Left(link[rest[0] := to], old', i, rest[1..])
  {
    var h := rest[0];
    assert h in rest && h in old'[i];
    KeepsChain(link, rest, rest[1..], 1, h, link[h := to]);
    forall k | i < k < |old'|
      ensures Chained(old'[k], link[h := to])
    {
      InOneBucket(names, old', h, i, k);
      KeepsChain(link, old'[k], old'[k], 0, h, link[h := to]);
    }
    forall g | g in rest[1..]
      ensures g in old'[i]
    {
      assert g in rest;
    }
  }

  lemma KeepsChain(link: map<Ref, Ref>, c: seq<Ref>, d: seq<Ref>, from: nat, h: Ref, link': map<Ref, Ref>)
    requires Chained(c, link) && from <= |c| && d == c[from..] && h !in d
    requires forall g :: g in link && g != h ==> g in link' && link'[g] == link[g]
    ensures Chained(d, link')
  {
    forall k | 0 <= k < |d|
      ensures ChainedAt(d, link', k)
    {
      assert ChainedAt(c, link, from + k) && d[k] == c[from + k] && d[k] in d;
    }
  }

  lemma CoversOne(names: map<Ref, Name>, contents: map<Name, Ref>, size: nat, i: nat, rest: seq<Ref>, moved: map<Name, Ref>)
    requires Covers(contents, size, i, rest, moved) && Distinct(rest) && rest != []
    requires Known(names, contents, rest[0]) && names[rest[0]].hash % size == i
    requires forall m :: m in contents ==> contents[m] in names && names[contents[m]] == m
    ensures Covers(contents, size, i, rest[1..], moved[names[rest[0]] := rest[0]])
  {
    var h, n := rest[0], names[rest[0]];
    forall m | m in contents
      ensures m in moved[n := h] || m.hash % size > i || contents[m] in rest[1..]
    {
      if m != n && contents[m] in rest {
        var k :| 0 <= k < |rest| && rest[k] == contents[m];
        assert k > 0;
        assert rest[1..][k - 1] == contents[m];
      }
    }
  }

  // With nothing left of a bucket, the next one is due.
  lemma NextBucket(link: map<Ref, Ref>, names: map<Ref, Name>, contents: map<Name, Ref>, old': seq<seq<Ref>>,
      i: nat, list: seq<Ref>, chains: seq<seq<Ref>>, moved: map<Name, Ref>)
    requires Rehashing(link, names, contents, old', i, [], list, chains, moved) && i < |old'|
    requires Holds(names, old', contents) && Filed(names, old') && (forall k :: 0 <= k < |old'| ==> Distinct(old'[k]))
    ensures Rehashing(link, names, contents, old', i + 1, if i + 1 < |old'| then old'[i + 1] else [], list, chains, moved)
  {
    var next := if i + 1 < |old'| then old'[i + 1] else [];
    forall n | n in moved
      ensures moved[n] !in next
    {
      assert InChain(names, old', n, contents[n]);
    }
    forall n | n in contents
      ensures n in moved || n.hash % |old'| > i + 1 || contents[n] in next
    {
      assert InChain(names, old', n, contents[n]);
    }
  }

  lemma NoneLeft(link: map<Ref, Ref>, names: map<Ref, Name>, contents: map<Name, Ref>, old': seq<seq<Ref>>,
      i: nat, rest: seq<Ref>, list: seq<Ref>, chains: seq<seq<Ref>>, moved: map<Name, Ref>)
    requires Rehashing(link, names, contents, old', i, rest, list, chains, moved) && Head(rest, 0) == NIL
    ensures rest == []
  {
    assert rest != [] ==> ChainedAt(rest, link, 0);
  }

  lemma AllMoved(link: map<Ref, Ref>, names: map<Ref, Name>, contents: map<Name, Ref>, old': seq<seq<Ref>>,
      list: seq<Ref>, chains: seq<seq<Ref>>, moved: map<Name, Ref>)
    requires Rehashing(link, names, contents, old', |old'|, [], list, chains, moved)
    ensures |list| == |chains| > 0 && BucketsOk(list, link, names, chains) && Holds(names, chains, contents)
  {
    forall n | n in contents
      ensures n in moved
    {
      assert n.hash % |old'| < |old'|;
    }
    assert moved == contents;
  }

  lemma StartRehash(list0: seq<Ref>, link: map<Ref, Ref>, names: map<Ref, Name>, contents: map<Name, Ref>, old': seq<seq<Ref>>,
      list: seq<Ref>, chains: seq<seq<Ref>>)
    requires BucketsOk(list0, link, names, old') && Holds(names, old', contents)
    requires |list| == |chains| > 0 && (forall b :: 0 <= b < |list| ==> list[b] == NIL && chains[b] == [])
    ensures Rehashing(link, names, contents, old', 0, old'[0], list, chains, map[])
    ensures forall b :: 0 <= b < |old'| ==> Distinct(old'[b]) && list0[b] == Head(old'[b], 0)
  {
    forall b | 0 <= b < |old'|
      ensures Distinct(old'[b]) && Chained(old'[b], link) && list0[b] == Head(old'[b], 0)
    {
      assert BucketOk(list0, link, names, old', b);
    }
    forall n | n in contents
      ensures n.hash % |old'| > 0 || contents[n] in old'[0]
    {
      assert InChain(names, old', n, contents[n]);
    }
  }

  class HandleTable {
    var list: seq<Ref>
    var elems: nat
    var link: map<Ref, Ref>
    var names: map<Ref, Name>
    ghost var chains: seq<seq<Ref>>
    ghost var contents: map<Name, Ref>

    ghost predicate Valid()
      reads this
    {
      && |list| == |chains| > 0
      && BucketsOk(list, link, names, chains) && Holds(names, chains, contents) && elems == |contents|
    }

    // cache.cc:71
    constructor ()
      ensures Valid() && contents == map[] && names == map[]
    {
      list, elems, link, names := [NIL, NIL, NIL, NIL], 0, map[], map[];
      chains, contents := [[], [], [], []], map[];
    }

    // What is stored at a place.
    function At(p: Place): Ref
      requires match p case Bucket(i) => i < |list| case Link(h) => h in link
      reads this
    {
      match p
      case Bucket(i) => list[i]
      case Link(h) => link[h]
    }

    // Where position i of a bucket is stored.
    ghost function PlaceOf(b: nat, i: nat): Place
      requires b < |chains| && i <= |chains[b]|
      reads this
    {
      if i == 0 then Bucket(b) else Link(chains[b][i - 1])
    }

    // What is in a bucket, and where.
    lemma Stored(b: nat, i: nat)
      requires Valid() && b < |chains| && i <= |chains[b]|
      ensures Distinct(chains[b]) && list[b] == Head(chains[b], 0) && (i > 0 ==> chains[b][i - 1] in link && chains[b][i - 1] in names)
      ensures i < |chains[b]| ==> chains[b][i] != NIL && chains[b][i] in link && chains[b][i] in names && link[chains[b][i]] == Head(chains[b], i + 1)
    {
      assert BucketOk(list, link, names, chains, b);
      assert i > 0 ==> ChainedAt(chains[b], link, i - 1) && chains[b][i - 1] in chains[b];
      assert i < |chains[b]| ==> ChainedAt(chains[b], link, i) && chains[b][i] in chains[b];
    }

    // Where the handle with a name is.
    lemma Located(n: Name, i: nat)
      requires Valid() && i <= |chains[n.hash % |list|]|
      requires forall j :: 0 <= j < i ==> Other(chains[n.hash % |list|][j], n)
      requires i < |chains[n.hash % |list|]| ==> !Other(chains[n.hash % |list|][i], n)
      ensures if n in contents then i < |chains[n.hash % |list|]| && chains[n.hash % |list|][i] == contents[n]
        else i == |chains[n.hash % |list|]|
    {
      var c := chains[n.hash % |list|];
      hide BucketsOk;
      if n in contents {
        assert InChain(names, chains, n, contents[n]);
      }
      if i < |c| {
        HoldsKnown(names, chains, contents, n.hash % |list|, c[i]);
      }
    }

    ghost predicate Other(h: Ref, n: Name)
      reads this
    {
      h in names ==> names[h] != n
    }

    // cache.cc:114: the place of the handle with a name, or the end of its bucket.
    method FindPointer(n: Name) returns (p: Place, ghost i: nat)
      requires Valid()
      ensures i <= |chains[n.hash % |list|]| && p == PlaceOf(n.hash % |list|, i)
      ensures if n in contents then i < |chains[n.hash % |list|]| && chains[n.hash % |list|][i] == contents[n]
        else i == |chains[n.hash % |list|]|
      ensures (match p case Bucket(b) => b < |list| case Link(h) => h in link) && At(p) == Head(chains[n.hash % |list|], i)
    {
      hide BucketsOk, Holds;
      var b := n.hash % |list|;
      p, i := Bucket(b), 0;
      ghost var c := chains[b];
      Stored(b, 0);
      var h := list[b];
      while h != NIL && names[h] != n
        invariant i <= |c| && p == PlaceOf(b, i) && h == Head(c, i) && (h != NIL ==> h in names && h in link)
        invariant (match p case Bucket(d) => d < |list| case Link(g) => g in link) && At(p) == h
        invariant forall j :: 0 <= j < i ==> Other(c[j], n)
        decreases |c| - i
      {
        Stored(b, i);
        p := Link(h);
        h := link[h];
        i := i + 1;
        Stored(b, i);
      }
      Stored(b, i);
      Located(n, i);
    }

    // cache.cc:74
    method Lookup(n: Name) returns (h: Ref)
      requires Valid()
      ensures h == if n in contents then contents[n] else NIL
      ensures n in contents ==> h != NIL
    {
      hide BucketsOk, Holds;
      var p, i := FindPointer(n);
      h := At(p);
      Stored(n.hash % |list|, i);
    }

    // Store a handle at a place.
    method Set(p: Place, h: Ref)
      requires match p case Bucket(b) => b < |list| case Link(g) => g in link
      modifies `list, `link
      ensures match p
        case Bucket(b) => b < |old(list)| && list == old(list)[b := h] && link == old(link)
        case Link(g) => list == old(list) && link == old(link)[g := h]
    {
      match p
      case Bucket(b) => list := list[b := h];
      case Link(g) => link := link[g := h];
    }

    lemma NotInChains(h: Ref)
      requires Valid() && h !in names
      ensures InNone(chains, h)
    {
      forall d | 0 <= d < |chains|
        ensures h !in chains[d]
      {
        assert BucketOk(list, link, names, chains, d);
      }
    }

    // cache.cc:78: a handle takes the place of the one with its name.
    method Insert(h: Ref, n: Name) returns (replaced: Ref)
      requires Valid() && h != NIL && h !in names
      modifies this
      ensures Valid() && contents == old(contents)[n := h] && names == old(names)[h := n]
      ensures replaced == if n in old(contents) then old(contents)[n] else NIL
    {
      hide BucketsOk, Holds, Spliced, SplicedLink, InNone, Filed, Distinct, Chained;
      var p, i := FindPointer(n);
      ghost var b := n.hash % |list|;
      replaced := At(p);
      Stored(b, i);
      var rest := if replaced == NIL then NIL else link[replaced];
      ghost var c, j := chains[b], if n in contents then i + 1 else i;
      NotInChains(h);
      SpliceBuckets(list, link, names, names[h := n], chains, b, i, j, [h]);
      BucketsFiled(list, link, names, chains);
      SpliceHolds(names, names[h := n], chains, contents, n, i, j, [h]);
      SplicedSet(link, c, i, j, h);
      link := link[h := rest];
      Set(p, h);
      names := names[h := n];
      chains := chains[b := Spliced(c, i, j, [h])];
      contents := contents[n := h];
      if replaced == NIL {
        elems := elems + 1;
        if elems > |list| {
          Resize();
        }
      }
    }

    // cache.cc:94
    method Remove(n: Name) returns (removed: Ref)
      requires Valid()
      modifies this
      ensures Valid() && contents == old(contents) - {n} && names == old(names)
      ensures removed == if n in old(contents) then old(contents)[n] else NIL
    {
      hide BucketsOk, Holds, Spliced, SplicedLink, InNone, Filed, Distinct, Chained;
      var p, i := FindPointer(n);
      ghost var b := n.hash % |list|;
      removed := At(p);
      Stored(b, i);
      if removed != NIL {
        ghost var c := chains[b];
        SpliceBuckets(list, link, names, names, chains, b, i, i + 1, []);
        BucketsFiled(list, link, names, chains);
        SpliceHolds(names, names, chains, contents, n, i, i + 1, []);
        SplicedUnset(link, c, i, i + 1);
        var rest := link[removed];
        Set(p, rest);
        chains := chains[b := Spliced(c, i, i + 1, [])];
        OneLess(contents, n);
        contents := contents - {n};
        elems := elems - 1;
      } else {
        assert contents - {n} == contents;
      }
    }

    // cache.cc:122: twice as many buckets until there is one for every handle.
    method Resize()
      requires Valid()
      modifies `list, `link, `chains
      ensures Valid() && 4 <= |list| && elems <= |list|
    {
      hide Rehashing, Holds, Filed, BucketsOk, Chained, Distinct;
      var newLength := NewLength();
      var newList: seq<Ref> := seq(newLength, _ => NIL);
      ghost var newChains: seq<seq<Ref>>, moved: map<Name, Ref> := seq(newLength, _ => []), map[];
      BucketsFiled(list, link, names, chains);
      StartRehash(list, link, names, contents, chains, newList, newChains);
      for i := 0 to |list|
        invariant Rehashing(link, names, contents, chains, i, if i < |chains| then chains[i] else [], newList, newChains, moved)
        invariant |newList| == newLength && list == old(list) && chains == old(chains)
      {
        link, newList, newChains, moved := MoveBucket(link, i, newList, newChains, moved);
        NextBucket(link, names, contents, chains, i, newList, newChains, moved);
      }
      AllMoved(link, names, contents, chains, newList, newChains, moved);
      list := newList;
      chains := newChains;
    }

    method NewLength() returns (n: nat)
      ensures 4 <= n && elems <= n
    {
      n := 4;
      while n < elems
        invariant n >= 4
      {
        n := n * 2;
      }
    }

    // cache.cc:131: the handles of one bucket go to their new buckets.
    method MoveBucket(link0: map<Ref, Ref>, i: nat, list0: seq<Ref>, ghost chains0: seq<seq<Ref>>, ghost moved0: map<Name, Ref>)
      returns (link': map<Ref, Ref>, list': seq<Ref>, ghost chains': seq<seq<Ref>>, ghost moved': map<Name, Ref>)
      requires i < |list| == |chains| && list[i] == Head(chains[i], 0)
      requires Rehashing(link0, names, contents, chains, i, chains[i], list0, chains0, moved0)
      requires Holds(names, chains, contents) && Filed(names, chains)
      ensures Rehashing(link', names, contents, chains, i, [], list', chains', moved') && |list'| == |list0|
    {
      hide Rehashing, Holds, Filed;
      link', list', chains', moved' := link0, list0, chains0, moved0;
      var h := list[i];
      ghost var rest := chains[i];
      while h != NIL
        invariant Rehashing(link', names, contents, chains, i, rest, list', chains', moved')
        invariant h == Head(rest, 0) && |list'| == |list0|
        decreases |rest|
      {
        MoveOne(link', names, contents, chains, i, rest, list', chains', moved');
        var next := link'[h];
        var b := names[h].hash % |list'|;
        moved' := moved'[names[h] := h];
        chains' := chains'[b := [h] + chains'[b]];
        link' := link'[h := list'[b]];
        list' := list'[b := h];
        h := next;
        rest := rest[1..];
      }
      NoneLeft(link', names, contents, chains, i, rest, list', chains', moved');
    }
  }
}
