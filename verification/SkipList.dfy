/**
 The skip list under the memtable (db/skiplist.h). Nodes live in an arena and are named by
 their index; node 0 is the head. Insertion is a series of single stores. After each of
 them every level is a sorted list and a part of the level below, so a search run then is
 answered for the entries of the lowest level: those before the insertion until the store
 that links the new node there, those after it from then on.
 */
module SkipList {
  import opened Keys

  // skiplist.h:102
  const MAX_HEIGHT := 12
  const NIL := -1
  const HEAD := 0

  // The keys of a list of nodes.
  function KeysOf(keys: seq<Entry>, nodes: seq<nat>): (r: seq<Entry>)
    requires forall k :: 0 <= k < |nodes| ==> nodes[k] < |keys|
    ensures |r| == |nodes| && forall k :: 0 <= k < |nodes| ==> r[k] == keys[nodes[k]]
  {
    if nodes == [] then [] else KeysOf(keys, nodes[..|nodes| - 1]) + [keys[nodes[|nodes| - 1]]]
  }

  // The node before position k of a list.
  function NodeBefore(nodes: seq<nat>, k: nat): nat
    requires k <= |nodes|
  {
    if k == 0 then HEAD else nodes[k - 1]
  }

  function NodeAt(nodes: seq<nat>, k: nat): int
    requires k <= |nodes|
  {
    if k == |nodes| then NIL else nodes[k]
  }

  function Inserted<T>(s: seq<T>, k: nat, x: T): seq<T>
    requires k <= |s|
  {
    s[..k] + [x] + s[k..]
  }

  // An arena of nodes: their keys and, for each, its links by level.
  datatype Arena = Arena(keys: seq<Entry>, next: seq<seq<int>>)

  // The nodes of one level, in order.
  ghost predicate LevelOk(a: Arena, nodes: seq<nat>, level: nat) {
    && |a.keys| == |a.next| && |a.next| > 0 && |a.next[HEAD]| > level
    && (forall k :: 0 <= k < |nodes| ==> 0 < nodes[k] < |a.keys| && |a.next[nodes[k]]| > level)
    && Sorted(KeysOf(a.keys, nodes))
    && forall k :: 0 <= k <= |nodes| ==> Link(a, nodes, level, k)
  }

  ghost predicate Link(a: Arena, nodes: seq<nat>, level: nat, k: nat)
    requires |a.keys| == |a.next| && |a.next| > 0 && |a.next[HEAD]| > level && k <= |nodes|
    requires forall k :: 0 <= k < |nodes| ==> 0 < nodes[k] < |a.keys| && |a.next[nodes[k]]| > level
  {
    a.next[NodeBefore(nodes, k)][level] == NodeAt(nodes, k)
  }

  // How many keys of a level are before the target.
  ghost function Rank(a: Arena, nodes: seq<nat>, target: InternalKey): nat
    requires forall k :: 0 <= k < |nodes| ==> nodes[k] < |a.keys|
  {
    LowerBound(KeysOf(a.keys, nodes), target)
  }

  lemma RankIs(a: Arena, nodes: seq<nat>, target: InternalKey, k: nat)
    requires forall k :: 0 <= k < |nodes| ==> nodes[k] < |a.keys|
    requires Sorted(KeysOf(a.keys, nodes)) && k <= |nodes|
    requires k > 0 ==> Less(a.keys[nodes[k - 1]].Ik(), target)
    requires k < |nodes| ==> !Less(a.keys[nodes[k]].Ik(), target)
    ensures Rank(a, nodes, target) == k
  {
    LowerBoundIs(KeysOf(a.keys, nodes), target, k);
  }

  lemma LowerBoundIs(es: seq<Entry>, target: InternalKey, k: nat)
    requires Sorted(es) && k <= |es|
    requires k > 0 ==> Less(es[k - 1].Ik(), target)
    requires k < |es| ==> !Less(es[k].Ik(), target)
    ensures LowerBound(es, target) == k
  {
    hide LowerBound;
    InOrder(es, LowerBound(es, target), k - 1);
    InOrder(es, k, LowerBound(es, target) - 1);
  }

  lemma InOrder(es: seq<Entry>, i: int, j: int)
    requires Sorted(es)
    ensures 0 <= i < j < |es| ==> Before(es[i], es[j])
  {
  }

  // Every level is a sorted list, and a part of the level below it.
  ghost predicate Shape(a: Arena, levels: seq<seq<nat>>, height: nat) {
    && |levels| == MAX_HEIGHT && 1 <= height <= MAX_HEIGHT
    && (forall i :: 0 <= i < MAX_HEIGHT ==> LevelOk(a, levels[i], i))
    && Nested(levels)
    && (forall i :: height <= i < MAX_HEIGHT ==> levels[i] == [])
  }

  ghost predicate Nested(levels: seq<seq<nat>>) {
    forall i :: 0 < i < |levels| ==> PartOf(levels[i], levels[i - 1])
  }

  ghost predicate PartOf(upper: seq<nat>, lower: seq<nat>) {
    forall k :: 0 <= k < |upper| ==> upper[k] in lower
  }

  lemma LinkAt(a: Arena, levels: seq<seq<nat>>, height: nat, level: nat, k: nat)
    requires Shape(a, levels, height) && level < MAX_HEIGHT && k <= |levels[level]|
    ensures |a.keys| == |a.next| && NodeBefore(levels[level], k) < |a.keys| && level < |a.next[NodeBefore(levels[level], k)]|
    ensures a.next[NodeBefore(levels[level], k)][level] == NodeAt(levels[level], k) < |a.keys|
    ensures NodeAt(levels[level], k) >= 0 <==> k < |levels[level]|
    ensures forall j :: 0 <= j < |levels[level]| ==> levels[level][j] < |a.keys|
    ensures Sorted(KeysOf(a.keys, levels[level]))
  {
    assert LevelOk(a, levels[level], level) && Link(a, levels[level], level, k);
  }

  // A node found on one level is on the level below as well.
  lemma Below(a: Arena, levels: seq<seq<nat>>, height: nat, level: nat, k: nat) returns (m: nat)
    requires Shape(a, levels, height) && level + 1 < MAX_HEIGHT && k <= |levels[level + 1]|
    ensures m <= |levels[level]| && NodeBefore(levels[level + 1], k) == NodeBefore(levels[level], m) && (m > 0 <==> k > 0)
  {
    m := 0;
    if k > 0 {
      var x := levels[level + 1][k - 1];
      assert PartOf(levels[level + 1], levels[level]) && x in levels[level];
      var j :| 0 <= j < |levels[level]| && levels[level][j] == x;
      m := j + 1;
    }
  }

  // Where the search for a target leaves a level.
  ghost predicate SearchedTo(a: Arena, nodes: seq<nat>, target: InternalKey, x: nat) {
    && (forall k :: 0 <= k < |nodes| ==> nodes[k] < |a.keys|)
    && x == NodeBefore(nodes, Rank(a, nodes, target))
  }

  // The node that a search for a target finds.
  ghost predicate Ranked(a: Arena, nodes: seq<nat>, target: InternalKey, node: int) {
    && (forall k :: 0 <= k < |nodes| ==> nodes[k] < |a.keys|)
    && node == NodeAt(nodes, Rank(a, nodes, target))
  }

  // The search has gone through the levels above one, leaving its track in prev.
  ghost predicate Searched(a: Arena, levels: seq<seq<nat>>, height: nat, target: InternalKey, prev: seq<nat>, level: int) {
    |prev| == height <= |levels| && forall i :: 0 <= i < height && level < i ==> SearchedTo(a, levels[i], target, prev[i])
  }

  lemma SearchEnds(a: Arena, levels: seq<seq<nat>>, height: nat, level: nat, target: InternalKey, k: nat, prev: seq<nat>)
    requires Shape(a, levels, height) && level < height && Searched(a, levels, height, target, prev, level) && k <= |levels[level]|
    requires k > 0 ==> NodeBefore(levels[level], k) < |a.keys| && Less(a.keys[NodeBefore(levels[level], k)].Ik(), target)
    requires k < |levels[level]| ==> levels[level][k] < |a.keys| && !Less(a.keys[levels[level][k]].Ik(), target)
    ensures |prev| == height && Searched(a, levels, height, target, prev[level := NodeBefore(levels[level], k)], level - 1)
    ensures Ranked(a, levels[level], target, NodeAt(levels[level], k))
  {
    LinkAt(a, levels, height, level, k);
    RankIs(a, levels[level], target, k);
  }

  /* ---- single stores ---- */

  // skiplist.h:182
  function WithNode(a: Arena, key: Entry, height: nat): Arena {
    Arena(a.keys + [key], a.next + [Nils(height)])
  }

  // skiplist.h:159
  function SetNext(a: Arena, n: nat, level: nat, v: int): Arena
    requires n < |a.next| && level < |a.next[n]|
  {
    a.(next := a.next[n := a.next[n][level := v]])
  }

  lemma {:induction false} KeysOfAppend(keys: seq<Entry>, key: Entry, nodes: seq<nat>)
    requires forall k :: 0 <= k < |nodes| ==> nodes[k] < |keys|
    ensures KeysOf(keys + [key], nodes) == KeysOf(keys, nodes)
  {
    if nodes != [] {
      KeysOfAppend(keys, key, nodes[..|nodes| - 1]);
    }
  }

  // A new node is not linked anywhere yet.
  lemma NewNodeKeepsLevel(a: Arena, key: Entry, height: nat, nodes: seq<nat>, level: nat)
    requires LevelOk(a, nodes, level)
    ensures LevelOk(WithNode(a, key, height), nodes, level)
  {
    KeysOfAppend(a.keys, key, nodes);
    forall k | 0 <= k <= |nodes|
      ensures |WithNode(a, key, height).next[HEAD]| > level && Link(WithNode(a, key, height), nodes, level, k)
    {
      assert Link(a, nodes, level, k);
    }
  }

  // A link of another level, or of a node that is not in the list, is not followed.
  lemma OtherStoreKeepsLevel(a: Arena, n: nat, i: nat, v: int, nodes: seq<nat>, level: nat)
    requires LevelOk(a, nodes, level) && n < |a.next| && i < |a.next[n]|
    requires i != level || (n != HEAD && n !in nodes)
    ensures LevelOk(SetNext(a, n, i, v), nodes, level)
  {
    forall k | 0 <= k <= |nodes|
      ensures |SetNext(a, n, i, v).next[HEAD]| > level && Link(SetNext(a, n, i, v), nodes, level, k)
    {
      assert Link(a, nodes, level, k);
    }
  }

  lemma KeysOfInserted(keys: seq<Entry>, nodes: seq<nat>, r: nat, x: nat)
    requires r <= |nodes| && x < |keys| && forall k :: 0 <= k < |nodes| ==> nodes[k] < |keys|
    ensures forall k :: 0 <= k <= |nodes| ==> Inserted(nodes, r, x)[k] < |keys|
    ensures KeysOf(keys, Inserted(nodes, r, x)) == Inserted(KeysOf(keys, nodes), r, keys[x])
  {
    forall k | 0 <= k <= |nodes|
      ensures Inserted(nodes, r, x)[k] < |keys|
    {
    }
  }

  lemma SortedJoin(a: seq<Entry>, e: Entry, b: seq<Entry>)
    requires Sorted(a) && Sorted(b)
    requires forall k :: 0 <= k < |a| ==> Before(a[k], e)
    requires forall k :: 0 <= k < |b| ==> Before(e, b[k])
    ensures Sorted(a + [e] + b)
  {
    var r, n := a + [e] + b, |a|;
    forall i, j | 0 <= i < j < |r|
      ensures Before(r[i], r[j])
    {
      if i < n {
        assert r[i] == a[i];
      }
      if j > n {
        assert r[j] == b[j - n - 1];
      }
      if i < n < j {
        assert Before(a[i], e) && Before(e, b[j - n - 1]);
      }
    }
  }

  lemma SortedInserted(es: seq<Entry>, e: Entry)
    requires Sorted(es) && forall k :: 0 <= k < |es| ==> es[k].Ik() != e.Ik()
    ensures Sorted(Inserted(es, LowerBound(es, e.Ik()), e))
  {
    var r := LowerBound(es, e.Ik());
    hide LowerBound, Before, Sorted, Less;
    AroundLowerBound(es, e);
    forall k | 0 <= k < r
      ensures Before(es[..r][k], e)
    {
      assert es[..r][k] == es[k];
    }
    forall k | 0 <= k < |es| - r
      ensures Before(e, es[r..][k])
    {
      assert es[r..][k] == es[r + k];
    }
    SortedPart(es, r);
    SortedJoin(es[..r], e, es[r..]);
  }

  lemma AroundLowerBound(es: seq<Entry>, e: Entry)
    requires Sorted(es) && forall k :: 0 <= k < |es| ==> es[k].Ik() != e.Ik()
    ensures var r := LowerBound(es, e.Ik());
            (forall k :: 0 <= k < r ==> Before(es[k], e)) && forall k :: r <= k < |es| ==> Before(e, es[k])
  {
    var r := LowerBound(es, e.Ik());
    hide LowerBound;
    forall k | r <= k < |es|
      ensures Before(e, es[k])
    {
      InOrder(es, r, k);
    }
  }

  lemma SortedPart(es: seq<Entry>, r: nat)
    requires Sorted(es) && r <= |es|
    ensures Sorted(es[..r]) && Sorted(es[r..])
  {
    forall i, j | 0 <= i < j < r
      ensures Before(es[..r][i], es[..r][j])
    {
      assert Before(es[i], es[j]);
    }
    forall i, j | 0 <= i < j < |es| - r
      ensures Before(es[r..][i], es[r..][j])
    {
      assert Before(es[r + i], es[r + j]);
    }
  }

  // Where the nodes of a list are once x is put in at position r.
  lemma InsertedAt(nodes: seq<nat>, r: nat, x: nat, k: nat)
    requires r <= |nodes| && k <= |nodes| + 1
    ensures NodeBefore(Inserted(nodes, r, x), k) == if k <= r then NodeBefore(nodes, k) else if k == r + 1 then x else NodeBefore(nodes, k - 1)
    ensures NodeAt(Inserted(nodes, r, x), k) == if k < r then NodeAt(nodes, k) else if k == r then x else NodeAt(nodes, k - 1)
  {
  }

  // A node that can be put into a level at position r.
  ghost predicate Fits(a: Arena, nodes: seq<nat>, level: nat, x: nat, r: nat) {
    && LevelOk(a, nodes, level) && r <= |nodes| && 0 < x < |a.keys| && x !in nodes && |a.next[x]| > level
    && (forall k :: 0 <= k < |nodes| ==> a.keys[nodes[k]].Ik() != a.keys[x].Ik())
    && r == Rank(a, nodes, a.keys[x].Ik()) && a.next[x][level] == NodeAt(nodes, r)
  }

  lemma PublishedLink(a: Arena, nodes: seq<nat>, level: nat, x: nat, r: nat, k: nat)
    requires Fits(a, nodes, level, x, r) && k <= |nodes| + 1
    ensures NodeBefore(Inserted(nodes, r, x), k) < |a.next|
    ensures |SetNext(a, NodeBefore(nodes, r), level, x).next[NodeBefore(Inserted(nodes, r, x), k)]| > level
    ensures SetNext(a, NodeBefore(nodes, r), level, x).next[NodeBefore(Inserted(nodes, r, x), k)][level] == NodeAt(Inserted(nodes, r, x), k)
  {
    InsertedAt(nodes, r, x, k);
    if k < r {
      DistinctNodes(a, nodes, level, k, r);
      assert Link(a, nodes, level, k);
    } else if k > r + 1 {
      DistinctNodes(a, nodes, level, r, k - 1);
      assert Link(a, nodes, level, k - 1);
    }
  }

  lemma PublishedNodes(a: Arena, nodes: seq<nat>, level: nat, x: nat, r: nat)
    requires Fits(a, nodes, level, x, r)
    ensures forall k :: 0 <= k <= |nodes| ==> 0 < Inserted(nodes, r, x)[k] < |a.keys| && |a.next[Inserted(nodes, r, x)[k]]| > level
  {
    forall k | 0 <= k <= |nodes|
      ensures 0 < Inserted(nodes, r, x)[k] < |a.keys| && |a.next[Inserted(nodes, r, x)[k]]| > level
    {
      InsertedAt(nodes, r, x, k);
    }
  }

  // The store that links a node into a level.
  lemma PublishKeepsLevel(a: Arena, nodes: seq<nat>, level: nat, x: nat, r: nat)
    requires Fits(a, nodes, level, x, r)
    ensures LevelOk(SetNext(a, NodeBefore(nodes, r), level, x), Inserted(nodes, r, x), level)
  {
    var nodes' := Inserted(nodes, r, x);
    PublishedNodes(a, nodes, level, x, r);
    KeysOfInserted(a.keys, nodes, r, x);
    SortedInserted(KeysOf(a.keys, nodes), a.keys[x]);
    assert |a.next[HEAD]| > level && |a.next[NodeBefore(nodes, r)]| > level;
    hide Inserted, NodeBefore, NodeAt, KeysOf;
    forall k | 0 <= k <= |nodes'|
      ensures Link(SetNext(a, NodeBefore(nodes, r), level, x), nodes', level, k)
    {
      PublishedLink(a, nodes, level, x, r, k);
    }
  }

  lemma DistinctNodes(a: Arena, nodes: seq<nat>, level: nat, j: nat, k: nat)
    requires LevelOk(a, nodes, level) && j < k <= |nodes|
    ensures NodeBefore(nodes, j) != NodeBefore(nodes, k)
  {
    InOrder(KeysOf(a.keys, nodes), j - 1, k - 1);
  }

  lemma StillNested(levels: seq<seq<nat>>, i: nat, r: nat, x: nat, levels': seq<seq<nat>>)
    requires Nested(levels) && i < |levels| && r <= |levels[i]| && (i > 0 ==> x in levels[i - 1])
    requires levels' == levels[i := Inserted(levels[i], r, x)]
    ensures Nested(levels')
  {
    assert forall n :: n in levels'[i] <==> n == x || n in levels[i] by {
      assert levels[i] == levels[i][..r] + levels[i][r..];
    }
    forall j | 0 < j < |levels'|
      ensures PartOf(levels'[j], levels'[j - 1])
    {
      forall k | 0 <= k < |levels'[j]|
        ensures levels'[j][k] in levels'[j - 1]
      {
        assert levels'[j][k] in levels'[j];
        assert PartOf(levels[j], levels[j - 1]);
      }
    }
  }

  lemma PublishKeepsShape(a: Arena, levels: seq<seq<nat>>, height: nat, i: nat, x: nat, r: nat)
    requires Shape(a, levels, height) && i < height && Fits(a, levels[i], i, x, r) && (i > 0 ==> x in levels[i - 1])
    ensures |a.keys| == |a.next| && NodeBefore(levels[i], r) < |a.next| && i < |a.next[NodeBefore(levels[i], r)]|
    ensures Shape(SetNext(a, NodeBefore(levels[i], r), i, x), levels[i := Inserted(levels[i], r, x)], height)
  {
    LinkAt(a, levels, height, i, r);
    PublishKeepsLevel(a, levels[i], i, x, r);
    forall j | 0 <= j < MAX_HEIGHT && j != i
      ensures LevelOk(SetNext(a, NodeBefore(levels[i], r), i, x), levels[j], j)
    {
      OtherStoreKeepsLevel(a, NodeBefore(levels[i], r), i, x, levels[j], j);
    }
    StillNested(levels, i, r, x, levels[i := Inserted(levels[i], r, x)]);
  }

  // Where a new key belongs in a list that does not hold it: after node p.
  ghost predicate Spot(keys: seq<Entry>, nodes: seq<nat>, key: Entry, p: nat) {
    && (forall k :: 0 <= k < |nodes| ==> nodes[k] < |keys| && keys[nodes[k]].Ik() != key.Ik())
    && p == NodeBefore(nodes, LowerBound(KeysOf(keys, nodes), key.Ik()))
  }

  lemma PreparedFits(a: Arena, a': Arena, levels: seq<seq<nat>>, height: nat, i: nat, x: nat, r: nat)
    requires Shape(a, levels, height) && Shape(a', levels, height) && i < height && 0 < x < |a.keys| && x !in levels[i]
    requires |a.keys| == |a.next| && i < |a.next[x]| && r <= |levels[i]|
    requires Spot(a.keys, levels[i], a.keys[x], NodeBefore(levels[i], r)) && r == Rank(a, levels[i], a.keys[x].Ik())
    requires NodeBefore(levels[i], r) < |a.next| && i < |a.next[NodeBefore(levels[i], r)]|
    requires a' == SetNext(a, x, i, a.next[NodeBefore(levels[i], r)][i])
    ensures Fits(a', levels[i], i, x, r)
  {
    LinkAt(a, levels, height, i, r);
    LinkAt(a', levels, height, i, r);
  }

  // From level i on, node x is not linked yet, and prev knows where it belongs.
  ghost predicate Waiting(keys: seq<Entry>, levels: seq<seq<nat>>, x: nat, height: nat, prev: seq<nat>, i: nat) {
    && x < |keys| && height <= |prev| && height <= |levels|
    && forall j :: i <= j < height ==> Spot(keys, levels[j], keys[x], prev[j]) && x !in levels[j]
  }

  lemma WaitingAt(keys: seq<Entry>, levels: seq<seq<nat>>, x: nat, height: nat, prev: seq<nat>, i: nat)
    requires Waiting(keys, levels, x, height, prev, i) && i < height
    ensures x < |keys| && i < |prev| && i < |levels| && Spot(keys, levels[i], keys[x], prev[i]) && x !in levels[i]
  {
  }

  lemma StillWaiting(keys: seq<Entry>, levels: seq<seq<nat>>, levels': seq<seq<nat>>, x: nat, height: nat, prev: seq<nat>, i: nat)
    requires Waiting(keys, levels, x, height, prev, i) && i < height && |levels'| == |levels| && levels' == levels[i := levels'[i]]
    ensures Waiting(keys, levels', x, height, prev, i + 1)
  {
    hide Spot;
    forall j | i + 1 <= j < height
      ensures Spot(keys, levels'[j], keys[x], prev[j]) && x !in levels'[j]
    {
      assert levels'[j] == levels[j];
    }
  }

  // Every node of a level is in the lowest one.
  lemma {:induction false} InLowest(levels: seq<seq<nat>>, j: nat, n: nat)
    requires Nested(levels) && j < |levels| && n in levels[j]
    ensures n in levels[0]
  {
    if j > 0 {
      assert PartOf(levels[j], levels[j - 1]);
      InLowest(levels, j - 1, n);
    }
  }

  // What the search has found are the spots of the key, on every level it will have.
  lemma SpotsFound(a: Arena, levels: seq<seq<nat>>, height0: nat, key: Entry, height: nat, prev: seq<nat>)
    requires Shape(a, levels, height0) && height <= |prev| && height <= MAX_HEIGHT && height0 <= |prev|
    requires Searched(a, levels, height0, key.Ik(), prev[..height0], -1)
    requires forall j :: height0 <= j < |prev| ==> prev[j] == HEAD
    requires forall k :: 0 <= k < |levels[0]| ==> levels[0][k] < |a.keys| && a.keys[levels[0][k]].Ik() != key.Ik()
    ensures Waiting(a.keys + [key], levels, |a.keys|, height, prev, 0)
  {
    forall j | 0 <= j < height
      ensures Spot(a.keys + [key], levels[j], key, prev[j]) && |a.keys| !in levels[j]
    {
      LinkAt(a, levels, height0, j, 0);
      KeysOfAppend(a.keys, key, levels[j]);
      forall k | 0 <= k < |levels[j]|
        ensures (a.keys + [key])[levels[j][k]].Ik() != key.Ik()
      {
        InLowest(levels, j, levels[j][k]);
      }
      if j < height0 {
        assert SearchedTo(a, levels[j], key.Ik(), prev[..height0][j]);
      }
    }
  }

  class List {
    var arena: Arena
    var maxHeight: nat
    // The nodes linked at each level.
    ghost var levels: seq<seq<nat>>

    ghost predicate Valid()
      reads this
    {
      Shape(arena, levels, maxHeight)
    }

    ghost function Contents(): (r: seq<Entry>)
      requires Valid()
      reads this
      ensures Sorted(r)
    {
      LinkAt(arena, levels, maxHeight, 0, 0);
      KeysOf(arena.keys, levels[0])
    }

    constructor ()
      ensures Valid() && Contents() == []
    {
      arena := Arena([Entry(0, 0, Deletion)], [Nils(MAX_HEIGHT)]);
      maxHeight := 1;
      levels := Empty(MAX_HEIGHT);
    }

    // skiplist.h:255
    predicate KeyIsAfterNode(target: InternalKey, n: int)
      requires n < |arena.keys|
      reads this
    {
      n >= 0 && Less(arena.keys[n].Ik(), target)
    }

    // skiplist.h:262
    method FindGreaterOrEqual(target: InternalKey) returns (node: int, prev: seq<nat>)
      requires Valid()
      ensures Ranked(arena, levels[0], target, node) && Searched(arena, levels, maxHeight, target, prev, -1)
    {
      var x: nat, level: nat := HEAD, maxHeight - 1;
      ghost var k: nat := 0;
      prev := Heads(maxHeight);
      assert |levels| == MAX_HEIGHT && 1 <= maxHeight <= MAX_HEIGHT;
      assert Searched(arena, levels, maxHeight, target, prev, level);
      hide Shape, Searched, SearchedTo, Ranked, KeysOf, Rank;
      while true
        invariant level < maxHeight && |prev| == maxHeight
        invariant k <= |levels[level]| && x == NodeBefore(levels[level], k)
        invariant k > 0 ==> x < |arena.keys| && Less(arena.keys[x].Ik(), target)
        invariant Searched(arena, levels, maxHeight, target, prev, level)
        decreases level, |levels[level]| - k
      {
        LinkAt(arena, levels, maxHeight, level, k);
        var next := arena.next[x][level];
        if KeyIsAfterNode(target, next) {
          x, k := next, k + 1;
        } else {
          SearchEnds(arena, levels, maxHeight, level, target, k, prev);
          prev := prev[level := x];
          if level == 0 {
            return next, prev;
          }
          level := level - 1;
          k := Below(arena, levels, maxHeight, level, k);
        }
      }
    }

    // skiplist.h:358
    method RaiseHeight(height: nat)
      requires Valid() && height <= MAX_HEIGHT
      modifies `maxHeight
      ensures Valid() && maxHeight == if height > old(maxHeight) then height else old(maxHeight)
      ensures Contents() == old(Contents())
    {
      if height > maxHeight {
        maxHeight := height;
      }
    }

    // skiplist.h:361
    method NewNode(key: Entry, height: nat) returns (x: nat)
      requires Valid()
      modifies `arena
      ensures Valid() && arena == WithNode(old(arena), key, height) && x == |old(arena).keys|
      ensures Contents() == old(Contents())
    {
      ghost var before := arena;
      x := |arena.keys|;
      arena := WithNode(arena, key, height);
      forall i | 0 <= i < MAX_HEIGHT
        ensures LevelOk(arena, levels[i], i)
      {
        NewNodeKeepsLevel(before, key, height, levels[i], i);
      }
      KeysOfAppend(before.keys, key, levels[0]);
    }

    // skiplist.h:365: nobody follows the link yet.
    method PrepareLink(x: nat, i: nat, prev: nat)
      requires Valid() && i < MAX_HEIGHT && x < |arena.next| && prev < |arena.next| && i < |arena.next[x]| && i < |arena.next[prev]|
      requires x != HEAD && x !in levels[i]
      modifies `arena
      ensures Valid() && arena == SetNext(old(arena), x, i, old(arena).next[prev][i])
      ensures Contents() == old(Contents())
    {
      ghost var before := arena;
      arena := SetNext(arena, x, i, arena.next[prev][i]);
      forall j | 0 <= j < MAX_HEIGHT
        ensures LevelOk(arena, levels[j], j)
      {
        OtherStoreKeepsLevel(before, x, i, before.next[prev][i], levels[j], j);
      }
    }

    // skiplist.h:366: the store that makes the node part of a level. Only the one at the
    // lowest level changes what the list holds.
    method PublishLink(x: nat, i: nat, prev: nat, ghost r: nat)
      requires Valid() && i < maxHeight && Fits(arena, levels[i], i, x, r) && prev == NodeBefore(levels[i], r)
      requires i > 0 ==> x in levels[i - 1]
      modifies `arena, `levels
      ensures Valid() && levels == old(levels)[i := Inserted(old(levels)[i], r, x)]
      ensures |old(arena).keys| == |old(arena).next| && prev < |old(arena).next| && i < |old(arena).next[prev]|
      ensures arena == SetNext(old(arena), prev, i, x)
      ensures Contents() == if i == 0 then Inserted(old(Contents()), r, arena.keys[x]) else old(Contents())
    {
      LinkAt(arena, levels, maxHeight, i, r);
      KeysOfInserted(arena.keys, levels[i], r, x);
      PublishKeepsShape(arena, levels, maxHeight, i, x, r);
      arena := SetNext(arena, prev, i, x);
      levels := levels[i := Inserted(levels[i], r, x)];
    }

    // skiplist.h:362: one level of the new node.
    method LinkLevel(x: nat, i: nat, prev: nat)
      requires Valid() && i < maxHeight && 0 < x < |arena.keys| && |arena.keys| == |arena.next| && i < |arena.next[x]|
      requires x !in levels[i] && (i > 0 ==> x in levels[i - 1])
      requires Spot(arena.keys, levels[i], arena.keys[x], prev)
      modifies `arena, `levels
      ensures Valid() && arena.keys == old(arena).keys && |arena.next| == |arena.keys| && |arena.next[x]| == |old(arena).next[x]|
      ensures levels == old(levels)[i := levels[i]] && x in levels[i]
      ensures Contents() == if i == 0 then Inserted(old(Contents()), LowerBound(old(Contents()), arena.keys[x].Ik()), arena.keys[x]) else old(Contents())
    {
      ghost var r := Rank(arena, levels[i], arena.keys[x].Ik());
      LinkAt(arena, levels, maxHeight, i, r);
      PrepareLink(x, i, prev);
      PreparedFits(old(arena), arena, levels, maxHeight, i, x, r);
      PublishLink(x, i, prev, r);
      assert Inserted(old(levels)[i], r, x)[r] == x;
    }

    // skiplist.h:362: from the lowest level up.
    method LinkLevels(x: nat, height: nat, prev: seq<nat>)
      requires Valid() && 1 <= height <= maxHeight && 0 < x < |arena.keys| == |arena.next| && height <= |arena.next[x]|
      requires Waiting(arena.keys, levels, x, height, prev, 0)
      modifies `arena, `levels
      ensures Valid() && |arena.keys| > x && arena.keys == old(arena).keys
      ensures Contents() == Inserted(old(Contents()), LowerBound(old(Contents()), arena.keys[x].Ik()), arena.keys[x])
    {
      ghost var keys, es := arena.keys, Contents();
      hide Waiting, Spot, LowerBound, Shape, Inserted;
      for i := 0 to height
        invariant Valid() && arena.keys == keys && |arena.next| == |keys| && height <= |arena.next[x]|
        invariant Waiting(keys, levels, x, height, prev, i) && (i > 0 ==> i <= |levels| && x in levels[i - 1])
        invariant Contents() == if i == 0 then es else Inserted(es, LowerBound(es, keys[x].Ik()), keys[x])
      {
        WaitingAt(keys, levels, x, height, prev, i);
        ghost var levels0 := levels;
        LinkLevel(x, i, prev[i]);
        StillWaiting(keys, levels0, levels, x, height, prev, i);
      }
    }

    // skiplist.h:337; the height is drawn at random. Each call below is one store, or
    // touches only a node that nothing points to.
    method Insert(key: Entry, height: nat)
      requires Valid() && 1 <= height <= MAX_HEIGHT
      requires forall k :: 0 <= k < |Contents()| ==> Contents()[k].Ik() != key.Ik()
      modifies this
      ensures Valid() && Contents() == Inserted(old(Contents()), LowerBound(old(Contents()), key.Ik()), key)
    {
      var _, prev := FindGreaterOrEqual(key.Ik());
      ghost var before, height0 := arena, maxHeight;
      if height > maxHeight {
        prev := prev + Heads(height - maxHeight);
      }
      RaiseHeight(height);
      var x := NewNode(key, height);
      SpotsFound(before, levels, height0, key, height, prev);
      LinkLevels(x, height, prev);
    }

    // The position that a search has found, in the contents of the list.
    lemma RankInContents(target: InternalKey)
      requires Valid()
      ensures |Contents()| == |levels[0]| && (forall k :: 0 <= k < |levels[0]| ==> levels[0][k] < |arena.keys|)
      ensures Rank(arena, levels[0], target) == LowerBound(Contents(), target)
    {
      LinkAt(arena, levels, maxHeight, 0, 0);
    }

    // skiplist.h:371
    method Contains(target: InternalKey) returns (found: bool)
      requires Valid()
      ensures found <==> exists k :: 0 <= k < |Contents()| && Contents()[k].Ik() == target
    {
      var x, _ := FindGreaterOrEqual(target);
      RankInContents(target);
      LinkAt(arena, levels, maxHeight, 0, Rank(arena, levels[0], target));
      found := x >= 0 && arena.keys[x].Ik() == target;
      FoundAtRank(Contents(), target);
    }

    // skiplist.h:285
    method FindLessThan(target: InternalKey) returns (x: nat)
      requires Valid()
      ensures |levels[0]| == |Contents()| && x == NodeBefore(levels[0], LowerBound(Contents(), target))
    {
      var level: nat := maxHeight - 1;
      ghost var k: nat := 0;
      x := HEAD;
      assert |levels| == MAX_HEIGHT && 1 <= maxHeight <= MAX_HEIGHT;
      hide Shape, SearchedTo, Ranked, Searched, KeysOf, Rank;
      while true
        invariant level < maxHeight && k <= |levels[level]| && x == NodeBefore(levels[level], k)
        invariant k > 0 ==> x < |arena.keys| && Less(arena.keys[x].Ik(), target)
        decreases level, |levels[level]| - k
      {
        LinkAt(arena, levels, maxHeight, level, k);
        var next := arena.next[x][level];
        if next < 0 || !Less(arena.keys[next].Ik(), target) {
          if level == 0 {
            RankIs(arena, levels[0], target, k);
            RankInContents(target);
            return;
          }
          level := level - 1;
          k := Below(arena, levels, maxHeight, level, k);
        } else {
          x, k := next, k + 1;
        }
      }
    }

    // skiplist.h:305
    method FindLast() returns (x: nat)
      requires Valid()
      ensures x == NodeBefore(levels[0], |levels[0]|)
    {
      var level: nat := maxHeight - 1;
      ghost var k: nat := 0;
      x := HEAD;
      assert |levels| == MAX_HEIGHT && 1 <= maxHeight <= MAX_HEIGHT;
      hide Shape, KeysOf;
      while true
        invariant level < maxHeight && k <= |levels[level]| && x == NodeBefore(levels[level], k)
        decreases level, |levels[level]| - k
      {
        LinkAt(arena, levels, maxHeight, level, k);
        var next := arena.next[x][level];
        if next < 0 {
          if level == 0 {
            return;
          }
          level := level - 1;
          k := Below(arena, levels, maxHeight, level, k);
        } else {
          x, k := next, k + 1;
        }
      }
    }
  }

  lemma FoundAtRank(es: seq<Entry>, target: InternalKey)
    requires Sorted(es)
    ensures (exists k :: 0 <= k < |es| && es[k].Ik() == target)
            <==> LowerBound(es, target) < |es| && es[LowerBound(es, target)].Ik() == target
  {
    var r := LowerBound(es, target);
    forall k | 0 <= k < |es| && es[k].Ik() == target
      ensures k == r
    {
      InOrder(es, r, k);
    }
  }

  // skiplist.h:63: a cursor over the contents; position |contents| is invalid.
  class Iterator {
    const list: List
    var node: int
    ghost var pos: nat

    ghost predicate Valid()
      reads this, list
    {
      list.Valid() && pos <= |list.levels[0]| && node == NodeAt(list.levels[0], pos)
    }

    constructor (list: List)
      requires list.Valid()
      ensures Valid() && this.list == list && pos == |list.Contents()|
    {
      this.list, node, pos := list, NIL, |list.levels[0]|;
    }

    method Key() returns (e: Entry)
      requires Valid() && node != NIL
      ensures pos < |list.Contents()| && e == list.Contents()[pos]
    {
      LinkAt(list.arena, list.levels, list.maxHeight, 0, pos);
      e := list.arena.keys[node];
    }

    method Next()
      requires Valid() && node != NIL
      modifies this
      ensures Valid() && pos == old(pos) + 1
    {
      LinkAt(list.arena, list.levels, list.maxHeight, 0, pos);
      LinkAt(list.arena, list.levels, list.maxHeight, 0, pos + 1);
      node, pos := list.arena.next[node][0], pos + 1;
    }

    // There are no links backwards: the list is searched for the entry before.
    method Prev()
      requires Valid() && node != NIL
      modifies this
      ensures Valid() && pos == if old(pos) == 0 then |list.Contents()| else old(pos) - 1
    {
      var e := Key();
      var x := list.FindLessThan(e.Ik());
      LowerBoundAt(list.Contents(), pos);
      pos := if pos == 0 then |list.levels[0]| else pos - 1;
      node := x;
      if node == HEAD {
        node := NIL;
      }
      LinkAt(list.arena, list.levels, list.maxHeight, 0, pos);
    }

    method Seek(target: InternalKey)
      requires Valid()
      modifies this
      ensures Valid() && pos == LowerBound(list.Contents(), target)
    {
      list.RankInContents(target);
      pos := LowerBound(list.Contents(), target);
      var x, _ := list.FindGreaterOrEqual(target);
      node := x;
    }

    method SeekToFirst()
      requires Valid()
      modifies this
      ensures Valid() && pos == 0
    {
      LinkAt(list.arena, list.levels, list.maxHeight, 0, 0);
      node, pos := list.arena.next[HEAD][0], 0;
    }

    method SeekToLast()
      requires Valid()
      modifies this
      ensures Valid() && pos == if list.Contents() == [] then 0 else |list.Contents()| - 1
    {
      list.RankInContents(SeekKey(0, 0));
      var x := list.FindLast();
      LinkAt(list.arena, list.levels, list.maxHeight, 0, |list.levels[0]|);
      pos := if |list.levels[0]| == 0 then 0 else |list.levels[0]| - 1;
      node := if x == HEAD then NIL else x;
      LinkAt(list.arena, list.levels, list.maxHeight, 0, pos);
    }
  }

  lemma LowerBoundAt(es: seq<Entry>, k: nat)
    requires Sorted(es) && k < |es|
    ensures LowerBound(es, es[k].Ik()) == k
  {
    InOrder(es, k - 1, k);
    LowerBoundIs(es, es[k].Ik(), k);
  }


  ghost function Empty(n: nat): (r: seq<seq<nat>>)
    ensures |r| == n && forall i :: 0 <= i < n ==> r[i] == []
  {
    if n == 0 then [] else Empty(n - 1) + [[]]
  }

  function Heads(n: nat): (r: seq<nat>)
    ensures |r| == n && forall i :: 0 <= i < n ==> r[i] == HEAD
  {
    if n == 0 then [] else Heads(n - 1) + [HEAD]
  }

  function Nils(n: nat): (r: seq<int>)
    ensures |r| == n && forall i :: 0 <= i < n ==> r[i] == NIL
  {
    if n == 0 then [] else Nils(n - 1) + [NIL]
  }
}
