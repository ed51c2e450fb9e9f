/**
 The merging iterator (table/merger.cc) over children that each walk one sorted table,
 through wrappers that cache the child's state (table/iterator_wrapper.h). With keys
 that are distinct across children it is a bidirectional cursor over their sorted union.
 */
module Merging {
  import opened Keys

  /* ---- a cursor over a sorted sequence: a position, or -1 when it has run off ---- */

  function After(n: nat, p: int): int {
    if p + 1 < n then p + 1 else -1
  }

  function SeekPosition(es: seq<Entry>, target: InternalKey): int {
    var i := LowerBound(es, target);
    if i < |es| then i else -1
  }

  // p is at the first entry of es that target does not follow.
  ghost predicate AtLowerBound(es: seq<Entry>, p: int, target: InternalKey) {
    && -1 <= p < |es|
    && (p >= 0 ==> !Less(es[p].Ik(), target))
    && forall j :: 0 <= j < (if p >= 0 then p else |es|) ==> Less(es[j].Ik(), target)
  }

  class SourceIterator {
    const entries: seq<Entry>
    var pos: int

    ghost predicate Ok()
      reads this
    {
      Sorted(entries) && -1 <= pos < |entries|
    }

    constructor (entries: seq<Entry>)
      requires Sorted(entries)
      ensures Ok() && this.entries == entries && pos == -1
    {
      this.entries, pos := entries, -1;
    }

    method Next()
      requires Ok() && pos >= 0
      modifies this
      ensures Ok() && pos == After(|entries|, old(pos))
    {
      pos := After(|entries|, pos);
    }

    method Prev()
      requires Ok() && pos >= 0
      modifies this
      ensures Ok() && pos == old(pos) - 1
    {
      pos := pos - 1;
    }

    method Seek(target: InternalKey)
      requires Ok()
      modifies this
      ensures Ok() && AtLowerBound(entries, pos, target)
    {
      pos := SeekPosition(entries, target);
    }

    method SeekToFirst()
      requires Ok()
      modifies this
      ensures Ok() && pos == After(|entries|, -1)
    {
      pos := After(|entries|, -1);
    }

    method SeekToLast()
      requires Ok()
      modifies this
      ensures Ok() && pos == |entries| - 1
    {
      pos := |entries| - 1;
    }
  }

  // iterator_wrapper.h:17
  class IteratorWrapper {
    const iter: SourceIterator
    var valid: bool
    var key: InternalKey

    // The cache agrees with the iterator behind it.
    ghost predicate Ok()
      reads this, iter
    {
      iter.Ok() && (valid <==> iter.pos >= 0) && (valid ==> key == iter.entries[iter.pos].Ik())
    }

    ghost function Current(): Entry
      requires Ok() && valid
      reads this, iter
    {
      iter.entries[iter.pos]
    }

    constructor (iter: SourceIterator)
      requires iter.Ok()
      ensures Ok() && this.iter == iter
    {
      this.iter := iter;
      valid, key := false, SeekKey(0, 0);
      new;
      Update();
    }

    method Update()
      requires iter.Ok()
      modifies this
      ensures Ok()
    {
      valid := iter.pos >= 0;
      if valid {
        key := iter.entries[iter.pos].Ik();
      }
    }

    method Next()
      requires Ok() && valid
      modifies this, iter
      ensures Ok() && iter.pos == After(|iter.entries|, old(iter.pos))
    {
      iter.Next();
      Update();
    }

    method Prev()
      requires Ok() && valid
      modifies this, iter
      ensures Ok() && iter.pos == old(iter.pos) - 1
    {
      iter.Prev();
      Update();
    }

    method Seek(target: InternalKey)
      requires Ok()
      modifies this, iter
      ensures Ok() && AtLowerBound(iter.entries, iter.pos, target)
    {
      iter.Seek(target);
      Update();
    }

    method SeekToFirst()
      requires Ok()
      modifies this, iter
      ensures Ok() && iter.pos == After(|iter.entries|, -1)
    {
      iter.SeekToFirst();
      Update();
    }

    method SeekToLast()
      requires Ok()
      modifies this, iter
      ensures Ok() && iter.pos == |iter.entries| - 1
    {
      iter.SeekToLast();
      Update();
    }
  }

  // merger.cc:65: to the first entry after a key.
  method SeekAfter(child: IteratorWrapper, key: InternalKey)
    requires child.Ok()
    modifies child, child.iter
    ensures child.Ok()
    ensures child.valid ==> Less(key, child.iter.entries[child.iter.pos].Ik())
    ensures forall j :: 0 <= j < (if child.valid then child.iter.pos else |child.iter.entries|) ==> !Less(key, child.iter.entries[j].Ik())
  {
    child.Seek(key);
    if child.valid && Compare(key, child.key) == 0 {
      child.Next();
    }
  }

  // merger.cc:91: to the last entry before a key.
  method SeekBefore(child: IteratorWrapper, key: InternalKey)
    requires child.Ok()
    modifies child, child.iter
    ensures child.Ok()
    ensures child.valid ==> Less(child.iter.entries[child.iter.pos].Ik(), key)
    ensures forall j :: child.iter.pos < j < |child.iter.entries| ==> !Less(child.iter.entries[j].Ik(), key)
  {
    child.Seek(key);
    if child.valid {
      child.Prev();
    } else {
      child.SeekToLast();
    }
  }

  /* ---- where a child stands, measured along the merged sequence ---- */

  ghost predicate AtLeast(merged: seq<Entry>, m: int, e: Entry) {
    0 <= m < |merged| && !Less(e.Ik(), merged[m].Ik())
  }

  ghost predicate AtMost(merged: seq<Entry>, m: int, e: Entry) {
    0 <= m < |merged| && !Less(merged[m].Ik(), e.Ik())
  }

  // The child stands on its first entry from position m of the merged sequence on.
  ghost predicate AtFirst(es: seq<Entry>, p: int, merged: seq<Entry>, m: int) {
    && -1 <= p < |es|
    && (p >= 0 ==> AtLeast(merged, m, es[p]))
    && forall j :: 0 <= j < (if p >= 0 then p else |es|) ==> !AtLeast(merged, m, es[j])
  }

  // The child stands on its last entry up to position m of the merged sequence.
  ghost predicate AtLast(es: seq<Entry>, p: int, merged: seq<Entry>, m: int) {
    && -1 <= p < |es|
    && (p >= 0 ==> AtMost(merged, m, es[p]))
    && forall j :: p < j < |es| ==> !AtMost(merged, m, es[j])
  }

  ghost predicate Within(es: seq<Entry>, merged: seq<Entry>) {
    Sorted(es) && Sorted(merged) && forall e :: e in es ==> e in merged
  }

  lemma InOrder(es: seq<Entry>, i: int, j: int)
    requires Sorted(es) && -1 <= i < |es| && -1 <= j < |es|
    ensures 0 <= i < j ==> Before(es[i], es[j])
    ensures 0 <= j < i ==> Before(es[j], es[i])
  {
  }

  lemma FirstIsHere(es: seq<Entry>, p: int, merged: seq<Entry>, m: int)
    requires Within(es, merged) && AtFirst(es, p, merged, m) && 0 <= m < |merged| && merged[m] in es
    ensures p >= 0 && es[p] == merged[m]
  {
    var i :| 0 <= i < |es| && es[i] == merged[m];
    InOrder(es, p, i);
  }

  lemma LastIsHere(es: seq<Entry>, p: int, merged: seq<Entry>, m: int)
    requires Within(es, merged) && AtLast(es, p, merged, m) && 0 <= m < |merged| && merged[m] in es
    ensures p >= 0 && es[p] == merged[m]
  {
    var i :| 0 <= i < |es| && es[i] == merged[m];
    InOrder(es, p, i);
  }

  // At or after the target is at or after the target's place in the merged sequence.
  lemma SoughtIsFirst(es: seq<Entry>, p: int, merged: seq<Entry>, target: InternalKey)
    requires Within(es, merged) && AtLowerBound(es, p, target)
    ensures AtFirst(es, p, merged, LowerBound(merged, target))
  {
    var m := LowerBound(merged, target);
    forall e | e in es
      ensures AtLeast(merged, m, e) <==> !Less(e.Ik(), target)
    {
      var i :| 0 <= i < |merged| && merged[i] == e;
      if m < |merged| {
        InOrder(merged, i, m);
      }
    }
  }

  lemma AfterHere(es: seq<Entry>, p: int, merged: seq<Entry>, m: int)
    requires Within(es, merged) && 0 <= m < |merged| && -1 <= p < |es|
    requires p >= 0 ==> Less(merged[m].Ik(), es[p].Ik())
    requires forall j :: 0 <= j < (if p >= 0 then p else |es|) ==> !Less(merged[m].Ik(), es[j].Ik())
    ensures AtFirst(es, p, merged, m + 1)
  {
    forall e | e in es
      ensures AtLeast(merged, m + 1, e) <==> Less(merged[m].Ik(), e.Ik())
    {
      var i :| 0 <= i < |merged| && merged[i] == e;
      InOrder(merged, i, m);
      if m + 1 < |merged| {
        InOrder(merged, i, m + 1);
      }
    }
  }

  lemma BeforeHere(es: seq<Entry>, p: int, merged: seq<Entry>, m: int)
    requires Within(es, merged) && 0 <= m < |merged| && -1 <= p < |es|
    requires p >= 0 ==> Less(es[p].Ik(), merged[m].Ik())
    requires forall j :: p < j < |es| ==> !Less(es[j].Ik(), merged[m].Ik())
    ensures AtLast(es, p, merged, m - 1)
  {
    forall e | e in es
      ensures AtMost(merged, m - 1, e) <==> Less(e.Ik(), merged[m].Ik())
    {
      var i :| 0 <= i < |merged| && merged[i] == e;
      InOrder(merged, i, m);
      InOrder(merged, i, m - 1);
    }
  }

  // Off the child that holds it, position m counts as passed.
  lemma FirstSkips(es: seq<Entry>, p: int, merged: seq<Entry>, m: int)
    requires Within(es, merged) && AtFirst(es, p, merged, m) && 0 <= m < |merged|
    requires merged[m] !in es
    ensures AtFirst(es, p, merged, m + 1)
  {
    if p >= 0 {
      NotHere(es, p, merged, m);
    }
    forall j | 0 <= j < (if p >= 0 then p else |es|)
      ensures !Less(merged[m].Ik(), es[j].Ik())
    {
    }
    AfterHere(es, p, merged, m);
  }

  lemma LastSkips(es: seq<Entry>, p: int, merged: seq<Entry>, m: int)
    requires Within(es, merged) && AtLast(es, p, merged, m) && 0 <= m < |merged|
    requires merged[m] !in es
    ensures AtLast(es, p, merged, m - 1)
  {
    if p >= 0 {
      NotHere(es, p, merged, m);
    }
    BeforeHere(es, p, merged, m);
  }

  lemma NotHere(es: seq<Entry>, p: int, merged: seq<Entry>, m: int)
    requires Within(es, merged) && 0 <= p < |es| && 0 <= m < |merged| && merged[m] !in es
    ensures Less(merged[m].Ik(), es[p].Ik()) || Less(es[p].Ik(), merged[m].Ik())
  {
    assert es[p] in es;
    var i :| 0 <= i < |merged| && merged[i] == es[p];
    InOrder(merged, i, m);
  }

  // Stepping off position m.
  lemma FirstSteps(es: seq<Entry>, p: int, merged: seq<Entry>, m: int)
    requires Within(es, merged) && 0 <= p < |es| && 0 <= m < |merged| && es[p] == merged[m]
    ensures AtFirst(es, After(|es|, p), merged, m + 1)
  {
    forall j | 0 <= j < |es|
      ensures Less(merged[m].Ik(), es[j].Ik()) <==> p < j
    {
      InOrder(es, j, p);
    }
    AfterHere(es, After(|es|, p), merged, m);
  }

  lemma LastSteps(es: seq<Entry>, p: int, merged: seq<Entry>, m: int)
    requires Within(es, merged) && 0 <= p < |es| && 0 <= m < |merged| && es[p] == merged[m]
    ensures AtLast(es, p - 1, merged, m - 1)
  {
    forall j | 0 <= j < |es|
      ensures Less(es[j].Ik(), merged[m].Ik()) <==> j < p
    {
      InOrder(es, j, p);
    }
    BeforeHere(es, p - 1, merged, m);
  }

  lemma StartIsFirst(es: seq<Entry>, merged: seq<Entry>)
    requires Within(es, merged)
    ensures AtFirst(es, After(|es|, -1), merged, 0)
  {
    if es != [] {
      assert es[0] in es;
      var i :| 0 <= i < |merged| && merged[i] == es[0];
      InOrder(merged, 0, i);
    }
  }

  lemma EndIsLast(es: seq<Entry>, merged: seq<Entry>)
    requires Within(es, merged)
    ensures AtLast(es, |es| - 1, merged, |merged| - 1)
  {
    if es != [] {
      var n := |merged| - 1;
      assert es[|es| - 1] in es;
      var i :| 0 <= i < |merged| && merged[i] == es[|es| - 1];
      InOrder(merged, i, n);
    }
  }

  datatype Direction = Forward | Reverse

  ghost predicate Owned(children: seq<IteratorWrapper>, merged: seq<Entry>, m: int)
    requires 0 <= m < |merged|
  {
    exists i :: 0 <= i < |children| && merged[m] in children[i].iter.entries
  }

  class MergingIterator {
    const children: seq<IteratorWrapper>
    // The child that yields the current entry.
    var current: Option<nat>
    var direction: Direction
    // What the iterator is a cursor over, and where the cursor stands.
    ghost const merged: seq<Entry>
    ghost var pos: int

    ghost function Repr(): set<object> {
      {this} + (set i | 0 <= i < |children| :: children[i] as object) + (set i | 0 <= i < |children| :: children[i].iter as object)
    }

    // The children share nothing, and each walks a part of the merged sequence.
    ghost predicate Apart() {
      && (forall i, j :: 0 <= i < j < |children| ==> children[i] != children[j] && children[i].iter != children[j].iter)
      && (forall i :: 0 <= i < |children| ==> Within(children[i].iter.entries, merged))
    }

    // Every merged entry belongs to exactly one child.
    ghost predicate Covered() {
      && (forall m :: 0 <= m < |merged| ==> Owned(children, merged, m))
      && (forall i, j, e :: 0 <= i < j < |children| && e in children[i].iter.entries ==> e !in children[j].iter.entries)
    }

    ghost predicate Shape() {
      Sorted(merged) && Apart() && Covered()
    }

    ghost predicate ChildrenOk()
      reads Repr()
    {
      forall i :: 0 <= i < |children| ==> children[i].Ok()
    }

    ghost predicate AllAtFirst(m: int)
      reads Repr()
    {
      forall i :: 0 <= i < |children| ==> AtFirst(children[i].iter.entries, children[i].iter.pos, merged, m)
    }

    ghost predicate AllAtLast(m: int)
      reads Repr()
    {
      forall i :: 0 <= i < |children| ==> AtLast(children[i].iter.entries, children[i].iter.pos, merged, m)
    }

    // current is the child standing on position pos; none when the cursor has run off.
    ghost predicate AtCurrent()
      reads Repr()
    {
      && -1 <= pos < |merged|
      && (current.None? <==> pos == -1)
      && (current.Some? ==> current.value < |children| && children[current.value].Ok()
                            && children[current.value].valid && children[current.value].Current() == merged[pos])
    }

    // While the cursor stands on an entry, no child is out of place for its direction.
    ghost predicate Valid()
      reads Repr()
    {
      && Shape() && ChildrenOk() && AtCurrent()
      && (current.Some? ==> if direction.Forward? then AllAtFirst(pos) else AllAtLast(pos))
    }

    lemma Facts()
      requires Valid()
      ensures Sorted(merged) && -1 <= pos < |merged| && (current.None? <==> pos == -1)
    {
    }

    // merger.cc:148
    method FindSmallest(ghost m: int)
      requires Shape() && ChildrenOk() && 0 <= m <= |merged| && AllAtFirst(m)
      modifies `current, `pos
      ensures AtCurrent() && pos == if m < |merged| then m else -1
    {
      var smallest: Option<nat> := None;
      for i := 0 to |children|
        invariant smallest.None? ==> forall j :: 0 <= j < i ==> !children[j].valid
        invariant smallest.Some? ==> smallest.value < i && children[smallest.value].valid
        invariant smallest.Some? ==> forall j :: 0 <= j < i && children[j].valid ==> !Less(children[j].key, children[smallest.value].key)
      {
        var child := children[i];
        if child.valid {
          if smallest.None? {
            smallest := Some(i);
          } else if Compare(child.key, children[smallest.value].key) < 0 {
            smallest := Some(i);
          }
        }
      }
      current := smallest;
      pos := if m < |merged| then m else -1;
      SmallestIsHere(m);
    }

    lemma SmallestIsHere(m: int)
      requires Shape() && ChildrenOk() && 0 <= m <= |merged| && AllAtFirst(m)
      requires current.None? ==> forall j :: 0 <= j < |children| ==> !children[j].valid
      requires current.Some? ==> current.value < |children| && children[current.value].valid
      requires current.Some? ==> forall j :: 0 <= j < |children| && children[j].valid ==> !Less(children[j].key, children[current.value].key)
      ensures current.None? <==> m == |merged|
      ensures current.Some? ==> children[current.value].Current() == merged[m]
    {
      if m < |merged| {
        assert Owned(children, merged, m);
        var c :| 0 <= c < |children| && merged[m] in children[c].iter.entries;
        FirstIsHere(children[c].iter.entries, children[c].iter.pos, merged, m);
        SameKey(children[current.value].Current(), m);
      }
    }

    // merger.cc:163
    method FindLargest(ghost m: int)
      requires Shape() && ChildrenOk() && -1 <= m < |merged| && AllAtLast(m)
      modifies `current, `pos
      ensures AtCurrent() && pos == m
    {
      var largest: Option<nat> := None;
      for i := |children| downto 0
        invariant largest.None? ==> forall j :: i <= j < |children| ==> !children[j].valid
        invariant largest.Some? ==> i <= largest.value < |children| && children[largest.value].valid
        invariant largest.Some? ==> forall j :: i <= j < |children| && children[j].valid ==> !Less(children[largest.value].key, children[j].key)
      {
        var child := children[i];
        if child.valid {
          if largest.None? {
            largest := Some(i);
          } else if Compare(child.key, children[largest.value].key) > 0 {
            largest := Some(i);
          }
        }
      }
      current := largest;
      pos := m;
      LargestIsHere(m);
    }

    lemma LargestIsHere(m: int)
      requires Shape() && ChildrenOk() && -1 <= m < |merged| && AllAtLast(m)
      requires current.None? ==> forall j :: 0 <= j < |children| ==> !children[j].valid
      requires current.Some? ==> current.value < |children| && children[current.value].valid
      requires current.Some? ==> forall j :: 0 <= j < |children| && children[j].valid ==> !Less(children[current.value].key, children[j].key)
      ensures current.None? <==> m == -1
      ensures current.Some? ==> children[current.value].Current() == merged[m]
    {
      if m >= 0 {
        assert Owned(children, merged, m);
        var c :| 0 <= c < |children| && merged[m] in children[c].iter.entries;
        LastIsHere(children[c].iter.entries, children[c].iter.pos, merged, m);
        SameKey(children[current.value].Current(), m);
      }
    }

    lemma SameKey(e: Entry, m: int)
      requires Sorted(merged) && e in merged && 0 <= m < |merged|
      requires !Less(e.Ik(), merged[m].Ik()) && !Less(merged[m].Ik(), e.Ik())
      ensures e == merged[m]
    {
      var i :| 0 <= i < |merged| && merged[i] == e;
      InOrder(merged, i, m);
    }

    constructor (children: seq<IteratorWrapper>, ghost merged: seq<Entry>)
      requires forall i, j :: 0 <= i < j < |children| ==> children[i] != children[j] && children[i].iter != children[j].iter
      requires Sorted(merged) && forall i :: 0 <= i < |children| ==> children[i].Ok() && Within(children[i].iter.entries, merged)
      requires forall m :: 0 <= m < |merged| ==> Owned(children, merged, m)
      requires forall i, j, e :: 0 <= i < j < |children| && e in children[i].iter.entries ==> e !in children[j].iter.entries
      ensures Valid() && pos == -1 && this.children == children && this.merged == merged
    {
      this.children, this.merged := children, merged;
      current, direction, pos := None, Forward, -1;
    }

    // merger.cc:31
    method SeekToFirst()
      requires Valid()
      modifies Repr()
      ensures Valid() && pos == After(|merged|, -1) && (current.None? <==> pos == -1)
    {
      for i := 0 to |children|
        modifies Repr() - {this}
        invariant ChildrenOk()
        invariant forall j :: 0 <= j < i ==> AtFirst(children[j].iter.entries, children[j].iter.pos, merged, 0)
      {
        children[i].SeekToFirst();
        StartIsFirst(children[i].iter.entries, merged);
      }
      FindSmallest(0);
      direction := Forward;
    }

    // merger.cc:39
    method SeekToLast()
      requires Valid()
      modifies Repr()
      ensures Valid() && pos == |merged| - 1 && (current.None? <==> pos == -1)
    {
      for i := 0 to |children|
        modifies Repr() - {this}
        invariant ChildrenOk()
        invariant forall j :: 0 <= j < i ==> AtLast(children[j].iter.entries, children[j].iter.pos, merged, |merged| - 1)
      {
        children[i].SeekToLast();
        EndIsLast(children[i].iter.entries, merged);
      }
      FindLargest(|merged| - 1);
      direction := Reverse;
    }

    // merger.cc:47
    method Seek(target: InternalKey)
      requires Valid()
      modifies Repr()
      ensures Valid() && pos == SeekPosition(merged, target) && (current.None? <==> pos == -1)
    {
      for i := 0 to |children|
        modifies Repr() - {this}
        invariant ChildrenOk()
        invariant forall j :: 0 <= j < i ==> AtFirst(children[j].iter.entries, children[j].iter.pos, merged, LowerBound(merged, target))
      {
        children[i].Seek(target);
        SoughtIsFirst(children[i].iter.entries, children[i].iter.pos, merged, target);
      }
      FindSmallest(LowerBound(merged, target));
      direction := Forward;
    }

    ghost predicate OthersAtFirst(c: nat, m: int)
      reads Repr()
    {
      forall j :: 0 <= j < |children| && j != c ==> AtFirst(children[j].iter.entries, children[j].iter.pos, merged, m)
    }

    ghost predicate OthersAtLast(c: nat, m: int)
      reads Repr()
    {
      forall j :: 0 <= j < |children| && j != c ==> AtLast(children[j].iter.entries, children[j].iter.pos, merged, m)
    }

    // merger.cc:67: a child other than the current one goes behind the current key.
    method PutAfter(i: nat, key: InternalKey)
      requires i < |children| && children[i].Ok() && Within(children[i].iter.entries, merged)
      requires 0 <= pos < |merged| && key == merged[pos].Ik()
      modifies children[i], children[i].iter
      ensures children[i].Ok() && AtFirst(children[i].iter.entries, children[i].iter.pos, merged, pos + 1)
    {
      SeekAfter(children[i], key);
      AfterHere(children[i].iter.entries, children[i].iter.pos, merged, pos);
    }

    // merger.cc:93: or before it.
    method PutBefore(i: nat, key: InternalKey)
      requires i < |children| && children[i].Ok() && Within(children[i].iter.entries, merged)
      requires 0 <= pos < |merged| && key == merged[pos].Ik()
      modifies children[i], children[i].iter
      ensures children[i].Ok() && AtLast(children[i].iter.entries, children[i].iter.pos, merged, pos - 1)
    {
      SeekBefore(children[i], key);
      BeforeHere(children[i].iter.entries, children[i].iter.pos, merged, pos);
    }

    // merger.cc:63
    method TurnForward()
      requires Apart() && ChildrenOk() && AtCurrent() && current.Some?
      modifies Repr()
      ensures ChildrenOk() && AtCurrent() && pos == old(pos) && current == old(current)
      ensures OthersAtFirst(current.value, pos + 1) && direction.Forward?
    {
      var c := current.value;
      var key := children[c].key;
      for i := 0 to |children|
        modifies Repr() - {this}
        invariant ChildrenOk()
        invariant forall j :: 0 <= j < i && j != c ==> AtFirst(children[j].iter.entries, children[j].iter.pos, merged, pos + 1)
        invariant unchanged(children[c], children[c].iter)
      {
        if i != c {
          PutAfter(i, key);
        }
      }
      direction := Forward;
    }

    // merger.cc:89
    method TurnBack()
      requires Apart() && ChildrenOk() && AtCurrent() && current.Some?
      modifies Repr()
      ensures ChildrenOk() && AtCurrent() && pos == old(pos) && current == old(current)
      ensures OthersAtLast(current.value, pos - 1) && direction.Reverse?
    {
      var c := current.value;
      var key := children[c].key;
      for i := 0 to |children|
        modifies Repr() - {this}
        invariant ChildrenOk()
        invariant forall j :: 0 <= j < i && j != c ==> AtLast(children[j].iter.entries, children[j].iter.pos, merged, pos - 1)
        invariant unchanged(children[c], children[c].iter)
      {
        if i != c {
          PutBefore(i, key);
        }
      }
      direction := Reverse;
    }

    lemma OthersSkip(c: nat)
      requires Valid() && current == Some(c)
      ensures direction.Forward? ==> OthersAtFirst(c, pos + 1)
      ensures direction.Reverse? ==> OthersAtLast(c, pos - 1)
    {
      forall j | 0 <= j < |children| && j != c
        ensures direction.Forward? ==> AtFirst(children[j].iter.entries, children[j].iter.pos, merged, pos + 1)
        ensures direction.Reverse? ==> AtLast(children[j].iter.entries, children[j].iter.pos, merged, pos - 1)
      {
        assert merged[pos] in children[c].iter.entries;
        if direction.Forward? {
          FirstSkips(children[j].iter.entries, children[j].iter.pos, merged, pos);
        } else {
          LastSkips(children[j].iter.entries, children[j].iter.pos, merged, pos);
        }
      }
    }

    method StepForward(c: nat)
      requires Shape() && ChildrenOk() && AtCurrent() && current == Some(c) && OthersAtFirst(c, pos + 1)
      modifies children[c], children[c].iter
      ensures ChildrenOk() && AllAtFirst(pos + 1)
    {
      FirstSteps(children[c].iter.entries, children[c].iter.pos, merged, pos);
      children[c].Next();
    }

    method StepBack(c: nat)
      requires Shape() && ChildrenOk() && AtCurrent() && current == Some(c) && OthersAtLast(c, pos - 1)
      modifies children[c], children[c].iter
      ensures ChildrenOk() && AllAtLast(pos - 1)
    {
      LastSteps(children[c].iter.entries, children[c].iter.pos, merged, pos);
      children[c].Prev();
    }

    // merger.cc:55
    method Next()
      requires Valid() && current.Some?
      modifies Repr()
      ensures Valid() && pos == After(|merged|, old(pos)) && (current.None? <==> pos == -1)
    {
      if direction.Reverse? {
        TurnForward();
      } else {
        OthersSkip(current.value);
      }
      StepForward(current.value);
      FindSmallest(pos + 1);
    }

    // merger.cc:81
    method Prev()
      requires Valid() && current.Some?
      modifies Repr()
      ensures Valid() && pos == old(pos) - 1 && (current.None? <==> pos == -1)
    {
      if direction.Forward? {
        TurnBack();
      } else {
        OthersSkip(current.value);
      }
      StepBack(current.value);
      FindLargest(pos - 1);
    }

    // merger.cc:110 and merger.cc:115
    function Current(): (e: Entry)
      requires Valid() && current.Some?
      reads Repr()
      ensures e == merged[pos]
    {
      children[current.value].iter.entries[children[current.value].iter.pos]
    }
  }
}
