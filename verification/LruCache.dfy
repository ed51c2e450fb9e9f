/**
 The LRU cache (util/cache.cc:166): handles counted by reference, found through the hash
 table, and kept on one of two lists, in use by clients or waiting to be evicted. Every
 handle is deleted once, when nothing refers to it any more.
 */
module LruCache {
  import H = HandleTable
  import opened Rings

  type Ref = H.Ref
  type Name = H.Name

  const LRU: Ref := 1
  const IN_USE: Ref := 2
  const FIRST: Ref := 3

  // cache.cc:42
  datatype Entry = Entry(name: Name, charge: nat, inCache: bool, refs: nat)

  // The cache without its pointers: live handles, what the table finds, the two lists,
  // oldest first, the references that clients hold, and the handles that were deleted.
  datatype State = State(entries: map<Ref, Entry>, contents: map<Name, Ref>, lru: seq<Ref>, inUse: seq<Ref>,
    clients: map<Ref, nat>, deleted: seq<Ref>, nextRef: Ref, usage: nat)

  /* ---- lists ---- */

  function Remove(r: seq<Ref>, e: Ref): seq<Ref> {
    if r == [] then [] else if r[0] == e then r[1..] else [r[0]] + Remove(r[1..], e)
  }

  lemma {:induction false} RemoveMembers(r: seq<Ref>, e: Ref, x: Ref)
    requires H.Distinct(r)
    ensures x in Remove(r, e) <==> x in r && x != e
    ensures H.Distinct(Remove(r, e))
  {
    if r != [] {
      assert r == [r[0]] + r[1..];
      RemoveMembers(r[1..], e, x);
      if r[0] != e {
        assert H.Distinct(r[1..]);
        RemoveMembers(r[1..], e, r[0]);
        ConsDistinct(r[0], Remove(r[1..], e));
      }
    }
  }

  lemma ConsDistinct(x: Ref, r: seq<Ref>)
    requires H.Distinct(r) && x !in r
    ensures H.Distinct([x] + r)
  {
  }

  lemma {:induction false} RemoveIsWithout(r: seq<Ref>, p: nat)
    requires H.Distinct(r) && p < |r|
    ensures Remove(r, r[p]) == Without(r, p)
    decreases p
  {
    if p > 0 {
      assert r[1..][p - 1] == r[p];
      RemoveIsWithout(r[1..], p - 1);
      assert [r[0]] + Without(r[1..], p - 1) == Without(r, p);
    }
  }

  /* ---- charges ---- */

  function Charges(entries: map<Ref, Entry>, r: seq<Ref>): nat {
    if r == [] then 0 else Charges(entries, r[..|r| - 1]) + (if r[|r| - 1] in entries then entries[r[|r| - 1]].charge else 0)
  }

  lemma {:induction false} ChargesKept(entries: map<Ref, Entry>, entries': map<Ref, Entry>, r: seq<Ref>)
    requires forall h :: h in r ==> h in entries && h in entries' && entries'[h].charge == entries[h].charge
    ensures Charges(entries', r) == Charges(entries, r)
  {
    if r != [] {
      ChargesKept(entries, entries', r[..|r| - 1]);
    }
  }

  lemma ChargesPush(entries: map<Ref, Entry>, r: seq<Ref>, e: Ref)
    requires e in entries
    ensures Charges(entries, r + [e]) == Charges(entries, r) + entries[e].charge
  {
    assert (r + [e])[..|r|] == r;
  }

  lemma {:induction false} ChargesRemove(entries: map<Ref, Entry>, r: seq<Ref>, e: Ref)
    requires e in r && e in entries && H.Distinct(r)
    ensures Charges(entries, Remove(r, e)) == Charges(entries, r) - entries[e].charge
  {
    var p :| 0 <= p < |r| && r[p] == e;
    RemoveIsWithout(r, p);
    ChargesWithout(entries, r, p);
  }

  lemma {:induction false} ChargesWithout(entries: map<Ref, Entry>, r: seq<Ref>, p: nat)
    requires p < |r| && r[p] in entries
    ensures Charges(entries, Without(r, p)) == Charges(entries, r) - entries[r[p]].charge
    decreases |r|
  {
    var n := |r| - 1;
    if p == n {
      assert Without(r, p) == r[..n];
    } else {
      ChargesWithout(entries, r[..n], p);
      assert Without(r, p)[..n - 1] == Without(r[..n], p) && Without(r, p)[n - 1] == r[n];
    }
  }

  /* ---- what always holds ---- */

  // In the cache and wanted by the cache alone, or by a client too.
  predicate Idle(s: State, h: Ref) {
    h in s.entries && s.entries[h].inCache && s.entries[h].refs == 1
  }

  predicate Busy(s: State, h: Ref) {
    h in s.entries && s.entries[h].inCache && s.entries[h].refs >= 2
  }

  // Every handle in the cache is on exactly one list, which its references decide.
  ghost predicate Listed(s: State) {
    H.Distinct(s.lru) && H.Distinct(s.inUse) && forall h :: Placed(s, h)
  }

  ghost predicate Placed(s: State, h: Ref) {
    (h in s.lru <==> Idle(s, h)) && (h in s.inUse <==> Busy(s, h))
  }

  // The table finds the handles in the cache, except for one that is just leaving it.
  ghost predicate Tabled(s: State, leaving: Ref) {
    && (forall n :: n in s.contents ==> Finds(s, n) && s.contents[n] != leaving)
    && (forall h :: h in s.entries && h != leaving ==> Found(s, h))
  }

  ghost predicate Finds(s: State, n: Name)
    requires n in s.contents
  {
    s.contents[n] in s.entries && s.entries[s.contents[n]].inCache && s.entries[s.contents[n]].name == n
  }

  ghost predicate Found(s: State, h: Ref)
    requires h in s.entries
  {
    s.entries[h].inCache ==> s.entries[h].name in s.contents && s.contents[s.entries[h].name] == h
  }

  // References are those of the clients and of the cache, and one more for a handle that
  // is just let go of.
  ghost predicate Counted(s: State, letGo: Ref) {
    && s.clients.Keys == s.entries.Keys
    && forall h :: h in s.entries ==> Adds(s, h, Extra(h, letGo))
  }

  function Extra(h: Ref, letGo: Ref): nat {
    if h == letGo then 1 else 0
  }

  ghost predicate Adds(s: State, h: Ref, extra: nat)
    requires h in s.entries && h in s.clients
  {
    s.entries[h].refs > 0 && s.entries[h].refs == s.clients[h] + (if s.entries[h].inCache then 1 else 0) + extra
  }

  // Every handle there ever was is alive or deleted, once.
  ghost predicate Accounted(s: State) {
    && H.Distinct(s.deleted) && s.nextRef >= FIRST
    && (forall h :: h in s.entries ==> FIRST <= h < s.nextRef && h !in s.deleted)
    && (forall h :: h in s.deleted ==> FIRST <= h < s.nextRef)
    && (forall h :: FIRST <= h < s.nextRef ==> h in s.entries || h in s.deleted)
  }

  ghost predicate Charged(s: State) {
    s.usage == Charges(s.entries, s.lru) + Charges(s.entries, s.inUse)
  }

  ghost predicate OkBut(s: State, leaving: Ref, letGo: Ref) {
    Listed(s) && Tabled(s, leaving) && Counted(s, letGo) && Accounted(s) && Charged(s)
  }

  ghost predicate Ok(s: State) {
    OkBut(s, H.NIL, H.NIL)
  }

  /* ---- steps ---- */

  // cache.cc:217: a client refers to a handle.
  function Referred(s: State, e: Ref): State
    requires e in s.entries && e in s.clients
  {
    var x := s.entries[e];
    var t := s.(entries := s.entries[e := x.(refs := x.refs + 1)], clients := s.clients[e := s.clients[e] + 1]);
    if x.refs == 1 && x.inCache then t.(lru := Remove(s.lru, e), inUse := s.inUse + [e]) else t
  }

  // cache.cc:225: a reference is dropped.
  function Dropped(s: State, e: Ref): State
    requires e in s.entries && s.entries[e].refs > 0
  {
    var x := s.entries[e];
    if x.refs == 1 then
      s.(entries := s.entries - {e}, clients := s.clients - {e}, deleted := s.deleted + [e])
    else
      var t := s.(entries := s.entries[e := x.(refs := x.refs - 1)]);
      if x.inCache && x.refs == 2 then t.(lru := s.lru + [e], inUse := Remove(s.inUse, e)) else t
  }

  // cache.cc:307: a handle leaves the cache; its lists first, then the cache's reference.
  function Uncached(s: State, e: Ref): State
    requires e in s.entries && s.entries[e].inCache && s.entries[e].charge <= s.usage
  {
    s.(entries := s.entries[e := s.entries[e].(inCache := false)], lru := Remove(s.lru, e), inUse := Remove(s.inUse, e),
      usage := s.usage - s.entries[e].charge)
  }

  function Erased(s: State, e: Ref): State
    requires e in s.entries && s.entries[e].inCache && s.entries[e].refs > 0 && s.entries[e].charge <= s.usage
  {
    Dropped(Uncached(s, e), e)
  }

  // cache.cc:272: a new handle, with a reference for the client and, if it is cached, one
  // for the cache.
  function Created(s: State, n: Name, charge: nat, caching: bool): State {
    var h := s.nextRef;
    var t := s.(entries := s.entries[h := Entry(n, charge, caching, if caching then 2 else 1)],
      clients := s.clients[h := 1], nextRef := h + 1);
    if caching then t.(contents := s.contents[n := h], inUse := s.inUse + [h], usage := s.usage + charge) else t
  }

  lemma PushDistinct(r: seq<Ref>, e: Ref)
    requires H.Distinct(r) && e !in r
    ensures H.Distinct(r + [e])
  {
  }

  lemma RemoveAll(r: seq<Ref>, e: Ref)
    requires H.Distinct(r)
    ensures H.Distinct(Remove(r, e)) && forall x :: x in Remove(r, e) <==> x in r && x != e
  {
    RemoveMembers(r, e, e);
    forall x
      ensures x in Remove(r, e) <==> x in r && x != e
    {
      RemoveMembers(r, e, x);
    }
  }

  // The lists hold live handles.
  lemma ListedAlive(s: State)
    requires Listed(s)
    ensures forall h :: h in s.lru || h in s.inUse ==> h in s.entries
  {
    forall h | h in s.lru || h in s.inUse
      ensures h in s.entries
    {
      assert Placed(s, h);
    }
  }

  // Charges do not depend on references.
  lemma SameCharges(s: State, t: State, r: seq<Ref>)
    requires forall h :: h in r ==> h in s.entries && h in t.entries && t.entries[h].charge == s.entries[h].charge
    ensures Charges(t.entries, r) == Charges(s.entries, r)
  {
    ChargesKept(s.entries, t.entries, r);
  }

  lemma ReferredOk(s: State, e: Ref)
    requires Ok(s) && e in s.entries
    ensures e in s.clients && Ok(Referred(s, e))
  {
    hide Listed, Tabled, Counted, Accounted, Charged, Referred;
    NotNil(s, e);
    Refers(s, e);
    ReferredListed(s, e);
    ReferredCharged(s, e);
    ReferredTabled(s, e);
    ReferredCounted(s, e);
  }

  lemma Refers(s: State, e: Ref)
    requires Counted(s, H.NIL) && e in s.entries
    ensures e in s.clients && s.entries[e].refs > 0
    ensures Accounted(s) ==> Accounted(Referred(s, e))
  {
    assert Adds(s, e, Extra(e, H.NIL));
  }

  lemma ReferredTabled(s: State, e: Ref)
    requires Tabled(s, H.NIL) && e in s.entries && e in s.clients && e != H.NIL
    ensures Tabled(Referred(s, e), H.NIL)
  {
    var t := Referred(s, e);
    forall h | h in t.entries && h != H.NIL
      ensures Found(t, h)
    {
      assert Found(s, h);
    }
    forall n | n in t.contents
      ensures Finds(t, n) && t.contents[n] != H.NIL
    {
      assert Finds(s, n);
    }
  }

  lemma ReferredCounted(s: State, e: Ref)
    requires Counted(s, H.NIL) && e in s.entries && e in s.clients && e != H.NIL
    ensures Counted(Referred(s, e), H.NIL)
  {
    var t := Referred(s, e);
    forall h | h in t.entries
      ensures Adds(t, h, Extra(h, H.NIL))
    {
      assert Adds(s, h, Extra(h, H.NIL));
    }
  }

  lemma NotNil(s: State, e: Ref)
    requires Accounted(s) && e in s.entries
    ensures e != H.NIL && e >= FIRST
  {
  }

  lemma ReferredListed(s: State, e: Ref)
    requires Listed(s) && e in s.entries && e in s.clients && s.entries[e].refs > 0
    ensures Listed(Referred(s, e))
  {
    var t := Referred(s, e);
    hide H.Distinct, Remove;
    RemoveAll(s.lru, e);
    assert Placed(s, e);
    PushDistinctIf(s.inUse, e);
    forall h
      ensures Placed(t, h)
    {
      assert Placed(s, h);
    }
  }

  lemma PushDistinctIf(r: seq<Ref>, e: Ref)
    requires H.Distinct(r)
    ensures e !in r ==> H.Distinct(r + [e])
  {
    if e !in r {
      PushDistinct(r, e);
    }
  }

  lemma ReferredCharged(s: State, e: Ref)
    requires Listed(s) && Charged(s) && e in s.entries && e in s.clients
    ensures Charged(Referred(s, e))
  {
    var t := Referred(s, e);
    hide H.Distinct, Remove, Charges;
    ListedAlive(s);
    RemoveAll(s.lru, e);
    assert Placed(s, e);
    SameCharges(s, t, s.inUse);
    if Idle(s, e) {
      SameCharges(s, t, t.lru);
      ChargesRemove(s.entries, s.lru, e);
      ChargesPush(t.entries, s.inUse, e);
    } else {
      SameCharges(s, t, s.lru);
    }
  }

  // A handle that a client lets go of, or that has just left the cache.
  lemma DroppedOk(s: State, e: Ref)
    requires OkBut(s, H.NIL, e) && e in s.entries
    ensures s.entries[e].refs > 0 && Ok(Dropped(s, e))
  {
    hide Listed, Tabled, Counted, Accounted, Charged, Dropped;
    NotNil(s, e);
    LetGo(s, e);
    DroppedListed(s, e);
    DroppedCharged(s, e);
    DroppedTabled(s, e);
    DroppedCounted(s, e);
    DroppedAccounted(s, e);
  }

  lemma LetGo(s: State, e: Ref)
    requires Counted(s, e) && e in s.entries
    ensures s.entries[e].refs > 0 && (s.entries[e].inCache ==> s.entries[e].refs > 1)
  {
    assert Adds(s, e, 1);
  }

  lemma DroppedTabled(s: State, e: Ref)
    requires Tabled(s, H.NIL) && e in s.entries && s.entries[e].refs > 0 && (s.entries[e].inCache ==> s.entries[e].refs > 1)
    ensures Tabled(Dropped(s, e), H.NIL)
  {
    var t := Dropped(s, e);
    forall h | h in t.entries && h != H.NIL
      ensures Found(t, h)
    {
      assert Found(s, h);
    }
    forall n | n in t.contents
      ensures Finds(t, n) && t.contents[n] != H.NIL
    {
      assert Finds(s, n);
    }
  }

  lemma DroppedCounted(s: State, e: Ref)
    requires Counted(s, e) && e in s.entries && s.entries[e].refs > 0 && e != H.NIL
    requires Accounted(s)
    ensures Counted(Dropped(s, e), H.NIL)
  {
    var t := Dropped(s, e);
    forall h | h in t.entries
      ensures h in t.clients && Adds(t, h, Extra(h, H.NIL))
    {
      assert h in s.entries;
      assert Adds(s, h, Extra(h, e));
    }
  }

  lemma DroppedListed(s: State, e: Ref)
    requires Listed(s) && e in s.entries && s.entries[e].refs > 0 && (s.entries[e].inCache ==> s.entries[e].refs > 1)
    ensures Listed(Dropped(s, e))
  {
    var t := Dropped(s, e);
    hide H.Distinct, Remove;
    RemoveAll(s.inUse, e);
    assert Placed(s, e);
    PushDistinctIf(s.lru, e);
    forall h
      ensures Placed(t, h)
    {
      assert Placed(s, h);
    }
  }

  lemma DroppedCharged(s: State, e: Ref)
    requires Listed(s) && Charged(s) && e in s.entries && s.entries[e].refs > 0 && (s.entries[e].inCache ==> s.entries[e].refs > 1)
    ensures Charged(Dropped(s, e))
  {
    var t := Dropped(s, e);
    hide H.Distinct, Remove, Charges;
    ListedAlive(s);
    RemoveAll(s.inUse, e);
    assert Placed(s, e);
    SameCharges(s, t, s.lru);
    if Busy(s, e) && s.entries[e].refs == 2 {
      SameCharges(s, t, t.inUse);
      ChargesRemove(s.entries, s.inUse, e);
      ChargesPush(t.entries, s.lru, e);
    } else {
      SameCharges(s, t, s.inUse);
    }
  }

  // A handle is deleted once, when it was not deleted before.
  lemma DroppedAccounted(s: State, e: Ref)
    requires Accounted(s) && e in s.entries && s.entries[e].refs > 0
    ensures Accounted(Dropped(s, e))
  {
    if s.entries[e].refs == 1 {
      PushDistinct(s.deleted, e);
    }
  }

  // A handle that the table no longer finds leaves the lists and the cache.
  lemma UncachedOk(s: State, e: Ref)
    requires OkBut(s, e, H.NIL) && e in s.entries && s.entries[e].inCache
    ensures s.entries[e].charge <= s.usage && OkBut(Uncached(s, e), H.NIL, e)
  {
    hide Listed, Tabled, Counted, Accounted, Charged, Uncached;
    NotNil(s, e);
    Refers(s, e);
    UncachedCharge(s, e);
    UncachedListed(s, e);
    ContentsNotNil(s, e);
    UncachedTabled(s, e);
    UncachedCounted(s, e);
  }

  lemma UncachedTabled(s: State, e: Ref)
    requires Tabled(s, e) && e in s.entries && s.entries[e].inCache && s.entries[e].charge <= s.usage
    requires forall n :: n in s.contents ==> s.contents[n] != H.NIL
    ensures Tabled(Uncached(s, e), H.NIL)
  {
    var t := Uncached(s, e);
    forall h | h in t.entries && h != H.NIL
      ensures Found(t, h)
    {
      assert h != e ==> Found(s, h);
    }
    forall n | n in t.contents
      ensures Finds(t, n)
    {
      assert Finds(s, n);
    }
  }

  lemma UncachedCounted(s: State, e: Ref)
    requires Counted(s, H.NIL) && Accounted(s) && e in s.entries && s.entries[e].inCache && s.entries[e].charge <= s.usage
    ensures Counted(Uncached(s, e), e) && Accounted(Uncached(s, e))
  {
    var t := Uncached(s, e);
    forall h | h in t.entries
      ensures h in t.clients && Adds(t, h, Extra(h, e))
    {
      assert Adds(s, h, Extra(h, H.NIL));
    }
  }

  lemma ContentsNotNil(s: State, leaving: Ref)
    requires Tabled(s, leaving) && Accounted(s)
    ensures forall n :: n in s.contents ==> s.contents[n] != H.NIL
  {
    forall n | n in s.contents
      ensures s.contents[n] != H.NIL
    {
      assert Finds(s, n);
    }
  }

  lemma UncachedListed(s: State, e: Ref)
    requires Listed(s) && e in s.entries && s.entries[e].inCache && s.entries[e].charge <= s.usage
    ensures Listed(Uncached(s, e))
  {
    var t := Uncached(s, e);
    hide H.Distinct, Remove;
    RemoveAll(s.inUse, e);
    RemoveAll(s.lru, e);
    forall h
      ensures Placed(t, h)
    {
      assert Placed(s, h);
    }
  }

  lemma {:induction false} RemoveNothing(r: seq<Ref>, e: Ref)
    requires e !in r
    ensures Remove(r, e) == r
  {
    if r != [] {
      RemoveNothing(r[1..], e);
    }
  }

  lemma UncachedCharge(s: State, e: Ref)
    requires Listed(s) && Charged(s) && e in s.entries && s.entries[e].inCache && s.entries[e].refs > 0
    ensures s.entries[e].charge <= s.usage && Charged(Uncached(s, e))
  {
    hide H.Distinct, Remove, Charges;
    ListedAlive(s);
    assert Placed(s, e);
    RemoveAll(s.lru, e);
    RemoveAll(s.inUse, e);
    if e in s.lru {
      ChargesRemove(s.entries, s.lru, e);
      RemoveNothing(s.inUse, e);
    } else {
      ChargesRemove(s.entries, s.inUse, e);
      RemoveNothing(s.lru, e);
    }
    var t := Uncached(s, e);
    SameCharges(s, t, t.lru);
    SameCharges(s, t, t.inUse);
  }

  lemma ErasedOk(s: State, e: Ref)
    requires OkBut(s, e, H.NIL) && e in s.entries && s.entries[e].inCache
    ensures s.entries[e].refs > 0 && s.entries[e].charge <= s.usage && Ok(Erased(s, e))
  {
    Refers(s, e);
    hide OkBut;
    UncachedOk(s, e);
    DroppedOk(Uncached(s, e), e);
  }

  // A new handle; the one it replaces, if any, is just leaving the cache.
  lemma CreatedOk(s: State, n: Name, charge: nat, caching: bool)
    requires Ok(s)
    ensures OkBut(Created(s, n, charge, caching), if caching && n in s.contents then s.contents[n] else H.NIL, H.NIL)
  {
    hide Listed, Tabled, Counted, Accounted, Charged, Created;
    CreatedListed(s, n, charge, caching);
    CreatedTabled(s, n, charge, caching);
    CreatedCounted(s, n, charge, caching);
  }

  lemma CreatedTabled(s: State, n: Name, charge: nat, caching: bool)
    requires Tabled(s, H.NIL) && Accounted(s)
    ensures Tabled(Created(s, n, charge, caching), if caching && n in s.contents then s.contents[n] else H.NIL)
  {
    var t := Created(s, n, charge, caching);
    var leaving := if caching && n in s.contents then s.contents[n] else H.NIL;
    forall h | h in t.entries && h != leaving
      ensures Found(t, h)
    {
      assert h != s.nextRef && h != H.NIL ==> Found(s, h);
    }
    forall m | m in t.contents
      ensures Finds(t, m) && t.contents[m] != leaving
    {
      assert m in s.contents ==> Finds(s, m);
      assert n in s.contents ==> Finds(s, n);
    }
  }

  lemma CreatedCounted(s: State, n: Name, charge: nat, caching: bool)
    requires Counted(s, H.NIL) && Accounted(s)
    ensures Counted(Created(s, n, charge, caching), H.NIL) && Accounted(Created(s, n, charge, caching))
  {
    var t := Created(s, n, charge, caching);
    forall h | h in t.entries
      ensures h in t.clients && Adds(t, h, Extra(h, H.NIL))
    {
      assert h != s.nextRef ==> Adds(s, h, Extra(h, H.NIL));
    }
  }

  lemma CreatedListed(s: State, n: Name, charge: nat, caching: bool)
    requires Listed(s) && Charged(s) && Accounted(s)
    ensures Listed(Created(s, n, charge, caching)) && Charged(Created(s, n, charge, caching))
  {
    var t := Created(s, n, charge, caching);
    hide H.Distinct, Charges;
    ListedAlive(s);
    assert s.nextRef !in s.entries;
    PushDistinctIf(s.inUse, s.nextRef);
    forall h
      ensures Placed(t, h)
    {
      assert Placed(s, h);
    }
    SameCharges(s, t, s.lru);
    SameCharges(s, t, s.inUse);
    ChargesPush(t.entries, s.inUse, s.nextRef);
  }

  // A client gives up a reference.
  function Released(s: State, e: Ref): State
    requires e in s.entries && s.entries[e].refs > 0 && e in s.clients && s.clients[e] > 0
  {
    Dropped(s.(clients := s.clients[e := s.clients[e] - 1]), e)
  }

  lemma ReleasedOk(s: State, e: Ref)
    requires Ok(s) && e in s.clients && s.clients[e] > 0
    ensures e in s.entries && s.entries[e].refs > 0
    ensures OkBut(s.(clients := s.clients[e := s.clients[e] - 1]), H.NIL, e)
  {
    var t := s.(clients := s.clients[e := s.clients[e] - 1]);
    hide H.Distinct, Charges;
    assert e in s.entries;
    NotNil(s, e);
    assert Adds(s, e, Extra(e, H.NIL));
    forall h
      ensures Placed(t, h)
    {
      assert Placed(s, h);
    }
    forall h | h in t.entries
      ensures Adds(t, h, Extra(h, e)) && (h != H.NIL ==> Found(t, h))
    {
      assert Adds(s, h, Extra(h, H.NIL)) && (h != H.NIL ==> Found(s, h));
    }
    forall n | n in t.contents
      ensures Finds(t, n)
    {
      assert Finds(s, n);
    }
  }

  // The table no longer finds a name.
  function Lost(s: State, n: Name): State {
    s.(contents := s.contents - {n})
  }

  lemma LostOk(s: State, n: Name)
    requires Ok(s) && n in s.contents
    ensures s.contents[n] in s.entries && s.entries[s.contents[n]].inCache && s.entries[s.contents[n]].name == n && s.contents[n] != H.NIL
    ensures OkBut(Lost(s, n), s.contents[n], H.NIL)
  {
    var t, e := Lost(s, n), s.contents[n];
    hide H.Distinct, Charges;
    assert Finds(s, n);
    NotNil(s, e);
    forall h
      ensures Placed(t, h)
    {
      assert Placed(s, h);
    }
    forall h | h in t.entries
      ensures Adds(t, h, Extra(h, H.NIL)) && (h != e ==> Found(t, h))
    {
      assert Adds(s, h, Extra(h, H.NIL)) && (h != H.NIL ==> Found(s, h));
    }
    forall m | m in t.contents
      ensures Finds(t, m) && t.contents[m] != e
    {
      assert Finds(s, m);
    }
  }

  // A name and its handle leave the cache.
  ghost function Forgotten(s: State, n: Name): (t: State)
    requires Ok(s)
    ensures Ok(t)
  {
    if n !in s.contents then s
    else
      LostOk(s, n);
      ErasedOk(Lost(s, n), s.contents[n]);
      Erased(Lost(s, n), s.contents[n])
  }

  // What the cache has left to do when the table has let go of a name.
  lemma Forgets(s: State, n: Name)
    requires Ok(s)
    ensures Lost(s, n) == State(s.entries, s.contents - {n}, s.lru, s.inUse, s.clients, s.deleted, s.nextRef, s.usage)
    ensures n !in s.contents ==> Lost(s, n) == s == Forgotten(s, n)
    ensures n in s.contents ==>
      var e := s.contents[n];
      e != H.NIL && e in s.entries && s.entries[e].inCache && s.entries[e].refs > 0 && s.entries[e].charge <= s.usage
      && OkBut(Lost(s, n), e, H.NIL) && Forgotten(s, n) == Erased(Lost(s, n), e)
  {
    if n in s.contents {
      LostOk(s, n);
      hide OkBut;
      ErasedOk(Lost(s, n), s.contents[n]);
    } else {
      assert s.contents - {n} == s.contents;
    }
  }

  // cache.cc:294: evict from the oldest on while too much is charged.
  ghost function Trimmed(s: State, limit: int): (t: State)
    requires Ok(s)
    ensures Ok(t) && (t.usage <= limit || t.lru == [])
    decreases |s.lru|
  {
    if s.usage <= limit || s.lru == [] then s
    else
      OldestGoes(s);
      Trimmed(Forgotten(s, s.entries[s.lru[0]].name), limit)
  }

  // The oldest idle handle is deleted, and nothing else changes.
  lemma OldestGoes(s: State)
    requires Ok(s) && s.lru != []
    ensures s.lru[0] in s.entries
    ensures var e := s.lru[0];
      var n := s.entries[e].name;
      n in s.contents && s.contents[n] == e
      && Forgotten(s, n) == State(s.entries - {e}, s.contents - {n}, s.lru[1..], s.inUse, s.clients - {e}, s.deleted + [e], s.nextRef,
        s.usage - s.entries[e].charge) && s.entries[e].charge <= s.usage && e in s.clients && s.clients[e] == 0
  {
    var e := s.lru[0];
    assert Placed(s, e);
    assert Adds(s, e, Extra(e, H.NIL));
    NotNil(s, e);
    assert Found(s, e);
    var n := s.entries[e].name;
    LostOk(s, n);
    ErasedOk(Lost(s, n), e);
    RemoveNothing(s.inUse, e);
    assert s.entries[e := s.entries[e].(inCache := false)] - {e} == s.entries - {e};
  }

  lemma {:induction false} ChargesFront(entries: map<Ref, Entry>, r: seq<Ref>, n: nat)
    requires 0 < n <= |r| && r[0] in entries && forall h :: h in r[1..] ==> h in entries && h != r[0]
    ensures Charges(entries, r[..n]) == entries[r[0]].charge + Charges(entries - {r[0]}, r[1..][..n - 1])
    decreases n
  {
    if n == 1 {
      assert r[..1] == [] + [r[0]];
      ChargesPush(entries, [], r[0]);
    } else {
      ChargesFront(entries, r, n - 1);
      assert r[1..][..n - 1] == r[1..][..n - 2] + [r[n - 1]] && r[..n] == r[..n - 1] + [r[n - 1]];
      assert r[1..][n - 2] == r[n - 1] && r[n - 1] in r[1..];
      ChargesPush(entries, r[..n - 1], r[n - 1]);
      ChargesPush(entries - {r[0]}, r[1..][..n - 2], r[n - 1]);
    }
  }

  lemma LruAlive(s: State)
    requires Listed(s) && s.lru != []
    ensures s.lru[0] in s.entries && forall h :: h in s.lru[1..] ==> h in s.entries && h != s.lru[0]
  {
    ListedAlive(s);
    assert s.lru[0] in s.lru;
  }

  // How many handles trimming evicts.
  ghost function Evictions(s: State, limit: int): nat
    requires Ok(s)
    decreases |s.lru|
  {
    if s.usage <= limit || s.lru == [] then 0
    else
      OldestGoes(s);
      1 + Evictions(Forgotten(s, s.entries[s.lru[0]].name), limit)
  }

  // Trimming deletes the oldest idle handles.
  lemma {:induction false} TrimsOldest(s: State, limit: int)
    requires Ok(s)
    ensures var k, t := Evictions(s, limit), Trimmed(s, limit);
      k <= |s.lru| && t.lru == s.lru[k..] && t.deleted == s.deleted + s.lru[..k] && t.inUse == s.inUse
    decreases |s.lru|
  {
    hide OkBut, Forgotten;
    if s.usage > limit && s.lru != [] {
      OldestGoes(s);
      TrimStep(s, limit);
      hide Trimmed, Evictions;
      var t := Forgotten(s, s.entries[s.lru[0]].name);
      TrimsOldest(t, limit);
      var m := Evictions(t, limit);
      OneMore(s.deleted, s.lru, m);
    }
  }

  lemma OneMore(d: seq<Ref>, r: seq<Ref>, m: nat)
    requires m < |r|
    ensures d + [r[0]] + r[1..][..m] == d + r[..m + 1] && r[1..][m..] == r[m + 1..]
  {
    assert r[..m + 1] == [r[0]] + r[1..][..m];
  }

  // Trimming evicts no more handles than it must.
  lemma {:induction false} TrimsNoMore(s: State, limit: int, j: nat)
    requires Ok(s) && j <= Evictions(s, limit) <= |s.lru|
    ensures j == Evictions(s, limit) ==> Trimmed(s, limit).usage == s.usage - Charges(s.entries, s.lru[..j])
    ensures j < Evictions(s, limit) ==> s.usage - Charges(s.entries, s.lru[..j]) > limit
    decreases |s.lru|
  {
    hide OkBut, Forgotten, Charges;
    NothingCharged(s.entries, s.lru);
    if s.usage > limit && s.lru != [] && j > 0 {
      NextTrim(s, limit);
      hide Evictions, Trimmed;
      var t := Forgotten(s, s.entries[s.lru[0]].name);
      TrimsNoMore(t, limit, j - 1);
      ChargesFront(s.entries, s.lru, j);
    }
  }

  lemma NextTrim(s: State, limit: int)
    requires Ok(s) && s.usage > limit && s.lru != []
    ensures s.lru[0] in s.entries && (forall h :: h in s.lru[1..] ==> h in s.entries && h != s.lru[0])
    ensures var t := Forgotten(s, s.entries[s.lru[0]].name);
      && t.lru == s.lru[1..] && t.entries == s.entries - {s.lru[0]} && t.usage == s.usage - s.entries[s.lru[0]].charge
      && Trimmed(s, limit) == Trimmed(t, limit) && Evictions(s, limit) == 1 + Evictions(t, limit)
  {
    LruAlive(s);
    hide OkBut, Forgotten, Trimmed;
    OldestGoes(s);
    TrimStep(s, limit);
  }

  lemma TrimStep(s: State, limit: int)
    requires Ok(s) && s.usage > limit && s.lru != [] && s.lru[0] in s.entries
    ensures Trimmed(s, limit) == Trimmed(Forgotten(s, s.entries[s.lru[0]].name), limit)
    ensures Evictions(s, limit) == 1 + Evictions(Forgotten(s, s.entries[s.lru[0]].name), limit)
  {
  }

  // Trimming leaves alone whatever a client refers to.
  lemma {:induction false} TrimKeeps(s: State, limit: int, h: Ref)
    requires Ok(s) && h in s.clients && s.clients[h] > 0
    ensures Kept(s, Trimmed(s, limit), h)
    decreases |s.lru|
  {
    if s.usage > limit && s.lru != [] {
      LruAlive(s);
      hide OkBut, Forgotten, Trimmed, Evictions;
      OldestGoes(s);
      TrimStep(s, limit);
      TrimKeeps(Forgotten(s, s.entries[s.lru[0]].name), limit, h);
    }
  }

  lemma NothingCharged(entries: map<Ref, Entry>, r: seq<Ref>)
    ensures Charges(entries, r[..0]) == 0
  {
  }

  ghost predicate Kept(s: State, t: State, h: Ref) {
    && h in s.clients && h in t.clients && t.clients[h] == s.clients[h]
    && (h in s.entries ==> h in t.entries && t.entries[h] == s.entries[h])
  }

  /* ---- the cache ---- */

  // The lists as rings: the dummy heads, and the handles behind them.
  ghost predicate Linked(next: map<Ref, Ref>, prev: map<Ref, Ref>, lru: seq<Ref>, inUse: seq<Ref>) {
    && Ring(next, prev, [LRU] + lru) && Ring(next, prev, [IN_USE] + inUse)
    && (forall h :: h in lru ==> h !in inUse && h != IN_USE) && LRU !in inUse
  }

  lemma TakesOutOf(next: map<Ref, Ref>, prev: map<Ref, Ref>, head: Ref, list: seq<Ref>, other: seq<Ref>, e: Ref)
    requires Ring(next, prev, [head] + list) && Ring(next, prev, other) && e in list
    requires forall h :: h in [head] + list ==> h !in other
    ensures e in next && e in prev
    ensures Ring(next[prev[e] := next[e]], prev[next[e] := prev[e]], [head] + Remove(list, e))
    ensures Ring(next[prev[e] := next[e]], prev[next[e] := prev[e]], other)
  {
    var r := [head] + list;
    assert r[1..] == list && H.Distinct(list);
    hide Ring, H.Distinct, Remove;
    var q :| 0 <= q < |list| && list[q] == e;
    var p := q + 1;
    assert r[p] == e;
    Neighbours(next, prev, r, p);
    TakeOut(next, prev, r, p);
    RemoveIsWithout(list, q);
    assert Without(r, p) == [head] + Without(list, q);
    assert r[p - 1] in r && Succ(r, p) in r;
    RingKept(next, prev, other, next[prev[e] := next[e]], prev[next[e] := prev[e]]);
  }

  lemma TakesOut(next: map<Ref, Ref>, prev: map<Ref, Ref>, lru: seq<Ref>, inUse: seq<Ref>, e: Ref)
    requires Linked(next, prev, lru, inUse) && (e in lru || e in inUse)
    ensures e in next && e in prev
    ensures Linked(next[prev[e] := next[e]], prev[next[e] := prev[e]], Remove(lru, e), Remove(inUse, e))
  {
    Apart(next, prev, lru, inUse);
    hide Ring, Remove, H.Distinct;
    RemoveAll(lru, e);
    RemoveAll(inUse, e);
    if e in lru {
      TakesOutOf(next, prev, LRU, lru, [IN_USE] + inUse, e);
      RemoveNothing(inUse, e);
    } else {
      TakesOutOf(next, prev, IN_USE, inUse, [LRU] + lru, e);
      RemoveNothing(lru, e);
    }
  }

  lemma Apart(next: map<Ref, Ref>, prev: map<Ref, Ref>, lru: seq<Ref>, inUse: seq<Ref>)
    requires Linked(next, prev, lru, inUse)
    ensures H.Distinct(lru) && H.Distinct(inUse)
    ensures forall h :: h in [LRU] + lru ==> h !in [IN_USE] + inUse
  {
    assert ([LRU] + lru)[1..] == lru && ([IN_USE] + inUse)[1..] == inUse;
  }

  lemma PutsInto(next: map<Ref, Ref>, prev: map<Ref, Ref>, head: Ref, list: seq<Ref>, other: seq<Ref>, e: Ref)
    requires Ring(next, prev, [head] + list) && Ring(next, prev, other) && e !in [head] + list && e !in other
    requires forall h :: h in [head] + list ==> h !in other
    ensures head in prev && prev[head] != e
    ensures Ring(next[e := head][prev[head] := e], prev[e := prev[head]][head := e], [head] + (list + [e]))
    ensures Ring(next[e := head][prev[head] := e], prev[e := prev[head]][head := e], other)
  {
    var r := [head] + list;
    LastIsBefore(next, prev, r);
    PutIn(next, prev, r, e);
    assert r + [e] == [head] + (list + [e]);
    assert r[0] in r && r[|r| - 1] in r;
    RingKept(next, prev, other, next[e := head][prev[head] := e], prev[e := prev[head]][head := e]);
  }

  lemma PutsIn(next: map<Ref, Ref>, prev: map<Ref, Ref>, lru: seq<Ref>, inUse: seq<Ref>, head: Ref, e: Ref)
    requires Linked(next, prev, lru, inUse) && e !in lru && e !in inUse && e != LRU && e != IN_USE && (head == LRU || head == IN_USE)
    ensures head in prev && prev[head] != e
    ensures Linked(next[e := head][prev[head] := e], prev[e := prev[head]][head := e],
      if head == LRU then lru + [e] else lru, if head == LRU then inUse else inUse + [e])
  {
    Apart(next, prev, lru, inUse);
    hide Ring, H.Distinct;
    if head == LRU {
      PutsInto(next, prev, LRU, lru, [IN_USE] + inUse, e);
    } else {
      PutsInto(next, prev, IN_USE, inUse, [LRU] + lru, e);
    }
  }

  // Which list a handle is on, and that taking it out takes it out.
  lemma Unlisted(s: State, e: Ref)
    requires Listed(s) && Accounted(s) && e in s.entries
    ensures e >= FIRST && (e in s.lru <==> Idle(s, e)) && (e in s.inUse <==> Busy(s, e))
    ensures e !in Remove(s.lru, e) && e !in Remove(s.inUse, e)
    ensures e !in s.lru ==> Remove(s.lru, e) == s.lru
    ensures e !in s.inUse ==> Remove(s.inUse, e) == s.inUse
  {
    assert Placed(s, e);
    RemoveMembers(s.lru, e, e);
    RemoveMembers(s.inUse, e, e);
    if e !in s.lru {
      RemoveNothing(s.lru, e);
    }
    if e !in s.inUse {
      RemoveNothing(s.inUse, e);
    }
  }

  lemma DroppedIs(s: State, e: Ref)
    requires e in s.entries && s.entries[e].refs > 0
    ensures s.entries[e].refs == 1 ==>
      Dropped(s, e) == State(s.entries - {e}, s.contents, s.lru, s.inUse, s.clients - {e}, s.deleted + [e], s.nextRef, s.usage)
    ensures s.entries[e].refs > 1 && !(s.entries[e].inCache && s.entries[e].refs == 2) ==>
      Dropped(s, e) == s.(entries := s.entries[e := s.entries[e].(refs := s.entries[e].refs - 1)])
    ensures s.entries[e].inCache && s.entries[e].refs == 2 ==>
      Dropped(s, e) == s.(entries := s.entries[e := s.entries[e].(refs := s.entries[e].refs - 1)], lru := s.lru + [e], inUse := Remove(s.inUse, e))
  {
  }

  lemma InSomeList(s: State, e: Ref)
    requires Listed(s) && Counted(s, H.NIL) && Accounted(s) && e in s.entries && s.entries[e].inCache
    ensures e in s.lru || e in s.inUse
  {
    assert Placed(s, e);
    assert Adds(s, e, Extra(e, H.NIL));
  }

  lemma TableEntry(s: State, n: Name)
    requires Tabled(s, H.NIL)
    ensures n in s.contents ==> s.contents[n] in s.entries
  {
    assert n in s.contents ==> Finds(s, n);
  }

  lemma FirstOfRing(next: map<Ref, Ref>, prev: map<Ref, Ref>, lru: seq<Ref>, inUse: seq<Ref>)
    requires Linked(next, prev, lru, inUse)
    ensures LRU in next && next[LRU] == (if lru == [] then LRU else lru[0]) && LRU !in lru
  {
    var r := [LRU] + lru;
    assert RingAt(next, prev, r, 0);
    assert forall i :: 0 <= i < |lru| ==> lru[i] == r[i + 1] && r[i + 1] != r[0];
  }

  // A new handle in place of the one with its name, and the oldest idle ones evicted.
  ghost function Inserted(s: State, n: Name, charge: nat, capacity: nat): State
    requires Ok(s)
  {
    CreatedOk(s, n, charge, capacity > 0);
    var t := Created(s, n, charge, capacity > 0);
    if capacity > 0 && n in s.contents then
      ReplacedIs(s, n, charge);
      ErasedOk(t, s.contents[n]);
      Trimmed(Erased(t, s.contents[n]), capacity)
    else Trimmed(t, capacity)
  }

  // The new handle is its client's alone, and found under its name exactly when there is room
  // to cache at all; the other handles of clients stay as they are.
  lemma InsertedHolds(s: State, n: Name, charge: nat, capacity: nat)
    requires Ok(s)
    ensures var h, t := s.nextRef, Inserted(s, n, charge, capacity);
      && h in t.entries && h in t.clients && t.clients[h] == 1
      && t.entries[h] == Entry(n, charge, capacity > 0, if capacity > 0 then 2 else 1)
      && (forall m :: m in t.contents && t.contents[m] == h <==> capacity > 0 && m == n)
      && forall g :: g in s.clients && s.clients[g] > 0 && (g in s.entries ==> s.entries[g].name != n) ==> Kept(s, t, g)
  {
    hide OkBut, Trimmed, Erased;
    var h := s.nextRef;
    NewRef(s);
    CreatedOk(s, n, charge, capacity > 0);
    var t := Created(s, n, charge, capacity > 0);
    var u := t;
    if capacity > 0 && n in s.contents {
      ReplacedIs(s, n, charge);
      OlderRef(s, n);
      ErasedOk(t, s.contents[n]);
      u := Erased(t, s.contents[n]);
      ErasesOne(t, s.contents[n], h);
    }
    TrimKeeps(u, capacity, h);
    forall g | g in s.clients && s.clients[g] > 0 && (g in s.entries ==> s.entries[g].name != n)
      ensures Kept(s, Trimmed(u, capacity), g)
    {
      NotReplaced(s, n, g);
      if u != t {
        ErasesOne(t, s.contents[n], g);
      }
      TrimKeeps(u, capacity, g);
    }
    FoundOnce(Trimmed(u, capacity), n, h);
  }

  lemma OlderRef(s: State, n: Name)
    requires Ok(s) && n in s.contents
    ensures s.contents[n] != s.nextRef
  {
    NewRef(s);
    assert Finds(s, n);
  }

  lemma ErasesOne(t: State, e: Ref, h: Ref)
    requires OkBut(t, e, H.NIL) && e in t.entries && t.entries[e].inCache && h != e && h in t.entries && h in t.clients
    requires t.entries[e].refs > 0 && t.entries[e].charge <= t.usage
    ensures Kept(t, Erased(t, e), h)
  {
    hide OkBut, Remove;
  }

  lemma NotReplaced(s: State, n: Name, g: Ref)
    requires Ok(s) && g in s.clients && (g in s.entries ==> s.entries[g].name != n)
    ensures g in s.entries && g != s.nextRef && (n in s.contents ==> s.contents[n] != g)
  {
    NewRef(s);
    if n in s.contents {
      assert Finds(s, n);
    }
  }

  // A handle in the cache is found under its name, and under no other.
  lemma FoundOnce(t: State, n: Name, h: Ref)
    requires Ok(t) && h in t.entries && t.entries[h].name == n && h != H.NIL
    ensures forall m :: m in t.contents && t.contents[m] == h <==> t.entries[h].inCache && m == n
  {
    assert Found(t, h);
    forall m | m in t.contents && t.contents[m] == h
      ensures t.entries[h].inCache && m == n
    {
      assert Finds(t, m);
    }
  }

  lemma NewRef(s: State)
    requires Ok(s)
    ensures s.nextRef >= FIRST && s.nextRef !in s.entries && s.nextRef !in s.lru && s.nextRef !in s.inUse
  {
    ListedAlive(s);
  }

  lemma ReplacedIs(s: State, n: Name, charge: nat)
    requires Ok(s) && n in s.contents
    ensures var t := Created(s, n, charge, true);
      s.contents[n] != H.NIL && s.contents[n] in t.entries && t.entries[s.contents[n]].inCache
  {
    LostOk(s, n);
  }

  class LRUCache {
    const capacity: nat
    const table: H.HandleTable
    var usage: nat
    var next: map<Ref, Ref>
    var prev: map<Ref, Ref>
    var entries: map<Ref, Entry>
    var nextRef: Ref
    ghost var lru: seq<Ref>
    ghost var inUse: seq<Ref>
    ghost var clients: map<Ref, nat>
    ghost var deleted: seq<Ref>

    ghost function Now(): State
      reads this, table
    {
      State(entries, table.contents, lru, inUse, clients, deleted, nextRef, usage)
    }

    ghost predicate Linking()
      reads this, table
    {
      table.Valid() && Linked(next, prev, lru, inUse) && forall h :: h in table.names ==> h < nextRef
    }

    ghost predicate Valid()
      reads this, table
    {
      Linking() && Ok(Now())
    }

    // cache.cc:197
    constructor (capacity: nat)
      ensures Valid() && fresh(table) && this.capacity == capacity
      ensures Now() == State(map[], map[], [], [], map[], [], FIRST, 0)
    {
      this.capacity := capacity;
      table := new H.HandleTable();
      usage, nextRef, entries := 0, FIRST, map[];
      next, prev := map[LRU := LRU, IN_USE := IN_USE], map[LRU := LRU, IN_USE := IN_USE];
      lru, inUse, clients, deleted := [], [], map[], [];
    }

    // cache.cc:239: out of its list.
    method LRU_Remove(e: Ref)
      requires Linked(next, prev, lru, inUse) && (e in lru || e in inUse)
      modifies `next, `prev, `lru, `inUse
      ensures Linked(next, prev, lru, inUse)
      ensures lru == Remove(old(lru), e) && inUse == Remove(old(inUse), e)
    {
      TakesOut(next, prev, lru, inUse, e);
      next, prev := next[prev[e] := next[e]], prev[next[e] := prev[e]];
      lru, inUse := Remove(lru, e), Remove(inUse, e);
    }

    // cache.cc:244: the newest of a list, just before its head.
    method LRU_Append(list: Ref, e: Ref)
      requires Linked(next, prev, lru, inUse) && e !in lru && e !in inUse && e != LRU && e != IN_USE && (list == LRU || list == IN_USE)
      modifies `next, `prev, `lru, `inUse
      ensures Linked(next, prev, lru, inUse)
      ensures lru == if list == LRU then old(lru) + [e] else old(lru)
      ensures inUse == if list == LRU then old(inUse) else old(inUse) + [e]
    {
      hide Linked;
      PutsIn(next, prev, lru, inUse, list, e);
      next := next[e := list];
      prev := prev[e := prev[list]];
      next := next[prev[e] := e];
      prev := prev[next[e] := e];
      if list == LRU {
        lru := lru + [e];
      } else {
        inUse := inUse + [e];
      }
    }

    // cache.cc:217
    method Ref(e: Ref)
      requires Valid() && e in entries
      modifies `next, `prev, `lru, `inUse, `entries, `clients
      ensures e in old(clients) && Now() == Referred(old(Now()), e)
      ensures Valid()
    {
      hide Listed, Tabled, Counted, Accounted, Charged, Linked, Remove;
      ReferredOk(Now(), e);
      Unlisted(Now(), e);
      if entries[e].refs == 1 && entries[e].inCache {
        LRU_Remove(e);
        LRU_Append(IN_USE, e);
      }
      entries := entries[e := entries[e].(refs := entries[e].refs + 1)];
      clients := clients[e := clients[e] + 1];
    }

    // cache.cc:225
    method Unref(e: Ref)
      requires Linking() && OkBut(Now(), H.NIL, e) && e in entries
      modifies `next, `prev, `lru, `inUse, `entries, `clients, `deleted
      ensures old(entries[e].refs) > 0 && Now() == Dropped(old(Now()), e)
      ensures Valid()
    {
      hide Listed, Tabled, Counted, Accounted, Charged, Linked, Remove;
      ghost var s := Now();
      DroppedOk(s, e);
      Unlisted(s, e);
      DroppedIs(s, e);
      hide Ok, Dropped;
      var x := entries[e].(refs := entries[e].refs - 1);
      if x.refs == 0 {
        entries := entries - {e};
        clients := clients - {e};
        deleted := deleted + [e];
        return;
      }
      entries := entries[e := x];
      if x.inCache && x.refs == 1 {
        LRU_Remove(e);
        LRU_Append(LRU, e);
      }
    }

    // cache.cc:307: the table has already let go of the handle.
    method FinishErase(e: Ref) returns (erased: bool)
      requires Linking() && (if e == H.NIL then Ok(Now()) else OkBut(Now(), e, H.NIL) && e in entries && entries[e].inCache)
      modifies `next, `prev, `lru, `inUse, `entries, `clients, `deleted, `usage
      ensures erased == (e != H.NIL)
      ensures e != H.NIL ==> old(entries[e].refs > 0 && entries[e].charge <= usage)
      ensures Now() == if e == H.NIL then old(Now()) else Erased(old(Now()), e)
      ensures Valid()
    {
      hide Listed, Tabled, Counted, Accounted, Charged, Linked, Remove, Dropped;
      if e != H.NIL {
        ghost var s := Now();
        UncachedOk(s, e);
        ErasedOk(s, e);
        InSomeList(s, e);
        LRU_Remove(e);
        entries := entries[e := entries[e].(inCache := false)];
        usage := usage - entries[e].charge;
        assert Now() == Uncached(s, e);
        Unref(e);
      }
      erased := e != H.NIL;
    }

    // cache.cc:252
    method Lookup(n: Name) returns (h: Ref)
      requires Valid()
      modifies `next, `prev, `lru, `inUse, `entries, `clients
      ensures Valid() && h == if n in old(Now()).contents then old(Now()).contents[n] else H.NIL
      ensures h != H.NIL ==> h in old(entries) && h in old(clients)
      ensures Now() == if n in old(Now()).contents then Referred(old(Now()), h) else old(Now())
    {
      hide Tabled, Counted, Accounted, Charged, Listed, Linked;
      h := table.Lookup(n);
      if h != H.NIL {
        TableEntry(Now(), n);
        Ref(h);
      }
    }

    // cache.cc:261
    method Release(h: Ref)
      requires Valid() && h in clients && clients[h] > 0
      modifies `next, `prev, `lru, `inUse, `entries, `clients, `deleted
      ensures h in old(entries) && old(entries[h].refs) > 0 && Now() == Released(old(Now()), h)
      ensures Valid()
    {
      hide Tabled, Counted, Accounted, Charged, Listed, Linked, Dropped;
      ReleasedOk(Now(), h);
      clients := clients[h := clients[h] - 1];
      Unref(h);
    }

    // cache.cc:318
    method Erase(n: Name)
      requires Valid()
      modifies `next, `prev, `lru, `inUse, `entries, `clients, `deleted, `usage, table
      ensures old(Ok(Now())) && Now() == Forgotten(old(Now()), n)
      ensures Valid()
    {
      hide OkBut, Linked, Dropped, Forgotten, Lost;
      ghost var s := Now();
      Forgets(s, n);
      var e := table.Remove(n);
      var _ := FinishErase(e);
    }

    // cache.cc:294 and cache.cc:323
    method Trim(limit: int)
      requires Valid()
      modifies `next, `prev, `lru, `inUse, `entries, `clients, `deleted, `usage, table
      ensures old(Ok(Now())) && Now() == Trimmed(old(Now()), limit)
      ensures Valid()
    {
      hide Tabled, Counted, Accounted, Charged, Listed, Linked, Ok, Forgotten;
      while usage > limit && Oldest() != LRU
        invariant Valid() && Trimmed(Now(), limit) == Trimmed(old(Now()), limit)
        decreases |lru|
      {
        OldestGoes(Now());
        var e := Oldest();
        Erase(entries[e].name);
      }
    }

    // What follows the head of the idle list: its oldest handle, if there is one.
    function Oldest(): (e: Ref)
      requires Valid()
      reads this, table
      ensures if lru == [] then e == LRU else e == lru[0] && e != LRU
    {
      FirstOfRing(next, prev, lru, inUse);
      next[LRU]
    }

    // cache.cc:266
    method Insert(n: Name, charge: nat) returns (h: Ref)
      requires Valid()
      modifies `next, `prev, `lru, `inUse, `entries, `clients, `deleted, `usage, `nextRef, table
      ensures Ok(old(Now())) && h == old(nextRef)
      ensures Now() == Inserted(old(Now()), n, charge, capacity)
      ensures Valid() && (usage <= capacity || lru == [])
    {
      hide OkBut, Linked, Dropped, Remove;
      ghost var s := Now();
      NewRef(s);
      h := Create(n, charge);
      if capacity > 0 {
        if n in s.contents {
          ReplacedIs(s, n, charge);
        }
        var replaced := table.Insert(h, n);
        assert Now() == Created(s, n, charge, true);
        var _ := FinishErase(replaced);
      }
      Trim(capacity);
    }

    // cache.cc:272: a new handle; if it is to be cached it is listed and charged, and only
    // the table does not find it yet.
    method Create(n: Name, charge: nat) returns (h: Ref)
      requires Valid()
      modifies `next, `prev, `lru, `inUse, `entries, `clients, `usage, `nextRef
      ensures Linking() && h == old(nextRef) && OkBut(Created(old(Now()), n, charge, capacity > 0),
        if capacity > 0 && n in old(Now()).contents then old(Now()).contents[n] else H.NIL, H.NIL)
      ensures Now() == Created(old(Now()), n, charge, capacity > 0).(contents := old(Now()).contents)
    {
      hide OkBut, Linked, Dropped, Remove;
      ghost var s := Now();
      CreatedOk(s, n, charge, capacity > 0);
      NewRef(s);
      h := nextRef;
      nextRef := nextRef + 1;
      entries := entries[h := Entry(n, charge, capacity > 0, if capacity > 0 then 2 else 1)];
      clients := clients[h := 1];
      if capacity > 0 {
        LRU_Append(IN_USE, h);
        usage := usage + charge;
      }
    }

    // cache.cc:323
    method Prune()
      requires Valid()
      modifies `next, `prev, `lru, `inUse, `entries, `clients, `deleted, `usage, table
      ensures old(Ok(Now())) && Now() == Trimmed(old(Now()), -1)
      ensures Valid() && lru == [] && inUse == old(inUse)
    {
      ghost var s := Now();
      Trim(-1);
      TrimsOldest(s, -1);
    }
  }
}
