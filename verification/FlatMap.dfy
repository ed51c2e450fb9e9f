/**
 The meaning of the store: a flat set of entries, read at a sequence number.
 Everything the engine does is compared with this.
 */
module FlatMap {
  import opened Keys

  // Every write gets a sequence number of its own.
  ghost predicate UniqueSeq(S: set<Entry>) {
    forall a, b :: a in S && b in S && a.sn == b.sn ==> a == b
  }

  ghost predicate Matches(e: Entry, k: UserKey, s: nat) {
    e.key == k && e.sn <= s
  }

  // e is the newest entry for k that a reader at sequence number s may see.
  ghost predicate IsNewest(S: set<Entry>, k: UserKey, s: nat, e: Entry) {
    e in S && Matches(e, k, s) && forall x :: x in S && Matches(x, k, s) ==> x.sn <= e.sn
  }

  lemma NewestExists(S: set<Entry>, k: UserKey, s: nat)
    requires exists x :: x in S && Matches(x, k, s)
    ensures exists e :: IsNewest(S, k, s, e)
    decreases |S|
  {
    var x :| x in S && Matches(x, k, s);
    var rest := S - {x};
    if exists y :: y in rest && Matches(y, k, s) {
      NewestExists(rest, k, s);
      var e :| IsNewest(rest, k, s, e);
      assert IsNewest(S, k, s, if x.sn >= e.sn then x else e);
    } else {
      assert IsNewest(S, k, s, x);
    }
  }

  ghost function Lookup(S: set<Entry>, k: UserKey, s: nat): (r: Option<Entry>)
    ensures r.Some? ==> IsNewest(S, k, s, r.value)
    ensures r.None? ==> forall x :: x in S ==> !Matches(x, k, s)
  {
    if exists x :: x in S && Matches(x, k, s) then
      NewestExists(S, k, s);
      var e :| IsNewest(S, k, s, e);
      Some(e)
    else None
  }

  // A deletion marker and an absent key look the same to a reader.
  function Answer(r: Option<Entry>): Option<string> {
    if r.Some? && r.value.kind.Put? then Some(r.value.kind.value) else None
  }

  ghost function Get(S: set<Entry>, k: UserKey, s: nat): Option<string> {
    Answer(Lookup(S, k, s))
  }

  lemma LookupIs(S: set<Entry>, k: UserKey, s: nat, e: Entry)
    requires UniqueSeq(S) && IsNewest(S, k, s, e)
    ensures Lookup(S, k, s) == Some(e)
  {
    assert e in S && Matches(e, k, s);
  }

  // Every entry of A is newer than every entry of B for the same user key.
  ghost predicate Newer(A: set<Entry>, B: set<Entry>) {
    forall a, b :: a in A && b in B && a.key == b.key ==> a.sn > b.sn
  }

  // A place whose entries are newer than the rest decides a lookup it can answer.
  lemma LookupInNewer(A: set<Entry>, B: set<Entry>, k: UserKey, s: nat)
    requires UniqueSeq(A + B) && Newer(A, B)
    ensures Lookup(A + B, k, s) == if Lookup(A, k, s).Some? then Lookup(A, k, s) else Lookup(B, k, s)
  {
    var a, b := Lookup(A, k, s), Lookup(B, k, s);
    if a.Some? {
      LookupIs(A + B, k, s, a.value);
    } else if b.Some? {
      LookupIs(A + B, k, s, b.value);
    }
  }
}
