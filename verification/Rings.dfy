/**
 Circular doubly linked lists with a dummy head (util/cache.cc:239): taking a handle out of
 its ring and putting one in before the head.
 */
module Rings {
  import opened HandleTable

  // What follows position i around a ring.
  function Succ(r: seq<Ref>, i: nat): Ref
    requires i < |r|
  {
    if i + 1 < |r| then r[i + 1] else r[0]
  }

  ghost predicate RingAt(next: map<Ref, Ref>, prev: map<Ref, Ref>, r: seq<Ref>, i: nat)
    requires i < |r|
  {
    && r[i] in next && next[r[i]] == Succ(r, i)
    && Succ(r, i) in prev && prev[Succ(r, i)] == r[i]
  }

  // The links lead around these handles and back.
  ghost predicate Ring(next: map<Ref, Ref>, prev: map<Ref, Ref>, r: seq<Ref>) {
    r != [] && Distinct(r) && forall i :: 0 <= i < |r| ==> RingAt(next, prev, r, i)
  }

  function Without(r: seq<Ref>, p: nat): seq<Ref>
    requires p < |r|
  {
    r[..p] + r[p + 1..]
  }

  // The neighbours of a handle that is not the head.
  lemma Neighbours(next: map<Ref, Ref>, prev: map<Ref, Ref>, r: seq<Ref>, p: nat)
    requires Ring(next, prev, r) && 0 < p < |r|
    ensures r[p] in next && next[r[p]] == Succ(r, p) && r[p] in prev && prev[r[p]] == r[p - 1]
  {
    assert RingAt(next, prev, r, p) && RingAt(next, prev, r, p - 1);
  }

  lemma LastIsBefore(next: map<Ref, Ref>, prev: map<Ref, Ref>, r: seq<Ref>)
    requires Ring(next, prev, r)
    ensures r[0] in prev && prev[r[0]] == r[|r| - 1]
  {
    assert RingAt(next, prev, r, |r| - 1);
  }

  lemma WithoutAt(r: seq<Ref>, p: nat, k: nat)
    requires 0 < p < |r| && k < |r| - 1
    ensures Without(r, p)[k] == if k < p then r[k] else r[k + 1]
    ensures Succ(Without(r, p), k) == if k == p - 1 then Succ(r, p) else if k < p then Succ(r, k) else Succ(r, k + 1)
  {
  }

  // cache.cc:239
  lemma TakeOut(next: map<Ref, Ref>, prev: map<Ref, Ref>, r: seq<Ref>, p: nat)
    requires Ring(next, prev, r) && 0 < p < |r|
    ensures Ring(next[r[p - 1] := Succ(r, p)], prev[Succ(r, p) := r[p - 1]], Without(r, p))
  {
    var next', prev', r' := next[r[p - 1] := Succ(r, p)], prev[Succ(r, p) := r[p - 1]], Without(r, p);
    forall k | 0 <= k < |r'|
      ensures RingAt(next', prev', r', k)
    {
      WithoutAt(r, p, k);
      if k < p {
        assert RingAt(next, prev, r, k);
        SuccDiffers(r, k, p);
      } else {
        assert RingAt(next, prev, r, k + 1);
        SuccDiffers(r, k + 1, p);
      }
    }
    WithoutDistinct(r, p);
  }

  // Different handles are followed by different handles.
  lemma SuccDiffers(r: seq<Ref>, i: nat, j: nat)
    requires Distinct(r) && i < |r| && j < |r| && i != j
    ensures Succ(r, i) != Succ(r, j)
  {
  }

  lemma WithoutDistinct(r: seq<Ref>, p: nat)
    requires Distinct(r) && p < |r|
    ensures Distinct(Without(r, p)) && r[p] !in Without(r, p)
  {
  }

  // cache.cc:244
  lemma PutIn(next: map<Ref, Ref>, prev: map<Ref, Ref>, r: seq<Ref>, e: Ref)
    requires Ring(next, prev, r) && e !in r
    ensures Ring(next[e := r[0]][r[|r| - 1] := e], prev[e := r[|r| - 1]][r[0] := e], r + [e])
  {
    var next', prev', r' := next[e := r[0]][r[|r| - 1] := e], prev[e := r[|r| - 1]][r[0] := e], r + [e];
    forall k | 0 <= k < |r'|
      ensures RingAt(next', prev', r', k)
    {
      if k < |r| - 1 {
        assert RingAt(next, prev, r, k) && r[k] in r && r[k + 1] in r;
      }
    }
  }

  // Links that belong to no handle of a ring leave it as it is.
  lemma RingKept(next: map<Ref, Ref>, prev: map<Ref, Ref>, r: seq<Ref>, next': map<Ref, Ref>, prev': map<Ref, Ref>)
    requires Ring(next, prev, r)
    requires forall h :: h in r && h in next ==> h in next' && next'[h] == next[h]
    requires forall h :: h in r && h in prev ==> h in prev' && prev'[h] == prev[h]
    ensures Ring(next', prev', r)
  {
    forall i | 0 <= i < |r|
      ensures RingAt(next', prev', r, i)
    {
      assert RingAt(next, prev, r, i) && r[i] in r && Succ(r, i) in r;
    }
  }
}
