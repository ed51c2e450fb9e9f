/**
 Internal keys (db/dbformat.h, db/dbformat.cc): a user key, the sequence number
 of the write, and the value type, ordered by increasing user key and then by
 decreasing (sequence, type) tag.

 A user key is only ever handed to the user's comparator, which is a total order;
 any finite set of keys under a total order is order-isomorphic to a set of
 integers, so a user key is its rank, an `int`.
 */
module Keys {
  datatype Option<+T> = None | Some(value: T)

  type UserKey = int

  datatype Kind = Deletion | Put(value: string)

  // dbformat.h:52 and dbformat.h:59
  type ValueType = t: nat | t <= 1
  const TYPE_DELETION: ValueType := 0
  const TYPE_VALUE: ValueType := 1
  const VALUE_TYPE_FOR_SEEK: ValueType := TYPE_VALUE

  // dbformat.h:65
  const MAX_SEQUENCE: nat := 0xff_ffff_ffff_ffff

  datatype InternalKey = InternalKey(user: UserKey, sn: nat, kind: ValueType)

  datatype Entry = Entry(key: UserKey, sn: nat, kind: Kind) {
    function Ik(): InternalKey {
      InternalKey(key, sn, if kind.Put? then TYPE_VALUE else TYPE_DELETION)
    }
  }

  // The low eight bits of the tag hold the type.
  function Tag(k: InternalKey): nat {
    k.sn * 256 + k.kind
  }

  predicate Less(a: InternalKey, b: InternalKey) {
    a.user < b.user || (a.user == b.user && Tag(a) > Tag(b))
  }

  function Compare(a: InternalKey, b: InternalKey): int {
    if Less(a, b) then -1 else if Less(b, a) then 1 else 0
  }

  predicate Before(a: Entry, b: Entry) {
    Less(a.Ik(), b.Ik())
  }

  ghost predicate Sorted(es: seq<Entry>) {
    forall i, j :: 0 <= i < j < |es| ==> Before(es[i], es[j])
  }

  // What a lookup of user key k at sequence number s seeks to.
  function SeekKey(k: UserKey, s: nat): InternalKey {
    InternalKey(k, s, VALUE_TYPE_FOR_SEEK)
  }

  // Position of the first entry that is not before the target.
  function LowerBound(es: seq<Entry>, target: InternalKey): (r: nat)
    ensures r <= |es|
    ensures forall j :: 0 <= j < r ==> Less(es[j].Ik(), target)
    ensures r < |es| ==> !Less(es[r].Ik(), target)
  {
    if es == [] || !Less(es[0].Ik(), target) then 0 else 1 + LowerBound(es[1..], target)
  }

  lemma SliceJoin<T>(s: seq<T>, i: nat, j: nat, k: nat)
    requires i <= j <= k <= |s|
    ensures s[i..j] + s[j..k] == s[i..k]
  {
  }

  lemma AppendNothing<T>(s: seq<T>)
    ensures s + [] == s
  {
  }

  lemma SliceCons<T>(s: seq<T>, j: nat, k: nat)
    requires j < k <= |s|
    ensures [s[j]] + s[j + 1..k] == s[j..k]
  {
  }

  lemma SlicePush<T>(s: seq<T>, i: nat, j: nat)
    requires i <= j < |s|
    ensures s[i..j] + [s[j]] == s[i..j + 1]
  {
  }

  lemma AppendCons<T>(a: seq<T>, x: T, b: seq<T>)
    ensures a + [x] + b == a + ([x] + b)
  {
  }
}
