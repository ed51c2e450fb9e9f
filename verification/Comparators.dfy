/**
 Keys as byte strings (util/comparator.cc, db/dbformat.h, db/dbformat.cc): the bytewise
 order on user keys, internal keys with their tag of eight bytes, and the shortened keys
 that may stand between two keys or after one.
 */
module Comparators {
  import opened Keys
  import opened Coding

  type Bytes = seq<Byte>

  // slice.h:101: bytewise order, a proper prefix first.
  predicate Precedes(a: Bytes, b: Bytes) {
    b != [] && (a == [] || a[0] < b[0] || (a[0] == b[0] && Precedes(a[1..], b[1..])))
  }

  predicate AtMost(a: Bytes, b: Bytes) {
    a == b || Precedes(a, b)
  }

  lemma {:induction false} BeforeTransitive(a: Bytes, b: Bytes, c: Bytes)
    requires Precedes(a, b) && Precedes(b, c)
    ensures Precedes(a, c)
  {
    if a != [] && a[0] == b[0] && b[0] == c[0] {
      BeforeTransitive(a[1..], b[1..], c[1..]);
    }
  }

  lemma {:induction false} BeforeIrreflexive(a: Bytes)
    ensures !Precedes(a, a)
  {
    if a != [] {
      BeforeIrreflexive(a[1..]);
    }
  }

  // What two keys share does not order them.
  lemma {:induction false} BeforeAfterPrefix(p: Bytes, x: Bytes, y: Bytes)
    ensures Precedes(p + x, p + y) <==> Precedes(x, y)
  {
    if p == [] {
      assert p + x == x && p + y == y;
    } else {
      assert (p + x)[1..] == p[1..] + x && (p + y)[1..] == p[1..] + y;
      BeforeAfterPrefix(p[1..], x, y);
    }
  }

  // One byte more in one place decides.
  lemma RaisedByte(p: Bytes, b: Byte, c: Byte, x: Bytes, y: Bytes)
    requires b < c
    ensures Precedes(p + [b] + x, p + [c] + y)
  {
    assert p + [b] + x == p + ([b] + x) && p + [c] + y == p + ([c] + y);
    BeforeAfterPrefix(p, [b] + x, [c] + y);
  }

  // The first byte that differs can be raised and stays below.
  ghost predicate Raisable(start: Bytes, limit: Bytes, n: nat) {
    n < |start| && n < |limit| && start[..n] == limit[..n] && start[n] as nat + 1 < limit[n] as nat
  }

  // start up to that byte, raised; start itself if there is none.
  ghost predicate Shortened(start: Bytes, limit: Bytes, r: Bytes) {
    (r == start && forall n: nat :: !Raisable(start, limit, n))
    || exists n: nat :: Raisable(start, limit, n) && r == start[..n] + [start[n] + 1]
  }

  // Bytes of 255, and one more that is raised; the key itself if it has no other bytes.
  ghost predicate Succeeded(key: Bytes, r: Bytes) {
    (r == key && forall i :: 0 <= i < |key| ==> key[i] == 0xff)
    || exists n: nat :: n < |key| && (forall i :: 0 <= i < n ==> key[i] == 0xff) && key[n] < 0xff && r == key[..n] + [key[n] + 1]
  }

  // comparator.cc:29: a key from start up to limit, shorter than start if one is found
  // by raising the first byte that differs.
  method FindShortestSeparator(start: Bytes, limit: Bytes) returns (r: Bytes)
    ensures AtMost(start, r) && (Precedes(start, limit) ==> Precedes(r, limit))
    ensures r == start || (0 < |r| <= |start| && |r| <= |limit| && Precedes(start, limit)
      && r[..|r| - 1] == start[..|r| - 1] == limit[..|r| - 1] && r[|r| - 1] as nat == start[|r| - 1] as nat + 1)
    ensures Shortened(start, limit, r)
  {
    var minLength := if |start| < |limit| then |start| else |limit|;
    var diff := 0;
    while diff < minLength && start[diff] == limit[diff]
      invariant diff <= minLength && start[..diff] == limit[..diff]
    {
      diff := diff + 1;
    }
    r := start;
    if diff < minLength {
      var byte := start[diff];
      if byte < 0xff && byte + 1 < limit[diff] {
        var p := start[..diff];
        r := p + [byte + 1];
        assert start == p + [byte] + start[diff + 1..] && limit == p + [limit[diff]] + limit[diff + 1..];
        assert r == p + [byte + 1] + [];
        RaisedByte(p, byte, byte + 1, start[diff + 1..], []);
        RaisedByte(p, byte + 1, limit[diff], [], limit[diff + 1..]);
        BeforeTransitive(start, r, limit);
        assert Raisable(start, limit, diff);
      } else {
        RaisedNowhere(start, limit, diff);
      }
    } else {
      RaisedNowhere(start, limit, diff);
    }
  }

  lemma RaisedNowhere(start: Bytes, limit: Bytes, diff: nat)
    requires diff <= |start| && diff <= |limit| && start[..diff] == limit[..diff] && !Raisable(start, limit, diff)
    requires diff == |start| || diff == |limit| || start[diff] != limit[diff]
    ensures forall n: nat :: !Raisable(start, limit, n)
  {
    forall n: nat
      ensures !Raisable(start, limit, n)
    {
      if n < diff {
        assert start[..diff][n] == limit[..diff][n];
      } else if diff < n < |start| && n < |limit| {
        assert start[..n][diff] != limit[..n][diff];
      }
    }
  }

  // comparator.cc:52: a key that is not before this one, by raising the first byte that
  // can be raised.
  method FindShortSuccessor(key: Bytes) returns (r: Bytes)
    ensures AtMost(key, r) && |r| <= |key|
    ensures r == key <==> forall i :: 0 <= i < |key| ==> key[i] == 0xff
    ensures Succeeded(key, r)
  {
    for i := 0 to |key|
      invariant forall j :: 0 <= j < i ==> key[j] == 0xff
    {
      var byte := key[i];
      if byte != 0xff {
        r := key[..i] + [byte + 1];
        assert key == key[..i] + [byte] + key[i + 1..] && r == key[..i] + [byte + 1] + [];
        RaisedByte(key[..i], byte, byte + 1, key[i + 1..], []);
        assert r[i] != key[i];
        return;
      }
    }
    r := key;
  }

  /* ---- internal keys ---- */

  // dbformat.cc:14
  function Pack(sn: nat, kind: nat): (tag: nat)
    requires sn <= MAX_SEQUENCE && kind <= VALUE_TYPE_FOR_SEEK
    ensures tag < TWO64 && tag / 0x100 == sn && tag % 0x100 == kind
  {
    sn * 0x100 + kind
  }

  // dbformat.cc:20
  function MakeKey(user: Bytes, tag: nat): (k: Bytes)
    requires tag < TWO64
    ensures |k| == |user| + 8
  {
    user + EncodeFixed64(tag)
  }

  // dbformat.h:93
  function UserPart(k: Bytes): Bytes {
    if |k| < 8 then [] else k[..|k| - 8]
  }

  function TagPart(k: Bytes): nat {
    if |k| < 8 then 0 else DecodeFixed64(k[|k| - 8..])
  }

  lemma ReadsBack(user: Bytes, tag: nat)
    requires tag < TWO64
    ensures UserPart(MakeKey(user, tag)) == user && TagPart(MakeKey(user, tag)) == tag
  {
    hide EncodeFixed64, DecodeFixed64;
    var k := MakeKey(user, tag);
    assert k[|k| - 8..] == EncodeFixed64(tag) + [];
    Fixed64RoundTrip(tag, []);
  }

  // dbformat.cc:51: increasing user key, then decreasing tag.
  predicate InternalBefore(a: Bytes, b: Bytes) {
    Precedes(UserPart(a), UserPart(b)) || (UserPart(a) == UserPart(b) && TagPart(a) > TagPart(b))
  }

  predicate InternalAtMost(a: Bytes, b: Bytes) {
    a == b || InternalBefore(a, b)
  }

  lemma InternalTransitive(a: Bytes, b: Bytes, c: Bytes)
    requires InternalBefore(a, b) && InternalBefore(b, c)
    ensures InternalBefore(a, c)
  {
    if Precedes(UserPart(a), UserPart(b)) && Precedes(UserPart(b), UserPart(c)) {
      BeforeTransitive(UserPart(a), UserPart(b), UserPart(c));
    }
  }

  // A user key with the greatest tag, before every entry for it.
  function SeekKey(user: Bytes): Bytes {
    MakeKey(user, Pack(MAX_SEQUENCE, VALUE_TYPE_FOR_SEEK))
  }

  // The shorter user key, if it is shorter.
  ghost predicate ShortenedInternal(start: Bytes, limit: Bytes, r: Bytes) {
    exists user :: Shortened(UserPart(start), UserPart(limit), user)
      && r == if |user| < |UserPart(start)| then SeekKey(user) else start
  }

  ghost predicate SucceededInternal(key: Bytes, r: Bytes) {
    exists user :: Succeeded(UserPart(key), user) && r == if |user| < |UserPart(key)| then SeekKey(user) else key
  }

  // dbformat.cc:69: an internal key from start up to limit; when it is not start itself,
  // its user key is between the two user keys.
  method FindInternalSeparator(start: Bytes, limit: Bytes) returns (r: Bytes)
    requires |start| >= 8 && |limit| >= 8
    ensures |r| >= 8 && InternalAtMost(start, r) && (InternalBefore(start, limit) ==> InternalBefore(r, limit))
    ensures r == start || (Precedes(UserPart(start), UserPart(r)) && Precedes(UserPart(r), UserPart(limit)) && |r| < |start|)
    ensures ShortenedInternal(start, limit, r)
  {
    var userStart, userLimit := UserPart(start), UserPart(limit);
    var tmp := FindShortestSeparator(userStart, userLimit);
    BeforeIrreflexive(userStart);
    r := start;
    if |tmp| < |userStart| && Precedes(userStart, tmp) {
      ReadsBack(tmp, Pack(MAX_SEQUENCE, VALUE_TYPE_FOR_SEEK));
      r := MakeKey(tmp, Pack(MAX_SEQUENCE, VALUE_TYPE_FOR_SEEK));
    }
  }

  // dbformat.cc:88
  method FindInternalSuccessor(key: Bytes) returns (r: Bytes)
    requires |key| >= 8
    ensures |r| >= 8 && InternalAtMost(key, r)
    ensures r == key || (Precedes(UserPart(key), UserPart(r)) && |r| < |key|)
    ensures SucceededInternal(key, r)
  {
    var user := UserPart(key);
    var tmp := FindShortSuccessor(user);
    r := key;
    if |tmp| < |user| && Precedes(user, tmp) {
      ReadsBack(tmp, Pack(MAX_SEQUENCE, VALUE_TYPE_FOR_SEEK));
      r := MakeKey(tmp, Pack(MAX_SEQUENCE, VALUE_TYPE_FOR_SEEK));
    }
  }

  // The keys between an internal key and its separator from the next key all have user
  // keys before the next one's: a seek that lands there misses no entry for its user key.
  lemma SeparatorMissesNothing(start: Bytes, separator: Bytes, limit: Bytes, target: Bytes)
    requires separator == start || Precedes(UserPart(separator), UserPart(limit))
    requires InternalBefore(start, target) && !InternalBefore(separator, target)
    ensures UserPart(target) != UserPart(limit)
  {
  }
}
