/**
 The bloom filter (util/bloom.cc): the bits that double hashing gives for each key are set
 in the filter, so a key that was added always matches. The hash is a parameter: what is
 proved holds for every hash function on 32 bits.
 */
module Bloom {
  import opened Coding

  type Bytes = seq<Byte>

  /* ---- bits of a byte ---- */

  function Power2(n: nat): (p: nat)
    ensures p > 0
  {
    if n == 0 then 1 else 2 * Power2(n - 1)
  }

  // (b & (1 << k)) != 0
  predicate HasBit(b: nat, k: nat) {
    if k == 0 then b % 2 == 1 else HasBit(b / 2, k - 1)
  }

  // b | (1 << k)
  function WithBit(b: nat, k: nat): nat {
    if k == 0 then b - b % 2 + 1 else 2 * WithBit(b / 2, k - 1) + b % 2
  }

  lemma {:induction false} BitSet(b: nat, k: nat, j: nat)
    ensures HasBit(WithBit(b, k), j) <==> j == k || HasBit(b, j)
  {
    if k > 0 && j > 0 {
      BitSet(b / 2, k - 1, j - 1);
    }
  }

  lemma {:induction false} WithBitFits(b: nat, k: nat, n: nat)
    requires b < Power2(n) && k < n
    ensures WithBit(b, k) < Power2(n)
  {
    if k > 0 {
      WithBitFits(b / 2, k - 1, n - 1);
    }
  }

  function SetBit(b: Byte, k: nat): (r: Byte)
    requires k < 8
    ensures forall j: nat :: HasBit(r, j) <==> j == k || HasBit(b, j)
  {
    assert Power2(8) == 0x100;
    WithBitFits(b, k, 8);
    assert forall j: nat :: HasBit(WithBit(b, k), j) <==> j == k || HasBit(b, j) by {
      forall j: nat
        ensures HasBit(WithBit(b, k), j) <==> j == k || HasBit(b, j)
      {
        BitSet(b, k, j);
      }
    }
    WithBit(b, k)
  }

  /* ---- bits of a filter ---- */

  predicate IsSet(bytes: Bytes, pos: nat) {
    pos / 8 < |bytes| && HasBit(bytes[pos / 8], pos % 8)
  }

  lemma SetOne(bytes: Bytes, pos: nat, p: nat)
    requires pos < 8 * |bytes|
    ensures IsSet(bytes[pos / 8 := SetBit(bytes[pos / 8], pos % 8)], p) <==> p == pos || IsSet(bytes, p)
  {
    hide HasBit, SetBit;
    if p / 8 == pos / 8 {
      assert p == pos <==> p % 8 == pos % 8;
    }
  }

  // What was set stays set.
  ghost predicate Kept(before: Bytes, after: Bytes) {
    |before| == |after| && forall p: nat :: IsSet(before, p) ==> IsSet(after, p)
  }

  // bloom.cc:46: rotate right by 17 bits.
  function Delta(h: nat): (d: nat)
    requires h < TWO32
    ensures d < TWO32
  {
    h / 0x2_0000 + h % 0x2_0000 * 0x8000
  }

  // The bit of probe j.
  function Probe(h: nat, j: nat, bits: nat): (pos: nat)
    requires h < TWO32 && bits > 0
    ensures pos < bits
  {
    (h + j * Delta(h)) % TWO32 % bits
  }

  // Some probe for a hash is for this bit.
  ghost predicate Hit(h: nat, k: nat, bits: nat, p: nat)
    requires h < TWO32 && bits > 0
  {
    exists j: nat :: j < k && Probe(h, j, bits) == p
  }

  // Some key's is.
  ghost predicate AnyHit(hashes: seq<nat>, k: nat, bits: nat, p: nat)
    requires bits > 0 && forall i :: 0 <= i < |hashes| ==> hashes[i] < TWO32
  {
    exists i :: 0 <= i < |hashes| && Hit(hashes[i], k, bits, p)
  }

  lemma AnyHitPush(hashes: seq<nat>, h: nat, k: nat, bits: nat, p: nat)
    requires bits > 0 && h < TWO32 && forall i :: 0 <= i < |hashes| ==> hashes[i] < TWO32
    ensures AnyHit(hashes + [h], k, bits, p) <==> AnyHit(hashes, k, bits, p) || Hit(h, k, bits, p)
  {
    hide Hit;
    var more := hashes + [h];
    if AnyHit(hashes, k, bits, p) {
      var i :| 0 <= i < |hashes| && Hit(hashes[i], k, bits, p);
      assert Hit(more[i], k, bits, p);
    }
    if Hit(h, k, bits, p) {
      assert Hit(more[|hashes|], k, bits, p);
    }
  }

  lemma NothingSet(n: nat, p: nat)
    ensures !IsSet(seq(n, i => 0), p)
  {
    ZeroHasNoBit(p % 8);
  }

  lemma {:induction false} ZeroHasNoBit(k: nat)
    ensures !HasBit(0, k)
  {
    if k > 0 {
      ZeroHasNoBit(k - 1);
    }
  }

  ghost predicate Probed(bytes: Bytes, h: nat, k: nat)
    requires h < TWO32 && bytes != []
  {
    forall j: nat :: j < k ==> IsSet(bytes, Probe(h, j, 8 * |bytes|))
  }

  lemma ProbedKept(before: Bytes, after: Bytes, h: nat, k: nat)
    requires h < TWO32 && before != [] && Kept(before, after) && Probed(before, h, k)
    ensures Probed(after, h, k)
  {
  }

  // bloom.cc:56: a filter of one byte or less matches nothing, one that asks for too many
  // probes matches everything.
  ghost predicate Matches(filter: Bytes, h: nat)
    requires h < TWO32
  {
    |filter| >= 2 && (filter[|filter| - 1] > 30 || Probed(filter[..|filter| - 1], h, filter[|filter| - 1]))
  }

  class BloomFilterPolicy {
    const bitsPerKey: nat
    const k: nat
    const hash: Bytes -> nat

    // A 32-bit hash.
    ghost predicate Valid() {
      1 <= k <= 30 && forall key :: hash(key) < TWO32
    }

    // bloom.cc:19
    constructor (bitsPerKey: nat, hash: Bytes -> nat)
      requires forall key :: hash(key) < TWO32
      ensures Valid() && this.hash == hash && this.bitsPerKey == bitsPerKey
      ensures k == 1 || k as real <= bitsPerKey as real * 0.69
      ensures k == 30 || bitsPerKey as real * 0.69 < k as real + 1.0
    {
      var probes := (bitsPerKey as real * 0.69).Floor;
      this.bitsPerKey, this.hash := bitsPerKey, hash;
      k := if probes < 1 then 1 else if probes > 30 then 30 else probes;
    }

    ghost function Hashes(keys: seq<Bytes>): (r: seq<nat>)
      requires Valid()
      ensures |r| == |keys| && forall i :: 0 <= i < |keys| ==> r[i] == hash(keys[i]) < TWO32
    {
      seq(|keys|, i requires 0 <= i < |keys| => hash(keys[i]))
    }

    // The filter of these keys: the bits that their probes set and no other, and behind them
    // the number of probes.
    ghost predicate IsFilter(keys: seq<Bytes>, filter: Bytes)
      requires Valid()
    {
      var n := |filter| - 1;
      && n > 0 && |filter| == Size(|keys|) && filter[n] == k
      && forall p: nat :: IsSet(filter[..n], p) <==> AnyHit(Hashes(keys), k, 8 * n, p)
    }

    // bloom.cc:28: append a filter that every one of the keys matches, with the bits that
    // their probes set and no other.
    method CreateFilter(keys: seq<Bytes>, dst: Bytes) returns (r: Bytes)
      requires Valid()
      ensures |dst| <= |r| && r[..|dst|] == dst
      ensures forall key :: key in keys ==> Matches(r[|dst|..], hash(key))
      ensures IsFilter(keys, r[|dst|..])
    {
      hide AnyHit, Hit, IsSet, Probed;
      var bits := |keys| * bitsPerKey;
      if bits < 64 {
        bits := 64;
      }
      var size := (bits + 7) / 8;
      bits := size * 8;
      var bytes: Bytes := seq(size, i => 0);
      forall p: nat
        ensures IsSet(bytes, p) <==> AnyHit([], k, bits, p)
      {
        NothingSet(size, p);
        assert !AnyHit([], k, bits, p) by {
          NoKeyHits(k, bits, p);
        }
      }
      for i := 0 to |keys|
        invariant |bytes| == size
        invariant forall n :: 0 <= n < i ==> Probed(bytes, hash(keys[n]), k)
        invariant forall p: nat :: IsSet(bytes, p) <==> AnyHit(Hashes(keys[..i]), k, bits, p)
      {
        ghost var before := bytes;
        bytes := AddHash(bytes, hash(keys[i]));
        assert Hashes(keys[..i + 1]) == Hashes(keys[..i]) + [hash(keys[i])];
        forall p: nat
          ensures IsSet(bytes, p) <==> AnyHit(Hashes(keys[..i + 1]), k, bits, p)
        {
          AnyHitPush(Hashes(keys[..i]), hash(keys[i]), k, bits, p);
        }
        forall n | 0 <= n < i
          ensures Probed(bytes, hash(keys[n]), k)
        {
          ProbedKept(before, bytes, hash(keys[n]), k);
        }
      }
      assert keys[..|keys|] == keys;
      r := dst + (bytes + [k]);
      assert r[|dst|..] == bytes + [k];
      assert (bytes + [k])[..size] == bytes;
    }

    // The bytes of a filter for so many keys.
    function Size(n: nat): (size: nat) {
      (if n * bitsPerKey < 64 then 64 else n * bitsPerKey + 7) / 8 + 1
    }

    // So many bytes for each key are enough.
    function PerKey(): nat {
      bitsPerKey + 9
    }

    lemma FilterSize(keys: seq<Bytes>, filter: Bytes)
      requires Valid() && IsFilter(keys, filter)
      ensures |filter| == Size(|keys|)
    {
    }

    lemma SizeBound(n: nat)
      requires n > 0
      ensures Size(n) <= n * PerKey()
    {
      assert n * PerKey() == n * bitsPerKey + 9 * n;
    }

    // bloom.cc:45: set the bits of one key.
    method AddHash(bytes: Bytes, h0: nat) returns (r: Bytes)
      requires h0 < TWO32 && bytes != []
      ensures Kept(bytes, r) && Probed(r, h0, k)
      ensures forall p: nat :: IsSet(r, p) <==> IsSet(bytes, p) || Hit(h0, k, 8 * |bytes|, p)
    {
      r := bytes;
      var h, delta := h0, Delta(h0);
      var bits := 8 * |bytes|;
      hide Probe;
      for j := 0 to k
        invariant Kept(bytes, r) && Probed(r, h0, j)
        invariant forall p: nat :: IsSet(r, p) <==> IsSet(bytes, p) || Hit(h0, j, bits, p)
        invariant h == (h0 + j * delta) % TWO32
      {
        var pos := h % bits;
        ghost var before := r;
        r := r[pos / 8 := SetBit(r[pos / 8], pos % 8)];
        OneMore(before, r, h0, j, pos);
        OneMoreHit(h0, j, bits);
        h := (h + delta) % TWO32;
        NextProbe(h0, j, delta);
      }
    }

    lemma OneMore(before: Bytes, after: Bytes, h0: nat, j: nat, pos: nat)
      requires h0 < TWO32 && before != [] && Probed(before, h0, j)
      requires pos == Probe(h0, j, 8 * |before|)
      requires after == before[pos / 8 := SetBit(before[pos / 8], pos % 8)]
      ensures Kept(before, after) && Probed(after, h0, j + 1)
      ensures forall p: nat :: IsSet(after, p) <==> p == pos || IsSet(before, p)
    {
      forall p: nat
        ensures IsSet(after, p) <==> p == pos || IsSet(before, p)
      {
        SetOne(before, pos, p);
      }
    }

    lemma OneMoreHit(h: nat, j: nat, bits: nat)
      requires h < TWO32 && bits > 0
      ensures forall p: nat :: Hit(h, j + 1, bits, p) <==> p == Probe(h, j, bits) || Hit(h, j, bits, p)
    {
      hide Probe;
      var n := j + 1;
      forall p: nat
        ensures Hit(h, n, bits, p) <==> p == Probe(h, j, bits) || Hit(h, j, bits, p)
      {
        if p == Probe(h, j, bits) {
          assert j < n && Probe(h, j, bits) == p;
        } else if Hit(h, j, bits, p) {
          var i: nat :| i < j && Probe(h, i, bits) == p;
          assert i < n;
        }
      }
    }

    lemma NoKeyHits(k: nat, bits: nat, p: nat)
      requires bits > 0
      ensures !AnyHit([], k, bits, p)
    {
    }

    // bloom.cc:56
    method KeyMayMatch(key: Bytes, filter: Bytes) returns (may: bool)
      requires Valid()
      ensures may <==> Matches(filter, hash(key))
    {
      var len := |filter|;
      if len < 2 {
        return false;
      }
      var bytes := filter[..len - 1];
      var bits := (len - 1) * 8;
      var probes := filter[len - 1];
      if probes > 30 {
        return true;
      }
      var h, delta := hash(key), Delta(hash(key));
      for j := 0 to probes
        invariant Probed(bytes, hash(key), j)
        invariant h == (hash(key) + j * delta) % TWO32
      {
        var pos := h % bits;
        assert pos == Probe(hash(key), j, bits);
        if !HasBit(bytes[pos / 8], pos % 8) {
          assert !IsSet(bytes, Probe(hash(key), j, 8 * |bytes|));
          return false;
        }
        h := (h + delta) % TWO32;
        NextProbe(hash(key), j, delta);
      }
      may := true;
    }
  }

  lemma NextProbe(h: nat, j: nat, delta: nat)
    ensures ((h + j * delta) % TWO32 + delta) % TWO32 == (h + (j + 1) * delta) % TWO32
  {
    var x := h + j * delta;
    assert h + (j + 1) * delta == x + delta;
    assert (x + delta) - (x % TWO32 + delta) == TWO32 * (x / TWO32);
  }
}
