/**
 The filter block of a table (table/filter_block.h, table/filter_block.cc): one filter for
 every 2 KB of offsets at which data blocks start. A key that was added while a block was
 being built always matches at the offset of that block.
 */
module FilterBlock {
  import opened Coding
  import opened Comparators
  import opened Bloom
  import opened Blocks

  const BASE_LG: Byte := 11
  const BASE := 0x800

  // dbformat.cc:105: filters are made of user keys.
  function Hashed(policy: BloomFilterPolicy, key: Comparators.Bytes): nat {
    policy.hash(UserPart(key))
  }

  ghost predicate Admits(policy: BloomFilterPolicy, filter: Comparators.Bytes, key: Comparators.Bytes)
    requires policy.Valid()
  {
    Matches(filter, Hashed(policy, key))
  }

  // Where part i of a string that is cut at these offsets ends.
  function EndOf(cuts: seq<nat>, length: nat, i: nat): nat
    requires i < |cuts|
  {
    if i + 1 < |cuts| then cuts[i + 1] else length
  }

  ghost predicate Cut(cuts: seq<nat>, length: nat) {
    forall i :: 0 <= i < |cuts| ==> cuts[i] <= EndOf(cuts, length, i) <= length
  }

  function Part(s: Comparators.Bytes, cuts: seq<nat>, i: nat): Comparators.Bytes
    requires i < |cuts| && cuts[i] <= EndOf(cuts, |s|, i) <= |s|
  {
    s[cuts[i]..EndOf(cuts, |s|, i)]
  }

  // A new part after the old ones leaves those as they are.
  lemma CutPush(s: Comparators.Bytes, cuts: seq<nat>, more: Comparators.Bytes, i: nat)
    requires Cut(cuts, |s|) && i <= |cuts|
    ensures Cut(cuts + [|s|], |s + more|)
    ensures Part(s + more, cuts + [|s|], i) == if i < |cuts| then Part(s, cuts, i) else more
  {
    var cuts' := cuts + [|s|];
    forall j | 0 <= j < |cuts'|
      ensures cuts'[j] <= EndOf(cuts', |s + more|, j) <= |s + more|
    {
      if j < |cuts| {
        assert cuts[j] <= EndOf(cuts, |s|, j) <= |s|;
      }
    }
    if i < |cuts| {
      assert cuts[i] <= EndOf(cuts, |s|, i) <= |s|;
      assert EndOf(cuts', |s + more|, i) == EndOf(cuts, |s|, i);
    }
  }

  // The filters, where each starts, where the last one ends, and the size of a range.
  function Contents(filters: Comparators.Bytes, offsets: seq<nat>): Comparators.Bytes {
    filters + Fixed32s(offsets) + EncodeFixed32(|filters| % TWO32) + [BASE_LG]
  }

  function UserKeys(keys: seq<Comparators.Bytes>): (r: seq<Comparators.Bytes>)
    ensures |r| == |keys| && forall i :: 0 <= i < |keys| ==> r[i] == UserPart(keys[i])
  {
    seq(|keys|, i requires 0 <= i < |keys| => UserPart(keys[i]))
  }

  // A filter is that of its keys; without keys it is empty.
  ghost predicate Made(policy: BloomFilterPolicy, group: seq<Comparators.Bytes>, filter: Comparators.Bytes)
    requires policy.Valid()
  {
    if group == [] then filter == [] else policy.IsFilter(UserKeys(group), filter)
  }

  ghost predicate AllMade(policy: BloomFilterPolicy, groups: seq<seq<Comparators.Bytes>>, filters: Comparators.Bytes, offsets: seq<nat>)
    requires policy.Valid() && Cut(offsets, |filters|)
  {
    |groups| == |offsets| && forall i :: 0 <= i < |groups| ==> Made(policy, groups[i], Part(filters, offsets, i))
  }

  lemma AllMadePush(policy: BloomFilterPolicy, groups: seq<seq<Comparators.Bytes>>, filters: Comparators.Bytes, offsets: seq<nat>,
      group: seq<Comparators.Bytes>, filter: Comparators.Bytes)
    requires policy.Valid() && Cut(offsets, |filters|) && AllMade(policy, groups, filters, offsets) && Made(policy, group, filter)
    ensures Cut(offsets + [|filters|], |filters + filter|)
    ensures AllMade(policy, groups + [group], filters + filter, offsets + [|filters|])
  {
    CutPush(filters, offsets, filter, |offsets|);
    forall i | 0 <= i < |groups| + 1
      ensures Made(policy, (groups + [group])[i], Part(filters + filter, offsets + [|filters|], i))
    {
      hide Made, Part;
      CutPush(filters, offsets, filter, i);
    }
  }

  // What was added is in the group of its filter, or waits for the next.
  ghost predicate Grouped(added: set<(nat, Comparators.Bytes)>, groups: seq<seq<Comparators.Bytes>>, pending: seq<Comparators.Bytes>) {
    forall a :: a in added <==> if a.0 < |groups| then a.1 in groups[a.0] else a.0 == |groups| && a.1 in pending
  }

  lemma GroupedKey(added: set<(nat, Comparators.Bytes)>, groups: seq<seq<Comparators.Bytes>>, pending: seq<Comparators.Bytes>, key: Comparators.Bytes)
    requires Grouped(added, groups, pending)
    ensures Grouped(added + {(|groups|, key)}, groups, pending + [key])
  {
  }

  lemma GroupedPush(added: set<(nat, Comparators.Bytes)>, groups: seq<seq<Comparators.Bytes>>, pending: seq<Comparators.Bytes>)
    requires Grouped(added, groups, pending)
    ensures Grouped(added, groups + [pending], [])
  {
  }

  lemma OneMore(n: nat, size: nat)
    ensures (n + 1) * size == n * size + size
  {
  }

  class FilterBlockBuilder {
    const policy: BloomFilterPolicy
    var keys: Comparators.Bytes
    var start: seq<nat>
    var result: Comparators.Bytes
    var filterOffsets: seq<nat>
    // The keys that wait for the next filter, and every key with the filter it is for.
    ghost var pending: seq<Comparators.Bytes>
    ghost var added: set<(nat, Comparators.Bytes)>
    // The keys of every filter.
    ghost var groups: seq<seq<Comparators.Bytes>>

    ghost predicate Valid()
      reads this
    {
      && policy.Valid() && Cut(start, |keys|) && Cut(filterOffsets, |result|)
      && |pending| == |start| && (forall i :: 0 <= i < |start| ==> IsPending(i))
      && (forall a :: a in added ==> Covered(a))
      && AllMade(policy, groups, result, filterOffsets) && Grouped(added, groups, pending)
    }

    ghost predicate IsPending(i: nat)
      requires i < |start| == |pending| && Cut(start, |keys|)
      reads this
    {
      pending[i] == Part(keys, start, i)
    }

    // A key is in the filter it is for, or waits for it.
    ghost predicate Covered(a: (nat, Comparators.Bytes))
      requires policy.Valid() && Cut(filterOffsets, |result|)
      reads this
    {
      if a.0 < |filterOffsets| then Admits(policy, Part(result, filterOffsets, a.0), a.1)
      else a.0 == |filterOffsets| && a.1 in pending
    }

    // What the filters so far take, and at most what the keys that wait will take.
    ghost function Charge(): nat
      reads this
    {
      |result| + |start| * policy.PerKey()
    }

    constructor (policy: BloomFilterPolicy)
      requires policy.Valid()
      ensures Valid() && this.policy == policy && added == {} && filterOffsets == [] && Charge() == 0
    {
      this.policy := policy;
      keys, start, result, filterOffsets, pending, added, groups := [], [], [], [], [], {}, [];
    }

    // filter_block.cc:21
    method StartBlock(blockOffset: nat)
      requires Valid() && blockOffset / BASE >= |filterOffsets|
      modifies this
      ensures Valid() && |filterOffsets| == blockOffset / BASE && added == old(added) && Charge() <= old(Charge())
    {
      var filterIndex := blockOffset / BASE;
      while filterIndex > |filterOffsets|
        invariant Valid() && |filterOffsets| <= filterIndex && added == old(added) && Charge() <= old(Charge())
      {
        GenerateFilter();
      }
    }

    // filter_block.cc:29
    method AddKey(key: Comparators.Bytes)
      requires Valid()
      modifies this
      ensures Valid() && added == old(added) + {(|filterOffsets|, key)} && filterOffsets == old(filterOffsets)
      ensures Charge() == old(Charge()) + policy.PerKey()
    {
      ghost var keys0, start0 := keys, start;
      start := start + [|keys|];
      keys := keys + key;
      pending := pending + [key];
      added := added + {(|filterOffsets|, key)};
      OneMore(|start0|, policy.PerKey());
      GroupedKey(old(added), groups, old(pending), key);
      CutPush(keys0, start0, key, |start0|);
      forall i | 0 <= i < |start|
        ensures IsPending(i)
      {
        CutPush(keys0, start0, key, i);
        if i < |start0| {
          assert old(IsPending(i));
        }
      }
    }

    // filter_block.cc:51: a filter of the keys that wait.
    method GenerateFilter()
      requires Valid()
      modifies this
      ensures Valid() && |filterOffsets| == old(|filterOffsets|) + 1 && added == old(added) && pending == []
      ensures |result| == Charge() <= old(Charge())
    {
      ghost var result0, offsets0, waiting := result, filterOffsets, pending;
      hide AllMade, Grouped, BloomFilterPolicy.IsFilter;
      GroupedPush(added, groups, pending);
      if |start| == 0 {
        filterOffsets := filterOffsets + [|result|];
        assert result == result0 + [];
        Generated(result0, offsets0, [], []);
        AllMadePush(policy, groups, result0, offsets0, [], []);
        groups := groups + [[]];
        return;
      }
      var users: seq<Comparators.Bytes> := [];
      for i := 0 to |start|
        invariant |users| == i && forall j :: 0 <= j < i ==> users[j] == UserPart(pending[j])
      {
        assert IsPending(i);
        var key := keys[start[i]..EndOf(start, |keys|, i)];
        users := users + [UserPart(key)];
      }
      filterOffsets := filterOffsets + [|result|];
      result := policy.CreateFilter(users, result);
      ghost var filter := result[|result0|..];
      assert result == result0 + filter;
      forall key | key in pending
        ensures Admits(policy, filter, key)
      {
        var j :| 0 <= j < |pending| && pending[j] == key;
        assert users[j] in users;
      }
      Generated(result0, offsets0, filter, pending);
      policy.SizeBound(|start|);
      assert users == UserKeys(pending);
      policy.FilterSize(users, filter);
      AllMadePush(policy, groups, result0, offsets0, pending, filter);
      groups := groups + [pending];
      keys, start, pending := [], [], [];
    }

    lemma Generated(result0: Comparators.Bytes, offsets0: seq<nat>, filter: Comparators.Bytes, waiting: seq<Comparators.Bytes>)
      requires policy.Valid() && Cut(offsets0, |result0|)
      requires result == result0 + filter && filterOffsets == offsets0 + [|result0|]
      requires forall a :: a in added ==>
        if a.0 < |offsets0| then Admits(policy, Part(result0, offsets0, a.0), a.1) else a.0 == |offsets0| && a.1 in waiting
      requires forall key :: key in waiting ==> Admits(policy, filter, key)
      ensures Cut(filterOffsets, |result|) && forall a :: a in added ==> a.0 < |filterOffsets| && Covered(a)
    {
      CutPush(result0, offsets0, filter, |offsets0|);
      forall a | a in added
        ensures a.0 < |filterOffsets| && Covered(a)
      {
        CutPush(result0, offsets0, filter, a.0);
      }
    }

    // filter_block.cc:35
    method Finish() returns (contents: Comparators.Bytes, ghost filters: Comparators.Bytes)
      requires Valid()
      modifies this
      ensures policy.Valid() && added == old(added) && Cut(filterOffsets, |filters|)
      ensures forall a :: a in added ==> Kept(a, filters)
      ensures AllMade(policy, groups, filters, filterOffsets) && Grouped(added, groups, [])
      ensures contents == Contents(filters, filterOffsets) && |filterOffsets| <= old(|filterOffsets|) + 1 && |filters| <= old(Charge())
    {
      if |start| > 0 {
        GenerateFilter();
      }
      NothingWaits();
      filters := result;
      ghost var offsets := filterOffsets;
      hide Kept, Cut, AllMade, Grouped;
      ghost var groups0 := groups;
      var arrayOffset := |result| % TWO32;
      for i := 0 to |filterOffsets|
        invariant filterOffsets == offsets && added == old(added) && groups == groups0 && result == filters + Fixed32s(offsets[..i])
      {
        assert offsets[..i + 1][..i] == offsets[..i];
        result := result + EncodeFixed32(filterOffsets[i] % TWO32);
      }
      assert offsets[..|offsets|] == offsets;
      result := result + EncodeFixed32(arrayOffset);
      result := result + [BASE_LG];
      contents := result;
    }

    // A key is in the filter it was for.
    ghost predicate Kept(a: (nat, Comparators.Bytes), filters: Comparators.Bytes)
      requires policy.Valid() && Cut(filterOffsets, |filters|)
      reads this
    {
      a.0 < |filterOffsets| && Admits(policy, Part(filters, filterOffsets, a.0), a.1)
    }

    // When nothing waits, every key is in its filter.
    lemma NothingWaits()
      requires Valid() && pending == []
      ensures forall a :: a in added ==> Kept(a, result)
    {
      forall a | a in added
        ensures Kept(a, result)
      {
        assert Covered(a);
      }
    }
  }

  class FilterBlockReader {
    const policy: BloomFilterPolicy
    const data: Comparators.Bytes
    const offset: nat
    const num: nat
    const baseLg: nat

    ghost predicate Valid() {
      policy.Valid() && (num > 0 ==> offset + 4 * num + 5 <= |data|)
    }

    // It reads these filters.
    ghost predicate Reads(filters: Comparators.Bytes, offsets: seq<nat>) {
      && data == Contents(filters, offsets) && |filters| < TWO32 && Cut(offsets, |filters|)
      && offset == |filters| && num == |offsets| && baseLg == BASE_LG
    }

    // filter_block.cc:77: where the offsets are, or none if that cannot be.
    constructor (policy: BloomFilterPolicy, contents: Comparators.Bytes, ghost filters: Comparators.Bytes, ghost offsets: seq<nat>)
      requires policy.Valid()
      ensures Valid() && this.policy == policy
      ensures contents == Contents(filters, offsets) && |filters| < TWO32 && Cut(offsets, |filters|) ==> Reads(filters, offsets)
    {
      var n := |contents|;
      var data0: Comparators.Bytes, offset0: nat, num0: nat, baseLg0: nat := [], 0, 0, 0;
      if n >= 5 {
        baseLg0 := contents[n - 1];
        var lastWord := DecodeFixed32(contents[n - 5..]);
        if lastWord <= n - 5 {
          data0, offset0, num0 := contents, lastWord, (n - 5 - lastWord) / 4;
        }
      }
      LastWord(filters, offsets);
      this.policy := policy;
      data, offset, num, baseLg := data0, offset0, num0, baseLg0;
    }

    // Where the filter for a block begins or ends.
    function Bound(index: nat): nat
      requires Valid() && index <= num && num > 0
    {
      DecodeFixed32(data[offset + index * 4..])
    }

    // Whatever the contents: only a filter that is there, and an empty one out of place, say no.
    ghost predicate Rejects(blockOffset: nat, key: Comparators.Bytes)
      requires Valid()
    {
      var index := ShiftRight(blockOffset, baseLg);
      index < num &&
      var start, limit := Bound(index), Bound(index + 1);
      if start <= limit <= offset then !Admits(policy, data[start..limit], key) else start == limit
    }

    // filter_block.cc:90
    method KeyMayMatch(blockOffset: nat, key: Comparators.Bytes, ghost filters: Comparators.Bytes, ghost offsets: seq<nat>) returns (may: bool)
      requires Valid()
      ensures may <==> !Rejects(blockOffset, key)
      ensures Reads(filters, offsets) ==>
        may == (blockOffset / BASE < |offsets| ==> Admits(policy, Part(filters, offsets, blockOffset / BASE), key))
    {
      ShiftedByBase(blockOffset);
      hide Contents, DecodeFixed32, Matches, ShiftRight;
      var index := ShiftRight(blockOffset, baseLg);
      if index < num {
        var start := DecodeFixed32(data[offset + index * 4..]);
        var limit := DecodeFixed32(data[offset + index * 4 + 4..]);
        assert start == Bound(index) && limit == Bound(index + 1);
        if Reads(filters, offsets) {
          ReadsOffset(filters, offsets, index);
        }
        if start <= limit <= offset {
          var filter := data[start..limit];
          SliceOfFront(data, offset, start, limit);
          may := policy.KeyMayMatch(UserPart(key), filter);
          return;
        } else if start == limit {
          return false;
        }
      }
      may := true;
    }
  }

  lemma SliceOfFront<T>(s: seq<T>, n: nat, i: nat, j: nat)
    requires i <= j <= n <= |s|
    ensures s[..n][i..j] == s[i..j]
  {
  }

  // x >> n
  function ShiftRight(x: nat, n: nat): nat {
    if n == 0 then x else ShiftRight(x / 2, n - 1)
  }

  lemma HalfAtATime(x: nat, n: nat)
    ensures ShiftRight(x, 0) == x && ShiftRight(x, n + 1) == ShiftRight(x / 2, n)
  {
  }

  lemma FourBits(x: nat, n: nat)
    ensures ShiftRight(x, n + 4) == ShiftRight(x / 16, n)
  {
    hide ShiftRight;
    HalfAtATime(x, n + 3);
    HalfAtATime(x / 2, n + 2);
    HalfAtATime(x / 2 / 2, n + 1);
    HalfAtATime(x / 2 / 2 / 2, n);
    assert x / 2 / 2 / 2 / 2 == x / 16;
  }

  lemma ShiftedByBase(x: nat)
    ensures ShiftRight(x, BASE_LG) == x / BASE
  {
    hide ShiftRight;
    FourBits(x, 7);
    FourBits(x / 16, 3);
    HalfAtATime(x / 16 / 16, 2);
    HalfAtATime(x / 16 / 16 / 2, 1);
    HalfAtATime(x / 16 / 16 / 2 / 2, 0);
    HalfAtATime(x / 16 / 16 / 2 / 2 / 2, 0);
    assert x / 16 / 16 / 2 / 2 / 2 == x / BASE;
  }

  lemma LastWord(filters: Comparators.Bytes, offsets: seq<nat>)
    ensures var contents := Contents(filters, offsets);
      |contents| >= 5 && |contents| == |filters| + 4 * |offsets| + 5 && contents[|contents| - 1] == BASE_LG
      && (|filters| < TWO32 ==> DecodeFixed32(contents[|contents| - 5..]) == |filters|)
  {
    var contents := Contents(filters, offsets);
    hide Fixed32s, EncodeFixed32, DecodeFixed32;
    var last := EncodeFixed32(|filters| % TWO32);
    assert contents == filters + Fixed32s(offsets) + (last + [BASE_LG]);
    assert contents[|contents| - 5..] == last + [BASE_LG];
    Fixed32RoundTrip(|filters| % TWO32, [BASE_LG]);
  }

  // The word after an offset is where that filter ends.
  lemma ReadsOffset(filters: Comparators.Bytes, offsets: seq<nat>, i: nat)
    requires i < |offsets| && Cut(offsets, |filters|) && |filters| < TWO32
    ensures var data := Contents(filters, offsets);
      |filters| + 4 * i + 8 <= |data|
      && DecodeFixed32(data[|filters| + i * 4..]) == offsets[i]
      && DecodeFixed32(data[|filters| + i * 4 + 4..]) == EndOf(offsets, |filters|, i)
      && data[..|filters|] == filters
  {
    var data, words := Contents(filters, offsets), offsets + [|filters|];
    assert Fixed32s(words) == Fixed32s(offsets) + EncodeFixed32(|filters| % TWO32) by {
      assert words[..|offsets|] == offsets;
    }
    hide Fixed32s, EncodeFixed32, DecodeFixed32;
    assert data == filters + (Fixed32s(words) + [BASE_LG]);
    assert offsets[i] <= EndOf(offsets, |filters|, i) <= |filters|;
    Fixed32At(words, i, [BASE_LG]);
    Fixed32At(words, i + 1, [BASE_LG]);
    assert data[|filters| + i * 4..] == (Fixed32s(words) + [BASE_LG])[4 * i..];
    assert data[|filters| + i * 4 + 4..] == (Fixed32s(words) + [BASE_LG])[4 * (i + 1)..];
  }
}
