/**
 The iterator over a finished block (table/block.cc:76-252): a cursor over the items that
 the block holds, which unpacks one key from the one before it and steps back by starting
 again at a restart point.
 */
module BlockIter {
  import opened Coding
  import opened Blocks

  ghost predicate Transitive(less: (Key, Key) -> bool) {
    forall a, b, c :: less(a, b) && less(b, c) ==> less(a, c)
  }

  ghost predicate Ordered(items: seq<Item>, less: (Key, Key) -> bool) {
    forall i, j :: 0 <= i < j < |items| ==> less(items[i].key, items[j].key)
  }

  // The first item whose key is not before the target; past the end if there is none.
  ghost predicate FirstNotBefore(items: seq<Item>, less: (Key, Key) -> bool, target: Key, p: nat) {
    && p <= |items| && AllBefore(items, less, target, p)
    && (p < |items| ==> !less(items[p].key, target))
  }

  ghost predicate AllBefore(items: seq<Item>, less: (Key, Key) -> bool, target: Key, p: nat)
    requires p <= |items|
  {
    forall i :: 0 <= i < p ==> less(items[i].key, target)
  }

  lemma OneMoreBefore(items: seq<Item>, less: (Key, Key) -> bool, target: Key, p: nat)
    requires p < |items| && AllBefore(items, less, target, p) && less(items[p].key, target)
    ensures AllBefore(items, less, target, p + 1)
  {
  }

  lemma OffsetOrder(items: seq<Item>, i: nat, j: nat)
    requires AllSmall(items) && i <= |items| && j <= |items|
    ensures Offset(items, i) < Offset(items, j) <==> i < j
    ensures Offset(items, |items|) == |Bytes(items)| && Offset(items, 0) == 0
  {
    assert items[..|items|] == items && items[..0] == [];
    hide Offset;
    if i < j {
      OffsetsGrow(items, i, j);
    } else {
      OffsetsGrow(items, j, i);
    }
  }

  lemma ItemParts(it: Item)
    requires Small(it)
    ensures |ItemBytes(it)| >= |it.value|
    ensures ItemBytes(it)[|ItemBytes(it)| - |it.value|..] == it.value
    ensures |it.key| - it.shared + |it.value| <= |ItemBytes(it)|
  {
  }

  lemma Within<T>(a: seq<T>, b: seq<T>, c: seq<T>, v: nat)
    requires v <= |b|
    ensures (a + b + c)[|a + b| - v..|a + b|] == b[|b| - v..]
  {
  }

  class Iter {
    const data: seq<Byte>
    const limit: nat
    const num: nat
    const less: (Key, Key) -> bool
    var current: nat
    var restartIndex: nat
    var key: Key
    var valueAt: nat
    var valueLength: nat
    ghost const items: seq<Item>
    ghost const starts: seq<nat>
    ghost const restarts: seq<nat>
    ghost var next: nat

    ghost predicate Open() {
      && IsBlock(data, items, starts, restarts)
      && limit == |Bytes(items)| && num == |restarts|
    }

    // block.cc:19 and block.cc:24: the number of restart points ends the block.
    constructor (data: seq<Byte>, less: (Key, Key) -> bool, ghost items: seq<Item>, ghost starts: seq<nat>, ghost restarts: seq<nat>)
      requires IsBlock(data, items, starts, restarts)
      ensures Ok() && AtEnd() && Position() == |items| && this.items == items && this.less == less
    {
      hide Bytes, Fixed32s, EncodeFixed32, DecodeFixed32;
      Fixed32RoundTrip(|restarts|, []);
      assert data[|data| - 4..] == EncodeFixed32(|restarts|) + [];
      var count := DecodeFixed32(data[|data| - 4..]);
      this.data, this.less := data, less;
      this.limit, this.num := |data| - (1 + count) * 4, count;
      this.items, this.starts, this.restarts := items, starts, restarts;
      this.current, this.restartIndex := |data| - (1 + count) * 4, count;
      this.key, this.valueAt, this.valueLength := [], 0, 0;
    }

    // block.cc:99
    function GetRestartPoint(index: nat): (r: nat)
      requires Open() && index < num
      ensures AllSmall(items) && starts[index] <= |items| && (index > 0 ==> starts[index] < |items|)
      ensures r == restarts[index] == Offset(items, starts[index])
      ensures starts[0] == 0
      ensures starts[index] < |items| ==> items[starts[index]].shared == 0
    {
      RestartPoint(index);
      DecodeFixed32(data[limit + index * 4..])
    }

    lemma RestartPoint(index: nat)
      requires Open() && index < num
      ensures limit + 4 * index + 4 <= |data| && DecodeFixed32(data[limit + index * 4..]) == restarts[index]
      ensures RestartAt(items, starts, restarts, index) && RestartAt(items, starts, restarts, 0)
    {
      var tail := EncodeFixed32(|restarts|);
      Fixed32At(restarts, index, tail);
      hide Bytes, Fixed32s, EncodeFixed32, DecodeFixed32, RestartAt;
      assert data == Bytes(items) + (Fixed32s(restarts) + tail);
      assert data[limit + index * 4..] == (Fixed32s(restarts) + tail)[index * 4..];
    }

    // block.cc:95
    function NextEntryOffset(): nat
      reads this
    {
      valueAt + valueLength
    }

    // The next item to unpack is known, and what is needed to unpack it.
    ghost predicate Ready()
      requires Open()
      reads this
    {
      && next <= |items| && NextEntryOffset() == Offset(items, next)
      && restartIndex < num && starts[restartIndex] <= next
      && (next < |items| ==> Continues(items[next], key))
    }

    // On an item.
    ghost predicate At()
      requires Open()
      reads this
    {
      && 0 < next <= |items| && NextEntryOffset() == Offset(items, next)
      && current == Offset(items, next - 1)
      && key == items[next - 1].key && valueLength == |items[next - 1].value|
      && restartIndex < num && starts[restartIndex] < next
      && (restartIndex + 1 < num ==> next - 1 <= starts[restartIndex + 1])
    }

    ghost predicate AtEnd()
      reads this
    {
      current == limit && restartIndex == num
    }

    ghost predicate Ok()
      reads this
    {
      Open() && (AtEnd() || At())
    }

    // The item the iterator is on; past the end when it is on none.
    ghost function Position(): (p: nat)
      reads this
    {
      if current == limit || next == 0 then |items| else next - 1
    }

    lemma Places()
      requires Ok()
      ensures At() ==> current < limit && Position() == next - 1 && Ready()
      ensures AtEnd() ==> Position() == |items|
    {
      if At() {
        OffsetOrder(items, next - 1, |items|);
        if next < |items| {
          assert ChainedAt(items, next);
        }
      }
    }

    method Valid() returns (valid: bool)
      requires Ok()
      ensures valid == (Position() < |items|)
    {
      Places();
      valid := current < limit;
    }

    method Key() returns (k: Key)
      requires Ok() && Position() < |items|
      ensures k == items[Position()].key
    {
      Places();
      k := key;
    }

    method Value() returns (v: seq<Byte>)
      requires Ok() && Position() < |items|
      ensures v == items[Position()].value
    {
      Places();
      ValueBytes(next - 1);
      hide IsBlock, Offset;
      v := data[valueAt..valueAt + valueLength];
    }

    lemma ValueBytes(i: nat)
      requires Open() && i < |items|
      ensures |items[i].value| <= Offset(items, i + 1) <= limit <= |data|
      ensures data[Offset(items, i + 1) - |items[i].value|..Offset(items, i + 1)] == items[i].value
    {
      hide Bytes, ItemBytes, Fixed32s, EncodeFixed32;
      var v := |items[i].value|;
      OffsetNext(items, i);
      ItemParts(items[i]);
      var tail := Fixed32s(restarts) + EncodeFixed32(|restarts|);
      assert items == items[..i + 1] + items[i + 1..];
      BytesAppend(items[..i + 1], items[i + 1..]);
      assert data == Bytes(items[..i]) + ItemBytes(items[i]) + (Bytes(items[i + 1..]) + tail);
      Within(Bytes(items[..i]), ItemBytes(items[i]), Bytes(items[i + 1..]) + tail, v);
    }

    // What decoding finds at the offset of an item.
    lemma Decodes(i: nat)
      requires Open() && i < |items|
      ensures Offset(items, i) < Offset(items, i + 1) <= limit <= |data|
      ensures var it := items[i];
        var d := DecodeEntry(data[Offset(items, i)..limit]);
        d.Some? && d.value.shared == it.shared && d.value.nonShared == |it.key| - it.shared && d.value.valueLength == |it.value|
        && d.value.nonShared <= |d.value.rest| <= limit && d.value.rest[..d.value.nonShared] == it.key[it.shared..]
        && limit - |d.value.rest| + d.value.nonShared + |it.value| == Offset(items, i + 1)
    {
      hide Bytes, ItemBytes, Fixed32s, EncodeFixed32, DecodeEntry;
      var it, rest := items[i], Bytes(items[i + 1..]);
      OffsetOrder(items, i, i + 1);
      OffsetNext(items, i);
      ItemParts(it);
      BytesAt(items, i);
      DecodesEntry(it, rest);
      assert data[..limit] == Bytes(items);
      assert data[Offset(items, i)..limit] == data[..limit][Offset(items, i)..];
    }

    // block.cc:104
    method SeekToRestartPoint(index: nat)
      requires Open() && index < num
      modifies this
      ensures Ready() && next == starts[index] && restartIndex == index
    {
      key := [];
      restartIndex := index;
      var offset := GetRestartPoint(index);
      valueAt, valueLength := offset, 0;
      next := starts[index];
    }

    lemma Opened()
      requires Open()
      ensures AllSmall(items) && |starts| == |restarts| == num > 0
    {
    }

    // block.cc:224
    method ParseNextKey() returns (more: bool)
      requires Open() && Ready()
      modifies this
      ensures Ok() && more == (old(next) < |items|) && Position() == old(next)
      ensures if more then At() && next == old(next) + 1 else AtEnd()
    {
      Opened();
      hide Bytes, IsBlock, AllSmall, Offset, Continues;
      current := NextEntryOffset();
      OffsetOrder(items, next, |items|);
      if current >= limit {
        current, restartIndex := limit, num;
        return false;
      }
      Unpack();
      AdvanceRestart();
      more := true;
    }

    // The entry at an offset: how much it shares, the rest of its key, and where its value is.
    method EntryAt(offset: nat, ghost i: nat) returns (shared: nat, delta: seq<Byte>, at: nat, length: nat)
      requires Open() && i < |items| && AllSmall(items) && offset == Offset(items, i)
      ensures shared == items[i].shared <= |items[i].key| && delta == items[i].key[items[i].shared..]
      ensures at + length == Offset(items, i + 1) && length == |items[i].value|
    {
      Decodes(i);
      hide Bytes, DecodeEntry, IsBlock, Offset;
      var p := DecodeEntry(data[offset..limit]);
      if p.None? {
        assert false;
      }
      var h := p.value;
      shared, delta, at, length := h.shared, h.rest[..h.nonShared], limit - |h.rest| + h.nonShared, h.valueLength;
    }

    // block.cc:235: decode an entry and put its key together.
    method Unpack()
      requires Open() && Ready() && next < |items| && AllSmall(items) && current == Offset(items, next)
      modifies `key, `valueAt, `valueLength, `next
      ensures next == old(next) + 1 && NextEntryOffset() == Offset(items, next)
      ensures key == items[next - 1].key && valueLength == |items[next - 1].value|
    {
      hide Bytes, IsBlock, AllSmall, Offset;
      var shared, delta, at, length := EntryAt(current, next);
      if |key| < shared {
        assert false;
      }
      assert items[next].key == key[..shared] + delta;
      key := key[..shared] + delta;
      valueAt, valueLength := at, length;
      next := next + 1;
    }

    // block.cc:245: the restart point before the item.
    method AdvanceRestart()
      requires Open() && 0 < next <= |items| && AllSmall(items) && current == Offset(items, next - 1)
      requires restartIndex < num == |starts| && starts[restartIndex] < next
      modifies `restartIndex
      ensures restartIndex < num && starts[restartIndex] < next
      ensures restartIndex + 1 < num ==> next - 1 <= starts[restartIndex + 1]
    {
      hide Bytes, IsBlock, AllSmall, Offset;
      while restartIndex + 1 < num && GetRestartPoint(restartIndex + 1) < current
        invariant restartIndex < num && starts[restartIndex] < next
      {
        OffsetOrder(items, starts[restartIndex + 1], next - 1);
        restartIndex := restartIndex + 1;
      }
      if restartIndex + 1 < num {
        OffsetOrder(items, starts[restartIndex + 1], next - 1);
      }
    }

    // block.cc:137
    method Next()
      requires Ok() && Position() < |items|
      modifies this
      ensures Ok() && Position() == old(Position()) + 1
    {
      Places();
      hide IsBlock;
      var _ := ParseNextKey();
    }

    // block.cc:146: the nearest restart point before an item.
    method FindRestart(original: nat, ghost p: nat) returns (found: bool)
      requires Open() && restartIndex < num && AllSmall(items) && p < |items| && original == Offset(items, p)
      modifies `restartIndex
      ensures restartIndex < num == |starts| && found == (p > 0)
      ensures found ==> starts[restartIndex] < p
    {
      Opened();
      hide Bytes, IsBlock, AllSmall, Offset;
      while GetRestartPoint(restartIndex) >= original
        invariant restartIndex < num
        decreases restartIndex
      {
        if restartIndex == 0 {
          OffsetOrder(items, starts[0], p);
          return false;
        }
        restartIndex := restartIndex - 1;
      }
      OffsetOrder(items, starts[restartIndex], p);
      found := true;
    }

    // block.cc:142
    method Prev()
      requires Ok() && Position() < |items|
      modifies this
      ensures Ok() && Position() == if old(Position()) == 0 then |items| else old(Position()) - 1
    {
      Places();
      Opened();
      hide Bytes, IsBlock, AllSmall, Offset;
      var original := current;
      ghost var p := next - 1;
      var found := FindRestart(original, p);
      if !found {
        current, restartIndex := limit, num;
        return;
      }
      SeekToRestartPoint(restartIndex);
      var more := ParseNextKey();
      OffsetOrder(items, next, p);
      while more && NextEntryOffset() < original
        invariant Ok() && more && At() && next <= p
        invariant NextEntryOffset() < original <==> next < p
        decreases p - next
      {
        Places();
        more := ParseNextKey();
        OffsetOrder(items, next, p);
      }
      Places();
    }

    // block.cc:168: the last restart point with a key before the target.
    method FindRegion(target: Key) returns (left: nat)
      requires Open()
      ensures left < num == |starts|
      ensures left > 0 ==> starts[left] < |items| && less(items[starts[left]].key, target)
      ensures left + 1 < num ==>
        starts[left + 1] < |items| && !less(items[starts[left + 1]].key, target)
    {
      Opened();
      left := 0;
      var right: nat := num - 1;
      hide Bytes, DecodeEntry, IsBlock, AllSmall, Offset;
      while left < right
        invariant left <= right < num
        invariant left > 0 ==> starts[left] < |items| && less(items[starts[left]].key, target)
        invariant right + 1 < num ==> starts[right + 1] < |items| && !less(items[starts[right + 1]].key, target)
      {
        var mid := (left + right + 1) / 2;
        var regionOffset := GetRestartPoint(mid);
        var shared, midKey, _, _ := EntryAt(regionOffset, starts[mid]);
        if shared != 0 {
          assert false;
        }
        if less(midKey, target) {
          left := mid;
        } else {
          right := mid - 1;
        }
      }
    }

    // block.cc:163
    method Seek(target: Key)
      requires Ok() && Ordered(items, less) && Transitive(less)
      modifies this
      ensures Ok() && FirstNotBefore(items, less, target, Position())
    {
      var left := FindRegion(target);
      BeforeRestart(target, left);
      hide Open, Offset, AllBefore;
      SeekToRestartPoint(left);
      ScanTo(target);
    }

    // block.cc:191: on to the first key that is not before the target.
    method ScanTo(target: Key)
      requires Open() && Ready() && AllBefore(items, less, target, next)
      modifies this
      ensures Ok() && FirstNotBefore(items, less, target, Position())
    {
      hide Open, Offset, AllBefore, Continues;
      while true
        invariant Ready() && AllBefore(items, less, target, next)
        decreases |items| - next
      {
        var more := ParseNextKey();
        if !more {
          return;
        }
        Places();
        if !less(key, target) {
          return;
        }
        OneMoreBefore(items, less, target, next - 1);
      }
    }

    lemma BeforeRestart(target: Key, left: nat)
      requires Open() && Ordered(items, less) && Transitive(less) && left < num
      requires left > 0 ==> starts[left] < |items| && less(items[starts[left]].key, target)
      ensures starts[left] <= |items| && AllBefore(items, less, target, starts[left])
    {
      RestartPoint(left);
      forall i | 0 <= i < starts[left]
        ensures less(items[i].key, target)
      {
        assert less(items[i].key, items[starts[left]].key);
      }
    }

    // block.cc:203
    method SeekToFirst()
      requires Ok()
      modifies this
      ensures Ok() && Position() == 0
    {
      RestartPoint(0);
      SeekToRestartPoint(0);
      var _ := ParseNextKey();
    }

    // block.cc:208
    method SeekToLast()
      requires Ok()
      modifies this
      ensures Ok() && Position() == if items == [] then 0 else |items| - 1
    {
      Opened();
      RestartPoint(num - 1);
      hide Bytes, IsBlock, AllSmall, Offset;
      SeekToRestartPoint(num - 1);
      var more := ParseNextKey();
      while more && NextEntryOffset() < limit
        invariant Ok() && (if more then At() else AtEnd() && items == [])
        decreases |items| - next
      {
        Places();
        OffsetOrder(items, next, |items|);
        more := ParseNextKey();
      }
      Places();
      if more {
        OffsetOrder(items, next, |items|);
      }
    }

    // From the first item to the last.
    method Collect() returns (pairs: seq<Pair>)
      requires Ok()
      modifies this
      ensures Ok() && pairs == PairsOf(items)
    {
      hide Ok, Position;
      SeekToFirst();
      pairs := [];
      var valid := Valid();
      while valid
        invariant Ok() && Position() == |pairs| <= |items| && valid == (Position() < |items|) && pairs == PairsOf(items)[..|pairs|]
        decreases |items| - |pairs|
      {
        var k := Key();
        var v := Value();
        pairs := pairs + [Pair(k, v)];
        Next();
        valid := Valid();
      }
    }
  }

  // An upper bound on what a pair takes in a block, restart point included.
  function Weight(pairs: seq<Pair>): nat {
    if pairs == [] then 0
    else Weight(pairs[..|pairs| - 1]) + 19 + |pairs[|pairs| - 1].key| + |pairs[|pairs| - 1].value|
  }

  lemma {:induction false} WeightGrows(pairs: seq<Pair>, i: nat)
    requires i <= |pairs|
    ensures Weight(pairs[..i]) <= Weight(pairs)
  {
    if i == |pairs| {
      assert pairs[..i] == pairs;
    } else {
      WeightGrows(pairs[..|pairs| - 1], i);
      assert pairs[..|pairs| - 1][..i] == pairs[..i];
    }
  }

  lemma WeightNext(pairs: seq<Pair>, i: nat)
    requires i < |pairs|
    ensures Weight(pairs[..i + 1]) == Weight(pairs[..i]) + 19 + |pairs[i].key| + |pairs[i].value|
    ensures Weight(pairs[..i + 1]) <= Weight(pairs)
  {
    assert pairs[..i + 1][..i] == pairs[..i];
    WeightGrows(pairs, i + 1);
  }

  lemma PairsPush(items: seq<Item>, it: Item)
    ensures PairsOf(items + [it]) == PairsOf(items) + [Pair(it.key, it.value)]
  {
    assert (items + [it])[..|items|] == items;
  }

  method Build(pairs: seq<Pair>, interval: nat) returns (data: seq<Byte>, ghost items: seq<Item>, ghost starts: seq<nat>, ghost restarts: seq<nat>)
    requires interval >= 1 && Weight(pairs) + 8 < TWO32
    ensures IsBlock(data, items, starts, restarts) && PairsOf(items) == pairs
  {
    hide BlockBuilder.Valid, Bytes, Chained, Restarted, IsBlock, PairsOf, Weight, AllSmall, Tight;
    var builder := new BlockBuilder(interval);
    builder.Fresh();
    for i := 0 to |pairs|
      invariant fresh(builder) && builder.Valid() && PairsOf(builder.items) == pairs[..i]
      invariant |builder.buffer| + 4 * |builder.restarts| <= 4 + Weight(pairs[..i])
    {
      WeightNext(pairs, i);
      AddOne(builder, pairs[i]);
    }
    assert pairs[..|pairs|] == pairs;
    data := builder.Finish();
    items, starts, restarts := builder.items, builder.starts, builder.restarts;
  }

  // Building a block of pairs and iterating over its bytes gives the pairs, whatever the
  // restart interval.
  method RoundTrip(pairs: seq<Pair>, interval: nat, less: (Key, Key) -> bool) returns (read: seq<Pair>)
    requires interval >= 1 && Weight(pairs) + 8 < TWO32
    ensures read == pairs
  {
    var data, items, starts, restarts := Build(pairs, interval);
    var iter := new Iter(data, less, items, starts, restarts);
    hide IsBlock;
    read := iter.Collect();
  }

  method AddOne(builder: BlockBuilder, pair: Pair)
    requires builder.Valid() && |pair.key| < TWO32 && |pair.value| < TWO32
    modifies builder
    ensures builder.Valid() && PairsOf(builder.items) == PairsOf(old(builder.items)) + [pair]
    ensures |builder.buffer| + 4 * |builder.restarts| <=
      old(|builder.buffer| + 4 * |builder.restarts|) + 19 + |pair.key| + |pair.value|
  {
    ghost var items := builder.items;
    builder.Add(pair.key, pair.value);
    PairsPush(items, builder.items[|items|]);
  }
}
