/**
 Table blocks (table/block_builder.cc, table/block.cc): keys in order, each stored without
 the prefix it shares with the one before, with restart points where a whole key is stored.
 Iterating a finished block gives the pairs that were added; seeking lands on the first key
 that is not before the target; stepping back undoes stepping on.
 */
module Blocks {
  import opened Keys
  import opened Coding

  type Key = seq<Byte>

  datatype Pair = Pair(key: Key, value: seq<Byte>)

  // A pair and the length of the prefix it shares with the pair before it.
  datatype Item = Item(shared: nat, key: Key, value: seq<Byte>)

  /* ---- the encoding of items ---- */

  predicate Small(it: Item) {
    it.shared <= |it.key| < TWO32 && |it.value| < TWO32
  }

  function Lengths(it: Item): seq<Byte>
    requires Small(it)
  {
    EncodeVarint(it.shared) + EncodeVarint(|it.key| - it.shared) + EncodeVarint(|it.value|)
  }

  function ItemBytes(it: Item): (r: seq<Byte>)
    requires Small(it)
    ensures |r| >= 3
  {
    Lengths(it) + it.key[it.shared..] + it.value
  }

  ghost predicate AllSmall(items: seq<Item>) {
    forall i :: 0 <= i < |items| ==> Small(items[i])
  }

  ghost function Bytes(items: seq<Item>): seq<Byte>
    requires AllSmall(items)
  {
    if items == [] then [] else Bytes(items[..|items| - 1]) + ItemBytes(items[|items| - 1])
  }

  // Where an item starts.
  ghost function Offset(items: seq<Item>, i: nat): nat
    requires AllSmall(items) && i <= |items|
  {
    |Bytes(items[..i])|
  }

  // Each key starts with what it shares with the key before.
  ghost predicate Chained(items: seq<Item>) {
    AllSmall(items) && forall i :: 0 <= i < |items| ==> ChainedAt(items, i)
  }

  ghost predicate ChainedAt(items: seq<Item>, i: nat)
    requires i < |items|
  {
    Continues(items[i], LastKey(items, i))
  }

  // The key before position i.
  function LastKey(items: seq<Item>, i: nat): Key
    requires i <= |items|
  {
    if i == 0 then [] else items[i - 1].key
  }

  ghost predicate Continues(it: Item, last: Key) {
    it.shared <= |it.key| && it.shared <= |last| && it.key[..it.shared] == last[..it.shared]
  }

  lemma OffsetNext(items: seq<Item>, i: nat)
    requires AllSmall(items) && i < |items|
    ensures Offset(items, i + 1) == Offset(items, i) + |ItemBytes(items[i])|
    ensures Bytes(items[..i + 1]) == Bytes(items[..i]) + ItemBytes(items[i])
  {
    assert items[..i + 1][..i] == items[..i];
  }

  lemma {:induction false} OffsetsGrow(items: seq<Item>, i: nat, j: nat)
    requires AllSmall(items) && i <= j <= |items|
    ensures Offset(items, i) + 3 * (j - i) <= Offset(items, j)
    decreases j
  {
    if i < j {
      OffsetsGrow(items, i, j - 1);
      OffsetNext(items, j - 1);
    }
  }

  lemma Join<T>(a: seq<T>, b: seq<T>, c: seq<T>)
    ensures a + b + c == a + (b + c) && (a + (b + c))[|a|..] == b + c
  {
  }

  lemma BytesPush(items: seq<Item>, it: Item)
    requires AllSmall(items) && Small(it)
    ensures Bytes(items + [it]) == Bytes(items) + ItemBytes(it)
  {
    assert (items + [it])[..|items|] == items;
  }

  lemma SmallParts(a: seq<Item>, front: seq<Item>, last: Item)
    requires AllSmall(a) && AllSmall(front + [last])
    ensures AllSmall(front) && AllSmall(a + front) && Small(last) && AllSmall(a + front + [last])
  {
    var b := front + [last];
    assert forall i :: 0 <= i < |front| ==> front[i] == b[i];
    assert b[|front|] == last;
  }

  lemma {:induction false} BytesAppend(a: seq<Item>, b: seq<Item>)
    requires AllSmall(a) && AllSmall(b)
    ensures Bytes(a + b) == Bytes(a) + Bytes(b)
  {
    if b == [] {
      assert a + b == a;
    } else {
      hide Bytes, ItemBytes, AllSmall;
      var front, last := b[..|b| - 1], b[|b| - 1];
      assert b == front + [last] && a + b == a + front + [last];
      SmallParts(a, front, last);
      BytesAppend(a, front);
      BytesPush(front, last);
      BytesPush(a + front, last);
      Join(Bytes(a), Bytes(front), ItemBytes(last));
    }
  }

  // What is at the offset of an item.
  lemma BytesAt(items: seq<Item>, i: nat)
    requires AllSmall(items) && i < |items|
    ensures Offset(items, i) <= |Bytes(items)|
    ensures Bytes(items)[Offset(items, i)..] == ItemBytes(items[i]) + Bytes(items[i + 1..])
  {
    hide Bytes, ItemBytes;
    assert items == items[..i + 1] + items[i + 1..];
    BytesAppend(items[..i + 1], items[i + 1..]);
    OffsetNext(items, i);
    Join(Bytes(items[..i]), ItemBytes(items[i]), Bytes(items[i + 1..]));
  }

  /* ---- decoding an item ---- */

  datatype Header = Header(shared: nat, nonShared: nat, valueLength: nat, rest: seq<Byte>)

  // block.cc:54: one byte each, or varints.
  function DecodeEntry(p: seq<Byte>): Option<Header> {
    if |p| < 3 then None
    else if p[0] < 128 && p[1] < 128 && p[2] < 128 then Checked(Header(p[0], p[1], p[2], p[3..]))
    else
      var a := DecodeVarint32(p);
      if a.None? then None
      else
        var b := DecodeVarint32(a.value.1);
        if b.None? then None
        else
          var c := DecodeVarint32(b.value.1);
          if c.None? then None else Checked(Header(a.value.0, b.value.0, c.value.0, c.value.1))
  }

  // The two lengths are added in 32 bits.
  function Checked(h: Header): Option<Header> {
    if |h.rest| < (h.nonShared + h.valueLength) % TWO32 then None else Some(h)
  }

  lemma OneByte(v: nat)
    requires v < TWO32
    ensures EncodeVarint(v) != [] && (EncodeVarint(v)[0] < 128 <==> v < 128)
    ensures v < 128 ==> EncodeVarint(v) == [v]
  {
  }

  // Three first bytes below 128 are three whole numbers.
  lemma ShortLengths(s: nat, n: nat, v: nat, tail: seq<Byte>)
    requires s < TWO32 && n < TWO32 && v < TWO32
    ensures var p := EncodeVarint(s) + (EncodeVarint(n) + (EncodeVarint(v) + tail));
      |p| >= 3 && (p[0] < 128 && p[1] < 128 && p[2] < 128 ==> p[0] == s && p[1] == n && p[2] == v && p[3..] == tail)
  {
    OneByte(s);
    OneByte(n);
    OneByte(v);
    hide EncodeVarint;
    var p := EncodeVarint(s) + (EncodeVarint(n) + (EncodeVarint(v) + tail));
    assert p[0] == EncodeVarint(s)[0];
    if s < 128 {
      assert p[1] == EncodeVarint(n)[0];
      if n < 128 {
        assert p[2] == EncodeVarint(v)[0];
      }
    }
  }

  lemma LongLengths(s: nat, n: nat, v: nat, tail: seq<Byte>)
    requires s < TWO32 && n < TWO32 && v < TWO32
    ensures var p := EncodeVarint(s) + (EncodeVarint(n) + (EncodeVarint(v) + tail));
      var a := DecodeVarint32(p);
      a.Some? && a.value.0 == s
      && var b := DecodeVarint32(a.value.1);
      b.Some? && b.value.0 == n && DecodeVarint32(b.value.1) == Some((v, tail))
  {
    hide EncodeVarint, DecodeVarint32;
    Varint32RoundTrip(s, EncodeVarint(n) + (EncodeVarint(v) + tail));
    Varint32RoundTrip(n, EncodeVarint(v) + tail);
    Varint32RoundTrip(v, tail);
  }

  lemma DecodesLengths(s: nat, n: nat, v: nat, tail: seq<Byte>)
    requires s < TWO32 && n + v < TWO32 && n + v <= |tail|
    ensures DecodeEntry(EncodeVarint(s) + (EncodeVarint(n) + (EncodeVarint(v) + tail))) == Some(Header(s, n, v, tail))
  {
    hide EncodeVarint, DecodeVarint32;
    ShortLengths(s, n, v, tail);
    LongLengths(s, n, v, tail);
  }

  lemma Regroup<T>(a: seq<T>, b: seq<T>, c: seq<T>, d: seq<T>, e: seq<T>, f: seq<T>)
    ensures a + b + c + d + e + f == a + (b + (c + (d + e + f)))
  {
    Join(c, d, e);
    Join(c, d + e, f);
    assert a + b + c + d + e + f == a + b + (c + (d + e + f)) by {
      assert a + b + c + d + e == a + b + (c + (d + e));
      assert a + b + (c + (d + e)) + f == a + b + (c + (d + e) + f);
    }
  }

  lemma DecodesEntry(it: Item, rest: seq<Byte>)
    requires Small(it) && |it.key| - it.shared + |it.value| < TWO32
    ensures DecodeEntry(ItemBytes(it) + rest) == Some(Header(it.shared, |it.key| - it.shared, |it.value|, it.key[it.shared..] + it.value + rest))
  {
    var s, n, v := it.shared, |it.key| - it.shared, |it.value|;
    var tail := it.key[it.shared..] + it.value + rest;
    hide EncodeVarint, DecodeEntry;
    DecodesLengths(s, n, v, tail);
    Regroup(EncodeVarint(s), EncodeVarint(n), EncodeVarint(v), it.key[it.shared..], it.value, rest);
  }

  // Three lengths, and behind them at least as many bytes as the last two call for.
  ghost predicate IsEntry(p: seq<Byte>, h: Header) {
    && |h.rest| >= (h.nonShared + h.valueLength) % TWO32 && |p| >= 3
    && exists x: seq<Byte>, y: seq<Byte>, z: seq<Byte> ::
      IsVarint32(x, h.shared) && IsVarint32(y, h.nonShared) && IsVarint32(z, h.valueLength) && p == x + (y + (z + h.rest))
  }

  lemma OneByteVarint(b: Byte, rest: seq<Byte>)
    requires b < 128
    ensures IsVarint32([b], b) && DecodeVarint32([b] + rest) == Some((b as nat, rest))
  {
    assert ([b] + rest)[1..] == rest;
  }

  lemma ShortEntry(p: seq<Byte>)
    requires |p| >= 3 && p[0] < 128 && p[1] < 128 && p[2] < 128
    ensures DecodeVarint32(p) == Some((p[0] as nat, p[1..])) && DecodeVarint32(p[1..]) == Some((p[1] as nat, p[2..]))
    ensures DecodeVarint32(p[2..]) == Some((p[2] as nat, p[3..]))
  {
    assert p == [p[0]] + p[1..] && p[1..] == [p[1]] + p[2..] && p[2..] == [p[2]] + p[3..];
    hide DecodeVarint32;
    OneByteVarint(p[0], p[1..]);
    OneByteVarint(p[1], p[2..]);
    OneByteVarint(p[2], p[3..]);
  }

  // The short path reads what the long one does.
  lemma ReadsLengths(p: seq<Byte>, h: Header)
    ensures DecodeEntry(p) == Some(h) <==>
      && |p| >= 3 && |h.rest| >= (h.nonShared + h.valueLength) % TWO32
      && var a := DecodeVarint32(p);
      a.Some? && a.value.0 == h.shared
      && var b := DecodeVarint32(a.value.1);
      b.Some? && b.value.0 == h.nonShared && DecodeVarint32(b.value.1) == Some((h.valueLength, h.rest))
  {
    hide DecodeVarint32;
    if |p| >= 3 && p[0] < 128 && p[1] < 128 && p[2] < 128 {
      ShortEntry(p);
    }
  }

  // On any bytes: an entry is read if and only if one is there.
  lemma EntryIff(p: seq<Byte>, h: Header)
    ensures DecodeEntry(p) == Some(h) <==> IsEntry(p, h)
  {
    hide DecodeEntry, DecodeVarint;
    ReadsLengths(p, h);
    if DecodeEntry(p) == Some(h) {
      var x := VarintFront(p, 5, TWO32);
      var p1 := DecodeVarint32(p).value.1;
      var y := VarintFront(p1, 5, TWO32);
      var z := VarintFront(DecodeVarint32(p1).value.1, 5, TWO32);
      assert IsVarint32(x, h.shared) && IsVarint32(y, h.nonShared) && IsVarint32(z, h.valueLength) && p == x + (y + (z + h.rest));
    }
    if IsEntry(p, h) {
      var x: seq<Byte>, y: seq<Byte>, z: seq<Byte> :|
        IsVarint32(x, h.shared) && IsVarint32(y, h.nonShared) && IsVarint32(z, h.valueLength) && p == x + (y + (z + h.rest));
      VarintBehind(x, 5, TWO32, h.shared, y + (z + h.rest));
      VarintBehind(y, 5, TWO32, h.nonShared, z + h.rest);
      VarintBehind(z, 5, TWO32, h.valueLength, h.rest);
    }
  }

  /* ---- restart points ---- */

  // Each number takes 32 bits.
  function Fixed32s(ns: seq<nat>): (r: seq<Byte>)
    ensures |r| == 4 * |ns|
  {
    if ns == [] then [] else Fixed32s(ns[..|ns| - 1]) + EncodeFixed32(ns[|ns| - 1] % TWO32)
  }

  lemma {:induction false} Fixed32At(ns: seq<nat>, j: nat, rest: seq<Byte>)
    requires j < |ns| && ns[j] < TWO32
    ensures DecodeFixed32((Fixed32s(ns) + rest)[4 * j..]) == ns[j]
    decreases |ns|
  {
    var n := |ns| - 1;
    hide Fixed32s, EncodeFixed32, DecodeFixed32;
    var front, last := Fixed32s(ns[..n]), EncodeFixed32(ns[n] % TWO32);
    SplitFixed32s(ns, ns[n] % TWO32);
    DropFront(front, last, rest);
    if j < n {
      Fixed32At(ns[..n], j, last + rest);
    } else {
      Fixed32RoundTrip(ns[n], rest);
    }
  }

  lemma NoFixed32s(front: seq<Byte>)
    ensures front + Fixed32s([]) == front
  {
  }

  lemma Fixed32sPush(front: seq<Byte>, ns: seq<nat>, i: nat)
    requires i < |ns| && ns[i] < TWO32
    ensures front + Fixed32s(ns[..i]) + EncodeFixed32(ns[i]) == front + Fixed32s(ns[..i + 1])
  {
    hide EncodeFixed32;
    assert ns[..i + 1][..i] == ns[..i];
    assert Fixed32s(ns[..i + 1]) == Fixed32s(ns[..i]) + EncodeFixed32(ns[i]);
  }

  lemma SplitFixed32s(ns: seq<nat>, last: nat)
    requires ns != [] && last == ns[|ns| - 1] % TWO32
    ensures Fixed32s(ns) == Fixed32s(ns[..|ns| - 1]) + EncodeFixed32(last)
  {
    hide EncodeFixed32;
  }

  lemma DropFront<T>(a: seq<T>, b: seq<T>, c: seq<T>)
    ensures a + b + c == a + (b + c) && (a + (b + c))[|a|..] == b + c
  {
  }

  // starts names the items whose whole key is stored, the first item among them, and
  // restarts their offsets.
  ghost predicate Restarted(items: seq<Item>, starts: seq<nat>, restarts: seq<nat>)
    requires AllSmall(items)
  {
    |starts| == |restarts| && |starts| > 0 && forall j :: 0 <= j < |starts| ==> RestartAt(items, starts, restarts, j)
  }

  ghost predicate RestartAt(items: seq<Item>, starts: seq<nat>, restarts: seq<nat>, j: nat)
    requires AllSmall(items) && j < |starts| == |restarts|
  {
    && starts[j] <= |items| && restarts[j] == Offset(items, starts[j])
    && (if j == 0 then starts[j] == 0 else starts[j - 1] < starts[j] < |items|)
    && (starts[j] < |items| ==> items[starts[j]].shared == 0)
  }

  // A finished block.
  ghost predicate IsBlock(data: seq<Byte>, items: seq<Item>, starts: seq<nat>, restarts: seq<nat>) {
    && Chained(items) && Restarted(items, starts, restarts)
    && |data| < TWO32 && |restarts| < TWO32 && (forall j :: 0 <= j < |restarts| ==> restarts[j] < TWO32)
    && data == Bytes(items) + Fixed32s(restarts) + EncodeFixed32(|restarts|)
  }

  function PairsOf(items: seq<Item>): (r: seq<Pair>)
    ensures |r| == |items| && forall i :: 0 <= i < |items| ==> r[i] == Pair(items[i].key, items[i].value)
  {
    if items == [] then [] else PairsOf(items[..|items| - 1]) + [Pair(items[|items| - 1].key, items[|items| - 1].value)]
  }

  lemma OffsetKept(items: seq<Item>, it: Item, k: nat)
    requires AllSmall(items) && Small(it) && k <= |items|
    ensures Offset(items + [it], k) == Offset(items, k)
  {
    assert (items + [it])[..k] == items[..k];
  }

  lemma ChainedPush(items: seq<Item>, it: Item)
    requires Chained(items) && Small(it) && Continues(it, LastKey(items, |items|))
    ensures Chained(items + [it]) && LastKey(items + [it], |items| + 1) == it.key
  {
    forall i | 0 <= i < |items| + 1
      ensures Small((items + [it])[i]) && ChainedAt(items + [it], i)
    {
      if i < |items| {
        assert ChainedAt(items, i);
      }
    }
  }

  function Starts(starts: seq<nat>, n: nat, here: bool): seq<nat> {
    if here then starts + [n] else starts
  }

  // An item more leaves the restart points where they are; it may be one itself.
  lemma RestartedPush(items: seq<Item>, it: Item, starts: seq<nat>, restarts: seq<nat>, here: bool)
    requires AllSmall(items) && Small(it) && Restarted(items, starts, restarts)
    requires if here then items != [] && it.shared == 0 else items == [] ==> it.shared == 0
    requires here ==> starts[|starts| - 1] < |items|
    ensures Restarted(items + [it], Starts(starts, |items|, here), Starts(restarts, |Bytes(items)|, here))
  {
    var more := items + [it];
    var starts', restarts' := Starts(starts, |items|, here), Starts(restarts, |Bytes(items)|, here);
    forall j | 0 <= j < |starts'|
      ensures RestartAt(more, starts', restarts', j)
    {
      if j < |starts| {
        assert RestartAt(items, starts, restarts, j);
        OffsetKept(items, it, starts[j]);
      } else {
        assert RestartAt(items, starts, restarts, j - 1);
        OffsetKept(items, it, |items|);
        assert items[..|items|] == items;
      }
    }
  }

  // n is all that two keys share at the front.
  ghost predicate SharesMost(a: Key, b: Key, n: nat) {
    n <= |a| && n <= |b| && a[..n] == b[..n] && (n == |a| || n == |b| || a[n] != b[n])
  }

  // Only every so many items store their whole key; the others leave out all they share with
  // the key before.
  ghost predicate Tight(items: seq<Item>, starts: seq<nat>, interval: nat) {
    && (forall j :: 0 < j < |starts| ==> starts[j] == starts[j - 1] + interval)
    && (forall i :: 0 <= i < |items| && i !in starts ==> SharesMost(LastKey(items, i), items[i].key, items[i].shared))
  }

  lemma TightPush(items: seq<Item>, it: Item, starts: seq<nat>, interval: nat, here: bool)
    requires Tight(items, starts, interval) && starts != []
    requires if here then starts[|starts| - 1] + interval == |items| else SharesMost(LastKey(items, |items|), it.key, it.shared)
    ensures Tight(items + [it], Starts(starts, |items|, here), interval)
  {
    hide SharesMost;
    var more, starts' := items + [it], Starts(starts, |items|, here);
    StartsPush(starts, |items|, here);
    forall i | 0 <= i < |more| && i !in starts'
      ensures SharesMost(LastKey(more, i), more[i].key, more[i].shared)
    {
      if i < |items| {
        assert more[i] == items[i] && LastKey(more, i) == LastKey(items, i);
      }
    }
  }

  lemma StartsPush(starts: seq<nat>, n: nat, here: bool)
    ensures var r := Starts(starts, n, here); starts <= r && (here ==> |r| == |starts| + 1 && r[|starts|] == n) && (!here ==> r == starts)
    ensures forall s :: s in Starts(starts, n, here) <==> s in starts || (here && s == n)
  {
  }

  // What the items without the last one took.
  ghost function SizeBefore(items: seq<Item>, starts: seq<nat>): nat
    requires items != [] && AllSmall(items) && starts != []
  {
    var n := |items| - 1;
    Offset(items, n) + 4 * (if n > 0 && starts[|starts| - 1] == n then |starts| - 1 else |starts|)
  }

  // An item more than there were, with the size before it.
  ghost predicate Grown(before: seq<Item>, size: nat, items: seq<Item>, starts: seq<nat>, interval: nat) {
    && |items| == |before| + 1 && starts != [] && AllSmall(items) && Tight(items, starts, interval)
    && SizeBefore(items, starts) == size
  }

  lemma SizeIs(items: seq<Item>, it: Item, starts: seq<nat>, restarts: seq<nat>, here: bool)
    requires AllSmall(items) && Small(it) && AllSmall(items + [it]) && Restarted(items, starts, restarts) && (here ==> items != [])
    ensures SizeBefore(items + [it], Starts(starts, |items|, here)) == |Bytes(items)| + 4 * |restarts|
  {
    hide Bytes;
    assert RestartAt(items, starts, restarts, |starts| - 1);
    assert (items + [it])[..|items|] == items;
  }

  // What an entry takes at most.
  lemma ItemWeight(items: seq<Item>, it: Item)
    requires AllSmall(items) && Small(it)
    ensures |Bytes(items + [it])| <= |Bytes(items)| + 15 + |it.key| + |it.value|
  {
    BytesPush(items, it);
    VarintLengths(it.shared);
    VarintLengths(|it.key| - it.shared);
    VarintLengths(|it.value|);
  }

  class BlockBuilder {
    const interval: nat
    var buffer: seq<Byte>
    var restarts: seq<nat>
    var counter: nat
    var lastKey: Key
    ghost var items: seq<Item>
    ghost var starts: seq<nat>

    ghost predicate Valid()
      reads this
    {
      && interval >= 1 && counter <= interval
      && Chained(items) && buffer == Bytes(items) && Restarted(items, starts, restarts)
      && lastKey == LastKey(items, |items|)
      && starts[|starts| - 1] + counter == |items| && Tight(items, starts, interval)
    }

    constructor (interval: nat)
      requires interval >= 1
      ensures Valid() && items == [] && starts == [0] && this.interval == interval
    {
      this.interval := interval;
      buffer, restarts, counter, lastKey := [], [0], 0, [];
      items, starts := [], [0];
      new;
      EmptyRestarted();
    }

    lemma Fresh()
      requires Valid() && items == [] && starts == [0]
      ensures |buffer| == 0 && |restarts| == 1
    {
    }

    // block_builder.cc:47
    method Reset()
      requires interval >= 1
      modifies this
      ensures Valid() && items == [] && starts == [0]
    {
      buffer, restarts, counter, lastKey := [], [0], 0, [];
      items, starts := [], [0];
      EmptyRestarted();
    }

    // block_builder.h:42
    method Empty() returns (empty: bool)
      requires Valid()
      ensures empty == (items == [])
    {
      OffsetsGrow(items, 0, |items|);
      assert items[..|items|] == items;
      empty := buffer == [];
    }

    // block_builder.cc:56
    method CurrentSizeEstimate() returns (n: nat)
      ensures n == |buffer| + 4 * |restarts| + 4
    {
      n := |buffer| + 4 * |restarts| + 4;
    }

    // block_builder.cc:80: what the key shares with the one before.
    method SharedPrefix(key: Key) returns (shared: nat)
      ensures SharesMost(lastKey, key, shared)
    {
      shared := 0;
      var minLength := if |lastKey| < |key| then |lastKey| else |key|;
      while shared < minLength && lastKey[shared] == key[shared]
        invariant shared <= minLength && key[..shared] == lastKey[..shared]
      {
        shared := shared + 1;
      }
    }

    // Between choosing how much to share and writing the entry.
    ghost predicate Begun(it: Item)
      reads this
    {
      && interval >= 1 && counter < interval
      && Chained(items) && Small(it) && Continues(it, lastKey) && buffer == Bytes(items)
      && lastKey == LastKey(items, |items|)
      && AllSmall(items + [it]) && Restarted(items + [it], starts, restarts)
      && starts[|starts| - 1] + counter == |items| && Tight(items + [it], starts, interval)
    }

    // block_builder.cc:72-89
    method BeginEntry(key: Key, ghost value: seq<Byte>) returns (shared: nat)
      requires Valid() && |key| < TWO32 && |value| < TWO32
      modifies `restarts, `counter, `starts
      ensures Begun(Item(shared, key, value))
      ensures starts == if old(counter) == interval then old(starts) + [|items|] else old(starts)
    {
      hide Bytes, ItemBytes, RestartAt, Tight, SharesMost, SizeBefore;
      shared := 0;
      if counter < interval {
        shared := SharedPrefix(key);
        TightPush(items, Item(shared, key, value), starts, interval, false);
        RestartedPush(items, Item(shared, key, value), starts, restarts, false);
      } else {
        TightPush(items, Item(shared, key, value), starts, interval, true);
        RestartedPush(items, Item(shared, key, value), starts, restarts, true);
        restarts := restarts + [|buffer|];
        starts := starts + [|items|];
        counter := 0;
      }
    }

    // block_builder.cc:90-105
    method WriteEntry(shared: nat, key: Key, value: seq<Byte>)
      requires Begun(Item(shared, key, value))
      modifies this
      ensures Valid() && items == old(items) + [Item(shared, key, value)] && starts == old(starts) && items != []
    {
      hide Bytes, ItemBytes, Restarted;
      ghost var it := Item(shared, key, value);
      ChainedPush(items, it);
      BytesPush(items, it);
      buffer := AppendEntry(buffer, shared, key, value);
      assert lastKey[..shared] + key[shared..] == key;
      lastKey := lastKey[..shared] + key[shared..];
      counter := counter + 1;
      items := items + [it];
    }

    // block_builder.cc:72
    method Add(key: Key, value: seq<Byte>)
      requires Valid() && |key| < TWO32 && |value| < TWO32
      modifies this
      ensures Valid() && |items| == |old(items)| + 1 && items == old(items) + [items[|old(items)|]]
      ensures items[|old(items)|].key == key && items[|old(items)|].value == value
      ensures starts == if old(counter) == interval then old(starts) + [|old(items)|] else old(starts)
      ensures |buffer| + 4 * |restarts| <= old(|buffer| + 4 * |restarts|) + 19 + |key| + |value|
      ensures Grown(old(items), old(|buffer| + 4 * |restarts|), items, starts, interval)
    {
      Sizes();
      hide Valid, Begun;
      hide RestartAt, SizeBefore, Tight, ItemBytes, Bytes;
      var shared := BeginEntry(key, value);
      WriteEntry(shared, key, value);
      Sizes();
      ItemWeight(old(items), Item(shared, key, value));
      SizeIs(old(items), Item(shared, key, value), old(starts), old(restarts), old(counter) == interval);
    }

    lemma Sizes()
      requires Valid()
      ensures AllSmall(items) && buffer == Bytes(items) && |restarts| == |starts|
      ensures Restarted(items, starts, restarts) && Tight(items, starts, interval) && (counter == interval ==> items != [])
      ensures forall i :: 0 <= i < |items| ==> Small(items[i])
    {
    }

    // block_builder.cc:62
    method Finish() returns (data: seq<Byte>)
      requires Valid() && |buffer| + 4 * |restarts| + 4 < TWO32
      modifies `buffer
      ensures IsBlock(data, items, starts, restarts) && |data| == old(|buffer|) + 4 * |restarts| + 4
      ensures Tight(items, starts, interval)
    {
      ghost var data0 := buffer;
      hide Bytes, ItemBytes;
      RestartsFit(items, starts, restarts);
      hide AllSmall, EncodeFixed32, Fixed32s, Restarted, Chained, Tight;
      NoFixed32s(data0);
      for i := 0 to |restarts|
        invariant buffer == data0 + Fixed32s(restarts[..i])
      {
        Fixed32sPush(data0, restarts, i);
        buffer := buffer + EncodeFixed32(restarts[i]);
      }
      assert restarts[..|restarts|] == restarts;
      buffer := buffer + EncodeFixed32(|restarts|);
      data := buffer;
    }
  }

  lemma EmptyRestarted()
    ensures Restarted([], [0], [0]) && Bytes([]) == []
  {
    assert Offset([], 0) == 0 by {
      var none: seq<Item> := [];
      assert none[..0] == [];
    }
  }

  lemma RestartsFit(items: seq<Item>, starts: seq<nat>, restarts: seq<nat>)
    requires AllSmall(items) && Restarted(items, starts, restarts) && |Bytes(items)| < TWO32
    ensures forall j :: 0 <= j < |restarts| ==> restarts[j] < TWO32
  {
    forall j | 0 <= j < |restarts|
      ensures restarts[j] < TWO32
    {
      assert RestartAt(items, starts, restarts, j);
      OffsetsGrow(items, starts[j], |items|);
      assert items[..|items|] == items;
    }
  }

  method AppendEntry(buffer: seq<Byte>, shared: nat, key: Key, value: seq<Byte>) returns (r: seq<Byte>)
    requires Small(Item(shared, key, value))
    ensures r == buffer + ItemBytes(Item(shared, key, value))
  {
    r := PutVarint32(buffer, shared);
    r := PutVarint32(r, |key| - shared);
    r := PutVarint32(r, |value|);
    r := r + key[shared..];
    r := r + value;
  }
}
