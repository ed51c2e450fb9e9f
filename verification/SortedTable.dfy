/**
 Building a table file (table/table_builder.cc) and looking a key up in one
 (table/table.cc): blocks, a separator for each block in an index, and a filter. What a
 lookup reports is the first entry that is not before the key, unless that is an entry for
 another user key.
 */
module SortedTable {
  import opened Keys
  import opened Coding
  import opened Comparators
  import opened Blocks
  import opened BlockIter
  import opened TableIndex
  import opened TableFormat
  import Bloom
  import Filter = FilterBlock

  // Files stay within 63 bits.
  const MAX_FILE := 0x8000_0000_0000_0000

  ghost predicate AllStored(file: Bytes, blocks: seq<DataBlock>) {
    forall i :: 0 <= i < |blocks| ==> Stored(file, blocks[i].handle, blocks[i].data)
  }

  // Blocks follow one another in the file.
  ghost predicate Placed(blocks: seq<DataBlock>) {
    forall i, j :: 0 <= i < j < |blocks| ==> blocks[i].handle.offset < blocks[j].handle.offset
  }

  // The index maps separators to handles.
  ghost predicate IndexItems(items: seq<Item>, separators: seq<Key>, blocks: seq<DataBlock>) {
    && |items| == |separators| <= |blocks|
    && forall i :: 0 <= i < |items| ==> items[i].key == separators[i] && items[i].value == EncodeHandle(blocks[i].handle)
  }

  // What has been built so far.
  datatype Progress = Progress(file: Bytes, blocks: seq<DataBlock>, separators: seq<Key>, pending: bool, handle: Handle,
    lastKey: Key, data: seq<Item>, index: seq<Item>, pairs: seq<Pair>)

  // table_builder.cc:49: the index entry of a block waits for the first key after it.
  ghost predicate Good(p: Progress) {
    && BlocksOk(p.blocks) && AllStored(p.file, p.blocks) && Placed(p.blocks)
    && |p.blocks| == |p.separators| + (if p.pending then 1 else 0)
    && Separated(p.blocks, p.separators) && IndexItems(p.index, p.separators, p.blocks)
    && (p.pending ==> p.handle == p.blocks[|p.blocks| - 1].handle && p.data == [])
    && (!p.pending && p.blocks != [] ==> p.data != [] && Parted(p.blocks, p.separators, p.data[0].key))
    && p.pairs == Entries(p.blocks) + PairsOf(p.data) && SortedPairs(p.pairs)
    && (p.pairs != [] ==> p.lastKey == p.pairs[|p.pairs| - 1].key && |p.lastKey| >= 8)
  }

  lemma NothingBuilt()
    ensures Good(Progress([], [], [], false, Handle(0, 0), [], [], [], []))
  {
  }

  // The last separator divides the last block from a key.
  ghost predicate Parted(blocks: seq<DataBlock>, separators: seq<Key>, next: Key)
    requires BlocksOk(blocks) && |blocks| == |separators| > 0
  {
    var n := |blocks| - 1;
    Divides(LastOf(blocks[n]), separators[n], next)
  }

  lemma LastEntry(blocks: seq<DataBlock>)
    requires BlocksOk(blocks) && blocks != []
    ensures Entries(blocks) != []
    ensures Entries(blocks)[|Entries(blocks)| - 1].key == LastOf(blocks[|blocks| - 1])
  {
    var n := |blocks| - 1;
    EntryAt(blocks, n, |blocks[n].items| - 1);
    StartNext(blocks, n);
    assert blocks[..n + 1] == blocks;
  }

  lemma SortedPush(pairs: seq<Pair>, pair: Pair)
    requires SortedPairs(pairs) && (pairs != [] ==> InternalBefore(pairs[|pairs| - 1].key, pair.key))
    ensures SortedPairs(pairs + [pair])
  {
    hide InternalBefore;
    forall p, q | 0 <= p < q < |pairs| + 1
      ensures InternalBefore((pairs + [pair])[p].key, (pairs + [pair])[q].key)
    {
      if q == |pairs| && p < q - 1 {
        InternalTransitive(pairs[p].key, pairs[q - 1].key, pair.key);
      }
    }
  }

  // The items of a block are sorted because all entries are.
  lemma SortedItems(before: seq<Pair>, items: seq<Item>)
    requires SortedPairs(before + PairsOf(items))
    ensures Ordered(items, InternalBefore)
  {
    hide InternalBefore;
    var all := before + PairsOf(items);
    forall i, j | 0 <= i < j < |items|
      ensures InternalBefore(items[i].key, items[j].key)
    {
      assert InternalBefore(all[|before| + i].key, all[|before| + j].key);
    }
  }

  lemma PushedEntry(p: Progress, it: Item)
    requires p.pairs == Entries(p.blocks) + PairsOf(p.data) && SortedPairs(p.pairs)
    requires p.pairs != [] ==> InternalBefore(p.pairs[|p.pairs| - 1].key, it.key)
    ensures p.pairs + [Pair(it.key, it.value)] == Entries(p.blocks) + PairsOf(p.data + [it])
    ensures SortedPairs(p.pairs + [Pair(it.key, it.value)])
  {
    hide PairsOf, Entries;
    PairsPush(p.data, it);
    SortedPush(p.pairs, Pair(it.key, it.value));
  }

  // The separator that was waited for, and the entry that it was waited for with.
  lemma AddedAfterBlock(p: Progress, separator: Key, x: Item, it: Item)
    requires Good(p) && p.pending && |it.key| >= 8
    requires InternalAtMost(p.lastKey, separator) && Divides(p.lastKey, separator, it.key) && InternalBefore(p.lastKey, it.key)
    requires x.key == separator && x.value == EncodeHandle(p.handle)
    ensures Good(p.(separators := p.separators + [separator], pending := false, lastKey := it.key,
      data := p.data + [it], index := p.index + [x], pairs := p.pairs + [Pair(it.key, it.value)]))
  {
    hide IsBlock, EncodeHandle, InternalBefore, Stored;
    LastEntry(p.blocks);
    PushedEntry(p, it);
    var separators := p.separators + [separator];
    forall i | 0 <= i < |separators|
      ensures SeparatedAt(p.blocks, separators, i)
    {
      if i < |p.separators| {
        assert SeparatedAt(p.blocks, p.separators, i);
      }
    }
  }

  lemma AddedInBlock(p: Progress, it: Item)
    requires Good(p) && !p.pending && |it.key| >= 8
    requires p.pairs != [] ==> InternalBefore(p.lastKey, it.key)
    ensures Good(p.(lastKey := it.key, data := p.data + [it], pairs := p.pairs + [Pair(it.key, it.value)]))
  {
    hide IsBlock, EncodeHandle, InternalBefore, Stored, Entries, PairsOf;
    PushedEntry(p, it);
  }

  lemma BlocksPush(blocks: seq<DataBlock>, b: DataBlock)
    requires BlocksOk(blocks) && BlockOk(b)
    ensures BlocksOk(blocks + [b]) && Entries(blocks + [b]) == Entries(blocks) + PairsOf(b.items)
  {
    hide BlockOk, PairsOf;
    assert (blocks + [b])[..|blocks|] == blocks;
  }

  lemma StoredPush(file: Bytes, blocks: seq<DataBlock>, more: Bytes, b: DataBlock)
    requires AllStored(file, blocks) && file <= more && Stored(more, b.handle, b.data)
    ensures AllStored(more, blocks + [b])
  {
    hide Stored;
    forall i | 0 <= i < |blocks|
      ensures Stored(more, blocks[i].handle, blocks[i].data)
    {
      StoredInMore(file, more, blocks[i].handle, blocks[i].data);
    }
  }

  lemma PlacedPush(file: Bytes, blocks: seq<DataBlock>, b: DataBlock)
    requires AllStored(file, blocks) && Placed(blocks) && b.handle.offset == |file|
    ensures Placed(blocks + [b])
  {
    forall i | 0 <= i < |blocks|
      ensures blocks[i].handle.offset < |file|
    {
      assert Stored(file, blocks[i].handle, blocks[i].data);
    }
  }

  lemma SeparatedPush(blocks: seq<DataBlock>, separators: seq<Key>, b: DataBlock)
    requires BlocksOk(blocks) && BlocksOk(blocks + [b]) && |separators| == |blocks| && Separated(blocks, separators) && b.items != []
    requires blocks != [] ==> Parted(blocks, separators, b.items[0].key)
    ensures Separated(blocks + [b], separators)
  {
    hide BlockOk, Divides, InternalAtMost;
    forall i | 0 <= i < |separators|
      ensures SeparatedAt(blocks + [b], separators, i)
    {
      assert SeparatedAt(blocks, separators, i);
    }
  }

  // A block more.
  lemma Flushed(p: Progress, file: Bytes, b: DataBlock)
    requires Good(p) && p.data != [] && b.items == p.data && IsBlock(b.data, b.items, b.starts, b.restarts) && Fits(b.handle)
    requires p.file <= file && Stored(file, b.handle, b.data) && b.handle.offset == |p.file|
    ensures Good(p.(file := file, blocks := p.blocks + [b], pending := true, handle := b.handle, data := []))
  {
    hide IsBlock, EncodeHandle, InternalBefore, Stored, PairsOf, BlockOk, Entries, BlocksOk, AllStored, IndexItems, SortedPairs, Placed;
    FlushedBlock(Entries(p.blocks), b);
    NoPairs();
    BlocksPush(p.blocks, b);
    StoredPush(p.file, p.blocks, file, b);
    PlacedPush(p.file, p.blocks, b);
    IndexKept(p.index, p.separators, p.blocks, b);
    SeparatedPush(p.blocks, p.separators, b);
    assert p.pairs == p.pairs + [];
  }

  lemma FlushedBlock(before: seq<Pair>, b: DataBlock)
    requires SortedPairs(before + PairsOf(b.items)) && b.items != []
    requires IsBlock(b.data, b.items, b.starts, b.restarts) && Fits(b.handle)
    ensures BlockOk(b)
  {
    hide IsBlock;
    SortedItems(before, b.items);
  }

  lemma IndexKept(index: seq<Item>, separators: seq<Key>, blocks: seq<DataBlock>, b: DataBlock)
    requires IndexItems(index, separators, blocks)
    ensures IndexItems(index, separators, blocks + [b])
  {
  }

  lemma NoPairs()
    ensures PairsOf([]) == []
  {
  }

  lemma StoredInMore(file: Bytes, more: Bytes, h: Handle, contents: Bytes)
    requires file <= more && Stored(file, h, contents)
    ensures Stored(more, h, contents)
  {
    hide Stored;
    assert more == file + more[|file|..];
    StoredKept(file, more[|file|..], h, contents);
  }

  /* ---- filters ---- */

  // The keys of a block are for the filter of its offset.
  ghost predicate Listed(added: set<(nat, Bytes)>, offset: nat, items: seq<Item>) {
    forall j :: 0 <= j < |items| ==> (offset / Filter.BASE, items[j].key) in added
  }

  ghost predicate AllListed(added: set<(nat, Bytes)>, blocks: seq<DataBlock>) {
    forall i :: 0 <= i < |blocks| ==> Listed(added, blocks[i].handle.offset, blocks[i].items)
  }

  lemma ListedPush(added: set<(nat, Bytes)>, offset: nat, items: seq<Item>, it: Item)
    requires Listed(added, offset, items) && (offset / Filter.BASE, it.key) in added
    ensures Listed(added, offset, items + [it])
  {
  }

  lemma ListedKept(added: set<(nat, Bytes)>, more: set<(nat, Bytes)>, blocks: seq<DataBlock>)
    requires AllListed(added, blocks) && added <= more
    ensures AllListed(more, blocks)
  {
    forall i | 0 <= i < |blocks|
      ensures Listed(more, blocks[i].handle.offset, blocks[i].items)
    {
      assert Listed(added, blocks[i].handle.offset, blocks[i].items);
    }
  }

  // table.cc:102: the name of the entry for the filter.
  function FilterKey(name: Bytes): Bytes {
    [0x66, 0x69, 0x6c, 0x74, 0x65, 0x72, 0x2e] + name
  }

  /* ---- a finished table ---- */

  // Where everything is: data blocks with their separators, the filters, the block that
  // says where the filters are, and the index.
  datatype Layout = Layout(blocks: seq<DataBlock>, separators: seq<Key>, meta: DataBlock, index: DataBlock,
    filtered: bool, filterHandle: Handle, filters: Bytes, offsets: seq<nat>)

  ghost predicate StoredBlock(file: Bytes, b: DataBlock) {
    Stored(file, b.handle, b.data) && IsBlock(b.data, b.items, b.starts, b.restarts) && Fits(b.handle)
  }

  ghost predicate FiltersOk(file: Bytes, l: Layout, name: Bytes, policy: Bloom.BloomFilterPolicy) {
    && Stored(file, l.filterHandle, Filter.Contents(l.filters, l.offsets)) && Fits(l.filterHandle)
    && |l.meta.items| == 1 && l.meta.items[0].key == FilterKey(name) && l.meta.items[0].value == EncodeHandle(l.filterHandle)
    && |l.filters| < TWO32 && Filter.Cut(l.offsets, |l.filters|) && policy.Valid()
    && forall i :: 0 <= i < |l.blocks| ==> Admitted(policy, l.filters, l.offsets, l.blocks[i])
  }

  ghost predicate IsTable(file: Bytes, l: Layout, name: Bytes, policy: Option<Bloom.BloomFilterPolicy>) {
    && BlocksOk(l.blocks) && AllStored(file, l.blocks) && Placed(l.blocks)
    && |l.separators| == |l.blocks| && Separated(l.blocks, l.separators)
    && StoredBlock(file, l.index) && IndexItems(l.index.items, l.separators, l.blocks)
    && StoredBlock(file, l.meta)
    && (if l.filtered then policy.Some? && FiltersOk(file, l, name, policy.value) else l.meta.items == [])
    && |file| >= FOOTER && file[|file| - FOOTER..] == EncodeFooter(Footer(l.meta.handle, l.index.handle))
  }

  /* ---- where blocks end ---- */

  // The items of a block, none of them added to a block that was large enough already.
  ghost predicate Wanted(items: seq<Item>, starts: seq<nat>, interval: nat, blockSize: nat) {
    && items != [] && starts != [] && AllSmall(items) && Tight(items, starts, interval)
    && (|items| > 1 ==> SizeBefore(items, starts) + 4 < blockSize)
  }

  ghost predicate AllWanted(blocks: seq<DataBlock>, interval: nat, blockSize: nat) {
    forall i :: 0 <= i < |blocks| ==> Wanted(blocks[i].items, blocks[i].starts, interval, blockSize)
  }

  // All blocks but perhaps the last are large enough, and each was ended as soon as it was.
  ghost predicate WellCut(blocks: seq<DataBlock>, interval: nat, blockSize: nat) {
    && AllWanted(blocks, interval, blockSize)
    && forall i :: 0 <= i < |blocks| - 1 ==> |blocks[i].data| >= blockSize
  }

  // The blocks so far, and the items and the size of the block in the making.
  ghost predicate CutSoFar(blocks: seq<DataBlock>, items: seq<Item>, starts: seq<nat>, size: nat, interval: nat, blockSize: nat) {
    && AllWanted(blocks, interval, blockSize) && (forall i :: 0 <= i < |blocks| ==> |blocks[i].data| >= blockSize)
    && (items != [] ==> Wanted(items, starts, interval, blockSize) && size + 4 < blockSize)
  }

  // One block more, or none if there is nothing to write.
  ghost predicate Ended(before: seq<DataBlock>, items: seq<Item>, starts: seq<nat>, size: nat, blocks: seq<DataBlock>) {
    if items == [] then blocks == before
    else
      && |blocks| == |before| + 1 && blocks[..|before|] == before
      && var b := blocks[|before|]; b.items == items && b.starts == starts && |b.data| == size + 4
  }

  lemma WantedNext(blocks: seq<DataBlock>, before: seq<Item>, starts0: seq<nat>, size: nat, items: seq<Item>, starts: seq<nat>,
      interval: nat, blockSize: nat)
    requires CutSoFar(blocks, before, starts0, size, interval, blockSize) && Grown(before, size, items, starts, interval)
    ensures forall s, n :: CutSoFar(blocks, [], s, n, interval, blockSize)
    ensures Wanted(items, starts, interval, blockSize)
  {
    hide Tight, AllSmall, SizeBefore;
  }

  lemma NothingOpen(blocks: seq<DataBlock>, starts: seq<nat>, size: nat, starts': seq<nat>, size': nat, interval: nat, blockSize: nat)
    requires CutSoFar(blocks, [], starts, size, interval, blockSize)
    ensures CutSoFar(blocks, [], starts', size', interval, blockSize)
  {
  }

  lemma StillOpen(blocks: seq<DataBlock>, items: seq<Item>, starts: seq<nat>, size: nat, interval: nat, blockSize: nat)
    requires CutSoFar(blocks, [], starts, size, interval, blockSize) && Wanted(items, starts, interval, blockSize) && size + 4 < blockSize
    ensures CutSoFar(blocks, items, starts, size, interval, blockSize)
  {
    hide Wanted;
  }

  lemma EndsFull(before: seq<DataBlock>, items: seq<Item>, starts: seq<nat>, size: nat, blocks: seq<DataBlock>, interval: nat, blockSize: nat)
    requires CutSoFar(before, [], starts, size, interval, blockSize) && Wanted(items, starts, interval, blockSize) && size + 4 >= blockSize
    requires Ended(before, items, starts, size, blocks)
    ensures CutSoFar(blocks, [], starts, size, interval, blockSize)
  {
    hide Wanted;
    forall i | 0 <= i < |before|
      ensures blocks[i] == before[i]
    {
      assert blocks[..|before|][i] == before[i];
    }
  }

  lemma EndsLast(before: seq<DataBlock>, items: seq<Item>, starts: seq<nat>, size: nat, blocks: seq<DataBlock>, interval: nat, blockSize: nat)
    requires CutSoFar(before, items, starts, size, interval, blockSize) && Ended(before, items, starts, size, blocks)
    ensures WellCut(blocks, interval, blockSize)
  {
    hide Wanted;
    forall i | 0 <= i < |before|
      ensures blocks[i] == before[i]
    {
      assert items != [] ==> blocks[..|before|][i] == before[i];
    }
  }

  /* ---- the builder ---- */

  class TableBuilder {
    const interval: nat
    const blockSize: nat
    const filterName: Bytes
    const dataBlock: BlockBuilder
    const indexBlock: BlockBuilder
    const filterBlock: Filter.FilterBlockBuilder?
    var file: Bytes
    var lastKey: Key
    var numEntries: nat
    var closed: bool
    var pendingIndexEntry: bool
    var pendingHandle: Handle
    ghost var blocks: seq<DataBlock>
    ghost var separators: seq<Key>
    ghost var pairs: seq<Pair>

    ghost function Repr(): set<object> {
      {this, dataBlock, indexBlock} + (if filterBlock == null then {} else {filterBlock})
    }

    ghost function Now(): Progress
      reads this, dataBlock, indexBlock
    {
      Progress(file, blocks, separators, pendingIndexEntry, pendingHandle, lastKey, dataBlock.items, indexBlock.items, pairs)
    }

    ghost predicate Valid()
      reads Repr()
    {
      && interval >= 1 && |filterName| < 0x1_0000
      && dataBlock != indexBlock && dataBlock.interval == interval && dataBlock.Valid() && indexBlock.Valid()
      && Good(Now()) && numEntries == |pairs|
      && FilterValid()
    }

    ghost predicate FilterValid()
      reads Repr()
    {
      filterBlock != null ==>
        && filterBlock.Valid() && |filterBlock.filterOffsets| == |file| / Filter.BASE
        && AllListed(filterBlock.added, blocks) && Listed(filterBlock.added, |file|, dataBlock.items)
    }

    // There is room for an entry in a block of 32 bits.
    ghost predicate Room(block: BlockBuilder, size: nat)
      reads block
    {
      |block.buffer| + 4 * |block.restarts| + 23 + size < TWO32
    }

    ghost function DataSize(): nat
      reads this, dataBlock
    {
      |dataBlock.buffer| + 4 * |dataBlock.restarts|
    }

    ghost predicate CutNow()
      reads this, dataBlock
    {
      CutSoFar(blocks, dataBlock.items, dataBlock.starts, DataSize(), interval, blockSize)
    }

    // With the key that the next separator is made from.
    ghost function IndexSize(): nat
      reads this, indexBlock
    {
      |indexBlock.buffer| + 4 * |indexBlock.restarts| + |lastKey|
    }

    ghost function FilterSize(): nat
      reads if filterBlock == null then {} else {filterBlock}
    {
      if filterBlock == null then 0 else filterBlock.Charge()
    }

    function PerKey(): nat {
      if filterBlock == null then 0 else filterBlock.policy.PerKey()
    }

    constructor (interval: nat, blockSize: nat, filterName: Bytes, policy: Option<Bloom.BloomFilterPolicy>)
      requires interval >= 1 && |filterName| < 0x1_0000 && (policy.Some? ==> policy.value.Valid())
      ensures Valid() && !closed && pairs == [] && file == [] && fresh(Repr())
      ensures filterBlock == null <==> policy.None?
      ensures policy.Some? ==> filterBlock.policy == policy.value
      ensures DataSize() == IndexSize() == 4 && FilterSize() == 0 && this.filterName == filterName
      ensures this.interval == interval && this.blockSize == blockSize && CutNow()
    {
      hide BlockBuilder.Valid, Good, IsBlock;
      this.interval, this.blockSize, this.filterName := interval, blockSize, filterName;
      var data := new BlockBuilder(interval);
      var index := new BlockBuilder(1);
      data.Fresh();
      index.Fresh();
      dataBlock, indexBlock := data, index;
      var filter: Filter.FilterBlockBuilder? := null;
      if policy.Some? {
        var f := new Filter.FilterBlockBuilder(policy.value);
        f.StartBlock(0);
        filter := f;
      }
      filterBlock := filter;
      file, lastKey, numEntries, closed := [], [], 0, false;
      pendingIndexEntry, pendingHandle := false, Handle(0, 0);
      blocks, separators, pairs := [], [], [];
      new;
      NothingBuilt();
    }

    // table_builder.cc:102: the index entry that waited for the first key after its block.
    method AddIndexEntry(next: Key)
      requires Valid() && pendingIndexEntry && |next| >= 8 && |lastKey| >= 8 && InternalBefore(lastKey, next)
      requires Room(indexBlock, |lastKey| + MAX_HANDLE)
      modifies `lastKey, `pendingIndexEntry, `separators, indexBlock
      ensures indexBlock.Valid() && indexBlock.items != []
      ensures var x := indexBlock.items[|indexBlock.items| - 1];
        x.key == lastKey && x.value == EncodeHandle(pendingHandle)
        && Now() == old(Now()).(separators := old(separators) + [lastKey], pending := false, lastKey := lastKey, index := old(indexBlock.items) + [x])
      ensures InternalAtMost(old(lastKey), lastKey) && Divides(old(lastKey), lastKey, next) && ShortenedInternal(old(lastKey), next, lastKey)
      ensures IndexSize() <= old(IndexSize()) + 39 + |lastKey| && |lastKey| <= old(|lastKey|)
    {
      hide Good, EncodeHandle, Grown, BlockBuilder.Valid, FilterValid, InternalBefore, InternalAtMost, ShortenedInternal;
      PendingLast();
      lastKey := FindInternalSeparator(lastKey, next);
      indexBlock.Add(lastKey, EncodeHandle(pendingHandle));
      pendingIndexEntry := false;
      separators := separators + [lastKey];
    }

    // table_builder.cc:94
    method Add(key: Key, value: seq<Byte>)
      requires Valid() && !closed && |key| >= 8 && (numEntries > 0 ==> InternalBefore(lastKey, key))
      requires Room(dataBlock, |key| + |value|) && Room(indexBlock, |lastKey| + MAX_HANDLE) && |file| < MAX_FILE
      modifies Repr()
      ensures Valid() && !closed && pairs == old(pairs) + [Pair(key, value)] && lastKey == key
      ensures DataSize() <= old(DataSize()) + 19 + |key| + |value| || DataSize() == 4
      ensures IndexSize() <= old(IndexSize()) + 39 + |key| && FilterSize() <= old(FilterSize()) + PerKey()
      ensures |file| <= old(|file|) + TWO32 + TRAILER
      ensures old(CutNow()) ==> CutNow()
    {
      hide Valid, DataSize, IndexSize, FilterSize, CutSoFar, Wanted, Ended, Grown;
      ghost var cut, before, items, starts, size := CutNow(), blocks, dataBlock.items, dataBlock.starts, DataSize();
      AddEntry(key, value);
      if cut {
        WantedNext(before, items, starts, size, dataBlock.items, dataBlock.starts, interval, blockSize);
      }
      EndIfFull();
    }

    // With an item more, in a block that was not large enough before.
    ghost predicate JustAdded()
      reads this, dataBlock
    {
      CutSoFar(blocks, [], dataBlock.starts, DataSize(), interval, blockSize) && Wanted(dataBlock.items, dataBlock.starts, interval, blockSize)
    }

    // table_builder.cc:119
    method EndIfFull()
      requires Valid() && !closed && |file| < MAX_FILE && |dataBlock.buffer| + 4 * |dataBlock.restarts| + 4 < TWO32
      modifies Repr()
      ensures Valid() && !closed && pairs == old(pairs) && lastKey == old(lastKey)
      ensures |file| <= old(|file|) + TWO32 + TRAILER
      ensures (DataSize() == old(DataSize()) || DataSize() == 4) && IndexSize() == old(IndexSize()) && FilterSize() <= old(FilterSize())
      ensures old(JustAdded()) ==> CutNow()
    {
      hide Good, FilterValid, BlockBuilder.Valid, CutSoFar, Wanted, Ended;
      ghost var just, before, items, starts, size := JustAdded(), blocks, dataBlock.items, dataBlock.starts, DataSize();
      var estimated := dataBlock.CurrentSizeEstimate();
      if estimated >= blockSize {
        Flush();
        if just {
          EndsFull(before, items, starts, size, blocks, interval, blockSize);
          NothingOpen(blocks, starts, size, dataBlock.starts, DataSize(), interval, blockSize);
        }
      } else if just {
        StillOpen(before, items, starts, size, interval, blockSize);
      }
    }

    // table_builder.cc:110
    method AddFilterKey(key: Key)
      requires FilterValid()
      modifies if filterBlock == null then {} else {filterBlock}
      ensures FilterValid() && (filterBlock != null ==> (|file| / Filter.BASE, key) in filterBlock.added)
      ensures FilterSize() == old(FilterSize()) + PerKey()
    {
      if filterBlock != null {
        filterBlock.AddKey(key);
        ListedKept(old(filterBlock.added), filterBlock.added, blocks);
      }
    }

    // table_builder.cc:98-117
    method AddEntry(key: Key, value: seq<Byte>)
      requires Valid() && !closed && |key| >= 8 && (numEntries > 0 ==> InternalBefore(lastKey, key))
      requires Room(dataBlock, |key| + |value|) && Room(indexBlock, |lastKey| + MAX_HANDLE)
      modifies Repr()
      ensures Valid() && !closed && pairs == old(pairs) + [Pair(key, value)] && file == old(file) && lastKey == key
      ensures DataSize() <= old(DataSize()) + 19 + |key| + |value|
      ensures IndexSize() <= old(IndexSize()) + 39 + |key| && FilterSize() == old(FilterSize()) + PerKey()
      ensures |dataBlock.buffer| + 4 * |dataBlock.restarts| + 4 < TWO32
      ensures blocks == old(blocks) && Grown(old(dataBlock.items), old(DataSize()), dataBlock.items, dataBlock.starts, interval)
    {
      hide Good, BlockBuilder.Valid, Grown, ShortenedInternal, Filter.FilterBlockBuilder.Valid, InternalBefore, Divides, EncodeHandle, FilterSize, PerKey, AllListed, Listed;
      ghost var p := Now();
      PendingLast();
      if pendingIndexEntry {
        AddIndexEntry(key);
      }
      ghost var x := if p.pending then Some(indexBlock.items[|indexBlock.items| - 1]) else None;
      hide Room;
      PushEntry(key, value, p, x);
    }

    // The builder when the separator for a key is in the index, if one was waited for.
    ghost predicate Separating(p: Progress, x: Option<Item>, key: Key)
      reads this, dataBlock, indexBlock
    {
      && Good(p) && !p.pending == x.None? && dataBlock != indexBlock && indexBlock.Valid()
      && if x.None? then Now() == p
         else
           && p.pairs != [] && x.value.key == lastKey && x.value.value == EncodeHandle(p.handle)
           && InternalAtMost(p.lastKey, lastKey) && Divides(p.lastKey, lastKey, key)
           && Now() == p.(separators := p.separators + [lastKey], pending := false, lastKey := lastKey, index := p.index + [x.value])
    }

    // table_builder.cc:110
    method PushEntry(key: Key, value: seq<Byte>, ghost p: Progress, ghost x: Option<Item>)
      requires Separating(p, x, key) && |key| >= 8 && (p.pairs != [] ==> InternalBefore(p.lastKey, key))
      requires interval >= 1 && |filterName| < 0x1_0000 && dataBlock.interval == interval && dataBlock.Valid()
      requires numEntries == |pairs| && FilterValid() && !closed && Room(dataBlock, |key| + |value|)
      modifies `lastKey, `numEntries, `pairs, dataBlock, if filterBlock == null then {} else {filterBlock}
      ensures Valid() && pairs == p.pairs + [Pair(key, value)] && lastKey == key
      ensures DataSize() <= old(DataSize()) + 19 + |key| + |value| && FilterSize() == old(FilterSize()) + PerKey()
      ensures |dataBlock.buffer| + 4 * |dataBlock.restarts| + 4 < TWO32
      ensures Grown(old(dataBlock.items), old(DataSize()), dataBlock.items, dataBlock.starts, interval)
    {
      hide Good, BlockBuilder.Valid, Grown, Filter.FilterBlockBuilder.Valid, InternalBefore, InternalAtMost, Divides, EncodeHandle,
        FilterSize, PerKey, AllListed, Listed;
      ghost var separator := lastKey;
      AddFilterKey(key);
      lastKey := key;
      numEntries := numEntries + 1;
      dataBlock.Add(key, value);
      if filterBlock != null {
        ListedPush(filterBlock.added, |file|, p.data, dataBlock.items[|dataBlock.items| - 1]);
      }
      pairs := pairs + [Pair(key, value)];
      ghost var it := dataBlock.items[|dataBlock.items| - 1];
      if x.Some? {
        AddedAfterBlock(p, separator, x.value, it);
      } else {
        AddedInBlock(p, it);
      }
    }

    lemma PendingLast()
      requires Valid()
      ensures pairs != [] ==> |lastKey| >= 8
      ensures pendingIndexEntry ==> pairs != [] && |EncodeHandle(pendingHandle)| <= MAX_HANDLE
    {
      SmallHandle(pendingHandle);
      if pendingIndexEntry {
        LastEntry(blocks);
      }
    }

    // table_builder.cc:141: a block to the end of the file.
    method WriteBlock(block: BlockBuilder) returns (handle: Handle, ghost data: Bytes)
      requires block.Valid() && |block.buffer| + 4 * |block.restarts| + 4 < TWO32
      modifies `file, block
      ensures block.Valid() && block.items == [] && |block.buffer| == 0 && |block.restarts| == 1
      ensures old(file) <= file && handle == Handle(|old(file)|, |data|) && |data| < TWO32 && |file| == |old(file)| + |data| + TRAILER
      ensures Stored(file, handle, data) && IsBlock(data, old(block.items), old(block.starts), old(block.restarts))
      ensures |data| == old(|block.buffer|) + 4 * old(|block.restarts|) + 4
    {
      hide IsBlock, Stored, Trailer;
      var raw := block.Finish();
      data := raw;
      BlockSize(raw, block.items, block.starts, block.restarts);
      Appended(file, raw);
      file, handle := WriteRawBlock(file, raw, NO_COMPRESSION);
      block.Reset();
      block.Fresh();
    }

    // table_builder.cc:125
    method Flush()
      requires Valid() && !closed && |file| < MAX_FILE && |dataBlock.buffer| + 4 * |dataBlock.restarts| + 4 < TWO32
      modifies Repr()
      ensures Valid() && !closed && pairs == old(pairs) && dataBlock.items == [] && lastKey == old(lastKey)
      ensures |file| <= old(|file|) + TWO32 + TRAILER
      ensures (DataSize() == old(DataSize()) || DataSize() == 4) && FilterSize() <= old(FilterSize())
      ensures Ended(old(blocks), old(dataBlock.items), old(dataBlock.starts), old(DataSize()), blocks)
      ensures indexBlock.items == old(indexBlock.items) && indexBlock.buffer == old(indexBlock.buffer) && indexBlock.restarts == old(indexBlock.restarts)
    {
      hide Good, IsBlock, Stored, BlockBuilder.Valid, Filter.FilterBlockBuilder.Valid;
      ghost var p := Now();
      ghost var starts, restarts := dataBlock.starts, dataBlock.restarts;
      var empty := dataBlock.Empty();
      if empty {
        return;
      }
      ghost var data;
      pendingHandle, data := WriteBlock(dataBlock);
      pendingIndexEntry := true;
      ghost var b := DataBlock(pendingHandle, data, p.data, starts, restarts);
      blocks := blocks + [b];
      Flushed(p, file, b);
      if filterBlock != null {
        Longer(|p.file|, |file|);
        filterBlock.StartBlock(|file|);
      }
    }

    ghost function Policy(): Option<Bloom.BloomFilterPolicy>
      reads this
    {
      if filterBlock == null then None else Some(filterBlock.policy)
    }

    // table_builder.cc:207
    method WriteFilters() returns (handle: Handle, ghost filters: Bytes, ghost offsets: seq<nat>)
      requires FilterValid() && dataBlock.items == []
      modifies `file, if filterBlock == null then {} else {filterBlock}
      ensures old(file) <= file && (filterBlock == null ==> file == old(file) && filters == [])
      ensures filterBlock != null ==>
        && filterBlock.policy.Valid() && Filter.Cut(offsets, |filters|)
        && Stored(file, handle, Filter.Contents(filters, offsets)) && handle == Handle(|old(file)|, |Filter.Contents(filters, offsets)|)
        && |filters| <= old(FilterSize()) && |offsets| <= |old(file)| / Filter.BASE + 1 && |file| == |old(file)| + handle.size + TRAILER
        && forall i :: 0 <= i < |blocks| ==> Admitted(filterBlock.policy, filters, offsets, blocks[i])
    {
      hide Filter.AllMade, Filter.Grouped, Filter.FilterBlockBuilder.Valid, Stored, Trailer;
      handle, filters, offsets := Handle(0, 0), [], [];
      if filterBlock != null {
        var contents;
        contents, filters := filterBlock.Finish();
        offsets := filterBlock.filterOffsets;
        forall i | 0 <= i < |blocks|
          ensures Admitted(filterBlock.policy, filters, offsets, blocks[i])
        {
          assert Listed(filterBlock.added, blocks[i].handle.offset, blocks[i].items);
          forall j | 0 <= j < |blocks[i].items|
            ensures InFilter(filterBlock.policy, filters, offsets, blocks[i].handle.offset / Filter.BASE, blocks[i].items[j].key)
          {
            assert filterBlock.Kept((blocks[i].handle.offset / Filter.BASE, blocks[i].items[j].key), filters);
          }
        }
        Appended(file, contents);
        file, handle := WriteRawBlock(file, contents, NO_COMPRESSION);
      }
    }

    // table_builder.cc:213
    method WriteMeta(filterHandle: Handle) returns (handle: Handle, ghost meta: DataBlock)
      requires interval >= 1 && |filterName| < 0x1_0000
      modifies `file
      ensures old(file) <= file && handle == Handle(|old(file)|, |meta.data|) && |meta.data| < TWO32 && |file| == |old(file)| + |meta.data| + TRAILER
      ensures meta.handle == handle && Stored(file, handle, meta.data) && IsBlock(meta.data, meta.items, meta.starts, meta.restarts)
      ensures if filterBlock == null then meta.items == []
        else |meta.items| == 1 && meta.items[0].key == FilterKey(filterName) && meta.items[0].value == EncodeHandle(filterHandle)
    {
      var block := new BlockBuilder(interval);
      block.Fresh();
      if filterBlock != null {
        SmallHandle(filterHandle);
        block.Add(FilterKey(filterName), EncodeHandle(filterHandle));
      }
      ghost var items, starts, restarts := block.items, block.starts, block.restarts;
      ghost var data;
      handle, data := WriteBlock(block);
      meta := DataBlock(handle, data, items, starts, restarts);
    }

    // table_builder.cc:229: the last separator is after every key, if it can be short.
    method WriteIndex() returns (handle: Handle, ghost index: DataBlock)
      requires Good(Now()) && dataBlock.items == [] && dataBlock != indexBlock && indexBlock.Valid()
      requires Room(indexBlock, |lastKey| + MAX_HANDLE)
      modifies `file, `lastKey, `pendingIndexEntry, `separators, indexBlock
      ensures old(file) <= file && handle == Handle(|old(file)|, |index.data|) && |index.data| < TWO32
      ensures index.handle == handle && Stored(file, handle, index.data) && IsBlock(index.data, index.items, index.starts, index.restarts)
      ensures old(pendingIndexEntry) ==> separators == old(separators) + [lastKey] && SucceededInternal(old(lastKey), lastKey)
      ensures |separators| == |blocks| && BlocksOk(blocks) && Separated(blocks, separators) && IndexItems(index.items, separators, blocks)
    {
      hide Good, IsBlock, Stored, BlockBuilder.Valid, BlocksOk, Separated, IndexItems, SucceededInternal, Grown;
      ghost var p := Now();
      AtEnd(p);
      if pendingIndexEntry {
        SmallHandle(pendingHandle);
        lastKey := FindInternalSuccessor(lastKey);
        indexBlock.Add(lastKey, EncodeHandle(pendingHandle));
        separators := separators + [lastKey];
        pendingIndexEntry := false;
        LastSeparator(p, lastKey, indexBlock.items[|indexBlock.items| - 1]);
      }
      ghost var items, starts, restarts := indexBlock.items, indexBlock.starts, indexBlock.restarts;
      ghost var data;
      handle, data := WriteBlock(indexBlock);
      index := DataBlock(handle, data, items, starts, restarts);
    }

    // table_builder.cc:198
    method Finish() returns (ghost layout: Layout)
      requires Valid() && !closed && |file| < MAX_FILE && |dataBlock.buffer| + 4 * |dataBlock.restarts| + 4 < TWO32
      requires Room(indexBlock, |lastKey| + MAX_HANDLE)
      modifies Repr()
      ensures closed && Entries(layout.blocks) == old(pairs) && |layout.filters| <= old(FilterSize())
      ensures layout.filtered <==> filterBlock != null
      ensures filterBlock == null || |layout.filters| < TWO32 ==> IsTable(file, layout, filterName, Policy())
      ensures old(CutNow()) ==> WellCut(layout.blocks, interval, blockSize)
    {
      hide Good, IsBlock, Stored, BlockBuilder.Valid, Filter.FilterBlockBuilder.Valid, Admitted, Filter.Cut,
        BlocksOk, AllStored, Placed, Separated, IndexItems, StoredBlock, FiltersOk, EncodeFooter, Filter.Contents, CutSoFar, WellCut, Ended, SucceededInternal;
      ghost var cut, before, items, starts, size := CutNow(), blocks, dataBlock.items, dataBlock.starts, DataSize();
      Flush();
      if cut {
        EndsLast(before, items, starts, size, blocks, interval, blockSize);
      }
      closed := true;
      ghost var p := Now();
      AtEnd(p);
      var filterHandle, filters, offsets := WriteFilters();
      ghost var file1 := file;
      var metaindexHandle, meta := WriteMeta(filterHandle);
      ghost var file2 := file;
      LongerFile(p, file);
      var indexHandle, index := WriteIndex();
      ghost var file3 := file;
      file := file + EncodeFooter(Footer(metaindexHandle, indexHandle));
      layout := Layout(blocks, separators, meta, index, filterBlock != null, filterHandle, filters, offsets);
      if filterBlock == null || |filters| < TWO32 {
        FinishedFits(|p.file|, |file1|, |file2|, filters, offsets, filterBlock != null);
        if filterBlock != null {
          FinishedFilters(file1, file3, layout, filterName, filterBlock.policy);
        }
        FinishedTable(p, layout, file2, file3, filterName, Policy());
      }
    }
  }

  // With nothing in the data block, all entries are in blocks.
  lemma AtEnd(p: Progress)
    requires Good(p) && p.data == []
    ensures p.pairs == Entries(p.blocks) && BlocksOk(p.blocks) && AllStored(p.file, p.blocks) && Placed(p.blocks)
    ensures p.pending <==> p.blocks != []
    ensures p.pending ==> |p.lastKey| >= 8
    ensures !p.pending ==> |p.separators| == |p.blocks| && Separated(p.blocks, p.separators) && IndexItems(p.index, p.separators, p.blocks)
  {
    NoPairs();
    if p.pending {
      LastEntry(p.blocks);
    }
  }

  lemma LastSeparator(p: Progress, separator: Key, x: Item)
    requires Good(p) && p.pending && InternalAtMost(p.lastKey, separator)
    requires x.key == separator && x.value == EncodeHandle(p.handle)
    ensures BlocksOk(p.blocks) && |p.separators| + 1 == |p.blocks|
    ensures Separated(p.blocks, p.separators + [separator]) && IndexItems(p.index + [x], p.separators + [separator], p.blocks)
  {
    hide IsBlock, EncodeHandle, InternalBefore, Stored;
    NoPairs();
    LastEntry(p.blocks);
    var separators := p.separators + [separator];
    forall i | 0 <= i < |separators|
      ensures SeparatedAt(p.blocks, separators, i)
    {
      if i < |p.separators| {
        assert SeparatedAt(p.blocks, p.separators, i);
      }
    }
  }

  lemma FinishedFits(size: nat, size1: nat, size2: nat, filters: Bytes, offsets: seq<nat>, filtered: bool)
    requires size <= MAX_FILE + TWO32 + TRAILER && size2 < size1 + TWO32 + TRAILER
    requires if filtered then |filters| < TWO32 && |offsets| <= size / Filter.BASE + 1 && size1 == size + |Filter.Contents(filters, offsets)| + TRAILER
      else size1 == size
    ensures size1 < TWO64 && size2 < TWO64
    ensures filtered ==> size < TWO64 && |Filter.Contents(filters, offsets)| < TWO64
  {
  }

  lemma FinishedFilters(file: Bytes, more: Bytes, l: Layout, name: Bytes, policy: Bloom.BloomFilterPolicy)
    requires file <= more && Stored(file, l.filterHandle, Filter.Contents(l.filters, l.offsets)) && Fits(l.filterHandle)
    requires |l.meta.items| == 1 && l.meta.items[0].key == FilterKey(name) && l.meta.items[0].value == EncodeHandle(l.filterHandle)
    requires |l.filters| < TWO32 && Filter.Cut(l.offsets, |l.filters|) && policy.Valid()
    requires forall i :: 0 <= i < |l.blocks| ==> Admitted(policy, l.filters, l.offsets, l.blocks[i])
    ensures FiltersOk(more + EncodeFooter(Footer(l.meta.handle, l.index.handle)), l, name, policy)
  {
    hide Stored, Filter.Contents, Filter.Cut, Admitted, EncodeHandle, FilterKey, EncodeFooter;
    StoredInMore(file, more + EncodeFooter(Footer(l.meta.handle, l.index.handle)), l.filterHandle, Filter.Contents(l.filters, l.offsets));
  }

  lemma AllStoredInMore(file: Bytes, more: Bytes, blocks: seq<DataBlock>)
    requires file <= more && AllStored(file, blocks)
    ensures AllStored(more, blocks)
  {
    hide Stored;
    forall i | 0 <= i < |blocks|
      ensures Stored(more, blocks[i].handle, blocks[i].data)
    {
      StoredInMore(file, more, blocks[i].handle, blocks[i].data);
    }
  }

  lemma FinishedTable(p: Progress, l: Layout, file2: Bytes, file3: Bytes, name: Bytes, policy: Option<Bloom.BloomFilterPolicy>)
    requires p.file <= file2 <= file3 && BlocksOk(l.blocks) && AllStored(p.file, l.blocks) && Placed(l.blocks)
    requires |l.separators| == |l.blocks| && Separated(l.blocks, l.separators) && IndexItems(l.index.items, l.separators, l.blocks)
    requires Stored(file2, l.meta.handle, l.meta.data) && IsBlock(l.meta.data, l.meta.items, l.meta.starts, l.meta.restarts) && Fits(l.meta.handle)
    requires Stored(file3, l.index.handle, l.index.data) && IsBlock(l.index.data, l.index.items, l.index.starts, l.index.restarts) && Fits(l.index.handle)
    requires var file := file3 + EncodeFooter(Footer(l.meta.handle, l.index.handle));
      if l.filtered then policy.Some? && FiltersOk(file, l, name, policy.value) else l.meta.items == []
    ensures IsTable(file3 + EncodeFooter(Footer(l.meta.handle, l.index.handle)), l, name, policy)
  {
    hide Stored, AllStored, Placed, IsBlock, BlocksOk, Separated, IndexItems, FiltersOk, EncodeFooter, DecodeFooter;
    var footer := EncodeFooter(Footer(l.meta.handle, l.index.handle));
    FooterRoundTrip(Footer(l.meta.handle, l.index.handle));
    var file := file3 + footer;
    AllStoredInMore(p.file, file, l.blocks);
    StoredInMore(file2, file, l.meta.handle, l.meta.data);
    StoredInMore(file3, file, l.index.handle, l.index.data);
    assert file[|file| - FOOTER..] == footer;
  }

  lemma LongerFile(p: Progress, file: Bytes)
    requires Good(p) && p.file <= file
    ensures Good(p.(file := file))
  {
    hide IsBlock, EncodeHandle, InternalBefore, Stored, BlockOk, Entries, PairsOf;
    forall i | 0 <= i < |p.blocks|
      ensures Stored(file, p.blocks[i].handle, p.blocks[i].data)
    {
      StoredInMore(p.file, file, p.blocks[i].handle, p.blocks[i].data);
    }
  }

  lemma Appended(file: Bytes, contents: Bytes)
    ensures file <= file + contents + Trailer(contents, NO_COMPRESSION)
  {
  }

  lemma BlockSize(data: Bytes, items: seq<Item>, starts: seq<nat>, restarts: seq<nat>)
    requires IsBlock(data, items, starts, restarts)
    ensures |data| < TWO32
  {
  }

  // A block whose keys the filter for its offset admits.
  ghost predicate Admitted(policy: Bloom.BloomFilterPolicy, filters: Bytes, offsets: seq<nat>, b: DataBlock)
    requires policy.Valid() && Filter.Cut(offsets, |filters|)
  {
    forall j :: 0 <= j < |b.items| ==> InFilter(policy, filters, offsets, b.handle.offset / Filter.BASE, b.items[j].key)
  }

  ghost predicate InFilter(policy: Bloom.BloomFilterPolicy, filters: Bytes, offsets: seq<nat>, i: nat, key: Key)
    requires policy.Valid() && Filter.Cut(offsets, |filters|)
  {
    i < |offsets| && Filter.Admits(policy, Filter.Part(filters, offsets, i), key)
  }

  lemma Longer(n: nat, m: nat)
    requires n <= m
    ensures n / Filter.BASE <= m / Filter.BASE
  {
  }
}
