/**
 Looking a key up in a table file (table/table.cc): footer, index, filter and one data
 block. Every table that the builder wrote opens, and what a lookup reports is the first
 entry that is not before the key, unless that is an entry for another user key.
 */
module TableReader {
  import opened Keys
  import opened Coding
  import opened Comparators
  import opened Blocks
  import opened BlockIter
  import opened TableIndex
  import opened TableFormat
  import opened SortedTable
  import Bloom
  import Filter = FilterBlock

  lemma BytewiseTransitive()
    ensures Transitive(Precedes)
  {
    forall a, b, c | Precedes(a, b) && Precedes(b, c)
      ensures Precedes(a, c)
    {
      BeforeTransitive(a, b, c);
    }
  }

  lemma InternalOrderTransitive()
    ensures Transitive(InternalBefore)
  {
    hide InternalBefore;
    forall a, b, c | InternalBefore(a, b) && InternalBefore(b, c)
      ensures InternalBefore(a, c)
    {
      InternalTransitive(a, b, c);
    }
  }

  // Separators are in order, as the entries between them are.
  lemma {:induction false} SeparatorsAscend(blocks: seq<DataBlock>, separators: seq<Key>, i: nat, j: nat)
    requires BlocksOk(blocks) && |separators| == |blocks| && Separated(blocks, separators) && i < j < |blocks|
    ensures InternalBefore(separators[i], separators[j])
    decreases j
  {
    hide IsBlock, InternalBefore;
    var m := j - 1;
    assert SeparatedAt(blocks, separators, m) && SeparatedAt(blocks, separators, j);
    LastIsLast(blocks[j], 0);
    var first, last := blocks[j].items[0].key, LastOf(blocks[j]);
    if first != last {
      InternalTransitive(separators[m], first, last);
    }
    if last != separators[j] {
      InternalTransitive(separators[m], last, separators[j]);
    }
    if i < m {
      SeparatorsAscend(blocks, separators, i, m);
      InternalTransitive(separators[i], separators[m], separators[j]);
    }
  }

  lemma IndexOrdered(blocks: seq<DataBlock>, separators: seq<Key>, index: seq<Item>)
    requires BlocksOk(blocks) && |separators| == |blocks| && Separated(blocks, separators) && IndexItems(index, separators, blocks)
    ensures Ordered(index, InternalBefore)
  {
    hide BlocksOk, Separated, InternalBefore;
    forall i, j | 0 <= i < j < |index|
      ensures InternalBefore(index[i].key, index[j].key)
    {
      SeparatorsAscend(blocks, separators, i, j);
    }
  }

  class Table {
    const file: Bytes
    const indexData: Bytes
    const filter: Filter.FilterBlockReader?
    ghost const layout: Layout
    ghost const name: Bytes
    ghost const built: Option<Bloom.BloomFilterPolicy>

    ghost predicate Valid() {
      && IsTable(file, layout, name, built) && indexData == layout.index.data
      && (filter != null ==>
            && layout.filtered && filter.Valid() && built == Some(filter.policy)
            && filter.Reads(layout.filters, layout.offsets))
    }

    constructor (file: Bytes, indexData: Bytes, filter: Filter.FilterBlockReader?, ghost layout: Layout, ghost name: Bytes,
        ghost built: Option<Bloom.BloomFilterPolicy>)
      ensures this.file == file && this.indexData == indexData && this.filter == filter
      ensures this.layout == layout && this.name == name && this.built == built
    {
      this.file, this.indexData, this.filter := file, indexData, filter;
      this.layout, this.name, this.built := layout, name, built;
    }

    // table.cc:41: the footer and the index block of any file, or what is wrong with it.
    static method ReadIndex(file: Bytes, paranoidChecks: bool) returns (r: Result<(Footer, Bytes)>)
      ensures r == Corruption(TooShort) <==> |file| < FOOTER
      ensures |file| >= FOOTER ==>
        var tail := file[|file| - FOOTER..];
        && (r == Corruption(BadMagic) <==> tail[FOOTER - 8..] != EncodeFixed64(MAGIC))
        && (r == Corruption(BadHandle) <==> tail[FOOTER - 8..] == EncodeFixed64(MAGIC) && DecodeFooter(tail).None?)
        && (DecodeFooter(tail).Some? ==>
              var footer := DecodeFooter(tail).value;
              && (forall contents :: Stored(file, footer.index, contents) ==> r == Ok((footer, contents)))
              && (r.Ok? ==> r.value.0 == footer && Whole(file, footer.index) &&
                            r.value.1 == RawBlock(file, footer.index)[..footer.index.size])
              && (r.Ok? && paranoidChecks ==> Stored(file, footer.index, r.value.1)))
    {
      hide Stored, DecodeHandle, DecodeFixed32, HasMagic, ChecksumHolds, EncodeFixed64;
      if |file| < FOOTER {
        return Corruption(TooShort);
      }
      var tail := file[|file| - FOOTER..];
      MagicIs(tail);
      if !HasMagic(tail) {
        return Corruption(BadMagic);
      }
      var footer := DecodeFooter(tail);
      if footer.None? {
        return Corruption(BadHandle);
      }
      var index := ReadBlock(file, footer.value.index, paranoidChecks);
      r := if index.Ok? then Ok((footer.value, index.value)) else Corruption(index.error);
    }

    // table.cc:38: a file the builder wrote opens.
    static method Open(file: Bytes, name: Bytes, policy: Option<Bloom.BloomFilterPolicy>, paranoidChecks: bool,
        ghost layout: Layout, ghost built: Option<Bloom.BloomFilterPolicy>) returns (table: Table)
      requires IsTable(file, layout, name, built) && (layout.filtered && policy.Some? ==> policy == built)
      requires policy.Some? ==> policy.value.Valid()
      ensures table.Valid() && table.layout == layout && (table.filter != null <==> layout.filtered && policy.Some?)
    {
      hide Stored, BlocksOk, AllStored, Placed, Separated, IndexItems, FiltersOk, EncodeFooter, DecodeFooter, IsBlock;
      FooterRoundTrip(Footer(layout.meta.handle, layout.index.handle));
      var read := ReadIndex(file, paranoidChecks);
      assert Stored(file, layout.index.handle, layout.index.data);
      var footer, index := read.value.0, read.value.1;
      var filter: Filter.FilterBlockReader? := null;
      if policy.Some? {
        filter := ReadMeta(file, name, policy.value, paranoidChecks, footer.metaindex, layout, built);
      }
      table := new Table(file, index, filter, layout, name, built);
    }

    // table.cc:84: the filter, if the table has one under its name.
    static method ReadMeta(file: Bytes, name: Bytes, policy: Bloom.BloomFilterPolicy, paranoidChecks: bool, metaindex: Handle,
        ghost layout: Layout, ghost built: Option<Bloom.BloomFilterPolicy>) returns (filter: Filter.FilterBlockReader?)
      requires policy.Valid() && metaindex == layout.meta.handle && StoredBlock(file, layout.meta)
      requires if layout.filtered then built == Some(policy) && FiltersOk(file, layout, name, policy) else layout.meta.items == []
      ensures filter != null <==> layout.filtered
      ensures filter != null ==> filter.Valid() && filter.policy == policy && filter.Reads(layout.filters, layout.offsets)
    {
      filter := null;
      ghost var m := layout.meta;
      hide Stored, IsBlock, FilterKey, EncodeHandle, Filter.Contents, Admitted, Filter.Cut;
      var contents := ReadBlock(file, metaindex, paranoidChecks);
      assert Stored(file, m.handle, m.data);
      if contents.Corruption? {
        assert false;
      }
      var iter := new Iter(contents.value, Precedes, m.items, m.starts, m.restarts);
      BytewiseTransitive();
      BeforeIrreflexive(FilterKey(name));
      iter.Seek(FilterKey(name));
      var valid := iter.Valid();
      if valid {
        var key := iter.Key();
        if key == FilterKey(name) {
          var value := iter.Value();
          filter := ReadFilter(file, policy, paranoidChecks, value, layout);
        }
      }
    }

    // table.cc:113
    static method ReadFilter(file: Bytes, policy: Bloom.BloomFilterPolicy, paranoidChecks: bool, value: Bytes,
        ghost layout: Layout) returns (filter: Filter.FilterBlockReader)
      requires policy.Valid() && value == EncodeHandle(layout.filterHandle) && Fits(layout.filterHandle)
      requires Stored(file, layout.filterHandle, Filter.Contents(layout.filters, layout.offsets))
      requires |layout.filters| < TWO32 && Filter.Cut(layout.offsets, |layout.filters|)
      ensures filter.Valid() && filter.policy == policy && filter.Reads(layout.filters, layout.offsets)
    {
      hide Stored, EncodeHandle, DecodeHandle, Filter.Contents, Filter.Cut;
      HandleRoundTrip(layout.filterHandle, []);
      assert value == value + [];
      var handle := DecodeHandle(value);
      if handle.None? {
        assert false;
      }
      var block := ReadBlock(file, handle.value.0, paranoidChecks);
      assert Stored(file, layout.filterHandle, Filter.Contents(layout.filters, layout.offsets));
      if block.Corruption? {
        assert false;
      }
      filter := new Filter.FilterBlockReader(policy, block.value, layout.filters, layout.offsets);
    }

    lemma BlockFacts(n: nat)
      requires Valid() && n < |layout.blocks|
      ensures var b := layout.blocks[n];
        BlockOk(b) && Fits(b.handle) && Stored(file, b.handle, b.data) && IsBlock(b.data, b.items, b.starts, b.restarts)
    {
      hide Stored, IsBlock;
    }

    lemma IndexFacts()
      requires Valid()
      ensures var x := layout.index;
        IsBlock(indexData, x.items, x.starts, x.restarts) && Ordered(x.items, InternalBefore) && IndexItems(x.items, layout.separators, layout.blocks)
      ensures BlocksOk(layout.blocks) && |layout.separators| == |layout.blocks| && Separated(layout.blocks, layout.separators)
    {
      hide Stored, IsBlock, BlocksOk, Separated;
      IndexOrdered(layout.blocks, layout.separators, layout.index.items);
    }

    // table.cc:155: an iterator over the block that an index entry names.
    method BlockReader(indexValue: Bytes, verifyChecksums: bool, ghost n: nat) returns (iter: Iter)
      requires Valid() && n < |layout.blocks| && indexValue == EncodeHandle(layout.blocks[n].handle)
      ensures iter.Ok() && iter.items == layout.blocks[n].items && iter.less == InternalBefore && fresh(iter) && iter.Position() == |iter.items|
    {
      hide Valid, Stored, EncodeHandle, DecodeHandle, IsBlock, BlockOk;
      ghost var b := layout.blocks[n];
      BlockFacts(n);
      HandleRoundTrip(b.handle, []);
      assert indexValue == indexValue + [];
      var handle := DecodeHandle(indexValue);
      if handle.None? {
        assert false;
      }
      var contents := ReadBlock(file, handle.value.0, verifyChecksums);
      if contents.Corruption? {
        assert false;
      }
      iter := new Iter(contents.value, InternalBefore, b.items, b.starts, b.restarts);
    }

    // table.cc:226: a filter that does not match means that the block has no entry for the
    // user key.
    method MayHold(handleValue: Bytes, k: Key, ghost n: nat) returns (may: bool)
      requires Valid() && n < |layout.blocks| && handleValue == EncodeHandle(layout.blocks[n].handle)
      ensures !may ==> forall j :: 0 <= j < |layout.blocks[n].items| ==> UserPart(layout.blocks[n].items[j].key) != UserPart(k)
    {
      hide Stored, EncodeHandle, DecodeHandle, IsBlock, BlockOk, AllStored, Separated, IndexItems, EncodeFooter, Filter.Contents;
      ghost var b := layout.blocks[n];
      may := true;
      if filter != null {
        BlockFacts(n);
        HandleRoundTrip(b.handle, []);
        assert handleValue == handleValue + [];
        var handle := DecodeHandle(handleValue);
        if handle.None? {
          assert false;
        }
        assert Admitted(filter.policy, layout.filters, layout.offsets, b);
        may := filter.KeyMayMatch(handle.value.0.offset, k, layout.filters, layout.offsets);
        if !may {
          NotInFilter(filter.policy, layout.filters, layout.offsets, b, k);
        }
      }
    }

    // table.cc:216
    method InternalGet(k: Key, verifyChecksums: bool) returns (r: Option<Pair>)
      requires Valid()
      ensures Answers(Entries(layout.blocks), k, r)
    {
      hide Valid, IsBlock, BlocksOk, Separated, Answers, Entries, InternalBefore, InternalAtMost, UserPart;
      ghost var x := layout.index;
      IndexFacts();
      InternalOrderTransitive();
      var iiter := new Iter(indexData, InternalBefore, x.items, x.starts, x.restarts);
      iiter.Seek(k);
      ghost var n := iiter.Position();
      SeekSkips(x.items, layout.separators, layout.blocks, k, n);
      var valid := iiter.Valid();
      if !valid {
        PastAllBlocks(layout.blocks, layout.separators, k);
        return None;
      }
      var handleValue := iiter.Value();
      var may := MayHold(handleValue, k, n);
      r := None;
      if may {
        r := GetFromBlock(handleValue, k, verifyChecksums, n);
      } else {
        ghost var j := FirstExists(layout.blocks[n].items, k, 0);
        NothingInBlock(layout.blocks, layout.separators, k, n, j);
      }
    }

    // table.cc:229
    method GetFromBlock(handleValue: Bytes, k: Key, verifyChecksums: bool, ghost n: nat) returns (r: Option<Pair>)
      requires Valid() && n < |layout.blocks| && handleValue == EncodeHandle(layout.blocks[n].handle)
      requires SkipsBlocks(layout.separators, k, n) && !InternalBefore(layout.separators[n], k)
      ensures Answers(Entries(layout.blocks), k, r)
    {
      hide Valid, IsBlock, BlocksOk, Separated, Answers, Entries, InternalBefore, InternalAtMost, UserPart, EncodeHandle;
      IndexFacts();
      BlockFacts(n);
      InternalOrderTransitive();
      var iter := BlockReader(handleValue, verifyChecksums, n);
      iter.Seek(k);
      var found := iter.Valid();
      if found {
        FoundInBlock(layout.blocks, layout.separators, k, n, iter.Position());
        var key := iter.Key();
        var value := iter.Value();
        r := Some(Pair(key, value));
      } else {
        NothingInBlock(layout.blocks, layout.separators, k, n, iter.Position());
        r := None;
      }
    }
  }

  lemma NotInFilter(policy: Bloom.BloomFilterPolicy, filters: Bytes, offsets: seq<nat>, b: DataBlock, k: Key)
    requires policy.Valid() && Filter.Cut(offsets, |filters|) && Admitted(policy, filters, offsets, b)
    requires b.handle.offset / Filter.BASE < |offsets|
    requires !Filter.Admits(policy, Filter.Part(filters, offsets, b.handle.offset / Filter.BASE), k)
    ensures forall j :: 0 <= j < |b.items| ==> UserPart(b.items[j].key) != UserPart(k)
  {
    forall j | 0 <= j < |b.items|
      ensures UserPart(b.items[j].key) != UserPart(k)
    {
      assert InFilter(policy, filters, offsets, b.handle.offset / Filter.BASE, b.items[j].key);
    }
  }

  lemma SeekSkips(index: seq<Item>, separators: seq<Key>, blocks: seq<DataBlock>, k: Key, n: nat)
    requires IndexItems(index, separators, blocks) && FirstNotBefore(index, InternalBefore, k, n)
    ensures n <= |separators| && SkipsBlocks(separators, k, n)
    ensures n < |separators| ==> !InternalBefore(separators[n], k)
  {
  }

  /* ---- from pairs to an answer ---- */

  // What the pairs take in a block, at most.
  function Weight(pairs: seq<Pair>): nat {
    if pairs == [] then 0
    else
      var n := |pairs| - 1;
      Weight(pairs[..n]) + 39 + |pairs[n].key| + |pairs[n].value|
  }

  lemma {:induction false} WeightGrows(pairs: seq<Pair>, i: nat)
    requires i <= |pairs|
    ensures Weight(pairs[..i]) <= Weight(pairs) && 39 * |pairs| <= Weight(pairs)
    decreases |pairs|
  {
    if pairs != [] {
      var n := |pairs| - 1;
      WeightGrows(pairs[..n], if i <= n then i else n);
      if i <= n {
        assert pairs[..n][..i] == pairs[..i];
      } else {
        assert pairs[..i] == pairs;
      }
    }
  }

  lemma NoWeight()
    ensures Weight([]) == 0
  {
  }

  lemma WeightPush(pairs: seq<Pair>, i: nat)
    requires i < |pairs|
    ensures Weight(pairs[..i + 1]) == Weight(pairs[..i]) + 39 + |pairs[i].key| + |pairs[i].value|
    ensures Weight(pairs[..i + 1]) <= Weight(pairs) && 39 * |pairs| <= Weight(pairs)
  {
    assert pairs[..i + 1][..i] == pairs[..i];
    WeightGrows(pairs, i + 1);
  }

  // The pairs of a table are in order, and blocks and filters are addressed in 32 bits.
  ghost predicate Buildable(pairs: seq<Pair>, policy: Option<Bloom.BloomFilterPolicy>) {
    && SortedPairs(pairs) && (forall i :: 0 <= i < |pairs| ==> |pairs[i].key| >= 8)
    && Weight(pairs) + 64 < TWO32
    && (policy.Some? ==> policy.value.Valid() && |pairs| * policy.value.PerKey() < TWO32)
  }

  lemma NextInOrder(pairs: seq<Pair>, i: nat)
    requires SortedPairs(pairs) && i < |pairs|
    ensures i > 0 ==> InternalBefore(pairs[i - 1].key, pairs[i].key)
  {
  }

  lemma OneMoreKey(i: nat, n: nat, perKey: nat)
    requires i < n
    ensures i * perKey + perKey == (i + 1) * perKey <= n * perKey
  {
    assert n * perKey == (i + 1) * perKey + (n - i - 1) * perKey;
  }

  // How far the building is, in bytes.
  ghost predicate Within(builder: TableBuilder, w: nat, i: nat)
    reads builder.Repr()
  {
    && builder.DataSize() <= 4 + w && builder.IndexSize() <= 4 + w
    && builder.FilterSize() <= i * builder.PerKey() && |builder.file| <= i * (TWO32 + TRAILER)
  }

  // builder.cc:17: all pairs into a new table.
  method BuildTable(pairs: seq<Pair>, interval: nat, blockSize: nat, name: Bytes, policy: Option<Bloom.BloomFilterPolicy>)
    returns (file: Bytes, ghost layout: Layout)
    requires interval >= 1 && |name| < 0x1_0000 && Buildable(pairs, policy)
    ensures IsTable(file, layout, name, policy) && Entries(layout.blocks) == pairs && (layout.filtered <==> policy.Some?)
    ensures WellCut(layout.blocks, interval, blockSize)
  {
    hide CutSoFar, WellCut, Weight, SortedPairs, IsTable, Entries, Good, TableBuilder.FilterValid, BlockBuilder.Valid, InternalBefore;
    NoWeight();
    var builder := new TableBuilder(interval, blockSize, name, policy);
    for i := 0 to |pairs|
      invariant builder.Valid() && !builder.closed && builder.pairs == pairs[..i] && fresh(builder.Repr())
      invariant i > 0 ==> builder.lastKey == pairs[i - 1].key
      invariant builder.interval == interval && builder.blockSize == blockSize && builder.CutNow()
      invariant Within(builder, Weight(pairs[..i]), i)
    {
      WeightPush(pairs, i);
      OneMoreKey(i, |pairs|, builder.PerKey());
      NextInOrder(pairs, i);
      builder.Add(pairs[i].key, pairs[i].value);
    }
    WeightGrows(pairs, |pairs|);
    assert pairs[..|pairs|] == pairs;
    layout := builder.Finish();
    file := builder.file;
  }

  // Any sorted pairs, built into a table that is then opened: a lookup tells the newest
  // entry that is visible to it, with or without a filter to consult.
  method BuildAndGet(pairs: seq<Pair>, interval: nat, blockSize: nat, name: Bytes, policy: Option<Bloom.BloomFilterPolicy>,
      consult: bool, paranoidChecks: bool, verifyChecksums: bool, target: Key) returns (r: Option<Pair>)
    requires interval >= 1 && |name| < 0x1_0000 && Buildable(pairs, policy)
    ensures TellsNewest(pairs, target, r)
  {
    hide SortedPairs, IsTable, Entries, Answers, TellsNewest;
    var file; ghost var layout;
    file, layout := BuildTable(pairs, interval, blockSize, name, policy);
    var table := Table.Open(file, name, if consult then policy else None, paranoidChecks, layout, policy);
    r := table.InternalGet(target, verifyChecksums);
    AnswerIsNewest(pairs, target, r);
  }
}
