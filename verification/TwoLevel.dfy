/**
 The iterator over a whole table (table/two_level_iterator.cc, table/table.cc:210): an
 index iterator and an iterator over the block it names together are one cursor over all
 entries, whichever way it moves.
 */
module TwoLevel {
  import opened Comparators
  import opened Blocks
  import opened BlockIter
  import opened TableIndex
  import opened TableFormat
  import opened SortedTable
  import opened TableReader

  // Different blocks have different handles.
  lemma HandlesDiffer(blocks: seq<DataBlock>, i: nat, j: nat)
    requires BlocksOk(blocks) && Placed(blocks) && i < |blocks| && j < |blocks|
    requires EncodeHandle(blocks[i].handle) == EncodeHandle(blocks[j].handle)
    ensures i == j
  {
    assert BlockOk(blocks[i]) && BlockOk(blocks[j]);
    hide EncodeHandle, DecodeHandle, IsBlock, BlockOk;
    HandleRoundTrip(blocks[i].handle, []);
    HandleRoundTrip(blocks[j].handle, []);
  }

  class TwoLevelIterator {
    const table: Table
    const indexIter: Iter
    const verifyChecksums: bool
    var dataIter: Iter?
    var dataBlockHandle: Bytes
    // The block that the data iterator is over.
    ghost var at: nat

    ghost function Blocks(): seq<DataBlock> {
      table.layout.blocks
    }

    ghost function Repr(): set<object>
      reads this
    {
      {this, indexIter} + (if dataIter == null then {} else {dataIter})
    }

    // The block that the index names.
    ghost function Named(): nat
      reads indexIter
    {
      indexIter.Position()
    }

    ghost predicate Ok()
      reads Repr()
    {
      && table.Valid() && indexIter.Ok() && indexIter.items == table.layout.index.items && indexIter.less == InternalBefore
      && Named() <= |Blocks()| == |indexIter.items|
      && (dataIter != null ==> dataIter != indexIter && DataOk(dataIter))
    }

    ghost predicate DataOk(data: Iter)
      reads this, data
    {
      && data.Ok() && at < |Blocks()| && data.items == Blocks()[at].items && data.less == InternalBefore && data.Position() <= |data.items|
      && dataBlockHandle == EncodeHandle(Blocks()[at].handle)
    }

    // On an entry, or on none.
    ghost predicate Settled()
      reads Repr()
    {
      Ok() && (dataIter != null ==> at == Named() && dataIter.Position() < |Blocks()[at].items|)
    }

    // The entry among all entries; past the end when there is none.
    ghost function Position(): nat
      reads Repr()
    {
      if dataIter == null || at >= |Blocks()| then |Entries(Blocks())| else StartOf(Blocks(), at) + dataIter.Position()
    }

    // table.cc:210
    constructor (table: Table, verifyChecksums: bool)
      requires table.Valid()
      ensures Settled() && dataIter == null && this.table == table && fresh(indexIter)
    {
      hide IsTable;
      table.IndexFacts();
      ghost var x := table.layout.index;
      this.table, this.verifyChecksums := table, verifyChecksums;
      indexIter := new Iter(table.indexData, InternalBefore, x.items, x.starts, x.restarts);
      dataIter, dataBlockHandle, at := null, [], 0;
    }

    // two_level_iterator.cc:146: the block the index names, kept if it is the one at hand.
    method InitDataBlock()
      requires Ok()
      modifies this
      ensures Ok() && (dataIter == old(dataIter) || dataIter == null || fresh(dataIter))
      ensures if Named() < |Blocks()| then dataIter != null && at == Named() else dataIter == null
    {
      hide Table.Valid, Iter.Ok, Iter.Position, EncodeHandle, BlocksOk, Separated, IsBlock, Ordered;
      table.IndexFacts();
      var valid := indexIter.Valid();
      if !valid {
        dataIter := null;
        return;
      }
      var handle := indexIter.Value();
      if dataIter != null && handle == dataBlockHandle {
        HandlesUnique(at, Named());
      } else {
        var iter := table.BlockReader(handle, verifyChecksums, Named());
        dataBlockHandle := handle;
        dataIter := iter;
        at := Named();
      }
    }

    lemma HandlesUnique(i: nat, j: nat)
      requires table.Valid() && i < |Blocks()| && j < |Blocks()|
      requires EncodeHandle(Blocks()[i].handle) == EncodeHandle(Blocks()[j].handle)
      ensures i == j
    {
      HandlesDiffer(Blocks(), i, j);
    }

    // The data iterator is over the block that the index names, if it names one.
    ghost predicate Here()
      reads Repr()
    {
      Ok() && (if dataIter == null then Named() == |Blocks()| else at == Named())
    }

    // There is no entry at hand.
    method Exhausted() returns (exhausted: bool)
      requires Here()
      ensures exhausted <==> dataIter == null || dataIter.Position() >= |Blocks()[at].items|
    {
      hide Table.Valid, Iter.Ok, Iter.Position, EncodeHandle;
      exhausted := true;
      if dataIter != null {
        var valid := dataIter.Valid();
        exhausted := !valid;
      }
    }

    lemma Starts(n: nat)
      requires table.Valid() && n < |Blocks()|
      ensures Blocks()[n].items != [] && StartOf(Blocks(), n + 1) == StartOf(Blocks(), n) + |Blocks()[n].items| <= |Entries(Blocks())|
      ensures StartOf(Blocks(), |Blocks()|) == |Entries(Blocks())| && StartOf(Blocks(), 0) == 0
    {
      hide Stored, IsBlock;
      assert BlockOk(Blocks()[n]);
      StartNext(Blocks(), n);
      assert Blocks()[..|Blocks()|] == Blocks();
    }

    // two_level_iterator.cc:122: on to the start of the next block.
    method NextBlock()
      requires Here() && dataIter != null && dataIter.Position() == |Blocks()[at].items|
      modifies Repr()
      ensures Here() && fresh(Repr() - old(Repr())) && Position() == old(Position()) && Named() == old(Named()) + 1
    {
      hide Table.Valid, Iter.Ok, Iter.Position, Entries, StartOf, EncodeHandle;
      Starts(at);
      if at + 1 < |Blocks()| {
        Starts(at + 1);
      }
      indexIter.Next();
      InitDataBlock();
      if dataIter != null {
        dataIter.SeekToFirst();
      }
    }

    // two_level_iterator.cc:115
    method SkipEmptyDataBlocksForward()
      requires Here()
      modifies Repr()
      ensures Settled() && fresh(Repr() - old(Repr())) && Position() == old(Position())
    {
      hide Table.Valid, Iter.Ok, Iter.Position, Entries, StartOf, EncodeHandle;
      var exhausted := Exhausted();
      while exhausted
        invariant Here() && fresh(Repr() - old(Repr())) && Position() == old(Position())
        invariant exhausted <==> dataIter == null || dataIter.Position() >= |Blocks()[at].items|
        decreases |Blocks()| - Named(), exhausted
      {
        var valid := indexIter.Valid();
        if !valid {
          dataIter := null;
          return;
        }
        NextBlock();
        exhausted := Exhausted();
      }
    }

    // Where the iterators stand when they go back: before the start of a block is the end of
    // the one before it.
    ghost function CursorBack(): nat
      reads Repr()
    {
      if dataIter == null || at >= |Blocks()| then |Entries(Blocks())|
      else if dataIter.Position() < |Blocks()[at].items| then StartOf(Blocks(), at) + dataIter.Position()
      else Back(StartOf(Blocks(), at))
    }

    // The entry before position p; none before the first.
    ghost function Back(p: nat): nat {
      if p == 0 then |Entries(Blocks())| else p - 1
    }

    // two_level_iterator.cc:135: back to the end of the block before.
    method PrevBlock()
      requires Here() && dataIter != null && dataIter.Position() == |Blocks()[at].items|
      modifies Repr()
      ensures Here() && fresh(Repr() - old(Repr())) && CursorBack() == old(CursorBack())
      ensures dataIter != null ==> at < old(at)
    {
      hide Table.Valid, Iter.Ok, Iter.Position, Entries, StartOf, EncodeHandle;
      Starts(at);
      ghost var n := at;
      if n > 0 {
        Starts(n - 1);
        StartPositive(n);
      }
      indexIter.Prev();
      InitDataBlock();
      if dataIter != null {
        dataIter.SeekToLast();
      }
    }

    lemma StartPositive(n: nat)
      requires table.Valid() && 0 < n <= |Blocks()|
      ensures StartOf(Blocks(), n) > 0
    {
      hide Table.Valid, Entries, StartOf;
      Starts(n - 1);
    }

    // two_level_iterator.cc:128
    method SkipEmptyDataBlocksBackward()
      requires Here()
      modifies Repr()
      ensures Settled() && fresh(Repr() - old(Repr())) && Position() == old(CursorBack())
    {
      hide Table.Valid, Iter.Ok, Iter.Position, Entries, StartOf, EncodeHandle;
      var exhausted := Exhausted();
      while exhausted
        invariant Here() && fresh(Repr() - old(Repr())) && CursorBack() == old(CursorBack())
        invariant exhausted <==> dataIter == null || dataIter.Position() >= |Blocks()[at].items|
        decreases if dataIter == null then 0 else at + 1
      {
        var valid := indexIter.Valid();
        if !valid {
          dataIter := null;
          return;
        }
        PrevBlock();
        exhausted := Exhausted();
      }
    }

    method Valid() returns (valid: bool)
      requires Settled()
      ensures valid <==> Position() < |Entries(Blocks())|
    {
      hide Table.Valid, Iter.Ok, Iter.Position, Entries, StartOf, EncodeHandle;
      valid := false;
      if dataIter != null {
        Starts(at);
        valid := dataIter.Valid();
      }
    }

    // The entry at the position.
    method Current() returns (pair: Pair)
      requires Settled() && Position() < |Entries(Blocks())|
      ensures pair == Entries(Blocks())[Position()]
    {
      hide Table.Valid, Iter.Ok, Iter.Position, Entries, StartOf, EncodeHandle;
      var key := dataIter.Key();
      var value := dataIter.Value();
      EntryAt(Blocks(), at, dataIter.Position());
      pair := Pair(key, value);
    }

    // two_level_iterator.cc:103
    method Next()
      requires Settled() && Position() < |Entries(Blocks())|
      modifies Repr()
      ensures Settled() && fresh(Repr() - old(Repr())) && Position() == old(Position()) + 1
    {
      hide Table.Valid, Iter.Ok, Iter.Position, Entries, StartOf, EncodeHandle;
      dataIter.Next();
      SkipEmptyDataBlocksForward();
    }

    // two_level_iterator.cc:109
    method Prev()
      requires Settled() && Position() < |Entries(Blocks())|
      modifies Repr()
      ensures Settled() && fresh(Repr() - old(Repr())) && Position() == Back(old(Position()))
    {
      hide Table.Valid, Iter.Ok, Iter.Position, Entries, StartOf, EncodeHandle;
      if at > 0 {
        StartPositive(at);
      }
      dataIter.Prev();
      SkipEmptyDataBlocksBackward();
    }

    // two_level_iterator.cc:89
    method SeekToFirst()
      requires Ok()
      modifies Repr()
      ensures Settled() && fresh(Repr() - old(Repr())) && Position() == 0
    {
      hide Table.Valid, Iter.Ok, Iter.Position, Entries, StartOf, EncodeHandle;
      NoBlocks();
      indexIter.SeekToFirst();
      InitDataBlock();
      if dataIter != null {
        dataIter.SeekToFirst();
      }
      SkipEmptyDataBlocksForward();
    }

    lemma NoBlocks()
      requires table.Valid()
      ensures |Entries(Blocks())| == 0 <==> |Blocks()| == 0
      ensures StartOf(Blocks(), 0) == 0
    {
      hide Table.Valid;
      if Blocks() != [] {
        Starts(0);
      }
    }

    // two_level_iterator.cc:96
    method SeekToLast()
      requires Ok()
      modifies Repr()
      ensures Settled() && fresh(Repr() - old(Repr())) && Position() == Back(|Entries(Blocks())|)
    {
      hide Table.Valid, Iter.Ok, Iter.Position, Entries, StartOf, EncodeHandle;
      NoBlocks();
      if Blocks() != [] {
        Starts(|Blocks()| - 1);
      }
      indexIter.SeekToLast();
      InitDataBlock();
      if dataIter != null {
        dataIter.SeekToLast();
      }
      SkipEmptyDataBlocksBackward();
    }

    // two_level_iterator.cc:82
    method Seek(target: Key)
      requires Ok()
      modifies Repr()
      ensures Settled() && fresh(Repr() - old(Repr())) && IsFirst(Entries(Blocks()), target, Position())
    {
      hide Table.Valid, Iter.Ok, Iter.Position, Entries, StartOf, EncodeHandle, IsFirst, Skips;
      SeekIndex(target);
      InitDataBlock();
      SeekData(target);
      SkipEmptyDataBlocksForward();
    }

    // The blocks before the one that the index names are before the target.
    ghost predicate Skips(target: Key)
      requires table.Valid()
      reads indexIter
    {
      && Named() <= |Blocks()| == |table.layout.separators| && SkipsBlocks(table.layout.separators, target, Named())
      && (Named() < |Blocks()| ==> !InternalBefore(table.layout.separators[Named()], target))
    }

    method SeekIndex(target: Key)
      requires Ok()
      modifies indexIter
      ensures Ok() && Skips(target)
    {
      hide Table.Valid, Iter.Ok, Iter.Position, EncodeHandle, BlocksOk, Separated, Ordered, Transitive, IsBlock, InternalBefore;
      table.IndexFacts();
      InternalOrderTransitive();
      indexIter.Seek(target);
      SeekSkips(table.layout.index.items, table.layout.separators, Blocks(), target, Named());
    }

    method SeekData(target: Key)
      requires Here() && Skips(target)
      modifies Repr()
      ensures Here() && Repr() == old(Repr()) && IsFirst(Entries(Blocks()), target, Position())
    {
      hide Table.Valid, Iter.Ok, Iter.Position, Entries, StartOf, EncodeHandle, Ordered, Transitive, IsBlock, InternalBefore, IsFirst, SkipsBlocks, AllBefore, BlockOk;
      EndStart();
      if dataIter == null {
        Lands(target, Named(), 0);
      } else {
        InternalOrderTransitive();
        BlockOrdered(at);
        dataIter.Seek(target);
        Lands(target, at, dataIter.Position());
      }
    }

    lemma BlockOrdered(n: nat)
      requires table.Valid() && n < |Blocks()|
      ensures Ordered(Blocks()[n].items, InternalBefore)
    {
      hide Table.Valid, Ordered, IsBlock;
      table.BlockFacts(n);
    }

    // A seek through the index to block n and in it to entry j is a seek in all entries.
    lemma Lands(target: Key, n: nat, j: nat)
      requires table.Valid() && n <= |Blocks()| == |table.layout.separators| && SkipsBlocks(table.layout.separators, target, n)
      requires if n == |Blocks()| then j == 0
        else !InternalBefore(table.layout.separators[n], target) && FirstNotBefore(Blocks()[n].items, InternalBefore, target, j)
      ensures IsFirst(Entries(Blocks()), target, StartOf(Blocks(), n) + j)
    {
      hide Table.Valid, Entries, StartOf, BlocksOk, Separated, Ordered, IsBlock, InternalBefore, IsFirst, SkipsBlocks;
      table.IndexFacts();
      SeekLands(Blocks(), table.layout.separators, target, n, j);
    }

    lemma EndStart()
      ensures StartOf(Blocks(), |Blocks()|) == |Entries(Blocks())|
    {
      assert Blocks()[..|Blocks()|] == Blocks();
    }
  }
}
