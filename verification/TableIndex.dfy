/**
 What a table holds: data blocks of entries in order, and between the last key of a block
 and the first key of the next a separator in the index. Where a seek through the index
 and one block lands among all entries.
 */
module TableIndex {
  import opened Keys
  import opened Coding
  import opened Comparators
  import opened Blocks
  import opened BlockIter
  import F = TableFormat

  // A data block, where it is stored, and what it holds.
  datatype DataBlock = DataBlock(handle: F.Handle, data: seq<Byte>, items: seq<Item>, starts: seq<nat>, restarts: seq<nat>)

  ghost predicate BlockOk(b: DataBlock) {
    IsBlock(b.data, b.items, b.starts, b.restarts) && b.items != [] && Ordered(b.items, InternalBefore) && F.Fits(b.handle)
  }

  ghost predicate BlocksOk(blocks: seq<DataBlock>) {
    forall i :: 0 <= i < |blocks| ==> BlockOk(blocks[i])
  }

  ghost function LastOf(b: DataBlock): Key
    requires b.items != []
  {
    b.items[|b.items| - 1].key
  }

  // A separator of two keys: at or after the first, before the second, and with a user key
  // before the second's unless it is the first key itself.
  ghost predicate Divides(last: Key, separator: Key, next: Key) {
    && InternalBefore(separator, next)
    && (separator == last || Precedes(UserPart(separator), UserPart(next)))
  }

  ghost predicate SeparatedAt(blocks: seq<DataBlock>, separators: seq<Key>, i: nat)
    requires BlocksOk(blocks) && i < |separators| <= |blocks|
  {
    && InternalAtMost(LastOf(blocks[i]), separators[i])
    && (i + 1 < |blocks| ==> Divides(LastOf(blocks[i]), separators[i], blocks[i + 1].items[0].key))
  }

  ghost predicate Separated(blocks: seq<DataBlock>, separators: seq<Key>)
    requires BlocksOk(blocks) && |separators| <= |blocks|
  {
    forall i :: 0 <= i < |separators| ==> SeparatedAt(blocks, separators, i)
  }

  /* ---- all entries ---- */

  ghost function Entries(blocks: seq<DataBlock>): seq<Pair> {
    if blocks == [] then [] else Entries(blocks[..|blocks| - 1]) + PairsOf(blocks[|blocks| - 1].items)
  }

  // The number of entries in the blocks before one.
  ghost function StartOf(blocks: seq<DataBlock>, i: nat): nat
    requires i <= |blocks|
  {
    |Entries(blocks[..i])|
  }

  lemma {:induction false} EntriesPrefix(blocks: seq<DataBlock>, i: nat)
    requires i <= |blocks|
    ensures Entries(blocks[..i]) <= Entries(blocks)
    decreases |blocks|
  {
    if i == |blocks| {
      assert blocks[..i] == blocks;
    } else {
      EntriesPrefix(blocks[..|blocks| - 1], i);
      assert blocks[..|blocks| - 1][..i] == blocks[..i];
    }
  }

  lemma StartNext(blocks: seq<DataBlock>, i: nat)
    requires i < |blocks|
    ensures Entries(blocks[..i + 1]) == Entries(blocks[..i]) + PairsOf(blocks[i].items)
    ensures StartOf(blocks, i + 1) == StartOf(blocks, i) + |blocks[i].items| <= |Entries(blocks)|
  {
    assert blocks[..i + 1][..i] == blocks[..i];
    EntriesPrefix(blocks, i + 1);
  }

  lemma EntryAt(blocks: seq<DataBlock>, i: nat, j: nat)
    requires i < |blocks| && j < |blocks[i].items|
    ensures StartOf(blocks, i) + j < |Entries(blocks)|
    ensures Entries(blocks)[StartOf(blocks, i) + j] == Pair(blocks[i].items[j].key, blocks[i].items[j].value)
  {
    StartNext(blocks, i);
    EntriesPrefix(blocks, i + 1);
    assert Entries(blocks[..i + 1])[StartOf(blocks, i) + j] == PairsOf(blocks[i].items)[j];
  }

  // Every entry is in some block.
  lemma {:induction false} EntryIn(blocks: seq<DataBlock>, n: nat, p: nat) returns (i: nat, j: nat)
    requires n <= |blocks| && p < StartOf(blocks, n)
    ensures i < n && j < |blocks[i].items| && p == StartOf(blocks, i) + j
  {
    StartNext(blocks, n - 1);
    if p < StartOf(blocks, n - 1) {
      i, j := EntryIn(blocks, n - 1, p);
    } else {
      i, j := n - 1, p - StartOf(blocks, n - 1);
    }
  }

  /* ---- seeking ---- */

  // The first entry that is not before a target; past the end if there is none.
  ghost predicate IsFirst(pairs: seq<Pair>, target: Key, p: nat) {
    && p <= |pairs| && EarlierBefore(pairs, target, p)
    && (p < |pairs| ==> !InternalBefore(pairs[p].key, target))
  }

  ghost predicate EarlierBefore(pairs: seq<Pair>, target: Key, p: nat)
    requires p <= |pairs|
  {
    forall q :: 0 <= q < p ==> InternalBefore(pairs[q].key, target)
  }

  lemma FirstUnique(pairs: seq<Pair>, target: Key, p: nat, q: nat)
    requires IsFirst(pairs, target, p) && IsFirst(pairs, target, q)
    ensures p == q
  {
  }

  lemma {:induction false} LastIsLast(b: DataBlock, j: nat)
    requires BlockOk(b) && j < |b.items|
    ensures InternalAtMost(b.items[j].key, LastOf(b))
  {
    if j < |b.items| - 1 {
      assert InternalBefore(b.items[j].key, LastOf(b));
    }
  }

  // The index says that the first n blocks are before the target.
  ghost predicate SkipsBlocks(separators: seq<Key>, target: Key, n: nat)
    requires n <= |separators|
  {
    forall i :: 0 <= i < n ==> InternalBefore(separators[i], target)
  }

  lemma SkippedEntry(blocks: seq<DataBlock>, separators: seq<Key>, target: Key, n: nat, q: nat)
    requires BlocksOk(blocks) && |separators| == |blocks| && Separated(blocks, separators)
    requires n <= |blocks| && SkipsBlocks(separators, target, n)
    requires q < StartOf(blocks, n) <= |Entries(blocks)|
    ensures InternalBefore(Entries(blocks)[q].key, target)
  {
    hide IsBlock, Entries, InternalBefore;
    var i, j := EntryIn(blocks, n, q);
    EntryAt(blocks, i, j);
    assert SeparatedAt(blocks, separators, i);
    LastIsLast(blocks[i], j);
    var key, last, separator := blocks[i].items[j].key, LastOf(blocks[i]), separators[i];
    if last != separator {
      InternalTransitive(last, separator, target);
    }
    if key != last {
      InternalTransitive(key, last, target);
    }
  }

  // The entries before position j of block n are before the target.
  lemma SkippedEntries(blocks: seq<DataBlock>, separators: seq<Key>, target: Key, n: nat, j: nat)
    requires BlocksOk(blocks) && |separators| == |blocks| && Separated(blocks, separators)
    requires n <= |blocks| && SkipsBlocks(separators, target, n)
    requires if n == |blocks| then j == 0 else j <= |blocks[n].items| && AllBefore(blocks[n].items, InternalBefore, target, j)
    ensures StartOf(blocks, n) + j <= |Entries(blocks)| && EarlierBefore(Entries(blocks), target, StartOf(blocks, n) + j)
  {
    hide IsBlock, Entries, InternalBefore, BlockOk, SeparatedAt;
    EntriesPrefix(blocks, n);
    if n < |blocks| {
      StartNext(blocks, n);
    }
    forall q | 0 <= q < StartOf(blocks, n) + j
      ensures q < |Entries(blocks)| && InternalBefore(Entries(blocks)[q].key, target)
    {
      if q < StartOf(blocks, n) {
        SkippedEntry(blocks, separators, target, n, q);
      } else {
        EntryAt(blocks, n, q - StartOf(blocks, n));
      }
    }
  }

  // What a lookup reports is the first entry that is not before the target; it reports
  // nothing only if that entry, should there be one, is for another user key.
  ghost predicate Answers(pairs: seq<Pair>, target: Key, r: Option<Pair>) {
    && (r.Some? ==> exists p: nat :: IsFirst(pairs, target, p) && p < |pairs| && r.value == pairs[p])
    && (r.None? ==> forall p: nat :: IsFirst(pairs, target, p) && p < |pairs| ==> UserPart(pairs[p].key) != UserPart(target))
  }

  // Nothing in any block.
  lemma PastAllBlocks(blocks: seq<DataBlock>, separators: seq<Key>, target: Key)
    requires BlocksOk(blocks) && |separators| == |blocks| && Separated(blocks, separators)
    requires SkipsBlocks(separators, target, |blocks|)
    ensures Answers(Entries(blocks), target, None)
  {
    hide IsBlock, InternalBefore, BlocksOk, SeparatedAt;
    SkippedEntries(blocks, separators, target, |blocks|, 0);
    assert blocks[..|blocks|] == blocks;
    NoneLeft(Entries(blocks), target);
  }

  // The entry a seek in block n lands on.
  lemma FoundInBlock(blocks: seq<DataBlock>, separators: seq<Key>, target: Key, n: nat, j: nat)
    requires BlocksOk(blocks) && |separators| == |blocks| && Separated(blocks, separators)
    requires n < |blocks| && SkipsBlocks(separators, target, n)
    requires FirstNotBefore(blocks[n].items, InternalBefore, target, j) && j < |blocks[n].items|
    ensures StartOf(blocks, n) + j < |Entries(blocks)| && IsFirst(Entries(blocks), target, StartOf(blocks, n) + j)
    ensures Entries(blocks)[StartOf(blocks, n) + j] == Pair(blocks[n].items[j].key, blocks[n].items[j].value)
    ensures Answers(Entries(blocks), target, Some(Pair(blocks[n].items[j].key, blocks[n].items[j].value)))
  {
    SkippedEntries(blocks, separators, target, n, j);
    EntryAt(blocks, n, j);
  }

  // The first entry of the next block, when the block that the index names has none.
  lemma FirstOfNextBlock(blocks: seq<DataBlock>, separators: seq<Key>, target: Key, n: nat)
    requires BlocksOk(blocks) && |separators| == |blocks| && Separated(blocks, separators)
    requires n + 1 < |blocks| && SkipsBlocks(separators, target, n) && !InternalBefore(separators[n], target)
    requires AllBefore(blocks[n].items, InternalBefore, target, |blocks[n].items|)
    ensures var s := StartOf(blocks, n + 1);
      s < |Entries(blocks)| && IsFirst(Entries(blocks), target, s) && UserPart(Entries(blocks)[s].key) != UserPart(target)
  {
    hide IsBlock, Entries, InternalBefore;
    SkippedEntries(blocks, separators, target, n, |blocks[n].items|);
    StartNext(blocks, n);
    EntryAt(blocks, n + 1, 0);
    assert SeparatedAt(blocks, separators, n);
    var last, next := LastOf(blocks[n]), blocks[n + 1].items[0].key;
    assert InternalBefore(last, target);
    SeparatorMissesNothing(last, separators[n], next, target);
    if InternalBefore(next, target) {
      InternalTransitive(separators[n], next, target);
    }
  }

  // A seek through the index and into block n that finds nothing for the user key.
  lemma NothingInBlock(blocks: seq<DataBlock>, separators: seq<Key>, target: Key, n: nat, j: nat)
    requires BlocksOk(blocks) && |separators| == |blocks| && Separated(blocks, separators)
    requires n < |blocks| && SkipsBlocks(separators, target, n) && !InternalBefore(separators[n], target)
    requires FirstNotBefore(blocks[n].items, InternalBefore, target, j)
    requires j < |blocks[n].items| ==> UserPart(blocks[n].items[j].key) != UserPart(target)
    ensures Answers(Entries(blocks), target, None)
  {
    hide IsBlock, Entries, InternalBefore, BlockOk, SeparatedAt, UserPart, Answers, IsFirst;
    var pairs := Entries(blocks);
    if j < |blocks[n].items| {
      FoundInBlock(blocks, separators, target, n, j);
      OnlyFirst(pairs, target, StartOf(blocks, n) + j);
    } else if n + 1 < |blocks| {
      FirstOfNextBlock(blocks, separators, target, n);
      OnlyFirst(pairs, target, StartOf(blocks, n + 1));
    } else {
      SkippedEntries(blocks, separators, target, n, j);
      StartNext(blocks, n);
      assert blocks[..|blocks|] == blocks;
      NoneLeft(pairs, target);
    }
  }

  // Where a seek through the index and into block n lands among all entries.
  lemma SeekLands(blocks: seq<DataBlock>, separators: seq<Key>, target: Key, n: nat, j: nat)
    requires BlocksOk(blocks) && |separators| == |blocks| && Separated(blocks, separators)
    requires n <= |blocks| && SkipsBlocks(separators, target, n)
    requires if n == |blocks| then j == 0
      else !InternalBefore(separators[n], target) && FirstNotBefore(blocks[n].items, InternalBefore, target, j)
    ensures IsFirst(Entries(blocks), target, StartOf(blocks, n) + j)
  {
    hide IsBlock, Entries, InternalBefore, BlockOk, SeparatedAt, UserPart, IsFirst;
    SkippedEntries(blocks, separators, target, n, j);
    assert blocks[..|blocks|] == blocks;
    if n == |blocks| {
      AtTheEnd(Entries(blocks), target);
    } else if j < |blocks[n].items| {
      FoundInBlock(blocks, separators, target, n, j);
    } else {
      StartNext(blocks, n);
      if n + 1 < |blocks| {
        FirstOfNextBlock(blocks, separators, target, n);
      } else {
        AtTheEnd(Entries(blocks), target);
      }
    }
  }

  lemma AtTheEnd(pairs: seq<Pair>, target: Key)
    requires EarlierBefore(pairs, target, |pairs|)
    ensures IsFirst(pairs, target, |pairs|)
  {
  }

  lemma OnlyFirst(pairs: seq<Pair>, target: Key, s: nat)
    requires s < |pairs| && IsFirst(pairs, target, s) && UserPart(pairs[s].key) != UserPart(target)
    ensures Answers(pairs, target, None)
  {
    forall p: nat | IsFirst(pairs, target, p) && p < |pairs|
      ensures UserPart(pairs[p].key) != UserPart(target)
    {
      FirstUnique(pairs, target, p, s);
    }
  }

  lemma NoneLeft(pairs: seq<Pair>, target: Key)
    requires EarlierBefore(pairs, target, |pairs|)
    ensures Answers(pairs, target, None)
  {
    forall p: nat | IsFirst(pairs, target, p)
      ensures p == |pairs|
    {
      FirstUnique(pairs, target, p, |pairs|);
    }
  }

  lemma {:induction false} FirstExists(items: seq<Item>, target: Key, from: nat) returns (j: nat)
    requires from <= |items| && AllBefore(items, InternalBefore, target, from)
    ensures FirstNotBefore(items, InternalBefore, target, j)
    decreases |items| - from
  {
    if from < |items| && InternalBefore(items[from].key, target) {
      j := FirstExists(items, target, from + 1);
    } else {
      j := from;
    }
  }

  /* ---- what an answer means ---- */

  ghost predicate SortedPairs(pairs: seq<Pair>) {
    forall p, q :: 0 <= p < q < |pairs| ==> InternalBefore(pairs[p].key, pairs[q].key)
  }

  // Visible at a snapshot: an entry for a user key with a tag at most that of the lookup.
  ghost predicate Visible(pair: Pair, target: Key) {
    UserPart(pair.key) == UserPart(target) && TagPart(pair.key) <= TagPart(target)
  }

  // An answer for the user key is the newest visible entry; any other answer means that
  // there is none.
  ghost predicate TellsNewest(pairs: seq<Pair>, target: Key, r: Option<Pair>) {
    if r.Some? && UserPart(r.value.key) == UserPart(target) then
      && r.value in pairs && Visible(r.value, target)
      && forall q :: 0 <= q < |pairs| && Visible(pairs[q], target) ==> TagPart(pairs[q].key) <= TagPart(r.value.key)
    else forall q :: 0 <= q < |pairs| ==> !Visible(pairs[q], target)
  }

  lemma AnswerIsNewest(pairs: seq<Pair>, target: Key, r: Option<Pair>)
    requires SortedPairs(pairs) && Answers(pairs, target, r)
    ensures TellsNewest(pairs, target, r)
  {
    var p := FirstOf(pairs, target, 0);
    if r.Some? {
      var p': nat :| IsFirst(pairs, target, p') && p' < |pairs| && r.value == pairs[p'];
      FirstUnique(pairs, target, p, p');
    }
    forall q | 0 <= q < |pairs| && Visible(pairs[q], target)
      ensures p < |pairs| && UserPart(pairs[p].key) == UserPart(target) && TagPart(pairs[q].key) <= TagPart(pairs[p].key)
    {
      VisibleAfterFirst(pairs, target, p, q);
    }
    if p < |pairs| && UserPart(pairs[p].key) == UserPart(target) {
      BeforeIrreflexive(UserPart(target));
    }
  }

  lemma VisibleAfterFirst(pairs: seq<Pair>, target: Key, p: nat, q: nat)
    requires SortedPairs(pairs) && IsFirst(pairs, target, p) && q < |pairs| && Visible(pairs[q], target)
    ensures p <= q && UserPart(pairs[p].key) == UserPart(target) && TagPart(pairs[q].key) <= TagPart(pairs[p].key)
  {
    BeforeIrreflexive(UserPart(target));
  }

  lemma {:induction false} FirstOf(pairs: seq<Pair>, target: Key, from: nat) returns (p: nat)
    requires from <= |pairs| && EarlierBefore(pairs, target, from)
    ensures IsFirst(pairs, target, p)
    decreases |pairs| - from
  {
    if from < |pairs| && InternalBefore(pairs[from].key, target) {
      p := FirstOf(pairs, target, from + 1);
    } else {
      p := from;
    }
  }
}
