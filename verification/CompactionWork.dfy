/**
 The merge loop of a compaction (db/db_impl.cc:878-1036) with its base-level cursor
 and output splitting (db/version_set.cc:1533-1576).
 */
module CompactionWork {
  import opened Keys
  import opened Tables
  import opened Selection
  import opened OutputCutting

  // No level below the compaction's output has a file whose range holds the user key.
  ghost predicate BaseLevel(v: Version, level: nat, k: UserKey) {
    forall l, f :: level + 2 <= l < NUM_LEVELS && f in v[l] ==> !(Smallest(f).user <= k <= Largest(f).user)
  }

  ghost predicate DeepLevelsOk(v: Version, level: nat) {
    forall l :: level + 2 <= l < NUM_LEVELS ==> Disjoint(v[l])
  }

  // Rule (A) of the merge loop: a newer entry for the key is already at or below the
  // oldest snapshot.
  predicate Hidden(input: seq<Entry>, i: nat, snapshot: nat)
    requires i < |input|
  {
    i > 0 && input[i - 1].key == input[i].key && input[i - 1].sn <= snapshot
  }

  // The other rule: a deletion marker with nothing below it to delete.
  ghost predicate Obsolete(v: Version, level: nat, e: Entry, snapshot: nat) {
    e.kind.Deletion? && e.sn <= snapshot && BaseLevel(v, level, e.key)
  }

  ghost predicate Dropped(v: Version, level: nat, input: seq<Entry>, i: nat, snapshot: nat)
    requires i < |input|
  {
    Hidden(input, i, snapshot) || Obsolete(v, level, input[i], snapshot)
  }

  ghost function Kept(v: Version, level: nat, input: seq<Entry>, n: nat, snapshot: nat): seq<Entry>
    requires n <= |input|
  {
    if n == 0 then []
    else Kept(v, level, input, n - 1, snapshot) + if Dropped(v, level, input, n - 1, snapshot) then [] else [input[n - 1]]
  }

  function Concat(files: seq<File>): seq<Entry> {
    if files == [] then [] else Concat(files[..|files| - 1]) + files[|files| - 1].entries
  }

  lemma ConcatPush(files: seq<File>, f: File)
    ensures Concat(files + [f]) == Concat(files) + f.entries
  {
    assert (files + [f])[..|files|] == files;
  }

  // Everything before the cursor ends before the last key asked about.
  ghost predicate Passed(files: seq<File>, ptr: nat, asked: Option<UserKey>) {
    ptr <= |files| && forall i :: 0 <= i < ptr ==> asked.Some? && Largest(files[i]).user < asked.value
  }

  class Compaction {
    const level: nat
    const version: Version
    const grandparents: seq<File>
    const maxFileSize: nat
    // Where each deeper level's search stands; it only moves forward.
    var levelPtrs: seq<nat>
    var grandparentIndex: nat
    var seenKey: bool
    var overlappedBytes: nat
    // The last user key asked about.
    ghost var asked: Option<UserKey>

    ghost predicate Valid()
      reads this
    {
      && level + 1 < NUM_LEVELS && DeepLevelsOk(version, level)
      && grandparentIndex <= |grandparents|
      && |levelPtrs| == NUM_LEVELS
      && forall l :: level + 2 <= l < NUM_LEVELS ==> Passed(version[l], levelPtrs[l], asked)
    }

    constructor (level: nat, version: Version, grandparents: seq<File>, maxFileSize: nat)
      requires level + 1 < NUM_LEVELS && DeepLevelsOk(version, level)
      ensures Valid() && asked == None && !seenKey && overlappedBytes == 0 && grandparentIndex == 0
      ensures this.level == level && this.version == version && this.grandparents == grandparents && this.maxFileSize == maxFileSize
    {
      this.level, this.version, this.grandparents, this.maxFileSize := level, version, grandparents, maxFileSize;
      levelPtrs := seq(NUM_LEVELS, _ => 0);
      grandparentIndex, seenKey, overlappedBytes := 0, false, 0;
      asked := None;
    }

    // version_set.cc:1533: for keys asked in order, the cursor answers as a full scan would.
    method IsBaseLevelForKey(k: UserKey) returns (base: bool)
      requires Valid() && (asked.Some? ==> asked.value <= k)
      modifies this`levelPtrs, this`asked
      ensures Valid() && asked == Some(k)
      ensures base <==> BaseLevel(version, level, k)
    {
      asked := Some(k);
      var lvl := level + 2;
      while lvl < NUM_LEVELS
        invariant level + 2 <= lvl && Valid() && asked == Some(k)
        invariant forall l :: level + 2 <= l < lvl && l < NUM_LEVELS ==> !HoldsKey(version[l], k)
      {
        var files := version[lvl];
        while levelPtrs[lvl] < |files|
          invariant Valid() && asked == Some(k)
          decreases |files| - levelPtrs[lvl]
        {
          var f := files[levelPtrs[lvl]];
          if k <= Largest(f).user {
            if k >= Smallest(f).user {
              assert f in version[lvl];
              return false;
            }
            break;
          }
          levelPtrs := levelPtrs[lvl := levelPtrs[lvl] + 1];
        }
        CursorDecides(files, k, levelPtrs[lvl]);
        lvl := lvl + 1;
      }
      base := true;
    }

    // version_set.cc:1554
    method ShouldStopBefore(key: InternalKey) returns (stop: bool)
      requires Valid()
      modifies this`grandparentIndex, this`seenKey, this`overlappedBytes
      ensures Valid() && seenKey
      ensures old(grandparentIndex) <= grandparentIndex
      ensures overlappedBytes == if stop then 0
                                 else if old(seenKey) then old(overlappedBytes) + TotalFileSize(grandparents[old(grandparentIndex)..grandparentIndex])
                                 else old(overlappedBytes)
      ensures grandparentIndex < |grandparents| ==> !Less(Largest(grandparents[grandparentIndex]), key)
      ensures forall i :: old(grandparentIndex) <= i < grandparentIndex ==> Less(Largest(grandparents[i]), key)
      ensures stop <==> (if old(seenKey) then old(overlappedBytes) + TotalFileSize(grandparents[old(grandparentIndex)..grandparentIndex])
                         else old(overlappedBytes)) > MaxGrandParentOverlapBytes(maxFileSize)
    {
      while grandparentIndex < |grandparents| && Compare(key, Largest(grandparents[grandparentIndex])) > 0
        invariant Valid() && old(grandparentIndex) <= grandparentIndex
        invariant forall i :: old(grandparentIndex) <= i < grandparentIndex ==> Less(Largest(grandparents[i]), key)
        invariant seenKey == old(seenKey)
        invariant overlappedBytes == if seenKey then old(overlappedBytes) + TotalFileSize(grandparents[old(grandparentIndex)..grandparentIndex])
                                     else old(overlappedBytes)
        decreases |grandparents| - grandparentIndex
      {
        TotalFileSizePush(grandparents[old(grandparentIndex)..grandparentIndex], grandparents[grandparentIndex]);
        assert grandparents[old(grandparentIndex)..grandparentIndex + 1]
            == grandparents[old(grandparentIndex)..grandparentIndex] + [grandparents[grandparentIndex]];
        if seenKey {
          overlappedBytes := overlappedBytes + grandparents[grandparentIndex].size;
        }
        grandparentIndex := grandparentIndex + 1;
      }
      seenKey := true;
      if overlappedBytes > MaxGrandParentOverlapBytes(maxFileSize) {
        overlappedBytes := 0;
        stop := true;
      } else {
        stop := false;
      }
    }
  }

  ghost predicate HoldsKey(files: seq<File>, k: UserKey) {
    exists f :: f in files && Smallest(f).user <= k <= Largest(f).user
  }

  lemma CursorDecides(files: seq<File>, k: UserKey, ptr: nat)
    requires Disjoint(files) && ptr <= |files|
    requires forall i :: 0 <= i < ptr ==> Largest(files[i]).user < k
    requires ptr < |files| ==> k < Smallest(files[ptr]).user
    ensures !HoldsKey(files, k)
  {
    if HoldsKey(files, k) {
      var f :| f in files && Smallest(f).user <= k <= Largest(f).user;
      var m :| 0 <= m < |files| && files[m] == f;
      assert ptr <= m;
      DisjointOrder(files, ptr, m);
    }
  }

  lemma {:induction false} KeptSorted(v: Version, level: nat, input: seq<Entry>, n: nat, snapshot: nat)
    requires Sorted(input) && n <= |input|
    ensures Sorted(Kept(v, level, input, n, snapshot))
    ensures forall e :: e in Kept(v, level, input, n, snapshot) ==> e in input[..n]
  {
    if n > 0 {
      KeptSorted(v, level, input, n - 1, snapshot);
      var before := Kept(v, level, input, n - 1, snapshot);
      assert forall e :: e in before ==> e in input[..n - 1];
      assert input[..n] == input[..n - 1] + [input[n - 1]];
      forall e | e in before
        ensures Before(e, input[n - 1])
      {
        var i :| 0 <= i < n - 1 && input[..n - 1][i] == e;
      }
      if !Dropped(v, level, input, n - 1, snapshot) {
        SortedPush(before, input[n - 1]);
      }
    }
  }

  lemma SortedPush(es: seq<Entry>, e: Entry)
    requires Sorted(es) && forall x :: x in es ==> Before(x, e)
    ensures Sorted(es + [e])
  {
    forall i, j | 0 <= i < j < |es + [e]|
      ensures Before((es + [e])[i], (es + [e])[j])
    {
      assert es[i] in es;
    }
  }

  lemma PrefixWithout(input: seq<Entry>, i: nat)
    requires Sorted(input) && i < |input|
    ensures input[i] !in input[..i]
  {
    forall j | 0 <= j < i
      ensures input[..i][j] != input[i]
    {
      assert Before(input[j], input[i]);
    }
  }

  // Which entries survive, by their place in the input.
  lemma {:induction false} KeptMember(v: Version, level: nat, input: seq<Entry>, n: nat, snapshot: nat, i: nat)
    requires Sorted(input) && i < n <= |input|
    ensures input[i] in Kept(v, level, input, n, snapshot) <==> !Dropped(v, level, input, i, snapshot)
  {
    if i == n - 1 {
      KeptSorted(v, level, input, i, snapshot);
      PrefixWithout(input, i);
    } else {
      KeptMember(v, level, input, n - 1, snapshot, i);
      assert Before(input[i], input[n - 1]);
    }
  }

  /* ---- stops ---- */

  lemma {:induction false} TotalJoin(a: seq<File>, b: seq<File>)
    ensures TotalFileSize(a + b) == TotalFileSize(a) + TotalFileSize(b)
  {
    if a == [] {
      assert a + b == b;
    } else {
      TotalJoin(a[1..], b);
      assert (a + b)[1..] == a[1..] + b;
    }
  }

  lemma LessTrans(a: InternalKey, b: InternalKey, c: InternalKey)
    requires Less(a, b) && Less(b, c)
    ensures Less(a, c)
  {
  }

  // The cursor through the grandparents goes on to where it should be for the next key.
  lemma CursorGoesOn(files: seq<File>, lo: InternalKey, hi: InternalKey, n: nat)
    requires Less(lo, hi) && EndingBefore(files, lo) <= n <= |files|
    requires forall i :: EndingBefore(files, lo) <= i < n ==> Less(Largest(files[i]), hi)
    requires n < |files| ==> !Less(Largest(files[n]), hi)
    ensures n == EndingBefore(files, hi)
  {
    forall i | 0 <= i < EndingBefore(files, lo)
      ensures Less(Largest(files[i]), hi)
    {
      LessTrans(Largest(files[i]), lo, hi);
    }
    EndingIs(files, hi, n);
  }

  lemma EndingGrows(files: seq<File>, lo: InternalKey, hi: InternalKey)
    requires Less(lo, hi) || lo == hi
    ensures EndingBefore(files, lo) <= EndingBefore(files, hi)
  {
    var n := EndingBefore(files, hi);
    if n < EndingBefore(files, lo) && lo != hi {
      LessTrans(Largest(files[n]), lo, hi);
    }
  }

  lemma BytesAdd(files: seq<File>, a: InternalKey, b: InternalKey, c: InternalKey)
    requires (Less(a, b) || a == b) && Less(b, c)
    ensures EndingBefore(files, b) <= EndingBefore(files, c)
    ensures BytesBetween(files, a, c) == BytesBetween(files, a, b) + TotalFileSize(files[EndingBefore(files, b)..EndingBefore(files, c)])
  {
    EndingGrows(files, a, b);
    EndingGrows(files, b, c);
    var i, j, k := EndingBefore(files, a), EndingBefore(files, b), EndingBefore(files, c);
    assert files[i..j] + files[j..k] == files[i..k];
    TotalJoin(files[i..j], files[j..k]);
  }

  // The cursor has seen the first i entries and knows of the stops among them.
  ghost predicate Seen(c: Compaction, input: seq<Entry>, stops: seq<nat>, i: nat)
    requires i <= |input|
    reads c`grandparentIndex, c`seenKey, c`overlappedBytes
  {
    if i == 0 then !c.seenKey && c.grandparentIndex == 0 && c.overlappedBytes == 0 && stops == []
    else
      && c.seenKey && c.grandparentIndex == EndingBefore(c.grandparents, input[i - 1].Ik())
      && Since(stops, |stops|) < i
      && c.overlappedBytes == BytesBetween(c.grandparents, input[Since(stops, |stops|)].Ik(), input[i - 1].Ik())
  }

  // db_impl.cc:918: whether output stops before entry i.
  method CheckStop(c: Compaction, ghost r: Rule, input: seq<Entry>, i: nat, ghost stops: seq<nat>) returns (stop: bool, ghost stops': seq<nat>)
    requires c.Valid() && r.grandparents == c.grandparents && r.maxFileSize == c.maxFileSize
    requires i < |input| && Sorted(input) && StopsAre(r, input, stops, i) && InRange(input, stops) && Seen(c, input, stops, i)
    modifies c`grandparentIndex, c`seenKey, c`overlappedBytes
    ensures c.Valid() && stops' == (if stop then stops + [i] else stops) && InRange(input, stops')
    ensures StopsAre(r, input, stops', i + 1) && Seen(c, input, stops', i + 1)
  {
    hide StopsAre, Sorted, BytesBetween, EndingBefore, TotalFileSize, Disjoint, TablesValid, DeepLevelsOk, Passed;
    var key := input[i].Ik();
    stop := c.ShouldStopBefore(key);
    stops' := if stop then stops + [i] else stops;
    NothingBetween(r, input, i);
    if i == 0 {
      CursorStarts(c.grandparents, key, c.grandparentIndex);
      NoStopHere(r, input, stops, i);
    } else {
      ghost var last, since := input[i - 1].Ik(), input[Since(stops, |stops|)].Ik();
      SortedKeys(input, i, Since(stops, |stops|));
      CursorGoesOn(c.grandparents, last, key, c.grandparentIndex);
      BytesAdd(c.grandparents, since, last, key);
      if stop {
        StopHere(r, input, stops, i);
      } else {
        NoStopHere(r, input, stops, i);
      }
    }
    NoBytes(c.grandparents, key);
  }

  lemma NoBytes(files: seq<File>, key: InternalKey)
    ensures BytesBetween(files, key, key) == 0
  {
    var n := EndingBefore(files, key);
    assert files[n..n] == [];
  }

  lemma CursorStarts(files: seq<File>, key: InternalKey, n: nat)
    requires n <= |files| && (forall i :: 0 <= i < n ==> Less(Largest(files[i]), key))
    requires n < |files| ==> !Less(Largest(files[n]), key)
    ensures n == EndingBefore(files, key)
  {
    EndingIs(files, key, n);
  }

  lemma SortedKeys(input: seq<Entry>, i: nat, s: nat)
    requires Sorted(input) && s < i < |input|
    ensures Less(input[i - 1].Ik(), input[i].Ik())
    ensures Less(input[s].Ik(), input[i - 1].Ik()) || input[s].Ik() == input[i - 1].Ik()
  {
    assert Before(input[i - 1], input[i]);
    if s < i - 1 {
      assert Before(input[s], input[i - 1]);
    }
  }

  /* ---- writing ---- */

  // Output files carry the numbers they were given, in order.
  ghost predicate Numbered(outputs: seq<File>, number: nat -> nat) {
    forall i :: 0 <= i < |outputs| ==> outputs[i].number == number(i)
  }

  // The two drop rules (db_impl.cc:937-962); the caller's cursor sits before entry i.
  method DecideDrop(c: Compaction, input: seq<Entry>, i: nat, lastSequenceForKey: nat, snapshot: nat) returns (drop: bool)
    requires c.Valid() && i < |input| && snapshot < MAX_SEQUENCE
    requires c.asked.Some? ==> c.asked.value <= input[i].key
    requires lastSequenceForKey == if i > 0 && input[i - 1].key == input[i].key then input[i - 1].sn else MAX_SEQUENCE
    modifies c`levelPtrs, c`asked
    ensures c.Valid() && (c.asked.Some? ==> c.asked.value <= input[i].key)
    ensures drop <==> Dropped(c.version, c.level, input, i, snapshot)
  {
    drop := false;
    if lastSequenceForKey <= snapshot {
      drop := true;
    } else if input[i].kind.Deletion? && input[i].sn <= snapshot {
      drop := c.IsBaseLevelForKey(input[i].key);
    }
  }

  // db_impl.cc:811, with the number given out at db_impl.cc:786.
  method FinishOutputFile(outputs: seq<File>, builder: seq<Entry>, number: nat -> nat, sizeOf: seq<Entry> -> nat) returns (r: seq<File>, ghost f: File)
    requires builder != [] && Numbered(outputs, number)
    ensures r == outputs + [f] && f.entries == builder && f.size == sizeOf(builder)
    ensures Concat(r) + [] == Concat(outputs) + builder && Numbered(r, number)
  {
    var file: File := TableFile(number(|outputs|), sizeOf(builder), builder);
    ConcatPush(outputs, file);
    r, f := outputs + [file], file;
  }

  // Whatever has been written comes before the entries still to be read.
  lemma KeptBehind(v: Version, level: nat, input: seq<Entry>, snapshot: nat, i: nat, outputs: seq<File>, builder: seq<Entry>)
    requires Sorted(input) && i < |input| && Concat(outputs) + builder == Kept(v, level, input, i, snapshot)
    ensures Behind(input, i, outputs, builder)
  {
    hide Dropped;
    KeptSorted(v, level, input, i, snapshot);
    var kept := Kept(v, level, input, i, snapshot);
    forall e | e in kept
      ensures Before(e, input[i])
    {
      var j :| 0 <= j < i && input[..i][j] == e;
    }
    forall f | f in outputs
      ensures Before(f.entries[|f.entries| - 1], input[i])
    {
      ConcatHolds(outputs, f);
      assert f.entries[|f.entries| - 1] in kept;
    }
    if builder != [] {
      assert kept[|kept| - 1] == builder[|builder| - 1];
    }
  }

  lemma {:induction false} ConcatHolds(files: seq<File>, f: File)
    requires f in files
    ensures forall e :: e in f.entries ==> e in Concat(files)
  {
    if f != files[|files| - 1] {
      ConcatHolds(files[..|files| - 1], f);
    }
  }

  // db_impl.cc:918: the open file is finished if output stops before entry i.
  method StopOutput(c: Compaction, ghost r: Rule, input: seq<Entry>, i: nat, ghost stops: seq<nat>, outputs: seq<File>, builder: seq<Entry>,
                    ghost snapshot: nat, number: nat -> nat, sizeOf: seq<Entry> -> nat)
    returns (outputs': seq<File>, builder': seq<Entry>, ghost stops': seq<nat>)
    requires c.Valid() && r == Rule(c.grandparents, c.maxFileSize, sizeOf) && Numbered(outputs, number)
    requires i < |input| && Sorted(input) && StopsAre(r, input, stops, i) && InRange(input, stops) && Seen(c, input, stops, i)
    requires Writing(r, input, stops, outputs, builder) && Concat(outputs) + builder == Kept(c.version, c.level, input, i, snapshot)
    modifies c`grandparentIndex, c`seenKey, c`overlappedBytes
    ensures c.Valid() && Numbered(outputs', number)
    ensures InRange(input, stops') && StopsAre(r, input, stops', i + 1) && Seen(c, input, stops', i + 1)
    ensures Writing(r, input, stops', outputs', builder') && Concat(outputs') + builder' == Concat(outputs) + builder
  {
    hide StopsAre, Sorted, Seen, Writing, Kept, Concat, DeepLevelsOk, Passed;
    KeptBehind(c.version, c.level, input, snapshot, i, outputs, builder);
    outputs', builder' := outputs, builder;
    var stop;
    stop, stops' := CheckStop(c, r, input, i, stops);
    if stop {
      ghost var f: File := TableFile(0, sizeOf([input[i]]), [input[i]]);
      if builder != [] {
        outputs', f := FinishOutputFile(outputs, builder, number, sizeOf);
        builder' := [];
      }
      StopCloses(r, input, stops, i, outputs, builder, f);
    }
  }

  // db_impl.cc:974: add an entry, and close the output file if it is big enough.
  method AddToOutput(ghost r: Rule, ghost input: seq<Entry>, ghost stops: seq<nat>, outputs: seq<File>, builder: seq<Entry>, e: Entry, maxFileSize: nat,
                     number: nat -> nat, sizeOf: seq<Entry> -> nat)
    returns (outputs': seq<File>, builder': seq<Entry>)
    requires Numbered(outputs, number) && r.maxFileSize == maxFileSize && r.sizeOf == sizeOf
    requires InRange(input, stops) && Writing(r, input, stops, outputs, builder)
    requires forall k :: 0 <= k < |stops| ==> !Before(e, input[stops[k]])
    ensures Concat(outputs') + builder' == Concat(outputs) + builder + [e] && Numbered(outputs', number)
    ensures Writing(r, input, stops, outputs', builder')
  {
    hide Writing, Concat, FilesCut, StaysSmall, EndsFor, AvoidsStop, Before;
    EntryAdded(r, input, stops, outputs, builder, e);
    assert Concat(outputs) + (builder + [e]) == Concat(outputs) + builder + [e];
    outputs', builder' := outputs, builder + [e];
    if sizeOf(builder') >= maxFileSize {
      ghost var f;
      outputs', f := FinishOutputFile(outputs, builder', number, sizeOf);
      FullCloses(r, input, stops, outputs, f);
      builder' := [];
    }
  }

  lemma BehindStops(r: Rule, input: seq<Entry>, stops: seq<nat>, i: nat)
    requires Sorted(input) && i < |input| && InRange(input, stops) && StopsAre(r, input, stops, i + 1)
    ensures forall k :: 0 <= k < |stops| ==> !Before(input[i], input[stops[k]])
  {
    forall k | 0 <= k < |stops|
      ensures !Before(input[i], input[stops[k]])
    {
      assert IsStop(r, input, stops, i + 1, k);
      if stops[k] < i {
        assert Before(input[stops[k]], input[i]);
      }
    }
  }

  // db_impl.cc:878. The input is the merged sequence of MakeInputIterator; sizeOf is the
  // table builder's size estimate and number(i) the i-th file number allocated. How the kept
  // entries are cut into files depends on sizes only, and may separate entries of one key.
  method DoCompactionWork(c: Compaction, input: seq<Entry>, snapshot: nat, number: nat -> nat, sizeOf: seq<Entry> -> nat)
    returns (outputs: seq<File>)
    requires c.Valid() && c.asked.None? && !c.seenKey && c.grandparentIndex == 0 && c.overlappedBytes == 0
    requires Sorted(input) && snapshot < MAX_SEQUENCE
    modifies c
    ensures Concat(outputs) == Kept(c.version, c.level, input, |input|, snapshot)
    ensures Numbered(outputs, number) && CutAsDue(Rule(c.grandparents, c.maxFileSize, sizeOf), input, outputs)
  {
    hide StopsAre, Writing, Numbered, Sorted, DeepLevelsOk, Passed, Dropped, Seen, Concat, Kept, CutAsDue, FilesCut;
    ghost var r, stops: seq<nat> := Rule(c.grandparents, c.maxFileSize, sizeOf), [];
    NothingStops(r, input);
    NothingYet(c, input, snapshot, number);
    outputs := [];
    var builder: seq<Entry> := [];
    var currentUserKey: Option<UserKey> := None;
    var lastSequenceForKey := MAX_SEQUENCE;
    var i := 0;
    while i < |input|
      invariant i <= |input| && c.Valid()
      invariant Numbered(outputs, number)
      invariant InRange(input, stops) && StopsAre(r, input, stops, i) && Seen(c, input, stops, i) && Writing(r, input, stops, outputs, builder)
      invariant Concat(outputs) + builder == Kept(c.version, c.level, input, i, snapshot)
      invariant currentUserKey == if i == 0 then None else Some(input[i - 1].key)
      invariant i > 0 ==> lastSequenceForKey == input[i - 1].sn
      invariant c.asked.Some? ==> i > 0 && c.asked.value <= input[i - 1].key
    {
      var e := input[i];
      KeysAscend(input, i);
      outputs, builder, stops := StopOutput(c, r, input, i, stops, outputs, builder, snapshot, number, sizeOf);
      if currentUserKey != Some(e.key) {
        currentUserKey := Some(e.key);
        lastSequenceForKey := MAX_SEQUENCE;
      }
      var drop := DecideDrop(c, input, i, lastSequenceForKey, snapshot);
      lastSequenceForKey := e.sn;
      if !drop {
        BehindStops(r, input, stops, i);
        outputs, builder := AddToOutput(r, input, stops, outputs, builder, e, c.maxFileSize, number, sizeOf);
      }
      KeptNext(c.version, c.level, input, snapshot, i);
      i := i + 1;
    }
    ghost var f: File := TableFile(0, sizeOf([Entry(0, 0, Deletion)]), [Entry(0, 0, Deletion)]);
    ghost var before, last := outputs, builder;
    AppendNothing(Concat(outputs));
    if builder != [] {
      outputs, f := FinishOutputFile(outputs, builder, number, sizeOf);
      AppendNothing(Concat(outputs));
    }
    LastCloses(r, input, stops, before, last, f);
    AllCut(r, input, stops, outputs);
  }

  lemma NothingYet(c: Compaction, input: seq<Entry>, snapshot: nat, number: nat -> nat)
    requires !c.seenKey && c.grandparentIndex == 0 && c.overlappedBytes == 0
    ensures Seen(c, input, [], 0) && Numbered([], number)
    ensures Concat([]) + [] == Kept(c.version, c.level, input, 0, snapshot)
  {
  }

  lemma KeptNext(v: Version, level: nat, input: seq<Entry>, snapshot: nat, i: nat)
    requires i < |input|
    ensures Kept(v, level, input, i + 1, snapshot)
         == if Dropped(v, level, input, i, snapshot) then Kept(v, level, input, i, snapshot) else Kept(v, level, input, i, snapshot) + [input[i]]
  {
    hide Dropped;
    AppendNothing(Kept(v, level, input, i, snapshot));
  }

  lemma AllCut(r: Rule, input: seq<Entry>, stops: seq<nat>, files: seq<File>)
    requires StopsAre(r, input, stops, |input|) && InRange(input, stops) && FilesCut(r, input, stops, files)
    ensures CutAsDue(r, input, files)
  {
  }

  lemma KeysAscend(input: seq<Entry>, i: nat)
    requires Sorted(input) && i < |input|
    ensures i > 0 ==> input[i - 1].key <= input[i].key
  {
    assert i > 0 ==> Before(input[i - 1], input[i]);
  }
}
