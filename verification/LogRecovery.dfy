/**
 Replaying log files when a database is opened (DBImpl::Recover and RecoverLogFile in
 db/db_impl.cc): every record is a write batch; its operations go into a memtable, and a
 memtable that is full, or left over at the end, becomes a table.
 */
module LogRecovery {
  import opened Keys
  import opened Coding
  import L = Log
  import W = WriteBatches

  // An operation with its sequence number.
  datatype Numbered = Numbered(sn: nat, op: W.BatchOp)

  // full says when the memory a memtable takes exceeds the write buffer.
  datatype Options = Options(paranoid: bool, full: seq<Numbered> -> bool)

  // write_batch.cc:121
  function NumberOps(first: nat, ops: seq<W.BatchOp>): seq<Numbered> {
    seq(|ops|, i requires 0 <= i < |ops| => Numbered((first + i) % TWO64, ops[i]))
  }

  function Flat(tables: seq<seq<Numbered>>): seq<Numbered> {
    if tables == [] then [] else Flat(tables[..|tables| - 1]) + tables[|tables| - 1]
  }

  // Within a log file; ok is false once an error stops the recovery.
  datatype Progress = Progress(tables: seq<seq<Numbered>>, mem: seq<Numbered>, maxSequence: nat, ok: bool) {
    function All(): seq<Numbered> {
      Flat(tables) + mem
    }

    // db_impl.cc:479: what is left in the memtable becomes a table.
    function Tables(): seq<seq<Numbered>> {
      if mem == [] then tables else tables + [mem]
    }
  }

  function Max(a: nat, b: nat): nat {
    if a < b then b else a
  }

  // db_impl.cc:435: the number of the last operation, as a word.
  function LastNumber(record: seq<Byte>): nat
    requires |record| >= W.HEADER
  {
    (W.Sequence(record) + W.Count(record) - 1) % TWO64
  }

  // db_impl.cc:418: what one record does.
  function Apply(p: Progress, record: seq<Byte>, o: Options): Progress {
    if |record| < W.HEADER then p.(ok := p.ok && !o.paranoid)
    else
      var batch := W.Iterated(record);
      var mem := p.mem + NumberOps(W.Sequence(record), batch.ops);
      if batch.error != "" && o.paranoid then p.(mem := mem, ok := false)
      else
        var q := p.(maxSequence := Max(p.maxSequence, LastNumber(record)));
        if o.full(mem) then q.(tables := p.tables + [mem], mem := []) else q.(mem := mem)
  }

  // The records one after another; under paranoid checks a dropped part of the file is an error.
  function Replayed(r: L.State, p: Progress, o: Options): Progress
    decreases |r.buffer| + |r.rest|
  {
    var next := L.ReadLogical(r, false, []);
    var ok := p.ok && !(o.paranoid && next.state.drops > r.drops);
    if next.record.None? || !ok then p.(ok := ok) else Replayed(next.state, Apply(p, next.record.value, o), o)
  }

  function Begin(maxSequence: nat): Progress {
    Progress([], [], maxSequence, true)
  }

  // An error has the same end, whatever else is read.
  lemma {:induction false} StaysFailed(r: L.State, p: Progress, o: Options)
    requires !p.ok
    ensures Replayed(r, p, o) == p
  {
    hide L.ReadLogical;
    assert p.(ok := false) == p;
  }

  // db_impl.cc:371
  method RecoverLogFile(file: seq<Byte>, maxBefore: nat, o: Options) returns (tables: seq<seq<Numbered>>, maxSequence: nat, ok: bool)
    ensures var p := Replayed(L.Opened(file), Begin(maxBefore), o);
            ok == p.ok && maxSequence == p.maxSequence && (ok ==> tables == p.Tables())
  {
    hide L.ReadLogical, W.Iterated, NumberOps;
    var reader := new L.Reader(file);
    var mem: seq<Numbered> := [];
    tables, maxSequence, ok := [], maxBefore, true;
    while true
      invariant fresh(reader)
      invariant Replayed(L.Opened(file), Begin(maxBefore), o) == Replayed(reader.Abs(), Progress(tables, mem, maxSequence, ok), o)
      decreases |reader.buffer| + |reader.rest|
    {
      var drops := reader.drops;
      var record := reader.ReadRecord();
      if o.paranoid && reader.drops > drops {
        ok := false;
      }
      if record.None? || !ok {
        break;
      }
      if |record.value| < W.HEADER {
        ok := !o.paranoid;
        continue;
      }
      var batch := new W.WriteBatch.SetContents(record.value);
      var ops, error := batch.Iterate();
      mem := mem + NumberOps(W.Sequence(batch.rep), ops);
      if error != "" && o.paranoid {
        ok := false;
        StaysFailed(reader.Abs(), Progress(tables, mem, maxSequence, ok), o);
        break;
      }
      var last := LastNumber(batch.rep);
      if last > maxSequence {
        maxSequence := last;
      }
      if o.full(mem) {
        tables, mem := tables + [mem], [];
      }
    }
    if mem != [] && ok {
      tables := tables + [mem];
    }
  }

  datatype Recovery = Recovery(tables: seq<seq<Numbered>>, maxSequence: nat, ok: bool)

  // Log files in the order of their numbers, until one fails.
  function Recovered(files: seq<seq<Byte>>, o: Options): Recovery {
    if files == [] then Recovery([], 0, true)
    else
      var before := Recovered(files[..|files| - 1], o);
      if !before.ok then before
      else
        var p := Replayed(L.Opened(files[|files| - 1]), Begin(before.maxSequence), o);
        Recovery(if p.ok then before.tables + p.Tables() else before.tables, p.maxSequence, p.ok)
  }

  lemma {:induction false} StopsAtFailure(files: seq<seq<Byte>>, i: nat, o: Options)
    requires i <= |files| && !Recovered(files[..i], o).ok
    ensures Recovered(files, o) == Recovered(files[..i], o)
    decreases |files|
  {
    hide Replayed;
    if i == |files| {
      assert files[..i] == files;
    } else {
      assert files[..|files| - 1][..i] == files[..i];
      StopsAtFailure(files[..|files| - 1], i, o);
    }
  }

  // db_impl.cc:351
  method Recover(files: seq<seq<Byte>>, o: Options) returns (r: Recovery)
    ensures r == Recovered(files, o)
  {
    r := Recovery([], 0, true);
    for i := 0 to |files|
      invariant r.ok && r == Recovered(files[..i], o)
    {
      hide Replayed;
      assert files[..i + 1][..i] == files[..i];
      var tables, maxSequence, ok := RecoverLogFile(files[i], r.maxSequence, o);
      r := Recovery(if ok then r.tables + tables else r.tables, maxSequence, ok);
      if !ok {
        StopsAtFailure(files, i + 1, o);
        return;
      }
    }
    assert files[..|files|] == files;
  }

  /* ---- batches that are whole ---- */

  lemma WholeBatch(first: nat, ops: seq<W.BatchOp>)
    requires 1 <= first && first + |ops| < TWO64 && |ops| < W.TWO31 && W.AllSmall(ops)
    ensures var record := W.Contents(first, ops);
            && W.Iterated(record) == W.Scan(ops, "") && W.Sequence(record) == first
            && LastNumber(record) == first + |ops| - 1
  {
    hide W.Contents, W.Iterated, W.Sequence, W.Count, W.AllSmall;
    W.RoundTrip(first, ops);
    W.HeaderReads(first, ops);
    var last := first + |ops| - 1;
    assert last % TWO64 == last;
  }

  // A record that a batch was written as puts the batch's operations after what there is.
  lemma AppliesBatch(p: Progress, first: nat, ops: seq<W.BatchOp>, o: Options)
    requires p.ok && 1 <= first && first + |ops| < TWO64 && |ops| < W.TWO31 && W.AllSmall(ops)
    ensures var q := Apply(p, W.Contents(first, ops), o);
            && q.ok && q.All() == p.All() + NumberOps(first, ops)
            && q.maxSequence == Max(p.maxSequence, first + |ops| - 1)
  {
    hide W.Contents, W.Iterated, W.Sequence, LastNumber, W.AllSmall, NumberOps, Flat;
    WholeBatch(first, ops);
    var mem := p.mem + NumberOps(first, ops);
    W.Joined(Flat(p.tables), p.mem, NumberOps(first, ops));
    FlatPush(p.tables, mem);
    AppendNothing(Flat(p.tables) + mem);
  }

  lemma FlatPush(tables: seq<seq<Numbered>>, mem: seq<Numbered>)
    ensures Flat(tables + [mem]) == Flat(tables) + mem
  {
    assert (tables + [mem])[..|tables|] == tables;
  }

  lemma {:induction false} FlatJoin(a: seq<seq<Numbered>>, b: seq<seq<Numbered>>)
    ensures Flat(a + b) == Flat(a) + Flat(b)
  {
    if b == [] {
      AppendNothing(a);
      AppendNothing(Flat(a));
    } else {
      var n := |b| - 1;
      FlatJoin(a, b[..n]);
      assert a + b == a + b[..n] + [b[n]];
      FlatPush(a + b[..n], b[n]);
      W.Joined(Flat(a), Flat(b[..n]), b[n]);
    }
  }

  lemma TablesHoldAll(p: Progress)
    ensures Flat(p.Tables()) == p.All()
  {
    if p.mem == [] {
      AppendNothing(Flat(p.tables));
    } else {
      FlatPush(p.tables, p.mem);
    }
  }
}
