/**
 What recovering log files promises on any bytes (db/db_impl.cc:371): when it fails, what it
 takes out of the records it reads, the greatest number it finds, and where it starts a new
 table.
 */
module RecoveryChecks {
  import opened Keys
  import opened Coding
  import opened LogRecovery
  import L = Log
  import W = WriteBatches

  // A record that is a whole batch.
  predicate Good(record: seq<Byte>) {
    |record| >= W.HEADER && W.Iterated(record).error == ""
  }

  // One record applied after another.
  function After(p: Progress, records: seq<seq<Byte>>, o: Options): Progress {
    if records == [] then p else Apply(After(p, records[..|records| - 1], o), records[|records| - 1], o)
  }

  lemma AfterPush(p: Progress, records: seq<seq<Byte>>, record: seq<Byte>, o: Options)
    ensures After(p, records + [record], o) == Apply(After(p, records, o), record, o)
  {
    assert (records + [record])[..|records|] == records;
  }

  lemma AppliesOk(p: Progress, record: seq<Byte>, o: Options)
    requires p.ok
    ensures Apply(p, record, o).ok <==> !o.paranoid || Good(record)
  {
    hide W.Iterated, NumberOps;
  }

  // The records of what is left of a file, after those in hand.
  lemma {:induction false} ReplaysAll(r: L.State, begin: Progress, sofar: seq<seq<Byte>>, o: Options)
    requires After(begin, sofar, o).ok
    ensures var q := Replayed(r, After(begin, sofar, o), o);
            var (end, all) := L.ReadRecords(r, sofar);
            && sofar <= all
            && (q.ok <==> !o.paranoid || (end.drops == r.drops && forall i :: |sofar| <= i < |all| ==> Good(all[i])))
            && (q.ok ==> q == After(begin, all, o))
    decreases |r.buffer| + |r.rest|
  {
    hide L.ReadLogical, Good, Apply;
    var p := After(begin, sofar, o);
    var next := L.ReadLogical(r, false, []);
    L.LogicalDrops(r, false, []);
    L.RecordsDrops(r, sofar);
    if next.record.Some? {
      var record := next.record.value;
      var more := sofar + [record];
      L.RecordsDrops(next.state, more);
      AppliesOk(p, record, o);
      AfterPush(begin, sofar, record, o);
      var all := L.ReadRecords(r, sofar).1;
      assert all[|sofar|] == record by {
        assert more[|sofar|] == record;
      }
      if Apply(p, record, o).ok {
        ReplaysAll(next.state, begin, more, o);
      } else {
        StaysFailed(next.state, Apply(p, record, o), o);
      }
    } else {
      SameUnlessFailed(p);
    }
  }

  lemma SameUnlessFailed(p: Progress)
    requires p.ok
    ensures p.(ok := true) == p
  {
  }

  function RecordsIn(file: seq<Byte>): seq<seq<Byte>> {
    L.ReadRecords(L.Opened(file), []).1
  }

  // Nothing of the file had to be dropped, and every record is a whole batch.
  predicate Intact(file: seq<Byte>) {
    L.ReadRecords(L.Opened(file), []).0.drops == 0 && forall record :: record in RecordsIn(file) ==> Good(record)
  }

  // A log file is recovered, unless paranoid checks are asked for and it is damaged.
  lemma FileOkIff(file: seq<Byte>, before: nat, o: Options)
    ensures var q := Replayed(L.Opened(file), Begin(before), o);
            && (q.ok <==> !o.paranoid || Intact(file))
            && (q.ok ==> q == After(Begin(before), RecordsIn(file), o))
  {
    hide L.ReadRecords, Replayed, Good;
    ReplaysAll(L.Opened(file), Begin(before), [], o);
    InSeq(RecordsIn(file));
  }

  lemma InSeq(records: seq<seq<Byte>>)
    ensures (forall record :: record in records ==> Good(record)) <==> forall i :: 0 <= i < |records| ==> Good(records[i])
  {
    hide Good;
  }

  // The same for all files.
  lemma {:induction false} RecoversIff(files: seq<seq<Byte>>, o: Options)
    ensures Recovered(files, o).ok <==> !o.paranoid || forall file :: file in files ==> Intact(file)
  {
    hide Replayed, Intact;
    if files != [] {
      var n := |files| - 1;
      RecoversIff(files[..n], o);
      FileOkIff(files[n], Recovered(files[..n], o).maxSequence, o);
      assert files == files[..n] + [files[n]];
    }
  }

  /* ---- what is taken out of the records ---- */

  // The operations of a record with their numbers; a record too short for a batch has none.
  function Piece(record: seq<Byte>): seq<Numbered> {
    if |record| < W.HEADER then [] else NumberOps(W.Sequence(record), W.Iterated(record).ops)
  }

  function Pieces(records: seq<seq<Byte>>): seq<seq<Numbered>> {
    seq(|records|, i requires 0 <= i < |records| => Piece(records[i]))
  }

  // Every operation of every record is taken, in the order of the file.
  lemma {:induction false} TakesEverything(begin: Progress, records: seq<seq<Byte>>, o: Options)
    requires After(begin, records, o).ok
    ensures After(begin, records, o).All() == begin.All() + Flat(Pieces(records))
  {
    hide Piece, NumberOps;
    if records == [] {
      AppendNothing(begin.All());
    } else {
      var n := |records| - 1;
      var p := After(begin, records[..n], o);
      OkBefore(p, records[n], o);
      TakesEverything(begin, records[..n], o);
      AppliesPiece(p, records[n], o);
      PiecesPush(records);
      FlatPush(Pieces(records[..n]), Piece(records[n]));
      W.Joined(begin.All(), Flat(Pieces(records[..n])), Piece(records[n]));
    }
  }

  lemma OkBefore(p: Progress, record: seq<Byte>, o: Options)
    requires Apply(p, record, o).ok
    ensures p.ok
  {
    hide W.Iterated, NumberOps;
  }

  lemma PiecesPush(records: seq<seq<Byte>>)
    requires records != []
    ensures var n := |records| - 1; Pieces(records) == Pieces(records[..n]) + [Piece(records[n])]
  {
    hide Piece;
  }

  lemma AppliesPiece(p: Progress, record: seq<Byte>, o: Options)
    requires p.ok && Apply(p, record, o).ok
    ensures Apply(p, record, o).All() == p.All() + Piece(record)
  {
    hide NumberOps, W.Iterated, W.Sequence, LastNumber;
    var mem := p.mem + Piece(record);
    W.Joined(Flat(p.tables), p.mem, Piece(record));
    FlatPush(p.tables, mem);
    AppendNothing(p.All());
    AppendNothing(Flat(p.tables) + mem);
  }

  /* ---- the greatest number ---- */

  // No record has a greater number, and one of them has it, unless it was there before.
  lemma {:induction false} GreatestNumber(begin: Progress, records: seq<seq<Byte>>, o: Options)
    requires After(begin, records, o).ok
    ensures var m := After(begin, records, o).maxSequence;
            && m >= begin.maxSequence && (forall i :: 0 <= i < |records| && |records[i]| >= W.HEADER ==> LastNumber(records[i]) <= m)
            && (m == begin.maxSequence || exists i :: 0 <= i < |records| && |records[i]| >= W.HEADER && m == LastNumber(records[i]))
  {
    hide LastNumber, W.Iterated, NumberOps, W.Sequence;
    if records != [] {
      var n := |records| - 1;
      OkBefore(After(begin, records[..n], o), records[n], o);
      GreatestNumber(begin, records[..n], o);
      var before := After(begin, records[..n], o).maxSequence;
      if |records[n]| >= W.HEADER && LastNumber(records[n]) > before {
        assert After(begin, records, o).maxSequence == LastNumber(records[n]);
      } else {
        assert After(begin, records, o).maxSequence == before;
        if before != begin.maxSequence {
          var i :| 0 <= i < |records[..n]| && |records[..n][i]| >= W.HEADER && before == LastNumber(records[..n][i]);
          assert records[i] == records[..n][i];
        }
      }
      forall i | 0 <= i < |records| && |records[i]| >= W.HEADER
        ensures LastNumber(records[i]) <= After(begin, records, o).maxSequence
      {
        assert i < n ==> records[..n][i] == records[i];
      }
    }
  }

  /* ---- where tables are cut ---- */

  // The pieces of records that are long enough for a batch.
  function Batches(records: seq<seq<Byte>>): seq<seq<Numbered>> {
    if records == [] then []
    else
      var n := |records| - 1;
      Batches(records[..n]) + if |records[n]| < W.HEADER then [] else [Piece(records[n])]
  }

  // From is where a memtable was begun, to where it is now.
  ghost predicate NeverFull(pieces: seq<seq<Numbered>>, from: nat, to: nat, o: Options)
    requires to <= |pieces|
  {
    forall k :: from < k < to ==> !o.full(Flat(pieces[from..k]))
  }

  function StopBefore(stops: seq<nat>, i: nat): nat
    requires i <= |stops|
  {
    if i == 0 then 0 else stops[i - 1]
  }

  // Table i holds the batches between two stops: they fill it, and fewer would not.
  ghost predicate TableCut(pieces: seq<seq<Numbered>>, stops: seq<nat>, i: nat, table: seq<Numbered>, o: Options)
    requires i < |stops|
  {
    var from := StopBefore(stops, i);
    && from < stops[i] <= |pieces| && table == Flat(pieces[from..stops[i]])
    && o.full(table) && NeverFull(pieces, from, stops[i], o)
  }

  // The tables in turn, and a memtable with the batches after the last stop, which do not fill it.
  ghost predicate CutWhenFull(pieces: seq<seq<Numbered>>, stops: seq<nat>, p: Progress, o: Options) {
    && |stops| == |p.tables| && (forall i :: 0 <= i < |stops| ==> TableCut(pieces, stops, i, p.tables[i], o))
    && var from := StopBefore(stops, |stops|);
    && from <= |pieces| && p.mem == Flat(pieces[from..])
    && NeverFull(pieces, from, |pieces|, o) && (from < |pieces| ==> !o.full(p.mem))
  }

  lemma {:induction false} CutsWhenFull(before: nat, records: seq<seq<Byte>>, o: Options) returns (stops: seq<nat>)
    requires After(Begin(before), records, o).ok
    ensures CutWhenFull(Batches(records), stops, After(Begin(before), records, o), o)
  {
    hide Piece, LastNumber, W.Iterated, NumberOps, CutWhenFull;
    if records == [] {
      stops := [];
      NothingCut(before, o);
    } else {
      var n := |records| - 1;
      var p := After(Begin(before), records[..n], o);
      OkBefore(p, records[n], o);
      stops := CutsWhenFull(before, records[..n], o);
      var pieces, q := Batches(records[..n]), After(Begin(before), records, o);
      if |records[n]| < W.HEADER {
        assert pieces + [] == pieces;
        assert q == p;
      } else {
        BatchApplied(p, records[n], o);
        stops := CutNext(pieces, stops, p, q, Piece(records[n]), o);
      }
    }
  }

  lemma BatchApplied(p: Progress, record: seq<Byte>, o: Options)
    requires p.ok && |record| >= W.HEADER && Apply(p, record, o).ok
    ensures var q := Apply(p, record, o);
            var mem := p.mem + Piece(record);
            if o.full(mem) then q.tables == p.tables + [mem] && q.mem == [] else q.tables == p.tables && q.mem == mem
  {
    hide W.Iterated, NumberOps, LastNumber;
  }

  lemma NothingCut(before: nat, o: Options)
    ensures CutWhenFull([], [], Begin(before), o)
  {
  }

  lemma StillCut(pieces: seq<seq<Numbered>>, stops: seq<nat>, i: nat, table: seq<Numbered>, piece: seq<Numbered>, more: seq<nat>, o: Options)
    requires i < |stops| && TableCut(pieces, stops, i, table, o)
    ensures TableCut(pieces + [piece], stops + more, i, table, o)
  {
    hide Flat;
    var from, to := StopBefore(stops, i), stops[i];
    assert (pieces + [piece])[from..to] == pieces[from..to];
    forall k | from < k < to
      ensures !o.full(Flat((pieces + [piece])[from..k]))
    {
      assert (pieces + [piece])[from..k] == pieces[from..k];
    }
  }

  // A batch more.
  lemma CutNext(pieces: seq<seq<Numbered>>, stops: seq<nat>, p: Progress, q: Progress, piece: seq<Numbered>, o: Options) returns (more: seq<nat>)
    requires CutWhenFull(pieces, stops, p, o)
    requires var mem := p.mem + piece;
      if o.full(mem) then q.tables == p.tables + [mem] && q.mem == [] else q.tables == p.tables && q.mem == mem
    ensures CutWhenFull(pieces + [piece], more, q, o)
  {
    hide TableCut, Flat;
    var from, all := StopBefore(stops, |stops|), pieces + [piece];
    assert all[from..] == pieces[from..] + [piece];
    FlatPush(pieces[from..], piece);
    NeverFullNext(pieces, from, piece, o);
    more := if o.full(p.mem + piece) then stops + [|all|] else stops;
    assert stops + [] == stops;
    forall i | 0 <= i < |stops|
      ensures TableCut(all, more, i, q.tables[i], o)
    {
      StillCut(pieces, stops, i, p.tables[i], piece, more[|stops|..], o);
      assert more == stops + more[|stops|..];
    }
    if o.full(p.mem + piece) {
      assert all[from..|all|] == all[from..];
      assert TableCut(all, more, |stops|, p.mem + piece, o) by {
        CutHere(all, more, |stops|, o);
      }
      NothingLeft(all);
    }
  }

  lemma CutHere(all: seq<seq<Numbered>>, stops: seq<nat>, i: nat, o: Options)
    requires i < |stops| && stops[i] == |all| && StopBefore(stops, i) < |all|
    requires NeverFull(all, StopBefore(stops, i), |all|, o) && o.full(Flat(all[StopBefore(stops, i)..]))
    ensures TableCut(all, stops, i, Flat(all[StopBefore(stops, i)..]), o)
  {
    assert all[StopBefore(stops, i)..|all|] == all[StopBefore(stops, i)..];
  }

  lemma NothingLeft(all: seq<seq<Numbered>>)
    ensures Flat(all[|all|..]) == []
  {
  }

  lemma NeverFullNext(pieces: seq<seq<Numbered>>, from: nat, piece: seq<Numbered>, o: Options)
    requires from <= |pieces| && NeverFull(pieces, from, |pieces|, o)
    requires from < |pieces| ==> !o.full(Flat(pieces[from..]))
    ensures NeverFull(pieces + [piece], from, |pieces| + 1, o)
  {
    hide Flat;
    forall k | from < k < |pieces| + 1
      ensures !o.full(Flat((pieces + [piece])[from..k]))
    {
      assert (pieces + [piece])[from..k] == pieces[from..k];
      assert pieces[from..|pieces|] == pieces[from..];
    }
  }

  // Recovering a log file: it succeeds unless paranoid checks find damage; then the tables
  // hold every operation of every record, in order, and a new one is begun exactly when the
  // one before it is full.
  lemma FileRecovered(file: seq<Byte>, before: nat, o: Options) returns (stops: seq<nat>)
    ensures var q := Replayed(L.Opened(file), Begin(before), o);
            && (q.ok <==> !o.paranoid || Intact(file))
            && (q.ok ==> Flat(q.Tables()) == Flat(Pieces(RecordsIn(file))) && CutWhenFull(Batches(RecordsIn(file)), stops, q, o))
  {
    hide Replayed, Intact, RecordsIn, CutWhenFull, Pieces, Batches;
    FileOkIff(file, before, o);
    stops := [];
    var q := Replayed(L.Opened(file), Begin(before), o);
    if q.ok {
      stops := CutsWhenFull(before, RecordsIn(file), o);
      TakesEverything(Begin(before), RecordsIn(file), o);
      TablesHoldAll(q);
      NothingBefore(before, Flat(Pieces(RecordsIn(file))));
    }
  }

  lemma NothingBefore(before: nat, ops: seq<Numbered>)
    ensures Begin(before).All() + ops == ops
  {
  }
}
