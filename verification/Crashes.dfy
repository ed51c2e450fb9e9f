/**
 What a crash of the machine leaves of the log files that writers filled, and what opening
 the database again makes of it: group commit (GroupCommit), the bytes of batches and logs
 (WriteBatches, Log) and recovery (LogRecovery) together.
 */
module Crashes {
  import opened Keys
  import opened Coding
  import opened LogRecovery
  import G = GroupCommit
  import L = Log
  import S = Store
  import W = WriteBatches

  // How an operation is written as bytes.
  type Naming = S.Op -> W.BatchOp

  /* ---- records as bytes ---- */

  function OpBytes(ops: seq<S.Op>, bytes: Naming): (r: seq<W.BatchOp>)
    ensures |r| == |ops|
  {
    seq(|ops|, i requires 0 <= i < |ops| => bytes(ops[i]))
  }

  // Numbers, counts and lengths fit in their words.
  ghost predicate Writable(r: G.Record, bytes: Naming) {
    1 <= r.first && r.first + |r.ops| < TWO64 && |r.ops| < W.TWO31 && W.AllSmall(OpBytes(r.ops, bytes))
  }

  ghost predicate AllWritable(records: seq<G.Record>, bytes: Naming) {
    forall r :: r in records ==> Writable(r, bytes)
  }

  ghost function Encoding(r: G.Record, bytes: Naming): seq<Byte>
    requires Writable(r, bytes)
  {
    W.Contents(r.first, OpBytes(r.ops, bytes))
  }

  ghost function Encodings(records: seq<G.Record>, bytes: Naming): (r: seq<seq<Byte>>)
    requires AllWritable(records, bytes)
    ensures |r| == |records| && forall i :: 0 <= i < |records| ==> r[i] == Encoding(records[i], bytes)
  {
    if records == [] then [] else [Encoding(records[0], bytes)] + Encodings(records[1..], bytes)
  }

  // The bytes of a log file that holds some records.
  ghost function LogBytes(records: seq<G.Record>, bytes: Naming): seq<Byte>
    requires AllWritable(records, bytes)
  {
    L.LogOf(Encodings(records, bytes))
  }

  function Named(es: seq<Entry>, bytes: Naming): seq<Numbered> {
    seq(|es|, i requires 0 <= i < |es| => Numbered(es[i].sn, bytes(S.Op(es[i].key, es[i].kind))))
  }

  lemma NamedJoin(a: seq<Entry>, b: seq<Entry>, bytes: Naming)
    ensures Named(a + b, bytes) == Named(a, bytes) + Named(b, bytes)
  {
  }

  lemma NamedBatch(r: G.Record, bytes: Naming)
    requires Writable(r, bytes)
    ensures Named(S.BatchEntries(r.ops, r.first), bytes) == NumberOps(r.first, OpBytes(r.ops, bytes))
  {
    hide W.AllSmall, S.BatchEntries;
    G.BatchAt(r.ops, r.first);
    var named, numbered := Named(S.BatchEntries(r.ops, r.first), bytes), NumberOps(r.first, OpBytes(r.ops, bytes));
    forall i | 0 <= i < |r.ops|
      ensures named[i] == numbered[i]
    {
      assert (r.first + i) % TWO64 == r.first + i;
    }
  }

  lemma NumbersOf(es: seq<Entry>, bytes: Naming, i: nat)
    requires i < |es|
    ensures Named(es, bytes)[i].sn == es[i].sn
  {
  }

  /* ---- one log file ---- */

  function LastNumberOf(r: G.Record): nat {
    if r.first + |r.ops| == 0 then 0 else r.first + |r.ops| - 1
  }

  // The greatest of a number and the last numbers of some records.
  function Top(before: nat, records: seq<G.Record>): nat
    decreases |records|
  {
    if records == [] then before else Top(Max(before, LastNumberOf(records[0])), records[1..])
  }

  lemma EntriesFirst(records: seq<G.Record>)
    requires records != []
    ensures G.EntriesOf(records) == S.BatchEntries(records[0].ops, records[0].first) + G.EntriesOf(records[1..])
  {
    hide S.BatchEntries;
    G.EntriesJoin([records[0]], records[1..]);
    assert [records[0]] + records[1..] == records;
    G.EntriesPush([], records[0]);
    assert [] + [records[0]] == [records[0]];
  }

  lemma {:induction false} TopCovers(before: nat, records: seq<G.Record>)
    ensures before <= Top(before, records)
    ensures forall e :: e in G.EntriesOf(records) ==> e.sn <= Top(before, records)
    decreases |records|
  {
    hide S.BatchEntries;
    if records != [] {
      var r := records[0];
      TopCovers(Max(before, LastNumberOf(r)), records[1..]);
      EntriesFirst(records);
      G.BatchAt(r.ops, r.first);
    }
  }

  lemma EncodingsFirst(records: seq<G.Record>, bytes: Naming)
    requires AllWritable(records, bytes) && records != []
    ensures Writable(records[0], bytes) && AllWritable(records[1..], bytes)
    ensures Encodings(records, bytes)[0] == Encoding(records[0], bytes) && Encodings(records, bytes)[1..] == Encodings(records[1..], bytes)
  {
  }

  // Reading on, the records still to come are applied one after another.
  lemma {:induction false} ReplaysRecords(r: L.State, sofar: seq<seq<Byte>>, records: seq<G.Record>, p: Progress, o: Options, bytes: Naming)
    requires p.ok && AllWritable(records, bytes)
    requires L.ReadRecords(r, sofar).1 == sofar + Encodings(records, bytes) && L.ReadRecords(r, sofar).0.drops == r.drops
    ensures var q := Replayed(r, p, o);
            && q.ok && q.maxSequence == Top(p.maxSequence, records)
            && q.All() == p.All() + Named(G.EntriesOf(records), bytes)
    decreases |records|
  {
    hide L.ReadLogical, Writable, AllWritable, Encoding, Apply, G.EntriesOf, S.BatchEntries, Named;
    var next := L.ReadLogical(r, false, []);
    L.LogicalDrops(r, false, []);
    if next.record.Some? {
      var record, more := next.record.value, sofar + [next.record.value];
      L.RecordsDrops(next.state, more);
      NextRecord(sofar, Encodings(records, bytes), record, L.ReadRecords(next.state, more).1);
      EncodingsFirst(records, bytes);
      AppliesRecord(p, records[0], o, bytes);
      AppendCons(sofar, record, Encodings(records[1..], bytes));
      ReplaysRecords(next.state, more, records[1..], Apply(p, record, o), o, bytes);
      EntriesFirst(records);
      NamedJoin(S.BatchEntries(records[0].ops, records[0].first), G.EntriesOf(records[1..]), bytes);
      W.Joined(p.All(), Named(S.BatchEntries(records[0].ops, records[0].first), bytes), Named(G.EntriesOf(records[1..]), bytes));
    } else {
      NothingNamed(records, bytes);
      AppendNothing(p.All());
    }
  }

  lemma NextRecord<T>(sofar: seq<T>, more: seq<T>, next: T, all: seq<T>)
    requires all == sofar + more && sofar + [next] <= all
    ensures more != [] && more[0] == next && more == [next] + more[1..]
  {
    assert all[|sofar|] == next;
  }

  lemma NothingNamed(records: seq<G.Record>, bytes: Naming)
    requires records == []
    ensures Named(G.EntriesOf(records), bytes) == []
  {
  }

  lemma AppliesRecord(p: Progress, r: G.Record, o: Options, bytes: Naming)
    requires p.ok && Writable(r, bytes)
    ensures var q := Apply(p, Encoding(r, bytes), o);
            && q.ok && q.All() == p.All() + Named(S.BatchEntries(r.ops, r.first), bytes)
            && q.maxSequence == Max(p.maxSequence, LastNumberOf(r))
  {
    hide Apply, S.BatchEntries, Named, OpBytes;
    AppliesBatch(p, r.first, OpBytes(r.ops, bytes), o);
    NamedBatch(r, bytes);
  }

  lemma {:induction false} EncodingsPrefix(records: seq<G.Record>, k: nat, bytes: Naming)
    requires AllWritable(records, bytes) && k <= |records|
    ensures AllWritable(records[..k], bytes) && Encodings(records, bytes)[..k] == Encodings(records[..k], bytes)
  {
    hide Writable, Encoding;
  }

  // How much of a file survives: a part from the front, with everything that was synced.
  ghost predicate Survives(file: seq<Byte>, records: seq<G.Record>, start: nat, synced: set<nat>, bytes: Naming)
    requires AllWritable(records, bytes)
  {
    && file <= LogBytes(records, bytes)
    && forall n :: n in synced && start <= n < start + |records| ==> |LogBytes(records[..n - start + 1], bytes)| <= |file|
  }

  function RecordCount(file: seq<Byte>): nat {
    |L.ReadRecords(L.Opened(file), []).1|
  }

  lemma WholeCount(records: seq<G.Record>, bytes: Naming)
    requires AllWritable(records, bytes)
    ensures RecordCount(LogBytes(records, bytes)) == |records|
  {
    hide L.LogOf, L.ReadRecords, Writable;
    L.RoundTrip(Encodings(records, bytes));
  }

  // Replaying it gives whole records, all that were synced among them.
  lemma FileReplays(file: seq<Byte>, records: seq<G.Record>, start: nat, synced: set<nat>, before: nat, o: Options, bytes: Naming)
    returns (k: nat)
    requires AllWritable(records, bytes) && Survives(file, records, start, synced, bytes)
    ensures k <= |records| && forall n :: n in synced && start <= n < start + |records| ==> n < start + k
    ensures var p := Replayed(L.Opened(file), Begin(before), o);
            && p.ok && p.maxSequence == Top(before, records[..k]) && p.All() == Named(G.EntriesOf(records[..k]), bytes)
    ensures k == RecordCount(file)
  {
    hide Writable, AllWritable, L.LogOf, L.ReadRecords, Replayed, Named, G.EntriesOf, Top, Encoding, Encodings;
    var all := Encodings(records, bytes);
    k := L.CrashPrefix(file, all);
    EncodingsPrefix(records, k, bytes);
    AppendFront(all[..k]);
    ReplaysRecords(L.Opened(file), [], records[..k], Begin(before), o, bytes);
    AppendFront(Named(G.EntriesOf(records[..k]), bytes));
    forall n | n in synced && start <= n < start + |records|
      ensures n < start + k
    {
      EncodingsPrefix(records, n - start + 1, bytes);
      NotCutBefore(file, all, k, n - start + 1);
    }
  }

  lemma AppendFront<T>(a: seq<T>)
    ensures [] + a == a
  {
  }

  lemma NotCutBefore(file: seq<Byte>, all: seq<seq<Byte>>, k: nat, m: nat)
    requires k <= |all| && m <= |all| && |L.LogOf(all[..m])| <= |file|
    requires k < |all| ==> |file| < |L.LogOf(all[..k + 1])|
    ensures m <= k
  {
    hide L.LogOf;
    if k < m {
      assert all[..m][..k + 1] == all[..k + 1];
      L.LogGrows(all[..m], k + 1);
    }
  }

  /* ---- a crash of the machine ---- */

  // What is left of the log file of the memtable that waits to be flushed, if any, and of
  // the current one.
  datatype Files = Files(older: seq<Byte>, current: seq<Byte>)

  ghost predicate Crashed(s: G.State, files: Files, bytes: Naming)
    requires s.flushed <= s.logStart <= |s.log| && AllWritable(s.log, bytes)
  {
    && Survives(files.older, s.log[s.flushed..s.logStart], s.flushed, s.synced, bytes)
    && Survives(files.current, s.log[s.logStart..], s.logStart, s.synced, bytes)
  }

  function Replay(files: Files, o: Options): Recovery {
    Recovered([files.older, files.current], o)
  }

  // What the database holds when it is open again: the tables of the flushed memtables, and
  // what the log files give.
  function Reopened(s: G.State, files: Files, o: Options, bytes: Naming): seq<Numbered>
    requires s.flushed <= |s.log|
  {
    Named(G.EntriesOf(s.log[..s.flushed]), bytes) + Flat(Replay(files, o).tables)
  }

  // The flushed memtables hold what is in their log files.
  lemma TablesHold(s: G.State)
    requires G.Inv(s)
    ensures G.EntriesOf(s.log[..s.flushed]) <= s.mem
  {
    hide G.EntriesOf;
    var switched := s.log[..s.logStart];
    assert switched == s.log[..s.flushed] + switched[s.flushed..];
    G.EntriesJoin(s.log[..s.flushed], switched[s.flushed..]);
  }

  lemma TwoFiles(files: Files, o: Options)
    ensures var p := Replayed(L.Opened(files.older), Begin(0), o);
            var q := Replayed(L.Opened(files.current), Begin(p.maxSequence), o);
            p.ok ==> Replay(files, o) == Recovery(if q.ok then p.Tables() + q.Tables() else p.Tables(), q.maxSequence, q.ok)
  {
    hide Replayed;
    var both := [files.older, files.current];
    assert both[..1] == [files.older] && [files.older][..0] == [];
    var p := Replayed(L.Opened(files.older), Begin(0), o);
    AppendFront(p.Tables());
    assert Recovered([], o) == Recovery([], 0, true);
    assert Recovered([files.older], o) == Recovery(if p.ok then [] + p.Tables() else [], p.maxSequence, p.ok);
  }

  // Opening succeeds, with the records before k and those of the current log file before l;
  // every synced one is among them, and the last sequence number covers them all.
  lemma Reopens(s: G.State, files: Files, o: Options, bytes: Naming) returns (k: nat, l: nat)
    requires G.Inv(s) && AllWritable(s.log, bytes) && Crashed(s, files, bytes)
    ensures s.flushed <= k <= s.logStart <= l <= |s.log|
    ensures Replay(files, o).ok && Reopened(s, files, o, bytes) == Named(G.EntriesOf(s.log[..k] + s.log[s.logStart..l]), bytes)
    ensures forall n :: n in s.synced && n < |s.log| ==> n < k || s.logStart <= n < l
    ensures forall e :: e in Flat(Replay(files, o).tables) ==> e.sn <= Replay(files, o).maxSequence
    ensures k == s.flushed + RecordCount(files.older) && l == s.logStart + RecordCount(files.current)
  {
    hide RecordCount, G.Inv, Survives, Writable, Replayed, Flat, Named, G.EntriesOf, Top, LogBytes;
    InvStarts(s);
    var older, newer := s.log[s.flushed..s.logStart], s.log[s.logStart..];
    var p := Replayed(L.Opened(files.older), Begin(0), o);
    var q := Replayed(L.Opened(files.current), Begin(p.maxSequence), o);
    var i := FileReplays(files.older, older, s.flushed, s.synced, 0, o, bytes);
    var j := FileReplays(files.current, newer, s.logStart, s.synced, p.maxSequence, o, bytes);
    k, l := s.flushed + i, s.logStart + j;
    TwoFiles(files, o);
    TablesHoldAll(p);
    TablesHoldAll(q);
    FlatJoin(p.Tables(), q.Tables());
    assert older[..i] == s.log[s.flushed..k] && newer[..j] == s.log[s.logStart..l];
    ThreeParts(s.log[..s.flushed], older[..i], newer[..j], bytes);
    assert s.log[..s.flushed] + older[..i] == s.log[..k];
    TopsCover(older[..i], newer[..j], bytes);
  }

  lemma InvStarts(s: G.State)
    requires G.Inv(s)
    ensures s.flushed <= s.logStart <= |s.log|
  {
  }

  lemma ThreeParts(a: seq<G.Record>, b: seq<G.Record>, c: seq<G.Record>, bytes: Naming)
    ensures Named(G.EntriesOf(a + b + c), bytes)
         == Named(G.EntriesOf(a), bytes) + (Named(G.EntriesOf(b), bytes) + Named(G.EntriesOf(c), bytes))
  {
    hide G.EntriesOf, Named;
    G.EntriesJoin(a + b, c);
    G.EntriesJoin(a, b);
    NamedJoin(G.EntriesOf(a) + G.EntriesOf(b), G.EntriesOf(c), bytes);
    NamedJoin(G.EntriesOf(a), G.EntriesOf(b), bytes);
    W.Joined(Named(G.EntriesOf(a), bytes), Named(G.EntriesOf(b), bytes), Named(G.EntriesOf(c), bytes));
  }

  lemma TopsCover(a: seq<G.Record>, b: seq<G.Record>, bytes: Naming)
    ensures forall e :: e in Named(G.EntriesOf(a), bytes) + Named(G.EntriesOf(b), bytes) ==> e.sn <= Top(Top(0, a), b)
  {
    hide G.EntriesOf, Top;
    TopCovers(0, a);
    TopCovers(Top(0, a), b);
    NamedBelow(G.EntriesOf(a), Top(Top(0, a), b), bytes);
    NamedBelow(G.EntriesOf(b), Top(Top(0, a), b), bytes);
  }

  lemma NamedBelow(es: seq<Entry>, top: nat, bytes: Naming)
    requires forall e :: e in es ==> e.sn <= top
    ensures forall e :: e in Named(es, bytes) ==> e.sn <= top
  {
    forall e | e in Named(es, bytes)
      ensures e.sn <= top
    {
      var i :| 0 <= i < |es| && Named(es, bytes)[i] == e;
      assert es[i] in es;
    }
  }

  // When only the process goes down, the files are whole and nothing is lost.
  lemma WholeFilesLoseNothing(s: G.State, files: Files, o: Options, bytes: Naming)
    requires G.Inv(s) && AllWritable(s.log, bytes)
    requires files.older == LogBytes(s.log[s.flushed..s.logStart], bytes) && files.current == LogBytes(s.log[s.logStart..], bytes)
    ensures Reopened(s, files, o, bytes) == Named(G.EntriesOf(s.log), bytes)
  {
    hide RecordCount, Writable, LogBytes, G.EntriesOf, Named, Reopened;
    InvStarts(s);
    WholeSurvives(s.log[s.flushed..s.logStart], s.flushed, s.synced, bytes);
    WholeSurvives(s.log[s.logStart..], s.logStart, s.synced, bytes);
    WholeCount(s.log[s.flushed..s.logStart], bytes);
    WholeCount(s.log[s.logStart..], bytes);
    var k, l := Reopens(s, files, o, bytes);
    assert s.log[..k] + s.log[s.logStart..l] == s.log;
  }

  lemma WholeSurvives(records: seq<G.Record>, start: nat, synced: set<nat>, bytes: Naming)
    requires AllWritable(records, bytes)
    ensures Survives(LogBytes(records, bytes), records, start, synced, bytes)
  {
    hide L.LogOf, Writable;
    forall n | n in synced && start <= n < start + |records|
      ensures |LogBytes(records[..n - start + 1], bytes)| <= |LogBytes(records, bytes)|
    {
      PartNotLonger(records, n - start + 1, bytes);
    }
  }

  // A file cut after some records survives a crash when none of those behind is synced.
  lemma PartSurvives(records: seq<G.Record>, m: nat, start: nat, synced: set<nat>, bytes: Naming)
    requires AllWritable(records, bytes) && m <= |records|
    requires forall n :: n in synced && start <= n < start + |records| ==> n < start + m
    ensures Survives(LogBytes(records[..m], bytes), records, start, synced, bytes)
  {
    hide L.LogOf, Writable;
    EncodingsPrefix(records, m, bytes);
    L.LogGrows(Encodings(records, bytes), m);
    forall n | n in synced && start <= n < start + |records|
      ensures |LogBytes(records[..n - start + 1], bytes)| <= |LogBytes(records[..m], bytes)|
    {
      var i := n - start + 1;
      PartNotLonger(records[..m], i, bytes);
      assert records[..m][..i] == records[..i];
    }
  }

  lemma PartNotLonger(records: seq<G.Record>, m: nat, bytes: Naming)
    requires AllWritable(records, bytes) && m <= |records|
    ensures AllWritable(records[..m], bytes) && |LogBytes(records[..m], bytes)| <= |LogBytes(records, bytes)|
  {
    hide L.LogOf, Writable;
    EncodingsPrefix(records, m, bytes);
    L.LogGrows(Encodings(records, bytes), m);
  }

  /* ---- synced writes ---- */

  lemma SplitAround<T>(a: seq<T>, i: nat)
    requires i < |a|
    ensures a[..i + 1] + a[i + 1..] == a && a[..i] + [a[i]] == a[..i + 1]
  {
  }

  // The entries of one record among those of all.
  lemma RecordInside(records: seq<G.Record>, i: nat)
    requires i < |records|
    ensures G.EntriesOf(records)
         == G.EntriesOf(records[..i]) + S.BatchEntries(records[i].ops, records[i].first) + G.EntriesOf(records[i + 1..])
  {
    hide G.EntriesOf, S.BatchEntries;
    SplitAround(records, i);
    G.EntriesPush(records[..i], records[i]);
    G.EntriesJoin(records[..i + 1], records[i + 1..]);
  }

  // Some operations of a record are in the database, with their numbers.
  lemma OpsInside(records: seq<G.Record>, i: nat, x: nat, ops: seq<S.Op>, bytes: Naming) returns (at: nat)
    requires i < |records| && x + |ops| <= |records[i].ops| && records[i].ops[x..x + |ops|] == ops
    requires Writable(records[i], bytes)
    ensures var all := Named(G.EntriesOf(records), bytes);
            at + |ops| <= |all| && all[at..at + |ops|] == NumberOps(records[i].first + x, OpBytes(ops, bytes))
  {
    hide G.EntriesOf, S.BatchEntries, W.AllSmall;
    var r, es, before := records[i], G.EntriesOf(records), G.EntriesOf(records[..i]);
    RecordInside(records, i);
    G.BatchAt(r.ops, r.first);
    at := |before| + x;
    var all, numbered := Named(es, bytes), NumberOps(r.first + x, OpBytes(ops, bytes));
    forall t | 0 <= t < |ops|
      ensures all[at + t] == numbered[t]
    {
      assert es[at + t] == S.BatchEntries(r.ops, r.first)[x + t];
      assert ops[t] == r.ops[x + t];
      assert (r.first + x + t) % TWO64 == r.first + x + t;
    }
  }

  // Whatever the crash, a write that asked to be synced and was acknowledged is in the
  // database when it is open again, whole and with its own sequence numbers.
  lemma SyncedWritesSurvive(s: G.State, files: Files, o: Options, bytes: Naming, i: nat, j: nat) returns (at: nat)
    requires G.Inv(s) && AllWritable(s.log, bytes) && Crashed(s, files, bytes)
    requires i < |s.groups| && s.groups[i].outcome.Committed? && j < |s.groups[i].writers| && s.groups[i].writers[j].sync
    ensures var ops, all := G.OpsOf(s.groups[i].writers[j]), Reopened(s, files, o, bytes);
            && at + |ops| <= |all|
            && all[at..at + |ops|] == NumberOps(G.FirstOf(s.groups[i], j), OpBytes(ops, bytes))
  {
    hide Crashed, Writable, G.EntriesOf, Named, Reopened, G.Records, G.GroupOps, G.OpsOf;
    InvStarts(s);
    G.CommittedSyncIsDurable(s, i, j);
    G.CommittedInLog(s, i, j);
    var n := |G.Records(s.groups[..i])|;
    var k, l := Reopens(s, files, o, bytes);
    var kept := s.log[..k] + s.log[s.logStart..l];
    var place := if n < k then n else k + (n - s.logStart);
    assert kept[place] == s.log[n] && s.log[n] in s.log;
    at := OpsInside(kept, place, |G.GroupOps(s.groups[i].writers[..j])|, G.OpsOf(s.groups[i].writers[j]), bytes);
  }

  /* ---- whether a part from the front survives ---- */

  // No record from n on in the older log file is known to be on disk.
  ghost predicate UnsyncedFrom(s: G.State, n: nat) {
    forall m :: m in s.synced && n <= m ==> s.logStart <= m
  }

  ghost predicate Writes(s: G.State, n: nat)
    requires n < |s.log|
  {
    s.log[n].ops != []
  }

  // The older log file ends in something unsynced, and the current one has something too.
  ghost predicate Exposed(s: G.State)
    requires s.logStart <= |s.log|
  {
    && (exists n :: s.flushed <= n < s.logStart && Writes(s, n) && UnsyncedFrom(s, n))
    && (exists n :: s.logStart <= n < |s.log| && Writes(s, n))
  }

  lemma {:induction false} NothingWritten(records: seq<G.Record>)
    requires forall r :: r in records ==> r.ops == []
    ensures G.EntriesOf(records) == []
  {
    if records != [] {
      assert records[|records| - 1] in records;
      NothingWritten(records[..|records| - 1]);
    }
  }

  lemma SafeFromCrash(s: G.State, files: Files, o: Options, bytes: Naming)
    requires G.Inv(s) && AllWritable(s.log, bytes) && Crashed(s, files, bytes) && !Exposed(s)
    ensures Reopened(s, files, o, bytes) <= Named(G.EntriesOf(s.log), bytes)
  {
    hide G.Inv, Crashed, Writable, G.EntriesOf, Named, Reopened;
    InvStarts(s);
    var k, l := Reopens(s, files, o, bytes);
    if exists n :: s.logStart <= n < |s.log| && Writes(s, n) {
      forall n | k <= n < s.logStart
        ensures !Writes(s, n)
      {
        assert UnsyncedFrom(s, n);
      }
      LostNothing(s, k, l);
      PartOfAll(s.log, l, bytes);
    } else {
      GainedNothing(s, k, l);
      PartOfAll(s.log, k, bytes);
    }
  }

  lemma LostNothing(s: G.State, k: nat, l: nat)
    requires k <= s.logStart <= l <= |s.log| && forall n :: k <= n < s.logStart ==> !Writes(s, n)
    ensures G.EntriesOf(s.log[..k] + s.log[s.logStart..l]) == G.EntriesOf(s.log[..l])
  {
    hide G.EntriesOf;
    var a, b, c := s.log[..k], s.log[k..s.logStart], s.log[s.logStart..l];
    forall r | r in b
      ensures r.ops == []
    {
      var i :| 0 <= i < |b| && b[i] == r;
      assert !Writes(s, k + i);
    }
    NothingWritten(b);
    assert a + b + c == s.log[..l];
    SkipNothing(a, b, c);
  }

  lemma GainedNothing(s: G.State, k: nat, l: nat)
    requires k <= s.logStart <= l <= |s.log| && forall n :: s.logStart <= n < |s.log| ==> !Writes(s, n)
    ensures G.EntriesOf(s.log[..k] + s.log[s.logStart..l]) == G.EntriesOf(s.log[..k])
  {
    hide G.EntriesOf;
    var c := s.log[s.logStart..l];
    forall r | r in c
      ensures r.ops == []
    {
      var i :| 0 <= i < |c| && c[i] == r;
      assert !Writes(s, s.logStart + i);
    }
    NothingWritten(c);
    G.EntriesJoin(s.log[..k], c);
    AppendNothing(G.EntriesOf(s.log[..k]));
  }

  lemma SkipNothing(a: seq<G.Record>, b: seq<G.Record>, c: seq<G.Record>)
    requires G.EntriesOf(b) == []
    ensures G.EntriesOf(a + c) == G.EntriesOf(a + b + c)
  {
    hide G.EntriesOf;
    G.EntriesJoin(a, c);
    G.EntriesJoin(a + b, c);
    G.EntriesJoin(a, b);
    AppendNothing(G.EntriesOf(a));
  }

  lemma PartOfAll(log: seq<G.Record>, m: nat, bytes: Naming)
    requires m <= |log|
    ensures Named(G.EntriesOf(log[..m]), bytes) <= Named(G.EntriesOf(log), bytes)
  {
    hide G.EntriesOf;
    assert log == log[..m] + log[m..];
    G.EntriesJoin(log[..m], log[m..]);
    NamedJoin(G.EntriesOf(log[..m]), G.EntriesOf(log[m..]), bytes);
  }

  // With something in the middle left out, the rest is no part from the front.
  lemma MiddleMissing(a: seq<Entry>, b: seq<Entry>, c: seq<Entry>, bytes: Naming)
    requires b != [] && c != []
    requires forall i, j :: 0 <= i < j < |a + b + c| ==> (a + b + c)[i].sn < (a + b + c)[j].sn
    ensures !(Named(a + c, bytes) <= Named(a + b + c, bytes))
  {
    var i := |a|;
    assert (a + b + c)[i] == b[0] && (a + b + c)[i + |b|] == c[0] && (a + c)[i] == c[0];
    NumbersOf(a + b + c, bytes, i);
    NumbersOf(a + c, bytes, i);
    assert Named(a + c, bytes)[i] != Named(a + b + c, bytes)[i];
  }

  lemma SomethingWritten(records: seq<G.Record>, i: nat)
    requires i < |records| && records[i].ops != []
    ensures G.EntriesOf(records) != []
  {
    RecordInside(records, i);
    G.BatchAt(records[i].ops, records[i].first);
  }

  lemma RecordsMissing(s: G.State, n: nat, m: nat, bytes: Naming)
    requires G.Inv(s)
    requires n < s.logStart && Writes(s, n) && s.logStart <= m < |s.log| && Writes(s, m)
    ensures !(Named(G.EntriesOf(s.log[..n] + s.log[s.logStart..]), bytes) <= Named(G.EntriesOf(s.log), bytes))
  {
    hide G.Inv, G.EntriesOf, Named;
    G.LogOrdered(s);
    var a, b, c := s.log[..n], s.log[n..s.logStart], s.log[s.logStart..];
    SomethingWritten(b, 0);
    SomethingWritten(c, m - s.logStart);
    assert a + b + c == s.log;
    G.EntriesJoin(a + b, c);
    G.EntriesJoin(a, b);
    G.EntriesJoin(a, c);
    MiddleMissing(G.EntriesOf(a), G.EntriesOf(b), G.EntriesOf(c), bytes);
  }

  // The older file may lose everything from record n on, and the current one nothing.
  lemma LosesFrom(s: G.State, n: nat, o: Options, bytes: Naming) returns (files: Files)
    requires G.Inv(s) && AllWritable(s.log, bytes)
    requires s.flushed <= n < s.logStart && UnsyncedFrom(s, n)
    ensures Crashed(s, files, bytes)
    ensures Reopened(s, files, o, bytes) == Named(G.EntriesOf(s.log[..n] + s.log[s.logStart..]), bytes)
  {
    hide RecordCount, Survives, Writable, G.EntriesOf, Named, Reopened, LogBytes;
    InvStarts(s);
    var log, start, i := s.log, s.logStart, n - s.flushed;
    var older := log[s.flushed..start];
    files := Files(LogBytes(older[..i], bytes), LogBytes(log[start..], bytes));
    PartSurvives(older, i, s.flushed, s.synced, bytes);
    WholeSurvives(log[start..], start, s.synced, bytes);
    WholeCount(older[..i], bytes);
    WholeCount(log[start..], bytes);
    var k, l := Reopens(s, files, o, bytes);
    assert log[start..l] == log[start..];
  }

  // Opening after a crash gives a part of the history from its front, whatever the crash,
  // exactly when the older log file does not end in something unsynced or the current one
  // is still empty.
  lemma PrefixSurvivesIff(s: G.State, o: Options, bytes: Naming)
    requires G.Inv(s) && AllWritable(s.log, bytes)
    ensures (forall files :: Crashed(s, files, bytes) ==> Reopened(s, files, o, bytes) <= Named(G.EntriesOf(s.log), bytes))
       <==> !Exposed(s)
  {
    hide G.Inv, Crashed, Writable, G.EntriesOf, Named, Reopened;
    InvStarts(s);
    if Exposed(s) {
      var n :| s.flushed <= n < s.logStart && Writes(s, n) && UnsyncedFrom(s, n);
      var m :| s.logStart <= m < |s.log| && Writes(s, m);
      var files := LosesFrom(s, n, o, bytes);
      RecordsMissing(s, n, m, bytes);
    } else {
      forall files | Crashed(s, files, bytes)
        ensures Reopened(s, files, o, bytes) <= Named(G.EntriesOf(s.log), bytes)
      {
        SafeFromCrash(s, files, o, bytes);
      }
    }
  }
}
