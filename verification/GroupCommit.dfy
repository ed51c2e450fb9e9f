/**
 The group-commit write queue (db/db_impl.cc Write and BuildBatchGroup). Writers queue up;
 the one at the front leads: it gathers a group, and without the lock appends one record
 to the log, syncs if it must, and inserts into the memtable; then the whole group leaves.
 A step is what one thread does while it holds the lock, or one file operation.
 */
module GroupCommit {
  import opened Keys
  import S = Store

  type Op = S.Op

  // size is the byte size of the batch; a missing batch asks only for a memtable switch.
  datatype Writer = Writer(id: nat, batch: Option<seq<Op>>, size: nat, sync: bool)

  datatype Record = Record(first: nat, ops: seq<Op>)

  // How a group left the queue: nothing to write, no room made, the log append failed, the
  // sync failed, or all went well.
  datatype Outcome = Passed | Rejected | LogFailed | SyncFailed | Committed

  datatype Group = Group(writers: seq<Writer>, first: nat, outcome: Outcome)

  // How far the leader of a group of the first count writers has come.
  datatype Stage = Gathered | Logged | Synced | Inserted | LogBroken | SyncBroken
  datatype Phase = Idle | Busy(count: nat, stage: Stage)

  // log holds the records of all log files, the current one from record logStart on; the
  // first flushed of them are in tables, and the log files of these are no longer needed;
  // synced, the records known to be on disk; groups, the groups that have left the queue.
  datatype State = State(
    queue: seq<Writer>, phase: Phase, base: nat, lastSequence: nat, bgError: bool,
    log: seq<Record>, logStart: nat, flushed: nat, synced: set<nat>, mem: seq<Entry>, groups: seq<Group>)

  /* ---- groups ---- */

  function OpsOf(w: Writer): seq<Op> {
    if w.batch.Some? then w.batch.value else []
  }

  function GroupOps(writers: seq<Writer>): seq<Op> {
    if writers == [] then [] else GroupOps(writers[..|writers| - 1]) + OpsOf(writers[|writers| - 1])
  }

  // db_impl.cc:1272
  function MaxGroupSize(first: nat): nat {
    if first <= 131072 then first + 131072 else 1048576
  }

  // Whether the group stops short of a writer (db_impl.cc:1282 and db_impl.cc:1289).
  predicate StopsAt(queue: seq<Writer>, i: nat, size: nat)
    requires 0 < |queue| && i < |queue|
  {
    || (queue[i].sync && !queue[0].sync)
    || (queue[i].batch.Some? && size + queue[i].size > MaxGroupSize(queue[0].size))
  }

  // How many of the first writers form a group, given that i of them do, of a size.
  function Extent(queue: seq<Writer>, i: nat, size: nat): (n: nat)
    requires 0 < |queue| && i <= |queue|
    ensures i <= n <= |queue|
    decreases |queue| - i
  {
    if i == |queue| || StopsAt(queue, i, size) then i
    else Extent(queue, i + 1, if queue[i].batch.Some? then size + queue[i].size else size)
  }

  function GroupCount(queue: seq<Writer>): (n: nat)
    requires queue != []
    ensures 1 <= n <= |queue|
  {
    Extent(queue, 1, queue[0].size)
  }

  // No sync writer is in the group of a leader that does not sync.
  ghost predicate SyncTogether(writers: seq<Writer>) {
    writers != [] && forall i :: 0 <= i < |writers| && writers[i].sync ==> writers[0].sync
  }

  lemma {:induction false} ExtentTogether(queue: seq<Writer>, i: nat, size: nat)
    requires 0 < i <= |queue| && SyncTogether(queue[..i])
    ensures SyncTogether(queue[..Extent(queue, i, size)])
    decreases |queue| - i
  {
    if i < |queue| && !StopsAt(queue, i, size) {
      assert SyncTogether(queue[..i + 1]) by {
        forall j | 0 <= j < i + 1 && queue[j].sync
          ensures queue[0].sync
        {
          if j < i {
            assert queue[..i][j].sync && queue[..i][0] == queue[0];
          }
        }
      }
      ExtentTogether(queue, i + 1, if queue[i].batch.Some? then size + queue[i].size else size);
    }
  }

  // The bytes of the batches of some writers.
  function BatchBytes(writers: seq<Writer>): nat {
    if writers == [] then 0
    else
      var w := writers[|writers| - 1];
      BatchBytes(writers[..|writers| - 1]) + if w.batch.Some? then w.size else 0
  }

  lemma BatchBytesPush(queue: seq<Writer>, i: nat)
    requires i < |queue|
    ensures BatchBytes(queue[..i + 1]) == BatchBytes(queue[..i]) + if queue[i].batch.Some? then queue[i].size else 0
  {
    assert queue[..i + 1][..i] == queue[..i];
  }

  // A group of more batches than the leader's stays within the limit, which is lower for a
  // small leader; and it ends only before a writer that it may not have: one that asks for a
  // sync, or a batch that would take it past the limit.
  ghost predicate WellCut(queue: seq<Writer>, count: nat)
    requires 1 <= count <= |queue|
  {
    var limit := if queue[0].size <= 131072 then queue[0].size + 131072 else 1048576;
    && (forall i :: 1 <= i < count && queue[i].batch.Some? ==> BatchBytes(queue[..count]) <= limit)
    && (count < |queue| ==>
          || (queue[count].sync && !queue[0].sync)
          || (queue[count].batch.Some? && BatchBytes(queue[..count + 1]) > limit))
  }

  lemma {:induction false} ExtentWellCut(queue: seq<Writer>, i: nat, size: nat)
    requires 1 <= i <= |queue| && size == BatchBytes(queue[..i])
    requires forall j :: 1 <= j < i && queue[j].batch.Some? ==> size <= MaxGroupSize(queue[0].size)
    ensures WellCut(queue, Extent(queue, i, size))
    decreases |queue| - i
  {
    hide BatchBytes;
    if i < |queue| {
      BatchBytesPush(queue, i);
      if !StopsAt(queue, i, size) {
        ExtentWellCut(queue, i + 1, if queue[i].batch.Some? then size + queue[i].size else size);
      }
    }
  }

  lemma GroupWellCut(queue: seq<Writer>)
    requires queue != [] && queue[0].batch.Some?
    ensures WellCut(queue, GroupCount(queue))
  {
    BatchBytesPush(queue, 0);
    ExtentWellCut(queue, 1, queue[0].size);
  }

  // db_impl.cc:1260
  method BuildBatchGroup(queue: seq<Writer>) returns (count: nat, ops: seq<Op>)
    requires queue != [] && queue[0].batch.Some?
    ensures count == GroupCount(queue) && ops == GroupOps(queue[..count])
    ensures SyncTogether(queue[..count]) && WellCut(queue, count)
  {
    ExtentTogether(queue, 1, queue[0].size);
    GroupWellCut(queue);
    var size: nat := queue[0].size;
    var maxSize := 1048576;
    if size <= 131072 {
      maxSize := size + 131072;
    }
    ops := queue[0].batch.value;
    count := 1;
    GroupOpsPush(queue, 0);
    assert ops == GroupOps(queue[..count]);
    hide GroupOps, SyncTogether, WellCut;
    while count < |queue|
      invariant 1 <= count <= |queue| && Extent(queue, count, size) == GroupCount(queue)
      invariant ops == GroupOps(queue[..count])
    {
      var w := queue[count];
      if w.sync && !queue[0].sync {
        break;
      }
      GroupOpsPush(queue, count);
      if w.batch.Some? {
        if size + w.size > maxSize {
          break;
        }
        size := size + w.size;
        ops := ops + w.batch.value;
      }
      count := count + 1;
    }
  }

  lemma GroupOpsPush(queue: seq<Writer>, i: nat)
    requires i < |queue|
    ensures GroupOps(queue[..i + 1]) == GroupOps(queue[..i]) + OpsOf(queue[i])
  {
    assert queue[..i + 1][..i] == queue[..i];
  }

  /* ---- the steps ---- */

  ghost predicate Init(s: State) {
    && s.queue == [] && s.phase == Idle && s.lastSequence == s.base && !s.bgError
    && s.log == [] && s.logStart == s.flushed == 0 && s.synced == {} && s.mem == [] && s.groups == []
  }

  function Arrived(s: State): seq<Writer> {
    Left(s.groups) + s.queue
  }

  function Left(groups: seq<Group>): seq<Writer> {
    if groups == [] then [] else Left(groups[..|groups| - 1]) + groups[|groups| - 1].writers
  }

  ghost predicate NewId(s: State, id: nat) {
    forall w :: w in Arrived(s) ==> w.id != id
  }

  // db_impl.cc:1192
  ghost predicate ArriveStep(s: State, s': State, w: Writer) {
    NewId(s, w.id) && s' == s.(queue := s.queue + [w])
  }

  // db_impl.cc:1346: once no older memtable waits to be flushed, a new log file, and a new
  // memtable for the next group. The old log file is closed without a sync.
  ghost predicate NewLogStep(s: State, s': State) {
    && s.phase.Idle? && s.queue != [] && !s.bgError && s.flushed == s.logStart
    && s' == s.(logStart := |s.log|)
  }

  // db_impl.cc:551: the older memtable is in a table, so its log file is no longer needed.
  ghost predicate FlushStep(s: State, s': State) {
    s' == s.(flushed := s.logStart)
  }

  // db_impl.cc:1201: no room could be made, so the front writer leaves with an error.
  ghost predicate RejectStep(s: State, s': State) {
    && s.phase.Idle? && s.queue != []
    && s' == s.(queue := s.queue[1..], groups := s.groups + [Group(s.queue[..1], 0, Rejected)])
  }

  // db_impl.cc:1204: nothing to write.
  ghost predicate PassStep(s: State, s': State) {
    && s.phase.Idle? && s.queue != [] && s.queue[0].batch.None? && !s.bgError
    && s' == s.(queue := s.queue[1..], groups := s.groups + [Group(s.queue[..1], 0, Passed)])
  }

  // db_impl.cc:1205
  ghost predicate LeadStep(s: State, s': State) {
    && s.phase.Idle? && s.queue != [] && s.queue[0].batch.Some? && !s.bgError
    && s' == s.(phase := Busy(GroupCount(s.queue), Gathered))
  }

  function GroupOf(s: State): seq<Writer>
    requires s.phase.Busy? && s.phase.count <= |s.queue|
  {
    s.queue[..s.phase.count]
  }

  ghost predicate At(s: State, stage: Stage) {
    s.phase.Busy? && 1 <= s.phase.count <= |s.queue| && s.phase.stage == stage
  }

  // db_impl.cc:1215
  ghost predicate LogStep(s: State, s': State, ok: bool) {
    && At(s, Gathered)
    && s' == if ok then s.(phase := Busy(s.phase.count, Logged), log := s.log + [Record(s.lastSequence + 1, GroupOps(GroupOf(s)))])
             else s.(phase := Busy(s.phase.count, LogBroken))
  }

  ghost function Indices(low: nat, high: nat): (r: set<nat>)
    ensures forall i :: i in r <==> low <= i < high
    decreases high
  {
    if high <= low then {} else Indices(low, high - 1) + {high - 1}
  }

  // db_impl.cc:1218: syncing puts the whole current log file on disk.
  ghost predicate SyncStep(s: State, s': State, ok: bool) {
    && At(s, Logged) && s.queue[0].sync
    && s' == s.(phase := Busy(s.phase.count, if ok then Synced else SyncBroken),
                synced := if ok then s.synced + Indices(s.logStart, |s.log|) else s.synced)
  }

  // db_impl.cc:1224
  ghost predicate InsertStep(s: State, s': State) {
    && (if s.phase.Busy? && 1 <= s.phase.count <= |s.queue| && s.queue[0].sync then At(s, Synced) else At(s, Logged))
    && s' == s.(phase := Busy(s.phase.count, Inserted), mem := s.mem + S.BatchEntries(GroupOps(GroupOf(s)), s.lastSequence + 1))
  }

  // db_impl.cc:1227: the group leaves; a failed sync stops all further writes.
  ghost predicate LeaveStep(s: State, s': State) {
    && s.phase.Busy? && 1 <= s.phase.count <= |s.queue| && s.phase.stage in {Inserted, LogBroken, SyncBroken}
    && s' == s.(phase := Idle, queue := s.queue[s.phase.count..], lastSequence := s.lastSequence + |GroupOps(GroupOf(s))|,
                bgError := s.bgError || s.phase.stage.SyncBroken?,
                groups := s.groups + [Group(GroupOf(s), s.lastSequence + 1, OutcomeOf(s.phase.stage))])
  }

  function OutcomeOf(stage: Stage): Outcome {
    if stage.LogBroken? then LogFailed else if stage.SyncBroken? then SyncFailed else Committed
  }

  // db_impl.cc:640: another thread reports an error.
  ghost predicate ErrorStep(s: State, s': State) {
    s' == s.(bgError := true)
  }

  ghost predicate Next(s: State, s': State) {
    || (exists w :: ArriveStep(s, s', w)) || NewLogStep(s, s') || RejectStep(s, s') || PassStep(s, s') || LeadStep(s, s')
    || (exists ok :: LogStep(s, s', ok)) || (exists ok :: SyncStep(s, s', ok)) || InsertStep(s, s') || LeaveStep(s, s')
    || FlushStep(s, s') || ErrorStep(s, s')
  }

  /* ---- the invariant ---- */

  predicate Led(g: Group) {
    g.outcome in {LogFailed, SyncFailed, Committed}
  }

  function LastOf(base: nat, groups: seq<Group>): nat {
    if groups == [] then base
    else
      var g := groups[|groups| - 1];
      LastOf(base, groups[..|groups| - 1]) + if Led(g) then |GroupOps(g.writers)| else 0
  }

  // The records of the groups whose record reached the log.
  function Records(groups: seq<Group>): seq<Record> {
    if groups == [] then []
    else
      var g := groups[|groups| - 1];
      Records(groups[..|groups| - 1]) + if g.outcome in {SyncFailed, Committed} then [Record(g.first, GroupOps(g.writers))] else []
  }

  // The entries of the committed groups.
  function Entries(groups: seq<Group>): seq<Entry> {
    if groups == [] then []
    else
      var g := groups[|groups| - 1];
      Entries(groups[..|groups| - 1]) + if g.outcome.Committed? then S.BatchEntries(GroupOps(g.writers), g.first) else []
  }

  // The entries of the operations in some records.
  function EntriesOf(records: seq<Record>): seq<Entry> {
    if records == [] then []
    else
      var r := records[|records| - 1];
      EntriesOf(records[..|records| - 1]) + S.BatchEntries(r.ops, r.first)
  }

  // Every record of the older log files has been inserted.
  ghost predicate SwitchedInserted(s: State) {
    s.logStart <= |s.log| && EntriesOf(s.log[..s.logStart]) <= s.mem
  }

  ghost predicate NoSyncFailed(groups: seq<Group>) {
    forall g :: g in groups ==> !g.outcome.SyncFailed?
  }

  ghost predicate GroupOk(base: nat, groups: seq<Group>, synced: set<nat>, i: nat)
    requires i < |groups|
  {
    var g := groups[i];
    && g.writers != []
    && (Led(g) ==> g.first == LastOf(base, groups[..i]) + 1 && SyncTogether(g.writers) && g.writers[0].batch.Some?)
    && (!Led(g) ==> |g.writers| == 1)
    && (g.outcome.Passed? ==> g.writers[0].batch.None?)
    && (g.outcome.Committed? && g.writers[0].sync ==> |Records(groups[..i])| in synced)
  }

  ghost predicate DistinctIds(writers: seq<Writer>) {
    forall i, j :: 0 <= i < j < |writers| ==> writers[i].id != writers[j].id
  }

  ghost predicate InFlightOk(s: State) {
    s.phase.Busy? ==>
      && 1 <= s.phase.count <= |s.queue| && s.queue[0].batch.Some? && SyncTogether(GroupOf(s))
      && (s.phase.stage in {Synced, Inserted} && s.queue[0].sync ==> |Records(s.groups)| in s.synced)
      && (s.phase.stage in {Synced, SyncBroken} ==> s.queue[0].sync)
  }

  function Pending(s: State): seq<Record>
    requires s.phase.Busy? ==> s.phase.count <= |s.queue|
  {
    if s.phase.Busy? && s.phase.stage in {Logged, Synced, Inserted, SyncBroken} then [Record(s.lastSequence + 1, GroupOps(GroupOf(s)))] else []
  }

  function PendingEntries(s: State): seq<Entry>
    requires s.phase.Busy? ==> s.phase.count <= |s.queue|
  {
    if s.phase.Busy? && s.phase.stage.Inserted? then S.BatchEntries(GroupOps(GroupOf(s)), s.lastSequence + 1) else []
  }

  ghost predicate Inv(s: State) {
    && (forall i :: 0 <= i < |s.groups| ==> GroupOk(s.base, s.groups, s.synced, i))
    && s.lastSequence == LastOf(s.base, s.groups)
    && DistinctIds(Arrived(s))
    && InFlightOk(s)
    && s.log == Records(s.groups) + Pending(s)
    && s.mem == Entries(s.groups) + PendingEntries(s)
    && s.flushed <= s.logStart <= |s.log| - |Pending(s)|
    && SwitchedInserted(s)
    && (s.bgError || NoSyncFailed(s.groups))
  }

  // More in the log and in the memtables leaves the older log files inserted.
  lemma StaysInserted(s: State, s': State)
    requires SwitchedInserted(s) && s'.logStart == s.logStart && s.log <= s'.log && s.mem <= s'.mem
    ensures SwitchedInserted(s')
  {
    hide EntriesOf;
    assert s'.log[..s.logStart] == s.log[..s.logStart];
  }

  // Without a failed sync the log holds what was inserted.
  lemma {:induction false} LogIsInserted(groups: seq<Group>)
    requires NoSyncFailed(groups)
    ensures EntriesOf(Records(groups)) == Entries(groups)
  {
    hide S.BatchEntries, GroupOps;
    if groups != [] {
      var before, g := groups[..|groups| - 1], groups[|groups| - 1];
      assert g in groups && NoSyncFailed(before);
      LogIsInserted(before);
      if g.outcome.Committed? {
        EntriesPush(Records(before), Record(g.first, GroupOps(g.writers)));
      } else {
        AppendNothing(Records(before));
        AppendNothing(Entries(before));
      }
    }
  }

  lemma EntriesPush(records: seq<Record>, r: Record)
    ensures EntriesOf(records + [r]) == EntriesOf(records) + S.BatchEntries(r.ops, r.first)
  {
    assert (records + [r])[..|records|] == records;
  }

  lemma InitInv(s: State)
    requires Init(s)
    ensures Inv(s)
  {
  }

  lemma ArriveKeepsInv(s: State, s': State, w: Writer)
    requires Inv(s) && ArriveStep(s, s', w)
    ensures Inv(s')
  {
    StaysInserted(s, s');
    assert Arrived(s') == Arrived(s) + [w];
    forall x | x in Arrived(s)
      ensures x.id != w.id
    {
    }
    if s.phase.Busy? {
      assert GroupOf(s') == GroupOf(s);
    }
  }

  // A group at the end changes nothing about the groups before it.
  lemma GroupsPush(s: State, g: Group)
    requires forall i :: 0 <= i < |s.groups| ==> GroupOk(s.base, s.groups, s.synced, i)
    requires GroupOk(s.base, s.groups + [g], s.synced, |s.groups|)
    ensures forall i :: 0 <= i < |s.groups| + 1 ==> GroupOk(s.base, s.groups + [g], s.synced, i)
    ensures LastOf(s.base, s.groups + [g]) == LastOf(s.base, s.groups) + if Led(g) then |GroupOps(g.writers)| else 0
    ensures Records(s.groups + [g]) == Records(s.groups) + if g.outcome in {SyncFailed, Committed} then [Record(g.first, GroupOps(g.writers))] else []
    ensures Entries(s.groups + [g]) == Entries(s.groups) + if g.outcome.Committed? then S.BatchEntries(GroupOps(g.writers), g.first) else []
    ensures Left(s.groups + [g]) == Left(s.groups) + g.writers
  {
    var more := s.groups + [g];
    assert more[..|s.groups|] == s.groups;
    forall i | 0 <= i < |s.groups|
      ensures GroupOk(s.base, more, s.synced, i)
    {
      assert GroupOk(s.base, s.groups, s.synced, i);
      assert more[..i] == s.groups[..i];
    }
  }

  // The writers that leave and those that stay are the writers there were.
  lemma LeavingKeepsOrder(s: State, g: Group, n: nat)
    requires n <= |s.queue| && g.writers == s.queue[..n] && Left(s.groups + [g]) == Left(s.groups) + g.writers
    ensures Left(s.groups + [g]) + s.queue[n..] == Arrived(s)
  {
    assert s.queue[..n] + s.queue[n..] == s.queue;
  }

  lemma NewLogKeepsInv(s: State, s': State)
    requires Inv(s) && NewLogStep(s, s')
    ensures Inv(s')
  {
    hide GroupOk, Entries, Records, EntriesOf;
    AppendNothing(Records(s.groups));
    AppendNothing(Entries(s.groups));
    LogIsInserted(s.groups);
    assert s.log[..|s.log|] == s.log;
  }

  lemma FlushKeepsInv(s: State, s': State)
    requires Inv(s) && FlushStep(s, s')
    ensures Inv(s')
  {
    hide GroupOk, Entries, Records, EntriesOf;
    StaysInserted(s, s');
  }

  lemma SingleKeepsInv(s: State, s': State)
    requires Inv(s) && (RejectStep(s, s') || PassStep(s, s'))
    ensures Inv(s')
  {
    StaysInserted(s, s');
    var g := s'.groups[|s.groups|];
    assert (s.groups + [g])[..|s.groups|] == s.groups;
    GroupsPush(s, g);
    LeavingKeepsOrder(s, g, 1);
  }

  lemma LeadKeepsInv(s: State, s': State)
    requires Inv(s) && LeadStep(s, s')
    ensures Inv(s')
  {
    StaysInserted(s, s');
    ExtentTogether(s.queue, 1, s.queue[0].size);
    AppendNothing(Records(s.groups));
    AppendNothing(Entries(s.groups));
  }

  lemma LogKeepsInv(s: State, s': State, ok: bool)
    requires Inv(s) && LogStep(s, s', ok)
    ensures Inv(s')
  {
    StaysInserted(s, s');
    AppendNothing(Records(s.groups));
    AppendNothing(Entries(s.groups));
  }

  lemma SyncKeepsInv(s: State, s': State, ok: bool)
    requires Inv(s) && SyncStep(s, s', ok)
    ensures Inv(s')
  {
    StaysInserted(s, s');
    forall i | 0 <= i < |s.groups|
      ensures GroupOk(s.base, s.groups, s'.synced, i)
    {
      assert GroupOk(s.base, s.groups, s.synced, i);
    }
  }

  lemma InsertKeepsInv(s: State, s': State)
    requires Inv(s) && InsertStep(s, s')
    ensures Inv(s')
  {
    hide GroupOk, Entries, Records, GroupOps, SyncTogether, DistinctIds;
    AppendNothing(Entries(s.groups));
    StaysInserted(s, s');
    assert GroupOf(s') == GroupOf(s) && Arrived(s') == Arrived(s);
    assert s'.mem == Entries(s.groups) + PendingEntries(s');
  }

  lemma LeaveKeepsInv(s: State, s': State)
    requires Inv(s) && LeaveStep(s, s')
    ensures Inv(s')
  {
    var g := s'.groups[|s.groups|];
    assert (s.groups + [g])[..|s.groups|] == s.groups;
    GroupsPush(s, g);
    LeavingKeepsOrder(s, g, s.phase.count);
    StaysInserted(s, s');
    AppendNothing(s'.log);
    AppendNothing(s'.mem);
    AppendNothing(s.log);
    AppendNothing(s.mem);
  }

  lemma NextKeepsInv(s: State, s': State)
    requires Inv(s) && Next(s, s')
    ensures Inv(s')
  {
    if w :| ArriveStep(s, s', w) {
      ArriveKeepsInv(s, s', w);
    } else if NewLogStep(s, s') {
      NewLogKeepsInv(s, s');
    } else if FlushStep(s, s') {
      FlushKeepsInv(s, s');
    } else if RejectStep(s, s') || PassStep(s, s') {
      SingleKeepsInv(s, s');
    } else if LeadStep(s, s') {
      LeadKeepsInv(s, s');
    } else if ok :| LogStep(s, s', ok) {
      LogKeepsInv(s, s', ok);
    } else if ok :| SyncStep(s, s', ok) {
      SyncKeepsInv(s, s', ok);
    } else if InsertStep(s, s') {
      InsertKeepsInv(s, s');
    } else if LeaveStep(s, s') {
      LeaveKeepsInv(s, s');
    }
  }

  /* ---- what the invariant gives ---- */

  lemma {:induction false} BatchAt(batch: seq<Op>, first: nat)
    ensures |S.BatchEntries(batch, first)| == |batch|
    ensures forall k :: 0 <= k < |batch| ==> S.BatchEntries(batch, first)[k] == Entry(batch[k].key, first + k, batch[k].kind)
  {
    if batch != [] {
      BatchAt(batch[..|batch| - 1], first);
    }
  }

  lemma BatchAppend(a: seq<Op>, b: seq<Op>, first: nat)
    ensures S.BatchEntries(a + b, first) == S.BatchEntries(a, first) + S.BatchEntries(b, first + |a|)
  {
    BatchAt(a + b, first);
    BatchAt(a, first);
    BatchAt(b, first + |a|);
  }

  lemma Joined<T>(a: seq<T>, b: seq<T>, c: seq<T>)
    ensures a + b + c == a + (b + c)
  {
  }

  lemma {:induction false} GroupOpsAppend(a: seq<Writer>, b: seq<Writer>)
    ensures GroupOps(a + b) == GroupOps(a) + GroupOps(b)
  {
    if b == [] {
      assert a + b == a;
    } else {
      var n := |b| - 1;
      hide OpsOf;
      GroupOpsAppend(a, b[..n]);
      assert (a + b)[..|a + b| - 1] == a + b[..n] && (a + b)[|a + b| - 1] == b[n];
      Joined(GroupOps(a), GroupOps(b[..n]), OpsOf(b[n]));
    }
  }

  // A writer's operations in its group, and what is before and after them.
  lemma WriterInGroup(writers: seq<Writer>, j: nat)
    requires j < |writers|
    ensures GroupOps(writers) == GroupOps(writers[..j]) + OpsOf(writers[j]) + GroupOps(writers[j + 1..])
  {
    assert writers == writers[..j + 1] + writers[j + 1..];
    GroupOpsAppend(writers[..j + 1], writers[j + 1..]);
    GroupOpsPush(writers, j);
  }

  lemma {:induction false} GroupsBefore(groups: seq<Group>, i: nat)
    requires i < |groups|
    ensures Entries(groups[..i + 1]) <= Entries(groups) && Records(groups[..i + 1]) <= Records(groups)
    decreases |groups|
  {
    if i + 1 == |groups| {
      assert groups[..i + 1] == groups;
    } else {
      GroupsBefore(groups[..|groups| - 1], i);
      assert groups[..|groups| - 1][..i + 1] == groups[..i + 1];
    }
  }

  // The sequence number of a writer's first operation, and the place of its entries.
  function FirstOf(g: Group, j: nat): nat
    requires j < |g.writers|
  {
    g.first + |GroupOps(g.writers[..j])|
  }

  function PlaceOf(groups: seq<Group>, i: nat, j: nat): nat
    requires i < |groups| && j < |groups[i].writers|
  {
    |Entries(groups[..i])| + |GroupOps(groups[i].writers[..j])|
  }

  lemma Middle<T>(all: seq<T>, a: seq<T>, b: seq<T>, c: seq<T>)
    requires a + b + c <= all
    ensures |a| + |b| <= |all| && all[|a|..|a| + |b|] == b
  {
  }

  lemma WriterEntries(writers: seq<Writer>, first: nat, j: nat) returns (ea: seq<Entry>, ec: seq<Entry>)
    requires j < |writers|
    ensures |ea| == |GroupOps(writers[..j])| && |S.BatchEntries(OpsOf(writers[j]), first + |ea|)| == |OpsOf(writers[j])|
    ensures S.BatchEntries(GroupOps(writers), first) == ea + S.BatchEntries(OpsOf(writers[j]), first + |ea|) + ec
  {
    hide GroupOps, S.BatchEntries, OpsOf;
    var a, b, c := GroupOps(writers[..j]), OpsOf(writers[j]), GroupOps(writers[j + 1..]);
    WriterInGroup(writers, j);
    BatchAppend(a, b, first);
    BatchAppend(a + b, c, first);
    BatchAt(a, first);
    BatchAt(b, first + |a|);
    ea, ec := S.BatchEntries(a, first), S.BatchEntries(c, first + |a + b|);
  }

  lemma Regroup<T>(w: seq<T>, a: seq<T>, b: seq<T>, c: seq<T>)
    ensures w + (a + b + c) == w + a + b + c
  {
  }

  lemma EntriesOfGroup(groups: seq<Group>, i: nat)
    requires i < |groups| && groups[i].outcome.Committed?
    ensures Entries(groups[..i]) + S.BatchEntries(GroupOps(groups[i].writers), groups[i].first) <= Entries(groups)
  {
    GroupsBefore(groups, i);
    assert groups[..i + 1][..i] == groups[..i];
  }

  // The operations of every writer of a committed group are in the memtable, together and
  // in order, with consecutive sequence numbers.
  lemma CommittedInMemtable(s: State, i: nat, j: nat)
    requires Inv(s) && i < |s.groups| && s.groups[i].outcome.Committed? && j < |s.groups[i].writers|
    ensures var at, ops := PlaceOf(s.groups, i, j), OpsOf(s.groups[i].writers[j]);
            at + |ops| <= |s.mem| && s.mem[at..at + |ops|] == S.BatchEntries(ops, FirstOf(s.groups[i], j))
  {
    hide S.BatchEntries, GroupOps, Entries;
    var g, before := s.groups[i], Entries(s.groups[..i]);
    var ea, ec := WriterEntries(g.writers, g.first, j);
    EntriesOfGroup(s.groups, i);
    Regroup(before, ea, S.BatchEntries(OpsOf(g.writers[j]), g.first + |ea|), ec);
    Middle(s.mem, before + ea, S.BatchEntries(OpsOf(g.writers[j]), g.first + |ea|), ec);
  }

  // They are in the log too, together and in order, in one record.
  lemma CommittedInLog(s: State, i: nat, j: nat)
    requires Inv(s) && i < |s.groups| && s.groups[i].outcome.Committed? && j < |s.groups[i].writers|
    ensures var r, g := |Records(s.groups[..i])|, s.groups[i];
            var at, ops := |GroupOps(g.writers[..j])|, OpsOf(g.writers[j]);
            && r < |s.log| && s.log[r].first == g.first
            && at + |ops| <= |s.log[r].ops| && s.log[r].ops[at..at + |ops|] == ops
  {
    var g := s.groups[i];
    WriterInGroup(g.writers, j);
    GroupsBefore(s.groups, i);
    assert s.groups[..i + 1][..i] == s.groups[..i];
    Middle(GroupOps(g.writers), GroupOps(g.writers[..j]), OpsOf(g.writers[j]), GroupOps(g.writers[j + 1..]));
    Middle(s.log, Records(s.groups[..i]), [Record(g.first, GroupOps(g.writers))], []);
    AppendNothing(Records(s.groups[..i]) + [Record(g.first, GroupOps(g.writers))]);
  }

  // A write that asked to be synced and was acknowledged is on disk.
  lemma CommittedSyncIsDurable(s: State, i: nat, j: nat)
    requires Inv(s) && i < |s.groups| && s.groups[i].outcome.Committed?
    requires j < |s.groups[i].writers| && s.groups[i].writers[j].sync
    ensures |Records(s.groups[..i])| in s.synced
  {
    assert GroupOk(s.base, s.groups, s.synced, i);
  }

  lemma {:induction false} LastGrows(base: nat, groups: seq<Group>, i: nat)
    requires i <= |groups|
    ensures LastOf(base, groups[..i]) <= LastOf(base, groups)
    decreases |groups|
  {
    if i == |groups| {
      assert groups[..i] == groups;
    } else {
      LastGrows(base, groups[..|groups| - 1], i);
      assert groups[..|groups| - 1][..i] == groups[..i];
    }
  }

  lemma OpsBefore(writers: seq<Writer>, j: nat, l: nat)
    requires j < l <= |writers|
    ensures |GroupOps(writers[..j])| + |OpsOf(writers[j])| <= |GroupOps(writers[..l])|
  {
    GroupOpsPush(writers, j);
    assert writers[..l] == writers[..j + 1] + writers[j + 1..l];
    GroupOpsAppend(writers[..j + 1], writers[j + 1..l]);
  }

  lemma LastThrough(base: nat, groups: seq<Group>, i: nat, k: nat)
    requires i < k <= |groups| && Led(groups[i])
    ensures LastOf(base, groups[..i]) + |GroupOps(groups[i].writers)| <= LastOf(base, groups[..k])
  {
    LastGrows(base, groups[..k], i + 1);
    assert groups[..k][..i + 1] == groups[..i + 1] && groups[..i + 1][..i] == groups[..i];
  }

  // Different writers never share a sequence number: those that left earlier have the
  // smaller ones.
  lemma SequencesApart(s: State, i: nat, j: nat, k: nat, l: nat)
    requires Inv(s) && i < |s.groups| && k < |s.groups| && Led(s.groups[i]) && Led(s.groups[k])
    requires j < |s.groups[i].writers| && l < |s.groups[k].writers|
    requires i < k || (i == k && j < l)
    ensures FirstOf(s.groups[i], j) + |OpsOf(s.groups[i].writers[j])| <= FirstOf(s.groups[k], l)
  {
    assert GroupOk(s.base, s.groups, s.synced, i) && GroupOk(s.base, s.groups, s.synced, k);
    var writers := s.groups[i].writers;
    if i == k {
      OpsBefore(writers, j, l);
    } else {
      assert writers[..|writers|] == writers;
      OpsBefore(writers, j, |writers|);
      LastThrough(s.base, s.groups, i, k);
    }
  }

  // The sequence numbers strictly increase up to a last one.
  ghost predicate Ascending(es: seq<Entry>, last: nat) {
    && (forall a :: 0 <= a < |es| ==> es[a].sn <= last)
    && (forall a, b :: 0 <= a < b < |es| ==> es[a].sn < es[b].sn)
  }

  lemma AscendingPush(es: seq<Entry>, last: nat, ops: seq<Op>)
    requires Ascending(es, last)
    ensures Ascending(es + S.BatchEntries(ops, last + 1), last + |ops|) && Ascending(es + [], last + |ops|)
  {
    BatchAt(ops, last + 1);
  }

  lemma {:induction false} GroupsAscend(s: State, n: nat)
    requires n <= |s.groups| && forall i :: 0 <= i < |s.groups| ==> GroupOk(s.base, s.groups, s.synced, i)
    ensures Ascending(Entries(s.groups[..n]), LastOf(s.base, s.groups[..n]))
    ensures Ascending(EntriesOf(Records(s.groups[..n])), LastOf(s.base, s.groups[..n]))
  {
    hide S.BatchEntries, GroupOps, Ascending;
    if n == 0 {
      NothingAscends(s.base);
    } else {
      GroupsAscend(s, n - 1);
      assert GroupOk(s.base, s.groups, s.synced, n - 1);
      assert s.groups[..n][..n - 1] == s.groups[..n - 1];
      var last, g, records := LastOf(s.base, s.groups[..n - 1]), s.groups[n - 1], Records(s.groups[..n - 1]);
      AscendingPush(Entries(s.groups[..n - 1]), last, if Led(g) then GroupOps(g.writers) else []);
      AscendingPush(EntriesOf(records), last, if Led(g) then GroupOps(g.writers) else []);
      EntriesPush(records, Record(g.first, GroupOps(g.writers)));
      AppendNothing(EntriesOf(records));
      AppendNothing(records);
    }
  }

  lemma NothingAscends(last: nat)
    ensures Ascending([], last)
  {
  }

  // Nothing is inserted twice: sequence numbers strictly increase through the memtables.
  // Readers at the last sequence number see whole groups only.
  lemma MemtableOrdered(s: State)
    requires Inv(s)
    ensures forall a, b :: 0 <= a < b < |s.mem| ==> s.mem[a].sn < s.mem[b].sn
    ensures forall a :: 0 <= a < |s.mem| ==> (s.mem[a].sn <= s.lastSequence <==> a < |Entries(s.groups)|)
  {
    assert s.groups[..|s.groups|] == s.groups;
    GroupsAscend(s, |s.groups|);
    if s.phase.Busy? {
      BatchAt(GroupOps(GroupOf(s)), s.lastSequence + 1);
    }
  }

  // Nor is anything logged twice.
  lemma LogOrdered(s: State)
    requires Inv(s)
    ensures forall a, b :: 0 <= a < b < |EntriesOf(s.log)| ==> EntriesOf(s.log)[a].sn < EntriesOf(s.log)[b].sn
  {
    hide GroupOps, S.BatchEntries;
    assert s.groups[..|s.groups|] == s.groups;
    GroupsAscend(s, |s.groups|);
    var records := Records(s.groups);
    if Pending(s) == [] {
      AppendNothing(records);
    } else {
      EntriesPush(records, Pending(s)[0]);
      AscendingPush(EntriesOf(records), s.lastSequence, GroupOps(GroupOf(s)));
    }
  }

  lemma {:induction false} EntriesJoin(a: seq<Record>, b: seq<Record>)
    ensures EntriesOf(a + b) == EntriesOf(a) + EntriesOf(b)
  {
    hide S.BatchEntries;
    if b == [] {
      AppendNothing(a);
      AppendNothing(EntriesOf(a));
    } else {
      var n := |b| - 1;
      EntriesJoin(a, b[..n]);
      assert a + b == a + b[..n] + [b[n]];
      EntriesPush(a + b[..n], b[n]);
      Joined(EntriesOf(a), EntriesOf(b[..n]), S.BatchEntries(b[n].ops, b[n].first));
    }
  }

  /* ---- whole runs ---- */

  ghost predicate IsRun(run: seq<State>) {
    run != [] && Init(run[0]) && forall i :: 0 <= i < |run| - 1 ==> Next(run[i], run[i + 1])
  }

  lemma {:induction false} RunInv(run: seq<State>, n: nat)
    requires IsRun(run) && n < |run|
    ensures Inv(run[n])
  {
    if n == 0 {
      InitInv(run[0]);
    } else {
      RunInv(run, n - 1);
      NextKeepsInv(run[n - 1], run[n]);
    }
  }

  // s' comes after s: the last sequence number has not decreased, no acknowledgement has
  // been taken back, and writers have left in the order in which they arrived.
  ghost predicate Follows(s: State, s': State) {
    s.lastSequence <= s'.lastSequence && s.groups <= s'.groups && Arrived(s) <= Arrived(s')
  }

  lemma LeavingFollows(s: State, s': State, g: Group, n: nat)
    requires n <= |s.queue| && g.writers == s.queue[..n] && s.lastSequence <= s'.lastSequence
    requires s'.groups == s.groups + [g] && s'.queue == s.queue[n..]
    ensures Follows(s, s')
  {
    assert (s.groups + [g])[..|s.groups|] == s.groups;
    LeavingKeepsOrder(s, g, n);
  }

  lemma NextFollows(s: State, s': State)
    requires Inv(s) && Next(s, s')
    ensures Follows(s, s')
  {
    hide GroupOps, EntriesOf, Entries, Records, GroupOk, SwitchedInserted, NoSyncFailed, SyncTogether, DistinctIds, S.BatchEntries, GroupCount;
    if w :| ArriveStep(s, s', w) {
      assert Arrived(s') == Arrived(s) + [w];
    } else if RejectStep(s, s') || PassStep(s, s') {
      LeavingFollows(s, s', s'.groups[|s.groups|], 1);
    } else if LeaveStep(s, s') {
      LeavingFollows(s, s', s'.groups[|s.groups|], s.phase.count);
    } else {
      assert s'.queue == s.queue && s'.groups == s.groups;
    }
  }

  lemma FollowsTrans(a: State, b: State, c: State)
    requires Follows(a, b) && Follows(b, c)
    ensures Follows(a, c)
  {
  }

  lemma {:induction false} RunFollows(run: seq<State>, i: nat, j: nat)
    requires IsRun(run) && i <= j < |run|
    ensures Follows(run[i], run[j])
    decreases j
  {
    hide Next, Inv, Follows;
    if i < j {
      RunFollows(run, i, j - 1);
      RunInv(run, j - 1);
      NextFollows(run[j - 1], run[j]);
      FollowsTrans(run[i], run[j - 1], run[j]);
    } else {
      FollowsItself(run[i]);
    }
  }

  lemma FollowsItself(s: State)
    ensures Follows(s, s)
  {
  }

  /* ---- after an error ---- */

  // The group that was under way is the last one that is not turned away; with none under
  // way, nothing is written any more.
  ghost predicate Halted(s: State, t: State) {
    var last := |s.groups| + (if s.phase.Busy? then 1 else 0);
    && t.bgError && |t.groups| >= |s.groups| && (t.phase.Busy? ==> s.phase.Busy? && |t.groups| == |s.groups|)
    && (forall k :: last <= k < |t.groups| ==> t.groups[k].outcome.Rejected?)
    && (s.phase.Idle? ==> t.log == s.log && t.mem == s.mem && t.lastSequence == s.lastSequence)
  }

  lemma StaysHalted(s: State, t: State, t': State)
    requires Halted(s, t) && Next(t, t')
    ensures Halted(s, t')
  {
    hide GroupOps, GroupCount, S.BatchEntries, NewId;
  }

  // Once an error is set, by a failed sync or by another thread, no later writer is
  // acknowledged and nothing more is written.
  lemma {:induction false} HaltedAfterError(run: seq<State>, i: nat, j: nat)
    requires IsRun(run) && i <= j < |run| && run[i].bgError
    ensures Halted(run[i], run[j])
    decreases j
  {
    hide Next;
    if i < j {
      HaltedAfterError(run, i, j - 1);
      hide Halted;
      StaysHalted(run[i], run[j - 1], run[j]);
    }
  }

  // In particular after a group whose sync failed.
  lemma {:induction false} NothingAfterFailedSync(run: seq<State>, n: nat, a: nat, b: nat)
    requires IsRun(run) && n < |run| && a < b < |run[n].groups| && run[n].groups[a].outcome.SyncFailed?
    ensures run[n].groups[b].outcome.Rejected?
  {
    hide IsRun, Halted;
    var m := SyncFails(run, n, a);
    HaltedAfterError(run, m, n);
    HaltedAt(run[m], run[n], b);
  }

  lemma HaltedAt(s: State, t: State, b: nat)
    requires Halted(s, t) && s.phase.Idle? && |s.groups| <= b < |t.groups|
    ensures t.groups[b].outcome.Rejected?
  {
  }

  lemma RunParts(run: seq<State>, n: nat)
    requires IsRun(run) && n < |run|
    ensures if n == 0 then run[n].groups == [] else Next(run[n - 1], run[n])
  {
    hide Next;
    if n > 0 {
      var m := n - 1;
      assert Next(run[m], run[m + 1]);
    }
  }

  // The step at which a group left whose sync had failed.
  lemma {:induction false} SyncFails(run: seq<State>, n: nat, a: nat) returns (m: nat)
    requires IsRun(run) && n < |run| && a < |run[n].groups| && run[n].groups[a].outcome.SyncFailed?
    ensures m <= n && |run[m].groups| == a + 1 && run[m].phase.Idle? && run[m].bgError
    decreases n
  {
    hide IsRun, Next;
    RunParts(run, n);
    if n > 0 {
      GroupsStay(run[n - 1], run[n]);
      if a < |run[n - 1].groups| {
        m := SyncFails(run, n - 1, a);
      } else {
        m := n;
      }
    }
  }

  lemma GroupsStay(s: State, t: State)
    requires Next(s, t)
    ensures s.groups <= t.groups && |t.groups| <= |s.groups| + 1
    ensures |t.groups| == |s.groups| + 1 && t.groups[|s.groups|].outcome.SyncFailed? ==> t.phase.Idle? && t.bgError
  {
    hide GroupOps, GroupCount, S.BatchEntries, NewId;
  }

  /* ---- the queue itself ---- */

  class WriteQueue {
    var writers: seq<Writer>
    var phase: Phase
    var lastSequence: nat
    var bgError: bool
    var log: seq<Record>
    var mem: seq<Entry>
    const base: nat
    ghost var logStart: nat
    ghost var flushed: nat
    ghost var synced: set<nat>
    ghost var groups: seq<Group>

    ghost function Abs(): State
      reads this
    {
      State(writers, phase, base, lastSequence, bgError, log, logStart, flushed, synced, mem, groups)
    }

    constructor (base: nat)
      ensures Inv(Abs()) && Init(Abs())
    {
      this.base, writers, phase, lastSequence, bgError := base, [], Idle, base, false;
      log, mem, logStart, flushed, synced, groups := [], [], 0, 0, {}, [];
      new;
      InitInv(Abs());
    }

    // db_impl.cc:1192
    method Arrive(w: Writer)
      requires Inv(Abs()) && NewId(Abs(), w.id)
      modifies this
      ensures Inv(Abs()) && ArriveStep(old(Abs()), Abs(), w)
    {
      ghost var before := Abs();
      writers := writers + [w];
      ArriveKeepsInv(before, Abs(), w);
    }

    // db_impl.cc:1204: the front writer gathers a group, if it has something to write.
    method Lead(roomMade: bool) returns (batch: seq<Op>)
      requires Inv(Abs()) && phase.Idle? && writers != [] && (roomMade ==> !bgError)
      modifies this
      ensures Inv(Abs())
      ensures if !roomMade then RejectStep(old(Abs()), Abs())
              else if old(writers)[0].batch.None? then PassStep(old(Abs()), Abs())
              else LeadStep(old(Abs()), Abs()) && batch == GroupOps(GroupOf(Abs()))
    {
      ghost var before := Abs();
      batch := [];
      if !roomMade || writers[0].batch.None? {
        groups := groups + [Group(writers[..1], 0, if roomMade then Passed else Rejected)];
        writers := writers[1..];
        SingleKeepsInv(before, Abs());
      } else {
        var count, ops := BuildBatchGroup(writers);
        batch, phase := ops, Busy(count, Gathered);
        LeadKeepsInv(before, Abs());
      }
    }

    // db_impl.cc:1215
    method AddRecord(batch: seq<Op>, ok: bool)
      requires Inv(Abs()) && At(Abs(), Gathered) && batch == GroupOps(GroupOf(Abs()))
      modifies this
      ensures Inv(Abs()) && LogStep(old(Abs()), Abs(), ok)
    {
      ghost var before := Abs();
      if ok {
        log := log + [Record(lastSequence + 1, batch)];
      }
      phase := Busy(phase.count, if ok then Logged else LogBroken);
      LogKeepsInv(before, Abs(), ok);
    }

    // db_impl.cc:1224
    method InsertInto(batch: seq<Op>)
      requires Inv(Abs()) && phase.Busy? && batch == GroupOps(GroupOf(Abs()))
      requires phase.stage == if writers[0].sync then Synced else Logged
      modifies this
      ensures Inv(Abs()) && InsertStep(old(Abs()), Abs())
    {
      ghost var before := Abs();
      mem := mem + S.BatchEntries(batch, lastSequence + 1);
      phase := Busy(phase.count, Inserted);
      InsertKeepsInv(before, Abs());
    }

    // db_impl.cc:1218
    method Sync(ok: bool)
      requires Inv(Abs()) && At(Abs(), Logged) && writers[0].sync
      modifies this
      ensures Inv(Abs()) && SyncStep(old(Abs()), Abs(), ok)
    {
      ghost var before := Abs();
      if ok {
        synced := synced + Indices(logStart, |log|);
      }
      phase := Busy(phase.count, if ok then Synced else SyncBroken);
      SyncKeepsInv(before, Abs(), ok);
    }

    // db_impl.cc:1239: pop the writers of the group, one after another.
    method PopGroup(count: nat)
      requires count <= |writers|
      modifies `writers
      ensures writers == old(writers)[count..]
    {
      var popped := 0;
      while popped < count
        invariant popped <= count && writers == old(writers)[popped..]
      {
        writers := writers[1..];
        popped := popped + 1;
      }
    }

    // db_impl.cc:1227
    method Leave(batch: seq<Op>)
      requires Inv(Abs()) && phase.Busy? && phase.stage in {Inserted, LogBroken, SyncBroken}
      requires batch == GroupOps(GroupOf(Abs()))
      modifies this
      ensures Inv(Abs()) && LeaveStep(old(Abs()), Abs())
    {
      ghost var before := Abs();
      bgError := bgError || phase.stage == SyncBroken;
      lastSequence := lastSequence + |batch|;
      groups := groups + [Group(GroupOf(before), before.lastSequence + 1, OutcomeOf(phase.stage))];
      PopGroup(phase.count);
      phase := Idle;
      assert LeaveStep(before, Abs());
      LeaveKeepsInv(before, Abs());
    }
  }
}
