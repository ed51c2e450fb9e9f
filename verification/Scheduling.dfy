/**
 Scheduling of background work (db/db_impl.cc MaybeScheduleCompaction, BackgroundCall,
 MakeRoomForWrite; db/version_set.cc Finalize). A step is what one thread does between
 taking the lock and giving it back. Whenever the lock is free and there is work, a
 background call is pending; and no thread waits for a signal that nothing will send.
 */
module Scheduling {
  import opened Keys
  import opened Tables
  import opened Selection

  /* ---- when a version needs compaction ---- */

  // dbformat.h:26 and dbformat.h:32
  const L0_COMPACTION_TRIGGER := 4
  const L0_STOP_WRITES_TRIGGER := 12

  // version_set.cc:43
  function MaxBytesForLevel(level: nat): (r: real)
    ensures r > 0.0
  {
    if level <= 1 then 10485760.0 else 10.0 * MaxBytesForLevel(level - 1)
  }

  // version_set.cc:1055: how full a level is.
  function Score(v: Version, level: nat): real
    requires level + 1 < NUM_LEVELS
  {
    if level == 0 then |v[0]| as real / L0_COMPACTION_TRIGGER as real
    else TotalFileSize(v[level]) as real / MaxBytesForLevel(level)
  }

  // The level to compact next, and its score (version_set.cc:1050).
  method Finalize(v: Version) returns (level: nat, score: real)
    ensures level + 1 < NUM_LEVELS && score == Score(v, level)
    ensures forall l :: 0 <= l && l + 1 < NUM_LEVELS ==> Score(v, l) <= score
    ensures forall l :: 0 <= l < level ==> Score(v, l) < score
  {
    ScoreNotNegative(v, 0);
    level, score := 0, Score(v, 0);
    for l := 1 to NUM_LEVELS - 1
      invariant level < l && score == Score(v, level)
      invariant forall m :: 0 <= m < l ==> Score(v, m) <= score
      invariant forall m :: 0 <= m < level ==> Score(v, m) < score
    {
      var s := TotalFileSize(v[l]) as real / MaxBytesForLevel(l);
      if s > score {
        level, score := l, s;
      }
    }
  }

  lemma ScoreNotNegative(v: Version, level: nat)
    requires level + 1 < NUM_LEVELS
    ensures Score(v, level) >= 0.0
  {
  }

  // version_set.h:252: some level is too full, or a file has been sought through too often.
  ghost predicate TooFull(v: Version) {
    exists l :: 0 <= l && l + 1 < NUM_LEVELS && Score(v, l) >= 1.0
  }

  // Writes never stop without a compaction being due.
  lemma StoppedIsTooFull(v: Version)
    requires |v[0]| >= L0_STOP_WRITES_TRIGGER
    ensures TooFull(v)
  {
    assert Score(v, 0) >= 3.0;
  }

  /* ---- the state at the points where the lock is free ---- */

  // Where the background call is: not scheduled, scheduled, writing out the immutable
  // memtable, compacting (for a manual request or not), or done but not yet unscheduled.
  datatype Call = Absent | Queued | Flushing | Compacting(forManual: bool) | Ending

  // manual: the request being served; seek: a file has been sought through too often;
  // waiting: the threads blocked on the signal that background work has finished.
  datatype State = State(
    scheduled: bool, call: Call, shuttingDown: bool, bgError: bool, imm: bool, manual: Option<nat>,
    version: Version, seek: bool, waiting: set<nat>)

  ghost predicate NeedsCompaction(s: State) {
    TooFull(s.version) || s.seek
  }

  ghost predicate HasWork(s: State) {
    s.imm || s.manual.Some? || NeedsCompaction(s)
  }

  // db_impl.cc:648
  ghost function MaybeSchedule(s: State): State {
    if s.scheduled || s.shuttingDown || s.bgError || !HasWork(s) then s else s.(scheduled := true, call := Queued)
  }

  // db_impl.cc:640: the first error is kept, and everybody is woken up.
  ghost function RecordError(s: State): State {
    if s.bgError then s else s.(bgError := true, waiting := {})
  }

  ghost predicate Inv(s: State) {
    && (s.scheduled <==> !s.call.Absent?)
    && (!s.bgError && !s.shuttingDown && HasWork(s) ==> s.scheduled)
    && (s.waiting != {} && !s.shuttingDown ==> s.scheduled)
    && (s.call.Flushing? ==> s.imm)
    && (Orphaned(s) ==> s.bgError || s.shuttingDown)
    && (s.bgError && !s.shuttingDown ==> s.waiting == {})
  }

  /* ---- steps of foreground threads ---- */

  ghost predicate OpenStep(s: State, s': State) {
    && s.call.Absent? && !s.scheduled && !s.shuttingDown && !s.bgError && !s.imm && s.manual.None? && s.waiting == {}
    && s' == MaybeSchedule(s)
  }

  // What a writer at the head of the queue does when asked to make room (db_impl.cc:1315).
  datatype Room = Fail | Delay | Enough | WaitForImm | WaitForLevel0 | SwitchMemTable

  function MakeRoom(s: State, force: bool, allowDelay: bool, full: bool): Room {
    if s.bgError then Fail
    else if allowDelay && |s.version[0]| >= 8 then Delay
    else if !force && !full then Enough
    else if s.imm then WaitForImm
    else if |s.version[0]| >= L0_STOP_WRITES_TRIGGER then WaitForLevel0
    else SwitchMemTable
  }

  ghost predicate RoomStep(s: State, s': State, t: nat, force: bool, allowDelay: bool, full: bool) {
    match MakeRoom(s, force, allowDelay, full)
    case Fail => s' == s
    case Delay => s' == s
    case Enough => s' == s
    case WaitForImm => s' == s.(waiting := s.waiting + {t})
    case WaitForLevel0 => s' == s.(waiting := s.waiting + {t})
    case SwitchMemTable => s' == MaybeSchedule(s.(imm := true))
  }

  // db_impl.cc:609
  ghost predicate ManualStep(s: State, s': State, t: nat) {
    && !s.shuttingDown && !s.bgError
    && s' == if s.manual.None? then MaybeSchedule(s.(manual := Some(t))) else s.(waiting := s.waiting + {t})
  }

  // db_impl.cc:618: a thread gives up on its request after an error or at shutdown.
  ghost predicate CancelStep(s: State, s': State, t: nat) {
    s.manual == Some(t) && (s.bgError || s.shuttingDown) && s' == s.(manual := None)
  }

  // db_impl.cc:630
  ghost predicate AwaitFlushStep(s: State, s': State, t: nat) {
    s.imm && !s.bgError && s' == s.(waiting := s.waiting + {t})
  }

  // db_impl.cc:1138: a read has used up the seeks of a file.
  ghost predicate SeekStep(s: State, s': State) {
    s' == MaybeSchedule(s.(seek := true))
  }

  // db_impl.cc:1227
  ghost predicate WriteErrorStep(s: State, s': State) {
    s' == RecordError(s)
  }

  // db_impl.cc:156
  ghost predicate ShutdownStep(s: State, s': State, t: nat) {
    s' == s.(shuttingDown := true, waiting := if s.scheduled then s.waiting + {t} else s.waiting)
  }

  ghost predicate ForegroundStep(s: State, s': State) {
    || (exists t, force, allowDelay, full :: RoomStep(s, s', t, force, allowDelay, full))
    || (exists t :: ManualStep(s, s', t)) || (exists t :: CancelStep(s, s', t)) || (exists t :: AwaitFlushStep(s, s', t))
    || SeekStep(s, s') || WriteErrorStep(s, s') || (exists t :: ShutdownStep(s, s', t))
  }

  /* ---- steps of the background thread ---- */

  // db_impl.cc:669 and db_impl.cc:691
  ghost predicate StartStep(s: State, s': State) {
    && s.call.Queued?
    && s' == s.(call := if s.shuttingDown || s.bgError then Ending else if s.imm then Flushing else Compacting(s.manual.Some?))
  }

  // db_impl.cc:535: the memtable is written out and let go, or an error is recorded.
  ghost predicate FlushStep(s: State, s': State, ok: bool) {
    && s.call.Flushing?
    && s' == if ok then s.(imm := false, version := s'.version, seek := s'.seek, call := Ending) else RecordError(s).(call := Ending)
  }

  // db_impl.cc:908: a compaction stops to write out a memtable.
  ghost predicate InterruptStep(s: State, s': State, ok: bool) {
    && s.call.Compacting? && s.imm
    && s' == if ok then s.(imm := false, version := s'.version, seek := s'.seek, waiting := {})
             else RecordError(s).(waiting := {})
  }

  // The request was given up while the compaction for it runs: at its end the code reads
  // through the pointer that the thread has set to null (db_impl.cc:755).
  ghost predicate Orphaned(s: State) {
    s.call == Compacting(true) && s.manual.None?
  }

  // db_impl.cc:716 to 766
  ghost predicate WorkStep(s: State, s': State, ok: bool) {
    && s.call.Compacting? && !Orphaned(s)
    && s' == (if ok then s.(version := s'.version, seek := s'.seek) else RecordError(s))
             .(manual := if s.call.forManual then None else s.manual, call := Ending)
  }

  // db_impl.cc:680
  ghost predicate EndStep(s: State, s': State) {
    s.call.Ending? && s' == MaybeSchedule(s.(scheduled := false, call := Absent)).(waiting := {})
  }

  ghost predicate BackgroundStep(s: State, s': State) {
    || StartStep(s, s') || (exists ok :: FlushStep(s, s', ok)) || (exists ok :: InterruptStep(s, s', ok))
    || (exists ok :: WorkStep(s, s', ok)) || EndStep(s, s')
  }

  /* ---- what holds at every point where the lock is free ---- */

  lemma ForegroundKeepsInv(s: State, s': State)
    requires Inv(s) && ForegroundStep(s, s')
    ensures Inv(s')
  {
    if t, force, allowDelay, full :| RoomStep(s, s', t, force, allowDelay, full) {
      if MakeRoom(s, force, allowDelay, full).WaitForLevel0? {
        StoppedIsTooFull(s.version);
      }
    }
  }

  lemma WorkKeepsInv(s: State, s': State, ok: bool)
    requires Inv(s) && (WorkStep(s, s', ok) || InterruptStep(s, s', ok))
    ensures Inv(s')
  {
    hide TooFull, NeedsCompaction;
  }

  lemma BackgroundKeepsInv(s: State, s': State)
    requires Inv(s) && BackgroundStep(s, s')
    ensures Inv(s')
  {
    hide WorkStep, InterruptStep;
    if ok :| WorkStep(s, s', ok) || InterruptStep(s, s', ok) {
      WorkKeepsInv(s, s', ok);
    } else {
      hide TooFull;
    }
  }

  ghost predicate IsRun(run: seq<State>) {
    && |run| >= 2 && OpenStep(run[0], run[1])
    && forall i :: 1 <= i < |run| - 1 ==> ForegroundStep(run[i], run[i + 1]) || BackgroundStep(run[i], run[i + 1])
  }

  lemma {:induction false} RunInv(run: seq<State>, n: nat)
    requires IsRun(run) && 1 <= n < |run|
    ensures Inv(run[n])
  {
    if n > 1 {
      RunInv(run, n - 1);
      if ForegroundStep(run[n - 1], run[n]) {
        ForegroundKeepsInv(run[n - 1], run[n]);
      } else {
        BackgroundKeepsInv(run[n - 1], run[n]);
      }
    }
  }

  // In every run, work that can be done is about to be done.
  lemma WorkIsScheduled(run: seq<State>, n: nat)
    requires IsRun(run) && 1 <= n < |run| && HasWork(run[n]) && !run[n].bgError && !run[n].shuttingDown
    ensures !run[n].call.Absent?
  {
    RunInv(run, n);
  }

  // A call is scheduled for work alone, and neither after an error nor during a shutdown.
  lemma ScheduledForWork(s: State, s': State)
    requires ForegroundStep(s, s') || BackgroundStep(s, s')
    requires !s.call.Queued? && s'.call.Queued?
    ensures HasWork(s') && !s'.bgError && !s'.shuttingDown
  {
    hide ForegroundStep, BackgroundStep;
    if ForegroundStep(s, s') {
      ForegroundSchedules(s, s');
    } else {
      EndSchedules(s, s');
    }
  }

  lemma EndSchedules(s: State, s': State)
    requires BackgroundStep(s, s') && !s.call.Queued? && s'.call.Queued?
    ensures HasWork(s') && !s'.bgError && !s'.shuttingDown
  {
    hide TooFull, MaybeSchedule;
    QueuedForWork(s.(scheduled := false, call := Absent));
  }

  lemma ForegroundSchedules(s: State, s': State)
    requires ForegroundStep(s, s') && !s.call.Queued? && s'.call.Queued?
    ensures HasWork(s') && !s'.bgError && !s'.shuttingDown
  {
    hide HasWork, MakeRoom, MaybeSchedule;
    if t, force, allowDelay, full :| RoomStep(s, s', t, force, allowDelay, full) {
      QueuedForWork(s.(imm := true));
    } else if t :| ManualStep(s, s', t) {
      QueuedForWork(s.(manual := Some(t)));
    } else {
      QueuedForWork(s.(seek := true));
    }
  }

  lemma QueuedForWork(s: State)
    ensures var t := MaybeSchedule(s); t == s || (t.call.Queued? && HasWork(t) && !t.bgError && !t.shuttingDown)
  {
    hide TooFull;
  }

  // Once it runs, it does work exactly if there is neither, the memtable's first.
  lemma WorkBegins(s: State, s': State)
    requires BackgroundStep(s, s') && s.call.Queued?
    ensures s'.call.Flushing? || s'.call.Compacting? <==> !s.bgError && !s.shuttingDown
    ensures s'.call.Flushing? ==> s.imm
    ensures s'.call.Compacting? ==> !s.imm && s'.call.forManual == s.manual.Some?
  {
    hide HasWork;
  }

  // A writer is let through only with room in the memtable, and a new memtable begun only
  // when none waits to be written out and level 0 is not too full; an error turns it away.
  lemma RoomIsMade(s: State, force: bool, allowDelay: bool, full: bool)
    ensures var room := MakeRoom(s, force, allowDelay, full);
      && (room.Fail? <==> s.bgError)
      && (room.Enough? ==> !full && !force)
      && (room.SwitchMemTable? ==> (full || force) && !s.imm && |s.version[0]| < L0_STOP_WRITES_TRIGGER)
      && (room.WaitForImm? ==> s.imm) && (room.WaitForLevel0? ==> TooFull(s.version))
      && (room.Delay? ==> allowDelay && TooFull(s.version))
  {
    assert Score(s.version, 0) == |s.version[0]| as real / 4.0;
  }

  /* ---- requests that are given up too early ---- */

  lemma ForegroundOrphans(s: State, s': State)
    requires !Orphaned(s) && ForegroundStep(s, s') && Orphaned(s')
    ensures s.call == Compacting(true) && exists t :: CancelStep(s, s', t)
  {
    hide HasWork, MakeRoom;
    if t :| CancelStep(s, s', t) {
    } else {
      assert false;
    }
  }

  lemma BackgroundNeverOrphans(s: State, s': State)
    requires !Orphaned(s) && BackgroundStep(s, s')
    ensures !Orphaned(s') && forall t :: !(s.call == Compacting(true) && CancelStep(s, s', t))
  {
    hide HasWork;
  }

  // A step orphans a compaction exactly when it gives up the request being compacted for.
  lemma OrphanedWhen(s: State, s': State)
    requires !Orphaned(s) && (ForegroundStep(s, s') || BackgroundStep(s, s'))
    ensures Orphaned(s') <==> s.call == Compacting(true) && exists t :: CancelStep(s, s', t)
  {
    hide ForegroundStep, BackgroundStep;
    if BackgroundStep(s, s') {
      BackgroundNeverOrphans(s, s');
    } else if Orphaned(s') {
      ForegroundOrphans(s, s');
    }
  }

  // Before it happens: it can come next exactly when a compaction for a request is running,
  // the request is still there, and an error or a shutdown lets its thread give up.
  lemma OrphanedNextIff(s: State)
    requires !Orphaned(s)
    ensures (exists s' :: (ForegroundStep(s, s') || BackgroundStep(s, s')) && Orphaned(s'))
       <==> s.call == Compacting(true) && s.manual.Some? && (s.bgError || s.shuttingDown)
  {
    if s' :| (ForegroundStep(s, s') || BackgroundStep(s, s')) && Orphaned(s') {
      OrphanedWhen(s, s');
    }
    if s.call == Compacting(true) && s.manual.Some? && (s.bgError || s.shuttingDown) {
      var s' := s.(manual := None);
      assert CancelStep(s, s', s.manual.value);
      assert ForegroundStep(s, s');
    }
  }

  // In every run that takes an error or a shutdown.
  lemma OrphanedAfterError(run: seq<State>, n: nat)
    requires IsRun(run) && 1 <= n < |run| && Orphaned(run[n])
    ensures run[n].bgError || run[n].shuttingDown
  {
    RunInv(run, n);
  }

  // And it does happen: a manual request, its compaction, a failed write, and the thread
  // that asked gives up.
  lemma OrphanedReachable() returns (run: seq<State>)
    ensures IsRun(run) && Orphaned(run[|run| - 1])
  {
    var s0 := State(false, Absent, false, false, false, None, [[], [], [], [], [], [], []], false, {});
    var s1 := MaybeSchedule(s0);
    var s2 := MaybeSchedule(s1.(manual := Some(1)));
    var s3 := s2.(call := Compacting(true));
    var s4 := RecordError(s3);
    var s5 := s4.(manual := None);
    forall l: nat | l + 1 < NUM_LEVELS
      ensures Score(s0.version, l) == 0.0
    {
      assert s0.version[l] == [];
    }
    assert ManualStep(s1, s2, 1) && StartStep(s2, s3) && WriteErrorStep(s3, s4) && CancelStep(s4, s5, 1);
    run := [s0, s1, s2, s3, s4, s5];
  }

  /* ---- a pending call does end, and wakes everybody ---- */

  // How many phases the call has to go through before it signals.
  function PhasesLeft(c: Call): nat {
    match c
    case Absent => 0
    case Queued => 3
    case Flushing => 2
    case Compacting(_) => 2
    case Ending => 1
  }

  lemma ForegroundKeepsCall(s: State, s': State)
    requires Inv(s) && ForegroundStep(s, s') && s.scheduled
    ensures s'.call == s.call
  {
  }

  // Every step of the background thread brings the signal nearer, or is a flush that has
  // signalled itself; the last one wakes everybody.
  lemma BackgroundProgresses(s: State, s': State)
    requires Inv(s) && BackgroundStep(s, s')
    ensures PhasesLeft(s.call) == 1 ==> s'.waiting == {}
    ensures PhasesLeft(s.call) > 1 ==> 0 < PhasesLeft(s'.call) < PhasesLeft(s.call) || (s'.call == s.call && s'.waiting == {})
  {
  }

  // A call that has not ended can take its next step, unless it has lost its request.
  lemma CallCanMove(s: State)
    requires Inv(s) && !s.call.Absent? && !Orphaned(s)
    ensures exists s' :: BackgroundStep(s, s')
  {
    match s.call
    case Queued =>
      var s' := s.(call := if s.shuttingDown || s.bgError then Ending else if s.imm then Flushing else Compacting(s.manual.Some?));
      assert StartStep(s, s');
      assert BackgroundStep(s, s');
    case Flushing =>
      var s' := s.(imm := false, call := Ending);
      assert FlushStep(s, s', true);
      assert BackgroundStep(s, s');
    case Compacting(forManual) =>
      var s' := s.(manual := if forManual then None else s.manual, call := Ending);
      assert WorkStep(s, s', true);
      assert BackgroundStep(s, s');
    case Ending =>
      var s' := MaybeSchedule(s.(scheduled := false, call := Absent)).(waiting := {});
      assert EndStep(s, s');
      assert BackgroundStep(s, s');
  }

  // Steps of a run that only the background thread takes.
  ghost function BackSteps(run: seq<State>, i: nat, j: nat): nat
    requires i <= j < |run|
  {
    if i == j then 0 else BackSteps(run, i, j - 1) + if ForegroundStep(run[j - 1], run[j]) then 0 else 1
  }

  ghost predicate WaitsThrough(run: seq<State>, i: nat, j: nat, t: nat) {
    1 <= i <= j < |run| && forall k :: i <= k <= j ==> t in run[k].waiting && !run[k].shuttingDown
  }

  // In every run, a thread that waits is woken before the background thread has taken three
  // steps, whatever other threads do meanwhile, and until then that thread can move.
  lemma {:induction false} WokenSoon(run: seq<State>, i: nat, j: nat, t: nat)
    requires IsRun(run) && WaitsThrough(run, i, j, t)
    ensures BackSteps(run, i, j) + PhasesLeft(run[j].call) <= PhasesLeft(run[i].call) <= 3
    ensures PhasesLeft(run[j].call) > 0 && exists s' :: BackgroundStep(run[j], s')
    decreases j
  {
    hide Inv, ForegroundStep, BackgroundStep;
    RunInv(run, j);
    WaiterCanGoOn(run[j], t);
    if i < j {
      WokenSoon(run, i, j - 1, t);
      RunInv(run, j - 1);
      WaiterCanGoOn(run[j - 1], t);
      if ForegroundStep(run[j - 1], run[j]) {
        ForegroundKeepsCall(run[j - 1], run[j]);
      } else {
        BackgroundProgresses(run[j - 1], run[j]);
        assert t in run[j].waiting;
      }
    }
  }

  lemma WaiterCanGoOn(s: State, t: nat)
    requires Inv(s) && t in s.waiting && !s.shuttingDown
    ensures s.scheduled && PhasesLeft(s.call) > 0 && exists s' :: BackgroundStep(s, s')
  {
    CallCanMove(s);
  }

  // How many steps the background thread is from having written out a memtable.
  function StepsToFlush(c: Call): nat {
    match c
    case Absent => 0
    case Flushing => 1
    case Queued => 2
    case Ending => 3
    case Compacting(_) => 4
  }

  lemma FlushComesNearer(s: State, s': State)
    requires Inv(s) && BackgroundStep(s, s') && s.imm && s'.imm && !s.bgError && !s'.bgError && !s.shuttingDown
    ensures 0 < StepsToFlush(s'.call) < StepsToFlush(s.call)
  {
  }

  // In every run, a memtable that is to be written out is gone before the background thread
  // has taken five steps, unless an error or a shutdown comes in between.
  lemma {:induction false} FlushedSoon(run: seq<State>, i: nat, j: nat)
    requires IsRun(run) && 1 <= i <= j < |run|
    requires forall k :: i <= k <= j ==> run[k].imm && !run[k].bgError && !run[k].shuttingDown
    ensures BackSteps(run, i, j) + StepsToFlush(run[j].call) <= StepsToFlush(run[i].call) <= 4 && StepsToFlush(run[j].call) > 0
    ensures exists s' :: BackgroundStep(run[j], s')
    decreases j
  {
    hide ForegroundStep, BackgroundStep;
    RunInv(run, j);
    CallCanMove(run[j]);
    if i < j {
      FlushedSoon(run, i, j - 1);
      RunInv(run, j - 1);
      if ForegroundStep(run[j - 1], run[j]) {
        ForegroundKeepsCall(run[j - 1], run[j]);
      } else {
        FlushComesNearer(run[j - 1], run[j]);
      }
    }
  }

  /* ---- the same, on fields ---- */

  class Scheduler {
    var scheduled: bool
    var call: Call
    var shuttingDown: bool
    var bgError: bool
    var imm: bool
    var manual: Option<nat>
    var version: Version
    var seek: bool
    var waiting: set<nat>

    ghost function Abs(): State
      reads this
    {
      State(scheduled, call, shuttingDown, bgError, imm, manual, version, seek, waiting)
    }

    // version_set.h:252
    method NeedsCompaction() returns (r: bool)
      ensures r <==> TooFull(version) || seek
    {
      var level, score := Finalize(version);
      assert score >= 1.0 ==> Score(version, level) >= 1.0;
      r := score >= 1.0 || seek;
    }

    // db_impl.cc:648
    method MaybeScheduleCompaction()
      modifies this
      ensures Abs() == MaybeSchedule(old(Abs()))
    {
      var needs := NeedsCompaction();
      if scheduled {
        // Already scheduled.
      } else if shuttingDown {
        // No more background compactions.
      } else if bgError {
        // No more changes.
      } else if !imm && manual.None? && !needs {
        // No work to be done.
      } else {
        scheduled, call := true, Queued;
      }
    }

    // db_impl.cc:640
    method RecordBackgroundError()
      modifies this
      ensures Abs() == RecordError(old(Abs()))
    {
      if !bgError {
        bgError, waiting := true, {};
      }
    }

    // db_impl.cc:1361
    method SwitchTables()
      requires Inv(Abs()) && !bgError && !imm
      modifies this
      ensures Inv(Abs()) && Abs() == MaybeSchedule(old(Abs()).(imm := true))
    {
      imm := true;
      MaybeScheduleCompaction();
    }

    // db_impl.cc:680
    method EndCall()
      requires Inv(Abs()) && call.Ending?
      modifies this
      ensures Inv(Abs()) && EndStep(old(Abs()), Abs())
    {
      scheduled, call := false, Absent;
      MaybeScheduleCompaction();
      waiting := {};
    }
  }
}
