/**
 A run of two writers after which a crash of the machine loses the earlier write and keeps
 the later one: the first does not ask to be synced; before the second, which does, the
 memtable is full, and the log file that is closed then is not synced (db_impl.cc:1356).
 */
module LostWrite {
  import opened Keys
  import opened GroupCommit
  import C = Crashes
  import R = LogRecovery
  import S = Store
  import W = WriteBatches

  const FIRST := S.Op(1, Put("a"))
  const SECOND := S.Op(2, Put("b"))
  const PLAIN := Writer(0, Some([FIRST]), 20, false)
  const SYNCING := Writer(1, Some([SECOND]), 20, true)

  const START := State([], Idle, 0, 0, false, [], 0, 0, {}, [], [])

  // A writer arrives, leads a group of its own, and its record is in the log.
  function Arriving(s: State, w: Writer): State {
    s.(queue := [w])
  }

  function Leading(s: State, w: Writer): State {
    s.(queue := [w], phase := Busy(1, Gathered))
  }

  function Logging(s: State, w: Writer): State {
    s.(queue := [w], phase := Busy(1, Logged), log := s.log + [Record(s.lastSequence + 1, OpsOf(w))])
  }

  function Inserting(s: State, w: Writer): State {
    Logging(s, w).(phase := Busy(1, Inserted), mem := s.mem + S.BatchEntries(OpsOf(w), s.lastSequence + 1))
  }

  function Done(s: State, w: Writer): State {
    Inserting(s, w).(queue := [], phase := Idle, lastSequence := s.lastSequence + |OpsOf(w)|,
                     groups := s.groups + [Group([w], s.lastSequence + 1, Committed)])
  }

  // The log file is changed between the two writers, and the second is synced.
  function Switched(): State {
    Arriving(Done(START, PLAIN), SYNCING).(logStart := 1)
  }

  function Synchronized(s: State, w: Writer): State {
    Logging(s, w).(phase := Busy(1, Synced), synced := {1})
  }

  function End(): State {
    Done(Switched(), SYNCING).(synced := {1})
  }

  function Run(): seq<State> {
    var first, switched := Done(START, PLAIN), Switched();
    [START, Arriving(START, PLAIN), Leading(START, PLAIN), Logging(START, PLAIN), Inserting(START, PLAIN), first,
     Arriving(first, SYNCING), switched, Leading(switched, SYNCING), Logging(switched, SYNCING),
     Synchronized(switched, SYNCING), Inserting(switched, SYNCING).(synced := {1}), End()]
  }

  lemma Alone(w: Writer)
    ensures GroupOps([w]) == OpsOf(w) && GroupCount([w]) == 1 && [w][..1] == [w] && [w][1..] == []
  {
    GroupOpsPush([w], 0);
    assert [w][..1] == [w];
    assert GroupOps([]) + OpsOf(w) == OpsOf(w);
  }

  // From arriving to being logged.
  lemma GetsLogged(s: State, w: Writer)
    requires s.queue == [w] && s.phase.Idle? && !s.bgError && w.batch.Some?
    ensures LeadStep(s, Leading(s, w)) && LogStep(Leading(s, w), Logging(s, w), true)
  {
    Alone(w);
  }

  // From there to its leaving, when it does not ask to be synced or has been.
  lemma GetsDone(s: State, t: State, w: Writer)
    requires w.batch.Some? && t == s.(queue := [w], phase := t.phase)
    requires t.phase == Busy(1, if w.sync then Synced else Logged)
    ensures var inserted := t.(phase := Busy(1, Inserted), mem := s.mem + S.BatchEntries(OpsOf(w), s.lastSequence + 1));
            && InsertStep(t, inserted)
            && LeaveStep(inserted, inserted.(queue := [], phase := Idle, lastSequence := s.lastSequence + |OpsOf(w)|,
                                             groups := s.groups + [Group([w], s.lastSequence + 1, Committed)]))
  {
    hide S.BatchEntries, OpsOf;
    Alone(w);
  }

  lemma FirstSteps(run: seq<State>)
    requires run == Run()
    ensures |run| == 13 && Init(run[0]) && forall i :: 0 <= i < 5 ==> Next(run[i], run[i + 1])
  {
    hide S.BatchEntries, GroupOps, GroupCount;
    assert ArriveStep(run[0], run[1], PLAIN);
    GetsLogged(run[1], PLAIN);
    GetsDone(run[3], run[3], PLAIN);
  }

  lemma OneLeft(g: Group)
    ensures Left([g]) == g.writers
  {
    assert [g][..0] == [];
    assert Left([]) + g.writers == g.writers;
  }

  lemma MiddleSteps(run: seq<State>)
    requires run == Run()
    ensures |run| == 13 && forall i :: 5 <= i < 9 ==> Next(run[i], run[i + 1])
  {
    hide S.BatchEntries, GroupOps, GroupCount, Left;
    OneLeft(Group([PLAIN], 1, Committed));
    assert run[5].groups == [Group([PLAIN], 1, Committed)] && run[5].queue == [];
    AppendNothing([PLAIN]);
    assert Arrived(run[5]) == [PLAIN];
    assert ArriveStep(run[5], run[6], SYNCING);
    assert NewLogStep(run[6], run[7]);
    GetsLogged(run[7], SYNCING);
  }

  lemma LastSteps(run: seq<State>)
    requires run == Run()
    ensures |run| == 13 && run[12] == End() && forall i :: 9 <= i < 12 ==> Next(run[i], run[i + 1])
  {
    hide S.BatchEntries, GroupOps, GroupCount;
    assert SyncStep(run[9], run[10], true) by {
      assert Indices(1, 2) == {1};
    }
    GetsDone(run[10], run[10], SYNCING);
  }

  lemma RunIsRun()
    ensures IsRun(Run()) && |Run()| == 13 && Run()[12] == End()
  {
    hide Next, Init, End, Run;
    FirstSteps(Run());
    MiddleSteps(Run());
    LastSteps(Run());
  }

  // The log and the groups at the end.
  lemma Ended()
    ensures var s := End();
            && s.log == [Record(1, [FIRST]), Record(2, [SECOND])] && s.flushed == 0 && s.logStart == 1 && s.synced == {1}
            && s.groups == [Group([PLAIN], 1, Committed), Group([SYNCING], 2, Committed)]
  {
    hide S.BatchEntries;
  }

  // Both writes were acknowledged. The database is open again with the later one alone.
  lemma EarlierWriteIsLost(o: R.Options, bytes: C.Naming) returns (files: C.Files)
    requires W.Small(bytes(FIRST)) && W.Small(bytes(SECOND))
    ensures IsRun(Run()) && |Run()| == 13 && Run()[12] == End()
    ensures End().groups == [Group([PLAIN], 1, Committed), Group([SYNCING], 2, Committed)]
    ensures Inv(End()) && C.AllWritable(End().log, bytes) && C.Crashed(End(), files, bytes)
    ensures C.Reopened(End(), files, o, bytes) == [R.Numbered(2, bytes(SECOND))]
  {
    hide C.Crashed, C.Reopened, Inv, IsRun, Run, End, EntriesOf;
    RunIsRun();
    RunInv(Run(), 12);
    Ended();
    files := C.LosesFrom(End(), 0, o, bytes);
    assert End().log[..0] + End().log[1..] == [Record(2, [SECOND])];
    SecondAlone();
  }

  lemma SecondAlone()
    ensures EntriesOf([Record(2, [SECOND])]) == [Entry(2, 2, Put("b"))]
  {
    EntriesPush([], Record(2, [SECOND]));
    BatchAt([SECOND], 2);
    assert [] + [Record(2, [SECOND])] == [Record(2, [SECOND])];
    assert EntriesOf([]) + S.BatchEntries([SECOND], 2) == [Entry(2, 2, Put("b"))];
  }
}
