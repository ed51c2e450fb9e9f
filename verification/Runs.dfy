/**
 Whole runs of the store: what readers get in every reachable state.
 */
module Runs {
  import opened Keys
  import opened FlatMap
  import opened Tables
  import opened Selection
  import opened Picking
  import opened Preservation
  import opened Store
  import opened StoreSteps

  // Any one step the engine can take; Finish is kept apart because of its hazards.
  ghost predicate QuietStep(s: State, s': State) {
    || (exists batch :: WriteStep(s, s', batch))
    || SwitchStep(s, s')
    || NewFileStep(s, s')
    || (exists level, size :: FlushStep(s, s', level, size))
    || (exists c :: StartStep(s, s', c))
    || AbandonStep(s, s')
    || (exists c :: MoveStep(s, s', c))
    || SnapshotStep(s, s')
    || (exists i :: ReleaseStep(s, s', i))
  }

  ghost predicate Next(s: State, s': State) {
    QuietStep(s, s') || exists input, outputs :: FinishStep(s, s', input, outputs)
  }

  ghost predicate SafeNext(s: State, s': State) {
    QuietStep(s, s') || exists input, outputs :: FinishStep(s, s', input, outputs) && !Hazard(s, input) && !Straddles(s, outputs)
  }

  ghost predicate IsRun(run: seq<State>) {
    run != [] && Init(run[0]) && forall i :: 0 <= i < |run| - 1 ==> SafeNext(run[i], run[i + 1])
  }

  lemma QuietStepKeepsInv(s: State, s': State)
    requires Inv(s) && QuietStep(s, s')
    ensures Inv(s')
  {
    if batch :| WriteStep(s, s', batch) {
      WriteKeepsInv(s, s', batch);
    } else if SwitchStep(s, s') {
      SwitchKeepsInv(s, s');
    } else if NewFileStep(s, s') {
      NewFileKeepsInv(s, s');
    } else if level: nat, size: nat :| FlushStep(s, s', level, size) {
      FlushKeepsInv(s, s', level, size);
    } else if c :| StartStep(s, s', c) {
      StartKeepsInv(s, s', c);
    } else if AbandonStep(s, s') {
      AbandonKeepsInv(s, s');
    } else if c :| MoveStep(s, s', c) {
      MoveKeepsInv(s, s', c);
    } else if SnapshotStep(s, s') {
      SnapshotKeepsInv(s, s');
    } else {
      var i: nat :| ReleaseStep(s, s', i);
      ReleaseKeepsInv(s, s', i);
    }
  }

  lemma SafeNextKeepsInv(s: State, s': State)
    requires Inv(s) && SafeNext(s, s')
    ensures Inv(s')
  {
    if QuietStep(s, s') {
      QuietStepKeepsInv(s, s');
    } else {
      var input, outputs :| FinishStep(s, s', input, outputs) && !Hazard(s, input) && !Straddles(s, outputs);
      FinishKeepsInv(s, s', input, outputs);
    }
  }

  // The invariant holds in every state of every run.
  lemma {:induction false} RunInv(run: seq<State>, n: nat)
    requires IsRun(run) && n < |run|
    ensures Inv(run[n])
  {
    if n == 0 {
      InitInv(run[0]);
    } else {
      RunInv(run, n - 1);
      SafeNextKeepsInv(run[n - 1], run[n]);
    }
  }

  /* ---- what readers see ---- */

  // The sequence numbers a reader may use: the latest, or a live snapshot's.
  ghost predicate Live(s: State, q: nat) {
    q == s.lastSequence || q in s.snapshots
  }

  lemma LiveReads(s: State, k: UserKey, q: nat)
    requires Inv(s) && Live(s, q)
    ensures Get(All(s), k, q) == Get(s.history, k, q)
  {
    assert s.floor <= q;
  }

  // The store means its history, at every point of every run, for every live reader.
  lemma RunReads(run: seq<State>, n: nat, k: UserKey, q: nat)
    requires IsRun(run) && n < |run| && Live(run[n], q)
    ensures Get(All(run[n]), k, q) == Get(run[n].history, k, q)
  {
    RunInv(run, n);
    LiveReads(run[n], k, q);
  }

  // History only grows, and only above the last sequence number.
  ghost predicate Extends(s: State, s': State) {
    && s.lastSequence <= s'.lastSequence
    && s.history <= s'.history
    && forall e :: e in s'.history && e !in s.history ==> s.lastSequence < e.sn
  }

  lemma StepExtends(s: State, s': State)
    requires SafeNext(s, s')
    ensures Extends(s, s')
  {
    if batch :| WriteStep(s, s', batch) {
      BatchFacts(batch, s.lastSequence + 1);
    }
  }

  lemma {:induction false} RunExtends(run: seq<State>, i: nat, j: nat)
    requires IsRun(run) && i <= j < |run|
    ensures Extends(run[i], run[j])
  {
    if i < j {
      RunExtends(run, i, j - 1);
      StepExtends(run[j - 1], run[j]);
    }
  }

  lemma SameOlderReads(H: set<Entry>, H': set<Entry>, k: UserKey, q: nat)
    requires UniqueSeq(H') && H <= H' && forall e :: e in H' && e !in H ==> q < e.sn
    ensures Get(H, k, q) == Get(H', k, q)
  {
    var r := Lookup(H', k, q);
    if r.Some? {
      LookupIs(H, k, q, r.value);
    }
  }

  // Snapshot reads are repeatable: whatever happens between two points of a run, a
  // snapshot that is live at both gives the same answers.
  lemma SnapshotReadsRepeat(run: seq<State>, i: nat, j: nat, k: UserKey, q: nat)
    requires IsRun(run) && i <= j < |run|
    requires Live(run[i], q) && Live(run[j], q)
    ensures Get(All(run[i]), k, q) == Get(All(run[j]), k, q)
  {
    RunReads(run, i, k, q);
    RunReads(run, j, k, q);
    RunInv(run, i);
    RunInv(run, j);
    RunExtends(run, i, j);
    SameOlderReads(run[i].history, run[j].history, k, q);
  }

  /* ---- the hazard ---- */

  // Finishing a compaction leaves all reads at or above its snapshot alone exactly when
  // it is not about to uncover a deleted value.
  lemma FinishPreservesIff(s: State, s': State, input: seq<Entry>, outputs: seq<File>)
    requires Inv(s) && FinishStep(s, s', input, outputs)
    ensures SameReads(All(s), All(s'), s.job.value.snapshot) <==> !Hazard(s, input)
  {
    HazardIsResurrection(s, input);
    JobWithin(s);
    FinishedEntries(s, s', input, outputs);
    CompactionPreservesReadsIff(All(s), s.job.value.version, s.job.value.inputs.level, input, s.job.value.snapshot);
  }

  // No file continues the last user key of the lower inputs.
  ghost predicate LowerInputsClosed(s: State)
    requires s.job.Some? && s.job.value.inputs.level + 1 < NUM_LEVELS
  {
    var c := s.job.value.inputs;
    c.inputs1 != [] ==> forall g :: g in s.version[c.level + 1] ==> !IsBoundaryFile(g, TopKey(c.inputs1))
  }

  // Had the lower inputs been closed under boundary files too, every compaction would keep
  // all reads; and if no flush had gone into a gap between the inputs, the invariant too.
  lemma ClosedLowerInputsAreSafe(s: State, s': State, input: seq<Entry>, outputs: seq<File>)
    requires Inv(s) && FinishStep(s, s', input, outputs) && LowerInputsClosed(s)
    ensures SameReads(All(s), All(s'), s.job.value.snapshot)
    ensures Inv(s') <==> !Straddles(s, outputs)
  {
    assert !Hazard(s, input);
    FinishKeepsInvIff(s, s', input, outputs);
    FinishPreservesIff(s, s', input, outputs);
  }

  /* ---- reachable states ---- */

  ghost predicate Reachable(s: State) {
    exists run :: IsRun(run) && run[|run| - 1] == s
  }

  lemma Onward(s: State, s': State)
    requires Reachable(s) && SafeNext(s, s')
    ensures Reachable(s')
  {
    var run :| IsRun(run) && run[|run| - 1] == s;
    assert IsRun(run + [s']);
  }

  lemma Written(s: State, s': State, batch: seq<Op>)
    requires Reachable(s) && WriteStep(s, s', batch)
    ensures Reachable(s')
  {
    hide WriteStep, IsRun;
    assert QuietStep(s, s');
    Onward(s, s');
  }

  lemma Switched(s: State, t: State, s': State)
    requires Reachable(s) && NewFileStep(s, t) && SwitchStep(t, s')
    ensures Reachable(s')
  {
    Renumbered(s, t);
    hide SwitchStep, IsRun;
    assert QuietStep(t, s');
    Onward(t, s');
  }

  lemma FlushedTo(s: State, s': State, level: nat, size: nat)
    requires Reachable(s) && FlushStep(s, s', level, size)
    ensures Reachable(s')
  {
    hide FlushStep, IsRun;
    assert QuietStep(s, s');
    Onward(s, s');
  }

  lemma Started(s: State, s': State, c: Inputs)
    requires Reachable(s) && StartStep(s, s', c)
    ensures Reachable(s')
  {
    hide StartStep, IsRun;
    assert QuietStep(s, s');
    Onward(s, s');
  }

  lemma Renumbered(s: State, s': State)
    requires Reachable(s) && NewFileStep(s, s')
    ensures Reachable(s')
  {
    hide NewFileStep, IsRun;
    assert QuietStep(s, s');
    Onward(s, s');
  }

  lemma Finished(s: State, s': State, input: seq<Entry>, outputs: seq<File>)
    requires Reachable(s) && FinishStep(s, s', input, outputs) && !Hazard(s, input) && !Straddles(s, outputs)
    ensures Reachable(s')
  {
    hide FinishStep, Hazard, Straddles, IsRun;
    assert SafeNext(s, s');
    Onward(s, s');
  }

  lemma InitReachable(s: State)
    requires Init(s)
    ensures Reachable(s)
  {
    assert IsRun([s]);
  }
}
