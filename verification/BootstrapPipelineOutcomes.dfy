/** What the pipeline can reach: the clean outcome for any number of items, and each failure. */
module BootstrapPipelineOutcomes {

  import opened BootstrapPipeline
  import opened BootstrapPipelineRuns
  import opened BootstrapPipelineLimits

  function UpTo(n: nat): seq<WorkId> {
    seq(n, i requires 0 <= i < n => i)
  }

  function Ids(from: nat, to: nat): set<WorkId> {
    set id | id in UpTo(to) && from <= id
  }

  lemma IdsAre(from: nat, to: nat)
    ensures forall id: WorkId :: id in Ids(from, to) <==> from <= id < to
  {
    forall id: WorkId | id < to ensures id in UpTo(to) {
      assert UpTo(to)[id] == id;
    }
  }

  /** All items are committed and the collector has finished; main has not looked yet. */
  function Collected(n: nat, work: Work, workers: seq<Worker>): State {
    State(n, work, workers, Closed, Running, [Outcome(FromCollector, true)], [], AwaitFirst, [], false, false)
  }

  lemma WorkerReaches(c: Config, s: State, i: nat, w: Worker, b: Work) returns (t: State)
    requires Reachable(c, s) && i < |s.workers|
    requires Local(c, WorkerContextLive(s), s.collector.Closed?, s.workers[i], s.work, w, b)
    ensures t == s.(workers := s.workers[i := w], work := b) && Reachable(c, t)
  {
    t := s.(workers := s.workers[i := w], work := b);
    assert WorkerStep(c, s, t, i);
    ReachStep(c, s, t);
  }

  // --------------------------------------------------------------- collection

  function Committing(c: Config, k: nat): State {
    Fresh(c).(committed := k, work := Work(Ids(0, k), [], [], 0, 0, false))
  }

  lemma {:induction false} CommittingReachable(c: Config, k: nat)
    ensures Reachable(c, Committing(c, k))
  {
    if k == 0 {
      PollingReachable(c, 0);
      assert Committing(c, 0) == Polling(c, 0);
    } else {
      CommittingReachable(c, k - 1);
      IdsAre(0, k);
      IdsAre(0, k - 1);
      assert Ids(0, k) == Ids(0, k - 1) + {k - 1};
      ReachStep(c, Committing(c, k - 1), Committing(c, k));
    }
  }

  function AllWork(n: nat): Work {
    Work(Ids(0, n), [], [], 0, 0, false)
  }

  lemma CollectedReachable(c: Config, n: nat)
    ensures Reachable(c, Collected(n, AllWork(n), Split(c.workers, 0, Drained, LoopHead)))
  {
    CommittingReachable(c, n);
    var s := Committing(c, n);
    var s1 := s.(collector := Returning(true));
    ReachStep(c, s, s1);
    var s2 := s1.(collector := Sent, errc := [Outcome(FromCollector, true)]);
    assert s2.errc == s1.errc + [Outcome(FromCollector, true)];
    ReachStep(c, s1, s2);
    ReachStep(c, s2, s2.(collector := Closed));
  }

  // --------------------------------------------------------------- projection

  /** The first `j` items have been claimed, projected and acked. */
  function AckedWork(n: nat, j: nat): Work {
    Work(Ids(j, n), UpTo(j), UpTo(j), 0, 0, false)
  }

  lemma {:induction false} AckedReachable(c: Config, n: nat, j: nat)
    requires c.workers > 0 && j <= n
    ensures Reachable(c, Collected(n, AckedWork(n, j), Split(c.workers, 0, Drained, LoopHead)))
  {
    if j == 0 {
      CollectedReachable(c, n);
      assert AckedWork(n, 0) == AllWork(n);
    } else {
      AckedReachable(c, n, j - 1);
      AckOne(c, n, j - 1);
    }
  }

  lemma AckOne(c: Config, n: nat, j: nat)
    requires c.workers > 0 && j < n
    requires Reachable(c, Collected(n, AckedWork(n, j), Split(c.workers, 0, Drained, LoopHead)))
    ensures Reachable(c, Collected(n, AckedWork(n, j + 1), Split(c.workers, 0, Drained, LoopHead)))
  {
    var workers := Split(c.workers, 0, Drained, LoopHead);
    var a := AckedWork(n, j);
    var claimed := a.(queue := a.queue - {j}, claims := a.claims + [j]);
    IdsAre(j, n);
    IdsAre(j + 1, n);
    var s := WorkerReaches(c, Collected(n, a, workers), 0, ToClaim, a);
    s := WorkerReaches(c, s, 0, GotItem(j), claimed);
    s := WorkerReaches(c, s, 0, Projecting(j), claimed);
    s := WorkerReaches(c, s, 0, LoopHead, claimed.(acks := claimed.acks + [j]));
    assert Ids(j + 1, n) == Ids(j, n) - {j};
    assert UpTo(j + 1) == UpTo(j) + [j];
    assert s.workers == workers;
  }

  // -------------------------------------------------------------------- drain

  function PolledWork(n: nat, e: nat): Work {
    AckedWork(n, n).(emptyCount := e)
  }

  lemma {:induction false} PolledReachable(c: Config, n: nat, e: nat)
    requires c.workers > 0 && e < c.maxEmptyPolls
    ensures Reachable(c, Collected(n, PolledWork(n, e), Split(c.workers, 0, Drained, LoopHead)[0 := ToClaim]))
  {
    var workers := Split(c.workers, 0, Drained, LoopHead);
    if e == 0 {
      AckedReachable(c, n, n);
      var s := WorkerReaches(c, Collected(n, AckedWork(n, n), workers), 0, ToClaim, PolledWork(n, 0));
    } else {
      PolledReachable(c, n, e - 1);
      var a := PolledWork(n, e - 1);
      IdsAre(n, n);
      assert a.queue == {};
      var s := WorkerReaches(c, Collected(n, a, workers[0 := ToClaim]), 0, GotEmpty, a);
      s := WorkerReaches(c, s, 0, SawDone, a);
      s := WorkerReaches(c, s, 0, Waiting, PolledWork(n, e));
      s := WorkerReaches(c, s, 0, ToClaim, PolledWork(n, e));
      assert s.workers == workers[0 := ToClaim];
    }
  }

  /** Worker `i` counts the poll that lets it go. */
  lemma LeaveOne(c: Config, n: nat, i: nat, e: nat, s: State)
    requires i < c.workers && e + 1 >= c.maxEmptyPolls && Reachable(c, s)
    requires s == Collected(n, PolledWork(n, e), Split(c.workers, i, Drained, LoopHead)[i := ToClaim])
    ensures Reachable(c, Collected(n, PolledWork(n, e + 1), Split(c.workers, i + 1, Drained, LoopHead)))
  {
    var a := PolledWork(n, e);
    IdsAre(n, n);
    assert a.queue == {};
    var t := WorkerReaches(c, s, i, GotEmpty, a);
    t := WorkerReaches(c, t, i, SawDone, a);
    t := WorkerReaches(c, t, i, Drained, PolledWork(n, e + 1));
    assert t.workers == Split(c.workers, i, Drained, LoopHead)[i := Drained];
    SplitAdvance(c.workers, i, Drained, LoopHead);
  }

  lemma {:induction false} LeavingReachable(c: Config, n: nat, i: nat)
    requires c.maxEmptyPolls > 0 && 0 < i <= c.workers
    ensures Reachable(c, Collected(n, PolledWork(n, c.maxEmptyPolls - 1 + i), Split(c.workers, i, Drained, LoopHead)))
  {
    var e := c.maxEmptyPolls - 1;
    if i == 1 {
      PolledReachable(c, n, e);
      LeaveOne(c, n, 0, e, Collected(n, PolledWork(n, e), Split(c.workers, 0, Drained, LoopHead)[0 := ToClaim]));
    } else {
      LeavingReachable(c, n, i - 1);
      var before := Collected(n, PolledWork(n, e + i - 1), Split(c.workers, i - 1, Drained, LoopHead));
      var s := WorkerReaches(c, before, i - 1, ToClaim, PolledWork(n, e + i - 1));
      LeaveOne(c, n, i - 1, e + i - 1, s);
    }
  }

  // --------------------------------------------------------------- follow-ups

  /** The projector has reported success, and main has not looked yet. */
  function Reported(c: Config, n: nat): State
    requires c.workers > 0 && c.maxEmptyPolls > 0
  {
    Collected(n, PolledWork(n, c.maxEmptyPolls - 1 + c.workers), Split(c.workers, c.workers, Drained, LoopHead))
    .(projector := Returned(true, true), errc := [Outcome(FromCollector, true), Outcome(FromProjector, true)])
  }

  lemma ReportedReachable(c: Config, n: nat)
    requires c.workers > 0 && c.maxEmptyPolls > 0
    ensures Reachable(c, Reported(c, n))
  {
    LeavingReachable(c, n, c.workers);
    var s := Collected(n, PolledWork(n, c.maxEmptyPolls - 1 + c.workers), Split(c.workers, c.workers, Drained, LoopHead));
    assert s.errc + [Outcome(FromProjector, true)] == Reported(c, n).errc;
    assert ProjectorStep(s, Reported(c, n));
    ReachStep(c, s, Reported(c, n));
  }

  /** Main before its first follow-up, and before the second. */
  lemma FollowUpsReachable(c: Config, n: nat) returns (first: State, second: State)
    requires c.workers > 0 && c.maxEmptyPolls > 0
    ensures Reachable(c, first) && first.main == ToBackfill && first.actions == []
    ensures Reachable(c, second) && second.main == ToMaterialize && second.actions == [Backfill(true)]
    ensures first.committed == second.committed == n && first.work.acks == second.work.acks == UpTo(n)
    ensures !first.parentCancelled && !second.parentCancelled && first.errc != []
  {
    ReportedReachable(c, n);
    var s := Reported(c, n);
    first := Receive(s).(main := ToBackfill);
    ReachStep(c, s, first);
    var t := Act(first, Backfill(true)).(main := AwaitProjector);
    ReachStep(c, first, t);
    second := Receive(t).(main := ToMaterialize);
    ReachStep(c, t, second);
  }

  /** Each of these ids once, in order. */
  lemma UpToOnce(n: nat)
    ensures forall id: WorkId :: multiset(UpTo(n))[id] == if id < n then 1 else 0
    decreases n
  {
    if n > 0 {
      UpToOnce(n - 1);
      assert UpTo(n) == UpTo(n - 1) + [n - 1];
    }
  }

  /** Any number of items can be committed, acked once each, and followed up to a nil return. */
  lemma CleanOutcome(c: Config, n: nat) returns (s: State)
    requires c.workers > 0 && c.maxEmptyPolls > 0
    ensures Reachable(c, s) && s.committed == n && s.main == Finished(true) && !s.parentCancelled
    ensures s.actions == [Backfill(true), Materialize(true), Reopen(true)]
    ensures forall id: WorkId :: multiset(s.work.acks)[id] == if id < n then 1 else 0
  {
    var first, second := FollowUpsReachable(c, n);
    var t := Act(second, Materialize(true)).(main := ToReopen);
    ReachStep(c, second, t);
    s := Finish(Act(t, Reopen(true)), true);
    assert MainStep(t, s);
    ReachStep(c, t, s);
    UpToOnce(n);
  }

  /** Each follow-up can fail, and then nothing after it runs and runPipelined returns an error. */
  lemma BackfillFailure(c: Config, n: nat) returns (s: State)
    requires c.workers > 0 && c.maxEmptyPolls > 0
    ensures Reachable(c, s) && s.committed == n && s.main == Finished(false) && s.actions == [Backfill(false)]
  {
    var first, second := FollowUpsReachable(c, n);
    var t := Act(first, Backfill(false)).(main := ToCancel);
    ReachStep(c, first, t);
    var u := t.(cancelled := true, main := AwaitAfterCancel);
    ReachStep(c, t, u);
    s := Finish(Receive(u), false);
    ReachStep(c, u, s);
  }

  lemma MaterializeFailure(c: Config, n: nat) returns (s: State)
    requires c.workers > 0 && c.maxEmptyPolls > 0
    ensures Reachable(c, s) && s.committed == n && s.main == Finished(false)
    ensures s.actions == [Backfill(true), Materialize(false)]
  {
    var first, second := FollowUpsReachable(c, n);
    s := Finish(Act(second, Materialize(false)), false);
    ReachStep(c, second, s);
  }

  lemma ReopenFailure(c: Config, n: nat) returns (s: State)
    requires c.workers > 0 && c.maxEmptyPolls > 0
    ensures Reachable(c, s) && s.committed == n && s.main == Finished(false)
    ensures s.actions == [Backfill(true), Materialize(true), Reopen(false)]
  {
    var first, second := FollowUpsReachable(c, n);
    var t := Act(second, Materialize(true)).(main := ToReopen);
    ReachStep(c, second, t);
    s := Finish(Act(t, Reopen(false)), false);
    assert MainStep(t, s);
    ReachStep(c, t, s);
  }

  /** Any item can be the one whose projection fails: it is claimed and never acked, and the error is recorded. */
  lemma ProjectionFailure(c: Config, n: nat, j: nat) returns (s: State)
    requires c.workers > 0 && j < n
    ensures Reachable(c, s) && s.committed == n && s.work.errs == 1 && s.work.cancelled
    ensures s.work.claims == UpTo(j + 1) && s.work.acks == UpTo(j) && j !in s.work.queue
  {
    AckedReachable(c, n, j);
    var a := AckedWork(n, j);
    var claimed := a.(queue := a.queue - {j}, claims := a.claims + [j]);
    IdsAre(j, n);
    s := WorkerReaches(c, Collected(n, a, Split(c.workers, 0, Drained, LoopHead)), 0, ToClaim, a);
    s := WorkerReaches(c, s, 0, GotItem(j), claimed);
    s := WorkerReaches(c, s, 0, Projecting(j), claimed);
    s := WorkerReaches(c, s, 0, Failing, claimed.(errs := 1));
    s := WorkerReaches(c, s, 0, Failed, claimed.(errs := 1, cancelled := true));
    assert UpTo(j + 1) == UpTo(j) + [j];
  }

  // ------------------------------------------------------- a failed collection

  /** The collector has failed after `n` commits and main has cancelled everything. */
  function Abandoned(n: nat, work: Work, workers: seq<Worker>): State {
    State(n, work, workers, Closed, Running, [], [Outcome(FromCollector, false)], AwaitAfterCancel, [], true, false)
  }

  lemma AbandonedReachable(c: Config, n: nat)
    ensures Reachable(c, Abandoned(n, AllWork(n), Split(c.workers, 0, Stopped, LoopHead)))
  {
    CommittingReachable(c, n);
    var s := Committing(c, n);
    var s1 := s.(collector := Returning(false));
    ReachStep(c, s, s1);
    var s2 := s1.(collector := Sent, errc := [Outcome(FromCollector, false)]);
    assert s2.errc == s1.errc + [Outcome(FromCollector, false)];
    ReachStep(c, s1, s2);
    var s3 := s2.(collector := Closed);
    ReachStep(c, s2, s3);
    var s4 := Receive(s3).(main := ToCancel);
    ReachStep(c, s3, s4);
    ReachStep(c, s4, s4.(cancelled := true, main := AwaitAfterCancel));
  }

  /** Several workers stop at their next look at the context. */
  lemma {:induction false} StoppingReachable(c: Config, n: nat, i: nat)
    requires c.workers > 1 && i <= c.workers
    ensures Reachable(c, Abandoned(n, AllWork(n), Split(c.workers, i, Stopped, LoopHead)))
  {
    if i == 0 {
      AbandonedReachable(c, n);
    } else {
      StoppingReachable(c, n, i - 1);
      var workers := Split(c.workers, i - 1, Stopped, LoopHead);
      var s := WorkerReaches(c, Abandoned(n, AllWork(n), workers), i - 1, Stopped, AllWork(n));
      assert Split(c.workers, i, Stopped, LoopHead) == workers[i - 1 := Stopped];
    }
  }

  /** The collector's failure has been received and all workers have returned. */
  lemma EndFailed(c: Config, t: State) returns (s: State)
    requires Reachable(c, t) && AllTerminal(t.workers)
    requires t == Abandoned(t.committed, t.work, t.workers)
    ensures Reachable(c, s) && s.committed == t.committed && s.main == Finished(false) && s.actions == [] && !s.parentCancelled
  {
    var ok := t.work.errs == 0;
    var u := t.(projector := Returned(ok, false), errc := [Outcome(FromProjector, ok)]);
    assert u.errc == t.errc + [Outcome(FromProjector, ok)];
    ReachStep(c, t, u);
    s := Finish(Receive(u), false);
    ReachStep(c, u, s);
  }

  /** A single worker does not look at the context, and its next claim fails. */
  lemma OneWorkerFails(c: Config, n: nat) returns (t: State)
    requires c.workers == 1
    ensures Reachable(c, t) && t.committed == n && AllTerminal(t.workers) && t == Abandoned(n, t.work, t.workers)
  {
    AbandonedReachable(c, n);
    var a := AllWork(n);
    t := WorkerReaches(c, Abandoned(n, a, Split(1, 0, Stopped, LoopHead)), 0, ToClaim, a);
    t := WorkerReaches(c, t, 0, Failing, a.(errs := 1));
    t := WorkerReaches(c, t, 0, Failed, a.(errs := 1, cancelled := true));
  }

  /** A failed collection can end in an error without any follow-up, whatever was committed before. */
  lemma CollectorFailure(c: Config, n: nat) returns (s: State)
    ensures Reachable(c, s) && s.committed == n && s.main == Finished(false) && s.actions == [] && !s.parentCancelled
  {
    var t := Abandoned(n, AllWork(n), Split(c.workers, c.workers, Stopped, LoopHead));
    if c.workers == 1 {
      t := OneWorkerFails(c, n);
    } else if c.workers == 0 {
      AbandonedReachable(c, n);
    } else {
      StoppingReachable(c, n, c.workers);
    }
    s := EndFailed(c, t);
  }
}
