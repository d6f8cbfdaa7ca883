/** What the invariant of the bootstrap pipeline means for whole runs. */
module BootstrapPipelineRuns {

  import opened BootstrapPipeline

  ghost predicate Reachable(c: Config, s: State) {
    exists run :: IsRun(c, run) && run[|run| - 1] == s
  }

  lemma NextPreserves(c: Config, s: State, t: State)
    requires c.workers > 0 && c.maxEmptyPolls >= 2
    requires Inv(c, s) && Next(c, s, t)
    ensures Inv(c, t)
  {
    if CollectorStep(s, t) {
      CollectorPreserves(c, s, t);
    } else if ProjectorStep(s, t) {
      ProjectorPreserves(c, s, t);
    } else if MainStep(s, t) {
      MainPreserves(c, s, t);
    } else if ParentStep(s, t) {
      ParentPreserves(c, s, t);
    } else {
      var i: nat :| i < |s.workers| && WorkerStep(c, s, t, i);
      WorkerPreserves(c, s, t, i);
    }
  }

  lemma PrefixIsRun(c: Config, run: seq<State>)
    requires IsRun(c, run) && |run| > 1
    ensures IsRun(c, run[..|run| - 1])
    ensures Next(c, run[|run| - 2], run[|run| - 1])
  {
    var prefix := run[..|run| - 1];
    forall i | 0 <= i < |prefix| - 1 ensures Next(c, prefix[i], prefix[i + 1]) {
      assert Next(c, run[i], run[i + 1]);
    }
    var last := |run| - 2;
    assert Next(c, run[last], run[last + 1]);
  }

  lemma {:induction false} RunInv(c: Config, run: seq<State>)
    requires c.workers > 0 && c.maxEmptyPolls >= 2 && IsRun(c, run)
    ensures Inv(c, run[|run| - 1])
  {
    if |run| == 1 {
      StartInv(c, run[0]);
    } else {
      var prefix := run[..|run| - 1];
      PrefixIsRun(c, run);
      RunInv(c, prefix);
      var last := |run| - 2;
      assert prefix[|prefix| - 1] == run[last];
      NextPreserves(c, run[last], run[last + 1]);
    }
  }

  lemma ReachableInv(c: Config, s: State)
    requires c.workers > 0 && c.maxEmptyPolls >= 2 && Reachable(c, s)
    ensures Inv(c, s)
  {
    var run :| IsRun(c, run) && run[|run| - 1] == s;
    RunInv(c, run);
  }

  lemma ReachStep(c: Config, s: State, t: State)
    requires Reachable(c, s) && Next(c, s, t)
    ensures Reachable(c, t)
  {
    var run :| IsRun(c, run) && run[|run| - 1] == s;
    var longer := run + [t];
    assert IsRun(c, longer) && longer[|longer| - 1] == t;
  }

  // ------------------------------------------------------------------ safety

  /** drainProjector returned nil while its context was live. */
  predicate DrainedCleanly(s: State) {
    s.projector == Returned(true, true)
  }

  /** Every committed item was claimed exactly once and acked exactly once, and none is queued. */
  ghost predicate NothingLost(s: State) {
    && s.work.queue == {}
    && multiset(s.work.claims) == multiset(s.work.acks)
    && (forall id: WorkId :: multiset(s.work.acks)[id] == if id < s.committed then 1 else 0)
  }

  lemma {:induction false} DistinctMultiplicity(ids: seq<WorkId>, id: WorkId)
    requires NoDuplicates(ids)
    ensures multiset(ids)[id] == if id in ids then 1 else 0
  {
    if ids != [] {
      var front := ids[..|ids| - 1];
      DistinctMultiplicity(front, id);
      assert ids == front + [ids[|ids| - 1]];
    }
  }

  lemma AllAckedLosesNothing(s: State)
    requires LedgerInv(s) && AllAcked(s)
    ensures NothingLost(s)
  {
    forall id: WorkId ensures multiset(s.work.acks)[id] == (if id < s.committed then 1 else 0) == multiset(s.work.claims)[id] {
      DistinctMultiplicity(s.work.acks, id);
      DistinctMultiplicity(s.work.claims, id);
    }
  }

  /** A clean drain has claimed and acked every committed item exactly once. */
  lemma CleanDrainLosesNothing(c: Config, s: State)
    requires c.workers > 0 && c.maxEmptyPolls >= 2
    requires Reachable(c, s) && DrainedCleanly(s)
    ensures s.collector.Closed? && NothingLost(s)
  {
    ReachableInv(c, s);
    AllAckedLosesNothing(s);
  }

  /** With no error and a live context, the workers never all return while an item is queued. */
  lemma WorkersOutlastQueue(c: Config, s: State)
    requires c.workers > 0 && c.maxEmptyPolls >= 2
    requires Reachable(c, s) && s.work.queue != {} && s.work.errs == 0 && ContextLive(s)
    ensures exists i :: 0 <= i < |s.workers| && !Terminal(s.workers[i])
  {
    ReachableInv(c, s);
    if AllTerminal(s.workers) {
      QuietMeansAcked(c, s);
    }
  }

  /** A nil first receive from errc is the collector's outcome. */
  lemma FirstNilIsCollectors(c: Config, s: State)
    requires c.workers > 0 && c.maxEmptyPolls >= 2
    requires Reachable(c, s) && !s.parentCancelled
    requires s.received != [] && s.received[0].ok
    ensures s.received[0].sender.FromCollector? && (s.collector.Sent? || s.collector.Closed?)
  {
    ReachableInv(c, s);
    var sent := SentOutcomes(s);
    assert sent[0] == s.received[0];
  }

  ghost predicate ActionsOrdered(actions: seq<Action>) {
    || actions == []
    || (exists b: bool :: actions == [Backfill(b)])
    || (exists m: bool :: actions == [Backfill(true), Materialize(m)])
    || (exists r: bool :: actions == [Backfill(true), Materialize(true), Reopen(r)])
  }

  /**
    Backfill, materialize and reopen run at most once each and in that order, each
    only after the one before succeeded; backfill only after the collector reported
    success, and materialize only once every queued item was acked.
   */
  lemma FollowUpOrder(c: Config, s: State)
    requires c.workers > 0 && c.maxEmptyPolls >= 2
    requires Reachable(c, s) && !s.parentCancelled
    ensures ActionsOrdered(s.actions)
    ensures s.actions != [] ==> s.received != [] && s.received[0] == Outcome(FromCollector, true)
    ensures |s.actions| >= 2 ==> s.collector.Closed? && NothingLost(s)
  {
    ReachableInv(c, s);
    if s.actions != [] {
      assert s.received != [] && s.received[0].ok;
      FirstNilIsCollectors(c, s);
    }
    if |s.actions| >= 2 {
      assert DrainedBeforeReturn(s);
      AllAckedLosesNothing(s);
    }
  }

  /** runPipelined returns nil exactly when all three follow-ups ran and succeeded. */
  lemma SuccessMeansComplete(c: Config, s: State)
    requires c.workers > 0 && c.maxEmptyPolls >= 2
    requires Reachable(c, s) && s.main.Finished?
    ensures s.main.ok <==> s.actions == [Backfill(true), Materialize(true), Reopen(true)]
    ensures s.main.ok && !s.parentCancelled ==> NothingLost(s)
  {
    assert LedgerInv(s) && ChannelInv(s) && MainInv(s) by {
      ReachableInv(c, s);
    }
    if s.main.ok && !s.parentCancelled {
      assert AllAcked(s);
      AllAckedLosesNothing(s);
    }
  }
}
