/** The drain needs at least two empty polls: with one or none, stale empty claims lose work. */
module BootstrapPipelineLimits {

  import opened BootstrapPipeline
  import opened BootstrapPipelineRuns

  /** The first j workers are at `done`, the others at `todo`. */
  function Split(n: nat, j: nat, done: Worker, todo: Worker): seq<Worker> {
    seq(n, i => if i < j then done else todo)
  }

  lemma SplitAdvance(n: nat, j: nat, done: Worker, todo: Worker)
    requires j < n
    ensures Split(n, j, done, todo)[j := done] == Split(n, j + 1, done, todo)
  {
  }

  function Fresh(c: Config): State {
    State(0, Work({}, [], [], 0, 0, false), Split(c.workers, 0, GotEmpty, LoopHead),
          Collecting, Running, [], [], AwaitFirst, [], false, false)
  }

  /** The first j workers have claimed from the still empty queue. */
  function Polling(c: Config, j: nat): State {
    Fresh(c).(workers := Split(c.workers, j, GotEmpty, LoopHead))
  }

  lemma {:induction false} PollingReachable(c: Config, j: nat)
    requires j <= c.workers
    ensures Reachable(c, Polling(c, j))
  {
    if j == 0 {
      var s := Fresh(c);
      assert IsStart(c, s) by {
        assert s.workers == seq(c.workers, _ => LoopHead);
      }
      assert IsRun(c, [s]) && [s][0] == s;
    } else {
      PollingReachable(c, j - 1);
      var s := Polling(c, j - 1);
      var t := s.(workers := s.workers[j - 1 := ToClaim]);
      assert WorkerStep(c, s, t, j - 1);
      ReachStep(c, s, t);
      var u := t.(workers := t.workers[j - 1 := GotEmpty]);
      assert WorkerStep(c, t, u, j - 1);
      ReachStep(c, t, u);
      SplitAdvance(c.workers, j - 1, GotEmpty, LoopHead);
      assert u.workers == s.workers[j - 1 := GotEmpty];
    }
  }

  /** One item is committed and the collector finishes before any empty claim is counted. */
  function Exiting(c: Config, j: nat): State {
    Fresh(c).(committed := 1, work := Work({0}, [], [], j, 0, false), collector := Closed,
              errc := [Outcome(FromCollector, true)], workers := Split(c.workers, j, Drained, GotEmpty))
  }

  lemma CollectorLeavesOneItem(c: Config)
    ensures Reachable(c, Exiting(c, 0))
  {
    PollingReachable(c, c.workers);
    var s := Polling(c, c.workers);
    var s1 := s.(committed := 1, work := s.work.(queue := {0}));
    assert s1.work.queue == s.work.queue + {s.committed};
    ReachStep(c, s, s1);
    var s2 := s1.(collector := Returning(true));
    ReachStep(c, s1, s2);
    var s3 := s2.(collector := Sent, errc := [Outcome(FromCollector, true)]);
    assert s3.errc == s2.errc + [Outcome(FromCollector, true)];
    ReachStep(c, s2, s3);
    var s4 := s3.(collector := Closed);
    ReachStep(c, s3, s4);
    assert s4.workers == Split(c.workers, 0, Drained, GotEmpty);
  }

  lemma ExitOne(c: Config, j: nat)
    requires c.maxEmptyPolls <= 1 && j < c.workers && Reachable(c, Exiting(c, j))
    ensures Reachable(c, Exiting(c, j + 1))
  {
    var s := Exiting(c, j);
    var t := s.(workers := s.workers[j := SawDone]);
    assert WorkerStep(c, s, t, j);
    ReachStep(c, s, t);
    var u := t.(workers := t.workers[j := Drained], work := t.work.(emptyCount := j + 1));
    assert WorkerStep(c, t, u, j);
    ReachStep(c, t, u);
    SplitAdvance(c.workers, j, Drained, GotEmpty);
    assert u.workers == s.workers[j := Drained];
    assert u == Exiting(c, j + 1);
  }

  lemma {:induction false} ExitingReachable(c: Config, j: nat)
    requires c.maxEmptyPolls <= 1 && j <= c.workers
    ensures Reachable(c, Exiting(c, j))
  {
    if j == 0 {
      CollectorLeavesOneItem(c);
    } else {
      ExitingReachable(c, j - 1);
      ExitOne(c, j - 1);
    }
  }

  /** With fewer than two polls, every worker can exit on a stale empty claim while the item is queued. */
  lemma StaleClaimsLoseWork(c: Config) returns (s: State)
    requires c.maxEmptyPolls <= 1
    ensures Reachable(c, s) && DrainedCleanly(s) && s.work.queue == {0} && s.work.acks == []
  {
    ExitingReachable(c, c.workers);
    var e := Exiting(c, c.workers);
    s := e.(projector := Returned(true, true), errc := e.errc + [Outcome(FromProjector, true)]);
    assert ProjectorStep(e, s);
    ReachStep(c, e, s);
  }

  /** The drain loses nothing on any run exactly when at least two empty polls are required. */
  lemma DrainSafeIff(c: Config)
    requires c.workers > 0
    ensures (forall s :: Reachable(c, s) && DrainedCleanly(s) ==> NothingLost(s)) <==> c.maxEmptyPolls >= 2
  {
    if c.maxEmptyPolls >= 2 {
      forall s | Reachable(c, s) && DrainedCleanly(s) ensures NothingLost(s) {
        CleanDrainLosesNothing(c, s);
      }
    } else {
      var s := StaleClaimsLoseWork(c);
      assert !NothingLost(s);
    }
  }
}
