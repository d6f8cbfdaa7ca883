/** What the scheduler invariant means for every run of one cycle. */
module SnapshotSchedulerRuns {

  import opened Basics
  import opened SnapshotScheduler
  import opened Counting

  ghost predicate IsRun(c: Config, run: seq<State>) {
    && |run| > 0
    && run[0] == Start(c)
    && forall i :: 0 <= i < |run| - 1 ==> Next(c, run[i], run[i + 1])
  }

  ghost predicate Reachable(c: Config, s: State) {
    exists run :: IsRun(c, run) && run[|run| - 1] == s
  }

  lemma PrefixIsRun(c: Config, run: seq<State>)
    requires IsRun(c, run) && |run| > 1
    ensures IsRun(c, run[..|run| - 1])
    ensures Next(c, run[|run| - 2], run[|run| - 1])
  {
    var prefix := run[..|run| - 1];
    forall i | 0 <= i < |prefix| - 1 ensures Next(c, prefix[i], prefix[i + 1]) {
      assert Next(c, run[i], run[i + 1]);
    }
    var last := |run| - 2;
    assert Next(c, run[last], run[last + 1]);
  }

  lemma {:induction false} RunInv(c: Config, run: seq<State>)
    requires c.Valid() && IsRun(c, run)
    ensures Inv(c, run[|run| - 1])
  {
    if |run| == 1 {
      StartInv(c);
    } else {
      var prefix := run[..|run| - 1];
      PrefixIsRun(c, run);
      RunInv(c, prefix);
      assert prefix[|prefix| - 1] == run[|run| - 2];
      NextPreserves(c, run[|run| - 2], run[|run| - 1]);
    }
  }

  lemma ReachableInv(c: Config, s: State)
    requires c.Valid() && Reachable(c, s)
    ensures Inv(c, s)
  {
    var run :| IsRun(c, run) && run[|run| - 1] == s;
    RunInv(c, run);
  }

  // ------------------------------------------------------------ conservation

  /** Once everyone has returned, only sequences hold repositories. */
  lemma ReturnedHoldNothing(s: State, r: Repo)
    requires AllReturned(s.workers)
    ensures SumBy(s.workers, PendingWeight(r)) == 0 && SumBy(s.workers, DoneWeight(r)) == 0
    ensures SumBy(s.workers, BrokenWeight(r)) == 0
  {
    SumZero(s.workers, PendingWeight(r));
    SumZero(s.workers, DoneWeight(r));
    SumZero(s.workers, BrokenWeight(r));
  }

  lemma {:induction false} NoneOccurs(rs: seq<Repo>)
    requires forall r: Repo :: Times(rs, r) == 0
    ensures rs == []
  {
    if rs != [] {
      assert Times(rs, rs[0]) > 0;
    }
  }

  lemma {:induction false} BrokenWithinDone(ws: seq<Worker>, r: Repo)
    ensures SumBy(ws, BrokenWeight(r)) <= SumBy(ws, DoneWeight(r))
  {
    if ws != [] {
      BrokenWithinDone(ws[1..], r);
    }
  }

  /** A snapshot that returned an error is neither sent nor received, in no state; only such ones are reported. */
  lemma BrokenNeverSent(c: Config, s: State, r: Repo)
    requires Inv(c, s)
    ensures Times(s.shared.failed, r) <= Times(s.shared.broken, r) <= Times(s.shared.snapshots, r) <= 1
    ensures Times(s.shared.broken, r) > 0 ==> Times(s.shared.sent, r) == 0 && Times(s.received, r) == 0 && Times(s.shared.unsent, r) == 0
  {
    assert Before(c, s, r) + After(s, r) == if r < c.Repos() then 1 else 0;
    assert Times(s.shared.snapshots, r) == After(s, r);
    assert Times(s.shared.broken, r) == Times(s.shared.failed, r) + SumBy(s.workers, BrokenWeight(r));
    BrokenWithinDone(s.workers, r);
    TimesConcat(s.received, s.shared.stream, r);
  }

  /** Once the stream is closed every error has been reported. */
  lemma ClosedReportsBroken(c: Config, s: State)
    requires Inv(c, s) && StreamClosed(s)
    ensures forall r: Repo :: Times(s.shared.failed, r) == Times(s.shared.broken, r)
    ensures s.shared.failed == [] <==> s.shared.broken == []
  {
    forall r: Repo ensures Times(s.shared.failed, r) == Times(s.shared.broken, r) {
      ReturnedHoldNothing(s, r);
      assert Times(s.shared.broken, r) == Times(s.shared.failed, r) + SumBy(s.workers, BrokenWeight(r));
    }
    if s.shared.failed == [] {
      NoneOccurs(s.shared.broken);
    }
    if s.shared.broken == [] {
      NoneOccurs(s.shared.failed);
    }
  }

  /** What an exhausted stream has handed to the consumer, given the snapshots taken and those of them that failed. */
  ghost predicate Delivered(c: Config, received: seq<Repo>, snapshots: seq<Repo>, broken: seq<Repo>, err: Option<Repo>, cancelled: bool) {
    && (forall r: Repo :: Times(received, r) <= Times(snapshots, r) <= (if r < c.Repos() then 1 else 0))
    && (forall r: Repo :: Times(broken, r) > 0 ==> Times(received, r) == 0 && Times(snapshots, r) == 1)
    && (err.None? <==> broken == [])
    && (err.Some? ==> Times(broken, err.value) == 1)
    && (broken == [] && !cancelled ==> forall r: Repo :: r < c.Repos() ==> Times(received, r) == Times(snapshots, r) == 1)
  }

  /**
    When the stream is exhausted every repository was snapshotted and returned exactly
    once, unless a snapshot failed or the context was cancelled from outside; a failed
    repository is reported and never returned.
   */
  lemma ExhaustedDelivers(c: Config, s: State)
    requires c.workers > 0 && Inv(c, s) && StreamClosed(s) && s.shared.stream == []
    ensures s.received == s.shared.sent
    ensures s.streamErr == (if s.shared.failed == [] then None else Some(s.shared.failed[0]))
    ensures Delivered(c, s.received, s.shared.snapshots, s.shared.broken, s.streamErr, s.parentCancelled)
  {
    assert WorkerInv(c, s.workers[0], SmallDone(s.shared), LargeDone(s.shared), Cause(s));
    ClosedReportsBroken(c, s);
    forall r: Repo
      ensures Times(s.received, r) <= Times(s.shared.snapshots, r) <= (if r < c.Repos() then 1 else 0)
      ensures s.shared.failed == [] && !s.parentCancelled && r < c.Repos() ==>
                Times(s.received, r) == Times(s.shared.snapshots, r) == 1
      ensures Times(s.shared.broken, r) > 0 ==> Times(s.received, r) == 0 && Times(s.shared.snapshots, r) == 1
    {
      ReturnedHoldNothing(s, r);
      BrokenNeverSent(c, s, r);
      assert Before(c, s, r) + After(s, r) == if r < c.Repos() then 1 else 0;
      assert Times(s.shared.snapshots, r) == After(s, r);
    }
    if s.shared.failed != [] {
      var r := s.shared.failed[0];
      assert Times(s.shared.failed, r) > 0;
      BrokenNeverSent(c, s, r);
    }
  }

  /** On an uncancelled run in which no snapshot returned an error, everything is snapshotted once and received once. */
  lemma CleanRunDeliversAll(c: Config, s: State, r: Repo)
    requires c.Valid() && Reachable(c, s) && StreamClosed(s) && s.shared.stream == []
    requires !s.parentCancelled && s.shared.broken == []
    ensures s.streamErr.None?
    ensures Times(s.shared.snapshots, r) == Times(s.received, r) == if r < c.Repos() then 1 else 0
  {
    ReachableInv(c, s);
    ExhaustedDelivers(c, s);
    assert Times(s.received, r) <= Times(s.shared.snapshots, r) <= if r < c.Repos() then 1 else 0;
  }

  /** On every reachable state: reported repositories returned an error, and none that did is sent or received. */
  lemma ErrorsAreNotGenerations(c: Config, s: State, r: Repo)
    requires c.Valid() && Reachable(c, s)
    ensures Times(s.shared.failed, r) > 0 ==> Times(s.shared.broken, r) == 1
    ensures Times(s.shared.sent, r) > 0 || Times(s.received, r) > 0 ==> Times(s.shared.broken, r) == 0 && Times(s.shared.snapshots, r) == 1
  {
    ReachableInv(c, s);
    BrokenNeverSent(c, s, r);
    assert Times(s.shared.snapshots, r) == After(s, r);
    TimesConcat(s.received, s.shared.stream, r);
  }

  // ---------------------------------------------------------- semaphore, errors

  function LargeSnapshot(c: Config): Worker -> nat {
    (w: Worker) => if w.Snapshotting? && w.repo < c.Repos() && c.large[w.repo] then 1 else 0
  }

  lemma {:induction false} LargeNeedToken(c: Config, ws: seq<Worker>)
    requires forall i :: 0 <= i < |ws| ==> SizeInv(c, ws[i])
    ensures SumBy(ws, LargeSnapshot(c)) <= SumBy(ws, TokenWeight)
  {
    if ws != [] {
      LargeNeedToken(c, ws[1..]);
      assert SizeInv(c, ws[0]);
    }
  }

  /** The semaphore counts the workers that hold a token, and bounds the large snapshots in progress. */
  lemma SemaphoreBounds(c: Config, s: State)
    requires c.Valid() && Reachable(c, s)
    ensures s.shared.tokens == SumBy(s.workers, TokenWeight) <= c.maxLarge
    ensures SumBy(s.workers, LargeSnapshot(c)) <= c.maxLarge
    ensures StreamClosed(s) ==> s.shared.tokens == 0
  {
    ReachableInv(c, s);
    forall i | 0 <= i < |s.workers| ensures SizeInv(c, s.workers[i]) {
      assert WorkerInv(c, s.workers[i], SmallDone(s.shared), LargeDone(s.shared), Cause(s));
    }
    LargeNeedToken(c, s.workers);
    if StreamClosed(s) {
      SumZero(s.workers, TokenWeight);
    }
  }

  /** A worker waits for the semaphore alone only once the small lane is closed and empty. */
  lemma TokenWaitIsLast(c: Config, s: State, i: nat)
    requires c.Valid() && Reachable(c, s) && i < |s.workers| && s.workers[i].AwaitToken?
    ensures SmallDone(s.shared) && InLane(c, s.workers[i].repo, true)
  {
    ReachableInv(c, s);
    assert WorkerInv(c, s.workers[i], SmallDone(s.shared), LargeDone(s.shared), Cause(s));
  }

  /** What is final once the stream is closed. */
  predicate SameOutcome(s: State, t: State) {
    && StreamClosed(t) && t.shared.sent == s.shared.sent && t.streamErr == s.streamErr
    && t.shared.snapshots == s.shared.snapshots && t.shared.broken == s.shared.broken && t.shared.failed == s.shared.failed
  }

  lemma ReturnedTakeNoStep(c: Config, s: State, t: State, i: nat)
    requires AllReturned(s.workers) && i < |s.workers|
    ensures !WorkerStep(c, s, t, i)
  {
    assert s.workers[i].Returned?;
  }

  lemma DiscoverySendsNothing(c: Config, s: State, t: State)
    requires StreamClosed(s) && DiscoveryStep(c, s, t)
    ensures SameOutcome(s, t)
  {
  }

  lemma OthersSendNothing(s: State, t: State)
    requires StreamClosed(s) && (CoordinatorStep(s, t) || ReceiveStep(s, t) || ParentStep(s, t))
    ensures SameOutcome(s, t)
  {
  }

  /** After close(stream) no step sends anything; the consumer only uses up what is buffered. */
  lemma NothingSentAfterClose(c: Config, s: State, t: State)
    requires c.Valid() && Reachable(c, s) && StreamClosed(s) && Next(c, s, t)
    ensures SameOutcome(s, t)
  {
    assert AllReturned(s.workers) by {
      ReachableInv(c, s);
    }
    if DiscoveryStep(c, s, t) {
      DiscoverySendsNothing(c, s, t);
    } else if CoordinatorStep(s, t) || ReceiveStep(s, t) || ParentStep(s, t) {
      OthersSendNothing(s, t);
    } else {
      var i: nat :| i < |s.workers| && WorkerStep(c, s, t, i);
      ReturnedTakeNoStep(c, s, t, i);
      assert false;
    }
  }

  /** The closed stream has an error exactly when some snapshot returned one; it is the first reported, and was never sent. */
  lemma StreamErrorIsFirstFailure(c: Config, s: State)
    requires c.Valid() && Reachable(c, s) && StreamClosed(s)
    ensures s.streamErr.None? <==> s.shared.broken == []
    ensures s.streamErr.Some? ==>
      && s.shared.failed != [] && s.streamErr.value == s.shared.failed[0]
      && Times(s.shared.broken, s.streamErr.value) == 1 && Times(s.shared.sent, s.streamErr.value) == 0
  {
    ReachableInv(c, s);
    ClosedReportsBroken(c, s);
    if s.shared.failed != [] {
      var r := s.shared.failed[0];
      assert Times(s.shared.failed, r) > 0;
      BrokenNeverSent(c, s, r);
    }
  }

  lemma {:induction false} TimesConcat(a: seq<Repo>, b: seq<Repo>, r: Repo)
    ensures Times(a + b, r) == Times(a, r) + Times(b, r)
  {
    if a == [] {
      assert a + b == b;
    } else {
      TimesConcat(a[1..], b, r);
      assert (a + b)[1..] == a[1..] + b;
    }
  }
}
