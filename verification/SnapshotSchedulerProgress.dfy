/** The scheduler never gets stuck while its consumer keeps receiving, and every run is bounded. */
module SnapshotSchedulerProgress {

  import opened Basics
  import opened SnapshotScheduler
  import opened SnapshotSchedulerRuns
  import opened Counting

  /** Nothing is left to do: the stream is closed and the consumer has emptied it. */
  predicate Exhausted(s: State) {
    s.coordinator.Closed? && s.discovery.Finished? && s.shared.stream == []
  }

  /** Nothing but a cancellation from outside can happen. */
  ghost predicate Stuck(c: Config, s: State) {
    forall t :: Next(c, s, t) ==> ParentStep(s, t)
  }

  /** The snapshots that finish in a step, if it is one, are of a worker that was taking one. */
  ghost predicate TakesSnapshot(s: State, t: State) {
    || t.shared.snapshots == s.shared.snapshots
    || exists i :: 0 <= i < |s.workers| && s.workers[i].Snapshotting?
                   && t.shared.snapshots == s.shared.snapshots + [s.workers[i].repo]
  }

  /** A step that neither cancels from outside nor meets an error of a snapshot. */
  ghost predicate Quiet(c: Config, s: State, t: State) {
    Next(c, s, t) && t.parentCancelled == s.parentCancelled && t.shared.broken == s.shared.broken && TakesSnapshot(s, t)
  }

  lemma WorkerMoves(c: Config, s: State, i: nat, w: Worker, b: Shared) returns (t: State)
    requires i < |s.workers| && Local(c, Live(s), s.workers[i], s.shared, w, b)
    requires b.broken == s.shared.broken
    requires b.snapshots == s.shared.snapshots
      || (s.workers[i].Snapshotting? && b.snapshots == s.shared.snapshots + [s.workers[i].repo])
    ensures Quiet(c, s, t)
  {
    t := s.(workers := s.workers[i := w], shared := b);
    assert WorkerStep(c, s, t, i);
  }

  /** With both lanes closed, a running worker can move unless it needs the stream or a token. */
  lemma LaneCanMove(c: Config, live: bool, v: Worker, a: Shared) returns (w: Worker, b: Shared)
    requires Pending(v).None? && Done(v).None? && !v.Returned?
    requires a.smallClosed && a.largeClosed && (TokenWeight(v) > 0 ==> a.tokens > 0)
    ensures LaneAction(c, live, v, a, w, b) && b.broken == a.broken && b.snapshots == a.snapshots
  {
    w, b := v, a;
    match v {
      case LoopHead => w := if live then TrySmall else Returned;
      case TrySmall =>
        if a.small != [] {
          w, b := Snapshotting(a.small[0], false, MainLoop), a.(small := a.small[1..]);
        } else {
          w := LargeHead;
        }
      case SelectLane =>
        if a.small != [] {
          w, b := Snapshotting(a.small[0], false, MainLoop), a.(small := a.small[1..]);
        } else {
          w := LargeHead;
        }
      case HoldingToken =>
        if a.large != [] {
          w, b := Snapshotting(a.large[0], true, MainLoop), a.(large := a.large[1..]);
        } else {
          w := TokenThenSmallLoop;
        }
      case TokenThenSmallLoop => w, b := SmallHead, a.(tokens := a.tokens - 1);
      case TokenThenLargeLoop => w, b := LargeHead, a.(tokens := a.tokens - 1);
      case TokenThenReturn => w, b := Returned, a.(tokens := a.tokens - 1);
      case LargeHead =>
        if a.large != [] {
          w, b := LargeTaken(a.large[0]), a.(large := a.large[1..]);
        } else {
          w := Returned;
        }
      case SmallHead =>
        if a.small != [] {
          w, b := SmallTaken(a.small[0]), a.(small := a.small[1..]);
        } else {
          w := Returned;
        }
    }
  }

  lemma SnapshotCanMove(c: Config, live: bool, v: Worker, a: Shared) returns (w: Worker, b: Shared)
    requires Pending(v).Some? && (TokenWeight(v) > 0 ==> a.tokens > 0) && (v.AwaitToken? ==> a.tokens < c.maxLarge)
    ensures SnapshotAction(c, live, v, a, w, b) && b.broken == a.broken
    ensures b.snapshots == if v.Snapshotting? then a.snapshots + [v.repo] else a.snapshots
  {
    w, b := v, a;
    match v {
      case TokenThenSnapshot(repo) => w, b := Snapshotting(repo, false, MainLoop), a.(tokens := a.tokens - 1);
      case LargeTaken(repo) =>
        if live { w := AwaitToken(repo); } else { w, b := Returned, a.(skipped := a.skipped + [repo]); }
      case AwaitToken(repo) => w, b := Snapshotting(repo, true, LargeLoop), a.(tokens := a.tokens + 1);
      case SmallTaken(repo) =>
        if live { w := Snapshotting(repo, false, SmallLoop); } else { w, b := Returned, a.(skipped := a.skipped + [repo]); }
      case Snapshotting(repo, token, loop) =>
        w, b := Snapshotted(repo, token, true, loop), a.(snapshots := a.snapshots + [repo]);
    }
  }

  lemma ResultCanMove(c: Config, live: bool, v: Worker, a: Shared) returns (w: Worker, b: Shared)
    requires Done(v).Some? && (TokenWeight(v) > 0 ==> a.tokens > 0) && (v.Sending? ==> |a.stream| < c.buffer)
    ensures ResultAction(c, live, v, a, w, b) && b.broken == a.broken && b.snapshots == a.snapshots
  {
    w, b := v, a;
    match v {
      case Snapshotted(repo, token, ok, loop) =>
        w := if ok then Sending(repo, loop) else Reporting(repo, loop);
        b := if token then a.(tokens := a.tokens - 1) else a;
      case Reporting(repo, loop) =>
        w := Resume(loop);
        b := a.(failed := a.failed + [repo], cancelled := true,
                firstErr := if a.firstErr.None? then Some(repo) else a.firstErr);
      case Sending(repo, loop) =>
        w, b := Resume(loop), a.(stream := a.stream + [repo], sent := a.sent + [repo]);
    }
  }

  lemma WorkerCanMove(c: Config, s: State, i: nat) returns (t: State)
    requires Inv(c, s) && s.discovery.Finished? && i < |s.workers| && !s.workers[i].Returned?
    requires s.workers[i].Sending? ==> |s.shared.stream| < c.buffer
    requires s.workers[i].AwaitToken? ==> s.shared.tokens < c.maxLarge
    ensures Quiet(c, s, t)
  {
    var v, live := s.workers[i], Live(s);
    SumMember(s.workers, i, TokenWeight);
    var w, b;
    if Pending(v).Some? {
      w, b := SnapshotCanMove(c, live, v, s.shared);
    } else if Done(v).Some? {
      w, b := ResultCanMove(c, live, v, s.shared);
    } else {
      w, b := LaneCanMove(c, live, v, s.shared);
    }
    t := WorkerMoves(c, s, i, w, b);
  }

  /** Short of an exhausted stream some quiet step can be taken. */
  lemma QuietStep(c: Config, s: State) returns (t: State)
    requires c.Valid() && Inv(c, s) && !Exhausted(s)
    ensures Quiet(c, s, t)
  {
    var a := s.shared;
    if a.stream != [] {
      t := s.(received := s.received + [a.stream[0]], shared := a.(stream := a.stream[1..]));
      assert ReceiveStep(s, t);
    } else if !s.discovery.Finished? {
      t := DiscoveryCanMove(c, s);
    } else if s.coordinator.Waiting? && !AllReturned(s.workers) {
      var i :| 0 <= i < |s.workers| && !s.workers[i].Returned?;
      if s.workers[i].AwaitToken? && a.tokens == c.maxLarge {
        var j := SumPositive(s.workers, TokenWeight);
        t := WorkerCanMove(c, s, j);
      } else {
        t := WorkerCanMove(c, s, i);
      }
    } else {
      t := CoordinatorCanMove(c, s);
    }
  }

  /** No state short of an exhausted stream is stuck, as long as the consumer may receive. */
  lemma NeverStuck(c: Config, s: State)
    requires c.Valid() && Inv(c, s) && !Exhausted(s)
    ensures exists t :: Next(c, s, t) && !ParentStep(s, t)
  {
    var t := QuietStep(c, s);
    assert !ParentStep(s, t);
  }

  lemma DiscoveryCanMove(c: Config, s: State) returns (t: State)
    requires Inv(c, s) && !s.discovery.Finished?
    ensures Quiet(c, s, t)
  {
    var a := s.shared;
    t := match s.discovery
      case Discovering =>
        if s.next == c.Repos() then s.(discovery := ClosingLarge)
        else if c.large[s.next] then s.(next := s.next + 1, shared := a.(large := a.large + [s.next]))
        else s.(next := s.next + 1, shared := a.(small := a.small + [s.next]))
      case ClosingLarge => s.(discovery := ClosingSmall, shared := a.(largeClosed := true))
      case ClosingSmall => s.(discovery := Finished, shared := a.(smallClosed := true));
    assert DiscoveryStep(c, s, t);
  }

  lemma CoordinatorCanMove(c: Config, s: State) returns (t: State)
    requires !s.coordinator.Closed? && (s.coordinator.Waiting? ==> AllReturned(s.workers))
    ensures Quiet(c, s, t)
  {
    t := match s.coordinator
      case Waiting => s.(coordinator := Cancelling)
      case Cancelling => s.(coordinator := Recording, shared := s.shared.(cancelled := true))
      case Recording => s.(coordinator := Closing, streamErr := s.shared.firstErr)
      case Closing => s.(coordinator := Closed);
    assert CoordinatorStep(s, t);
  }

  // ---------------------------------------------------------------- measure

  /** What a worker can still do with what it holds, before it takes the next repository. */
  function WorkerRank(w: Worker): nat {
    match w
    case LoopHead => 6
    case TrySmall => 5
    case SelectLane => 4
    case HoldingToken => 3
    case TokenThenSnapshot(_) => 11
    case TokenThenSmallLoop => 2
    case TokenThenLargeLoop => 2
    case TokenThenReturn => 1
    case LargeHead => 1
    case LargeTaken(_) => 12
    case AwaitToken(_) => 11
    case SmallHead => 1
    case SmallTaken(_) => 12
    case Snapshotting(_, _, _) => 10
    case Snapshotted(_, _, _, _) => 9
    case Reporting(_, _) => 8
    case Sending(_, _) => 8
    case Returned => 0
  }

  function DiscoveryRank(d: Discovery): nat {
    match d
    case Discovering => 3
    case ClosingLarge => 2
    case ClosingSmall => 1
    case Finished => 0
  }

  function CoordinatorRank(k: Coordinator): nat {
    match k
    case Waiting => 4
    case Cancelling => 3
    case Recording => 2
    case Closing => 1
    case Closed => 0
  }

  function LaneWork(a: Shared): nat {
    13 * (|a.small| + |a.large|) + |a.stream|
  }

  function Measure(c: Config, s: State): nat {
    (if s.next <= c.Repos() then 14 * (c.Repos() - s.next) else 0)
    + LaneWork(s.shared) + SumBy(s.workers, WorkerRank)
    + DiscoveryRank(s.discovery) + CoordinatorRank(s.coordinator) + (if s.parentCancelled then 0 else 1)
  }

  lemma LaneActionShrinks(c: Config, live: bool, v: Worker, a: Shared, w: Worker, b: Shared)
    requires LaneAction(c, live, v, a, w, b)
    ensures LaneWork(b) + WorkerRank(w) < LaneWork(a) + WorkerRank(v)
  {
  }

  lemma LocalShrinks(c: Config, live: bool, v: Worker, a: Shared, w: Worker, b: Shared)
    requires Local(c, live, v, a, w, b)
    ensures LaneWork(b) + WorkerRank(w) < LaneWork(a) + WorkerRank(v)
  {
    if Pending(v).None? && Done(v).None? {
      LaneActionShrinks(c, live, v, a, w, b);
    }
  }

  lemma WorkerShrinks(c: Config, s: State, t: State, i: nat)
    requires i < |s.workers| && WorkerStep(c, s, t, i)
    ensures Measure(c, t) < Measure(c, s)
  {
    LocalShrinks(c, Live(s), s.workers[i], s.shared, t.workers[i], t.shared);
    SumUpdate(s.workers, i, t.workers[i], WorkerRank);
  }

  lemma DiscoveryShrinks(c: Config, s: State, t: State)
    requires DiscoveryStep(c, s, t)
    ensures Measure(c, t) < Measure(c, s)
  {
  }

  lemma CoordinatorShrinks(c: Config, s: State, t: State)
    requires CoordinatorStep(s, t)
    ensures Measure(c, t) < Measure(c, s)
  {
  }

  /** Every step of every goroutine, and every receive, lowers the measure. */
  lemma StepShrinks(c: Config, s: State, t: State)
    requires Next(c, s, t)
    ensures Measure(c, t) < Measure(c, s)
  {
    if DiscoveryStep(c, s, t) {
      DiscoveryShrinks(c, s, t);
    } else if CoordinatorStep(s, t) {
      CoordinatorShrinks(c, s, t);
    } else if i: nat :| i < |s.workers| && WorkerStep(c, s, t, i) {
      WorkerShrinks(c, s, t, i);
    }
  }

  lemma {:induction false} StartRank(n: nat)
    ensures SumBy(seq(n, _ => LoopHead), WorkerRank) == 6 * n
  {
    if n > 0 {
      StartRank(n - 1);
      assert seq(n, _ => LoopHead)[1..] == seq(n - 1, _ => LoopHead);
    }
  }

  lemma {:induction false} RunShrinks(c: Config, run: seq<State>)
    requires c.Valid() && IsRun(c, run)
    ensures |run| + Measure(c, run[|run| - 1]) <= 1 + Measure(c, Start(c))
  {
    if |run| > 1 {
      var prefix := run[..|run| - 1];
      PrefixIsRun(c, run);
      RunShrinks(c, prefix);
      assert prefix[|prefix| - 1] == run[|run| - 2];
      StepShrinks(c, run[|run| - 2], run[|run| - 1]);
    }
  }

  /** Every run takes at most this many steps, whatever the select choices and the snapshot outcomes. */
  lemma RunsAreBounded(c: Config, run: seq<State>)
    requires c.Valid() && IsRun(c, run)
    ensures |run| <= 14 * c.Repos() + 6 * c.workers + 9
  {
    RunShrinks(c, run);
    StartRank(c.workers);
  }

  /** A run that cannot go on has closed the stream and delivered what the run allows. */
  lemma MaximalRunsDeliver(c: Config, run: seq<State>)
    requires c.Valid() && IsRun(c, run)
    requires Stuck(c, run[|run| - 1])
    ensures
      var s := run[|run| - 1];
      Exhausted(s) && Delivered(c, s.received, s.shared.snapshots, s.shared.broken, s.streamErr, s.parentCancelled)
  {
    var s := run[|run| - 1];
    RunInv(c, run);
    if !Exhausted(s) {
      NeverStuck(c, s);
    }
    ExhaustedDelivers(c, s);
  }

  // ----------------------------------------------------- both outcomes happen

  lemma ReachStep(c: Config, s: State, t: State)
    requires Reachable(c, s) && Next(c, s, t)
    ensures Reachable(c, t)
  {
    var run :| IsRun(c, run) && run[|run| - 1] == s;
    var longer := run + [t];
    assert IsRun(c, longer) && longer[|longer| - 1] == t;
  }

  /** From any state quiet steps lead to the end. */
  lemma {:induction false} QuietEnd(c: Config, s: State) returns (t: State)
    requires c.Valid() && Reachable(c, s)
    ensures Reachable(c, t) && Exhausted(t) && t.shared.broken == s.shared.broken && t.parentCancelled == s.parentCancelled
    decreases Measure(c, s)
  {
    t := s;
    if !Exhausted(s) {
      ReachableInv(c, s);
      var u := QuietStep(c, s);
      ReachStep(c, s, u);
      StepShrinks(c, s, u);
      t := QuietEnd(c, u);
    }
  }

  lemma StartReachable(c: Config)
    ensures Reachable(c, Start(c))
  {
    assert IsRun(c, [Start(c)]) && [Start(c)][0] == Start(c);
  }

  /** Whatever the repositories, some run delivers them all without an error. */
  lemma CleanRunExists(c: Config) returns (s: State)
    requires c.Valid()
    ensures Reachable(c, s) && Exhausted(s) && s.streamErr.None? && !s.parentCancelled
    ensures forall r: Repo :: Times(s.received, r) == if r < c.Repos() then 1 else 0
  {
    StartReachable(c);
    s := QuietEnd(c, Start(c));
    forall r: Repo ensures Times(s.received, r) == if r < c.Repos() then 1 else 0 {
      CleanRunDeliversAll(c, s, r);
    }
    CleanRunDeliversAll(c, s, 0);
  }

  /** Quiet steps lead to a state in which some worker is taking the snapshot of `r`. */
  lemma {:induction false} SnapshotBegins(c: Config, s: State, r: Repo) returns (t: State, i: nat)
    requires c.Valid() && Reachable(c, s) && r < c.Repos()
    requires s.shared.broken == [] && !s.parentCancelled && Times(s.shared.snapshots, r) == 0
    ensures Reachable(c, t) && t.shared.broken == [] && !t.parentCancelled
    ensures i < |t.workers| && t.workers[i].Snapshotting? && t.workers[i].repo == r
    decreases Measure(c, s)
  {
    if i': nat :| i' < |s.workers| && s.workers[i'].Snapshotting? && s.workers[i'].repo == r {
      t, i := s, i';
    } else {
      if Exhausted(s) {
        CleanRunDeliversAll(c, s, r);
        assert false;
      }
      ReachableInv(c, s);
      var u := QuietStep(c, s);
      ReachStep(c, s, u);
      StepShrinks(c, s, u);
      if u.shared.snapshots != s.shared.snapshots {
        var j :| 0 <= j < |s.workers| && s.workers[j].Snapshotting?
                 && u.shared.snapshots == s.shared.snapshots + [s.workers[j].repo];
        TimesAppend(s.shared.snapshots, s.workers[j].repo, r);
      }
      t, i := SnapshotBegins(c, u, r);
    }
  }

  lemma SnapshotFails(c: Config, s: State, i: nat) returns (t: State)
    requires Reachable(c, s) && i < |s.workers| && s.workers[i].Snapshotting?
    ensures Reachable(c, t) && t.parentCancelled == s.parentCancelled
    ensures t.shared.broken == s.shared.broken + [s.workers[i].repo]
  {
    var v := s.workers[i];
    var w := Snapshotted(v.repo, v.token, false, v.loop);
    t := s.(workers := s.workers[i := w],
            shared := s.shared.(snapshots := s.shared.snapshots + [v.repo], broken := s.shared.broken + [v.repo]));
    assert WorkerStep(c, s, t, i);
    ReachStep(c, s, t);
  }

  /** And any repository can be the one whose snapshot fails; the stream then ends with its error. */
  lemma FailingRunExists(c: Config, r: Repo) returns (s: State)
    requires c.Valid() && r < c.Repos()
    ensures Reachable(c, s) && Exhausted(s) && !s.parentCancelled
    ensures s.streamErr == Some(r) && s.shared.broken == [r] && Times(s.received, r) == 0
  {
    StartReachable(c);
    var t, i := SnapshotBegins(c, Start(c), r);
    var u := SnapshotFails(c, t, i);
    s := QuietEnd(c, u);
    ReachableInv(c, s);
    ExhaustedDelivers(c, s);
    assert s.shared.broken == [r];
    assert Times(s.shared.broken, r) == 1;
    OnlyOne(s.shared.broken, r, s.streamErr.value);
  }

  lemma OnlyOne(rs: seq<Repo>, r: Repo, q: Repo)
    requires rs == [r] && Times(rs, q) == 1
    ensures q == r
  {
    assert rs[1..] == [];
  }
}
