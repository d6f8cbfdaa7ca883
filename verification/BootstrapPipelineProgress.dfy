/** The pipeline never gets stuck, and once the collector has finished it always returns. */
module BootstrapPipelineProgress {

  import opened BootstrapPipeline
  import opened BootstrapPipelineRuns
  import opened Counting

  /** Nothing but a cancellation from outside can happen. */
  ghost predicate Stuck(c: Config, s: State) {
    forall t :: Next(c, s, t) ==> ParentStep(s, t)
  }

  lemma LocalCanStep(c: Config, live: bool, closed: bool, v: Worker, a: Work) returns (w: Worker, b: Work)
    requires !Terminal(v)
    ensures Local(c, live, closed, v, a, w, b) && w != v
  {
    b := a;
    match v
    case LoopHead => w := if live || c.workers <= 1 then ToClaim else Stopped;
    case ToClaim => w, b := Failing, a.(errs := a.errs + 1);
    case GotItem(id) => w, b := Projecting(id), a.(emptyCount := 0);
    case Projecting(id) => w, b := Failing, a.(errs := a.errs + 1);
    case GotEmpty => w := if closed then SawDone else SawRunning;
    case SawDone =>
      b := a.(emptyCount := a.emptyCount + 1);
      w := if b.emptyCount >= c.maxEmptyPolls then Drained else Waiting;
    case SawRunning => w, b := Waiting, a.(emptyCount := 0);
    case Waiting => w := ToClaim;
    case Failing => w, b := Failed, a.(cancelled := true);
  }

  lemma WorkerCanStep(c: Config, s: State, i: nat) returns (t: State)
    requires i < |s.workers| && !Terminal(s.workers[i])
    ensures WorkerStep(c, s, t, i) && t.workers != s.workers
  {
    var w, b := LocalCanStep(c, WorkerContextLive(s), s.collector.Closed?, s.workers[i], s.work);
    t := s.(workers := s.workers[i := w], work := b);
    assert t.workers[i] != s.workers[i];
  }

  lemma MainCanStep(s: State) returns (t: State)
    requires !s.main.Finished?
    requires s.main.AwaitFirst? || s.main.AwaitProjector? || s.main.AwaitAfterCancel? ==> s.errc != []
    ensures MainStep(s, t) && t.main != s.main
  {
    match s.main
    case AwaitFirst => t := Receive(s).(main := if s.errc[0].ok then ToBackfill else ToCancel);
    case ToBackfill => t := Act(s, Backfill(true)).(main := AwaitProjector);
    case AwaitProjector => t := if s.errc[0].ok then Receive(s).(main := ToMaterialize) else Finish(Receive(s), false);
    case ToMaterialize => t := Act(s, Materialize(true)).(main := ToReopen);
    case ToReopen => t := Finish(Act(s, Reopen(true)), true);
    case ToCancel => t := s.(cancelled := true, main := AwaitAfterCancel);
    case AwaitAfterCancel => t := Finish(Receive(s), false);
  }

  lemma CollectorCanStep(s: State) returns (t: State)
    requires !s.collector.Closed? && (s.collector.Returning? ==> |s.errc| < ErrcCapacity)
    ensures CollectorStep(s, t) && t.collector != s.collector
  {
    match s.collector
    case Collecting => t := s.(collector := Returning(true));
    case Returning(ok) => t := s.(collector := Sent, errc := s.errc + [Outcome(FromCollector, ok)]);
    case Sent => t := s.(collector := Closed);
  }

  /** No reachable state short of the return of runPipelined is stuck. */
  lemma NeverStuck(c: Config, s: State)
    requires Inv(c, s) && !s.main.Finished?
    ensures !Stuck(c, s)
  {
    var t: State;
    if s.errc != [] || !(s.main.AwaitFirst? || s.main.AwaitProjector? || s.main.AwaitAfterCancel?) {
      t := MainCanStep(s);
    } else if !s.collector.Closed? {
      t := CollectorCanStep(s);
    } else if i :| 0 <= i < |s.workers| && !Terminal(s.workers[i]) {
      t := WorkerCanStep(c, s, i);
    } else {
      assert SentOutcomes(s) == s.received;
      t := s.(projector := Returned(s.work.errs == 0, ContextLive(s)),
              errc := s.errc + [Outcome(FromProjector, s.work.errs == 0)]);
      assert ProjectorStep(s, t);
    }
    assert Next(c, s, t);
  }

  // ------------------------------------------------------- drain termination

  function PendingReset(w: Worker): nat {
    if w.GotItem? || w.SawRunning? then 1 else 0
  }

  function Active(w: Worker): nat {
    if Terminal(w) then 0 else 1
  }

  /** Steps a worker can take before it resets, counts or returns. */
  function WorkerRank(w: Worker): nat {
    match w
    case LoopHead => 5
    case ToClaim => 4
    case GotItem(_) => 7
    case Projecting(_) => 6
    case GotEmpty => 3
    case SawDone => 2
    case SawRunning => 7
    case Waiting => 5
    case Failing => 1
    case Drained => 0
    case Stopped => 0
    case Failed => 0
  }

  function MainRank(m: Main): nat {
    match m
    case AwaitFirst => 6
    case ToBackfill => 5
    case AwaitProjector => 4
    case ToMaterialize => 3
    case ToReopen => 2
    case ToCancel => 2
    case AwaitAfterCancel => 1
    case Finished(_) => 0
  }

  /** Resets of the poll counter still to come. */
  function Resets(s: State): nat {
    2 * |s.work.queue| + SumBy(s.workers, PendingReset)
  }

  function ActiveWorkers(s: State): nat {
    SumBy(s.workers, Active)
  }

  function PollsLeft(c: Config, a: Work): nat {
    if a.emptyCount < c.maxEmptyPolls then c.maxEmptyPolls - a.emptyCount else 0
  }

  function Rank(s: State): nat {
    SumBy(s.workers, WorkerRank) + MainRank(s.main)
    + (if s.projector.Running? then 1 else 0) + (if s.parentCancelled then 0 else 1)
  }

  /** (resets, active workers, polls left, rank) goes down lexicographically. */
  ghost predicate Closer(c: Config, s: State, t: State) {
    || Resets(t) < Resets(s)
    || (Resets(t) == Resets(s) && ActiveWorkers(t) < ActiveWorkers(s))
    || (Resets(t) == Resets(s) && ActiveWorkers(t) == ActiveWorkers(s) && PollsLeft(c, t.work) < PollsLeft(c, s.work))
    || (Resets(t) == Resets(s) && ActiveWorkers(t) == ActiveWorkers(s) && PollsLeft(c, t.work) == PollsLeft(c, s.work)
        && Rank(t) < Rank(s))
  }

  /** The same four-way comparison for the one worker that moved. */
  ghost predicate LocalCloser(c: Config, a: Work, b: Work, v: Worker, w: Worker) {
    || 2 * |b.queue| + PendingReset(w) < 2 * |a.queue| + PendingReset(v)
    || (b.queue == a.queue && PendingReset(w) == PendingReset(v) && Active(w) < Active(v))
    || (b.queue == a.queue && PendingReset(w) == PendingReset(v) && Active(w) == Active(v)
        && PollsLeft(c, b) < PollsLeft(c, a))
    || (b.queue == a.queue && PendingReset(w) == PendingReset(v) && Active(w) == Active(v)
        && b.emptyCount == a.emptyCount && WorkerRank(w) < WorkerRank(v))
  }

  lemma LocalGetsCloser(c: Config, live: bool, v: Worker, a: Work, w: Worker, b: Work)
    requires Local(c, live, true, v, a, w, b)
    ensures LocalCloser(c, a, b, v, w)
  {
    if v.ToClaim? && w.GotItem? {
      assert |b.queue| == |a.queue| - 1;
    }
  }

  lemma WorkerGetsCloser(c: Config, s: State, t: State, i: nat)
    requires s.collector.Closed? && i < |s.workers| && WorkerStep(c, s, t, i)
    ensures Closer(c, s, t)
  {
    var w := t.workers[i];
    LocalGetsCloser(c, WorkerContextLive(s), s.workers[i], s.work, w, t.work);
    SumUpdate(s.workers, i, w, PendingReset);
    SumUpdate(s.workers, i, w, Active);
    SumUpdate(s.workers, i, w, WorkerRank);
  }

  /** Once the collector has finished, every step of every goroutine brings the drain closer to its end. */
  lemma StepGetsCloser(c: Config, s: State, t: State)
    requires Inv(c, s) && s.collector.Closed? && Next(c, s, t)
    ensures Closer(c, s, t) && t.collector.Closed?
  {
    if MainStep(s, t) {
      MainGetsCloser(c, s, t);
    } else if i: nat :| i < |s.workers| && WorkerStep(c, s, t, i) {
      WorkerGetsCloser(c, s, t, i);
    } else {
      OthersGetCloser(c, s, t);
    }
  }

  lemma MainGetsCloser(c: Config, s: State, t: State)
    requires s.collector.Closed? && MainStep(s, t)
    ensures Closer(c, s, t) && t.collector.Closed?
  {
    MainFrame(s, t);
  }

  lemma OthersGetCloser(c: Config, s: State, t: State)
    requires s.collector.Closed? && (ProjectorStep(s, t) || ParentStep(s, t))
    ensures Closer(c, s, t) && t.collector.Closed?
  {
  }

  /** A schedule moves as long as anything but an outside cancellation can happen. */
  ghost predicate IsSchedule(c: Config, run: nat -> State) {
    forall i: nat :: Next(c, run(i), run(i + 1)) || (Stuck(c, run(i)) && run(i + 1) == run(i))
  }

  lemma {:induction false} DrainReturnsFrom(c: Config, run: nat -> State, i: nat) returns (n: nat)
    requires c.workers > 0 && c.maxEmptyPolls >= 2 && IsSchedule(c, run)
    requires Inv(c, run(i)) && run(i).collector.Closed?
    ensures run(n).main.Finished?
    decreases Resets(run(i)), ActiveWorkers(run(i)), PollsLeft(c, run(i).work), Rank(run(i))
  {
    if run(i).main.Finished? {
      n := i;
    } else {
      NeverStuck(c, run(i));
      assert Next(c, run(i), run(i + 1));
      NextPreserves(c, run(i), run(i + 1));
      StepGetsCloser(c, run(i), run(i + 1));
      n := DrainReturnsFrom(c, run, i + 1);
    }
  }

  /** From the moment the collector has finished, every schedule ends with runPipelined returning. */
  lemma DrainReturns(c: Config, run: nat -> State)
    requires c.workers > 0 && c.maxEmptyPolls >= 2
    requires IsSchedule(c, run) && Reachable(c, run(0)) && run(0).collector.Closed?
    ensures exists n: nat :: run(n).main.Finished?
  {
    ReachableInv(c, run(0));
    var n := DrainReturnsFrom(c, run, 0);
  }
}
