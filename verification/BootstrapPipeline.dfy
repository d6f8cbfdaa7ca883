/**
  The pipelined bootstrap drain: a collector goroutine commits work items while
  projector workers claim, project and ack them, and a main goroutine waits for
  both before it backfills, materializes and reopens.

  The program is a step system.  A step is one atomic action of one goroutine;
  which goroutine moves next, and whether a foreign call fails, is left open.
  Theorems quantify over every finite run, or over every maximal schedule.
 */
module BootstrapPipeline {

  /** Identity of one queue row; commits hand them out in order. */
  type WorkId = nat

  datatype Config = Config(workers: nat, maxEmptyPolls: nat)

  /** Program counter of one projector worker. */
  datatype Worker =
    | LoopHead                 // about to look at ctx.Err()
    | ToClaim                  // about to run the inner Claim
    | GotItem(id: WorkId)      // claimed, empty counter not yet reset
    | Projecting(id: WorkId)   // loading, projecting, stopping the heartbeat, acking
    | GotEmpty                 // claim was empty, collectorDone not yet looked at
    | SawDone                  // collectorDone was closed, this poll not yet counted
    | SawRunning               // collector still running, counter not yet reset
    | Waiting                  // between two polls
    | Failing                  // error recorded, cancel not yet called
    | Drained                  // returned on the drained sentinel
    | Stopped                  // returned because its context was cancelled
    | Failed                   // returned after an error

  datatype Collector = Collecting | Returning(ok: bool) | Sent | Closed

  datatype Projector = Running | Returned(ok: bool, ctxLive: bool)

  datatype Sender = FromCollector | FromProjector

  /** A value in the error channel; `sender` is history, the receiver sees `ok`. */
  datatype Outcome = Outcome(sender: Sender, ok: bool)

  datatype Main =
    | AwaitFirst
    | ToBackfill
    | AwaitProjector
    | ToMaterialize
    | ToReopen
    | ToCancel                 // a failure was seen, cancel() is next
    | AwaitAfterCancel
    | Finished(ok: bool)

  datatype Action = Backfill(ok: bool) | Materialize(ok: bool) | Reopen(ok: bool)

  /** What the projector workers share. */
  datatype Work = Work(
    queue: set<WorkId>,
    claims: seq<WorkId>,       // successful claims, oldest first
    acks: seq<WorkId>,         // successful acks, oldest first
    emptyCount: nat,
    errs: nat,
    cancelled: bool)           // cancel() of drainProjector

  datatype State = State(
    committed: nat,            // ids 0..committed have been enqueued
    work: Work,
    workers: seq<Worker>,
    collector: Collector,
    projector: Projector,
    errc: seq<Outcome>,
    received: seq<Outcome>,    // what main has taken from errc
    main: Main,
    actions: seq<Action>,
    cancelled: bool,           // cancel() of runPipelined
    parentCancelled: bool)

  const ErrcCapacity := 2

  /** A fresh process; the durable queue may still hold rows of an earlier one. */
  ghost predicate IsStart(c: Config, s: State) {
    && (forall id: WorkId :: id in s.work.queue <==> id < s.committed)
    && s == State(s.committed, Work(s.work.queue, [], [], 0, 0, false), seq(c.workers, _ => LoopHead),
                  Collecting, Running, [], [], AwaitFirst, [], false, false)
  }

  predicate ContextLive(s: State) {
    !s.cancelled && !s.parentCancelled
  }

  predicate WorkerContextLive(s: State) {
    ContextLive(s) && !s.work.cancelled
  }

  predicate Terminal(w: Worker) {
    w.Drained? || w.Stopped? || w.Failed?
  }

  predicate AllTerminal(ws: seq<Worker>) {
    forall i :: 0 <= i < |ws| ==> Terminal(ws[i])
  }

  function HeldIds(w: Worker): set<WorkId> {
    if w.GotItem? || w.Projecting? then {w.id} else {}
  }

  predicate Holds(w: Worker, id: WorkId) {
    id in HeldIds(w)
  }

  // ------------------------------------------------------------------ steps

  ghost predicate CollectorStep(s: State, t: State) {
    match s.collector
    case Collecting =>
      || t == s.(committed := s.committed + 1, work := s.work.(queue := s.work.queue + {s.committed}))
      || (exists ok: bool :: t == s.(collector := Returning(ok)))
    case Returning(ok) =>
      |s.errc| < ErrcCapacity && t == s.(collector := Sent, errc := s.errc + [Outcome(FromCollector, ok)])
    case Sent => t == s.(collector := Closed)
    case Closed => false
  }

  /** One action of a worker at `v`, given whether its context is live and collectorDone closed. */
  ghost predicate Local(c: Config, live: bool, closed: bool, v: Worker, a: Work, w: Worker, b: Work) {
    match v
    case LoopHead =>
      // the single-worker loop does not look at its context
      w == (if live || c.workers <= 1 then ToClaim else Stopped) && b == a
    case ToClaim =>
      || (w.GotItem? && w.id in a.queue && b == a.(queue := a.queue - {w.id}, claims := a.claims + [w.id]))
      || (w.GotEmpty? && a.queue == {} && b == a)
      || (w.Failing? && b == a.(errs := a.errs + 1))
    case GotItem(id) =>
      w == Projecting(id) && b == a.(emptyCount := 0)
    case Projecting(id) =>
      || (w.LoopHead? && b == a.(acks := a.acks + [id]))
      || (w.Failing? && b == a.(errs := a.errs + 1))
    case GotEmpty =>
      w == (if closed then SawDone else SawRunning) && b == a
    case SawRunning =>
      w == Waiting && b == a.(emptyCount := 0)
    case SawDone =>
      && b == a.(emptyCount := a.emptyCount + 1)
      && w == if b.emptyCount >= c.maxEmptyPolls then Drained else Waiting
    case Waiting =>
      || (w.ToClaim? && b == a)
      || (w.Failing? && !live && b == a.(errs := a.errs + 1))
    case Failing =>
      w == Failed && b == a.(cancelled := true)
    case Drained => false
    case Stopped => false
    case Failed => false
  }

  ghost predicate WorkerStep(c: Config, s: State, t: State, i: nat)
    requires i < |s.workers|
  {
    && |t.workers| == |s.workers|
    && t == s.(workers := s.workers[i := t.workers[i]], work := t.work)
    && Local(c, WorkerContextLive(s), s.collector.Closed?, s.workers[i], s.work, t.workers[i], t.work)
  }

  predicate ProjectorStep(s: State, t: State) {
    && s.projector.Running?
    && AllTerminal(s.workers)
    && |s.errc| < ErrcCapacity
    && t == s.(projector := Returned(s.work.errs == 0, ContextLive(s)),
               errc := s.errc + [Outcome(FromProjector, s.work.errs == 0)])
  }

  /** Taking the oldest value from errc. */
  function Receive(s: State): State
    requires s.errc != []
  {
    s.(received := s.received + [s.errc[0]], errc := s.errc[1..])
  }

  /** Returning from runPipelined runs the deferred cancel. */
  function Finish(s: State, ok: bool): State {
    s.(main := Finished(ok), cancelled := true)
  }

  function Act(s: State, a: Action): State {
    s.(actions := s.actions + [a])
  }

  ghost predicate MainStep(s: State, t: State) {
    match s.main
    case AwaitFirst =>
      s.errc != [] && t == Receive(s).(main := if s.errc[0].ok then ToBackfill else ToCancel)
    case ToBackfill =>
      || t == Act(s, Backfill(true)).(main := AwaitProjector)
      || t == Act(s, Backfill(false)).(main := ToCancel)
    case AwaitProjector =>
      s.errc != [] && t == if s.errc[0].ok then Receive(s).(main := ToMaterialize) else Finish(Receive(s), false)
    case ToMaterialize =>
      || t == Act(s, Materialize(true)).(main := ToReopen)
      || t == Finish(Act(s, Materialize(false)), false)
    case ToReopen =>
      exists ok: bool :: t == Finish(Act(s, Reopen(ok)), ok)
    case ToCancel =>
      t == s.(cancelled := true, main := AwaitAfterCancel)
    case AwaitAfterCancel =>
      s.errc != [] && t == Finish(Receive(s), false)
    case Finished(_) => false
  }

  predicate ParentStep(s: State, t: State) {
    !s.parentCancelled && t == s.(parentCancelled := true)
  }

  ghost predicate Next(c: Config, s: State, t: State) {
    || CollectorStep(s, t)
    || (exists i: nat :: i < |s.workers| && WorkerStep(c, s, t, i))
    || ProjectorStep(s, t)
    || MainStep(s, t)
    || ParentStep(s, t)
  }

  /** A finite run from a start state. */
  ghost predicate IsRun(c: Config, run: seq<State>) {
    && |run| > 0
    && IsStart(c, run[0])
    && forall i :: 0 <= i < |run| - 1 ==> Next(c, run[i], run[i + 1])
  }

  // -------------------------------------------------------------- invariant

  predicate NoDuplicates(ids: seq<WorkId>) {
    forall i, j :: 0 <= i < j < |ids| ==> ids[i] != ids[j]
  }

  /** Where every committed item is. */
  ghost predicate LedgerInv(s: State) {
    && NoDuplicates(s.work.claims)
    && NoDuplicates(s.work.acks)
    && (forall id :: id in s.work.queue ==> id < s.committed && id !in s.work.claims)
    && (forall id :: id in s.work.claims ==> id < s.committed)
    && (forall id: WorkId :: id < s.committed ==> id in s.work.queue || id in s.work.claims)
    && (forall id :: id in s.work.acks ==> id in s.work.claims)
  }

  /** What a worker holds is claimed and not yet acked. */
  ghost predicate Held(s: State) {
    forall i, id: WorkId :: 0 <= i < |s.workers| && Holds(s.workers[i], id) ==> id in s.work.claims && id !in s.work.acks
  }

  ghost predicate HeldOnce(s: State) {
    forall i, j, id: WorkId :: 0 <= i < j < |s.workers| && Holds(s.workers[i], id) ==> !Holds(s.workers[j], id)
  }

  ghost predicate SomeHolder(s: State, id: WorkId) {
    exists i :: 0 <= i < |s.workers| && Holds(s.workers[i], id)
  }

  /** Unless some worker failed, a claimed item is acked or still in a worker's hands. */
  ghost predicate Covered(s: State) {
    s.work.errs == 0 ==> forall id :: id in s.work.claims ==> id in s.work.acks || SomeHolder(s, id)
  }

  ghost predicate CustodyInv(s: State) {
    Held(s) && HeldOnce(s) && Covered(s)
  }

  predicate WorkerSignal(w: Worker, failed: bool, live: bool, closed: bool) {
    && (w.Failing? || w.Failed? ==> failed)
    && (w.Stopped? ==> !live)
    && (w.SawDone? || w.Drained? ==> closed)
  }

  /** Why a worker may have stopped. */
  ghost predicate SignalInv(c: Config, s: State) {
    && |s.workers| == c.workers
    && (s.work.cancelled ==> s.work.errs > 0)
    && (forall i :: 0 <= i < |s.workers| ==>
          WorkerSignal(s.workers[i], s.work.errs > 0, WorkerContextLive(s), s.collector.Closed?))
    && (!s.collector.Closed? ==> s.work.emptyCount == 0)
  }

  /** A worker in this state runs another inner Claim before it can exit on the sentinel. */
  predicate BoundToClaim(w: Worker) {
    w.LoopHead? || w.ToClaim? || w.GotItem? || w.Projecting? || w.SawRunning? || w.Waiting?
  }

  /** An empty claim that has not been counted yet. */
  predicate Uncounted(w: Worker) {
    w.GotEmpty? || w.SawDone?
  }

  ghost predicate SomeBound(s: State) {
    exists i :: 0 <= i < |s.workers| && BoundToClaim(s.workers[i])
  }

  ghost predicate SomeUncounted(s: State) {
    exists i :: 0 <= i < |s.workers| && Uncounted(s.workers[i])
  }

  /**
    The heart of the drain: while work is queued and nobody failed or was
    stopped, either some worker is bound to make a fresh claim, or no poll has
    been counted yet and the first worker to count one will be bound.
   */
  ghost predicate BoundInv(s: State) {
    s.work.queue != {} && s.work.errs == 0 && WorkerContextLive(s) ==>
      SomeBound(s) || (s.work.emptyCount == 0 && SomeUncounted(s))
  }

  ghost predicate AllAcked(s: State) {
    && s.work.queue == {}
    && NoDuplicates(s.work.acks)
    && forall id: WorkId :: id < s.committed <==> id in s.work.acks
  }

  function SentOutcomes(s: State): seq<Outcome> {
    s.received + s.errc
  }

  ghost predicate ChannelInv(s: State) {
    var sent := SentOutcomes(s);
    && |sent| == (if s.collector.Sent? || s.collector.Closed? then 1 else 0) + (if s.projector.Returned? then 1 else 0)
    && (forall i, j :: 0 <= i < j < |sent| ==> sent[i].sender != sent[j].sender)
    && (forall i :: 0 <= i < |sent| && sent[i].sender.FromCollector? ==> s.collector.Sent? || s.collector.Closed?)
    && (forall i :: 0 <= i < |sent| && sent[i].sender.FromProjector? ==>
          s.projector.Returned? && s.projector.ok == sent[i].ok)
    && (sent != [] && sent[0] == Outcome(FromProjector, true) ==> s.parentCancelled)
    && (s.projector.Returned? ==> AllTerminal(s.workers))
    && (s.projector.Returned? && s.projector.ok ==> s.work.errs == 0)
    && (s.projector.Returned? && s.projector.ok && s.projector.ctxLive ==> s.collector.Closed? && AllAcked(s))
    && (s.projector.Returned? && !s.projector.ctxLive ==> s.cancelled || s.parentCancelled)
  }

  /** The projector returned nil while its context was live, unless the parent was cancelled. */
  ghost predicate DrainedBeforeReturn(s: State) {
    s.parentCancelled || (s.projector.Returned? && s.projector.ok && s.projector.ctxLive)
  }

  ghost predicate MainInv(s: State) {
    match s.main
    case AwaitFirst =>
      s.received == [] && s.actions == [] && !s.cancelled
    case ToBackfill =>
      |s.received| == 1 && s.received[0].ok && s.actions == [] && !s.cancelled
    case AwaitProjector =>
      |s.received| == 1 && s.received[0].ok && s.actions == [Backfill(true)] && !s.cancelled
    case ToMaterialize =>
      && |s.received| == 2 && s.received[0].ok && s.received[1].ok && DrainedBeforeReturn(s)
      && s.actions == [Backfill(true)] && !s.cancelled
    case ToReopen =>
      && |s.received| == 2 && s.received[0].ok && s.received[1].ok && DrainedBeforeReturn(s)
      && s.actions == [Backfill(true), Materialize(true)] && !s.cancelled
    case ToCancel =>
      && |s.received| == 1 && !s.cancelled
      && if s.received[0].ok then s.actions == [Backfill(false)] else s.actions == []
    case AwaitAfterCancel =>
      && |s.received| == 1 && s.cancelled
      && if s.received[0].ok then s.actions == [Backfill(false)] else s.actions == []
    case Finished(ok) =>
      && |s.received| == 2 && s.cancelled
      && FinishedActions(s, ok)
  }

  ghost predicate FinishedActions(s: State, ok: bool)
    requires |s.received| == 2
  {
    if !s.received[0].ok then s.actions == [] && !ok
    else if s.actions == [Backfill(false)] then !ok
    else if !s.received[1].ok then s.actions == [Backfill(true)] && !ok
    else
      && DrainedBeforeReturn(s)
      && (|| (s.actions == [Backfill(true), Materialize(false)] && !ok)
          || s.actions == [Backfill(true), Materialize(true), Reopen(ok)])
  }

  ghost predicate Inv(c: Config, s: State) {
    && LedgerInv(s) && CustodyInv(s) && SignalInv(c, s) && BoundInv(s)
    && ChannelInv(s) && MainInv(s)
  }

  // ----------------------------------------------------------- preservation

  lemma StartInv(c: Config, s: State)
    requires c.workers > 0 && IsStart(c, s)
    ensures Inv(c, s)
  {
    assert s.workers[0].LoopHead?;
  }

  lemma CollectorKeepsBound(c: Config, s: State, t: State)
    requires c.workers > 0 && SignalInv(c, s) && CollectorStep(s, t)
    ensures BoundInv(t)
  {
    if t.work.queue != {} && t.work.errs == 0 && WorkerContextLive(t) {
      var w := s.workers[0];
      assert WorkerSignal(w, s.work.errs > 0, WorkerContextLive(s), s.collector.Closed?);
      assert BoundToClaim(w) || Uncounted(w);
      assert t.workers[0] == w;
    }
  }

  lemma CollectorKeepsMain(s: State, t: State)
    requires ChannelInv(s) && MainInv(s) && CollectorStep(s, t)
    ensures MainInv(t)
  {
  }

  lemma CollectorReports(s: State, t: State)
    requires ChannelInv(s) && CollectorStep(s, t) && s.collector.Returning?
    ensures ChannelInv(t)
  {
    assert SentOutcomes(t) == SentOutcomes(s) + [Outcome(FromCollector, s.collector.ok)];
  }

  lemma CollectorKeepsChannel(s: State, t: State)
    requires ChannelInv(s) && CollectorStep(s, t)
    ensures ChannelInv(t)
  {
    if s.collector.Returning? {
      CollectorReports(s, t);
    } else {
      assert SentOutcomes(t) == SentOutcomes(s);
    }
  }

  lemma CollectorKeepsCustody(s: State, t: State)
    requires LedgerInv(s) && CustodyInv(s) && CollectorStep(s, t)
    ensures LedgerInv(t) && CustodyInv(t)
  {
    assert t.workers == s.workers && t.work.claims == s.work.claims && t.work.acks == s.work.acks;
    assert forall id :: SomeHolder(s, id) ==> SomeHolder(t, id);
  }

  lemma CollectorKeepsSignals(c: Config, s: State, t: State)
    requires SignalInv(c, s) && CollectorStep(s, t)
    ensures SignalInv(c, t)
  {
    forall i | 0 <= i < |t.workers|
      ensures WorkerSignal(t.workers[i], t.work.errs > 0, WorkerContextLive(t), t.collector.Closed?)
    {
      assert WorkerSignal(s.workers[i], s.work.errs > 0, WorkerContextLive(s), s.collector.Closed?);
    }
  }

  lemma CollectorPreserves(c: Config, s: State, t: State)
    requires c.workers > 0 && Inv(c, s) && CollectorStep(s, t)
    ensures Inv(c, t)
  {
    assert LedgerInv(t) && CustodyInv(t) by {
      CollectorKeepsCustody(s, t);
    }
    assert SignalInv(c, t) by {
      CollectorKeepsSignals(c, s, t);
    }
    assert BoundInv(t) by {
      CollectorKeepsBound(c, s, t);
    }
    assert ChannelInv(t) && MainInv(t) by {
      CollectorKeepsChannel(s, t);
      CollectorKeepsMain(s, t);
    }
  }

  lemma AppendFresh(ids: seq<WorkId>, id: WorkId)
    requires NoDuplicates(ids) && id !in ids
    ensures NoDuplicates(ids + [id])
  {
  }

  /** The three ways a worker's action can touch the ledgers, and what it then holds. */
  ghost predicate LedgerEffect(a: Work, b: Work, v: Worker, w: Worker) {
    || (b.queue == a.queue && b.claims == a.claims && b.acks == a.acks
        && (HeldIds(w) == {} || HeldIds(w) == HeldIds(v)))
    || (exists id: WorkId :: Claimed(a, b, id) && HeldIds(w) == {id})
    || (exists id: WorkId :: Acked(a, b, id) && HeldIds(v) == {id} && HeldIds(w) == {})
  }

  predicate Claimed(a: Work, b: Work, id: WorkId) {
    id in a.queue && b.queue == a.queue - {id} && b.claims == a.claims + [id] && b.acks == a.acks
  }

  predicate Acked(a: Work, b: Work, id: WorkId) {
    b.queue == a.queue && b.claims == a.claims && b.acks == a.acks + [id]
  }

  lemma LocalLedger(c: Config, live: bool, closed: bool, v: Worker, a: Work, w: Worker, b: Work)
    requires Local(c, live, closed, v, a, w, b)
    ensures LedgerEffect(a, b, v, w)
  {
    if v.ToClaim? && w.GotItem? {
      assert Claimed(a, b, w.id);
    } else if v.Projecting? && w.LoopHead? {
      assert Acked(a, b, v.id);
    }
  }

  lemma WorkerKeepsLedger(c: Config, s: State, t: State, i: nat)
    requires LedgerInv(s) && Held(s) && i < |s.workers| && WorkerStep(c, s, t, i)
    ensures LedgerInv(t)
  {
    LocalLedger(c, WorkerContextLive(s), s.collector.Closed?, s.workers[i], s.work, t.workers[i], t.work);
    if id: WorkId :| Claimed(s.work, t.work, id) && HeldIds(t.workers[i]) == {id} {
      AppendFresh(s.work.claims, id);
    } else if id: WorkId :| Acked(s.work, t.work, id) && HeldIds(s.workers[i]) == {id} {
      assert Holds(s.workers[i], id);
      AppendFresh(s.work.acks, id);
    }
  }

  lemma WorkerKeepsHeld(c: Config, s: State, t: State, i: nat)
    requires LedgerInv(s) && Held(s) && HeldOnce(s) && i < |s.workers| && WorkerStep(c, s, t, i)
    ensures Held(t) && HeldOnce(t)
  {
    LocalLedger(c, WorkerContextLive(s), s.collector.Closed?, s.workers[i], s.work, t.workers[i], t.work);
    forall j, id: WorkId | 0 <= j < |t.workers| && Holds(t.workers[j], id)
      ensures id in t.work.claims && id !in t.work.acks
    {
      assert Holds(s.workers[j], id) || (j == i && Claimed(s.work, t.work, id));
    }
    forall j, k, id: WorkId | 0 <= j < k < |t.workers| && Holds(t.workers[j], id) ensures !Holds(t.workers[k], id) {
      assert Holds(s.workers[j], id) || (j == i && Claimed(s.work, t.work, id));
    }
  }

  lemma WorkerKeepsCovered(c: Config, s: State, t: State, i: nat)
    requires Covered(s) && i < |s.workers| && WorkerStep(c, s, t, i)
    ensures Covered(t)
  {
    forall id | t.work.errs == 0 && id in t.work.claims && id !in t.work.acks ensures SomeHolder(t, id) {
      if id in s.work.claims {
        var j :| 0 <= j < |s.workers| && Holds(s.workers[j], id);
        assert Holds(t.workers[j], id);
      } else {
        assert Holds(t.workers[i], id);
      }
    }
  }

  lemma WorkerKeepsSignals(c: Config, s: State, t: State, i: nat)
    requires SignalInv(c, s) && i < |s.workers| && WorkerStep(c, s, t, i)
    ensures SignalInv(c, t)
  {
    assert WorkerSignal(s.workers[i], s.work.errs > 0, WorkerContextLive(s), s.collector.Closed?);
    assert WorkerSignal(t.workers[i], t.work.errs > 0, WorkerContextLive(t), t.collector.Closed?);
    forall j | 0 <= j < |t.workers|
      ensures WorkerSignal(t.workers[j], t.work.errs > 0, WorkerContextLive(t), t.collector.Closed?)
    {
      if j != i {
        assert t.workers[j] == s.workers[j];
      }
    }
  }

  lemma WorkerKeepsBound(c: Config, s: State, t: State, i: nat)
    requires c.maxEmptyPolls >= 2
    requires SignalInv(c, s) && BoundInv(s) && i < |s.workers| && WorkerStep(c, s, t, i)
    ensures BoundInv(t)
  {
    if t.work.queue != {} && t.work.errs == 0 && WorkerContextLive(t) {
      if BoundToClaim(t.workers[i]) {
      } else if SomeBound(s) {
        var j :| 0 <= j < |s.workers| && BoundToClaim(s.workers[j]);
        assert j != i ==> BoundToClaim(t.workers[j]);
      } else {
        assert Uncounted(t.workers[i]);
      }
    }
  }

  lemma WorkerKeepsChannel(c: Config, s: State, t: State, i: nat)
    requires ChannelInv(s) && MainInv(s) && i < |s.workers| && WorkerStep(c, s, t, i)
    ensures ChannelInv(t) && MainInv(t)
  {
    assert s.projector.Running?;
  }

  lemma WorkerPreserves(c: Config, s: State, t: State, i: nat)
    requires c.maxEmptyPolls >= 2
    requires Inv(c, s) && i < |s.workers| && WorkerStep(c, s, t, i)
    ensures Inv(c, t)
  {
    WorkerKeepsLedger(c, s, t, i);
    WorkerKeepsHeld(c, s, t, i);
    WorkerKeepsCovered(c, s, t, i);
    WorkerKeepsSignals(c, s, t, i);
    WorkerKeepsBound(c, s, t, i);
    WorkerKeepsChannel(c, s, t, i);
  }

  /** With no error and a live context, workers that have all returned leave nothing queued or unacked. */
  lemma QuietMeansAcked(c: Config, s: State)
    requires c.workers > 0 && LedgerInv(s) && CustodyInv(s) && SignalInv(c, s) && BoundInv(s)
    requires AllTerminal(s.workers) && s.work.errs == 0 && ContextLive(s)
    ensures s.collector.Closed? && AllAcked(s)
  {
    assert Terminal(s.workers[0]);
    forall i, id: WorkId | 0 <= i < |s.workers| ensures !Holds(s.workers[i], id) {
      assert Terminal(s.workers[i]);
    }
  }

  lemma ProjectorPreserves(c: Config, s: State, t: State)
    requires c.workers > 0 && Inv(c, s) && ProjectorStep(s, t)
    ensures Inv(c, t)
  {
    if s.work.errs == 0 && ContextLive(s) {
      QuietMeansAcked(c, s);
    }
    assert SentOutcomes(t) == SentOutcomes(s) + [Outcome(FromProjector, s.work.errs == 0)];
    assert Terminal(s.workers[0]);
  }

  /** Main's steps leave the workers, the ledgers and the collector alone. */
  lemma MainFrame(s: State, t: State)
    requires MainStep(s, t)
    ensures t == s.(errc := t.errc, received := t.received, main := t.main, actions := t.actions, cancelled := t.cancelled)
    ensures SentOutcomes(t) == SentOutcomes(s)
    ensures s.cancelled ==> t.cancelled
  {
    if s.errc != [] {
      assert SentOutcomes(s) == s.received + [s.errc[0]] + s.errc[1..];
    }
  }

  lemma MainKeepsMain(s: State, t: State)
    requires ChannelInv(s) && MainInv(s) && MainStep(s, t)
    ensures MainInv(t)
  {
    MainFrame(s, t);
    if s.main.AwaitProjector? && s.errc != [] {
      var sent := SentOutcomes(s);
      assert sent[0] == s.received[0] && sent[1] == s.errc[0];
      assert sent[0].sender.FromProjector? || sent[1].sender.FromProjector?;
    }
  }

  lemma MainPreserves(c: Config, s: State, t: State)
    requires Inv(c, s) && MainStep(s, t)
    ensures Inv(c, t)
  {
    MainFrame(s, t);
    assert CustodyInv(t) by {
      assert forall id :: SomeHolder(s, id) ==> SomeHolder(t, id);
    }
    SignalsSurviveCancel(c, s, t);
    MainKeepsMain(s, t);
    assert ChannelInv(t);
  }

  /** Cancelling a context only weakens what the signal and bound invariants promise. */
  lemma SignalsSurviveCancel(c: Config, s: State, t: State)
    requires SignalInv(c, s) && BoundInv(s)
    requires t.workers == s.workers && t.work == s.work
    requires t.collector == s.collector
    requires WorkerContextLive(t) ==> WorkerContextLive(s)
    ensures SignalInv(c, t) && BoundInv(t)
  {
    forall i | 0 <= i < |t.workers|
      ensures WorkerSignal(t.workers[i], t.work.errs > 0, WorkerContextLive(t), t.collector.Closed?)
    {
      assert WorkerSignal(s.workers[i], s.work.errs > 0, WorkerContextLive(s), s.collector.Closed?);
    }
    if SomeBound(s) {
      var i :| 0 <= i < |s.workers| && BoundToClaim(s.workers[i]);
      assert BoundToClaim(t.workers[i]);
    } else if SomeUncounted(s) {
      var i :| 0 <= i < |s.workers| && Uncounted(s.workers[i]);
      assert Uncounted(t.workers[i]);
    }
  }

  lemma ParentPreserves(c: Config, s: State, t: State)
    requires Inv(c, s) && ParentStep(s, t)
    ensures Inv(c, t)
  {
    assert CustodyInv(t) by {
      assert forall id :: SomeHolder(s, id) ==> SomeHolder(t, id);
    }
    SignalsSurviveCancel(c, s, t);
    assert SentOutcomes(t) == SentOutcomes(s);
  }
}
