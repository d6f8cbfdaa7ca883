/**
  One cycle of the two-lane snapshot scheduler: discovery routes repositories to a
  small and a large lane, workers snapshot them, a semaphore bounds the large ones,
  and a bounded stream carries the results to the consumer.

  Channels are sequences with a closed flag; a select with several ready cases may
  take any of them.
 */
module SnapshotScheduler {

  import opened Basics
  import opened Counting

  /** Index into the resolved repositories. */
  type Repo = nat

  datatype Config = Config(large: seq<bool>, workers: nat, maxLarge: nat, buffer: nat) {
    function Repos(): nat { |large| }

    predicate Valid() { workers > 0 && maxLarge > 0 && buffer > 0 }
  }

  /** Which loop processRepo was called from. */
  datatype Loop = MainLoop | LargeLoop | SmallLoop

  datatype Worker =
    | LoopHead                                   // ctx check at the top of the main loop
    | TrySmall                                   // the select with a default case
    | SelectLane                                 // small lane, semaphore or ctx
    | HoldingToken                               // token acquired, waiting on either lane
    | TokenThenSnapshot(repo: Repo)              // a small repo arrived first, token to give back
    | TokenThenSmallLoop
    | TokenThenLargeLoop
    | TokenThenReturn
    | LargeHead                                  // range over the large lane
    | LargeTaken(repo: Repo)                     // ctx check inside that range
    | AwaitToken(repo: Repo)                     // waiting for the semaphore alone
    | SmallHead                                  // range over the small lane
    | SmallTaken(repo: Repo)                     // ctx check inside that range
    | Snapshotting(repo: Repo, token: bool, loop: Loop)
    | Snapshotted(repo: Repo, token: bool, ok: bool, loop: Loop)
    | Reporting(repo: Repo, loop: Loop)          // errOnce.Do is next
    | Sending(repo: Repo, loop: Loop)            // blocked on the stream or ctx
    | Returned

  /** What the workers share. */
  datatype Shared = Shared(
    small: seq<Repo>,
    smallClosed: bool,
    large: seq<Repo>,
    largeClosed: bool,
    tokens: nat,                // values in largeSem
    stream: seq<Repo>,
    sent: seq<Repo>,            // everything ever sent on the stream
    snapshots: seq<Repo>,       // finished calls of the snapshotter
    broken: seq<Repo>,          // those of them that returned an error
    failed: seq<Repo>,          // errors that were reported
    skipped: seq<Repo>,         // taken from a lane after cancellation, never snapshotted
    unsent: seq<Repo>,          // snapshotted, but cancelled before the send
    firstErr: Option<Repo>,
    cancelled: bool)            // cancel() of the worker context

  datatype Discovery = Discovering | ClosingLarge | ClosingSmall | Finished

  datatype Coordinator = Waiting | Cancelling | Recording | Closing | Closed

  datatype State = State(
    next: Repo,                 // first repository not yet routed
    discovery: Discovery,
    shared: Shared,
    workers: seq<Worker>,
    coordinator: Coordinator,
    streamErr: Option<Repo>,
    received: seq<Repo>,        // generations Next has returned
    parentCancelled: bool)

  function Start(c: Config): State {
    State(0, Discovering, Shared([], false, [], false, 0, [], [], [], [], [], [], [], None, false),
          seq(c.workers, _ => LoopHead), Waiting, None, [], false)
  }

  predicate Live(s: State) {
    !s.shared.cancelled && !s.parentCancelled
  }

  predicate StreamClosed(s: State) {
    s.coordinator.Closed?
  }

  function Resume(loop: Loop): Worker {
    match loop
    case MainLoop => LoopHead
    case LargeLoop => LargeHead
    case SmallLoop => SmallHead
  }

  // ------------------------------------------------------------------ steps

  predicate DiscoveryStep(c: Config, s: State, t: State) {
    match s.discovery
    case Discovering =>
      if s.next < c.Repos() then
        || (c.large[s.next] && |s.shared.large| < c.Repos()
            && t == s.(next := s.next + 1, shared := s.shared.(large := s.shared.large + [s.next])))
        || (!c.large[s.next] && |s.shared.small| < c.Repos()
            && t == s.(next := s.next + 1, shared := s.shared.(small := s.shared.small + [s.next])))
        || (!Live(s) && t == s.(discovery := ClosingLarge))
      else
        t == s.(discovery := ClosingLarge)
    case ClosingLarge => t == s.(discovery := ClosingSmall, shared := s.shared.(largeClosed := true))
    case ClosingSmall => t == s.(discovery := Finished, shared := s.shared.(smallClosed := true))
    case Finished => false
  }

  predicate TakesSmall(a: Shared, b: Shared) {
    a.small != [] && b == a.(small := a.small[1..])
  }

  predicate TakesLarge(a: Shared, b: Shared) {
    a.large != [] && b == a.(large := a.large[1..])
  }

  predicate SmallDone(a: Shared) {
    a.small == [] && a.smallClosed
  }

  predicate LargeDone(a: Shared) {
    a.large == [] && a.largeClosed
  }

  predicate TakesToken(c: Config, a: Shared, b: Shared) {
    a.tokens < c.maxLarge && b == a.(tokens := a.tokens + 1)
  }

  predicate GivesToken(a: Shared, b: Shared) {
    a.tokens > 0 && b == a.(tokens := a.tokens - 1)
  }

  /** The repository in a worker's hands, before its snapshot has finished. */
  function Pending(w: Worker): Option<Repo> {
    if w.TokenThenSnapshot? || w.LargeTaken? || w.AwaitToken? || w.SmallTaken? || w.Snapshotting?
    then Some(w.repo) else None
  }

  /** The repository in a worker's hands after its snapshot has finished. */
  function Done(w: Worker): Option<Repo> {
    if w.Snapshotted? || w.Reporting? || w.Sending? then Some(w.repo) else None
  }

  /** A worker without a repository looks for one, or leaves. */
  predicate LaneAction(c: Config, live: bool, v: Worker, a: Shared, w: Worker, b: Shared) {
    if v.LoopHead? || v.TrySmall? || v.SelectLane? || v.HoldingToken? then MainAction(c, live, v, a, w, b)
    else DrainAction(v, a, w, b)
  }

  /** The main loop, with its two lanes. */
  predicate MainAction(c: Config, live: bool, v: Worker, a: Shared, w: Worker, b: Shared) {
    match v
    case LoopHead =>
      w == (if live then TrySmall else Returned) && b == a
    case TrySmall =>
      if a.small != [] then TakesSmall(a, b) && w == Snapshotting(a.small[0], false, MainLoop)
      else w == (if a.smallClosed then LargeHead else SelectLane) && b == a
    case SelectLane =>
      || (TakesSmall(a, b) && w == Snapshotting(a.small[0], false, MainLoop))
      || (SmallDone(a) && w == LargeHead && b == a)
      || (TakesToken(c, a, b) && w == HoldingToken)
      || (!live && w == Returned && b == a)
    case HoldingToken =>
      || (TakesLarge(a, b) && w == Snapshotting(a.large[0], true, MainLoop))
      || (LargeDone(a) && w == TokenThenSmallLoop && b == a)
      || (TakesSmall(a, b) && w == TokenThenSnapshot(a.small[0]))
      || (SmallDone(a) && w == TokenThenLargeLoop && b == a)
      || (!live && w == TokenThenReturn && b == a)
    case _ => false
  }

  /** On the way into a drain loop of one lane, and in it. */
  predicate DrainAction(v: Worker, a: Shared, w: Worker, b: Shared) {
    match v
    case TokenThenSmallLoop => GivesToken(a, b) && w == SmallHead
    case TokenThenLargeLoop => GivesToken(a, b) && w == LargeHead
    case TokenThenReturn => GivesToken(a, b) && w == Returned
    case LargeHead =>
      || (TakesLarge(a, b) && w == LargeTaken(a.large[0]))
      || (LargeDone(a) && w == Returned && b == a)
    case SmallHead =>
      || (TakesSmall(a, b) && w == SmallTaken(a.small[0]))
      || (SmallDone(a) && w == Returned && b == a)
    case _ => false
  }

  /** A worker takes its repository to the end of the snapshot. */
  predicate SnapshotAction(c: Config, live: bool, v: Worker, a: Shared, w: Worker, b: Shared) {
    match v
    case TokenThenSnapshot(repo) => GivesToken(a, b) && w == Snapshotting(repo, false, MainLoop)
    case LargeTaken(repo) =>
      if live then w == AwaitToken(repo) && b == a
      else w == Returned && b == a.(skipped := a.skipped + [repo])
    case AwaitToken(repo) =>
      || (TakesToken(c, a, b) && w == Snapshotting(repo, true, LargeLoop))
      || (!live && w == Returned && b == a.(skipped := a.skipped + [repo]))
    case SmallTaken(repo) =>
      if live then w == Snapshotting(repo, false, SmallLoop) && b == a
      else w == Returned && b == a.(skipped := a.skipped + [repo])
    case Snapshotting(repo, token, loop) =>
      && w.Snapshotted? && w.repo == repo && w.token == token && w.loop == loop
      && b == a.(snapshots := a.snapshots + [repo], broken := if w.ok then a.broken else a.broken + [repo])
    case _ => false
  }

  /** A worker reports or sends what its snapshot gave. */
  predicate ResultAction(c: Config, live: bool, v: Worker, a: Shared, w: Worker, b: Shared) {
    match v
    case Snapshotted(repo, token, ok, loop) =>
      && w == (if ok then Sending(repo, loop) else Reporting(repo, loop))
      && if token then GivesToken(a, b) else b == a
    case Reporting(repo, loop) =>
      && w == Resume(loop)
      && b == a.(failed := a.failed + [repo], cancelled := true,
                 firstErr := if a.firstErr.None? then Some(repo) else a.firstErr)
    case Sending(repo, loop) =>
      && w == Resume(loop)
      && (|| (|a.stream| < c.buffer && b == a.(stream := a.stream + [repo], sent := a.sent + [repo]))
          || (!live && b == a.(unsent := a.unsent + [repo])))
    case _ => false
  }

  /** One action of a worker at `v`, given whether the worker context is live. */
  predicate Local(c: Config, live: bool, v: Worker, a: Shared, w: Worker, b: Shared) {
    if Pending(v).Some? then SnapshotAction(c, live, v, a, w, b)
    else if Done(v).Some? then ResultAction(c, live, v, a, w, b)
    else LaneAction(c, live, v, a, w, b)
  }

  predicate WorkerStep(c: Config, s: State, t: State, i: nat)
    requires i < |s.workers|
  {
    && |t.workers| == |s.workers|
    && t == s.(workers := s.workers[i := t.workers[i]], shared := t.shared)
    && Local(c, Live(s), s.workers[i], s.shared, t.workers[i], t.shared)
  }

  predicate AllReturned(ws: seq<Worker>) {
    forall i :: 0 <= i < |ws| ==> ws[i].Returned?
  }

  predicate CoordinatorStep(s: State, t: State) {
    match s.coordinator
    case Waiting => AllReturned(s.workers) && t == s.(coordinator := Cancelling)
    case Cancelling => t == s.(coordinator := Recording, shared := s.shared.(cancelled := true))
    case Recording => t == s.(coordinator := Closing, streamErr := s.shared.firstErr)
    case Closing => t == s.(coordinator := Closed)
    case Closed => false
  }

  /** Next takes one generation from the stream. */
  predicate ReceiveStep(s: State, t: State) {
    && s.shared.stream != []
    && t == s.(received := s.received + [s.shared.stream[0]], shared := s.shared.(stream := s.shared.stream[1..]))
  }

  predicate ParentStep(s: State, t: State) {
    !s.parentCancelled && t == s.(parentCancelled := true)
  }

  ghost predicate Next(c: Config, s: State, t: State) {
    || DiscoveryStep(c, s, t)
    || (exists i: nat :: i < |s.workers| && WorkerStep(c, s, t, i))
    || CoordinatorStep(s, t)
    || ReceiveStep(s, t)
    || ParentStep(s, t)
  }

  // ----------------------------------------------------------- conservation

  function IsRepo(o: Option<Repo>, r: Repo): nat {
    if o == Some(r) then 1 else 0
  }

  function PendingWeight(r: Repo): Worker -> nat {
    (w: Worker) => IsRepo(Pending(w), r)
  }

  function DoneWeight(r: Repo): Worker -> nat {
    (w: Worker) => IsRepo(Done(w), r)
  }

  /** How often a repository occurs in a sequence. */
  function Times(rs: seq<Repo>, r: Repo): nat {
    if rs == [] then 0 else IsRepo(Some(rs[0]), r) + Times(rs[1..], r)
  }

  /** Copies of a repository that no snapshot has finished for. */
  function Before(c: Config, s: State, r: Repo): nat {
    (if s.next <= r < c.Repos() then 1 else 0)
    + Times(s.shared.small, r) + Times(s.shared.large, r)
    + SumBy(s.workers, PendingWeight(r)) + Times(s.shared.skipped, r)
  }

  /** Copies of a repository whose snapshot has finished. */
  function After(s: State, r: Repo): nat {
    SumBy(s.workers, DoneWeight(r)) + Times(s.shared.stream, r) + Times(s.received, r)
    + Times(s.shared.failed, r) + Times(s.shared.unsent, r)
  }

  /** Every repository is in exactly one place, and was snapshotted exactly if it is past that point. */
  ghost predicate Conserved(c: Config, s: State) {
    forall r: Repo ::
      && Before(c, s, r) + After(s, r) == (if r < c.Repos() then 1 else 0)
      && Times(s.shared.snapshots, r) == After(s, r)
  }

  function TokenWeight(w: Worker): nat {
    if || w.HoldingToken? || w.TokenThenSnapshot? || w.TokenThenSmallLoop? || w.TokenThenLargeLoop? || w.TokenThenReturn?
       || (w.Snapshotting? && w.token) || (w.Snapshotted? && w.token)
    then 1 else 0
  }

  // -------------------------------------------------------------- invariant

  /** Something other than the end of the work stopped the run. */
  predicate Cause(s: State) {
    s.parentCancelled || s.shared.failed != []
  }

  ghost predicate DiscoveryInv(c: Config, s: State) {
    && s.next <= c.Repos()
    && |s.shared.small| + |s.shared.large| <= s.next
    && (s.shared.largeClosed <==> s.discovery.ClosingSmall? || s.discovery.Finished?)
    && (s.shared.smallClosed <==> s.discovery.Finished?)
    && (!s.discovery.Discovering? ==> s.next == c.Repos() || Cause(s))
  }

  predicate InLane(c: Config, r: Repo, large: bool) {
    r < c.Repos() && c.large[r] == large
  }

  ghost predicate LanesInv(c: Config, a: Shared) {
    && (forall i :: 0 <= i < |a.small| ==> InLane(c, a.small[i], false))
    && (forall i :: 0 <= i < |a.large| ==> InLane(c, a.large[i], true))
  }

  /** A token is held with large repositories only, and a drain loop handles its own lane. */
  predicate SizeInv(c: Config, w: Worker) {
    && (w.TokenThenSnapshot? || w.SmallTaken? ==> InLane(c, w.repo, false))
    && (w.LargeTaken? || w.AwaitToken? ==> InLane(c, w.repo, true))
    && (w.Snapshotting? || w.Snapshotted? ==> InLane(c, w.repo, w.token))
  }

  /** The loop a worker is in, or is about to enter. */
  function LoopOf(w: Worker): Loop {
    if w.TokenThenLargeLoop? || w.LargeHead? || w.LargeTaken? || w.AwaitToken? then LargeLoop
    else if w.TokenThenSmallLoop? || w.SmallHead? || w.SmallTaken? then SmallLoop
    else if w.Snapshotting? || w.Snapshotted? || w.Reporting? || w.Sending? then w.loop
    else MainLoop
  }

  /** A worker is in a drain loop only when the other lane is done, and returns only with a reason. */
  predicate LoopInv(w: Worker, smallDone: bool, largeDone: bool, cause: bool) {
    && (LoopOf(w) == LargeLoop ==> smallDone)
    && (LoopOf(w) == SmallLoop ==> largeDone)
    && (w.TokenThenReturn? ==> cause)
    && (w.Returned? ==> cause || (smallDone && largeDone))
  }

  predicate WorkerInv(c: Config, w: Worker, smallDone: bool, largeDone: bool, cause: bool) {
    SizeInv(c, w) && LoopInv(w, smallDone, largeDone, cause)
  }

  ghost predicate WorkersInv(c: Config, s: State) {
    && |s.workers| == c.workers
    && forall i :: 0 <= i < |s.workers| ==>
         WorkerInv(c, s.workers[i], SmallDone(s.shared), LargeDone(s.shared), Cause(s))
  }

  ghost predicate TokensInv(c: Config, s: State) {
    && s.shared.tokens == SumBy(s.workers, TokenWeight)
    && s.shared.tokens <= c.maxLarge
  }

  ghost predicate OutcomeInv(c: Config, s: State) {
    && |s.shared.stream| <= c.buffer
    && s.shared.sent == s.received + s.shared.stream
    && s.shared.firstErr == (if s.shared.failed == [] then None else Some(s.shared.failed[0]))
    && (s.shared.failed != [] ==> s.shared.cancelled)
    && (s.coordinator.Waiting? || s.coordinator.Cancelling? ==> s.shared.cancelled ==> s.shared.failed != [])
    && (!s.coordinator.Waiting? ==> AllReturned(s.workers))
    && (s.shared.skipped != [] || s.shared.unsent != [] ==> Cause(s))
    && s.streamErr == (if s.coordinator.Closing? || s.coordinator.Closed? then s.shared.firstErr else None)
  }

  /** A worker that has the error of `r`'s snapshot in its hands. */
  function BrokenWeight(r: Repo): Worker -> nat {
    (w: Worker) => if ((w.Snapshotted? && !w.ok) || w.Reporting?) && w.repo == r then 1 else 0
  }

  /** The errors that snapshots returned are reported, or about to be, and no others are. */
  ghost predicate BrokenInv(s: State) {
    forall r: Repo :: Times(s.shared.broken, r) == Times(s.shared.failed, r) + SumBy(s.workers, BrokenWeight(r))
  }

  ghost predicate Inv(c: Config, s: State) {
    && DiscoveryInv(c, s) && LanesInv(c, s.shared) && WorkersInv(c, s) && TokensInv(c, s)
    && OutcomeInv(c, s) && Conserved(c, s) && BrokenInv(s)
  }

  // ------------------------------------------------- what one action changes

  lemma {:induction false} TimesAppend(rs: seq<Repo>, x: Repo, r: Repo)
    ensures Times(rs + [x], r) == Times(rs, r) + IsRepo(Some(x), r)
  {
    if rs != [] {
      TimesAppend(rs[1..], x, r);
      assert (rs + [x])[1..] == rs[1..] + [x];
    }
  }

  function SharedBefore(a: Shared, r: Repo): nat {
    Times(a.small, r) + Times(a.large, r) + Times(a.skipped, r)
  }

  function SharedAfter(a: Shared, r: Repo): nat {
    Times(a.stream, r) + Times(a.failed, r) + Times(a.unsent, r)
  }

  ghost predicate Balanced(v: Worker, a: Shared, w: Worker, b: Shared, r: Repo) {
    && SharedBefore(b, r) + IsRepo(Pending(w), r) + SharedAfter(b, r) + IsRepo(Done(w), r)
       == SharedBefore(a, r) + IsRepo(Pending(v), r) + SharedAfter(a, r) + IsRepo(Done(v), r)
    && Times(b.snapshots, r) + SharedAfter(a, r) + IsRepo(Done(v), r)
       == Times(a.snapshots, r) + SharedAfter(b, r) + IsRepo(Done(w), r)
  }

  predicate SameFlow(a: Shared, b: Shared) {
    && b.skipped == a.skipped && b.stream == a.stream && b.failed == a.failed && b.unsent == a.unsent
    && b.snapshots == a.snapshots && b.broken == a.broken
  }

  /** Looking for work takes nothing, or the head of one lane into the worker's hands. */
  /** What looking for a repository does to the lanes. */
  predicate Flow(a: Shared, b: Shared, taken: Option<Repo>) {
    && SameFlow(a, b) && b.smallClosed == a.smallClosed && b.largeClosed == a.largeClosed
    && (|| (taken.None? && b.small == a.small && b.large == a.large)
        || (TakesHead(a.small, b.small, taken) && b.large == a.large)
        || (TakesHead(a.large, b.large, taken) && b.small == a.small))
  }

  lemma HoldingFlow(c: Config, live: bool, v: Worker, a: Shared, w: Worker, b: Shared)
    requires MainAction(c, live, v, a, w, b) && v.HoldingToken?
    ensures Flow(a, b, Pending(w)) && Done(w).None? && Pending(v).None? && Done(v).None?
  {
  }

  lemma MainFlow(c: Config, live: bool, v: Worker, a: Shared, w: Worker, b: Shared)
    requires MainAction(c, live, v, a, w, b)
    ensures Flow(a, b, Pending(w)) && Done(w).None? && Pending(v).None? && Done(v).None?
  {
    if v.HoldingToken? {
      HoldingFlow(c, live, v, a, w, b);
    }
  }

  lemma DrainFlow(v: Worker, a: Shared, w: Worker, b: Shared)
    requires DrainAction(v, a, w, b)
    ensures Flow(a, b, Pending(w)) && Done(w).None? && Pending(v).None? && Done(v).None?
  {
  }

  lemma LaneFlow(c: Config, live: bool, v: Worker, a: Shared, w: Worker, b: Shared)
    requires LaneAction(c, live, v, a, w, b)
    ensures Flow(a, b, Pending(w)) && Done(w).None? && Pending(v).None? && Done(v).None?
  {
    if v.LoopHead? || v.TrySmall? || v.SelectLane? || v.HoldingToken? {
      MainFlow(c, live, v, a, w, b);
    } else {
      DrainFlow(v, a, w, b);
    }
  }

  predicate TakesHead(rs: seq<Repo>, rest: seq<Repo>, taken: Option<Repo>) {
    rs != [] && rest == rs[1..] && taken == Some(rs[0])
  }

  lemma FlowConserves(v: Worker, a: Shared, w: Worker, b: Shared, r: Repo)
    requires Flow(a, b, Pending(w)) && Done(w).None? && Pending(v).None? && Done(v).None?
    ensures Balanced(v, a, w, b, r)
  {
  }

  lemma TakingConserves(c: Config, live: bool, v: Worker, a: Shared, w: Worker, b: Shared, r: Repo)
    requires LaneAction(c, live, v, a, w, b)
    ensures Balanced(v, a, w, b, r)
  {
    LaneFlow(c, live, v, a, w, b);
    FlowConserves(v, a, w, b, r);
  }

  lemma FinishingConserves(c: Config, live: bool, v: Worker, a: Shared, w: Worker, b: Shared, r: Repo)
    requires SnapshotAction(c, live, v, a, w, b) && v.Snapshotting?
    ensures Balanced(v, a, w, b, r)
  {
    TimesAppend(a.snapshots, v.repo, r);
  }

  lemma SkippingConserves(c: Config, live: bool, v: Worker, a: Shared, w: Worker, b: Shared, r: Repo)
    requires SnapshotAction(c, live, v, a, w, b) && !v.Snapshotting?
    ensures Balanced(v, a, w, b, r)
  {
    TimesAppend(a.skipped, v.repo, r);
  }

  lemma SnapshottingConserves(c: Config, live: bool, v: Worker, a: Shared, w: Worker, b: Shared, r: Repo)
    requires SnapshotAction(c, live, v, a, w, b)
    ensures Balanced(v, a, w, b, r)
  {
    if v.Snapshotting? {
      FinishingConserves(c, live, v, a, w, b, r);
    } else {
      SkippingConserves(c, live, v, a, w, b, r);
    }
  }

  lemma ReportingConserves(c: Config, live: bool, v: Worker, a: Shared, w: Worker, b: Shared, r: Repo)
    requires ResultAction(c, live, v, a, w, b) && v.Reporting?
    ensures Balanced(v, a, w, b, r)
  {
    TimesAppend(a.failed, v.repo, r);
  }

  lemma SnapshottedConserves(c: Config, live: bool, v: Worker, a: Shared, w: Worker, b: Shared, r: Repo)
    requires ResultAction(c, live, v, a, w, b) && v.Snapshotted?
    ensures Balanced(v, a, w, b, r)
  {
  }

  lemma SentConserves(v: Worker, a: Shared, w: Worker, b: Shared, r: Repo)
    requires v.Sending? && w == Resume(v.loop) && b == a.(stream := a.stream + [v.repo], sent := a.sent + [v.repo])
    ensures Balanced(v, a, w, b, r)
  {
    TimesAppend(a.stream, v.repo, r);
  }

  lemma UnsentConserves(v: Worker, a: Shared, w: Worker, b: Shared, r: Repo)
    requires v.Sending? && w == Resume(v.loop) && b == a.(unsent := a.unsent + [v.repo])
    ensures Balanced(v, a, w, b, r)
  {
    TimesAppend(a.unsent, v.repo, r);
  }

  lemma SendingConserves(c: Config, live: bool, v: Worker, a: Shared, w: Worker, b: Shared, r: Repo)
    requires ResultAction(c, live, v, a, w, b) && v.Sending?
    ensures Balanced(v, a, w, b, r)
  {
    if b.stream != a.stream {
      SentConserves(v, a, w, b, r);
    } else {
      UnsentConserves(v, a, w, b, r);
    }
  }

  lemma LocalConserves(c: Config, live: bool, v: Worker, a: Shared, w: Worker, b: Shared, r: Repo)
    requires Local(c, live, v, a, w, b)
    ensures Balanced(v, a, w, b, r)
  {
    if Pending(v).Some? {
      SnapshottingConserves(c, live, v, a, w, b, r);
    } else if v.Sending? {
      SendingConserves(c, live, v, a, w, b, r);
    } else if v.Reporting? {
      ReportingConserves(c, live, v, a, w, b, r);
    } else if v.Snapshotted? {
      SnapshottedConserves(c, live, v, a, w, b, r);
    } else {
      TakingConserves(c, live, v, a, w, b, r);
    }
  }

  lemma MainTokens(c: Config, live: bool, v: Worker, a: Shared, w: Worker, b: Shared)
    requires MainAction(c, live, v, a, w, b) && a.tokens <= c.maxLarge
    ensures b.tokens + TokenWeight(v) == a.tokens + TokenWeight(w) && b.tokens <= c.maxLarge
  {
  }

  lemma LaneTokens(c: Config, live: bool, v: Worker, a: Shared, w: Worker, b: Shared)
    requires LaneAction(c, live, v, a, w, b) && a.tokens <= c.maxLarge
    ensures b.tokens + TokenWeight(v) == a.tokens + TokenWeight(w) && b.tokens <= c.maxLarge
  {
    if v.LoopHead? || v.TrySmall? || v.SelectLane? || v.HoldingToken? {
      MainTokens(c, live, v, a, w, b);
    }
  }

  lemma LocalTokens(c: Config, live: bool, v: Worker, a: Shared, w: Worker, b: Shared)
    requires Local(c, live, v, a, w, b) && a.tokens <= c.maxLarge
    ensures b.tokens + TokenWeight(v) == a.tokens + TokenWeight(w) && b.tokens <= c.maxLarge
  {
    if Pending(v).None? && Done(v).None? {
      LaneTokens(c, live, v, a, w, b);
    }
  }

  lemma WorkerKeepsConserved(c: Config, s: State, t: State, i: nat)
    requires Conserved(c, s) && i < |s.workers| && WorkerStep(c, s, t, i)
    ensures Conserved(c, t)
  {
    var v, w := s.workers[i], t.workers[i];
    forall r: Repo
      ensures Before(c, t, r) + After(t, r) == Before(c, s, r) + After(s, r)
      ensures Times(t.shared.snapshots, r) + After(s, r) == Times(s.shared.snapshots, r) + After(t, r)
    {
      LocalConserves(c, Live(s), v, s.shared, w, t.shared, r);
      SumUpdate(s.workers, i, w, PendingWeight(r));
      SumUpdate(s.workers, i, w, DoneWeight(r));
    }
  }

  /** What happens to the outcome fields: nothing, one failure, one send, or one loss after cancellation. */
  predicate OutcomeEffect(c: Config, live: bool, a: Shared, b: Shared) {
    && |b.small| + |b.large| <= |a.small| + |a.large|
    && b.smallClosed == a.smallClosed && b.largeClosed == a.largeClosed
    && (SmallDone(a) ==> SmallDone(b))
    && (LargeDone(a) ==> LargeDone(b))
    && (a.cancelled ==> b.cancelled)
    && (a.failed == b.failed || (b.cancelled && |b.failed| == |a.failed| + 1 && a.failed <= b.failed))
    && (a.failed == b.failed ==> b.cancelled == a.cancelled && b.firstErr == a.firstErr)
    && (a.failed != b.failed ==> b.firstErr == if a.firstErr.None? then Some(b.failed[|a.failed|]) else a.firstErr)
    && (b.skipped != a.skipped || b.unsent != a.unsent ==> !live)
    && (if b.stream == a.stream then b.sent == a.sent
        else |a.stream| < c.buffer && |b.stream| == |a.stream| + 1 && a.stream == b.stream[..|a.stream|]
             && b.sent == a.sent + [b.stream[|a.stream|]])
  }

  lemma LaneKeepsOutcome(c: Config, live: bool, v: Worker, a: Shared, w: Worker, b: Shared)
    requires LaneAction(c, live, v, a, w, b)
    ensures OutcomeEffect(c, live, a, b)
    ensures b.failed == a.failed && b.stream == a.stream
  {
  }

  lemma LocalKeepsOutcome(c: Config, live: bool, v: Worker, a: Shared, w: Worker, b: Shared)
    requires Local(c, live, v, a, w, b)
    ensures OutcomeEffect(c, live, a, b)
  {
    if Pending(v).None? && Done(v).None? {
      LaneKeepsOutcome(c, live, v, a, w, b);
    }
  }

  lemma LocalKeepsLanes(c: Config, live: bool, v: Worker, a: Shared, w: Worker, b: Shared)
    requires LanesInv(c, a) && Local(c, live, v, a, w, b)
    ensures LanesInv(c, b)
  {
    if Pending(v).None? && Done(v).None? {
      LaneFlow(c, live, v, a, w, b);
    }
  }

  lemma MainKeepsSize(c: Config, live: bool, v: Worker, a: Shared, w: Worker, b: Shared)
    requires LanesInv(c, a) && MainAction(c, live, v, a, w, b)
    ensures SizeInv(c, w)
  {
  }

  lemma DrainKeepsSize(c: Config, v: Worker, a: Shared, w: Worker, b: Shared)
    requires LanesInv(c, a) && DrainAction(v, a, w, b)
    ensures SizeInv(c, w)
  {
  }

  lemma SnapshotKeepsSize(c: Config, live: bool, v: Worker, a: Shared, w: Worker, b: Shared)
    requires SizeInv(c, v) && (SnapshotAction(c, live, v, a, w, b) || ResultAction(c, live, v, a, w, b))
    ensures SizeInv(c, w)
  {
  }

  lemma LocalKeepsSize(c: Config, live: bool, v: Worker, a: Shared, w: Worker, b: Shared)
    requires LanesInv(c, a) && SizeInv(c, v) && Local(c, live, v, a, w, b)
    ensures SizeInv(c, w)
  {
    if Pending(v).Some? || Done(v).Some? {
      SnapshotKeepsSize(c, live, v, a, w, b);
    } else if v.LoopHead? || v.TrySmall? || v.SelectLane? || v.HoldingToken? {
      MainKeepsSize(c, live, v, a, w, b);
    } else {
      DrainKeepsSize(c, v, a, w, b);
    }
  }

  lemma MainKeepsLoop(c: Config, live: bool, v: Worker, a: Shared, w: Worker, b: Shared, cause: bool)
    requires LoopInv(v, SmallDone(a), LargeDone(a), cause)
    requires MainAction(c, live, v, a, w, b) && (!live ==> cause)
    ensures LoopInv(w, SmallDone(b), LargeDone(b), cause)
  {
  }

  lemma DrainKeepsLoop(v: Worker, a: Shared, w: Worker, b: Shared, cause: bool)
    requires LoopInv(v, SmallDone(a), LargeDone(a), cause)
    requires DrainAction(v, a, w, b)
    ensures LoopInv(w, SmallDone(b), LargeDone(b), cause)
  {
  }

  lemma SnapshotKeepsLoop(c: Config, live: bool, v: Worker, a: Shared, w: Worker, b: Shared, cause: bool)
    requires LoopInv(v, SmallDone(a), LargeDone(a), cause)
    requires SnapshotAction(c, live, v, a, w, b) && (!live ==> cause)
    ensures LoopInv(w, SmallDone(b), LargeDone(b), cause)
  {
  }

  lemma ResultKeepsLoop(c: Config, live: bool, v: Worker, a: Shared, w: Worker, b: Shared, cause: bool)
    requires LoopInv(v, SmallDone(a), LargeDone(a), cause)
    requires ResultAction(c, live, v, a, w, b)
    ensures LoopInv(w, SmallDone(b), LargeDone(b), cause)
  {
  }

  lemma LocalKeepsLoop(c: Config, live: bool, v: Worker, a: Shared, w: Worker, b: Shared, cause: bool)
    requires LoopInv(v, SmallDone(a), LargeDone(a), cause)
    requires Local(c, live, v, a, w, b) && (!live ==> cause)
    ensures LoopInv(w, SmallDone(b), LargeDone(b), cause)
  {
    if Pending(v).Some? {
      SnapshotKeepsLoop(c, live, v, a, w, b, cause);
    } else if v.LoopHead? || v.TrySmall? || v.SelectLane? || v.HoldingToken? {
      MainKeepsLoop(c, live, v, a, w, b, cause);
    } else if Done(v).Some? {
      ResultKeepsLoop(c, live, v, a, w, b, cause);
    } else {
      DrainKeepsLoop(v, a, w, b, cause);
    }
  }

  // ----------------------------------------------------------- preservation

  lemma StartConserved(c: Config)
    ensures Conserved(c, Start(c))
  {
    var s := Start(c);
    forall r: Repo ensures Before(c, s, r) == (if r < c.Repos() then 1 else 0) && After(s, r) == 0 {
      SumZero(s.workers, PendingWeight(r));
      SumZero(s.workers, DoneWeight(r));
    }
  }

  lemma StartInv(c: Config)
    ensures Inv(c, Start(c))
  {
    SumZero(Start(c).workers, TokenWeight);
    StartConserved(c);
    assert BrokenInv(Start(c)) by {
      forall r: Repo ensures SumBy(Start(c).workers, BrokenWeight(r)) == 0 {
        SumZero(Start(c).workers, BrokenWeight(r));
      }
    }
  }

  /** A cancelled context has a cause as long as some worker is still running. */
  lemma CancelHasCause(c: Config, s: State, i: nat)
    requires OutcomeInv(c, s) && i < |s.workers| && !s.workers[i].Returned?
    ensures Live(s) || Cause(s)
  {
  }

  ghost predicate ErrorsKept(v: Worker, a: Shared, w: Worker, b: Shared, r: Repo) {
    Times(b.broken, r) + Times(a.failed, r) + BrokenWeight(r)(v) == Times(a.broken, r) + Times(b.failed, r) + BrokenWeight(r)(w)
  }

  lemma SnapshotKeepsErrors(c: Config, live: bool, v: Worker, a: Shared, w: Worker, b: Shared, r: Repo)
    requires SnapshotAction(c, live, v, a, w, b)
    ensures ErrorsKept(v, a, w, b, r)
  {
    if v.Snapshotting? {
      TimesAppend(a.broken, v.repo, r);
    }
  }

  lemma ResultKeepsErrors(c: Config, live: bool, v: Worker, a: Shared, w: Worker, b: Shared, r: Repo)
    requires ResultAction(c, live, v, a, w, b)
    ensures ErrorsKept(v, a, w, b, r)
  {
    if v.Reporting? {
      TimesAppend(a.failed, v.repo, r);
    }
  }

  lemma LocalKeepsErrors(c: Config, live: bool, v: Worker, a: Shared, w: Worker, b: Shared, r: Repo)
    requires Local(c, live, v, a, w, b)
    ensures ErrorsKept(v, a, w, b, r)
  {
    if Pending(v).Some? {
      SnapshotKeepsErrors(c, live, v, a, w, b, r);
    } else if Done(v).Some? {
      ResultKeepsErrors(c, live, v, a, w, b, r);
    } else {
      LaneFlow(c, live, v, a, w, b);
    }
  }

  lemma WorkerKeepsErrors(c: Config, s: State, t: State, i: nat)
    requires BrokenInv(s) && i < |s.workers| && WorkerStep(c, s, t, i)
    ensures BrokenInv(t)
  {
    forall r: Repo
      ensures Times(t.shared.broken, r) == Times(t.shared.failed, r) + SumBy(t.workers, BrokenWeight(r))
    {
      LocalKeepsErrors(c, Live(s), s.workers[i], s.shared, t.workers[i], t.shared, r);
      SumUpdate(s.workers, i, t.workers[i], BrokenWeight(r));
      assert Times(s.shared.broken, r) == Times(s.shared.failed, r) + SumBy(s.workers, BrokenWeight(r));
    }
  }

  lemma UnmovedErrors(s: State, t: State)
    requires BrokenInv(s) && t.workers == s.workers && t.shared.broken == s.shared.broken && t.shared.failed == s.shared.failed
    ensures BrokenInv(t)
  {
    forall r: Repo
      ensures Times(t.shared.broken, r) == Times(t.shared.failed, r) + SumBy(t.workers, BrokenWeight(r))
    {
      assert Times(s.shared.broken, r) == Times(s.shared.failed, r) + SumBy(s.workers, BrokenWeight(r));
    }
  }

  lemma WorkerKeepsWorkers(c: Config, s: State, t: State, i: nat)
    requires Inv(c, s) && i < |s.workers| && WorkerStep(c, s, t, i)
    ensures WorkersInv(c, t)
  {
    var v, w := s.workers[i], t.workers[i];
    CancelHasCause(c, s, i);
    LocalKeepsOutcome(c, Live(s), v, s.shared, w, t.shared);
    assert WorkerInv(c, v, SmallDone(s.shared), LargeDone(s.shared), Cause(s));
    LocalKeepsSize(c, Live(s), v, s.shared, w, t.shared);
    LocalKeepsLoop(c, Live(s), v, s.shared, w, t.shared, Cause(s));
    forall j | 0 <= j < |t.workers|
      ensures WorkerInv(c, t.workers[j], SmallDone(t.shared), LargeDone(t.shared), Cause(t))
    {
      if j != i {
        assert WorkerInv(c, s.workers[j], SmallDone(s.shared), LargeDone(s.shared), Cause(s));
      }
    }
  }

  lemma WorkerKeepsOutcome(c: Config, s: State, t: State, i: nat)
    requires OutcomeInv(c, s) && i < |s.workers| && WorkerStep(c, s, t, i)
    ensures OutcomeInv(c, t)
  {
    CancelHasCause(c, s, i);
    LocalKeepsOutcome(c, Live(s), s.workers[i], s.shared, t.workers[i], t.shared);
    if t.shared.stream != s.shared.stream {
      var last := t.shared.stream[|s.shared.stream|];
      assert t.shared.stream == s.shared.stream + [last];
    }
  }

  lemma LanesShrink(c: Config, live: bool, v: Worker, a: Shared, w: Worker, b: Shared)
    requires Local(c, live, v, a, w, b)
    ensures b.smallClosed == a.smallClosed && b.largeClosed == a.largeClosed
    ensures |b.small| + |b.large| <= |a.small| + |a.large|
  {
    if Pending(v).None? && Done(v).None? {
      LaneFlow(c, live, v, a, w, b);
    }
  }

  lemma WorkerKeepsDiscovery(c: Config, s: State, t: State, i: nat)
    requires DiscoveryInv(c, s) && OutcomeInv(c, s) && i < |s.workers| && WorkerStep(c, s, t, i)
    ensures DiscoveryInv(c, t)
  {
    LanesShrink(c, Live(s), s.workers[i], s.shared, t.workers[i], t.shared);
    LocalKeepsOutcome(c, Live(s), s.workers[i], s.shared, t.workers[i], t.shared);
  }

  lemma WorkerPreserves(c: Config, s: State, t: State, i: nat)
    requires Inv(c, s) && i < |s.workers| && WorkerStep(c, s, t, i)
    ensures Inv(c, t)
  {
    var v, w := s.workers[i], t.workers[i];
    assert OutcomeInv(c, t) by {
      WorkerKeepsOutcome(c, s, t, i);
    }
    assert LanesInv(c, t.shared) by {
      LocalKeepsLanes(c, Live(s), v, s.shared, w, t.shared);
    }
    assert TokensInv(c, t) by {
      LocalTokens(c, Live(s), v, s.shared, w, t.shared);
      SumUpdate(s.workers, i, w, TokenWeight);
    }
    assert WorkersInv(c, t) by {
      WorkerKeepsWorkers(c, s, t, i);
    }
    assert Conserved(c, t) by {
      WorkerKeepsConserved(c, s, t, i);
    }
    assert DiscoveryInv(c, t) by {
      WorkerKeepsDiscovery(c, s, t, i);
    }
    assert BrokenInv(t) by {
      WorkerKeepsErrors(c, s, t, i);
    }
  }

  lemma DiscoveryCause(c: Config, s: State)
    requires c.workers > 0 && DiscoveryInv(c, s) && WorkersInv(c, s) && OutcomeInv(c, s)
    ensures s.discovery.Finished? || Live(s) || Cause(s)
  {
    assert WorkerInv(c, s.workers[0], SmallDone(s.shared), LargeDone(s.shared), Cause(s));
  }

  /** Workers that did not move keep their invariant when lanes only close and causes only appear. */
  lemma UnmovedWorkers(c: Config, s: State, t: State)
    requires WorkersInv(c, s) && t.workers == s.workers
    requires SmallDone(s.shared) ==> SmallDone(t.shared)
    requires LargeDone(s.shared) ==> LargeDone(t.shared)
    requires Cause(s) ==> Cause(t)
    ensures WorkersInv(c, t)
  {
    forall j | 0 <= j < |t.workers|
      ensures WorkerInv(c, t.workers[j], SmallDone(t.shared), LargeDone(t.shared), Cause(t))
    {
      assert WorkerInv(c, s.workers[j], SmallDone(s.shared), LargeDone(s.shared), Cause(s));
    }
  }

  lemma SameCounts(c: Config, s: State, t: State)
    requires Conserved(c, s)
    requires t.next == s.next && t.workers == s.workers && t.shared.snapshots == s.shared.snapshots
    requires forall r: Repo :: SharedBefore(t.shared, r) == SharedBefore(s.shared, r)
    requires forall r: Repo :: SharedAfter(t.shared, r) + Times(t.received, r) == SharedAfter(s.shared, r) + Times(s.received, r)
    ensures Conserved(c, t)
  {
    forall r: Repo ensures Before(c, t, r) == Before(c, s, r) && After(t, r) == After(s, r) {
      assert SharedBefore(t.shared, r) == SharedBefore(s.shared, r);
      assert SharedAfter(t.shared, r) + Times(t.received, r) == SharedAfter(s.shared, r) + Times(s.received, r);
    }
  }

  /** A routed repository moves from the unrouted ones to one lane. */
  lemma RoutingConserves(c: Config, a: Shared, next: Repo, r: Repo)
    ensures SharedBefore(a.(large := a.large + [next]), r) == SharedBefore(a, r) + IsRepo(Some(next), r)
    ensures SharedBefore(a.(small := a.small + [next]), r) == SharedBefore(a, r) + IsRepo(Some(next), r)
  {
    TimesAppend(a.large, next, r);
    TimesAppend(a.small, next, r);
  }

  lemma RoutedConserves(c: Config, s: State, t: State)
    requires Conserved(c, s) && t.next == s.next + 1 <= c.Repos() && t.workers == s.workers && t.received == s.received
    requires || t.shared == s.shared.(large := s.shared.large + [s.next])
             || t.shared == s.shared.(small := s.shared.small + [s.next])
    ensures Conserved(c, t)
  {
    forall r: Repo ensures Before(c, t, r) == Before(c, s, r) && After(t, r) == After(s, r) {
      RoutingConserves(c, s.shared, s.next, r);
    }
  }

  lemma DiscoveryKeepsConserved(c: Config, s: State, t: State)
    requires Conserved(c, s) && DiscoveryStep(c, s, t)
    ensures Conserved(c, t)
  {
    if t.next == s.next {
      SameCounts(c, s, t);
    } else {
      RoutedConserves(c, s, t);
    }
  }

  lemma DiscoveryPreserves(c: Config, s: State, t: State)
    requires c.workers > 0 && Inv(c, s) && DiscoveryStep(c, s, t)
    ensures Inv(c, t)
  {
    DiscoveryCause(c, s);
    UnmovedErrors(s, t);
    UnmovedWorkers(c, s, t);
    DiscoveryKeepsConserved(c, s, t);
  }

  lemma CoordinatorPreserves(c: Config, s: State, t: State)
    requires Inv(c, s) && CoordinatorStep(s, t)
    ensures Inv(c, t)
  {
    UnmovedErrors(s, t);
    UnmovedWorkers(c, s, t);
    SameCounts(c, s, t);
  }

  lemma ReceivePreserves(c: Config, s: State, t: State)
    requires Inv(c, s) && ReceiveStep(s, t)
    ensures Inv(c, t)
  {
    UnmovedErrors(s, t);
    UnmovedWorkers(c, s, t);
    assert s.shared.stream == [s.shared.stream[0]] + s.shared.stream[1..];
    forall r: Repo
      ensures SharedAfter(t.shared, r) + Times(t.received, r) == SharedAfter(s.shared, r) + Times(s.received, r)
    {
      TimesAppend(s.received, s.shared.stream[0], r);
    }
    SameCounts(c, s, t);
  }

  lemma ParentPreserves(c: Config, s: State, t: State)
    requires Inv(c, s) && ParentStep(s, t)
    ensures Inv(c, t)
  {
    UnmovedErrors(s, t);
    UnmovedWorkers(c, s, t);
    SameCounts(c, s, t);
  }

  lemma NextPreserves(c: Config, s: State, t: State)
    requires c.Valid() && Inv(c, s) && Next(c, s, t)
    ensures Inv(c, t)
  {
    if DiscoveryStep(c, s, t) {
      DiscoveryPreserves(c, s, t);
    } else if CoordinatorStep(s, t) {
      CoordinatorPreserves(c, s, t);
    } else if ReceiveStep(s, t) {
      ReceivePreserves(c, s, t);
    } else if ParentStep(s, t) {
      ParentPreserves(c, s, t);
    } else {
      var i: nat :| i < |s.workers| && WorkerStep(c, s, t, i);
      WorkerPreserves(c, s, t, i);
    }
  }
}
