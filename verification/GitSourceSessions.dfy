/**
  Repeated calls of GitSource.Next: a call on an idle source starts a discovery
  cycle, a call on a started one takes a generation or, once the stream is closed
  and empty, the end of the cycle.  Background goroutines move between calls.

  A call that fails before the cycle starts, or that gives up because its context
  is done, leaves the source as it was and is not a step here.
 */
module GitSourceSessions {

  import opened Basics
  import opened SnapshotScheduler
  import opened SnapshotSchedulerRuns
  import opened Counting

  datatype Result = Generation(repo: Repo) | EndOfStream | StreamError(repo: Repo)

  /** A finished cycle. */
  datatype Report = Report(
    config: Config, received: seq<Repo>, snapshots: seq<Repo>, broken: seq<Repo>, err: Option<Repo>, cancelled: bool)

  datatype Session = Session(
    started: bool,
    config: Config,
    cycle: State,               // cycle.streamErr is the source's streamErr field
    results: seq<Result>,       // what Next has returned, oldest first
    reports: seq<Report>)

  /** No repository was selected: the stream is closed at once and streamErr left alone. */
  function EmptyCycle(c: Config, streamErr: Option<Repo>): State {
    Start(c).(discovery := Finished, workers := seq(c.workers, _ => Returned), coordinator := Closed,
              shared := Start(c).shared.(smallClosed := true, largeClosed := true), streamErr := streamErr)
  }

  predicate StartStep(s: Session, t: Session) {
    && !s.started && t.config.Valid()
    && t == s.(started := true, config := t.config,
               cycle := if t.config.Repos() == 0 then EmptyCycle(t.config, s.cycle.streamErr) else Start(t.config))
  }

  ghost predicate BackgroundStep(s: Session, t: Session) {
    && s.started
    && t == s.(cycle := t.cycle)
    && Next(s.config, s.cycle, t.cycle)
    && t.cycle.received == s.cycle.received
  }

  predicate GenerationStep(s: Session, t: Session) {
    && s.started
    && s.cycle.shared.stream != []
    && t == s.(cycle := t.cycle, results := s.results + [Generation(s.cycle.shared.stream[0])])
    && ReceiveStep(s.cycle, t.cycle)
  }

  predicate EndStep(s: Session, t: Session) {
    && s.started && StreamClosed(s.cycle) && s.cycle.shared.stream == []
    && t == s.(started := false,
               cycle := s.cycle.(streamErr := None),
               results := s.results + [EndResult(s.cycle.streamErr)],
               reports := s.reports + [ReportOf(s.config, s.cycle)])
  }

  function EndResult(err: Option<Repo>): Result {
    if err.Some? then StreamError(err.value) else EndOfStream
  }

  function ReportOf(c: Config, s: State): Report {
    Report(c, s.received, s.shared.snapshots, s.shared.broken, s.streamErr, s.parentCancelled)
  }

  ghost predicate SessionStep(s: Session, t: Session) {
    StartStep(s, t) || BackgroundStep(s, t) || GenerationStep(s, t) || EndStep(s, t)
  }

  predicate IsIdleStart(s: Session) {
    !s.started && s.cycle.streamErr.None? && s.results == [] && s.reports == []
  }

  ghost predicate IsSession(run: seq<Session>) {
    && |run| > 0
    && IsIdleStart(run[0])
    && forall i :: 0 <= i < |run| - 1 ==> SessionStep(run[i], run[i + 1])
  }

  // ------------------------------------------------------------- the contract

  function Generations(received: seq<Repo>): seq<Result> {
    seq(|received|, i requires 0 <= i < |received| => Generation(received[i]))
  }

  /** What one finished cycle looks like to the caller: its generations, then its end, once. */
  function CycleResults(r: Report): seq<Result> {
    Generations(r.received) + [EndResult(r.err)]
  }

  function AllResults(reports: seq<Report>): seq<Result> {
    if reports == [] then []
    else AllResults(reports[..|reports| - 1]) + CycleResults(reports[|reports| - 1])
  }

  ghost predicate GoodReport(r: Report) {
    Delivered(r.config, r.received, r.snapshots, r.broken, r.err, r.cancelled)
  }

  /** A finished cycle ends with EndOfStream exactly if no snapshot returned an error, and else with the error of one that did. */
  lemma CycleEnds(r: Report)
    requires GoodReport(r)
    ensures var results := CycleResults(r);
      && |results| == |r.received| + 1
      && (forall i :: 0 <= i < |r.received| ==> results[i] == Generation(r.received[i]))
      && (results[|r.received|] == EndOfStream <==> r.broken == [])
      && (r.broken != [] ==> exists repo :: Times(r.broken, repo) == 1 && results[|r.received|] == StreamError(repo))
  {
  }

  ghost predicate SessionInv(s: Session) {
    && (forall i :: 0 <= i < |s.reports| ==> GoodReport(s.reports[i]))
    && (if s.started then s.config.Valid() && Inv(s.config, s.cycle) else s.cycle.streamErr.None?)
    && s.results == AllResults(s.reports) + (if s.started then Generations(s.cycle.received) else [])
  }

  lemma EmptyCycleInv(c: Config)
    requires c.Valid() && c.Repos() == 0
    ensures Inv(c, EmptyCycle(c, None))
  {
    var s := EmptyCycle(c, None);
    assert AllReturned(s.workers);
    SumZero(s.workers, TokenWeight);
    assert Conserved(c, s) && BrokenInv(s) by {
      forall r: Repo ensures Before(c, s, r) == 0 && After(s, r) == 0 && SumBy(s.workers, BrokenWeight(r)) == 0 {
        ReturnedHoldNothing(s, r);
      }
    }
  }

  lemma StartKeepsSession(s: Session, t: Session)
    requires SessionInv(s) && StartStep(s, t)
    ensures SessionInv(t)
  {
    if t.config.Repos() == 0 { EmptyCycleInv(t.config); } else { StartInv(t.config); }
    assert Generations(t.cycle.received) == [];
  }

  lemma GenerationKeepsSession(s: Session, t: Session)
    requires SessionInv(s) && GenerationStep(s, t)
    ensures SessionInv(t)
  {
    var g := s.cycle.shared.stream[0];
    ReceivePreserves(s.config, s.cycle, t.cycle);
    assert Generations(t.cycle.received) == Generations(s.cycle.received) + [Generation(g)];
  }

  lemma EndKeepsSession(s: Session, t: Session)
    requires SessionInv(s) && EndStep(s, t)
    ensures SessionInv(t)
  {
    ExhaustedDelivers(s.config, s.cycle);
    var r := ReportOf(s.config, s.cycle);
    assert t.reports[..|t.reports| - 1] == s.reports;
    assert AllResults(t.reports) == AllResults(s.reports) + CycleResults(r);
  }

  lemma StepKeepsSession(s: Session, t: Session)
    requires SessionInv(s) && SessionStep(s, t)
    ensures SessionInv(t)
  {
    if StartStep(s, t) {
      StartKeepsSession(s, t);
    } else if BackgroundStep(s, t) {
      NextPreserves(s.config, s.cycle, t.cycle);
    } else if GenerationStep(s, t) {
      GenerationKeepsSession(s, t);
    } else {
      EndKeepsSession(s, t);
    }
  }

  /**
    Over any number of cycles, what Next returned is each finished cycle's generations
    followed by exactly one end: the first snapshot error if there was one.  Every
    uncancelled cycle without an error returned each repository exactly once.
   */
  lemma {:induction false} SessionsDeliver(run: seq<Session>)
    requires IsSession(run)
    ensures SessionInv(run[|run| - 1])
  {
    if |run| > 1 {
      var prefix := run[..|run| - 1];
      forall i | 0 <= i < |prefix| - 1 ensures SessionStep(prefix[i], prefix[i + 1]) {
        assert SessionStep(run[i], run[i + 1]);
      }
      SessionsDeliver(prefix);
      var last := |run| - 2;
      assert SessionStep(run[last], run[last + 1]);
      assert prefix[|prefix| - 1] == run[last];
      StepKeepsSession(run[last], run[last + 1]);
    }
  }
}
