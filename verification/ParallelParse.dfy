/** Parsing a repository's files with many workers against parsing them one by one. */
module ParallelParse {

  /** What parsing one file gives: nothing when it cannot be parsed or read. */
  datatype Outcome<S, P> = Skipped | Parsed(shape: S, payload: P)

  datatype Result<S, P> = Result(index: nat, outcome: Outcome<S, P>)

  /** Either both file lists, or the context's error. */
  datatype Files<S, P> = Files(shapes: seq<S>, payloads: seq<P>) | ContextError

  /** The files that could be parsed, in order. */
  function Kept<S, P>(outcomes: seq<Outcome<S, P>>): Files<S, P>
    ensures Kept(outcomes).Files?
  {
    if outcomes == [] then Files([], [])
    else
      var front, last := Kept(outcomes[..|outcomes| - 1]), outcomes[|outcomes| - 1];
      match last
      case Skipped => front
      case Parsed(shape, payload) => Files(front.shapes + [shape], front.payloads + [payload])
  }

  function Parses<S, P>(files: seq<string>, parse: string -> Outcome<S, P>): seq<Outcome<S, P>> {
    seq(|files|, i requires 0 <= i < |files| => parse(files[i]))
  }

  /** File by file; `live` tells for each file whether the context is still live when its turn comes. */
  method ParseSequentially<S, P>(files: seq<string>, parse: string -> Outcome<S, P>, live: nat -> bool) returns (r: Files<S, P>)
    ensures r == if forall i: nat :: i < |files| ==> live(i) then Kept(Parses(files, parse)) else ContextError
  {
    var shapes, payloads := [], [];
    for i := 0 to |files|
      invariant forall j: nat :: j < i ==> live(j)
      invariant Kept(Parses(files[..i], parse)) == Files(shapes, payloads)
    {
      if !live(i) {
        return ContextError;
      }
      var parsed := parse(files[i]);
      assert Parses(files[..i + 1], parse)[..i] == Parses(files[..i], parse);
      if parsed.Skipped? {
        continue;
      }
      shapes := shapes + [parsed.shape];
      payloads := payloads + [parsed.payload];
    }
    assert files[..|files|] == files;
    return Files(shapes, payloads);
  }

  // ---------------------------------------------------------- the worker pool

  /** Workers are told apart only by the job they hold. */
  datatype State<S, P> = State(
    sent: nat,                    // jobs put into the channel so far
    jobs: seq<nat>, jobsClosed: bool,
    idle: nat, held: multiset<nat>,
    results: seq<Result<S, P>>, resultsClosed: bool,
    collected: seq<Result<S, P>>,
    cancelled: bool)

  predicate IsStart<S, P>(workers: nat, s: State<S, P>) {
    s == State(0, [], false, workers, multiset{}, [], false, [], s.cancelled)
  }

  /** The channel of jobs has room for every file. */
  ghost predicate SendJob<S, P>(files: seq<string>, a: State<S, P>, b: State<S, P>) {
    a.sent < |files| && |a.jobs| < |files| && b == a.(sent := a.sent + 1, jobs := a.jobs + [a.sent])
  }

  ghost predicate CloseJobs<S, P>(files: seq<string>, a: State<S, P>, b: State<S, P>) {
    a.sent == |files| && !a.jobsClosed && b == a.(jobsClosed := true)
  }

  ghost predicate TakeJob<S, P>(a: State<S, P>, b: State<S, P>) {
    && a.idle > 0 && a.jobs != []
    && b == a.(idle := a.idle - 1, held := a.held + multiset{a.jobs[0]}, jobs := a.jobs[1..])
  }

  /** A worker that finds the context cancelled skips its file; the channel of results has room for every file. */
  ghost predicate FinishJob<S, P>(files: seq<string>, parse: string -> Outcome<S, P>, a: State<S, P>, b: State<S, P>, i: nat, skip: bool) {
    && i in a.held && i < |files| && (skip ==> a.cancelled) && |a.results| < |files|
    && b == a.(idle := a.idle + 1, held := a.held - multiset{i},
               results := a.results + [Result(i, if skip then Skipped else parse(files[i]))])
  }

  ghost predicate FinishSome<S, P>(files: seq<string>, parse: string -> Outcome<S, P>, a: State<S, P>, b: State<S, P>) {
    exists i: nat, skip: bool :: FinishJob(files, parse, a, b, i, skip)
  }

  ghost predicate WorkerExit<S, P>(a: State<S, P>, b: State<S, P>) {
    a.idle > 0 && a.jobs == [] && a.jobsClosed && b == a.(idle := a.idle - 1)
  }

  ghost predicate CloseResults<S, P>(a: State<S, P>, b: State<S, P>) {
    && a.jobsClosed && a.idle == 0 && a.held == multiset{} && !a.resultsClosed
    && b == a.(resultsClosed := true)
  }

  /** Results are collected only after all jobs have been sent. */
  ghost predicate Collect<S, P>(a: State<S, P>, b: State<S, P>) {
    a.jobsClosed && a.results != [] && b == a.(results := a.results[1..], collected := a.collected + [a.results[0]])
  }

  ghost predicate Cancel<S, P>(a: State<S, P>, b: State<S, P>) {
    !a.cancelled && b == a.(cancelled := true)
  }

  ghost predicate Next<S, P>(files: seq<string>, parse: string -> Outcome<S, P>, a: State<S, P>, b: State<S, P>) {
    || SendJob(files, a, b) || CloseJobs(files, a, b) || TakeJob(a, b)
    || FinishSome(files, parse, a, b)
    || WorkerExit(a, b) || CloseResults(a, b) || Collect(a, b) || Cancel(a, b)
  }

  ghost predicate IsRun<S, P>(files: seq<string>, parse: string -> Outcome<S, P>, workers: nat, run: seq<State<S, P>>) {
    run != [] && IsStart(workers, run[0]) && forall k :: 0 < k < |run| ==> Next(files, parse, run[k - 1], run[k])
  }

  /** The collector has left its loop over the results. */
  predicate Drained<S, P>(s: State<S, P>) {
    s.resultsClosed && s.results == []
  }

  // ---------------------------------------------------------------- invariant

  function Indexes<S, P>(results: seq<Result<S, P>>): seq<nat> {
    seq(|results|, i requires 0 <= i < |results| => results[i].index)
  }

  function UpTo(n: nat): multiset<nat> {
    if n == 0 then multiset{} else UpTo(n - 1) + multiset{n - 1}
  }

  /** A result is its file's, unless the context was cancelled. */
  ghost predicate Honest<S, P>(files: seq<string>, parse: string -> Outcome<S, P>, cancelled: bool, r: Result<S, P>) {
    r.index < |files| && (r.outcome == parse(files[r.index]) || (cancelled && r.outcome == Skipped))
  }

  ghost predicate AllHonest<S, P>(files: seq<string>, parse: string -> Outcome<S, P>, cancelled: bool, rs: seq<Result<S, P>>) {
    forall i :: 0 <= i < |rs| ==> Honest(files, parse, cancelled, rs[i])
  }

  /** Every job sent is in exactly one place, and jobs are left only while a worker is. */
  ghost predicate Inv<S, P>(files: seq<string>, parse: string -> Outcome<S, P>, s: State<S, P>) {
    && s.sent <= |files| && (s.jobsClosed ==> s.sent == |files|)
    && multiset(s.jobs) + s.held + multiset(Indexes(s.results)) + multiset(Indexes(s.collected)) == UpTo(s.sent)
    && AllHonest(files, parse, s.cancelled, s.results) && AllHonest(files, parse, s.cancelled, s.collected)
    && (s.idle > 0 || s.held != multiset{} || (s.jobsClosed && s.jobs == []))
    && (s.resultsClosed ==> s.jobsClosed && s.idle == 0 && s.held == multiset{})
  }

  lemma StartInv<S, P>(files: seq<string>, parse: string -> Outcome<S, P>, workers: nat, s: State<S, P>)
    requires IsStart(workers, s) && workers >= 1
    ensures Inv(files, parse, s)
  {
    assert Indexes(s.results) == [];
  }

  lemma {:induction false} BelowUpTo(n: nat, i: nat)
    ensures UpTo(n)[i] == if i < n then 1 else 0
  {
    if n > 0 {
      BelowUpTo(n - 1, i);
    }
  }

  lemma FinishPreserves<S, P>(files: seq<string>, parse: string -> Outcome<S, P>, a: State<S, P>, b: State<S, P>, i: nat, skip: bool)
    requires Inv(files, parse, a) && FinishJob(files, parse, a, b, i, skip)
    ensures Inv(files, parse, b)
  {
    assert Indexes(b.results) == Indexes(a.results) + [i];
    HandedOn(multiset(a.jobs), a.held, multiset(Indexes(a.results)), multiset(Indexes(a.collected)), i);
    assert AllHonest(files, parse, b.cancelled, b.results) by {
      assert Honest(files, parse, b.cancelled, b.results[|a.results|]);
    }
  }

  lemma HandedOn(jobs: multiset<nat>, held: multiset<nat>, results: multiset<nat>, collected: multiset<nat>, i: nat)
    requires i in held
    ensures jobs + (held - multiset{i}) + (results + multiset{i}) + collected == jobs + held + results + collected
  {
  }

  lemma CollectPreserves<S, P>(files: seq<string>, parse: string -> Outcome<S, P>, a: State<S, P>, b: State<S, P>)
    requires Inv(files, parse, a) && Collect(a, b)
    ensures Inv(files, parse, b)
  {
    var i := a.results[0].index;
    assert Indexes(a.results) == [i] + Indexes(b.results);
    assert Indexes(b.collected) == Indexes(a.collected) + [i];
  }

  lemma TakePreserves<S, P>(files: seq<string>, parse: string -> Outcome<S, P>, a: State<S, P>, b: State<S, P>)
    requires Inv(files, parse, a) && TakeJob(a, b)
    ensures Inv(files, parse, b)
  {
    assert a.jobs == [a.jobs[0]] + b.jobs;
    assert a.jobs[0] in b.held;
  }

  lemma SendPreserves<S, P>(files: seq<string>, parse: string -> Outcome<S, P>, a: State<S, P>, b: State<S, P>)
    requires Inv(files, parse, a) && (SendJob(files, a, b) || CloseJobs(files, a, b))
    ensures Inv(files, parse, b)
  {
  }

  lemma OtherPreserves<S, P>(files: seq<string>, parse: string -> Outcome<S, P>, a: State<S, P>, b: State<S, P>)
    requires Inv(files, parse, a) && (WorkerExit(a, b) || CloseResults(a, b) || Cancel(a, b))
    ensures Inv(files, parse, b)
  {
  }

  lemma NextPreserves<S, P>(files: seq<string>, parse: string -> Outcome<S, P>, a: State<S, P>, b: State<S, P>)
    requires Inv(files, parse, a) && Next(files, parse, a, b)
    ensures Inv(files, parse, b)
  {
    if SendJob(files, a, b) || CloseJobs(files, a, b) {
      SendPreserves(files, parse, a, b);
    } else if TakeJob(a, b) {
      TakePreserves(files, parse, a, b);
    } else if FinishSome(files, parse, a, b) {
      var i: nat, skip: bool :| FinishJob(files, parse, a, b, i, skip);
      FinishPreserves(files, parse, a, b, i, skip);
    } else if Collect(a, b) {
      CollectPreserves(files, parse, a, b);
    } else {
      OtherPreserves(files, parse, a, b);
    }
  }

  lemma {:induction false} RunInv<S, P>(files: seq<string>, parse: string -> Outcome<S, P>, workers: nat, run: seq<State<S, P>>, k: nat)
    requires IsRun(files, parse, workers, run) && workers >= 1 && k < |run|
    ensures Inv(files, parse, run[k])
  {
    if k == 0 {
      StartInv(files, parse, workers, run[0]);
    } else {
      RunInv(files, parse, workers, run, k - 1);
      NextPreserves(files, parse, run[k - 1], run[k]);
    }
  }

  // ------------------------------------------------- sorting and extracting

  ghost predicate SortedByIndex<S, P>(rs: seq<Result<S, P>>) {
    forall i, j :: 0 <= i < j < |rs| ==> rs[i].index <= rs[j].index
  }

  lemma RemoveLast(front: seq<nat>, last: nat, n: nat)
    requires n > 0 && last == n - 1 && multiset(front + [last]) == UpTo(n)
    ensures multiset(front) == UpTo(n - 1)
  {
    assert multiset(front + [last]) == multiset(front) + multiset{last};
    assert multiset(front) == UpTo(n) - multiset{last};
  }

  lemma LargestIndex<S, P>(rs: seq<Result<S, P>>, n: nat)
    requires SortedByIndex(rs) && multiset(Indexes(rs)) == UpTo(n) && rs != []
    ensures n > 0 && rs[|rs| - 1].index == n - 1
  {
    var last := rs[|rs| - 1].index;
    assert Indexes(rs)[|rs| - 1] == last;
    assert last in multiset(Indexes(rs));
    BelowUpTo(n, last);
    BelowUpTo(n, n - 1);
    assert n - 1 in Indexes(rs);
    var k :| 0 <= k < |rs| && Indexes(rs)[k] == n - 1;
  }

  lemma WithoutLargest<S, P>(rs: seq<Result<S, P>>, n: nat)
    requires SortedByIndex(rs) && multiset(Indexes(rs)) == UpTo(n) && rs != []
    ensures n > 0 && rs[|rs| - 1].index == n - 1 && multiset(Indexes(rs[..|rs| - 1])) == UpTo(n - 1)
  {
    LargestIndex(rs, n);
    assert Indexes(rs) == Indexes(rs[..|rs| - 1]) + [n - 1];
    RemoveLast(Indexes(rs[..|rs| - 1]), n - 1, n);
  }

  /** However the results arrived, sorting puts each at its own index. */
  lemma {:induction false} SortedByIndexIsInPlace<S, P>(rs: seq<Result<S, P>>, n: nat)
    requires SortedByIndex(rs) && multiset(Indexes(rs)) == UpTo(n)
    ensures |rs| == n && forall i :: 0 <= i < n ==> rs[i].index == i
  {
    if rs == [] {
      BelowUpTo(n, 0);
      assert Indexes(rs) == [];
    } else {
      var front := rs[..|rs| - 1];
      WithoutLargest(rs, n);
      SortedByIndexIsInPlace(front, n - 1);
      assert forall i :: 0 <= i < |front| ==> rs[i] == front[i];
    }
  }

  /** The results that were not skipped, in the order they have been sorted into. */
  method Extract<S, P>(sorted: seq<Result<S, P>>) returns (r: Files<S, P>)
    ensures r == Kept(OutcomesOf(sorted))
  {
    var shapes, payloads := [], [];
    for i := 0 to |sorted|
      invariant Kept(OutcomesOf(sorted[..i])) == Files(shapes, payloads)
    {
      assert OutcomesOf(sorted[..i + 1])[..i] == OutcomesOf(sorted[..i]);
      if !sorted[i].outcome.Skipped? {
        shapes := shapes + [sorted[i].outcome.shape];
        payloads := payloads + [sorted[i].outcome.payload];
      }
    }
    assert sorted[..|sorted|] == sorted;
    return Files(shapes, payloads);
  }

  function OutcomesOf<S, P>(rs: seq<Result<S, P>>): seq<Outcome<S, P>> {
    seq(|rs|, i requires 0 <= i < |rs| => rs[i].outcome)
  }

  /**
    Whatever the number of workers and the order of their results, a run whose context stayed
    live ends with the file lists of parsing one by one.
   */
  lemma ParallelIsSequential<S, P>(files: seq<string>, parse: string -> Outcome<S, P>, workers: nat, run: seq<State<S, P>>,
                                   sorted: seq<Result<S, P>>)
    requires IsRun(files, parse, workers, run) && workers >= 1
    requires var last := run[|run| - 1];
      Drained(last) && !last.cancelled && multiset(sorted) == multiset(last.collected)
    requires SortedByIndex(sorted)
    ensures Kept(OutcomesOf(sorted)) == Kept(Parses(files, parse))
  {
    var last := run[|run| - 1];
    RunInv(files, parse, workers, run, |run| - 1);
    SameIndexes(sorted, last.collected);
    assert Indexes(last.results) == [];
    SortedByIndexIsInPlace(sorted, |files|);
    forall i | 0 <= i < |files| ensures OutcomesOf(sorted)[i] == Parses(files, parse)[i] {
      assert sorted[i] in multiset(last.collected);
      assert Honest(files, parse, false, sorted[i]);
    }
    assert OutcomesOf(sorted) == Parses(files, parse);
  }

  lemma {:induction false} SameIndexes<S, P>(a: seq<Result<S, P>>, b: seq<Result<S, P>>)
    requires multiset(a) == multiset(b)
    ensures multiset(Indexes(a)) == multiset(Indexes(b))
    decreases |a|
  {
    if a == [] {
      assert |multiset(b)| == |b|;
    } else {
      var rest := PickOut(a, b);
      SameIndexes(a[1..], rest);
      RemoveAt(Indexes(a), 0);
      assert Indexes(a)[..0] + Indexes(a)[1..] == Indexes(a[1..]);
    }
  }

  /** Takes the first element of `a` out of `b`. */
  lemma PickOut<S, P>(a: seq<Result<S, P>>, b: seq<Result<S, P>>) returns (rest: seq<Result<S, P>>)
    requires a != [] && multiset(a) == multiset(b)
    ensures multiset(a[1..]) == multiset(rest)
    ensures multiset(Indexes(b)) == multiset(Indexes(rest)) + multiset{a[0].index}
  {
    assert a[0] in multiset(b);
    var k :| 0 <= k < |b| && b[k] == a[0];
    rest := b[..k] + b[k + 1..];
    RemoveAt(a, 0);
    RemoveAt(b, k);
    assert a[..0] + a[1..] == a[1..];
    CancelOne(multiset(a[1..]), multiset(rest), a[0]);
    RemoveAt(Indexes(b), k);
    assert Indexes(b)[..k] + Indexes(b)[k + 1..] == Indexes(rest);
  }

  lemma CancelOne<T>(p: multiset<T>, q: multiset<T>, x: T)
    requires p + multiset{x} == q + multiset{x}
    ensures p == q
  {
    assert p == p + multiset{x} - multiset{x};
    assert q == q + multiset{x} - multiset{x};
  }

  lemma RemoveAt<T>(xs: seq<T>, k: nat)
    requires k < |xs|
    ensures multiset(xs) == multiset(xs[..k] + xs[k + 1..]) + multiset{xs[k]}
  {
    assert xs == xs[..k] + [xs[k]] + xs[k + 1..];
  }

  // ------------------------------------------------------------------ progress

  lemma {:induction false} UpToSize(n: nat)
    ensures |UpTo(n)| == n
  {
    if n > 0 {
      UpToSize(n - 1);
    }
  }

  /** Every job sent is somewhere, so neither channel holds more than the jobs sent. */
  lemma RoomInChannels<S, P>(files: seq<string>, parse: string -> Outcome<S, P>, s: State<S, P>)
    requires Inv(files, parse, s)
    ensures |s.jobs| + |s.held| + |s.results| + |s.collected| == s.sent <= |files|
  {
    UpToSize(s.sent);
    var jobs, results, collected := multiset(s.jobs), multiset(Indexes(s.results)), multiset(Indexes(s.collected));
    assert |jobs + s.held + results + collected| == |jobs| + |s.held| + |results| + |collected|;
  }

  lemma CanFinish<S, P>(files: seq<string>, parse: string -> Outcome<S, P>, s: State<S, P>) returns (b: State<S, P>)
    requires Inv(files, parse, s) && s.held != multiset{}
    ensures FinishSome(files, parse, s, b) && b.cancelled == s.cancelled
  {
    var i :| i in s.held;
    BelowUpTo(s.sent, i);
    assert i in UpTo(s.sent);
    RoomInChannels(files, parse, s);
    b := s.(idle := s.idle + 1, held := s.held - multiset{i}, results := s.results + [Result(i, parse(files[i]))]);
    assert FinishJob(files, parse, s, b, i, false);
  }

  /**
    The pool never waits for itself: short of the end some step can be taken. The channels
    never fill up before the last job and the last result are in them.
   */
  lemma NeverStuck<S, P>(files: seq<string>, parse: string -> Outcome<S, P>, s: State<S, P>)
    requires Inv(files, parse, s) && !Drained(s)
    ensures exists b :: Next(files, parse, s, b) && !Cancel(s, b)
  {
    RoomInChannels(files, parse, s);
    var b;
    if s.sent < |files| || !s.jobsClosed {
      b := SenderCanMove(files, s);
    } else {
      b := PoolCanMove(files, parse, s);
    }
    assert Next(files, parse, s, b) && !Cancel(s, b);
  }

  lemma SenderCanMove<S, P>(files: seq<string>, s: State<S, P>) returns (b: State<S, P>)
    requires |s.jobs| <= s.sent <= |files| && (s.sent < |files| || !s.jobsClosed)
    ensures (SendJob(files, s, b) || CloseJobs(files, s, b)) && b.cancelled == s.cancelled
  {
    b := if s.sent < |files| then s.(sent := s.sent + 1, jobs := s.jobs + [s.sent]) else s.(jobsClosed := true);
  }

  lemma PoolCanMove<S, P>(files: seq<string>, parse: string -> Outcome<S, P>, s: State<S, P>) returns (b: State<S, P>)
    requires Inv(files, parse, s) && !Drained(s) && s.jobsClosed
    ensures Collect(s, b) || FinishSome(files, parse, s, b) || TakeJob(s, b) || WorkerExit(s, b) || CloseResults(s, b)
    ensures b.cancelled == s.cancelled
  {
    if s.results != [] {
      b := s.(results := s.results[1..], collected := s.collected + [s.results[0]]);
    } else if s.held != multiset{} {
      b := CanFinish(files, parse, s);
    } else if s.idle > 0 && s.jobs != [] {
      b := s.(idle := s.idle - 1, held := s.held + multiset{s.jobs[0]}, jobs := s.jobs[1..]);
    } else if s.idle > 0 {
      b := s.(idle := s.idle - 1);
    } else {
      b := s.(resultsClosed := true);
    }
  }

  function One(b: bool): nat {
    if b then 0 else 1
  }

  function Work<S, P>(files: seq<string>, s: State<S, P>): int {
    5 * (|files| - s.sent) + 4 * |s.jobs| + 3 * |s.held| + |s.results| + s.idle
    + One(s.jobsClosed) + One(s.resultsClosed) + One(s.cancelled)
  }

  lemma FinishShrinks<S, P>(files: seq<string>, parse: string -> Outcome<S, P>, a: State<S, P>, b: State<S, P>, i: nat, skip: bool)
    requires a.sent <= |files| && FinishJob(files, parse, a, b, i, skip)
    ensures 0 <= Work(files, b) < Work(files, a)
  {
  }

  lemma TakeShrinks<S, P>(files: seq<string>, a: State<S, P>, b: State<S, P>)
    requires a.sent <= |files| && TakeJob(a, b)
    ensures 0 <= Work(files, b) < Work(files, a)
  {
  }

  /** Every step lowers the work left, so every run is finite. */
  lemma StepShrinks<S, P>(files: seq<string>, parse: string -> Outcome<S, P>, a: State<S, P>, b: State<S, P>)
    requires a.sent <= |files| && Next(files, parse, a, b)
    ensures 0 <= Work(files, b) < Work(files, a)
  {
    if FinishSome(files, parse, a, b) {
      var i: nat, skip: bool :| FinishJob(files, parse, a, b, i, skip);
      FinishShrinks(files, parse, a, b, i, skip);
    } else if TakeJob(a, b) {
      TakeShrinks(files, a, b);
    }
  }

  lemma OnlyCancelCancels<S, P>(files: seq<string>, parse: string -> Outcome<S, P>, a: State<S, P>, b: State<S, P>)
    requires Next(files, parse, a, b) && !Cancel(a, b)
    ensures b.cancelled == a.cancelled
  {
  }

  /** Every run can be carried on to its end without a cancellation. */
  lemma {:induction false} CarriedOn<S, P>(files: seq<string>, parse: string -> Outcome<S, P>, workers: nat, run: seq<State<S, P>>)
    returns (whole: seq<State<S, P>>)
    requires IsRun(files, parse, workers, run) && workers >= 1
    ensures IsRun(files, parse, workers, whole) && Drained(whole[|whole| - 1])
    ensures whole[|whole| - 1].cancelled == run[|run| - 1].cancelled
    decreases Work(files, run[|run| - 1])
  {
    var s := run[|run| - 1];
    RunInv(files, parse, workers, run, |run| - 1);
    if Drained(s) {
      whole := run;
    } else {
      NeverStuck(files, parse, s);
      var b :| Next(files, parse, s, b) && !Cancel(s, b);
      OnlyCancelCancels(files, parse, s, b);
      StepShrinks(files, parse, s, b);
      whole := CarriedOn(files, parse, workers, run + [b]);
    }
  }

  /** For any files and workers some run parses all the files without a cancellation. */
  lemma CleanRunExists<S, P>(files: seq<string>, parse: string -> Outcome<S, P>, workers: nat) returns (run: seq<State<S, P>>)
    requires workers >= 1
    ensures IsRun(files, parse, workers, run)
    ensures var last := run[|run| - 1]; Drained(last) && !last.cancelled && |last.collected| == |files|
  {
    var start: State<S, P> := State(0, [], false, workers, multiset{}, [], false, [], false);
    run := CarriedOn(files, parse, workers, [start]);
    RunInv(files, parse, workers, run, |run| - 1);
    RoomInChannels(files, parse, run[|run| - 1]);
  }

  /** The parsed files are at these indexes. */
  ghost predicate ParsedAt<S, P>(outcomes: seq<Outcome<S, P>>, at: seq<nat>) {
    && (forall j :: 0 <= j < |at| ==> at[j] < |outcomes|)
    && (forall j, k :: 0 <= j < k < |at| ==> at[j] < at[k])
    && (forall i: nat :: i in at <==> i < |outcomes| && outcomes[i].Parsed?)
  }

  /** The lists hold what was parsed at these indexes. */
  ghost predicate Listed<S, P>(outcomes: seq<Outcome<S, P>>, at: seq<nat>, r: Files<S, P>)
    requires r.Files?
  {
    && |r.shapes| == |at| == |r.payloads|
    && forall j :: 0 <= j < |at| ==> at[j] < |outcomes| && outcomes[at[j]] == Parsed(r.shapes[j], r.payloads[j])
  }

  lemma ParsedOneMore<S, P>(front: seq<Outcome<S, P>>, last: Outcome<S, P>, at: seq<nat>)
    requires ParsedAt(front, at)
    ensures ParsedAt(front + [last], if last.Parsed? then at + [|front|] else at)
  {
    var more := if last.Parsed? then at + [|front|] else at;
    forall i: nat ensures i in more <==> i < |front + [last]| && (front + [last])[i].Parsed? {
      assert i < |front| ==> (front + [last])[i] == front[i];
      assert i in at ==> i < |front|;
      assert i in more <==> i in at || (last.Parsed? && i == |front|);
    }
  }

  lemma ListedOneMore<S, P>(front: seq<Outcome<S, P>>, last: Outcome<S, P>, at: seq<nat>, r: Files<S, P>)
    requires r.Files? && Listed(front, at, r)
    ensures last.Skipped? ==> Listed(front + [last], at, r)
    ensures last.Parsed? ==> Listed(front + [last], at + [|front|], Files(r.shapes + [last.shape], r.payloads + [last.payload]))
  {
    if last.Parsed? {
      var more, files := at + [|front|], Files(r.shapes + [last.shape], r.payloads + [last.payload]);
      forall j | 0 <= j < |more|
        ensures more[j] < |front + [last]| && (front + [last])[more[j]] == Parsed(files.shapes[j], files.payloads[j])
      {
        if j < |at| {
          assert more[j] == at[j] && front[at[j]] == Parsed(r.shapes[j], r.payloads[j]);
        }
      }
    }
  }

  ghost predicate KeptAt<S, P>(outcomes: seq<Outcome<S, P>>, at: seq<nat>) {
    ParsedAt(outcomes, at) && Listed(outcomes, at, Kept(outcomes))
  }

  lemma KeptOneMore<S, P>(front: seq<Outcome<S, P>>, last: Outcome<S, P>, at: seq<nat>)
    requires KeptAt(front, at)
    ensures KeptAt(front + [last], if last.Parsed? then at + [|front|] else at)
  {
    ParsedOneMore(front, last, at);
    ListedOneMore(front, last, at, Kept(front));
    assert (front + [last])[..|front|] == front;
  }

  /** The lists hold the shape and the payload of every parsed file, in the order of the files. */
  lemma {:induction false} KeptAre<S, P>(outcomes: seq<Outcome<S, P>>) returns (at: seq<nat>)
    ensures ParsedAt(outcomes, at) && Listed(outcomes, at, Kept(outcomes))
  {
    if outcomes == [] {
      at := [];
    } else {
      var front, last := outcomes[..|outcomes| - 1], outcomes[|outcomes| - 1];
      assert outcomes == front + [last];
      at := KeptAre(front);
      KeptOneMore(front, last, at);
      at := if last.Parsed? then at + [|front|] else at;
    }
  }
}
