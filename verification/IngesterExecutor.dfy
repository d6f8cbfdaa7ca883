/** The ingester's phase-group executor, with the statistics of entity phases. */
module IngesterExecutor {

  import opened Basics
  import opened GoStrings
  import opened PhaseGroups
  import opened GraphStores
  import opened GroupingProgress
  import opened EntityPhaseStats
  import opened EntityPhaseRecorder
  import opened EntityPhaseClosing

  function StatementPhase(stmts: seq<Statement>): string {
    if stmts == [] then "" else TrimSpace(TextParam(stmts[0], PHASE_KEY))
  }

  function UsesEntityLabelStats(phase: string): bool {
    var trimmed := TrimSpace(phase);
    trimmed == PHASE_ENTITIES || trimmed == PHASE_ENTITY_CONTAINMENT
  }

  function PhaseGroupStatementLimit(limits: Limits, stmts: seq<Statement>): (n: nat)
    requires stmts != []
    ensures n == Limit(limits, stmts[0]) && n > 0
  {
    TrimSpaceTwice(TextParam(stmts[0], PHASE_KEY));
    var phase := StatementPhase(stmts);
    if phase == PHASE_FILES then
      if limits.fileStatements > 0 then limits.fileStatements else DEFAULT_FILE_PHASE_STATEMENTS
    else if UsesEntityLabelStats(phase) then
      var entityLabel := Label(stmts[0]);
      if entityLabel != "" && entityLabel in limits.labelStatements && limits.labelStatements[entityLabel] > 0
      then limits.labelStatements[entityLabel]
      else if limits.entityStatements > 0 then limits.entityStatements else DEFAULT_ENTITY_PHASE_STATEMENTS
    else if limits.statements > 0 then limits.statements else DEFAULT_PHASE_STATEMENTS
  }

  method AllUseRetract(stmts: seq<Statement>) returns (all: bool)
    ensures all == AllRetract(stmts)
  {
    if |stmts| == 0 {
      return false;
    }
    for i := 0 to |stmts|
      invariant forall j :: 0 <= j < i ==> stmts[j].operation.CanonicalRetract?
    {
      if !stmts[i].operation.CanonicalRetract? {
        return false;
      }
    }
    return true;
  }

  /** A batch of any kind: its plan is run up to the first failing call. */
  method ExecutePhaseGroup(store: Store?, limits: Limits, stmts: seq<Statement>) returns (ok: bool)
    modifies store
    ensures store == null ==> ok
    ensures store != null ==>
      Ran(store.accepts, old(store.calls), IngesterPlan(limits, store.grouping, stmts), store.calls, ok)
  {
    if |stmts| == 0 || store == null {
      return true;
    }
    if store.grouping {
      var allRetract := AllUseRetract(stmts);
      if allRetract {
        ok := ExecuteSequentially(store, stmts);
        return;
      }
      TrimSpaceTwice(TextParam(stmts[0], PHASE_KEY));
      if UsesEntityLabelStats(StatementPhase(stmts)) {
        var recorder;
        ok, recorder := ExecuteEntityPhaseGroup(store, limits, stmts);
        return;
      }
      ok := ExecuteGroupedChunks(store, stmts, PhaseGroupStatementLimit(limits, stmts));
      return;
    }
    ok := ExecuteSequentially(store, stmts);
  }

  /** One Execute per statement, stopping at the first failure. */
  method ExecuteSequentially(store: Store, stmts: seq<Statement>) returns (ok: bool)
    modifies store
    ensures Ran(store.accepts, old(store.calls), Singles(stmts), store.calls, ok)
  {
    ghost var before := store.calls;
    for i := 0 to |stmts|
      invariant Ran(store.accepts, before, Singles(stmts[..i]), store.calls, true)
    {
      ghost var mid := store.calls;
      var sanitized := SanitizeStatement(stmts[i]);
      ok := store.Execute(sanitized);
      SinglesStep(store.accepts, before, stmts, i, mid, store.calls, ok);
      if !ok {
        return false;
      }
    }
    assert stmts[..|stmts|] == stmts;
    return true;
  }

  /** Sends one chunk and reports it to the recorder, if it succeeded. */
  method SendObserved(store: Store, chunk: seq<Statement>, recorder: Recorder) returns (ok: bool)
    requires chunk != []
    requires recorder.Valid()
    modifies store, recorder, recorder.parts
    ensures store.calls == old(store.calls) + [SanitizedCall(Many(chunk))]
    ensures ok == store.accepts(old(store.calls), SanitizedCall(Many(chunk)))
    ensures fresh(recorder.parts - old(recorder.parts))
    ensures recorder.Valid() && recorder.closed == old(recorder.closed)
    ensures recorder.seen == if ok then old(recorder.seen) + [Many(chunk)] else old(recorder.seen)
  {
    var sanitized := SanitizeChunk(chunk);
    ok := store.ExecuteGroup(sanitized);
    if ok {
      recorder.Observe(Many(chunk));
    }
  }

  /** Consecutive chunks of at most `size` statements, each reported to the recorder once it succeeded. */
  method ExecuteGroupedChunksObserved(store: Store, stmts: seq<Statement>, size: nat, recorder: Recorder) returns (ok: bool)
    requires size > 0
    requires recorder.Valid()
    modifies store, recorder, recorder.parts
    ensures Ran(store.accepts, old(store.calls), Chunks(stmts, size), store.calls, ok)
    ensures fresh(recorder.parts - old(recorder.parts))
    ensures recorder.Valid() && recorder.closed == old(recorder.closed)
    ensures ok ==> recorder.seen == old(recorder.seen) + Chunks(stmts, size)
  {
    ghost var before := store.calls;
    ghost var done := [];
    ghost var seenBefore, closedBefore := recorder.seen, recorder.closed;
    NoChunkYet(store.accepts, before, stmts, size);
    var start := 0;
    while start < |stmts|
      invariant 0 <= start
      invariant ChunkedTo(store.accepts, before, stmts, size, start, done, store.calls)
      invariant recorder.Valid() && recorder.closed == closedBefore && recorder.seen == seenBefore + done
      invariant fresh(recorder.parts - old(recorder.parts))
    {
      done, ok := ExecuteChunk(store, stmts, size, start, recorder, before, done);
      if !ok {
        return false;
      }
      start := start + size;
    }
    LastChunk(store.accepts, before, stmts, size, start, done, store.calls);
    return true;
  }

  /** The same without an observer: nobody reads the recorder. */
  method ExecuteGroupedChunks(store: Store, stmts: seq<Statement>, size: nat) returns (ok: bool)
    requires size > 0
    modifies store
    ensures Ran(store.accepts, old(store.calls), Chunks(stmts, size), store.calls, ok)
  {
    var unread := new Recorder();
    ok := ExecuteGroupedChunksObserved(store, stmts, size, unread);
  }

  /** Sends the chunk that begins at `start`. */
  method ExecuteChunk(store: Store, stmts: seq<Statement>, size: nat, start: nat, recorder: Recorder,
                      ghost before: seq<Call>, ghost done: seq<Call>)
    returns (ghost more: seq<Call>, ok: bool)
    requires size > 0 && start < |stmts|
    requires ChunkedTo(store.accepts, before, stmts, size, start, done, store.calls)
    requires recorder.Valid()
    modifies store, recorder, recorder.parts
    ensures ok ==> ChunkedTo(store.accepts, before, stmts, size, start + size, more, store.calls)
    ensures !ok ==> Ran(store.accepts, before, Chunks(stmts, size), store.calls, false)
    ensures fresh(recorder.parts - old(recorder.parts))
    ensures recorder.Valid() && recorder.closed == old(recorder.closed)
    ensures ok ==> |more| == |done| + 1 && more[..|done|] == done && recorder.seen == old(recorder.seen) + more[|done|..]
  {
    var end := start + size;
    if end > |stmts| {
      end := |stmts|;
    }
    ghost var mid, call := store.calls, Many(stmts[start..end]);
    ok := SendObserved(store, stmts[start..end], recorder);
    NextChunk(store.accepts, before, stmts, size, start, end, done, mid, store.calls, ok);
    more := done + [call];
  }

  /** The recorder has seen the calls of `p` and closed the labels that were due. */
  ghost predicate Recorded(recorder: Recorder, limits: Limits, p: Progress, next: bool)
    reads recorder, recorder.parts
  {
    && recorder.Valid()
    && recorder.seen == p.done
    && recorder.closed == Closed(limits, p.done, next)
  }

  /** Sends the buffer, if there is anything in it, as the next group. */
  method FlushGroup(store: Store, limits: Limits, recorder: Recorder, grouped: seq<Statement>, ghost groupedLabel: string,
                    ghost stmts: seq<Statement>, ghost to: nat, ghost before: seq<Call>, ghost p: Progress)
    returns (ghost q: Progress, ok: bool)
    requires Sent(limits, store.accepts, before, stmts, p, store.calls, true)
    requires Buffers(limits, stmts, p.From(), to, grouped, groupedLabel)
    requires grouped != [] ==> Due(limits, stmts, to, grouped)
    requires Recorded(recorder, limits, p, grouped != [])
    modifies store, recorder, recorder.parts
    ensures Sent(limits, store.accepts, before, stmts, q, store.calls, ok) && q.From() == to
    ensures q == if grouped == [] then p else p.Add(Many(grouped), to)
    ensures fresh(recorder.parts - old(recorder.parts))
    ensures ok ==> Recorded(recorder, limits, q, false)
  {
    q := p;
    if |grouped| == 0 {
      return q, true;
    }
    ghost var mid, call := store.calls, Many(grouped);
    DueBufferIsGroup(limits, stmts, p.From(), to, grouped, groupedLabel);
    ok := ExecuteGroupedChunksObserved(store, grouped, PhaseGroupStatementLimit(limits, grouped), recorder);
    SendOne(limits, store.accepts, before, stmts, p, to, mid, call, store.calls, ok);
    q := p.Add(call, to);
    ClosedAppend(limits, p.done, call);
  }

  /** Executes one statement on its own and reports it to the recorder, if it succeeded. */
  method SendSingleton(store: Store, stmt: Statement, recorder: Recorder) returns (ok: bool)
    requires recorder.Valid()
    modifies store, recorder, recorder.parts
    ensures store.calls == old(store.calls) + [SanitizedCall(One(stmt))]
    ensures ok == store.accepts(old(store.calls), SanitizedCall(One(stmt)))
    ensures fresh(recorder.parts - old(recorder.parts))
    ensures recorder.Valid() && recorder.closed == old(recorder.closed)
    ensures recorder.seen == if ok then old(recorder.seen) + [One(stmt)] else old(recorder.seen)
  {
    var sanitized := SanitizeStatement(stmt);
    ok := store.Execute(sanitized);
    if ok {
      recorder.Observe(One(stmt));
    }
  }

  /** Sends an execute-only statement when the buffer is empty. */
  method ExecuteSingleton(store: Store, limits: Limits, recorder: Recorder, stmt: Statement,
                          ghost stmts: seq<Statement>, ghost i: nat, ghost before: seq<Call>, ghost p: Progress)
    returns (ghost q: Progress, ok: bool)
    requires i < |stmts| && stmts[i] == stmt && ExecuteOnly(stmt)
    requires Sent(limits, store.accepts, before, stmts, p, store.calls, true) && p.From() == i
    requires Recorded(recorder, limits, p, false)
    modifies store, recorder, recorder.parts
    ensures q == p.Add(One(stmt), i + 1)
    ensures Sent(limits, store.accepts, before, stmts, q, store.calls, ok)
    ensures fresh(recorder.parts - old(recorder.parts))
    ensures ok ==> Recorded(recorder, limits, q, false)
  {
    ghost var mid, call := store.calls, One(stmt);
    ok := SendSingleton(store, stmt, recorder);
    RanOne(store.accepts, mid, call);
    SendOne(limits, store.accepts, before, stmts, p, i + 1, mid, call, store.calls, ok);
    q := p.Add(call, i + 1);
    ClosedAppend(limits, p.done, call);
  }

  /** Flushes the buffer and sends one execute-only statement after it. */
  method ExecuteAlone(store: Store, limits: Limits, recorder: Recorder, stmt: Statement, grouped: seq<Statement>,
                      ghost groupedLabel: string, ghost stmts: seq<Statement>, ghost i: nat, ghost before: seq<Call>,
                      ghost p: Progress)
    returns (ghost q: Progress, ok: bool)
    requires i < |stmts| && stmts[i] == stmt && ExecuteOnly(stmt)
    requires Sent(limits, store.accepts, before, stmts, p, store.calls, true)
    requires Buffers(limits, stmts, p.From(), i, grouped, groupedLabel)
    requires Recorded(recorder, limits, p, grouped != [])
    modifies store, recorder, recorder.parts
    ensures Sent(limits, store.accepts, before, stmts, q, store.calls, ok)
    ensures fresh(recorder.parts - old(recorder.parts))
    ensures ok ==> q.From() == i + 1 && Recorded(recorder, limits, q, false)
    ensures ok ==> EndsFull(limits, q.done)
  {
    q, ok := FlushGroup(store, limits, recorder, grouped, groupedLabel, stmts, i, before, p);
    if ok {
      q, ok := ExecuteSingleton(store, limits, recorder, stmt, stmts, i, before, q);
    }
  }

  lemma NoEmptyKey(calls: seq<Call>)
    ensures "" !in TotalsTable(calls)
  {
    assert forall i :: 0 <= i < |calls| ==> Key(calls[i]) != "";
  }

  /** A group cut short by the next statement closes its label, if that has a name. */
  lemma CutShort(limits: Limits, front: seq<Call>, grouped: seq<Statement>, closed: map<string, Totals>)
    requires grouped != [] && |grouped| < Limit(limits, grouped[0])
    ensures var calls, k := front + [Many(grouped)], Label(grouped[0]);
      Closed(limits, calls, true) == CloseLabel(Closed(limits, calls, false), TotalsTable(calls), k)
  {
    var calls, k := front + [Many(grouped)], Label(grouped[0]);
    NoEmptyKey(calls);
    ClosedAppend(limits, front, Many(grouped));
    KeysOneMore(calls);
  }

  /** Flushes the buffer because a statement of another label has arrived, and completes the buffer's label. */
  method FlushOtherLabel(store: Store, limits: Limits, recorder: Recorder, grouped: seq<Statement>, groupedLabel: string,
                         ghost stmts: seq<Statement>, ghost i: nat, ghost before: seq<Call>, ghost p: Progress)
    returns (ghost q: Progress, ok: bool)
    requires i < |stmts| && !Joins(stmts[i], groupedLabel)
    requires Sent(limits, store.accepts, before, stmts, p, store.calls, true)
    requires Buffers(limits, stmts, p.From(), i, grouped, groupedLabel)
    requires grouped != [] && |grouped| < Limit(limits, grouped[0])
    requires Recorded(recorder, limits, p, true)
    modifies store, recorder, recorder.parts
    ensures Sent(limits, store.accepts, before, stmts, q, store.calls, ok) && q.From() == i
    ensures fresh(recorder.parts - old(recorder.parts))
    ensures ok ==> Recorded(recorder, limits, q, true)
  {
    q, ok := FlushGroup(store, limits, recorder, grouped, groupedLabel, stmts, i, before, p);
    if ok {
      CutShort(limits, p.done, grouped, recorder.closed);
      recorder.Complete(groupedLabel);
    }
  }

  /** Appends a statement that fits to the buffer, and flushes a buffer that has reached its limit. */
  method AppendGrouped(store: Store, limits: Limits, recorder: Recorder, grouped: array<Statement>, size: nat,
                       groupedLabel: string, stmt: Statement,
                       ghost stmts: seq<Statement>, ghost i: nat, ghost before: seq<Call>, ghost p: Progress)
    returns (ghost q: Progress, n: nat, newLabel: string, ok: bool)
    requires i < |stmts| && stmts[i] == stmt && size < grouped.Length
    requires Sent(limits, store.accepts, before, stmts, p, store.calls, true)
    requires Buffers(limits, stmts, p.From(), i, grouped[..size], groupedLabel)
    requires size > 0 ==> size < Limit(limits, grouped[0])
    requires !ExecuteOnly(stmt) && (size > 0 ==> Label(stmt) == groupedLabel)
    requires Recorded(recorder, limits, p, true)
    modifies store, grouped, recorder, recorder.parts
    ensures Sent(limits, store.accepts, before, stmts, q, store.calls, ok)
    ensures ok ==> n <= size + 1 && Buffers(limits, stmts, q.From(), i + 1, grouped[..n], newLabel)
    ensures ok && n > 0 ==> n < Limit(limits, grouped[0])
    ensures fresh(recorder.parts - old(recorder.parts))
    ensures ok ==> Recorded(recorder, limits, q, n > 0) && (n == 0 ==> EndsFull(limits, q.done))
  {
    newLabel := AppendToBuffer(limits, grouped, size, groupedLabel, stmt, stmts, p.From(), i);
    n := size + 1;
    var flushed;
    q, flushed, ok := FlushIfFull(store, limits, recorder, grouped[..n], newLabel, stmts, i + 1, before, p);
    if flushed {
      n, newLabel := 0, "";
    }
  }

  /** Flushes a buffer that has reached its limit. */
  method FlushIfFull(store: Store, limits: Limits, recorder: Recorder, grouped: seq<Statement>, groupedLabel: string,
                     ghost stmts: seq<Statement>, ghost to: nat, ghost before: seq<Call>, ghost p: Progress)
    returns (ghost q: Progress, flushed: bool, ok: bool)
    requires Sent(limits, store.accepts, before, stmts, p, store.calls, true)
    requires Buffers(limits, stmts, p.From(), to, grouped, groupedLabel) && grouped != []
    requires Recorded(recorder, limits, p, true)
    modifies store, recorder, recorder.parts
    ensures Sent(limits, store.accepts, before, stmts, q, store.calls, ok)
    ensures flushed == (|grouped| == Limit(limits, grouped[0]))
    ensures if flushed then q.From() == to else q == p && ok
    ensures fresh(recorder.parts - old(recorder.parts))
    ensures ok ==> Recorded(recorder, limits, q, !flushed) && (flushed ==> EndsFull(limits, q.done))
  {
    q, flushed, ok := p, |grouped| >= PhaseGroupStatementLimit(limits, grouped), true;
    if flushed {
      q, ok := FlushGroup(store, limits, recorder, grouped, groupedLabel, stmts, to, before, p);
    }
  }

  /** The last call made leaves no label to be closed. */
  predicate EndsFull(limits: Limits, calls: seq<Call>) {
    calls == [] || !Short(limits, calls[|calls| - 1])
  }

  lemma NothingToClose(limits: Limits, calls: seq<Call>)
    requires EndsFull(limits, calls)
    ensures Closed(limits, calls, true) == Closed(limits, calls, false)
  {
  }

  /** Statements before `i` have been sent or are in the buffer, which is not full. */
  ghost predicate Waiting(limits: Limits, stmts: seq<Statement>, p: Progress, i: nat, grouped: seq<Statement>, groupedLabel: string)
    requires |p.cuts| > 0
  {
    && Buffers(limits, stmts, p.From(), i, grouped, groupedLabel)
    && if grouped == [] then EndsFull(limits, p.done) else |grouped| < Limit(limits, grouped[0])
  }

  /** One statement that can be grouped: makes room for it in the buffer, and appends it. */
  method ExecuteGroupable(store: Store, limits: Limits, recorder: Recorder, grouped: array<Statement>, size: nat,
                          groupedLabel: string, stmt: Statement,
                          ghost stmts: seq<Statement>, ghost i: nat, ghost before: seq<Call>, ghost p: Progress)
    returns (ghost q: Progress, n: nat, newLabel: string, ok: bool)
    requires i < |stmts| && stmts[i] == stmt && size < grouped.Length && !ExecuteOnly(stmt)
    requires Sent(limits, store.accepts, before, stmts, p, store.calls, true)
    requires Waiting(limits, stmts, p, i, grouped[..size], groupedLabel)
    requires Recorded(recorder, limits, p, size > 0)
    modifies store, grouped, recorder, recorder.parts
    ensures Sent(limits, store.accepts, before, stmts, q, store.calls, ok)
    ensures fresh(recorder.parts - old(recorder.parts))
    ensures ok ==> n <= size + 1 && Waiting(limits, stmts, q, i + 1, grouped[..n], newLabel)
    ensures ok ==> Recorded(recorder, limits, q, n > 0)
  {
    q, n, newLabel, ok := p, size, groupedLabel, true;
    if n > 0 && Label(stmt) != newLabel {
      q, ok := FlushOtherLabel(store, limits, recorder, grouped[..n], newLabel, stmts, i, before, p);
      n, newLabel := 0, "";
    } else if n == 0 {
      NothingToClose(limits, p.done);
    }
    if ok {
      q, n, newLabel, ok := AppendGrouped(store, limits, recorder, grouped, n, newLabel, stmt, stmts, i, before, q);
    }
  }

  /** The statements before `i` have been sent and recorded, or are in the buffer. */
  ghost predicate Midway(store: Store, limits: Limits, recorder: Recorder, stmts: seq<Statement>, before: seq<Call>,
                         p: Progress, i: nat, grouped: seq<Statement>, groupedLabel: string)
    reads store, recorder, recorder.parts
  {
    && Sent(limits, store.accepts, before, stmts, p, store.calls, true)
    && Waiting(limits, stmts, p, i, grouped, groupedLabel)
    && Recorded(recorder, limits, p, grouped != [])
  }

  /** One statement of the batch. */
  method ExecuteStatement(store: Store, limits: Limits, recorder: Recorder, grouped: array<Statement>, size: nat,
                          groupedLabel: string, stmts: seq<Statement>, i: nat, ghost before: seq<Call>, ghost p: Progress)
    returns (ghost q: Progress, n: nat, newLabel: string, ok: bool)
    requires i < |stmts| && size < grouped.Length
    requires Midway(store, limits, recorder, stmts, before, p, i, grouped[..size], groupedLabel)
    modifies store, grouped, recorder, recorder.parts
    ensures fresh(recorder.parts - old(recorder.parts))
    ensures ok ==> n <= size + 1 && Midway(store, limits, recorder, stmts, before, q, i + 1, grouped[..n], newLabel)
    ensures !ok ==> Sent(limits, store.accepts, before, stmts, q, store.calls, false)
  {
    if ExecuteOnly(stmts[i]) {
      q, ok := ExecuteAlone(store, limits, recorder, stmts[i], grouped[..size], groupedLabel, stmts, i, before, p);
      n, newLabel := 0, "";
    } else {
      q, n, newLabel, ok :=
        ExecuteGroupable(store, limits, recorder, grouped, size, groupedLabel, stmts[i], stmts, i, before, p);
    }
  }

  /** Grouping as statements arrive, with statistics per label. */
  method ExecuteEntityPhaseGroup(store: Store, limits: Limits, stmts: seq<Statement>) returns (ok: bool, recorder: Recorder)
    modifies store
    ensures Ran(store.accepts, old(store.calls), Groups(limits, stmts), store.calls, ok)
    ensures ok ==> recorder.Valid() && recorder.seen == Groups(limits, stmts)
    ensures ok ==> LogMatches(recorder.summaries, FinalSummaries(limits, Groups(limits, stmts)))
  {
    ghost var before := store.calls;
    ghost var p, groupedLabel;
    var rest: seq<Statement>;
    ok, recorder, rest, p, groupedLabel := ExecuteStatements(store, limits, stmts);
    if ok {
      p, ok := FlushGroup(store, limits, recorder, rest, groupedLabel, stmts, |stmts|, before, p);
    }
    SentIsPlan(limits, store.accepts, before, stmts, p, store.calls, ok);
    if ok {
      SentIsAll(limits, stmts, p);
      recorder.CompleteAll();
    }
  }

  /** All statements of the batch in turn; `rest` is left in the buffer. */
  method ExecuteStatements(store: Store, limits: Limits, stmts: seq<Statement>)
    returns (ok: bool, recorder: Recorder, rest: seq<Statement>, ghost p: Progress, ghost restLabel: string)
    modifies store
    ensures fresh(recorder) && fresh(recorder.parts)
    ensures Sent(limits, store.accepts, old(store.calls), stmts, p, store.calls, ok)
    ensures ok ==> Buffers(limits, stmts, p.From(), |stmts|, rest, restLabel) && Recorded(recorder, limits, p, rest != [])
  {
    ghost var before := store.calls;
    recorder := new Recorder();
    p := Progress([], [0]);
    var grouped := new Statement[|stmts|];
    var n: nat := 0;                             // grouped[..n] is the buffer
    var groupedLabel := "";
    for i := 0 to |stmts|
      invariant fresh(recorder) && fresh(recorder.parts)
      invariant n <= i && Midway(store, limits, recorder, stmts, before, p, i, grouped[..n], groupedLabel)
    {
      p, n, groupedLabel, ok := ExecuteStatement(store, limits, recorder, grouped, n, groupedLabel, stmts, i, before, p);
      if !ok {
        rest, restLabel := [], "";
        return;
      }
    }
    ok, rest, restLabel := true, grouped[..n], groupedLabel;
  }

  lemma SentIsAll(limits: Limits, stmts: seq<Statement>, p: Progress)
    requires GroupedBy(limits, stmts, p.cuts, p.done) && p.From() == |stmts|
    ensures p.done == Groups(limits, stmts)
  {
    GroupedIsPrefix(limits, stmts, p.cuts, p.done);
  }
}
