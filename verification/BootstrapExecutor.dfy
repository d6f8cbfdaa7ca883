/** The bootstrap command's phase-group executor. */
module BootstrapExecutor {

  import opened GoStrings
  import opened PhaseGroups
  import opened GraphStores
  import opened GroupingProgress

  function StatementPhase(stmts: seq<Statement>): string {
    if stmts == [] then "" else TrimSpace(TextParam(stmts[0], PHASE_KEY))
  }

  function PhaseGroupStatementLimit(limits: Limits, stmts: seq<Statement>): (n: nat)
    requires stmts != []
    ensures n == Limit(limits, stmts[0]) && n > 0
  {
    var phase := StatementPhase(stmts);
    if phase == PHASE_FILES then
      PositiveOrDefault(limits.fileStatements, DEFAULT_FILE_PHASE_STATEMENTS)
    else if phase == PHASE_ENTITIES || phase == PHASE_ENTITY_CONTAINMENT then
      var entityLabel := Label(stmts[0]);
      if entityLabel != "" && entityLabel in limits.labelStatements && limits.labelStatements[entityLabel] > 0
      then limits.labelStatements[entityLabel]
      else PositiveOrDefault(limits.entityStatements, DEFAULT_ENTITY_PHASE_STATEMENTS)
    else
      PositiveOrDefault(limits.statements, DEFAULT_PHASE_STATEMENTS)
  }

  method AllUseRetract(stmts: seq<Statement>) returns (all: bool)
    ensures all == AllRetract(stmts)
  {
    for i := 0 to |stmts|
      invariant forall j :: 0 <= j < i ==> stmts[j].operation.CanonicalRetract?
    {
      if !stmts[i].operation.CanonicalRetract? {
        return false;
      }
    }
    return |stmts| > 0;
  }

  /** A batch of any kind: its plan is run up to the first failing call. */
  method ExecutePhaseGroup(store: Store?, limits: Limits, stmts: seq<Statement>) returns (ok: bool)
    modifies store
    ensures store == null ==> ok
    ensures store != null ==>
      Ran(store.accepts, old(store.calls), BootstrapPlan(limits, store.grouping, stmts), store.calls, ok)
  {
    if |stmts| == 0 || store == null {
      return true;
    }
    var allRetract := AllUseRetract(stmts);
    if allRetract {
      ok := ExecuteSequentially(store, stmts);
      return;
    }
    if !store.grouping {
      ok := ExecuteSequentially(store, stmts);
      return;
    }
    ghost var before := store.calls;
    ghost var p;
    ok, p := ExecuteGroupedByLabel(store, limits, stmts);
    SentIsPlan(limits, store.accepts, before, stmts, p, store.calls, ok);
  }

  /** One Execute per statement, stopping at the first failure. */
  method ExecuteSequentially(store: Store, stmts: seq<Statement>) returns (ok: bool)
    modifies store
    ensures Ran(store.accepts, old(store.calls), Singles(stmts), store.calls, ok)
  {
    ghost var before := store.calls;
    for i := 0 to |stmts|
      invariant Ran(store.accepts, before, Singles(stmts[..i]), store.calls, true)
    {
      ghost var mid := store.calls;
      var sanitized := SanitizeStatement(stmts[i]);
      ok := store.Execute(sanitized);
      SinglesStep(store.accepts, before, stmts, i, mid, store.calls, ok);
      if !ok {
        return false;
      }
    }
    assert stmts[..|stmts|] == stmts;
    return true;
  }

  /** Consecutive chunks of at most `size` statements, stopping at the first failure. */
  method ExecuteGroupedChunks(store: Store, stmts: seq<Statement>, size: nat) returns (ok: bool)
    requires size > 0
    modifies store
    ensures Ran(store.accepts, old(store.calls), Chunks(stmts, size), store.calls, ok)
  {
    ghost var before := store.calls;
    ghost var done := [];
    NoChunkYet(store.accepts, before, stmts, size);
    var start := 0;
    while start < |stmts|
      invariant 0 <= start
      invariant ChunkedTo(store.accepts, before, stmts, size, start, done, store.calls)
    {
      var end := start + size;
      if end > |stmts| {
        end := |stmts|;
      }
      ghost var mid := store.calls;
      var chunk := SanitizeChunk(stmts[start..end]);
      ok := store.ExecuteGroup(chunk);
      NextChunk(store.accepts, before, stmts, size, start, end, done, mid, store.calls, ok);
      if !ok {
        return false;
      }
      done := done + [Many(stmts[start..end])];
      start := start + size;
    }
    LastChunk(store.accepts, before, stmts, size, start, done, store.calls);
    return true;
  }

  /** Sends the buffer, if there is anything in it, as the next group. */
  method FlushGroup(store: Store, limits: Limits, grouped: seq<Statement>, ghost groupedLabel: string,
                    ghost stmts: seq<Statement>, ghost to: nat, ghost before: seq<Call>, ghost p: Progress)
    returns (ghost q: Progress, ok: bool)
    requires Sent(limits, store.accepts, before, stmts, p, store.calls, true)
    requires Buffers(limits, stmts, p.From(), to, grouped, groupedLabel)
    requires grouped != [] ==> Due(limits, stmts, to, grouped)
    modifies store
    ensures Sent(limits, store.accepts, before, stmts, q, store.calls, ok) && q.From() == to
  {
    q := p;
    if |grouped| == 0 {
      return q, true;
    }
    ghost var mid := store.calls;
    DueBufferIsGroup(limits, stmts, p.From(), to, grouped, groupedLabel);
    ok := ExecuteGroupedChunks(store, grouped, PhaseGroupStatementLimit(limits, grouped));
    SendOne(limits, store.accepts, before, stmts, p, to, mid, Many(grouped), store.calls, ok);
    q := p.Add(Many(grouped), to);
  }

  /** Sends an execute-only statement when the buffer is empty. */
  method ExecuteSingleton(store: Store, limits: Limits, stmt: Statement,
                          ghost stmts: seq<Statement>, ghost i: nat, ghost before: seq<Call>, ghost p: Progress)
    returns (ghost q: Progress, ok: bool)
    requires i < |stmts| && stmts[i] == stmt && ExecuteOnly(stmt)
    requires Sent(limits, store.accepts, before, stmts, p, store.calls, true) && p.From() == i
    modifies store
    ensures q == p.Add(One(stmt), i + 1)
    ensures Sent(limits, store.accepts, before, stmts, q, store.calls, ok)
  {
    ghost var mid := store.calls;
    var sanitized := SanitizeStatement(stmt);
    ok := store.Execute(sanitized);
    RanOne(store.accepts, mid, One(stmt));
    SendOne(limits, store.accepts, before, stmts, p, i + 1, mid, One(stmt), store.calls, ok);
    q := p.Add(One(stmt), i + 1);
  }

  /** Flushes the buffer and sends one execute-only statement after it. */
  method ExecuteAlone(store: Store, limits: Limits, stmt: Statement, grouped: seq<Statement>, ghost groupedLabel: string,
                      ghost stmts: seq<Statement>, ghost i: nat, ghost before: seq<Call>, ghost p: Progress)
    returns (ghost q: Progress, ok: bool)
    requires i < |stmts| && stmts[i] == stmt && ExecuteOnly(stmt)
    requires Sent(limits, store.accepts, before, stmts, p, store.calls, true)
    requires Buffers(limits, stmts, p.From(), i, grouped, groupedLabel)
    modifies store
    ensures Sent(limits, store.accepts, before, stmts, q, store.calls, ok)
    ensures ok ==> q.From() == i + 1
  {
    q, ok := FlushGroup(store, limits, grouped, groupedLabel, stmts, i, before, p);
    if ok {
      q, ok := ExecuteSingleton(store, limits, stmt, stmts, i, before, q);
    }
  }

  /** Flushes a buffer that has reached its limit. */
  method FlushIfFull(store: Store, limits: Limits, grouped: seq<Statement>, groupedLabel: string,
                     ghost stmts: seq<Statement>, ghost to: nat, ghost before: seq<Call>, ghost p: Progress)
    returns (ghost q: Progress, flushed: bool, ok: bool)
    requires Sent(limits, store.accepts, before, stmts, p, store.calls, true)
    requires Buffers(limits, stmts, p.From(), to, grouped, groupedLabel) && grouped != []
    modifies store
    ensures Sent(limits, store.accepts, before, stmts, q, store.calls, ok)
    ensures flushed == (|grouped| == Limit(limits, grouped[0]))
    ensures if flushed then q.From() == to else q == p && ok
  {
    q, flushed, ok := p, |grouped| >= PhaseGroupStatementLimit(limits, grouped), true;
    if flushed {
      q, ok := FlushGroup(store, limits, grouped, groupedLabel, stmts, to, before, p);
    }
  }

  /** Appends a statement that fits to the buffer, and flushes a buffer that has reached its limit. */
  method AppendGrouped(store: Store, limits: Limits, grouped: array<Statement>, size: nat, groupedLabel: string,
                       stmt: Statement, ghost stmts: seq<Statement>, ghost i: nat, ghost before: seq<Call>, ghost p: Progress)
    returns (ghost q: Progress, n: nat, newLabel: string, ok: bool)
    requires i < |stmts| && stmts[i] == stmt && size < grouped.Length
    requires Sent(limits, store.accepts, before, stmts, p, store.calls, true)
    requires Buffers(limits, stmts, p.From(), i, grouped[..size], groupedLabel)
    requires size > 0 ==> size < Limit(limits, grouped[0])
    requires !ExecuteOnly(stmt) && (size > 0 ==> Label(stmt) == groupedLabel)
    modifies store, grouped
    ensures Sent(limits, store.accepts, before, stmts, q, store.calls, ok)
    ensures ok ==> n <= size + 1 && Buffers(limits, stmts, q.From(), i + 1, grouped[..n], newLabel)
    ensures ok ==> n > 0 ==> n < Limit(limits, grouped[0])
  {
    newLabel := AppendToBuffer(limits, grouped, size, groupedLabel, stmt, stmts, p.From(), i);
    n := size + 1;
    var flushed;
    q, flushed, ok := FlushIfFull(store, limits, grouped[..n], newLabel, stmts, i + 1, before, p);
    if flushed {
      n, newLabel := 0, "";
    }
  }

  /** Grouping as statements arrive, in one reused buffer that is flushed at its limit. */
  method ExecuteGroupedByLabel(store: Store, limits: Limits, stmts: seq<Statement>) returns (ok: bool, ghost p: Progress)
    modifies store
    ensures Sent(limits, store.accepts, old(store.calls), stmts, p, store.calls, ok)
    ensures ok ==> p.From() == |stmts|
  {
    ghost var before := store.calls;
    p := Progress([], [0]);
    var grouped := new Statement[|stmts|];
    var n: nat := 0;                             // grouped[..n] is the buffer
    var groupedLabel := "";
    for i := 0 to |stmts|
      invariant Sent(limits, store.accepts, before, stmts, p, store.calls, true)
      invariant n <= i && Buffers(limits, stmts, p.From(), i, grouped[..n], groupedLabel)
      invariant n > 0 ==> n < Limit(limits, grouped[0])
    {
      var stmt := stmts[i];
      if ExecuteOnly(stmt) {
        p, ok := ExecuteAlone(store, limits, stmt, grouped[..n], groupedLabel, stmts, i, before, p);
        if !ok { return; }
        n, groupedLabel := 0, "";
        continue;
      }
      var entityLabel := Label(stmt);
      if n > 0 && groupedLabel != entityLabel {
        p, ok := FlushGroup(store, limits, grouped[..n], groupedLabel, stmts, i, before, p);
        if !ok { return; }
        n, groupedLabel := 0, "";
      }
      p, n, groupedLabel, ok := AppendGrouped(store, limits, grouped, n, groupedLabel, stmt, stmts, i, before, p);
      if !ok { return; }
    }
    p, ok := FlushGroup(store, limits, grouped[..n], groupedLabel, stmts, |stmts|, before, p);
  }
}
