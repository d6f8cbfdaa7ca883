/** The statistics objects an entity phase updates in place, and the log they are written to. */
module EntityPhaseRecorder {

  import opened Basics
  import opened GoStrings
  import opened StringSort
  import opened PhaseGroups
  import opened EntityPhaseStats

  datatype Summary = Summary(key: string, complete: bool, totals: Totals)

  /** The totals of a label's complete summaries, oldest first. */
  function CompleteEntries(summaries: seq<Summary>, key: string): seq<Totals> {
    if summaries == [] then []
    else
      var last := summaries[|summaries| - 1];
      CompleteEntries(summaries[..|summaries| - 1], key) + if last.complete && last.key == key then [last.totals] else []
  }

  lemma CompleteEntriesAppend(summaries: seq<Summary>, last: Summary, key: string)
    ensures CompleteEntries(summaries + [last], key) ==
      CompleteEntries(summaries, key) + if last.complete && last.key == key then [last.totals] else []
  {
    assert (summaries + [last])[..|summaries|] == summaries;
  }

  lemma OneRowMore(chunk: seq<Statement>, i: nat)
    requires i < |chunk|
    ensures SumRows(chunk[..i + 1]) == SumRows(chunk[..i]) + RowCount(chunk[i])
    ensures MaxRows(chunk[..i + 1]) == Max(MaxRows(chunk[..i]), RowCount(chunk[i]))
  {
    assert chunk[..i + 1][..i] == chunk[..i];
  }

  lemma OneStatement(stmt: Statement)
    ensures SumRows([stmt]) == MaxRows([stmt]) == RowCount(stmt)
  {
    assert [stmt][..0] == [];
  }

  class EntityPhaseLabelStats {
    const key: string
    var rows: nat
    var statements: nat
    var executions: nat
    var groupedChunks: nat
    var singletonStatements: nat
    var maxStatementRows: nat
    var maxExecutionRows: nat
    var loggedExecutions: nat
    var completeLogged: bool

    constructor (key: string)
      ensures this.key == key && Current() == NoTotals && loggedExecutions == 0 && !completeLogged
    {
      this.key := key;
      rows, statements, executions, groupedChunks, singletonStatements := 0, 0, 0, 0, 0;
      maxStatementRows, maxExecutionRows, loggedExecutions, completeLogged := 0, 0, 0, false;
    }

    function Current(): Totals
      reads this
    {
      Totals(rows, statements, executions, groupedChunks, singletonStatements, maxStatementRows, maxExecutionRows)
    }

    method RecordChunk(chunk: seq<Statement>)
      modifies this
      ensures Current() == if chunk == [] then old(Current()) else AddCall(old(Current()), Many(chunk))
      ensures completeLogged == old(completeLogged) && loggedExecutions == old(loggedExecutions)
    {
      if |chunk| == 0 {
        return;
      }
      executions := executions + 1;
      groupedChunks := groupedChunks + 1;
      var executionRows := RecordStatements(chunk);
      if executionRows > maxExecutionRows {
        maxExecutionRows := executionRows;
      }
    }

    /** The loop over a chunk's statements. */
    method RecordStatements(chunk: seq<Statement>) returns (executionRows: nat)
      modifies `rows, `statements, `maxStatementRows
      ensures executionRows == SumRows(chunk)
      ensures rows == old(rows) + SumRows(chunk) && statements == old(statements) + |chunk|
      ensures maxStatementRows == Max(old(maxStatementRows), MaxRows(chunk))
    {
      executionRows := 0;
      for i := 0 to |chunk|
        invariant executionRows == SumRows(chunk[..i])
        invariant rows == old(rows) + SumRows(chunk[..i]) && statements == old(statements) + i
        invariant maxStatementRows == Max(old(maxStatementRows), MaxRows(chunk[..i]))
      {
        var count := RowCount(chunk[i]);
        rows := rows + count;
        statements := statements + 1;
        executionRows := executionRows + count;
        if count > maxStatementRows {
          maxStatementRows := count;
        }
        OneRowMore(chunk, i);
      }
      assert chunk[..|chunk|] == chunk;
    }

    method RecordSingleton(stmt: Statement)
      modifies this
      ensures Current() == AddCall(old(Current()), One(stmt))
      ensures completeLogged == old(completeLogged) && loggedExecutions == old(loggedExecutions)
    {
      var count := RowCount(stmt);
      rows := rows + count;
      statements := statements + 1;
      executions := executions + 1;
      singletonStatements := singletonStatements + 1;
      if count > maxStatementRows {
        maxStatementRows := count;
      }
      if count > maxExecutionRows {
        maxExecutionRows := count;
      }
      OneStatement(stmt);
    }
  }

  /** The totals of every label seen in a sequence of calls. */
  function TotalsTable(calls: seq<Call>): map<string, Totals> {
    map k | k in Keys(calls) :: TotalsOf(calls, k)
  }

  function TotalsIn(table: map<string, Totals>, k: string): Totals {
    if k in table then table[k] else NoTotals
  }

  /** One more call changes the entry of its own key only. */
  function AddToTable(table: map<string, Totals>, call: Call): map<string, Totals> {
    table[Key(call) := AddCall(TotalsIn(table, Key(call)), call)]
  }

  lemma KeysOneMore(calls: seq<Call>)
    requires calls != []
    ensures Keys(calls) == Keys(calls[..|calls| - 1]) + {Key(calls[|calls| - 1])}
  {
    var front := calls[..|calls| - 1];
    forall i | 0 <= i < |front| ensures Key(calls[i]) in Keys(front) {
      assert front[i] == calls[i];
    }
  }

  lemma {:induction false} UnseenKey(calls: seq<Call>, k: string)
    requires k !in Keys(calls)
    ensures TotalsOf(calls, k) == NoTotals
  {
    if calls != [] {
      KeysOneMore(calls);
      UnseenKey(calls[..|calls| - 1], k);
    }
  }

  lemma EntryAppend(calls: seq<Call>, call: Call, k: string)
    requires k in Keys(calls) + {Key(call)}
    ensures TotalsOf(calls + [call], k) == AddToTable(TotalsTable(calls), call)[k]
  {
    TotalsAppend(calls, call, k);
    if k !in Keys(calls) {
      UnseenKey(calls, k);
    }
  }

  lemma TableAppend(calls: seq<Call>, call: Call)
    ensures TotalsTable(calls + [call]) == AddToTable(TotalsTable(calls), call)
  {
    var more := calls + [call];
    KeysOneMore(more);
    assert more[..|calls|] == calls;
    forall k | k in Keys(more) ensures TotalsTable(more)[k] == AddToTable(TotalsTable(calls), call)[k] {
      EntryAppend(calls, call, k);
    }
  }

  /** Each closed label has one complete summary, the others none. */
  ghost predicate LogMatches(summaries: seq<Summary>, closed: map<string, Totals>) {
    forall k {:trigger CompleteEntries(summaries, k)} :: CompleteEntries(summaries, k) == if k in closed then [closed[k]] else []
  }

  lemma RunningSummaryMatches(summaries: seq<Summary>, closed: map<string, Totals>, last: Summary)
    requires LogMatches(summaries, closed) && !last.complete
    ensures LogMatches(summaries + [last], closed)
  {
    forall k ensures CompleteEntries(summaries + [last], k) == CompleteEntries(summaries, k) {
      CompleteEntriesAppend(summaries, last, k);
    }
  }

  lemma CompleteSummaryMatches(summaries: seq<Summary>, closed: map<string, Totals>, last: Summary)
    requires LogMatches(summaries, closed) && last.complete && last.key !in closed
    ensures LogMatches(summaries + [last], closed[last.key := last.totals])
  {
    var more := closed[last.key := last.totals];
    forall k ensures CompleteEntries(summaries + [last], k) == if k in more then [more[k]] else [] {
      CompleteEntriesAppend(summaries, last, k);
      assert CompleteEntries(summaries, k) == if k in closed then [closed[k]] else [];
    }
  }

  lemma Overwrite<K, V>(m: map<K, V>, k: K, v: V, w: V)
    ensures m[k := v][k := w] == m[k := w]
  {
  }

  /** The closed labels once every label outside `left` is closed. */
  ghost function ClosedBut(closed: map<string, Totals>, totals: map<string, Totals>, left: set<string>): map<string, Totals> {
    (map k | k in totals && k !in left :: totals[k]) + closed
  }

  /** A known label is closed with its present totals, once. */
  function CloseLabel(closed: map<string, Totals>, totals: map<string, Totals>, k: string): map<string, Totals> {
    if k in totals && k !in closed then closed[k := totals[k]] else closed
  }

  /** The closed labels once these have been closed in turn ... */
  function ClosedInTurn(closed: map<string, Totals>, totals: map<string, Totals>, order: seq<string>): map<string, Totals> {
    if order == [] then closed
    else CloseLabel(ClosedInTurn(closed, totals, order[..|order| - 1]), totals, order[|order| - 1])
  }

  /** ... and the summaries written for them. */
  function SummariesInTurn(closed: map<string, Totals>, totals: map<string, Totals>, order: seq<string>): seq<Summary> {
    if order == [] then []
    else
      var front, k := order[..|order| - 1], order[|order| - 1];
      SummariesInTurn(closed, totals, front)
      + if k in totals && k !in ClosedInTurn(closed, totals, front) then [Summary(k, true, totals[k])] else []
  }

  lemma {:induction false} ClosedInTurnAt(closed: map<string, Totals>, totals: map<string, Totals>, order: seq<string>)
    ensures ClosedInTurn(closed, totals, order) == ClosedBut(closed, totals, totals.Keys - set k | k in order)
  {
    if order != [] {
      var n := |order| - 1;
      ClosedInTurnAt(closed, totals, order[..n]);
      CloseOneMore(closed, totals, totals.Keys - (set k | k in order[..n]), order[n]);
      assert order == order[..n] + [order[n]];
      assert totals.Keys - (set k | k in order) == totals.Keys - (set k | k in order[..n]) - {order[n]};
    }
  }

  lemma CloseOneMore(closed: map<string, Totals>, totals: map<string, Totals>, left: set<string>, k: string)
    ensures CloseLabel(ClosedBut(closed, totals, left), totals, k) == ClosedBut(closed, totals, left - {k})
  {
  }

  /** Labels in order give summaries in order. */
  lemma {:induction false} SummariesInOrder(closed: map<string, Totals>, totals: map<string, Totals>, order: seq<string>)
    requires Ascending(order, |order|)
    ensures var written := SummariesInTurn(closed, totals, order);
      SortedBy(written, SummaryKey()) && (written != [] ==> written[|written| - 1].key in order)
  {
    if order != [] {
      var n := |order| - 1;
      var front := SummariesInTurn(closed, totals, order[..n]);
      SummariesInOrder(closed, totals, order[..n]);
      if front != [] {
        var j :| 0 <= j < n && order[j] == front[|front| - 1].key;
        AscendingFar(order, j, n);
      }
    }
  }

  function SummaryKey(): Summary -> string {
    (summary: Summary) => summary.key
  }

  class Recorder {
    var labelStats: map<string, EntityPhaseLabelStats>
    var summaries: seq<Summary>
    ghost var seen: seq<Call>              // the executions recorded
    ghost var closed: map<string, Totals>  // what each label's complete summary said
    ghost var parts: set<EntityPhaseLabelStats>

    constructor ()
      ensures Valid() && seen == [] && closed == map[] && parts == {}
    {
      labelStats, summaries := map[], [];
      seen, closed, parts := [], map[], {};
    }

    ghost predicate Valid()
      reads this, parts
    {
      Consistent(TotalsTable(seen))
    }

    ghost predicate Consistent(totals: map<string, Totals>)
      reads `labelStats, `parts, `closed, `summaries, parts
    {
      Keeps(totals) && closed.Keys <= totals.Keys && LogMatches(summaries, closed)
    }

    /** The statistics objects hold these totals. */
    ghost predicate Keeps(totals: map<string, Totals>)
      reads `labelStats, `parts, `closed, parts
    {
      && labelStats.Keys == totals.Keys
      && (forall k {:trigger labelStats[k]} :: k in labelStats ==> labelStats[k] in parts && Matches(labelStats[k], k, totals[k], k in closed))
    }

    static ghost predicate Matches(stats: EntityPhaseLabelStats, k: string, t: Totals, logged: bool)
      reads stats
    {
      stats.key == k && stats.Current() == t && stats.completeLogged == logged
    }

    /** Writes a summary, unless it is a complete one that was written before. */
    method LogSummary(stats: EntityPhaseLabelStats, complete: bool)
      modifies `summaries, stats`loggedExecutions, stats`completeLogged
      ensures stats.Current() == old(stats.Current())
      ensures stats.completeLogged == (old(stats.completeLogged) || complete)
      ensures !complete ==> stats.loggedExecutions == stats.executions
      ensures summaries == if complete && old(stats.completeLogged) then old(summaries)
                           else old(summaries) + [Summary(stats.key, complete, stats.Current())]
    {
      if complete && stats.completeLogged {
        return;
      }
      summaries := summaries + [Summary(stats.key, complete, stats.Current())];
      stats.loggedExecutions := stats.executions;
      if complete {
        stats.completeLogged := true;
      }
    }

    /** A running summary is due every ten executions. */
    method LogRunningSummaryIfDue(stats: EntityPhaseLabelStats)
      requires LogMatches(summaries, closed)
      modifies `summaries, stats`loggedExecutions, stats`completeLogged
      ensures stats.Current() == old(stats.Current()) && stats.completeLogged == old(stats.completeLogged)
      ensures summaries == if stats.executions < old(stats.loggedExecutions) + 10 then old(summaries)
                           else old(summaries) + [Summary(stats.key, false, stats.Current())]
      ensures stats.loggedExecutions == if stats.executions < old(stats.loggedExecutions) + 10 then old(stats.loggedExecutions)
                                        else stats.executions
      ensures LogMatches(summaries, closed)
    {
      if stats.executions - stats.loggedExecutions < SUMMARY_EXECUTIONS {
        return;
      }
      RunningSummaryMatches(summaries, closed, Summary(stats.key, false, stats.Current()));
      LogSummary(stats, false);
    }

    /** The statistics of a label, created on first use. */
    method Ensure(entityLabel: string, ghost totals: map<string, Totals>) returns (stats: EntityPhaseLabelStats, k: string)
      requires Keeps(totals) && closed.Keys <= labelStats.Keys
      modifies `labelStats, `parts
      ensures k == StatsKey(TrimSpace(entityLabel))
      ensures Keeps(totals[k := TotalsIn(totals, k)]) && labelStats[k] == stats && closed.Keys <= labelStats.Keys
      ensures fresh(parts - old(parts))
    {
      k := TrimSpace(entityLabel);
      if k == "" {
        k := UNKNOWN_LABEL;
      }
      if k in labelStats {
        stats := labelStats[k];
        assert totals[k := TotalsIn(totals, k)] == totals;
      } else {
        stats := new EntityPhaseLabelStats(k);
        labelStats := labelStats[k := stats];
        parts := parts + {stats};
      }
    }

    /** Records one execution: a chunk, or an execute-only statement. */
    method Observe(call: Call)
      requires Valid() && call.Statements() != []
      modifies this, parts
      ensures Valid() && closed == old(closed)
      ensures seen == old(seen) + [call]
      ensures fresh(parts - old(parts))
    {
      ghost var totals, more := TotalsTable(seen), TotalsTable(seen + [call]);
      assert more == AddToTable(totals, call) by {
        TableAppend(seen, call);
      }
      seen := seen + [call];
      ObserveIn(call, totals, more);
    }

    method ObserveIn(call: Call, ghost totals: map<string, Totals>, ghost more: map<string, Totals>)
      requires Consistent(totals) && more == AddToTable(totals, call)
      requires call.Statements() != []
      modifies `labelStats, `parts, `summaries, parts
      ensures Consistent(more)
      ensures fresh(parts - old(parts))
    {
      TrimSpaceTwice(TextParam(call.Statements()[0], ENTITY_LABEL_KEY));
      var stats, key := Ensure(Label(call.Statements()[0]), totals);
      RecordInto(stats, call, totals[key := TotalsIn(totals, key)]);
      Overwrite(totals, key, TotalsIn(totals, key), AddCall(TotalsIn(totals, key), call));
    }

    method RecordInto(stats: EntityPhaseLabelStats, call: Call, ghost totals: map<string, Totals>)
      requires Keeps(totals) && call.Statements() != [] && LogMatches(summaries, closed)
      requires Key(call) in labelStats && labelStats[Key(call)] == stats
      modifies `summaries, stats
      ensures Keeps(totals[Key(call) := AddCall(totals[Key(call)], call)]) && LogMatches(summaries, closed)
    {
      match call {
        case Many(chunk) => stats.RecordChunk(chunk);
        case One(stmt) => stats.RecordSingleton(stmt);
      }
      LogRunningSummaryIfDue(stats);
      forall k | k in labelStats
        ensures Matches(labelStats[k], k, totals[Key(call) := AddCall(totals[Key(call)], call)][k], k in closed)
      {
        assert old(Matches(labelStats[k], k, totals[k], k in closed));
        assert k != Key(call) ==> labelStats[k] != stats;
      }
    }

    /** Writes a label's complete summary, if the label is known under that very name. */
    method Complete(k: string)
      requires Valid()
      modifies this, parts
      ensures Valid() && seen == old(seen) && parts == old(parts)
      ensures closed == CloseLabel(old(closed), TotalsTable(seen), k)
    {
      CompleteIn(k, TotalsTable(seen));
    }

    method CompleteIn(k: string, ghost totals: map<string, Totals>)
      requires Consistent(totals)
      modifies `summaries, `closed, parts
      ensures Consistent(totals)
      ensures closed == CloseLabel(old(closed), totals, k)
      ensures summaries == old(summaries) + if k in totals && k !in old(closed) then [Summary(k, true, totals[k])] else []
    {
      if k !in labelStats {
        return;
      }
      var stats := labelStats[k];
      assert Matches(stats, k, totals[k], k in closed);
      if k !in closed {
        CompleteSummaryMatches(summaries, closed, Summary(k, true, totals[k]));
        closed := closed[k := totals[k]];
      }
      LogSummary(stats, true);
      forall j | j in labelStats ensures Matches(labelStats[j], j, totals[j], j in closed) {
        assert old(Matches(labelStats[j], j, totals[j], j in closed));
        assert j != k ==> labelStats[j] != stats;
      }
    }

    /** Writes the complete summary of every label that has none yet, in order of the labels. */
    method CompleteAll()
      requires Valid()
      modifies this, parts
      ensures Valid() && seen == old(seen)
      ensures closed == ClosedBut(old(closed), TotalsTable(seen), {})
      ensures old(summaries) <= summaries && SortedBy(summaries[|old(summaries)|..], SummaryKey())
    {
      CompleteAllIn(TotalsTable(seen));
    }

    method CompleteAllIn(ghost totals: map<string, Totals>)
      requires Consistent(totals)
      modifies `summaries, `closed, parts
      ensures Consistent(totals)
      ensures closed == ClosedBut(old(closed), totals, {})
      ensures old(summaries) <= summaries && SortedBy(summaries[|old(summaries)|..], SummaryKey())
    {
      ghost var before, closedBefore := summaries, closed;
      var order := SortSet(labelStats.Keys);
      CompleteInOrder(order, totals);
      OrderingMembers(order, labelStats.Keys);
      ClosedInTurnAt(closedBefore, totals, order);
      assert totals.Keys - (set k | k in order) == {};
      SummariesInOrder(closedBefore, totals, order);
      assert summaries[|before|..] == SummariesInTurn(closedBefore, totals, order);
    }

    method CompleteInOrder(order: seq<string>, ghost totals: map<string, Totals>)
      requires Consistent(totals)
      modifies `summaries, `closed, parts
      ensures Consistent(totals)
      ensures closed == ClosedInTurn(old(closed), totals, order)
      ensures summaries == old(summaries) + SummariesInTurn(old(closed), totals, order)
    {
      ghost var before, closedBefore := summaries, closed;
      for i := 0 to |order|
        invariant Consistent(totals)
        invariant closed == ClosedInTurn(closedBefore, totals, order[..i])
        invariant summaries == before + SummariesInTurn(closedBefore, totals, order[..i])
      {
        assert order[..i + 1][..i] == order[..i];
        CompleteIn(order[i], totals);
      }
      assert order[..|order|] == order;
    }
  }
}
