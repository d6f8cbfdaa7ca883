/** Per-label totals of an entity phase, and the summaries that are logged from them. */
module EntityPhaseStats {

  import opened Basics
  import opened Counting
  import opened PhaseGroups

  const UNKNOWN_LABEL := "unknown"
  const SUMMARY_EXECUTIONS: nat := 10

  /** Rows a statement writes. */
  function RowCount(stmt: Statement): nat {
    if "rows" in stmt.parameters && stmt.parameters["rows"].Rows? then stmt.parameters["rows"].count
    else if "entity_id" in stmt.parameters then 1 else 0
  }

  function SumRows(stmts: seq<Statement>): nat {
    if stmts == [] then 0 else SumRows(stmts[..|stmts| - 1]) + RowCount(stmts[|stmts| - 1])
  }

  function MaxRows(stmts: seq<Statement>): nat {
    if stmts == [] then 0 else Max(MaxRows(stmts[..|stmts| - 1]), RowCount(stmts[|stmts| - 1]))
  }

  /** The key of a label in the statistics. */
  function StatsKey(entityLabel: string): string {
    if entityLabel == "" then UNKNOWN_LABEL else entityLabel
  }

  function CallLabel(call: Call): string {
    if call.Statements() == [] then "" else Label(call.Statements()[0])
  }

  function Key(call: Call): string {
    StatsKey(CallLabel(call))
  }

  datatype Totals = Totals(
    rows: nat, statements: nat, executions: nat, groupedChunks: nat, singletons: nat,
    maxStatementRows: nat, maxExecutionRows: nat)

  const NoTotals := Totals(0, 0, 0, 0, 0, 0, 0)

  function AddCall(t: Totals, call: Call): Totals {
    var stmts := call.Statements();
    Totals(t.rows + SumRows(stmts), t.statements + |stmts|, t.executions + 1,
           t.groupedChunks + (if call.Many? then 1 else 0), t.singletons + (if call.One? then 1 else 0),
           Max(t.maxStatementRows, MaxRows(stmts)), Max(t.maxExecutionRows, SumRows(stmts)))
  }

  /** The totals of one label over a sequence of calls. */
  function TotalsOf(calls: seq<Call>, key: string): Totals {
    if calls == [] then NoTotals
    else
      var before := TotalsOf(calls[..|calls| - 1], key);
      var last := calls[|calls| - 1];
      if Key(last) == key then AddCall(before, last) else before
  }

  function Keys(calls: seq<Call>): set<string> {
    set i | 0 <= i < |calls| :: Key(calls[i])
  }

  // ------------------------------------------------------ what the totals mean

  function IsMine(key: string): Statement -> bool {
    (stmt: Statement) => StatsKey(Label(stmt)) == key
  }

  /** The statements of a batch that count towards a key. */
  function KeyStatements(stmts: seq<Statement>, key: string): seq<Statement> {
    Filter(stmts, IsMine(key))
  }

  lemma {:induction false} SumRowsConcat(a: seq<Statement>, b: seq<Statement>)
    ensures SumRows(a + b) == SumRows(a) + SumRows(b)
  {
    if b == [] {
      assert a + b == a;
    } else {
      var front := b[..|b| - 1];
      SumRowsConcat(a, front);
      assert (a + b)[..|a + b| - 1] == a + front;
    }
  }

  lemma {:induction false} MaxRowsBound(stmts: seq<Statement>)
    ensures MaxRows(stmts) <= SumRows(stmts)
  {
    if stmts != [] {
      MaxRowsBound(stmts[..|stmts| - 1]);
    }
  }

  /** All statements of the call share its label. */
  ghost predicate OneLabel(call: Call) {
    forall i :: 0 <= i < |call.Statements()| ==> Label(call.Statements()[i]) == CallLabel(call)
  }

  lemma {:induction false} FlattenConcat(a: seq<Call>, b: seq<Call>)
    ensures Flatten(a + b) == Flatten(a) + Flatten(b)
  {
    if a == [] {
      assert a + b == b;
    } else {
      calc {
        Flatten(a + b);
        { assert (a + b)[1..] == a[1..] + b; }
        a[0].Statements() + Flatten(a[1..] + b);
        { FlattenConcat(a[1..], b); }
        a[0].Statements() + (Flatten(a[1..]) + Flatten(b));
        { Associate(a[0].Statements(), Flatten(a[1..]), Flatten(b)); }
        Flatten(a) + Flatten(b);
      }
    }
  }

  /** What a label's totals say about the statements that were sent. */
  ghost predicate TotalsMeaning(t: Totals, mine: seq<Statement>) {
    && t.rows == SumRows(mine)
    && t.statements == |mine|
    && t.executions == t.groupedChunks + t.singletons
    && t.maxStatementRows == MaxRows(mine)
    && t.maxStatementRows <= t.maxExecutionRows <= t.rows
  }

  lemma {:induction false} MaxRowsConcat(a: seq<Statement>, b: seq<Statement>)
    ensures MaxRows(a + b) == Max(MaxRows(a), MaxRows(b))
  {
    if b == [] {
      assert a + b == a;
    } else {
      var front := b[..|b| - 1];
      MaxRowsConcat(a, front);
      assert (a + b)[..|a + b| - 1] == a + front;
    }
  }

  lemma AddKeepsMeaning(t: Totals, mine: seq<Statement>, call: Call)
    requires TotalsMeaning(t, mine)
    ensures TotalsMeaning(AddCall(t, call), mine + call.Statements())
  {
    SumRowsConcat(mine, call.Statements());
    MaxRowsConcat(mine, call.Statements());
    MaxRowsBound(call.Statements());
  }

  ghost predicate ExactTotals(calls: seq<Call>, key: string) {
    TotalsMeaning(TotalsOf(calls, key), KeyStatements(Flatten(calls), key))
  }

  lemma NoCallsExact(key: string)
    ensures ExactTotals([], key)
  {
  }

  /** Rows, statements, executions and maxima of a label are those of its own statements. */
  lemma {:induction false} TotalsAreExact(calls: seq<Call>, key: string)
    requires forall i :: 0 <= i < |calls| ==> OneLabel(calls[i])
    ensures ExactTotals(calls, key)
  {
    if calls == [] {
      NoCallsExact(key);
    } else {
      var front, last := calls[..|calls| - 1], calls[|calls| - 1];
      assert calls == front + [last];
      TotalsAreExact(front, key);
      OneMoreCall(front, last, key);
    }
  }

  lemma TotalsAppend(front: seq<Call>, last: Call, key: string)
    ensures TotalsOf(front + [last], key) ==
      if Key(last) == key then AddCall(TotalsOf(front, key), last) else TotalsOf(front, key)
  {
    assert (front + [last])[..|front|] == front;
  }

  lemma OneMoreCall(front: seq<Call>, last: Call, key: string)
    requires ExactTotals(front, key) && OneLabel(last)
    ensures ExactTotals(front + [last], key)
  {
    TotalsAppend(front, last, key);
    LastCallStatements(front, last, key);
    AddKeepsMeaning(TotalsOf(front, key), KeyStatements(Flatten(front), key), last);
  }

  lemma LastCallStatements(front: seq<Call>, last: Call, key: string)
    requires OneLabel(last)
    ensures KeyStatements(Flatten(front + [last]), key) ==
      if Key(last) == key then KeyStatements(Flatten(front), key) + last.Statements() else KeyStatements(Flatten(front), key)
  {
    FlattenConcat(front, [last]);
    assert Flatten([last]) == last.Statements() + Flatten([last][1..]);
    assert Flatten([last]) == last.Statements();
    FilterConcat(Flatten(front), last.Statements(), IsMine(key));
    FilterAll(last.Statements(), IsMine(key), Key(last) == key);
    assert KeyStatements(Flatten(front), key) + [] == KeyStatements(Flatten(front), key);
  }

  /** After an entity phase, each label's totals are those of its statements in the batch. */
  lemma PhaseTotals(limits: Limits, stmts: seq<Statement>, key: string)
    ensures TotalsMeaning(TotalsOf(Groups(limits, stmts), key), KeyStatements(stmts, key))
  {
    GroupsKeepStatements(limits, stmts);
    GroupsWellShaped(limits, stmts);
    var calls := Groups(limits, stmts);
    forall i | 0 <= i < |calls| ensures OneLabel(calls[i]) {
      assert WellShaped(limits, calls[i]);
    }
    TotalsAreExact(calls, key);
  }

  /** A statement with a list of rows writes all of them, one without a list writes a row if it has an entity_id. */
  predicate WritesRows(stmt: Statement, n: nat) {
    || ("rows" in stmt.parameters && stmt.parameters["rows"] == Rows(n))
    || (("rows" in stmt.parameters ==> !stmt.parameters["rows"].Rows?) && n == if "entity_id" in stmt.parameters then 1 else 0)
  }

  lemma {:induction false} RowsPerStatement(stmts: seq<Statement>, n: nat)
    requires forall i :: 0 <= i < |stmts| ==> WritesRows(stmts[i], n)
    ensures SumRows(stmts) == n * |stmts| && MaxRows(stmts) == if stmts == [] then 0 else n
  {
    if stmts != [] {
      RowsPerStatement(stmts[..|stmts| - 1], n);
    }
  }

  /** When every statement of a phase writes as many rows, a label's rows are that many for each of its statements. */
  lemma EvenPhaseRows(limits: Limits, stmts: seq<Statement>, key: string, n: nat)
    requires forall i :: 0 <= i < |stmts| ==> WritesRows(stmts[i], n)
    ensures var t, mine := TotalsOf(Groups(limits, stmts), key), KeyStatements(stmts, key);
      t.statements == |mine| && t.rows == n * |mine| && t.maxStatementRows == if mine == [] then 0 else n
  {
    PhaseTotals(limits, stmts, key);
    FilterIsPart(stmts, IsMine(key));
    var mine := KeyStatements(stmts, key);
    forall i | 0 <= i < |mine| ensures WritesRows(mine[i], n) {
      assert mine[i] in stmts;
    }
    RowsPerStatement(mine, n);
  }

  function OfKey(key: string): Call -> bool {
    (call: Call) => Key(call) == key
  }

  function Grouped(grouped: bool): Call -> bool {
    (call: Call) => call.Many? == grouped
  }

  /** The execution counters and the largest execution, read off a label's calls. */
  ghost predicate CountsCalls(t: Totals, own: seq<Call>) {
    && t.executions == |own|
    && t.groupedChunks == |Filter(own, Grouped(true))| && t.singletons == |Filter(own, Grouped(false))|
    && (forall call :: call in own ==> SumRows(call.Statements()) <= t.maxExecutionRows)
    && (t.maxExecutionRows == 0 || exists call :: call in own && SumRows(call.Statements()) == t.maxExecutionRows)
  }

  lemma OneMoreCounted(t: Totals, own: seq<Call>, call: Call)
    requires CountsCalls(t, own)
    ensures CountsCalls(AddCall(t, call), own + [call])
  {
    FilterConcat(own, [call], Grouped(true));
    FilterConcat(own, [call], Grouped(false));
    OneFiltered(call, Grouped(true));
    OneFiltered(call, Grouped(false));
    assert (own + [call])[|own|] == call;
    if call0 :| call0 in own && SumRows(call0.Statements()) == t.maxExecutionRows {
      assert call0 in own + [call];
    }
  }

  lemma OneFiltered(call: Call, keep: Call -> bool)
    ensures Filter([call], keep) == if keep(call) then [call] else []
  {
    assert [call][1..] == [];
  }

  /** A label's executions, chunks and singletons are those of its calls, and the largest execution is one of them. */
  lemma {:induction false} TotalsCountCalls(calls: seq<Call>, key: string)
    ensures CountsCalls(TotalsOf(calls, key), Filter(calls, OfKey(key)))
  {
    if calls != [] {
      var front, last := calls[..|calls| - 1], calls[|calls| - 1];
      assert calls == front + [last];
      TotalsCountCalls(front, key);
      TotalsAppend(front, last, key);
      FilterConcat(front, [last], OfKey(key));
      OneFiltered(last, OfKey(key));
      assert Filter(front, OfKey(key)) + [] == Filter(front, OfKey(key));
      if Key(last) == key {
        OneMoreCounted(TotalsOf(front, key), Filter(front, OfKey(key)), last);
      }
    }
  }
}
