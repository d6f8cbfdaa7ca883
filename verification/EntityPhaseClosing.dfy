/** When an entity phase writes each label's complete summary, and what that summary can miss. */
module EntityPhaseClosing {

  import opened StringSort
  import opened PhaseGroups
  import opened EntityPhaseStats
  import opened EntityPhaseRecorder

  /** A group that did not reach its limit, of a label with a name. */
  predicate Short(limits: Limits, call: Call) {
    call.Many? && call.stmts != [] && |call.stmts| < Limit(limits, call.stmts[0]) && Label(call.stmts[0]) != ""
  }

  /**
    What the complete summaries say once `calls` have been made; `next` tells whether a
    statement that can be grouped has arrived after them. Only that makes a short group's
    label complete, and a label is completed once.
   */
  function Closed(limits: Limits, calls: seq<Call>, next: bool): map<string, Totals> {
    if calls == [] then map[]
    else
      var last := calls[|calls| - 1];
      var before := Closed(limits, calls[..|calls| - 1], last.Many?);
      if next && Short(limits, last) && Key(last) !in before
      then before[Key(last) := TotalsOf(calls, Key(last))]
      else before
  }

  lemma ClosedAppend(limits: Limits, calls: seq<Call>, last: Call)
    ensures Closed(limits, calls + [last], false) == Closed(limits, calls, last.Many?)
  {
    assert (calls + [last])[..|calls|] == calls;
  }

  /** What the complete summaries say at the end of a batch: labels still open are completed with their totals. */
  ghost function FinalSummaries(limits: Limits, calls: seq<Call>): map<string, Totals> {
    ClosedBut(Closed(limits, calls, false), TotalsTable(calls), {})
  }

  /** Call `i` is a short group of `k` and a group follows it. */
  ghost predicate Closes(limits: Limits, calls: seq<Call>, next: bool, k: string, i: nat)
    requires i < |calls|
  {
    Short(limits, calls[i]) && Key(calls[i]) == k && (if i + 1 < |calls| then calls[i + 1].Many? else next)
  }

  lemma ClosesFront(limits: Limits, calls: seq<Call>, next: bool, k: string, i: nat)
    requires i + 1 < |calls|
    ensures var n := |calls| - 1;
      Closes(limits, calls, next, k, i) <==> Closes(limits, calls[..n], calls[n].Many?, k, i)
  {
  }

  ghost predicate SomeCloses(limits: Limits, calls: seq<Call>, next: bool, k: string) {
    exists i: nat :: i < |calls| && Closes(limits, calls, next, k, i)
  }

  lemma SomeClosesOneMore(limits: Limits, calls: seq<Call>, next: bool, k: string)
    requires calls != []
    ensures var n := |calls| - 1;
      SomeCloses(limits, calls, next, k) <==>
        SomeCloses(limits, calls[..n], calls[n].Many?, k) || Closes(limits, calls, next, k, n)
  {
    var n := |calls| - 1;
    var front := calls[..n];
    if SomeCloses(limits, front, calls[n].Many?, k) {
      var i: nat :| i < n && Closes(limits, front, calls[n].Many?, k, i);
      ClosesFront(limits, calls, next, k, i);
    }
    if SomeCloses(limits, calls, next, k) {
      var i: nat :| i < |calls| && Closes(limits, calls, next, k, i);
      if i < n {
        ClosesFront(limits, calls, next, k, i);
      }
    }
  }

  lemma {:induction false} ClosedLabel(limits: Limits, calls: seq<Call>, next: bool, k: string)
    ensures k in Closed(limits, calls, next) <==> SomeCloses(limits, calls, next, k)
    ensures k in Closed(limits, calls, next) ==> k in Keys(calls)
    decreases calls
  {
    if calls != [] {
      ClosedLabel(limits, calls[..|calls| - 1], calls[|calls| - 1].Many?, k);
      SomeClosesOneMore(limits, calls, next, k);
      KeysOneMore(calls);
    }
  }

  lemma TotalsOneMore(calls: seq<Call>, k: string)
    requires calls != []
    ensures var before, last := TotalsOf(calls[..|calls| - 1], k), calls[|calls| - 1];
      TotalsOf(calls, k) == if Key(last) == k then AddCall(before, last) else before
  {
  }

  /** Call `j` is of `k`, which call `i` before it closed. */
  ghost predicate Reopens(limits: Limits, calls: seq<Call>, k: string, i: nat, j: nat)
    requires i < j < |calls|
  {
    Closes(limits, calls, false, k, i) && Key(calls[j]) == k
  }

  ghost predicate Reopened(limits: Limits, calls: seq<Call>, k: string) {
    exists i: nat, j: nat :: i < j < |calls| && Reopens(limits, calls, k, i, j)
  }

  lemma ReopensFront(limits: Limits, calls: seq<Call>, k: string, i: nat, j: nat)
    requires i < j < |calls| - 1
    ensures Reopens(limits, calls, k, i, j) <==> Reopens(limits, calls[..|calls| - 1], k, i, j)
  {
  }

  lemma ReopenedInFront(limits: Limits, calls: seq<Call>, k: string)
    requires calls != [] && Reopened(limits, calls[..|calls| - 1], k)
    ensures Reopened(limits, calls, k)
  {
    var i: nat, j: nat :| i < j < |calls| - 1 && Reopens(limits, calls[..|calls| - 1], k, i, j);
    ReopensFront(limits, calls, k, i, j);
  }

  lemma ReopenedAtLast(limits: Limits, calls: seq<Call>, k: string)
    requires calls != [] && Key(calls[|calls| - 1]) == k
    requires SomeCloses(limits, calls[..|calls| - 1], calls[|calls| - 1].Many?, k)
    ensures Reopened(limits, calls, k)
  {
    var n := |calls| - 1;
    var i: nat :| i < n && Closes(limits, calls[..n], calls[n].Many?, k, i);
    ClosesFront(limits, calls, false, k, i);
    assert Reopens(limits, calls, k, i, n);
  }

  lemma ReopenedSomewhere(limits: Limits, calls: seq<Call>, k: string)
    requires calls != [] && Reopened(limits, calls, k)
    ensures var front, last := calls[..|calls| - 1], calls[|calls| - 1];
      Reopened(limits, front, k) || (Key(last) == k && SomeCloses(limits, front, last.Many?, k))
  {
    var n := |calls| - 1;
    var i: nat, j: nat :| i < j < |calls| && Reopens(limits, calls, k, i, j);
    if j < n {
      ReopensFront(limits, calls, k, i, j);
    } else {
      ClosesFront(limits, calls, false, k, i);
    }
  }

  lemma ReopenedOneMore(limits: Limits, calls: seq<Call>, k: string)
    requires calls != []
    ensures var front, last := calls[..|calls| - 1], calls[|calls| - 1];
      Reopened(limits, calls, k) <==>
        Reopened(limits, front, k) || (Key(last) == k && k in Closed(limits, front, last.Many?))
  {
    var front, last := calls[..|calls| - 1], calls[|calls| - 1];
    ClosedLabel(limits, front, last.Many?, k);
    if Reopened(limits, calls, k) {
      ReopenedSomewhere(limits, calls, k);
    } else if Reopened(limits, front, k) {
      ReopenedInFront(limits, calls, k);
    } else if Key(last) == k && SomeCloses(limits, front, last.Many?, k) {
      ReopenedAtLast(limits, calls, k);
    }
  }

  /** A completed label's totals are out of date exactly when it was reopened. */
  lemma {:induction false} ClosedIsStaleIff(limits: Limits, calls: seq<Call>, next: bool, k: string)
    requires k in Closed(limits, calls, next)
    ensures Closed(limits, calls, next)[k].executions <= TotalsOf(calls, k).executions
    ensures Closed(limits, calls, next)[k] == TotalsOf(calls, k) <==> !Reopened(limits, calls, k)
    decreases calls
  {
    var front, last := calls[..|calls| - 1], calls[|calls| - 1];
    TotalsOneMore(calls, k);
    ReopenedOneMore(limits, calls, k);
    if k in Closed(limits, front, last.Many?) {
      ClosedIsStaleIff(limits, front, last.Many?, k);
    } else {
      NeverClosedNeverReopened(limits, front, last.Many?, k);
    }
  }

  lemma NeverClosedNeverReopened(limits: Limits, calls: seq<Call>, next: bool, k: string)
    requires k !in Closed(limits, calls, next)
    ensures !Reopened(limits, calls, k)
  {
    ClosedLabel(limits, calls, next, k);
    if Reopened(limits, calls, k) {
      var i: nat, j: nat :| i < j < |calls| && Reopens(limits, calls, k, i, j);
      assert Closes(limits, calls, next, k, i);
    }
  }

  /**
    After a batch there is a complete summary for exactly the labels sent, and it carries the
    label's totals unless the label came back after a group of another label had closed it.
   */
  lemma SummariesExactIff(limits: Limits, calls: seq<Call>, k: string)
    ensures k in FinalSummaries(limits, calls) <==> k in Keys(calls)
    ensures k in Keys(calls) ==>
      (FinalSummaries(limits, calls)[k] == TotalsOf(calls, k) <==> !Reopened(limits, calls, k))
  {
    ClosedLabel(limits, calls, false, k);
    if k in Closed(limits, calls, false) {
      ClosedIsStaleIff(limits, calls, false, k);
    } else {
      NeverClosedNeverReopened(limits, calls, false, k);
    }
  }

  // ------------------------------------------ read off the statements of a batch

  /** Statements with the same label come together. */
  ghost predicate LabelsTogether(stmts: seq<Statement>) {
    forall x, y, z :: 0 <= x < y < z < |stmts| && Label(stmts[x]) == Label(stmts[z]) ==> Label(stmts[y]) == Label(stmts[x])
  }

  /** The name that stands for no label is not also a label with unlabelled statements after it. */
  ghost predicate UnknownIsNoLabel(stmts: seq<Statement>) {
    forall x, y :: 0 <= x < y < |stmts| && Label(stmts[x]) == UNKNOWN_LABEL ==> Label(stmts[y]) != ""
  }

  function Position(calls: seq<Call>, i: nat): nat
    requires i <= |calls|
  {
    |Flatten(calls[..i])|
  }

  lemma HeadPosition(calls: seq<Call>, i: nat)
    requires i < |calls| && calls[i].Statements() != []
    ensures Position(calls, i) < |Flatten(calls)| && Flatten(calls)[Position(calls, i)] == calls[i].Statements()[0]
  {
    assert calls == calls[..i] + calls[i..];
    FlattenConcat(calls[..i], calls[i..]);
    assert Flatten(calls[i..])[0] == calls[i].Statements()[0];
  }

  lemma LaterPosition(calls: seq<Call>, i: nat, j: nat)
    requires i < j <= |calls| && calls[i].Statements() != []
    ensures Position(calls, i) < Position(calls, j)
  {
    assert calls[..j] == calls[..i] + calls[i..j];
    FlattenConcat(calls[..i], calls[i..j]);
  }

  lemma CallsAreInOrder(limits: Limits, stmts: seq<Statement>, i: nat, j: nat) returns (x: nat, y: nat)
    requires var calls := Groups(limits, stmts); i < j < |calls|
    ensures x < y < |stmts|
    ensures var calls := Groups(limits, stmts);
      Label(stmts[x]) == CallLabel(calls[i]) && Label(stmts[y]) == CallLabel(calls[j])
    ensures x == Position(Groups(limits, stmts), i) && y == Position(Groups(limits, stmts), j)
  {
    var calls := Groups(limits, stmts);
    GroupsKeepStatements(limits, stmts);
    GroupsWellShaped(limits, stmts);
    assert WellShaped(limits, calls[i]) && WellShaped(limits, calls[j]);
    HeadPosition(calls, i);
    HeadPosition(calls, j);
    LaterPosition(calls, i, j);
    x, y := Position(calls, i), Position(calls, j);
  }

  /** What closes a label is a group of another one. */
  lemma ClosedByOther(limits: Limits, calls: seq<Call>, k: string, i: nat)
    requires i + 1 < |calls| && Closes(limits, calls, false, k, i)
    requires WellShaped(limits, calls[i + 1]) && Maximal(limits, calls[i], calls[i + 1])
    ensures CallLabel(calls[i]) == k != CallLabel(calls[i + 1])
  {
  }

  lemma GroupsClosedByOther(limits: Limits, stmts: seq<Statement>, k: string, i: nat)
    requires var calls := Groups(limits, stmts); i + 1 < |calls| && Closes(limits, calls, false, k, i)
    ensures var calls := Groups(limits, stmts); CallLabel(calls[i]) == k != CallLabel(calls[i + 1])
  {
    var calls, next := Groups(limits, stmts), i + 1;
    GroupsWellShaped(limits, stmts);
    assert Maximal(limits, calls[next - 1], calls[next]);
    assert WellShaped(limits, calls[next]);
    ClosedByOther(limits, calls, k, i);
  }

  /** A batch whose labels come together reopens none, so every complete summary is final. */
  lemma TogetherNeverReopens(limits: Limits, stmts: seq<Statement>, k: string)
    requires LabelsTogether(stmts) && UnknownIsNoLabel(stmts)
    ensures !Reopened(limits, Groups(limits, stmts), k)
  {
    if Reopened(limits, Groups(limits, stmts), k) {
      var i: nat, j: nat :| i < j < |Groups(limits, stmts)| && Reopens(limits, Groups(limits, stmts), k, i, j);
      TogetherNotReopened(limits, stmts, k, i, j);
    }
  }

  lemma TogetherNotReopened(limits: Limits, stmts: seq<Statement>, k: string, i: nat, j: nat)
    requires LabelsTogether(stmts) && UnknownIsNoLabel(stmts)
    requires i < j < |Groups(limits, stmts)|
    ensures !Reopens(limits, Groups(limits, stmts), k, i, j)
  {
    if Reopens(limits, Groups(limits, stmts), k, i, j) {
      GroupsClosedByOther(limits, stmts, k, i);
      var x, z := CallsAreInOrder(limits, stmts, i, j);
      var x', y := CallsAreInOrder(limits, stmts, i, i + 1);
      if j > i + 1 {
        var y', z' := CallsAreInOrder(limits, stmts, i + 1, j);
      }
    }
  }

  lemma TogetherIsExact(limits: Limits, stmts: seq<Statement>, k: string)
    requires LabelsTogether(stmts) && UnknownIsNoLabel(stmts)
    ensures var calls := Groups(limits, stmts);
      k in Keys(calls) ==> k in FinalSummaries(limits, calls) && FinalSummaries(limits, calls)[k] == TotalsOf(calls, k)
  {
    TogetherNeverReopens(limits, stmts, k);
    SummariesExactIff(limits, Groups(limits, stmts), k);
  }

  /** One block of statements a label, as the writer of canonical nodes emits them. */
  function Blocks(blocks: seq<seq<Statement>>): seq<Statement> {
    if blocks == [] then [] else Blocks(blocks[..|blocks| - 1]) + blocks[|blocks| - 1]
  }

  ghost predicate LabelledBy(labels: seq<string>, blocks: seq<seq<Statement>>) {
    |labels| == |blocks| && forall i, x :: 0 <= i < |blocks| && 0 <= x < |blocks[i]| ==> Label(blocks[i][x]) == labels[i]
  }

  predicate SortedLabels(labels: seq<string>) {
    forall i, j :: 0 <= i < j < |labels| ==> labels[i] != labels[j] && !Less(labels[j], labels[i])
  }

  lemma {:induction false} BlockLabels(labels: seq<string>, blocks: seq<seq<Statement>>, x: nat)
    requires LabelledBy(labels, blocks) && x < |Blocks(blocks)|
    ensures Label(Blocks(blocks)[x]) in labels
  {
    var n := |blocks| - 1;
    if x < |Blocks(blocks[..n])| {
      BlockLabels(labels[..n], blocks[..n], x);
    }
  }

  lemma OneMoreBlock(front: seq<Statement>, block: seq<Statement>, entityLabel: string)
    requires LabelsTogether(front) && UnknownIsNoLabel(front)
    requires forall x :: 0 <= x < |block| ==> Label(block[x]) == entityLabel
    requires forall x :: 0 <= x < |front| ==> Label(front[x]) != entityLabel && !Less(entityLabel, Label(front[x]))
    ensures LabelsTogether(front + block) && UnknownIsNoLabel(front + block)
  {
    assert Less("", UNKNOWN_LABEL);
  }

  /** Such batches have their labels together, so after them every complete summary is final. */
  lemma {:induction false} SortedBlocksAreTogether(labels: seq<string>, blocks: seq<seq<Statement>>)
    requires LabelledBy(labels, blocks) && SortedLabels(labels)
    ensures LabelsTogether(Blocks(blocks)) && UnknownIsNoLabel(Blocks(blocks))
  {
    if blocks != [] {
      var n := |blocks| - 1;
      var front := Blocks(blocks[..n]);
      SortedBlocksAreTogether(labels[..n], blocks[..n]);
      forall x | 0 <= x < |front| ensures Label(front[x]) != labels[n] && !Less(labels[n], Label(front[x])) {
        BlockLabels(labels[..n], blocks[..n], x);
      }
      OneMoreBlock(front, blocks[n], labels[n]);
    }
  }

  function EntityStatement(entityLabel: string): Statement {
    Statement(OtherOperation("upsert"), "", map[PHASE_KEY := Text(PHASE_ENTITIES), ENTITY_LABEL_KEY := Text(entityLabel)])
  }

  lemma EntityStatementFacts(limits: Limits, stmt: Statement, entityLabel: string)
    requires stmt == EntityStatement(entityLabel) && (entityLabel == "A" || entityLabel == "B")
    requires limits.entityStatements <= 0 && limits.labelStatements == map[]
    ensures Label(stmt) == entityLabel && !ExecuteOnly(stmt) && Limit(limits, stmt) == DEFAULT_ENTITY_PHASE_STATEMENTS
  {
    assert Phase(stmt) == PHASE_ENTITIES;
  }

  /** Labels A, B and A again: the complete summary of A misses its second group. */
  lemma SummaryMissesSecondGroup(limits: Limits)
    requires limits.entityStatements <= 0 && limits.labelStatements == map[]
    ensures var a, b := EntityStatement("A"), EntityStatement("B");
      var calls := Groups(limits, [a, b, a]);
      "A" in FinalSummaries(limits, calls) && FinalSummaries(limits, calls)["A"] != TotalsOf(calls, "A")
  {
    var a, b := EntityStatement("A"), EntityStatement("B");
    EntityStatementFacts(limits, a, "A");
    EntityStatementFacts(limits, b, "B");
    assert "A" != "B" by {
      assert "A"[0] != "B"[0];
    }
    OneByOne(limits, a, b);
    ComesBack(limits, a, b, "A");
    SummariesExactIff(limits, [Many([a]), Many([b]), Many([a])], "A");
  }

  lemma ComesBack(limits: Limits, a: Statement, b: Statement, k: string)
    requires Label(a) == k != "" && Limit(limits, a) > 1
    ensures var calls := [Many([a]), Many([b]), Many([a])];
      k in Keys(calls) && Reopened(limits, calls, k)
  {
    var calls := [Many([a]), Many([b]), Many([a])];
    assert Closes(limits, calls, false, k, 0);
    assert Reopens(limits, calls, k, 0, 2);
    assert Key(calls[0]) == k;
  }

  /** The key "unknown" stands for no label too, so a label of that name can be reopened by the very next statement. */
  lemma UnknownReopened(limits: Limits, a: Statement, b: Statement)
    requires Label(a) == UNKNOWN_LABEL && Label(b) == "" && !ExecuteOnly(a) && !ExecuteOnly(b) && Limit(limits, a) > 1
    ensures LabelsTogether([a, b]) && Reopened(limits, Groups(limits, [a, b]), UNKNOWN_LABEL)
  {
    TwoByTwo(limits, a, b);
    var calls := [Many([a]), Many([b])];
    assert Closes(limits, calls, false, UNKNOWN_LABEL, 0);
    assert Reopens(limits, calls, UNKNOWN_LABEL, 0, 1);
  }

  lemma OneAlone(limits: Limits, a: Statement)
    requires !ExecuteOnly(a)
    ensures Groups(limits, [a]) == [Many([a])]
  {
    HeadGroup(limits, a, []);
    assert [a] + [] == [a];
    assert Groups(limits, []) == [];
  }

  lemma TwoByTwo(limits: Limits, a: Statement, b: Statement)
    requires Label(a) != Label(b) && !ExecuteOnly(a) && !ExecuteOnly(b)
    ensures Groups(limits, [a, b]) == [Many([a]), Many([b])]
  {
    OneAlone(limits, b);
    HeadGroup(limits, a, [b]);
    assert [a] + [b] == [a, b];
  }

  lemma OneByOne(limits: Limits, a: Statement, b: Statement)
    requires Label(a) != Label(b) && !ExecuteOnly(a) && !ExecuteOnly(b)
    ensures Groups(limits, [a, b, a]) == [Many([a]), Many([b]), Many([a])]
  {
    TwoByTwo(limits, b, a);
    HeadGroup(limits, a, [b, a]);
    assert [a] + [b, a] == [a, b, a];
  }
}
