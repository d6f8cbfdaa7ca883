/** How large the groups of a phase are, read off the configured limits and the statements' own parameters. */
module PhaseGroupLimits {

  import opened Basics
  import opened GoStrings
  import opened PhaseGroups

  /** The statement's trimmed text under `key`; a parameter that is missing or no text reads as "". */
  predicate Reads(stmt: Statement, key: string, text: string) {
    if key in stmt.parameters && stmt.parameters[key].Text? then TrimSpace(stmt.parameters[key].s) == text else text == ""
  }

  /** `n` is the configured value if that is positive, and the fallback otherwise. */
  predicate Configured(value: int, fallback: nat, n: nat) {
    n == if value > 0 then value else fallback
  }

  predicate InEntityPhase(stmt: Statement) {
    Reads(stmt, "_pcg_phase", "entities") || Reads(stmt, "_pcg_phase", "entity_containment")
  }

  /** The limit configured for what a group's first statement is. */
  ghost predicate Caps(limits: Limits, head: Statement, n: nat) {
    || (Reads(head, "_pcg_phase", "files") && Configured(limits.fileStatements, 5, n))
    || (InEntityPhase(head) && exists l: string :: LabelCaps(limits, head, l, n))
    || (!Reads(head, "_pcg_phase", "files") && !InEntityPhase(head) && Configured(limits.statements, 500, n))
  }

  /** The limit of the entity label, where one is configured, comes before the limit of all labels. */
  predicate LabelCaps(limits: Limits, head: Statement, l: string, n: nat) {
    && Reads(head, "_pcg_entity_label", l)
    && if l != "" && l in limits.labelStatements && limits.labelStatements[l] > 0 then n == limits.labelStatements[l]
       else Configured(limits.entityStatements, 25, n)
  }

  /** Two statements that a group can hold together. */
  ghost predicate Together(a: Statement, b: Statement) {
    && !Reads(a, "_pcg_phase_group_mode", "execute_only") && !Reads(b, "_pcg_phase_group_mode", "execute_only")
    && exists l: string :: Reads(a, "_pcg_entity_label", l) && Reads(b, "_pcg_entity_label", l)
  }

  lemma ReadsIff(stmt: Statement)
    ensures forall l: string :: Reads(stmt, PHASE_KEY, l) <==> Phase(stmt) == l
    ensures forall l: string :: Reads(stmt, ENTITY_LABEL_KEY, l) <==> Label(stmt) == l
    ensures Reads(stmt, PHASE_GROUP_MODE_KEY, MODE_EXECUTE_ONLY) <==> ExecuteOnly(stmt)
  {
    assert TrimSpace("") == "";
    assert MODE_EXECUTE_ONLY != "";
  }

  lemma CapsIff(limits: Limits, head: Statement, n: nat)
    ensures Caps(limits, head, n) <==> Limit(limits, head) == n
  {
    ReadsIff(head);
    assert PHASE_FILES[0] == 'f' && PHASE_ENTITIES[0] == 'e' && PHASE_ENTITY_CONTAINMENT[0] == 'e';
    if InEntityPhase(head) && Limit(limits, head) == n {
      assert LabelCaps(limits, head, Label(head), n);
    }
  }

  lemma TogetherIff(a: Statement, b: Statement)
    ensures Together(a, b) <==> !ExecuteOnly(a) && !ExecuteOnly(b) && Label(a) == Label(b)
  {
    ReadsIff(a);
    ReadsIff(b);
    assert Reads(a, "_pcg_entity_label", Label(a));
  }

  // -------------------------------------------------------------- the groups

  /** A call of a grouping that is followed by `rest`: as many statements as its cap allows and as can be together. */
  ghost predicate FullGroup(limits: Limits, call: Call, rest: seq<Statement>) {
    match call
    case One(stmt) => Reads(stmt, "_pcg_phase_group_mode", "execute_only")
    case Many(group) =>
      && group != []
      && (forall i :: 0 <= i < |group| ==> Together(group[0], group[i]))
      && forall n: nat :: Caps(limits, group[0], n) ==> |group| <= n && (|group| < n && rest != [] ==> !Together(group[0], rest[0]))
  }

  /** Every call of the grouping is full, given the statements that come after it. */
  lemma {:induction false} GroupsAreFull(limits: Limits, stmts: seq<Statement>, k: nat)
    requires k < |Groups(limits, stmts)|
    ensures var calls := Groups(limits, stmts); FullGroup(limits, calls[k], Flatten(calls[k + 1..]))
  {
    var calls := Groups(limits, stmts);
    var n := if ExecuteOnly(stmts[0]) then 1 else GroupSize(limits, stmts);
    var rest := Groups(limits, stmts[n..]);
    assert calls[1..] == rest;
    if k > 0 {
      GroupsAreFull(limits, stmts[n..], k - 1);
      assert calls[k + 1..] == rest[k..];
    } else {
      GroupsKeepStatements(limits, stmts[n..]);
      FirstIsFull(limits, stmts);
    }
  }

  lemma FirstIsFull(limits: Limits, stmts: seq<Statement>)
    requires stmts != []
    ensures ExecuteOnly(stmts[0]) ==> FullGroup(limits, One(stmts[0]), stmts[1..])
    ensures !ExecuteOnly(stmts[0]) ==>
      var n := GroupSize(limits, stmts); FullGroup(limits, Many(stmts[..n]), stmts[n..])
  {
    ReadsIff(stmts[0]);
    if !ExecuteOnly(stmts[0]) {
      var n := GroupSize(limits, stmts);
      forall i | 0 <= i < n ensures Together(stmts[0], stmts[i]) {
        TogetherIff(stmts[0], stmts[i]);
      }
      forall m: nat | Caps(limits, stmts[0], m) ensures n <= m && (n < m && n < |stmts| ==> !Together(stmts[0], stmts[n])) {
        CapsIff(limits, stmts[0], m);
        if n < |stmts| {
          TogetherIff(stmts[0], stmts[n]);
        }
      }
    }
  }

  /** Statements have one cap, and it is positive. */
  lemma OneCap(limits: Limits, head: Statement) returns (n: nat)
    ensures n > 0 && forall m: nat :: Caps(limits, head, m) <==> m == n
  {
    n := Limit(limits, head);
    forall m: nat ensures Caps(limits, head, m) <==> m == n {
      CapsIff(limits, head, m);
    }
  }

  // --------------------------------------------------------------- the plans

  /** In both plans of an entity batch, and in the bootstrap plan of any other, every call is a full group. */
  lemma PlannedGroupsAreFull(limits: Limits, stmts: seq<Statement>)
    requires exists i :: 0 <= i < |stmts| && !stmts[i].operation.CanonicalRetract?
    ensures var calls := BootstrapPlan(limits, true, stmts);
      calls == Groups(limits, stmts)
      && forall k :: 0 <= k < |calls| ==> FullGroup(limits, calls[k], Flatten(calls[k + 1..]))
    ensures InEntityPhase(stmts[0]) ==> IngesterPlan(limits, true, stmts) == BootstrapPlan(limits, true, stmts)
  {
    var calls := Groups(limits, stmts);
    assert calls == BootstrapPlan(limits, true, stmts);
    forall k | 0 <= k < |calls| ensures FullGroup(limits, calls[k], Flatten(calls[k + 1..])) {
      GroupsAreFull(limits, stmts, k);
    }
    ReadsIff(stmts[0]);
  }

  /** Groups of `n` statements, and of at most that many at the end. */
  predicate AllSized(calls: seq<Call>, n: nat) {
    forall k :: 0 <= k < |calls| ==>
      calls[k].Many? && 0 < |calls[k].stmts| <= n && (k < |calls| - 1 ==> |calls[k].stmts| == n)
  }

  /** Outside the entity phases the ingester's groups have the size configured for the batch's first statement, but for the last. */
  lemma IngesterChunkSizes(limits: Limits, stmts: seq<Statement>, n: nat)
    requires exists i :: 0 <= i < |stmts| && !stmts[i].operation.CanonicalRetract?
    requires !InEntityPhase(stmts[0]) && Caps(limits, stmts[0], n)
    ensures AllSized(IngesterPlan(limits, true, stmts), n)
  {
    ReadsIff(stmts[0]);
    CapsIff(limits, stmts[0], n);
    ChunkSizes(stmts, n);
  }

  lemma {:induction false} ChunkSizes(stmts: seq<Statement>, n: nat)
    requires n > 0
    ensures AllSized(Chunks(stmts, n), n)
  {
    if |stmts| > n {
      ChunkSizes(stmts[n..], n);
      assert Chunks(stmts, n) == [Many(stmts[..n])] + Chunks(stmts[n..], n);
    }
  }

  /** A batch of retracts, or any batch for a store that takes no groups, goes out one statement at a time. */
  lemma StatementsGoAlone(limits: Limits, grouping: bool, stmts: seq<Statement>)
    requires !grouping || forall i :: 0 <= i < |stmts| ==> stmts[i].operation == CanonicalRetract
    ensures IngesterPlan(limits, grouping, stmts) == BootstrapPlan(limits, grouping, stmts)
    ensures var calls := BootstrapPlan(limits, grouping, stmts);
      |calls| == |stmts| && forall i :: 0 <= i < |stmts| ==> calls[i] == One(stmts[i])
  {
  }

  /** What reaches the store of a statement: everything but the parameters whose names start with an underscore. */
  lemma SanitizedKeeps(stmt: Statement)
    ensures Sanitized(stmt).operation == stmt.operation && Sanitized(stmt).cypher == stmt.cypher
    ensures forall k :: k in Sanitized(stmt).parameters <==> k in stmt.parameters && (k == "" || k[0] != '_')
    ensures forall k :: k in Sanitized(stmt).parameters ==> Sanitized(stmt).parameters[k] == stmt.parameters[k]
  {
    forall k: string ensures HasPrefix(k, "_") <==> k != "" && k[0] == '_' {
      assert k != "" ==> k[..1] == [k[0]];
      assert "_" == ['_'];
    }
  }

  // -------------------------------------------------------------- one label

  /** A batch of one entity label. */
  predicate OfLabel(stmts: seq<Statement>, l: string) {
    forall i :: 0 <= i < |stmts| ==>
      && InEntityPhase(stmts[i]) && Reads(stmts[i], "_pcg_entity_label", l)
      && !Reads(stmts[i], "_pcg_phase_group_mode", "execute_only")
  }

  /** With a limit configured for its label, a batch goes out in groups of that many. */
  lemma OneLabelPlan(limits: Limits, stmts: seq<Statement>, l: string, n: nat)
    requires OfLabel(stmts, l) && l != "" && l in limits.labelStatements && 0 < n == limits.labelStatements[l]
    requires |stmts| > n && exists i :: 0 <= i < |stmts| && !stmts[i].operation.CanonicalRetract?
    ensures var calls := Groups(limits, stmts[n..]);
      && BootstrapPlan(limits, true, stmts) == [Many(stmts[..n])] + calls
      && IngesterPlan(limits, true, stmts) == [Many(stmts[..n])] + calls
      && (|stmts| <= 2 * n ==> calls == [Many(stmts[n..])])
  {
    var rest := stmts[n..];
    HeadOfLabel(limits, stmts, l, n);
    HeadOfLabel(limits, rest, l, n);
    if |rest| <= n {
      assert rest[..|rest|] == rest && rest[|rest|..] == [];
      assert Groups(limits, []) == [];
    }
    PlannedGroupsAreFull(limits, stmts);
  }

  lemma LimitOfLabel(limits: Limits, stmts: seq<Statement>, l: string, n: nat)
    requires OfLabel(stmts, l) && stmts != [] && l != "" && l in limits.labelStatements && 0 < n == limits.labelStatements[l]
    ensures Limit(limits, stmts[0]) == n && HeadAligned(limits, stmts, n)
  {
    forall i | 0 <= i < |stmts| ensures Label(stmts[i]) == l && !ExecuteOnly(stmts[i]) {
      ReadsIff(stmts[i]);
    }
    assert LabelCaps(limits, stmts[0], l, n);
    CapsIff(limits, stmts[0], n);
  }

  lemma HeadOfLabel(limits: Limits, stmts: seq<Statement>, l: string, n: nat)
    requires OfLabel(stmts, l) && stmts != [] && l != "" && l in limits.labelStatements && 0 < n == limits.labelStatements[l]
    ensures var m := Min(n, |stmts|);
      Groups(limits, stmts) == [Many(stmts[..m])] + Groups(limits, stmts[m..])
  {
    LimitOfLabel(limits, stmts, l, n);
    HeadAlignedIff(limits, stmts, n);
  }

  /** Five functions in a group, as the repository configures it: six go out as five and one. */
  lemma SixFunctions(limits: Limits, stmts: seq<Statement>)
    requires OfLabel(stmts, "Function") && |stmts| == 6 && !stmts[0].operation.CanonicalRetract?
    requires "Function" in limits.labelStatements && limits.labelStatements["Function"] == 5
    ensures BootstrapPlan(limits, true, stmts) == [Many(stmts[..5]), Many([stmts[5]])]
    ensures IngesterPlan(limits, true, stmts) == [Many(stmts[..5]), Many([stmts[5]])]
  {
    OneLabelPlan(limits, stmts, "Function", 5);
    assert stmts[5..] == [stmts[5]];
  }
}
