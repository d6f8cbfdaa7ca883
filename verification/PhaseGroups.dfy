/**
  How a phase of graph statements is cut into calls of the graph store, described
  without any of the executors' buffers.
 */
module PhaseGroups {

  import opened Basics
  import opened Counting
  import opened GoStrings

  datatype Operation = CanonicalRetract | OtherOperation(name: string)

  datatype Param = Text(s: string) | Rows(count: nat) | Opaque(id: int)

  datatype Statement = Statement(operation: Operation, cypher: string, parameters: map<string, Param>)

  const PHASE_KEY := "_pcg_phase"
  const ENTITY_LABEL_KEY := "_pcg_entity_label"
  const PHASE_GROUP_MODE_KEY := "_pcg_phase_group_mode"
  const PHASE_FILES := "files"
  const PHASE_ENTITIES := "entities"
  const PHASE_ENTITY_CONTAINMENT := "entity_containment"
  const MODE_EXECUTE_ONLY := "execute_only"

  const DEFAULT_PHASE_STATEMENTS: nat := 500
  const DEFAULT_FILE_PHASE_STATEMENTS: nat := 5
  const DEFAULT_ENTITY_PHASE_STATEMENTS: nat := 25

  function TextParam(stmt: Statement, key: string): string {
    if key in stmt.parameters && stmt.parameters[key].Text? then stmt.parameters[key].s else ""
  }

  function Phase(stmt: Statement): string {
    TrimSpace(TextParam(stmt, PHASE_KEY))
  }

  function Label(stmt: Statement): string {
    TrimSpace(TextParam(stmt, ENTITY_LABEL_KEY))
  }

  predicate ExecuteOnly(stmt: Statement) {
    TrimSpace(TextParam(stmt, PHASE_GROUP_MODE_KEY)) == MODE_EXECUTE_ONLY
  }

  predicate IsEntityPhase(phase: string) {
    phase == PHASE_ENTITIES || phase == PHASE_ENTITY_CONTAINMENT
  }

  /** Configured limits; zero and negative values fall back to the defaults. */
  datatype Limits = Limits(statements: int, fileStatements: int, entityStatements: int, labelStatements: map<string, int>)

  function PositiveOrDefault(value: int, fallback: nat): (n: nat)
    requires fallback > 0
    ensures n > 0
  {
    if value <= 0 then fallback else value
  }

  /** Most statements that may share a group with `first` at its head. */
  function Limit(limits: Limits, first: Statement): (n: nat)
    ensures n > 0
  {
    var phase := Phase(first);
    if phase == PHASE_FILES then PositiveOrDefault(limits.fileStatements, DEFAULT_FILE_PHASE_STATEMENTS)
    else if IsEntityPhase(phase) then
      var entityLabel := Label(first);
      if entityLabel != "" && entityLabel in limits.labelStatements && limits.labelStatements[entityLabel] > 0
      then limits.labelStatements[entityLabel]
      else PositiveOrDefault(limits.entityStatements, DEFAULT_ENTITY_PHASE_STATEMENTS)
    else PositiveOrDefault(limits.statements, DEFAULT_PHASE_STATEMENTS)
  }

  // ------------------------------------------------------------------- calls

  /** A call of the store: Execute for one statement, ExecuteGroup for several. */
  datatype Call = One(stmt: Statement) | Many(stmts: seq<Statement>) {
    function Statements(): seq<Statement> {
      match this
      case One(stmt) => [stmt]
      case Many(stmts) => stmts
    }
  }

  function Flatten(calls: seq<Call>): seq<Statement> {
    if calls == [] then [] else calls[0].Statements() + Flatten(calls[1..])
  }

  /** Diagnostic parameters, whose names start with an underscore, never reach the store. */
  function SanitizedParameters(parameters: map<string, Param>): map<string, Param> {
    map k | k in parameters && !HasPrefix(k, "_") :: parameters[k]
  }

  function Sanitized(stmt: Statement): Statement {
    stmt.(parameters := SanitizedParameters(stmt.parameters))
  }

  function AllSanitized(stmts: seq<Statement>): seq<Statement> {
    seq(|stmts|, i requires 0 <= i < |stmts| => Sanitized(stmts[i]))
  }

  function SanitizedCall(call: Call): Call {
    match call
    case One(stmt) => One(Sanitized(stmt))
    case Many(stmts) => Many(AllSanitized(stmts))
  }

  function SanitizedCalls(calls: seq<Call>): seq<Call> {
    seq(|calls|, i requires 0 <= i < |calls| => SanitizedCall(calls[i]))
  }

  /** One statement at a time. */
  function Singles(stmts: seq<Statement>): seq<Call> {
    seq(|stmts|, i requires 0 <= i < |stmts| => One(stmts[i]))
  }

  /** Consecutive chunks of at most `size` statements, whatever they are. */
  function Chunks(stmts: seq<Statement>, size: nat): seq<Call>
    requires size > 0
  {
    if stmts == [] then []
    else if |stmts| <= size then [Many(stmts)]
    else [Many(stmts[..size])] + Chunks(stmts[size..], size)
  }

  predicate Joins(stmt: Statement, entityLabel: string) {
    !ExecuteOnly(stmt) && Label(stmt) == entityLabel
  }

  /** How many leading statements can join the group of `entityLabel`. */
  function RunLength(stmts: seq<Statement>, entityLabel: string): (n: nat)
    ensures n <= |stmts|
    ensures forall i :: 0 <= i < n ==> Joins(stmts[i], entityLabel)
    ensures n < |stmts| ==> !Joins(stmts[n], entityLabel)
  {
    if stmts == [] || !Joins(stmts[0], entityLabel) then 0
    else
      var rest := RunLength(stmts[1..], entityLabel);
      assert forall i :: 1 <= i < 1 + rest ==> stmts[i] == stmts[1..][i - 1];
      1 + rest
  }

  /** Size of the group that starts at the head of a batch. */
  function GroupSize(limits: Limits, stmts: seq<Statement>): (n: nat)
    requires stmts != [] && !ExecuteOnly(stmts[0])
    ensures 0 < n <= |stmts|
  {
    Min(Limit(limits, stmts[0]), RunLength(stmts, Label(stmts[0])))
  }

  /** Grouping by label: longest possible groups from the left, execute-only statements alone. */
  function Groups(limits: Limits, stmts: seq<Statement>): seq<Call>
  {
    if stmts == [] then []
    else if ExecuteOnly(stmts[0]) then [One(stmts[0])] + Groups(limits, stmts[1..])
    else
      var n := GroupSize(limits, stmts);
      [Many(stmts[..n])] + Groups(limits, stmts[n..])
  }

  // -------------------------------------------------------------- properties

  /** Nothing is lost, repeated or reordered. */
  lemma {:induction false} GroupsKeepStatements(limits: Limits, stmts: seq<Statement>)
    ensures Flatten(Groups(limits, stmts)) == stmts
  {
    if stmts == [] {
    } else if ExecuteOnly(stmts[0]) {
      GroupsKeepStatements(limits, stmts[1..]);
    } else {
      var n := GroupSize(limits, stmts);
      GroupsKeepStatements(limits, stmts[n..]);
      assert stmts == stmts[..n] + stmts[n..];
    }
  }

  /** The shape of one call of the grouping. */
  predicate WellShaped(limits: Limits, call: Call) {
    match call
    case One(stmt) => ExecuteOnly(stmt)
    case Many(stmts) =>
      && 0 < |stmts| <= Limit(limits, stmts[0])
      && forall i :: 0 <= i < |stmts| ==> !ExecuteOnly(stmts[i]) && Label(stmts[i]) == Label(stmts[0])
  }

  /** A group ends before its limit only where the label changes or an execute-only statement follows. */
  predicate Maximal(limits: Limits, call: Call, next: Call) {
    call.Many? && call.stmts != [] && next.Many? && next.stmts != [] && |call.stmts| < Limit(limits, call.stmts[0])
    ==> Label(next.stmts[0]) != Label(call.stmts[0])
  }

  lemma {:induction false} GroupsWellShaped(limits: Limits, stmts: seq<Statement>)
    ensures var calls := Groups(limits, stmts);
      && (forall i :: 0 <= i < |calls| ==> WellShaped(limits, calls[i]))
      && (forall i :: 0 < i < |calls| ==> Maximal(limits, calls[i - 1], calls[i]))
  {
    if stmts != [] {
      var n := if ExecuteOnly(stmts[0]) then 1 else GroupSize(limits, stmts);
      var head := if ExecuteOnly(stmts[0]) then One(stmts[0]) else Many(stmts[..n]);
      var calls, rest := Groups(limits, stmts), Groups(limits, stmts[n..]);
      GroupsWellShaped(limits, stmts[n..]);
      GroupHead(limits, stmts[n..]);
      assert calls == [head] + rest;
      assert WellShaped(limits, head);
      forall i | 0 <= i < |calls| ensures WellShaped(limits, calls[i]) {
        assert i > 0 ==> calls[i] == rest[i - 1];
      }
      forall i | 0 < i < |calls| ensures Maximal(limits, calls[i - 1], calls[i]) {
        assert calls[i] == rest[i - 1];
        if i > 1 {
          assert Maximal(limits, rest[i - 2], rest[i - 1]);
        }
      }
    }
  }

  /** The first call of a grouping starts with the first statement. */
  lemma GroupHead(limits: Limits, stmts: seq<Statement>)
    ensures stmts == [] ==> Groups(limits, stmts) == []
    ensures stmts != [] ==>
      var calls := Groups(limits, stmts);
      calls != [] && (if ExecuteOnly(stmts[0]) then calls[0] == One(stmts[0])
                      else calls[0].Many? && calls[0].stmts != [] && calls[0].stmts[0] == stmts[0])
  {
  }

  lemma {:induction false} ChunksKeepStatements(stmts: seq<Statement>, size: nat)
    requires size > 0
    ensures Flatten(Chunks(stmts, size)) == stmts
  {
    if |stmts| > size {
      ChunksKeepStatements(stmts[size..], size);
      assert stmts == stmts[..size] + stmts[size..];
    }
  }

  /** Sanitizing commutes with cutting a batch into calls. */
  lemma {:induction false} SanitizedFlatten(calls: seq<Call>)
    ensures Flatten(SanitizedCalls(calls)) == AllSanitized(Flatten(calls))
  {
    if calls != [] {
      SanitizedFlatten(calls[1..]);
      assert SanitizedCalls(calls)[1..] == SanitizedCalls(calls[1..]);
      assert SanitizedCalls(calls)[0].Statements() == AllSanitized(calls[0].Statements());
    }
  }

  // ------------------------------------------------- grouping against chunking

  /** The first chunk of a batch is also its first group, read off labels, modes and limits. */
  ghost predicate HeadAligned(limits: Limits, stmts: seq<Statement>, size: nat)
    requires size > 0 && stmts != []
  {
    var n, most := Min(size, |stmts|), Limit(limits, stmts[0]);
    && (forall i :: 0 <= i < n ==> !ExecuteOnly(stmts[i]) && Label(stmts[i]) == Label(stmts[0]))
    && n <= most
    && (n == most || n == |stmts| || ExecuteOnly(stmts[n]) || Label(stmts[n]) != Label(stmts[0]))
  }

  /** The same at every chunk boundary. */
  ghost predicate ChunkAligned(limits: Limits, stmts: seq<Statement>, size: nat)
    requires size > 0
  {
    stmts == [] || (HeadAligned(limits, stmts, size) && ChunkAligned(limits, stmts[Min(size, |stmts|)..], size))
  }

  lemma HeadAlignedIff(limits: Limits, stmts: seq<Statement>, size: nat)
    requires size > 0 && stmts != []
    ensures HeadAligned(limits, stmts, size) <==>
      !ExecuteOnly(stmts[0]) && GroupSize(limits, stmts) == Min(size, |stmts|)
  {
    var n := Min(size, |stmts|);
    assert n > 0;
    if HeadAligned(limits, stmts, size) {
      assert !ExecuteOnly(stmts[0]);
    }
  }

  /** Grouping a batch and chunking it give the same calls exactly when they align at every chunk. */
  lemma {:induction false} GroupsAreChunksIff(limits: Limits, stmts: seq<Statement>, size: nat)
    requires size > 0
    ensures Groups(limits, stmts) == Chunks(stmts, size) <==> ChunkAligned(limits, stmts, size)
  {
    if stmts != [] {
      var n := Min(size, |stmts|);
      HeadAlignedIff(limits, stmts, size);
      GroupsAreChunksIff(limits, stmts[n..], size);
      assert n == |stmts| ==> stmts[..n] == stmts && stmts[n..] == [];
      assert Chunks(stmts, size) == [Many(stmts[..n])] + Chunks(stmts[n..], size);
      if !ExecuteOnly(stmts[0]) {
        var g := GroupSize(limits, stmts);
        var calls := Groups(limits, stmts);
        assert calls[0] == Many(stmts[..g]) && calls[1..] == Groups(limits, stmts[g..]);
        assert |stmts[..g]| == g && |stmts[..n]| == n;
        assert Chunks(stmts, size)[0] == Many(stmts[..n]) && Chunks(stmts, size)[1..] == Chunks(stmts[n..], size);
      } else {
        assert Groups(limits, stmts)[0].One? && Chunks(stmts, size)[0].Many?;
      }
    }
  }

  /** One phase, one label, nothing execute-only. */
  ghost predicate Uniform(stmts: seq<Statement>) {
    forall i :: 0 <= i < |stmts| ==>
      !ExecuteOnly(stmts[i]) && Label(stmts[i]) == Label(stmts[0]) && Phase(stmts[i]) == Phase(stmts[0])
  }

  /** On a uniform batch, flushing at the limit is plain chunking. */
  lemma {:induction false} UniformGroupsAreChunks(limits: Limits, stmts: seq<Statement>, first: Statement)
    requires Uniform(stmts)
    requires stmts != [] ==> Label(first) == Label(stmts[0]) && Phase(first) == Phase(stmts[0])
    ensures Groups(limits, stmts) == Chunks(stmts, Limit(limits, first))
  {
    GroupsAreChunksIff(limits, stmts, Limit(limits, first));
    UniformAligned(limits, stmts, first);
  }

  lemma {:induction false} UniformAligned(limits: Limits, stmts: seq<Statement>, first: Statement)
    requires Uniform(stmts)
    requires stmts != [] ==> Label(first) == Label(stmts[0]) && Phase(first) == Phase(stmts[0])
    ensures ChunkAligned(limits, stmts, Limit(limits, first))
  {
    if stmts != [] {
      var size := Limit(limits, first);
      assert Limit(limits, stmts[0]) == size;
      var rest := stmts[Min(size, |stmts|)..];
      assert forall i :: 0 <= i < |rest| ==> rest[i] == stmts[Min(size, |stmts|) + i];
      UniformAligned(limits, rest, first);
    }
  }

  // ------------------------------------------------- grouping from the left

  /** Statements `from..to` are the group that starts at `from`. */
  ghost predicate GroupAt(limits: Limits, stmts: seq<Statement>, from: nat, to: nat) {
    && from < to <= |stmts|
    && (forall i :: from <= i < to ==> Joins(stmts[i], Label(stmts[from])))
    && to - from <= Limit(limits, stmts[from])
    && (to - from == Limit(limits, stmts[from]) || to == |stmts| || !Joins(stmts[to], Label(stmts[from])))
  }

  /** `call` takes statements `from..to`, alone or as a group. */
  ghost predicate CallAt(limits: Limits, stmts: seq<Statement>, from: nat, to: nat, call: Call) {
    match call
    case One(stmt) => from < |stmts| && to == from + 1 && stmt == stmts[from] && ExecuteOnly(stmt)
    case Many(group) => GroupAt(limits, stmts, from, to) && group == stmts[from..to]
  }

  /** `done` are the first calls of the grouping; `cuts` says where each one begins and the last one ends. */
  ghost predicate GroupedBy(limits: Limits, stmts: seq<Statement>, cuts: seq<nat>, done: seq<Call>) {
    && |cuts| == |done| + 1 && cuts[0] == 0
    && (forall k :: 0 <= k < |done| ==> PlacedAt(limits, stmts, cuts, done, k))
  }

  ghost predicate PlacedAt(limits: Limits, stmts: seq<Statement>, cuts: seq<nat>, done: seq<Call>, k: nat)
    requires k < |done| && k + 1 < |cuts|
  {
    cuts[k + 1] <= |stmts| && CallAt(limits, stmts, cuts[k], cuts[k + 1], done[k])
  }

  lemma GroupedOneMore(limits: Limits, stmts: seq<Statement>, cuts: seq<nat>, done: seq<Call>, to: nat, call: Call)
    requires GroupedBy(limits, stmts, cuts, done) && to <= |stmts|
    requires CallAt(limits, stmts, cuts[|done|], to, call)
    ensures GroupedBy(limits, stmts, cuts + [to], done + [call])
  {
    var more, calls := cuts + [to], done + [call];
    forall k | 0 <= k < |calls| ensures PlacedAt(limits, stmts, more, calls, k) {
      if k < |done| {
        assert PlacedAt(limits, stmts, cuts, done, k);
      }
    }
  }

  lemma CallAtIsNext(limits: Limits, stmts: seq<Statement>, from: nat, to: nat, call: Call)
    requires CallAt(limits, stmts, from, to, call) && to <= |stmts|
    ensures Groups(limits, stmts[from..]) == [call] + Groups(limits, stmts[to..])
  {
    var pending := stmts[from..];
    if call.One? {
      assert pending[0] == stmts[from] && pending[1..] == stmts[to..];
    } else {
      var n := to - from;
      assert pending[..n] == stmts[from..to] && pending[n..] == stmts[to..];
      assert HeadAligned(limits, pending, n) by {
        assert forall i :: 0 <= i < n ==> pending[i] == stmts[from + i];
        assert n < |pending| ==> pending[n] == stmts[to];
      }
      HeadAlignedIff(limits, pending, n);
    }
  }

  lemma Regroup(all: seq<Call>, front: seq<Call>, last: Call, middle: seq<Call>, rest: seq<Call>, done: seq<Call>)
    requires all == front + middle && middle == [last] + rest && done == front + [last]
    ensures all == done + rest
  {
  }

  /** What the grouping still has to send from a cut on. */
  function Tail(limits: Limits, stmts: seq<Statement>, cut: nat): seq<Call> {
    if cut <= |stmts| then Groups(limits, stmts[cut..]) else []
  }

  ghost predicate ChainedAt(tails: seq<seq<Call>>, done: seq<Call>, k: nat)
    requires k < |done| && k + 1 < |tails|
  {
    tails[k] == [done[k]] + tails[k + 1]
  }

  lemma {:induction false} Chained(tails: seq<seq<Call>>, done: seq<Call>)
    requires |tails| == |done| + 1 && forall k :: 0 <= k < |done| ==> ChainedAt(tails, done, k)
    ensures tails[0] == done + tails[|done|]
  {
    if done != [] {
      forall k | 0 <= k < |done[1..]| ensures ChainedAt(tails[1..], done[1..], k) {
        assert ChainedAt(tails, done, k + 1);
      }
      Chained(tails[1..], done[1..]);
      assert ChainedAt(tails, done, 0);
      Regroup(tails[0], [], done[0], tails[0], tails[1], [done[0]]);
      Associate([done[0]], done[1..], tails[|done|]);
      assert [done[0]] + done[1..] == done;
    }
  }

  lemma TailStep(limits: Limits, stmts: seq<Statement>, cuts: seq<nat>, done: seq<Call>, k: nat)
    requires GroupedBy(limits, stmts, cuts, done) && k < |done|
    ensures Tail(limits, stmts, cuts[k]) == [done[k]] + Tail(limits, stmts, cuts[k + 1])
  {
    assert PlacedAt(limits, stmts, cuts, done, k);
    if k > 0 {
      assert PlacedAt(limits, stmts, cuts, done, k - 1);
    }
    CallAtIsNext(limits, stmts, cuts[k], cuts[k + 1], done[k]);
  }

  /** Calls made from the left are the beginning of the grouping, and nothing else. */
  lemma GroupedIsPrefix(limits: Limits, stmts: seq<Statement>, cuts: seq<nat>, done: seq<Call>)
    requires GroupedBy(limits, stmts, cuts, done) && cuts[|done|] <= |stmts|
    ensures Groups(limits, stmts) == done + Groups(limits, stmts[cuts[|done|]..])
  {
    var tails := seq(|done| + 1, k requires 0 <= k <= |done| => Tail(limits, stmts, cuts[k]));
    forall k | 0 <= k < |done| ensures ChainedAt(tails, done, k) {
      TailStep(limits, stmts, cuts, done, k);
    }
    Chained(tails, done);
    assert stmts[0..] == stmts;
  }

  // ------------------------------------------------------------- batch plans

  predicate AllRetract(stmts: seq<Statement>) {
    stmts != [] && forall i :: 0 <= i < |stmts| ==> stmts[i].operation.CanonicalRetract?
  }

  /** The calls of the ingester's executor for one batch; `grouping` tells whether its store takes groups. */
  function IngesterPlan(limits: Limits, grouping: bool, stmts: seq<Statement>): seq<Call> {
    if stmts == [] then []
    else if !grouping || AllRetract(stmts) then Singles(stmts)
    else if IsEntityPhase(Phase(stmts[0])) then Groups(limits, stmts)
    else Chunks(stmts, Limit(limits, stmts[0]))
  }

  /** The calls of the bootstrap executor for one batch. */
  function BootstrapPlan(limits: Limits, grouping: bool, stmts: seq<Statement>): seq<Call> {
    if stmts == [] then []
    else if AllRetract(stmts) || !grouping then Singles(stmts)
    else Groups(limits, stmts)
  }

  /** Either executor passes on every statement, sanitized, once and in order. */
  lemma PlansKeepStatements(limits: Limits, grouping: bool, stmts: seq<Statement>)
    ensures Flatten(SanitizedCalls(IngesterPlan(limits, grouping, stmts))) == AllSanitized(stmts)
    ensures Flatten(SanitizedCalls(BootstrapPlan(limits, grouping, stmts))) == AllSanitized(stmts)
  {
    SanitizedFlatten(IngesterPlan(limits, grouping, stmts));
    SanitizedFlatten(BootstrapPlan(limits, grouping, stmts));
    SinglesKeepStatements(stmts);
    GroupsKeepStatements(limits, stmts);
    if stmts != [] {
      ChunksKeepStatements(stmts, Limit(limits, stmts[0]));
    }
  }

  lemma {:induction false} SinglesKeepStatements(stmts: seq<Statement>)
    ensures Flatten(Singles(stmts)) == stmts
  {
    if stmts != [] {
      SinglesKeepStatements(stmts[1..]);
      assert Singles(stmts)[1..] == Singles(stmts[1..]);
      assert stmts == [stmts[0]] + stmts[1..];
    }
  }

  /**
    The bootstrap executor mirrors the ingester's exactly on these batches; a batch of another
    phase is chunked by the ingester without looking at labels or execute-only modes.
   */
  lemma BootstrapMirrorsIngesterIff(limits: Limits, grouping: bool, stmts: seq<Statement>)
    ensures BootstrapPlan(limits, grouping, stmts) == IngesterPlan(limits, grouping, stmts) <==>
      || stmts == [] || !grouping || AllRetract(stmts)
      || IsEntityPhase(Phase(stmts[0]))
      || ChunkAligned(limits, stmts, Limit(limits, stmts[0]))
  {
    if stmts != [] {
      GroupsAreChunksIff(limits, stmts, Limit(limits, stmts[0]));
    }
  }

  /** In particular on a batch of one phase and one label with nothing execute-only, labels of "" included. */
  lemma UniformBatchesMirror(limits: Limits, grouping: bool, stmts: seq<Statement>)
    requires Uniform(stmts)
    ensures BootstrapPlan(limits, grouping, stmts) == IngesterPlan(limits, grouping, stmts)
  {
    if stmts != [] {
      UniformGroupsAreChunks(limits, stmts, stmts[0]);
    }
  }

  function FileStatement(entityLabel: string): Statement {
    Statement(OtherOperation("upsert"), "", map[PHASE_KEY := Text(PHASE_FILES), ENTITY_LABEL_KEY := Text(entityLabel)])
  }

  /** A first statement that the next one cannot join is a group of its own. */
  lemma HeadGroup(limits: Limits, stmt: Statement, rest: seq<Statement>)
    requires !ExecuteOnly(stmt) && (rest != [] ==> Label(rest[0]) != Label(stmt))
    ensures Groups(limits, [stmt] + rest) == [Many([stmt])] + Groups(limits, rest)
  {
    var stmts := [stmt] + rest;
    assert stmts[1..] == rest && stmts[..1] == [stmt];
    assert RunLength(stmts, Label(stmt)) == 1;
    assert GroupSize(limits, stmts) == 1;
  }

  lemma FileStatementFacts(limits: Limits, stmt: Statement, entityLabel: string)
    requires stmt == FileStatement(entityLabel) && (entityLabel == "A" || entityLabel == "B") && limits.fileStatements <= 0
    ensures Label(stmt) == entityLabel && Phase(stmt) == PHASE_FILES && !ExecuteOnly(stmt)
    ensures Limit(limits, stmt) == DEFAULT_FILE_PHASE_STATEMENTS
  {
  }

  /** Two labels in a files batch: the ingester sends one group, the bootstrap executor two. */
  lemma MirrorFailsOnMixedFiles(limits: Limits)
    requires limits.fileStatements <= 0
    ensures var stmts := [FileStatement("A"), FileStatement("B")];
      && |IngesterPlan(limits, true, stmts)| == 1
      && |BootstrapPlan(limits, true, stmts)| == 2
  {
    var a, b := FileStatement("A"), FileStatement("B");
    var stmts := [a, b];
    FileStatementFacts(limits, a, "A");
    FileStatementFacts(limits, b, "B");
    assert "A" != "B" by {
      assert "A"[0] != "B"[0];
    }
    HeadGroup(limits, a, [b]);
    HeadGroup(limits, b, []);
    assert [a] + [b] == stmts && [b] + [] == [b];
    assert Groups(limits, []) == [];
    assert !AllRetract(stmts) by {
      assert !stmts[0].operation.CanonicalRetract?;
    }
  }
}
