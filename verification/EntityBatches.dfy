/** Batched entity merges against one statement per entity. */
module EntityBatches {

  import opened Basics
  import opened StringSort
  import opened EntityMerge

  const DEFAULT_BATCH_SIZE: nat := 500

  datatype Error = NoExecutor | BadLabel | BadKey | EmptyPath | StoreFailed

  type Acceptance = (seq<Statement>, Statement) -> bool

  /** Where statements go; any of them may fail. */
  class Executor {
    const accepts: Acceptance
    var statements: seq<Statement>

    constructor (accepts: Acceptance)
      ensures this.accepts == accepts && statements == []
    {
      this.accepts := accepts;
      statements := [];
    }

    method ExecuteCypher(stmt: Statement) returns (ok: bool)
      modifies this
      ensures statements == old(statements) + [stmt] && ok == accepts(old(statements), stmt)
    {
      ok := accepts(statements, stmt);
      statements := statements + [stmt];
    }
  }

  function Named(row: Row): Params {
    map["file_path" := Text(row.filePath), "name" := Text(row.name), "line_number" := Number(row.lineNumber)]
  }

  /** The parameters of a single statement: extra keys override the named ones, and the uid comes last. */
  function SingleParams(row: Row): Params {
    var named := Named(row) + row.extra;
    if row.uid == "" then named else named["uid" := Text(row.uid)]
  }

  /** A row of a batch: every extra key of the batch, with null where the row has none. */
  function RowMap(row: Row, keys: seq<string>): Params {
    Padded(Named(row)["uid" := Text(row.uid)], row.extra, keys)
  }

  function Padded(base: Params, extra: map<string, Value>, keys: seq<string>): Params {
    base + map k | k in keys :: Get(extra, k)
  }

  lemma PadOneMore(base: Params, extra: map<string, Value>, keys: seq<string>, key: string)
    ensures Padded(base, extra, keys + [key]) == Padded(base, extra, keys)[key := Get(extra, key)]
  {
  }

  ghost predicate IsSingle(stmt: Statement, entityLabel: string, row: Row) {
    && stmt.MergeOne? && stmt.entityLabel == entityLabel && stmt.byUid == (row.uid != "")
    && IsOrdering(stmt.keys, row.extra.Keys) && stmt.params == SingleParams(row)
  }

  method BuildEntityMergeStatement(entityLabel: string, row: Row) returns (err: Option<Error>, stmt: Option<Statement>)
    ensures err == if !Safe(entityLabel) then Some(BadLabel)
                   else if row.filePath == "" then Some(EmptyPath)
                   else if forall k :: k in row.extra ==> Safe(k) then None else Some(BadKey)
    ensures err.None? ==> stmt.Some? && IsSingle(stmt.value, entityLabel, row)
  {
    if !Safe(entityLabel) {
      return Some(BadLabel), None;
    }
    if row.filePath == "" {
      return Some(EmptyPath), None;
    }
    var extraKeys := SortSet(row.extra.Keys);
    OrderingMembers(extraKeys, row.extra.Keys);
    if !AllSafe(extraKeys) {
      assert exists i :: 0 <= i < |extraKeys| && !Safe(extraKeys[i]) && extraKeys[i] in row.extra;
      return Some(BadKey), None;
    }
    var params := WithExtras(Named(row), row.extra, extraKeys);
    if row.uid != "" {
      params := params["uid" := Text(row.uid)];
    }
    return None, Some(MergeOne(entityLabel, row.uid != "", extraKeys, params));
  }

  /** The single-entity write: one statement, or a refusal. */
  method MergeEntity(executor: Executor?, entityLabel: string, row: Row) returns (err: Option<Error>)
    modifies executor
    ensures executor == null ==> err == Some(NoExecutor)
    ensures executor != null ==>
      if !Safe(entityLabel) then err == Some(BadLabel) && executor.statements == old(executor.statements)
      else if row.filePath == "" then err == Some(EmptyPath) && executor.statements == old(executor.statements)
      else if exists k :: k in row.extra && !Safe(k) then err == Some(BadKey) && executor.statements == old(executor.statements)
      else
        && |executor.statements| == |old(executor.statements)| + 1
        && executor.statements[..|old(executor.statements)|] == old(executor.statements)
        && IsSingle(executor.statements[|old(executor.statements)|], entityLabel, row)
        && err == if executor.accepts(old(executor.statements), executor.statements[|old(executor.statements)|])
                  then None else Some(StoreFailed)
  {
    if executor == null {
      return Some(NoExecutor);
    }
    var stmt;
    err, stmt := BuildEntityMergeStatement(entityLabel, row);
    if err.Some? {
      return;
    }
    var ok := executor.ExecuteCypher(stmt.value);
    return if ok then None else Some(StoreFailed);
  }

  method WithExtras(named: Params, extra: map<string, Value>, extraKeys: seq<string>) returns (params: Params)
    requires forall k :: k in extraKeys <==> k in extra
    ensures params == named + extra
  {
    params := named;
    for i := 0 to |extraKeys|
      invariant forall k :: k in params <==> k in named || k in extraKeys[..i]
      invariant forall k :: k in params ==> params[k] == if k in extraKeys[..i] then extra[k] else named[k]
    {
      params := params[extraKeys[i] := extra[extraKeys[i]]];
    }
    assert extraKeys[..|extraKeys|] == extraKeys;
  }

  function ExtraKeys(rows: seq<Row>): set<string> {
    set i, k | 0 <= i < |rows| && k in rows[i].extra :: k
  }

  method CollectExtraKeys(rows: seq<Row>) returns (keys: seq<string>)
    ensures IsOrdering(keys, ExtraKeys(rows))
  {
    var seen := {};
    for i := 0 to |rows|
      invariant seen == ExtraKeys(rows[..i])
    {
      assert ExtraKeys(rows[..i + 1]) == ExtraKeys(rows[..i]) + rows[i].extra.Keys by {
        assert rows[..i + 1] == rows[..i] + [rows[i]];
        KeysOneMore(rows[..i], rows[i]);
      }
      seen := seen + rows[i].extra.Keys;
    }
    assert rows[..|rows|] == rows;
    keys := SortSet(seen);
  }

  lemma KeysOneMore(rows: seq<Row>, row: Row)
    ensures ExtraKeys(rows + [row]) == ExtraKeys(rows) + row.extra.Keys
  {
    var more := rows + [row];
    forall k | k in ExtraKeys(rows) + row.extra.Keys ensures k in ExtraKeys(more) {
      if k in row.extra {
        assert k in more[|rows|].extra;
      } else {
        var i :| 0 <= i < |rows| && k in rows[i].extra;
        assert k in more[i].extra;
      }
    }
  }

  method EntityRowToMap(row: Row, allExtraKeys: seq<string>) returns (m: Params)
    ensures m == RowMap(row, allExtraKeys)
  {
    m := Named(row)["uid" := Text(row.uid)];
    ghost var base := m;
    for i := 0 to |allExtraKeys|
      invariant m == Padded(base, row.extra, allExtraKeys[..i])
    {
      m := m[allExtraKeys[i] := if allExtraKeys[i] in row.extra then row.extra[allExtraKeys[i]] else Null];
      assert allExtraKeys[..i + 1] == allExtraKeys[..i] + [allExtraKeys[i]];
      PadOneMore(base, row.extra, allExtraKeys[..i], allExtraKeys[i]);
    }
    assert allExtraKeys[..|allExtraKeys|] == allExtraKeys;
  }

  // ----------------------------------------------------------------- batches

  /** Rows in consecutive chunks of at most `size`, a statement each. */
  function Batches(entityLabel: string, byUid: bool, keys: seq<string>, rows: seq<Params>, size: nat): seq<Statement>
    requires size > 0
    decreases |rows|
  {
    if rows == [] then []
    else
      var n := Min(size, |rows|);
      [MergeMany(entityLabel, byUid, keys, rows[..n])] + Batches(entityLabel, byUid, keys, rows[n..], size)
  }

  /** The rows with a uid, or those without, as maps and in order. */
  function MapsOf(rows: seq<Row>, keys: seq<string>, byUid: bool): seq<Params> {
    if rows == [] then []
    else
      var last := rows[|rows| - 1];
      MapsOf(rows[..|rows| - 1], keys, byUid) + if (last.uid != "") == byUid then [RowMap(last, keys)] else []
  }

  function Plan(entityLabel: string, keys: seq<string>, rows: seq<Row>, size: nat): seq<Statement>
    requires size > 0
  {
    Batches(entityLabel, true, keys, MapsOf(rows, keys, true), size)
    + Batches(entityLabel, false, keys, MapsOf(rows, keys, false), size)
  }

  /** The statements of a plan were executed, all of them or up to the first that failed. */
  ghost predicate Executed(accepts: Acceptance, before: seq<Statement>, plan: seq<Statement>, after: seq<Statement>, ok: bool)
    decreases plan
  {
    if plan == [] then after == before && ok
    else if accepts(before, plan[0]) then Executed(accepts, before + [plan[0]], plan[1..], after, ok)
    else after == before + [plan[0]] && !ok
  }

  lemma {:induction false} ExecutedThen(accepts: Acceptance, a: seq<Statement>, p: seq<Statement>, b: seq<Statement>,
                                        q: seq<Statement>, c: seq<Statement>, ok: bool)
    requires Executed(accepts, a, p, b, true) && Executed(accepts, b, q, c, ok)
    ensures Executed(accepts, a, p + q, c, ok)
    decreases p
  {
    if p == [] {
      assert p + q == q;
    } else {
      ExecutedThen(accepts, a + [p[0]], p[1..], b, q, c, ok);
      assert (p + q)[1..] == p[1..] + q;
    }
  }

  lemma {:induction false} ExecutedStops(accepts: Acceptance, a: seq<Statement>, p: seq<Statement>, b: seq<Statement>, q: seq<Statement>)
    requires Executed(accepts, a, p, b, false)
    ensures Executed(accepts, a, p + q, b, false)
    decreases p
  {
    if accepts(a, p[0]) {
      ExecutedStops(accepts, a + [p[0]], p[1..], b, q);
      assert (p + q)[1..] == p[1..] + q;
    }
  }

  /** On success everything in the plan was executed, once and in order. */
  lemma {:induction false} ExecutedAll(accepts: Acceptance, before: seq<Statement>, plan: seq<Statement>, after: seq<Statement>)
    requires Executed(accepts, before, plan, after, true)
    ensures after == before + plan
    decreases plan
  {
    if plan != [] {
      ExecutedAll(accepts, before + [plan[0]], plan[1..], after);
      assert before + [plan[0]] + plan[1..] == before + plan;
    }
  }

  function BatchesFrom(entityLabel: string, byUid: bool, keys: seq<string>, rows: seq<Params>, size: nat, start: nat): seq<Statement>
    requires size > 0
  {
    if start < |rows| then Batches(entityLabel, byUid, keys, rows[start..], size) else []
  }

  lemma NextBatch(entityLabel: string, byUid: bool, keys: seq<string>, rows: seq<Params>, size: nat, start: nat)
    requires size > 0 && start < |rows|
    ensures BatchesFrom(entityLabel, byUid, keys, rows, size, start) ==
      [MergeMany(entityLabel, byUid, keys, rows[start..Min(start + size, |rows|)])]
      + BatchesFrom(entityLabel, byUid, keys, rows, size, start + size)
  {
    var n := Min(size, |rows[start..]|);
    assert rows[start..][..n] == rows[start..start + n];
    assert rows[start..][n..] == rows[start + n..];
    assert start + n == Min(start + size, |rows|);
    if start + size < |rows| {
      assert n == size;
    } else {
      assert Batches(entityLabel, byUid, keys, rows[start..][n..], size) == [];
    }
  }

  method ExecuteBatched(executor: Executor, entityLabel: string, byUid: bool, keys: seq<string>, rows: seq<Params>, size: nat)
    returns (ok: bool)
    requires size > 0
    modifies executor
    ensures Executed(executor.accepts, old(executor.statements), Batches(entityLabel, byUid, keys, rows, size), executor.statements, ok)
  {
    ghost var before, plan, done := executor.statements, Batches(entityLabel, byUid, keys, rows, size), [];
    NoneSent(executor.accepts, before, entityLabel, byUid, keys, rows, size);
    var start := 0;
    while start < |rows|
      invariant 0 <= start
      invariant Sent(executor.accepts, before, plan, done, BatchesFrom(entityLabel, byUid, keys, rows, size, start),
                     executor.statements)
    {
      var end := start + size;
      if end > |rows| {
        end := |rows|;
      }
      NextBatch(entityLabel, byUid, keys, rows, size, start);
      var stmt := MergeMany(entityLabel, byUid, keys, rows[start..end]);
      ghost var mid, rest := executor.statements, BatchesFrom(entityLabel, byUid, keys, rows, size, start + size);
      ok := executor.ExecuteCypher(stmt);
      OneMore(executor.accepts, before, plan, done, mid, stmt, executor.statements, ok, rest);
      if !ok {
        return false;
      }
      done := done + [stmt];
      start := start + size;
    }
    AllSent(executor.accepts, before, plan, done, executor.statements);
    return true;
  }

  /** `done` has been executed and `rest` is what is left of the plan. */
  ghost predicate Sent(accepts: Acceptance, before: seq<Statement>, plan: seq<Statement>, done: seq<Statement>,
                       rest: seq<Statement>, now: seq<Statement>) {
    plan == done + rest && Executed(accepts, before, done, now, true)
  }

  lemma NoneSent(accepts: Acceptance, before: seq<Statement>, entityLabel: string, byUid: bool, keys: seq<string>,
                 rows: seq<Params>, size: nat)
    requires size > 0
    ensures Sent(accepts, before, Batches(entityLabel, byUid, keys, rows, size), [],
                 BatchesFrom(entityLabel, byUid, keys, rows, size, 0), before)
  {
    assert rows[0..] == rows;
  }

  lemma AllSent(accepts: Acceptance, before: seq<Statement>, plan: seq<Statement>, done: seq<Statement>, now: seq<Statement>)
    requires Sent(accepts, before, plan, done, [], now)
    ensures Executed(accepts, before, plan, now, true)
  {
    assert done + [] == done;
  }

  lemma OneMore(accepts: Acceptance, before: seq<Statement>, plan: seq<Statement>, done: seq<Statement>, mid: seq<Statement>,
                stmt: Statement, now: seq<Statement>, ok: bool, rest: seq<Statement>)
    requires Sent(accepts, before, plan, done, [stmt] + rest, mid) && now == mid + [stmt] && ok == accepts(mid, stmt)
    ensures ok ==> Sent(accepts, before, plan, done + [stmt], rest, now)
    ensures !ok ==> Executed(accepts, before, plan, now, false)
  {
    assert [stmt][1..] == [];
    ExecutedThen(accepts, before, done, mid, [stmt], now, ok);
    assert plan == done + [stmt] + rest;
    if !ok {
      ExecutedStops(accepts, before, done + [stmt], now, rest);
    }
  }

  /** Rows split by identity, uid rows first, each part in batches. */
  method BatchMergeEntities(executor: Executor?, entityLabel: string, rows: seq<Row>, batchSize: int)
    returns (err: Option<Error>, ghost keys: seq<string>)
    modifies executor
    ensures executor == null ==> err == Some(NoExecutor)
    ensures executor != null && !Safe(entityLabel) ==> err == Some(BadLabel) && executor.statements == old(executor.statements)
    ensures executor != null && Safe(entityLabel) && rows == [] ==> err.None? && executor.statements == old(executor.statements)
    ensures executor != null && Safe(entityLabel) && rows != [] ==>
      if exists k :: k in ExtraKeys(rows) && !Safe(k) then err == Some(BadKey) && executor.statements == old(executor.statements)
      else
        && (err.None? || err == Some(StoreFailed)) && IsOrdering(keys, ExtraKeys(rows))
        && Executed(executor.accepts, old(executor.statements),
                    Plan(entityLabel, keys, rows, if batchSize <= 0 then DEFAULT_BATCH_SIZE else batchSize),
                    executor.statements, err.None?)
  {
    keys := [];
    if executor == null {
      return Some(NoExecutor), keys;
    }
    if !Safe(entityLabel) {
      return Some(BadLabel), keys;
    }
    if |rows| == 0 {
      return None, keys;
    }
    var size: nat := if batchSize <= 0 then DEFAULT_BATCH_SIZE else batchSize;
    var allExtraKeys := CollectExtraKeys(rows);
    keys := allExtraKeys;
    OrderingMembers(keys, ExtraKeys(rows));
    if !AllSafe(allExtraKeys) {
      assert exists i :: 0 <= i < |allExtraKeys| && !Safe(allExtraKeys[i]) && allExtraKeys[i] in ExtraKeys(rows);
      return Some(BadKey), keys;
    }
    var uidRows, nameRows := SplitRows(rows, allExtraKeys);
    var ok := ExecuteSplit(executor, entityLabel, allExtraKeys, uidRows, nameRows, size);
    return if ok then None else Some(StoreFailed), keys;
  }

  method SplitRows(rows: seq<Row>, keys: seq<string>) returns (uidRows: seq<Params>, nameRows: seq<Params>)
    ensures uidRows == MapsOf(rows, keys, true) && nameRows == MapsOf(rows, keys, false)
  {
    uidRows, nameRows := [], [];
    for i := 0 to |rows|
      invariant uidRows == MapsOf(rows[..i], keys, true) && nameRows == MapsOf(rows[..i], keys, false)
    {
      var rowMap := EntityRowToMap(rows[i], keys);
      assert rows[..i + 1][..i] == rows[..i];
      if rows[i].uid != "" {
        uidRows := uidRows + [rowMap];
      } else {
        nameRows := nameRows + [rowMap];
      }
    }
    assert rows[..|rows|] == rows;
  }

  method ExecuteSplit(executor: Executor, entityLabel: string, keys: seq<string>, uidRows: seq<Params>, nameRows: seq<Params>, size: nat)
    returns (ok: bool)
    requires size > 0
    modifies executor
    ensures Executed(executor.accepts, old(executor.statements),
      Batches(entityLabel, true, keys, uidRows, size) + Batches(entityLabel, false, keys, nameRows, size), executor.statements, ok)
  {
    ghost var before := executor.statements;
    ghost var byUid, byName := Batches(entityLabel, true, keys, uidRows, size), Batches(entityLabel, false, keys, nameRows, size);
    ok := true;
    if |uidRows| > 0 {
      ok := ExecuteBatched(executor, entityLabel, true, keys, uidRows, size);
      if !ok {
        ExecutedStops(executor.accepts, before, byUid, executor.statements, byName);
        return;
      }
    }
    ghost var mid := executor.statements;
    if |nameRows| > 0 {
      ok := ExecuteBatched(executor, entityLabel, false, keys, nameRows, size);
    }
    ExecutedThen(executor.accepts, before, byUid, mid, byName, executor.statements, ok);
  }

  // ------------------------------------------------- batches against singles

  /** What one statement per row executes. */
  ghost predicate AreSingles(stmts: seq<Statement>, entityLabel: string, rows: seq<Row>) {
    |stmts| == |rows| && forall i :: 0 <= i < |rows| ==> IsSingle(stmts[i], entityLabel, rows[i])
  }

  lemma {:induction false} MapsOfUniform(rows: seq<Row>, keys: seq<string>)
    requires forall i :: 0 <= i < |rows| ==> rows[i].uid != ""
    ensures MapsOf(rows, keys, true) == seq(|rows|, i requires 0 <= i < |rows| => RowMap(rows[i], keys))
    ensures MapsOf(rows, keys, false) == []
  {
    if rows != [] {
      MapsOfUniform(rows[..|rows| - 1], keys);
    }
  }

  lemma {:induction false} MergeRowsConcat(g: Graph, entityLabel: string, keys: seq<string>, a: seq<Params>, b: seq<Params>)
    ensures MergeRows(g, entityLabel, keys, a + b) == MergeRows(MergeRows(g, entityLabel, keys, a), entityLabel, keys, b)
  {
    if b == [] {
      assert a + b == a;
    } else {
      var n := |b| - 1;
      MergeRowsConcat(g, entityLabel, keys, a, b[..n]);
      assert (a + b)[..|a| + n] == a + b[..n];
    }
  }

  lemma {:induction false} RunConcat(g: Graph, a: seq<Statement>, b: seq<Statement>)
    ensures RunAll(g, a + b) == RunAll(RunAll(g, a), b)
  {
    if b == [] {
      assert a + b == a;
    } else {
      var n := |b| - 1;
      RunConcat(g, a, b[..n]);
      assert (a + b)[..|a| + n] == a + b[..n];
    }
  }

  /** Cutting rows into batches of any size leaves the graph of merging them row by row. */
  lemma {:induction false} BatchesAreRowByRow(g: Graph, entityLabel: string, byUid: bool, keys: seq<string>, rows: seq<Params>, size: nat)
    requires size > 0
    ensures RunAll(g, Batches(entityLabel, byUid, keys, rows, size)) == MergeRows(g, entityLabel, keys, rows)
    decreases |rows|
  {
    if rows != [] {
      var n := Min(size, |rows|);
      var first := MergeMany(entityLabel, byUid, keys, rows[..n]);
      var after := MergeRows(g, entityLabel, keys, rows[..n]);
      UnwindIsRowByRow(g, entityLabel, keys, rows[..n]);
      assert [first][..0] == [];
      assert RunAll(g, [first]) == after;
      RunConcat(g, [first], Batches(entityLabel, byUid, keys, rows[n..], size));
      BatchesAreRowByRow(after, entityLabel, byUid, keys, rows[n..], size);
      MergeRowsConcat(g, entityLabel, keys, rows[..n], rows[n..]);
      assert rows[..n] + rows[n..] == rows;
    }
  }

  function EmptyGraph(path: string): Graph {
    Graph({Text(path)}, map[], {})
  }

  lemma OneRowMakes(g: Graph, entityLabel: string, keys: seq<string>, p: Params)
    requires FindsFile(g.files, p) && g.nodes == map[]
    ensures MergeRow(g, entityLabel, keys, p).nodes.Keys == {IdOf(entityLabel, p)}
    ensures MergeRows(g, entityLabel, keys, [p]) == MergeRow(g, entityLabel, keys, p)
  {
    assert [p][..0] == [];
  }

  /** An extra property named "uid" moves a batched row to another node. */
  lemma UidPropertyMovesRow(row: Row, single: Statement, other: string)
    requires row.uid != "" && row.extra == map["uid" := Text(other)] && IsSingle(single, "Function", row)
    ensures var g, batch := EmptyGraph(row.filePath), MergeMany("Function", true, ["uid"], [RowMap(row, ["uid"])]);
      && Run(g, batch).nodes.Keys == {("Function", Text(other))}
      && Run(g, single).nodes.Keys == {("Function", Text(row.uid))}
  {
    var g, p := EmptyGraph(row.filePath), RowMap(row, ["uid"]);
    assert "file_path" != "uid" by {
      assert |"file_path"| != |"uid"|;
    }
    UnwindIsRowByRow(g, "Function", ["uid"], [p]);
    OneRowMakes(g, "Function", ["uid"], p);
    OneRowMakes(g, "Function", single.keys, single.params);
  }

  predicate PlainName(k: string) {
    k != "uid" && k != "file_path" && k != "name" && k != "path" && k != "line_number"
  }

  lemma RowFacts(row: Row, k: string)
    requires PlainName(k)
    ensures var p := RowMap(row, [k]);
      PathOf(p) == Text(row.filePath) && IdOf("Function", p) == ("Function", Text(row.uid)) && Get(p, k) == Get(row.extra, k)
  {
  }

  lemma SingleFacts(row: Row, k: string)
    requires PlainName(k) && row.uid != "" && row.extra.Keys <= {k}
    ensures var p := SingleParams(row);
      PathOf(p) == Text(row.filePath) && IdOf("Function", p) == ("Function", Text(row.uid)) && Get(p, k) == Get(row.extra, k)
  {
  }

  /** A property that only an earlier row of the same entity has is taken away by a batch ... */
  lemma BatchTakesAway(first: Row, second: Row, k: string)
    requires PlainName(k) && first.filePath == second.filePath && second.extra == map[]
    ensures var batch := MergeMany("Function", true, [k], [RowMap(first, [k]), RowMap(second, [k])]);
      var after, id := Run(EmptyGraph(second.filePath), batch), ("Function", Text(second.uid));
      id in after.nodes && k !in after.nodes[id]
  {
    var g, p, q := EmptyGraph(second.filePath), RowMap(first, [k]), RowMap(second, [k]);
    RowFacts(first, k);
    RowFacts(second, k);
    UnwindIsRowByRow(g, "Function", [k], [p, q]);
    RowsInTurn(g, "Function", [k], p, q);
    NoLongerThere(MergeRow(g, "Function", [k], p), k, q);
  }

  /** ... and kept by one statement per row. */
  lemma SinglesKeep(first: Row, second: Row, k: string, a: Statement, b: Statement)
    requires PlainName(k) && first.filePath == second.filePath && first.uid == second.uid != ""
    requires first.extra.Keys == {k} && first.extra[k] != Null && second.extra == map[]
    requires IsSingle(a, "Function", first) && IsSingle(b, "Function", second)
    ensures var after, id := RunAll(EmptyGraph(second.filePath), [a, b]), ("Function", Text(second.uid));
      id in after.nodes && k in after.nodes[id]
  {
    OrderingMembers(a.keys, {k});
    OrderingMembers(b.keys, {});
    assert a.keys == [k] && b.keys == [];
    SingleFacts(first, k);
    SingleFacts(second, k);
    SetAndKept(EmptyGraph(second.filePath), k, a.params, b.params);
    InTurn(EmptyGraph(second.filePath), a, b);
  }

  lemma RowsInTurn(g: Graph, entityLabel: string, keys: seq<string>, p: Params, q: Params)
    ensures MergeRows(g, entityLabel, keys, [p, q]) == MergeRow(MergeRow(g, entityLabel, keys, p), entityLabel, keys, q)
  {
    var both := [p, q];
    assert [p][..0] == [];
    assert MergeRows(g, entityLabel, keys, [p]) == MergeRow(g, entityLabel, keys, p);
    assert both[..1] == [p] && both[1] == q;
    assert MergeRows(g, entityLabel, keys, both) == MergeRow(MergeRows(g, entityLabel, keys, both[..1]), entityLabel, keys, both[1]);
  }

  lemma InTurn(g: Graph, a: Statement, b: Statement)
    ensures RunAll(g, [a, b]) == Run(Run(g, a), b)
  {
    assert [a][..0] == [];
    assert RunAll(g, [a]) == Run(g, a);
    var both := [a, b];
    assert |both| == 2 && both[..1] == [a] && both[1] == b;
    assert RunAll(g, both) == Run(RunAll(g, both[..1]), both[1]);
  }

  lemma NoLongerThere(g: Graph, k: string, q: Params)
    requires FindsFile(g.files, q) && Get(q, k) == Null
    ensures var id := IdOf("Function", q);
      var after := MergeRow(g, "Function", [k], q);
      id in after.nodes && k !in after.nodes[id]
  {
    assert [k][..0] == [];
  }

  lemma SetAndKept(g: Graph, k: string, p: Params, q: Params)
    requires FindsFile(g.files, p) && FindsFile(g.files, q) && IdOf("Function", p) == IdOf("Function", q)
    requires Get(p, k) != Null && PlainName(k)
    ensures var id := IdOf("Function", q);
      var after := MergeRow(MergeRow(g, "Function", [k], p), "Function", [], q);
      id in after.nodes && k in after.nodes[id]
  {
    assert [k][..0] == [];
  }
}
