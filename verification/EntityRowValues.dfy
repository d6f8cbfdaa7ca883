/** What the graph says of a row once it has been merged, alone or in a batch. */
module EntityRowValues {

  import opened Basics
  import opened Counting
  import opened StringSort
  import opened EntityMerge
  import opened EntityBatches
  import opened EntityWrites
  import opened EntityAgreement

  function NodeId(entityLabel: string, row: Row): Id {
    (entityLabel, Text(row.uid))
  }

  /** The property is there with its value; a null property is not there. */
  predicate Has(node: map<string, Value>, property: string, value: Value) {
    if value == Null then property !in node else property in node && node[property] == value
  }

  /** The graph has the row's node, with the row's name, path, line and extra properties, in the row's file. */
  ghost predicate Shows(g: Graph, entityLabel: string, row: Row) {
    var id := NodeId(entityLabel, row);
    && id in g.nodes
    && Has(g.nodes[id], "name", Text(row.name))
    && Has(g.nodes[id], "path", Text(row.filePath))
    && Has(g.nodes[id], "line_number", Number(row.lineNumber))
    && (forall k :: k in row.extra ==> Has(g.nodes[id], k, row.extra[k]))
    && (Text(row.filePath), id) in g.contains
  }

  /** The row has a node and a file that is in the graph. */
  predicate Placed(g: Graph, row: Row) {
    row.uid != "" && Text(row.filePath) in g.files
  }

  predicate AllPlain(names: set<string>) {
    forall k :: k in names ==> PlainName(k)
  }

  /** What a statement for the row writes. */
  ghost predicate Carries(keys: seq<string>, p: Params, entityLabel: string, row: Row) {
    && IdOf(entityLabel, p) == NodeId(entityLabel, row) && PathOf(p) == Text(row.filePath)
    && Written(keys, p, "name") == Some(Text(row.name))
    && Written(keys, p, "path") == Some(Text(row.filePath))
    && Written(keys, p, "line_number") == Some(Number(row.lineNumber))
    && forall k :: k in row.extra ==> Written(keys, p, k) == Some(row.extra[k])
  }

  lemma NamedAt(row: Row)
    ensures Get(Named(row), "name") == Text(row.name)
    ensures Get(Named(row), "file_path") == Text(row.filePath)
    ensures Get(Named(row), "line_number") == Number(row.lineNumber)
  {
    assert |"name"| == 4 && |"file_path"| == 9 && |"line_number"| == 11;
  }

  lemma SingleCarries(entityLabel: string, row: Row, single: Statement)
    requires row.uid != "" && AllPlain(row.extra.Keys) && IsSingle(single, entityLabel, row)
    ensures Carries(single.keys, single.params, entityLabel, row)
  {
    OrderingMembers(single.keys, row.extra.Keys);
    NamedAt(row);
    assert |"uid"| == 3 && |"name"| == 4 && |"file_path"| == 9 && |"line_number"| == 11;
    SingleParamsAt(row, "name");
    SingleParamsAt(row, "file_path");
    SingleParamsAt(row, "line_number");
    forall k | k in row.extra ensures Written(single.keys, single.params, k) == Some(row.extra[k]) {
      SingleParamsAt(row, k);
    }
  }

  lemma RowCarries(entityLabel: string, keys: seq<string>, row: Row)
    requires (forall k :: k in keys ==> PlainName(k)) && forall k :: k in row.extra ==> k in keys
    ensures Carries(keys, RowMap(row, keys), entityLabel, row)
  {
    NamedAt(row);
    assert |"uid"| == 3 && |"name"| == 4 && |"file_path"| == 9 && |"line_number"| == 11;
    RowMapAt(row, keys, "name");
    RowMapAt(row, keys, "file_path");
    RowMapAt(row, keys, "line_number");
    forall k | k in row.extra ensures Written(keys, RowMap(row, keys), k) == Some(row.extra[k]) {
      RowMapAt(row, keys, k);
    }
  }

  lemma AllCarry(entityLabel: string, keys: seq<string>, rows: seq<Row>)
    requires IsOrdering(keys, ExtraKeys(rows)) && AllPlain(ExtraKeys(rows))
    ensures forall j :: 0 <= j < |rows| ==> Carries(keys, RowMap(rows[j], keys), entityLabel, rows[j])
  {
    OrderingMembers(keys, ExtraKeys(rows));
    forall j | 0 <= j < |rows| ensures Carries(keys, RowMap(rows[j], keys), entityLabel, rows[j]) {
      forall k | k in rows[j].extra ensures k in keys {
        KeysOfRow(rows, j, k);
      }
      RowCarries(entityLabel, keys, rows[j]);
    }
  }

  /** The statement of a row, if no later one is about its node, leaves its values. */
  lemma LastCarrierShows(g: Graph, stmts: seq<Statement>, entityLabel: string, row: Row, n: nat)
    requires AllSingle(stmts) && n < |stmts| && Text(row.filePath) in g.files
    requires stmts[n].entityLabel == entityLabel && Carries(stmts[n].keys, stmts[n].params, entityLabel, row)
    requires forall j :: n < j < |stmts| ==> IdOf(stmts[j].entityLabel, stmts[j].params) != NodeId(entityLabel, row)
    ensures Shows(RunAll(g, stmts), entityLabel, row)
  {
    CarriedAt(g, stmts, entityLabel, row, n, "name");
    CarriedAt(g, stmts, entityLabel, row, n, "path");
    CarriedAt(g, stmts, entityLabel, row, n, "line_number");
    forall k | k in row.extra ensures Has(NodeOf(RunAll(g, stmts), NodeId(entityLabel, row)), k, row.extra[k]) {
      CarriedAt(g, stmts, entityLabel, row, n, k);
    }
    var path, id := Text(row.filePath), NodeId(entityLabel, row);
    EdgeAfter(g, stmts, path, id);
    WriteIsSeen(stmts, {path}, id, "name", n);
  }

  lemma CarriedAt(g: Graph, stmts: seq<Statement>, entityLabel: string, row: Row, n: nat, k: string)
    requires AllSingle(stmts) && n < |stmts| && Text(row.filePath) in g.files
    requires stmts[n].entityLabel == entityLabel && Carries(stmts[n].keys, stmts[n].params, entityLabel, row)
    requires forall j :: n < j < |stmts| ==> IdOf(stmts[j].entityLabel, stmts[j].params) != NodeId(entityLabel, row)
    requires Written(stmts[n].keys, stmts[n].params, k).Some?
    ensures var h, id := RunAll(g, stmts), NodeId(entityLabel, row);
      id in h.nodes && Has(h.nodes[id], k, Written(stmts[n].keys, stmts[n].params, k).value)
  {
    var id := NodeId(entityLabel, row);
    LastAt(stmts, g.files, id, k, n);
    LastAt(stmts, g.files, id, "name", n);
    NodeAfter(g, stmts, id, k);
  }

  /** One statement leaves the row's own values in the graph. */
  lemma SingleShows(g: Graph, entityLabel: string, row: Row, single: Statement)
    requires Placed(g, row) && AllPlain(row.extra.Keys) && IsSingle(single, entityLabel, row)
    ensures Shows(Run(g, single), entityLabel, row)
  {
    SingleCarries(entityLabel, row, single);
    LastCarrierShows(g, [single], entityLabel, row, 0);
    assert [single][..0] == [];
    assert RunAll(g, [single]) == Run(g, single);
  }

  /** So does a batch of any size, for the last row of each node. */
  lemma BatchShows(g: Graph, entityLabel: string, keys: seq<string>, rows: seq<Row>, size: nat, n: nat)
    requires size > 0 && Acceptable(rows) && n < |rows| && Placed(g, rows[n])
    requires IsOrdering(keys, ExtraKeys(rows)) && AllPlain(ExtraKeys(rows))
    requires forall j :: n < j < |rows| ==> rows[j].uid != rows[n].uid
    ensures Shows(RunAll(g, Plan(entityLabel, keys, rows, size)), entityLabel, rows[n])
  {
    var stmts := RowStatements(entityLabel, keys, rows);
    AllCarry(entityLabel, keys, rows);
    LastCarrierShows(g, stmts, entityLabel, rows[n], n);
    PlanRun(g, entityLabel, keys, rows, size);
  }

  /** A property of the batch that the row does not have is not on its node either. */
  lemma BatchShowsNoMore(g: Graph, entityLabel: string, keys: seq<string>, rows: seq<Row>, size: nat, n: nat, k: string)
    requires size > 0 && Acceptable(rows) && n < |rows| && Placed(g, rows[n])
    requires IsOrdering(keys, ExtraKeys(rows)) && AllPlain(ExtraKeys(rows))
    requires forall j :: n < j < |rows| ==> rows[j].uid != rows[n].uid
    requires k in ExtraKeys(rows) && k !in rows[n].extra
    ensures var h, id := RunAll(g, Plan(entityLabel, keys, rows, size)), NodeId(entityLabel, rows[n]);
      id in h.nodes && k !in h.nodes[id]
  {
    OrderingMembers(keys, ExtraKeys(rows));
    var stmts := RowStatements(entityLabel, keys, rows);
    AllCarry(entityLabel, keys, rows);
    RowMapAt(rows[n], keys, k);
    CarriedAt(g, stmts, entityLabel, rows[n], n, k);
    PlanRun(g, entityLabel, keys, rows, size);
  }

  /** One statement leaves a node's other properties alone. */
  lemma SingleKeepsRest(g: Graph, entityLabel: string, row: Row, single: Statement, k: string)
    requires Placed(g, row) && AllPlain(row.extra.Keys) && IsSingle(single, entityLabel, row)
    requires k !in row.extra && k != "name" && k != "path" && k != "line_number"
    ensures var h, id := Run(g, single), NodeId(entityLabel, row);
      id in h.nodes && Cell(h.nodes[id], k) == Cell(NodeOf(g, id), k)
  {
    SingleCarries(entityLabel, row, single);
    OrderingMembers(single.keys, row.extra.Keys);
    OneStatement(g, single, NodeId(entityLabel, row), k);
  }

  /** Statements that a store ran without a failure show each node's last row. */
  lemma ExecutedBatchShows(g: Graph, accepts: Acceptance, before: seq<Statement>, after: seq<Statement>,
                           entityLabel: string, keys: seq<string>, rows: seq<Row>, size: nat, n: nat)
    requires size > 0 && Acceptable(rows) && n < |rows| && Placed(RunAll(g, before), rows[n])
    requires IsOrdering(keys, ExtraKeys(rows)) && AllPlain(ExtraKeys(rows))
    requires forall j :: n < j < |rows| ==> rows[j].uid != rows[n].uid
    requires Executed(accepts, before, Plan(entityLabel, keys, rows, size), after, true)
    ensures Shows(RunAll(g, after), entityLabel, rows[n])
  {
    var plan := Plan(entityLabel, keys, rows, size);
    ExecutedAll(accepts, before, plan, after);
    RunConcat(g, before, plan);
    BatchShows(RunAll(g, before), entityLabel, keys, rows, size, n);
  }

  // ------------------------------------------------------- what a plan holds

  /** The rows of a statement, if it merges by this identity. */
  function RowsOf(stmt: Statement, byUid: bool): seq<Params> {
    if stmt.MergeMany? && stmt.byUid == byUid then stmt.rows else []
  }

  /** The rows that the statements of one identity carry, in order. */
  function RowsSent(stmts: seq<Statement>, byUid: bool): seq<Params> {
    if stmts == [] then [] else RowsOf(stmts[0], byUid) + RowsSent(stmts[1..], byUid)
  }

  /** The rows with a uid, or those without, are at these indexes. */
  ghost predicate RowsAt(rows: seq<Row>, byUid: bool, at: seq<nat>) {
    && (forall j :: 0 <= j < |at| ==> at[j] < |rows|)
    && (forall j, k :: 0 <= j < k < |at| ==> at[j] < at[k])
    && (forall i: nat :: i in at <==> i < |rows| && (rows[i].uid != "") == byUid)
  }

  ghost predicate MappedAt(maps: seq<Params>, rows: seq<Row>, keys: seq<string>, at: seq<nat>) {
    |maps| == |at| && forall j :: 0 <= j < |at| ==> at[j] < |rows| && maps[j] == RowMap(rows[at[j]], keys)
  }

  lemma RowsOneMore(front: seq<Row>, last: Row, byUid: bool, at: seq<nat>)
    requires RowsAt(front, byUid, at)
    ensures RowsAt(front + [last], byUid, if (last.uid != "") == byUid then at + [|front|] else at)
  {
    var mine := (last.uid != "") == byUid;
    var more := if mine then at + [|front|] else at;
    forall i: nat ensures i in more <==> i < |front + [last]| && ((front + [last])[i].uid != "") == byUid {
      assert i < |front| ==> (front + [last])[i] == front[i];
      assert i in at ==> i < |front|;
      assert i in more <==> i in at || (mine && i == |front|);
    }
  }

  lemma MappedOneMore(maps: seq<Params>, front: seq<Row>, last: Row, keys: seq<string>, at: seq<nat>)
    requires MappedAt(maps, front, keys, at)
    ensures MappedAt(maps, front + [last], keys, at)
    ensures MappedAt(maps + [RowMap(last, keys)], front + [last], keys, at + [|front|])
  {
  }

  lemma {:induction false} MapsAre(rows: seq<Row>, keys: seq<string>, byUid: bool) returns (at: seq<nat>)
    ensures RowsAt(rows, byUid, at) && MappedAt(MapsOf(rows, keys, byUid), rows, keys, at)
  {
    if rows == [] {
      at := [];
    } else {
      var front, last := rows[..|rows| - 1], rows[|rows| - 1];
      assert rows == front + [last];
      at := MapsAre(front, keys, byUid);
      RowsOneMore(front, last, byUid, at);
      MappedOneMore(MapsOf(front, keys, byUid), front, last, keys, at);
      at := if (last.uid != "") == byUid then at + [|front|] else at;
    }
  }

  lemma Prepended(stmt: Statement, rest: seq<Statement>, byUid: bool)
    ensures RowsSent([stmt] + rest, byUid) == RowsOf(stmt, byUid) + RowsSent(rest, byUid)
  {
    assert ([stmt] + rest)[1..] == rest;
  }

  lemma {:induction false} SentConcat(a: seq<Statement>, b: seq<Statement>, byUid: bool)
    ensures RowsSent(a + b, byUid) == RowsSent(a, byUid) + RowsSent(b, byUid)
  {
    if a == [] {
      assert a + b == b;
    } else {
      SentConcat(a[1..], b, byUid);
      Prepended(a[0], a[1..] + b, byUid);
      assert a + b == [a[0]] + (a[1..] + b);
      Associate(RowsOf(a[0], byUid), RowsSent(a[1..], byUid), RowsSent(b, byUid));
    }
  }

  /** A batch statement for `label`, of at most `size` rows. */
  predicate Fits(stmt: Statement, entityLabel: string, byUid: bool, keys: seq<string>, size: nat) {
    && stmt.MergeMany? && stmt.entityLabel == entityLabel && stmt.byUid == byUid && stmt.keys == keys
    && 0 < |stmt.rows| <= size
  }

  lemma {:induction false} BatchesHold(entityLabel: string, byUid: bool, keys: seq<string>, rows: seq<Params>, size: nat)
    requires size > 0
    ensures RowsSent(Batches(entityLabel, byUid, keys, rows, size), byUid) == rows
    ensures RowsSent(Batches(entityLabel, byUid, keys, rows, size), !byUid) == []
    decreases |rows|
  {
    if rows != [] {
      var n := Min(size, |rows|);
      var first, rest := MergeMany(entityLabel, byUid, keys, rows[..n]), Batches(entityLabel, byUid, keys, rows[n..], size);
      BatchesHold(entityLabel, byUid, keys, rows[n..], size);
      Prepended(first, rest, byUid);
      Prepended(first, rest, !byUid);
      assert rows == rows[..n] + rows[n..];
    }
  }

  predicate AllFit(stmts: seq<Statement>, entityLabel: string, byUid: bool, keys: seq<string>, size: nat) {
    forall i :: 0 <= i < |stmts| ==> Fits(stmts[i], entityLabel, byUid, keys, size)
  }

  lemma {:induction false} BatchesFit(entityLabel: string, byUid: bool, keys: seq<string>, rows: seq<Params>, size: nat)
    requires size > 0
    ensures AllFit(Batches(entityLabel, byUid, keys, rows, size), entityLabel, byUid, keys, size)
    decreases |rows|
  {
    if rows != [] {
      BatchesFit(entityLabel, byUid, keys, rows[Min(size, |rows|)..], size);
    }
  }

  /**
    Every row is in the plan once: those with a uid in statements by uid, in order, and then those
    without in statements by name, in order; no statement has more rows than the batch size.
   */
  lemma PlanHoldsRows(entityLabel: string, keys: seq<string>, rows: seq<Row>, size: nat) returns (uids: seq<nat>, names: seq<nat>, cut: nat)
    requires size > 0
    ensures RowsAt(rows, true, uids) && RowsAt(rows, false, names)
    ensures var plan := Plan(entityLabel, keys, rows, size);
      && MappedAt(RowsSent(plan, true), rows, keys, uids) && MappedAt(RowsSent(plan, false), rows, keys, names)
      && cut <= |plan| && forall i :: 0 <= i < |plan| ==> Fits(plan[i], entityLabel, i < cut, keys, size)
  {
    uids := MapsAre(rows, keys, true);
    names := MapsAre(rows, keys, false);
    BatchesHold(entityLabel, true, keys, MapsOf(rows, keys, true), size);
    BatchesHold(entityLabel, false, keys, MapsOf(rows, keys, false), size);
    BatchesFit(entityLabel, true, keys, MapsOf(rows, keys, true), size);
    BatchesFit(entityLabel, false, keys, MapsOf(rows, keys, false), size);
    var byUid := Batches(entityLabel, true, keys, MapsOf(rows, keys, true), size);
    var byName := Batches(entityLabel, false, keys, MapsOf(rows, keys, false), size);
    SentConcat(byUid, byName, true);
    SentConcat(byUid, byName, false);
    cut := |byUid|;
    assert RowsSent(byUid, true) + [] == RowsSent(byUid, true);
  }

  /** What could end a quoted name or a label is not safe, nor is a leading digit; safe names can be put together. */
  lemma SafeNames(name: string, more: string)
    ensures !Safe("")
    ensures (exists i :: 0 <= i < |name| && (name[i] == '`' || name[i] == ' ' || name[i] == '-' || name[i] == ':' || name[i] == '}')) ==> !Safe(name)
    ensures name != "" && '0' <= name[0] <= '9' ==> !Safe(name)
    ensures Safe(name) && Safe(more) ==> Safe(name + more) && Safe(name + "_" + more) && Safe(name + "1")
  {
  }
}
