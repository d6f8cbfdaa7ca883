/** Merging entities into the graph: one statement each, or many rows a statement. */
module EntityMerge {

  datatype Value = Null | Text(s: string) | Number(n: int) | Other(id: int)

  type Params = map<string, Value>

  datatype Row = Row(filePath: string, name: string, lineNumber: int, uid: string, extra: map<string, Value>)

  /** A Cypher statement, by what fills its template in; `byUid` tells which identity it merges on. */
  datatype Statement =
    | MergeOne(entityLabel: string, byUid: bool, keys: seq<string>, params: Params)
    | MergeMany(entityLabel: string, byUid: bool, keys: seq<string>, rows: seq<Params>)

  predicate Letter(c: char) {
    'a' <= c <= 'z' || 'A' <= c <= 'Z' || c == '_'
  }

  /** A name that may stand in a statement. */
  predicate Safe(name: string) {
    name != "" && Letter(name[0]) && forall i :: 0 <= i < |name| ==> Letter(name[i]) || '0' <= name[i] <= '9'
  }

  predicate AllSafe(names: seq<string>) {
    forall i :: 0 <= i < |names| ==> Safe(names[i])
  }

  // ------------------------------------------------------------- small graphs

  /** A node, by its label and uid. */
  type Id = (string, Value)

  /** File nodes by path, entity nodes with their properties, and CONTAINS edges. */
  datatype Graph = Graph(files: set<Value>, nodes: map<Id, map<string, Value>>, contains: set<(Value, Id)>)

  function Get(p: Params, key: string): Value {
    if key in p then p[key] else Null
  }

  function PathOf(p: Params): Value {
    Get(p, "file_path")
  }

  /** MATCH (f:File {path: ...}); nothing matches null. */
  predicate FindsFile(files: set<Value>, p: Params) {
    PathOf(p) != Null && PathOf(p) in files
  }

  function IdOf(entityLabel: string, p: Params): Id {
    (entityLabel, Get(p, "uid"))
  }

  /** SET n.property = value; null takes the property away. */
  function SetProperty(node: map<string, Value>, property: string, value: Value): map<string, Value> {
    if value == Null then node - {property} else node[property := value]
  }

  function SetExtras(node: map<string, Value>, keys: seq<string>, p: Params): map<string, Value> {
    if keys == [] then node
    else SetProperty(SetExtras(node, keys[..|keys| - 1], p), keys[|keys| - 1], Get(p, keys[|keys| - 1]))
  }

  function SetAll(node: map<string, Value>, keys: seq<string>, p: Params): map<string, Value> {
    var named := SetProperty(node, "name", Get(p, "name"));
    var placed := SetProperty(named, "path", Get(p, "file_path"));
    SetExtras(SetProperty(placed, "line_number", Get(p, "line_number")), keys, p)
  }

  function MergeNode(nodes: map<Id, map<string, Value>>, id: Id): map<Id, map<string, Value>> {
    if id in nodes then nodes else nodes[id := map["uid" := id.1]]
  }

  function SetNode(nodes: map<Id, map<string, Value>>, id: Id, keys: seq<string>, p: Params): map<Id, map<string, Value>> {
    if id in nodes then nodes[id := SetAll(nodes[id], keys, p)] else nodes
  }

  /** One row, all clauses: MATCH the file, MERGE the node, SET its properties, MERGE the edge. */
  function MergeRow(g: Graph, entityLabel: string, keys: seq<string>, p: Params): Graph {
    if !FindsFile(g.files, p) then g
    else
      var id := IdOf(entityLabel, p);
      Graph(g.files, SetNode(MergeNode(g.nodes, id), id, keys, p), g.contains + {(PathOf(p), id)})
  }

  function MergeRows(g: Graph, entityLabel: string, keys: seq<string>, rows: seq<Params>): Graph {
    if rows == [] then g
    else MergeRow(MergeRows(g, entityLabel, keys, rows[..|rows| - 1]), entityLabel, keys, rows[|rows| - 1])
  }

  // ------------------------------------------- UNWIND, clause by clause

  /** MATCH keeps the rows whose file is in the graph. */
  function Matched(files: set<Value>, rows: seq<Params>): seq<Params> {
    if rows == [] then []
    else Matched(files, rows[..|rows| - 1]) + if FindsFile(files, rows[|rows| - 1]) then [rows[|rows| - 1]] else []
  }

  function MergeNodes(nodes: map<Id, map<string, Value>>, entityLabel: string, rows: seq<Params>): map<Id, map<string, Value>> {
    if rows == [] then nodes
    else MergeNode(MergeNodes(nodes, entityLabel, rows[..|rows| - 1]), IdOf(entityLabel, rows[|rows| - 1]))
  }

  function SetNodes(nodes: map<Id, map<string, Value>>, entityLabel: string, keys: seq<string>, rows: seq<Params>)
    : map<Id, map<string, Value>>
  {
    if rows == [] then nodes
    else
      var last := rows[|rows| - 1];
      SetNode(SetNodes(nodes, entityLabel, keys, rows[..|rows| - 1]), IdOf(entityLabel, last), keys, last)
  }

  function Edges(entityLabel: string, rows: seq<Params>): set<(Value, Id)> {
    set i | 0 <= i < |rows| :: (PathOf(rows[i]), IdOf(entityLabel, rows[i]))
  }

  /** Each clause runs over all rows before the next clause does. */
  function UnwindRows(g: Graph, entityLabel: string, keys: seq<string>, rows: seq<Params>): Graph {
    var matched := Matched(g.files, rows);
    Graph(g.files, SetNodes(MergeNodes(g.nodes, entityLabel, matched), entityLabel, keys, matched),
          g.contains + Edges(entityLabel, matched))
  }

  /** Statements on uid identity; the others are not part of these graphs. */
  function Run(g: Graph, stmt: Statement): Graph {
    match stmt
    case MergeOne(entityLabel, _, keys, params) => MergeRow(g, entityLabel, keys, params)
    case MergeMany(entityLabel, _, keys, rows) => UnwindRows(g, entityLabel, keys, rows)
  }

  function RunAll(g: Graph, stmts: seq<Statement>): Graph {
    if stmts == [] then g else Run(RunAll(g, stmts[..|stmts| - 1]), stmts[|stmts| - 1])
  }

  lemma {:induction false} MergedIds(nodes: map<Id, map<string, Value>>, entityLabel: string, rows: seq<Params>, i: nat)
    requires i < |rows|
    ensures IdOf(entityLabel, rows[i]) in MergeNodes(nodes, entityLabel, rows)
  {
    if i < |rows| - 1 {
      MergedIds(nodes, entityLabel, rows[..|rows| - 1], i);
    }
  }

  lemma {:induction false} SetKeepsIds(nodes: map<Id, map<string, Value>>, entityLabel: string, keys: seq<string>, rows: seq<Params>)
    ensures SetNodes(nodes, entityLabel, keys, rows).Keys == nodes.Keys
  {
    if rows != [] {
      SetKeepsIds(nodes, entityLabel, keys, rows[..|rows| - 1]);
    }
  }

  /** A node that no row is about can be added before or after the rows set theirs. */
  lemma {:induction false} SetLeavesOthers(nodes: map<Id, map<string, Value>>, entityLabel: string, keys: seq<string>,
                                           rows: seq<Params>, id: Id, node: map<string, Value>)
    requires forall i :: 0 <= i < |rows| ==> IdOf(entityLabel, rows[i]) != id
    ensures SetNodes(nodes[id := node], entityLabel, keys, rows) == SetNodes(nodes, entityLabel, keys, rows)[id := node]
  {
    if rows != [] {
      var front, last := rows[..|rows| - 1], rows[|rows| - 1];
      SetLeavesOthers(nodes, entityLabel, keys, front, id, node);
      SetElsewhere(SetNodes(nodes, entityLabel, keys, front), IdOf(entityLabel, last), keys, last, id, node);
    }
  }

  lemma SetElsewhere(nodes: map<Id, map<string, Value>>, at: Id, keys: seq<string>, p: Params, id: Id, node: map<string, Value>)
    requires at != id
    ensures SetNode(nodes[id := node], at, keys, p) == SetNode(nodes, at, keys, p)[id := node]
  {
  }

  /** Merging the last row's node before the others set theirs, or after, is the same. */
  lemma MergeLastLater(nodes: map<Id, map<string, Value>>, entityLabel: string, keys: seq<string>, front: seq<Params>, id: Id)
    ensures var merged := MergeNodes(nodes, entityLabel, front);
      SetNodes(MergeNode(merged, id), entityLabel, keys, front) == MergeNode(SetNodes(merged, entityLabel, keys, front), id)
  {
    var merged := MergeNodes(nodes, entityLabel, front);
    SetKeepsIds(merged, entityLabel, keys, front);
    if id !in merged {
      forall i | 0 <= i < |front| ensures IdOf(entityLabel, front[i]) != id {
        MergedIds(nodes, entityLabel, front, i);
      }
      SetLeavesOthers(merged, entityLabel, keys, front, id, map["uid" := id.1]);
    }
  }

  lemma UnwindLast(g: Graph, entityLabel: string, keys: seq<string>, front: seq<Params>, last: Params)
    ensures UnwindRows(g, entityLabel, keys, front + [last]) ==
      MergeRow(UnwindRows(g, entityLabel, keys, front), entityLabel, keys, last)
  {
    var rows := front + [last];
    assert rows[..|front|] == front;
    var before := Matched(g.files, front);
    var matched := Matched(g.files, rows);
    if FindsFile(g.files, last) {
      assert matched == before + [last] && matched[..|before|] == before;
      MergeLastLater(g.nodes, entityLabel, keys, before, IdOf(entityLabel, last));
      assert Edges(entityLabel, matched) == Edges(entityLabel, before) + {(PathOf(last), IdOf(entityLabel, last))};
    } else {
      assert matched == before;
    }
  }

  /** UNWIND over rows leaves what merging the rows one by one leaves. */
  lemma {:induction false} UnwindIsRowByRow(g: Graph, entityLabel: string, keys: seq<string>, rows: seq<Params>)
    ensures UnwindRows(g, entityLabel, keys, rows) == MergeRows(g, entityLabel, keys, rows)
  {
    if rows == [] {
      assert Edges(entityLabel, []) == {};
    } else {
      var front, last := rows[..|rows| - 1], rows[|rows| - 1];
      UnwindIsRowByRow(g, entityLabel, keys, front);
      UnwindLast(g, entityLabel, keys, front, last);
      assert rows == front + [last];
    }
  }
}
