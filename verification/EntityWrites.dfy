/** Which statement writes a property last, and why that decides what two runs of statements leave. */
module EntityWrites {

  import opened Basics
  import opened EntityMerge

  /** What one statement writes to a property, if anything; null takes the property away. */
  function Written(keys: seq<string>, p: Params, k: string): Option<Value> {
    if k in keys then Some(Get(p, k))
    else if k == "name" || k == "line_number" then Some(Get(p, k))
    else if k == "path" then Some(PathOf(p))
    else None
  }

  function Cell(node: map<string, Value>, k: string): Option<Value> {
    if k in node then Some(node[k]) else None
  }

  function Over(cell: Option<Value>, write: Option<Value>): Option<Value> {
    if write.None? then cell else if write.value == Null then None else write
  }

  lemma {:induction false} SetExtrasAt(node: map<string, Value>, keys: seq<string>, p: Params, k: string)
    ensures Cell(SetExtras(node, keys, p), k) == Over(Cell(node, k), if k in keys then Some(Get(p, k)) else None)
  {
    if keys != [] {
      SetExtrasAt(node, keys[..|keys| - 1], p, k);
    }
  }

  lemma SetAllAt(node: map<string, Value>, keys: seq<string>, p: Params, k: string)
    ensures Cell(SetAll(node, keys, p), k) == Over(Cell(node, k), Written(keys, p, k))
  {
    var named := SetProperty(node, "name", Get(p, "name"));
    var placed := SetProperty(named, "path", PathOf(p));
    SetExtrasAt(SetProperty(placed, "line_number", Get(p, "line_number")), keys, p, k);
  }

  // -------------------------------------------------------------- last writes

  /** The statement finds its file among `files` and merges node `id`. */
  predicate Hits(stmt: Statement, files: set<Value>, id: Id) {
    stmt.MergeOne? && FindsFile(files, stmt.params) && IdOf(stmt.entityLabel, stmt.params) == id
  }

  predicate Writes(stmt: Statement, files: set<Value>, id: Id, k: string) {
    Hits(stmt, files, id) && Written(stmt.keys, stmt.params, k).Some?
  }

  /** The value that property `k` of node `id` is given last, when just these files exist. */
  function LastWrite(stmts: seq<Statement>, files: set<Value>, id: Id, k: string): Option<Value> {
    if stmts == [] then None
    else
      var last := stmts[|stmts| - 1];
      if Writes(last, files, id, k) then Written(last.keys, last.params, k)
      else LastWrite(stmts[..|stmts| - 1], files, id, k)
  }

  predicate AllSingle(stmts: seq<Statement>) {
    forall i :: 0 <= i < |stmts| ==> stmts[i].MergeOne?
  }

  function NodeOf(g: Graph, id: Id): map<string, Value> {
    if id in g.nodes then g.nodes[id] else map["uid" := id.1]
  }

  ghost predicate NodeSettled(g: Graph, h: Graph, stmts: seq<Statement>, id: Id, k: string) {
    && h.files == g.files
    && (id in h.nodes <==> id in g.nodes || LastWrite(stmts, g.files, id, "name").Some?)
    && (id in h.nodes ==> Cell(h.nodes[id], k) == Over(Cell(NodeOf(g, id), k), LastWrite(stmts, g.files, id, k)))
  }

  /** What the statement writes to property `k` of node `id`, if it gets to the node at all. */
  function HitWrite(stmt: Statement, files: set<Value>, id: Id, k: string): Option<Value> {
    if Hits(stmt, files, id) then Written(stmt.keys, stmt.params, k) else None
  }

  lemma OneStatement(g: Graph, stmt: Statement, id: Id, k: string)
    requires stmt.MergeOne?
    ensures Run(g, stmt).files == g.files
    ensures id in Run(g, stmt).nodes <==> id in g.nodes || Hits(stmt, g.files, id)
    ensures id in Run(g, stmt).nodes ==>
      Cell(Run(g, stmt).nodes[id], k) == Over(Cell(NodeOf(g, id), k), HitWrite(stmt, g.files, id, k))
  {
    if Hits(stmt, g.files, id) {
      SetAllAt(NodeOf(g, id), stmt.keys, stmt.params, k);
    }
  }

  /** A node whose name is not written is not written at all. */
  lemma {:induction false} NoNameNoWrite(stmts: seq<Statement>, files: set<Value>, id: Id, k: string)
    requires LastWrite(stmts, files, id, "name").None?
    ensures LastWrite(stmts, files, id, k).None?
  {
    if stmts != [] {
      var last := stmts[|stmts| - 1];
      assert Hits(last, files, id) ==> Writes(last, files, id, "name");
      NoNameNoWrite(stmts[..|stmts| - 1], files, id, k);
    }
  }

  lemma OneMoreSettled(g: Graph, front: seq<Statement>, last: Statement, id: Id, k: string)
    requires last.MergeOne? && NodeSettled(g, RunAll(g, front), front, id, k)
    ensures NodeSettled(g, RunAll(g, front + [last]), front + [last], id, k)
  {
    var stmts, between := front + [last], RunAll(g, front);
    assert stmts[..|front|] == front;
    OneStatement(between, last, id, k);
    if id !in between.nodes {
      NoNameNoWrite(front, g.files, id, k);
    }
    assert Hits(last, g.files, id) ==> Writes(last, g.files, id, "name");
  }

  /** After some statements a node has what was written last, and otherwise what it had. */
  lemma {:induction false} NodeAfter(g: Graph, stmts: seq<Statement>, id: Id, k: string)
    requires AllSingle(stmts)
    ensures NodeSettled(g, RunAll(g, stmts), stmts, id, k)
  {
    if stmts != [] {
      var n := |stmts| - 1;
      NodeAfter(g, stmts[..n], id, k);
      OneMoreSettled(g, stmts[..n], stmts[n], id, k);
      assert stmts == stmts[..n] + [stmts[n]];
    }
  }

  /** An edge is added exactly where some statement merges its node for its file. */
  lemma {:induction false} EdgeAfter(g: Graph, stmts: seq<Statement>, path: Value, id: Id)
    requires AllSingle(stmts)
    ensures RunAll(g, stmts).files == g.files
    ensures (path, id) in RunAll(g, stmts).contains <==>
      (path, id) in g.contains || (path in g.files && LastWrite(stmts, {path}, id, "name").Some?)
  {
    if stmts != [] {
      var n := |stmts| - 1;
      EdgeAfter(g, stmts[..n], path, id);
      assert Hits(stmts[n], {path}, id) ==> Writes(stmts[n], {path}, id, "name");
    }
  }

  lemma {:induction false} LastAt(stmts: seq<Statement>, files: set<Value>, id: Id, k: string, n: nat)
    requires n < |stmts| && Writes(stmts[n], files, id, k)
    requires forall j :: n < j < |stmts| ==> !Writes(stmts[j], files, id, k)
    ensures LastWrite(stmts, files, id, k) == Written(stmts[n].keys, stmts[n].params, k)
  {
    if n < |stmts| - 1 {
      LastAt(stmts[..|stmts| - 1], files, id, k, n);
    }
  }

  lemma {:induction false} SomeAt(stmts: seq<Statement>, files: set<Value>, id: Id, k: string) returns (n: nat)
    requires LastWrite(stmts, files, id, k).Some?
    ensures n < |stmts| && Writes(stmts[n], files, id, k)
    ensures forall j :: n < j < |stmts| ==> !Writes(stmts[j], files, id, k)
    ensures LastWrite(stmts, files, id, k) == Written(stmts[n].keys, stmts[n].params, k)
  {
    n := |stmts| - 1;
    if !Writes(stmts[n], files, id, k) {
      n := SomeAt(stmts[..n], files, id, k);
    }
  }

  lemma {:induction false} NoneAt(stmts: seq<Statement>, files: set<Value>, id: Id, k: string)
    requires forall j :: 0 <= j < |stmts| ==> !Writes(stmts[j], files, id, k)
    ensures LastWrite(stmts, files, id, k).None?
  {
    if stmts != [] {
      NoneAt(stmts[..|stmts| - 1], files, id, k);
    }
  }

  // --------------------------------------------------- agreement on every graph

  /** With any two files, both runs write every property of every node last with the same value. */
  ghost predicate PairsAgree(a: seq<Statement>, b: seq<Statement>) {
    forall p, q, id, k :: LastWrite(a, {p, q}, id, k) == LastWrite(b, {p, q}, id, k)
  }

  lemma {:induction false} FewerFilesNoWrite(stmts: seq<Statement>, files: set<Value>, fewer: set<Value>, id: Id, k: string)
    requires fewer <= files && LastWrite(stmts, files, id, k).None?
    ensures LastWrite(stmts, fewer, id, k).None?
  {
    if stmts != [] {
      FewerFilesNoWrite(stmts[..|stmts| - 1], files, fewer, id, k);
    }
  }

  /** Only the file of the last writer matters. */
  lemma {:induction false} LastWriter(stmts: seq<Statement>, files: set<Value>, id: Id, k: string) returns (p: Value)
    requires LastWrite(stmts, files, id, k).Some?
    ensures p in files
    ensures forall fewer :: p in fewer && fewer <= files ==> LastWrite(stmts, fewer, id, k) == LastWrite(stmts, files, id, k)
  {
    var last := stmts[|stmts| - 1];
    if Writes(last, files, id, k) {
      p := PathOf(last.params);
    } else {
      p := LastWriter(stmts[..|stmts| - 1], files, id, k);
      forall fewer | p in fewer && fewer <= files
        ensures LastWrite(stmts, fewer, id, k) == LastWrite(stmts, files, id, k)
      {
        assert !Writes(last, fewer, id, k);
      }
    }
  }

  /** Agreement for any two files is agreement for any number of them. */
  lemma PairsAreEnough(a: seq<Statement>, b: seq<Statement>, files: set<Value>, id: Id, k: string)
    requires PairsAgree(a, b)
    ensures LastWrite(a, files, id, k) == LastWrite(b, files, id, k)
  {
    var x, y := LastWrite(a, files, id, k), LastWrite(b, files, id, k);
    if x.Some? && y.Some? {
      var p := LastWriter(a, files, id, k);
      var q := LastWriter(b, files, id, k);
      assert LastWrite(a, {p, q}, id, k) == x && LastWrite(b, {p, q}, id, k) == y;
    } else if x.Some? {
      var p := LastWriter(a, files, id, k);
      FewerFilesNoWrite(b, files, {p, p}, id, k);
    } else if y.Some? {
      var q := LastWriter(b, files, id, k);
      FewerFilesNoWrite(a, files, {q, q}, id, k);
    }
  }

  lemma SameNodes(g: Graph, a: seq<Statement>, b: seq<Statement>)
    requires AllSingle(a) && AllSingle(b) && PairsAgree(a, b)
    ensures RunAll(g, a).nodes == RunAll(g, b).nodes
  {
    var x, y := RunAll(g, a).nodes, RunAll(g, b).nodes;
    forall id ensures id in x <==> id in y {
      PairsAreEnough(a, b, g.files, id, "name");
      NodeAfter(g, a, id, "name");
      NodeAfter(g, b, id, "name");
    }
    forall id | id in x ensures x[id] == y[id] {
      forall k ensures Cell(x[id], k) == Cell(y[id], k) {
        PairsAreEnough(a, b, g.files, id, k);
        NodeAfter(g, a, id, k);
        NodeAfter(g, b, id, k);
      }
      SameCells(x[id], y[id]);
    }
  }

  lemma SameCells(m: map<string, Value>, n: map<string, Value>)
    requires forall k :: Cell(m, k) == Cell(n, k)
    ensures m == n
  {
    forall k ensures k in m <==> k in n {
      assert Cell(m, k) == Cell(n, k);
    }
    forall k | k in m ensures m[k] == n[k] {
      assert Cell(m, k) == Cell(n, k);
    }
  }

  lemma SameEdges(g: Graph, a: seq<Statement>, b: seq<Statement>)
    requires AllSingle(a) && AllSingle(b) && PairsAgree(a, b)
    ensures RunAll(g, a).contains == RunAll(g, b).contains && RunAll(g, a).files == RunAll(g, b).files
  {
    EdgeAfter(g, a, Null, ("", Null));
    EdgeAfter(g, b, Null, ("", Null));
    forall edge: (Value, Id) ensures edge in RunAll(g, a).contains <==> edge in RunAll(g, b).contains {
      PairsAreEnough(a, b, {edge.0}, edge.1, "name");
      EdgeAfter(g, a, edge.0, edge.1);
      EdgeAfter(g, b, edge.0, edge.1);
    }
  }

  /** A graph of two files and one node on which two runs come apart. */
  function Distinguishing(p: Value, q: Value, id: Id, k: string, only: Option<Value>): Graph {
    Graph({p, q}, map[id := if only == Some(Null) then map[k := Other(0)] else map[]], {})
  }

  lemma ComeApart(a: seq<Statement>, b: seq<Statement>, p: Value, q: Value, id: Id, k: string) returns (g: Graph)
    requires AllSingle(a) && AllSingle(b) && LastWrite(a, {p, q}, id, k) != LastWrite(b, {p, q}, id, k)
    ensures RunAll(g, a) != RunAll(g, b)
  {
    var x, y := LastWrite(a, {p, q}, id, k), LastWrite(b, {p, q}, id, k);
    g := Distinguishing(p, q, id, k, if x.None? then y else if y.None? then x else None);
    NodeAfter(g, a, id, k);
    NodeAfter(g, b, id, k);
  }

  /** Two runs leave the same graph from every graph exactly when they agree for any two files. */
  lemma SameOnAllGraphsIff(a: seq<Statement>, b: seq<Statement>)
    requires AllSingle(a) && AllSingle(b)
    ensures (forall g :: RunAll(g, a) == RunAll(g, b)) <==> PairsAgree(a, b)
  {
    if PairsAgree(a, b) {
      forall g ensures RunAll(g, a) == RunAll(g, b) {
        SameNodes(g, a, b);
        SameEdges(g, a, b);
      }
    } else {
      var p, q, id, k :| LastWrite(a, {p, q}, id, k) != LastWrite(b, {p, q}, id, k);
      var g := ComeApart(a, b, p, q, id, k);
    }
  }
}
