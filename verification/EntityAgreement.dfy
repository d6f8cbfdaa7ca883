/** Exactly when batches of entities leave what one statement per entity leaves. */
module EntityAgreement {

  import opened Basics
  import opened StringSort
  import opened EntityMerge
  import opened EntityBatches
  import opened EntityWrites

  /** The rows of a batch, each as a statement of its own. */
  function RowStatements(entityLabel: string, keys: seq<string>, rows: seq<Row>): seq<Statement> {
    seq(|rows|, i requires 0 <= i < |rows| => MergeOne(entityLabel, true, keys, RowMap(rows[i], keys)))
  }

  lemma {:induction false} RowStatementsRun(g: Graph, entityLabel: string, keys: seq<string>, rows: seq<Row>)
    ensures RunAll(g, RowStatements(entityLabel, keys, rows)) ==
      MergeRows(g, entityLabel, keys, seq(|rows|, i requires 0 <= i < |rows| => RowMap(rows[i], keys)))
  {
    if rows != [] {
      var n := |rows| - 1;
      RowStatementsRun(g, entityLabel, keys, rows[..n]);
      assert RowStatements(entityLabel, keys, rows)[..n] == RowStatements(entityLabel, keys, rows[..n]);
      assert seq(|rows|, i requires 0 <= i < |rows| => RowMap(rows[i], keys))[..n] ==
        seq(|rows[..n]|, i requires 0 <= i < |rows[..n]| => RowMap(rows[..n][i], keys));
    }
  }

  /** Rows that single statements accept and merge by uid. */
  predicate Acceptable(rows: seq<Row>) {
    forall i :: 0 <= i < |rows| ==> rows[i].uid != "" && rows[i].filePath != ""
  }

  lemma PlanRun(g: Graph, entityLabel: string, keys: seq<string>, rows: seq<Row>, size: nat)
    requires size > 0 && Acceptable(rows)
    ensures RunAll(g, Plan(entityLabel, keys, rows, size)) == RunAll(g, RowStatements(entityLabel, keys, rows))
  {
    MapsOfUniform(rows, keys);
    var maps := MapsOf(rows, keys, true);
    BatchesAreRowByRow(g, entityLabel, true, keys, maps, size);
    RowStatementsRun(g, entityLabel, keys, rows);
    assert Plan(entityLabel, keys, rows, size) == Batches(entityLabel, true, keys, maps, size);
  }

  /**
    Batches of any size leave every graph as single statements do exactly when, with any two
    files, the rows and the single statements write every property last with the same value.
    This covers extra properties of any name.
   */
  lemma BatchesAgreeIff(entityLabel: string, keys: seq<string>, rows: seq<Row>, size: nat, singles: seq<Statement>)
    requires size > 0 && Acceptable(rows) && AreSingles(singles, entityLabel, rows)
    ensures (forall g :: RunAll(g, Plan(entityLabel, keys, rows, size)) == RunAll(g, singles)) <==>
      PairsAgree(RowStatements(entityLabel, keys, rows), singles)
  {
    var single := RowStatements(entityLabel, keys, rows);
    forall g ensures RunAll(g, Plan(entityLabel, keys, rows, size)) == RunAll(g, single) {
      PlanRun(g, entityLabel, keys, rows, size);
    }
    forall i | 0 <= i < |singles| ensures singles[i].MergeOne? {
      assert IsSingle(singles[i], entityLabel, rows[i]);
    }
    SameOnAllGraphsIff(single, singles);
  }

  // ------------------------------------------------- the condition on the rows

  /** The file that a single statement for the row looks for. */
  function FileOf(row: Row): Value {
    if "file_path" in row.extra then row.extra["file_path"] else Text(row.filePath)
  }

  predicate SameEntity(a: Row, b: Row) {
    a.uid == b.uid && FileOf(a) == FileOf(b)
  }

  /** No row is sent to another node or file by the batch: "uid" is the row's own uid and "file_path" is in every row. */
  predicate SameTargets(rows: seq<Row>) {
    forall i :: 0 <= i < |rows| ==>
      && ("uid" in ExtraKeys(rows) ==> "uid" in rows[i].extra && rows[i].extra["uid"] == Text(rows[i].uid))
      && ("file_path" in ExtraKeys(rows) ==> "file_path" in rows[i].extra)
  }

  /** Row `r` gives the entity of row `n` the property again. */
  predicate GivesAgain(rows: seq<Row>, n: nat, r: nat, k: string)
    requires n < |rows| && r < |rows|
  {
    n < r && SameEntity(rows[n], rows[r]) && k in rows[r].extra
  }

  predicate Lacks(rows: seq<Row>, n: nat, k: string)
    requires n < |rows|
  {
    k in ExtraKeys(rows) && k !in rows[n].extra && FileOf(rows[n]) != Null
  }

  /** Every row that lacks a property of the batch is followed by a row of the same entity that has it. */
  ghost predicate Followed(rows: seq<Row>) {
    forall n: nat, k :: n < |rows| && Lacks(rows, n, k) ==> exists r: nat :: r < |rows| && GivesAgain(rows, n, r, k)
  }

  /** No row takes a property away that a later row of the same entity lacks. */
  ghost predicate NoNullBefore(rows: seq<Row>) {
    forall m: nat, n: nat, k :: m < n < |rows| && SameEntity(rows[m], rows[n]) && k !in rows[n].extra ==> Get(rows[m].extra, k) != Null || k !in rows[m].extra
  }

  lemma Targets(entityLabel: string, keys: seq<string>, rows: seq<Row>, i: nat)
    requires Acceptable(rows) && IsOrdering(keys, ExtraKeys(rows)) && SameTargets(rows) && i < |rows|
    ensures PathOf(RowMap(rows[i], keys)) == PathOf(SingleParams(rows[i])) == FileOf(rows[i])
    ensures Get(RowMap(rows[i], keys), "uid") == Get(SingleParams(rows[i]), "uid") == Text(rows[i].uid)
  {
    OrderingMembers(keys, ExtraKeys(rows));
  }

  lemma KeysOfRow(rows: seq<Row>, i: nat, k: string)
    requires i < |rows| && k in rows[i].extra
    ensures k in ExtraKeys(rows)
  {
  }

  lemma SingleParamsAt(row: Row, k: string)
    ensures k in row.extra && k != "uid" ==> Get(SingleParams(row), k) == row.extra[k]
    ensures k !in row.extra && k != "uid" ==> Get(SingleParams(row), k) == Get(Named(row), k)
  {
  }

  lemma RowMapAt(row: Row, keys: seq<string>, k: string)
    ensures k in keys ==> Get(RowMap(row, keys), k) == Get(row.extra, k)
    ensures k !in keys && k != "uid" ==> Get(RowMap(row, keys), k) == Get(Named(row), k)
  {
  }

  /** Where the row has the property, or the batch does not know it, both write the same. */
  lemma WritesAlike(keys: seq<string>, rows: seq<Row>, single: Statement, entityLabel: string, i: nat, k: string)
    requires Acceptable(rows) && IsOrdering(keys, ExtraKeys(rows)) && SameTargets(rows) && i < |rows|
    requires IsSingle(single, entityLabel, rows[i])
    requires k in rows[i].extra || k !in ExtraKeys(rows)
    ensures Written(keys, RowMap(rows[i], keys), k) == Written(single.keys, single.params, k)
  {
    OrderingMembers(keys, ExtraKeys(rows));
    OrderingMembers(single.keys, rows[i].extra.Keys);
    Targets(entityLabel, keys, rows, i);
    SingleParamsAt(rows[i], k);
    RowMapAt(rows[i], keys, k);
    if k in rows[i].extra {
      KeysOfRow(rows, i, k);
    }
  }

  lemma HitsAlike(entityLabel: string, keys: seq<string>, rows: seq<Row>, singles: seq<Statement>, files: set<Value>, id: Id, i: nat)
    requires Acceptable(rows) && IsOrdering(keys, ExtraKeys(rows)) && SameTargets(rows) && AreSingles(singles, entityLabel, rows)
    requires i < |rows|
    ensures Hits(RowStatements(entityLabel, keys, rows)[i], files, id) <==> Hits(singles[i], files, id)
    ensures Hits(singles[i], files, id) <==>
      FileOf(rows[i]) != Null && FileOf(rows[i]) in files && id == (entityLabel, Text(rows[i].uid))
  {
    Targets(entityLabel, keys, rows, i);
    assert IsSingle(singles[i], entityLabel, rows[i]);
  }

  // ------------------------------------------------------------ if it is met

  /** The setting of the lemmas below. */
  ghost predicate Comparable(entityLabel: string, keys: seq<string>, rows: seq<Row>, singles: seq<Statement>) {
    && Acceptable(rows) && IsOrdering(keys, ExtraKeys(rows)) && SameTargets(rows)
    && AreSingles(singles, entityLabel, rows)
  }

  lemma NoHitNoWrite(stmts: seq<Statement>, files: set<Value>, id: Id, k: string)
    requires forall j :: 0 <= j < |stmts| ==> !Hits(stmts[j], files, id)
    ensures LastWrite(stmts, files, id, k).None?
  {
    NoneAt(stmts, files, id, k);
  }

  /** The last row with which single statements reach a node; none if it is the number of rows. */
  lemma {:induction false} LastHitting(stmts: seq<Statement>, files: set<Value>, id: Id) returns (n: nat)
    ensures n <= |stmts| && (n < |stmts| ==> Hits(stmts[n], files, id))
    ensures forall j :: 0 <= j < |stmts| && (j > n || n == |stmts|) ==> !Hits(stmts[j], files, id)
  {
    if stmts == [] {
      n := 0;
    } else {
      var last := |stmts| - 1;
      if Hits(stmts[last], files, id) {
        n := last;
      } else {
        n := LastHitting(stmts[..last], files, id);
        if n == last {
          n := |stmts|;
        }
      }
    }
  }

  /** Both forms reach a node last with the same row. */
  lemma LastHit(entityLabel: string, keys: seq<string>, rows: seq<Row>, singles: seq<Statement>, files: set<Value>, id: Id)
    returns (n: nat)
    requires Comparable(entityLabel, keys, rows, singles)
    ensures n <= |rows| && (n < |rows| ==> Hits(singles[n], files, id))
    ensures forall j :: 0 <= j < |rows| && (j > n || n == |rows|) ==> !Hits(singles[j], files, id)
    ensures forall j :: 0 <= j < |rows| ==>
      (Hits(RowStatements(entityLabel, keys, rows)[j], files, id) <==> Hits(singles[j], files, id))
  {
    forall i | 0 <= i < |rows|
      ensures Hits(RowStatements(entityLabel, keys, rows)[i], files, id) <==> Hits(singles[i], files, id)
    {
      HitsAlike(entityLabel, keys, rows, singles, files, id, i);
    }
    n := LastHitting(singles, files, id);
  }

  lemma FollowedAgrees(entityLabel: string, keys: seq<string>, rows: seq<Row>, singles: seq<Statement>,
                       files: set<Value>, id: Id, k: string)
    requires Comparable(entityLabel, keys, rows, singles) && Followed(rows)
    ensures LastWrite(RowStatements(entityLabel, keys, rows), files, id, k) == LastWrite(singles, files, id, k)
  {
    var single := RowStatements(entityLabel, keys, rows);
    var n := LastHit(entityLabel, keys, rows, singles, files, id);
    if n == |rows| {
      NoHitNoWrite(single, files, id, k);
      NoHitNoWrite(singles, files, id, k);
    } else {
      HitsAlike(entityLabel, keys, rows, singles, files, id, n);
      if k in ExtraKeys(rows) && k !in rows[n].extra {
        assert Lacks(rows, n, k);
        var r: nat :| r < |rows| && GivesAgain(rows, n, r, k);
        HitsAlike(entityLabel, keys, rows, singles, files, id, r);
        assert false;
      }
      LastAlike(entityLabel, keys, rows, singles, files, id, k, n);
    }
  }

  lemma LastAlike(entityLabel: string, keys: seq<string>, rows: seq<Row>, singles: seq<Statement>,
                  files: set<Value>, id: Id, k: string, n: nat)
    requires Comparable(entityLabel, keys, rows, singles) && n < |rows| && (k in rows[n].extra || k !in ExtraKeys(rows))
    requires var single := RowStatements(entityLabel, keys, rows);
      && Hits(single[n], files, id) && Hits(singles[n], files, id)
      && (forall j :: n < j < |rows| ==> !Hits(single[j], files, id) && !Hits(singles[j], files, id))
    ensures LastWrite(RowStatements(entityLabel, keys, rows), files, id, k) == LastWrite(singles, files, id, k)
  {
    var single := RowStatements(entityLabel, keys, rows);
    assert IsSingle(singles[n], entityLabel, rows[n]);
    WritesAlike(keys, rows, singles[n], entityLabel, n, k);
    if Writes(singles[n], files, id, k) {
      LastAt(single, files, id, k, n);
      LastAt(singles, files, id, k, n);
    } else {
      NeverWritten(entityLabel, keys, rows, singles, n, k);
      NoneAt(single, files, id, k);
      NoneAt(singles, files, id, k);
    }
  }

  /** A property that some row does not write in either form is written by none. */
  lemma NeverWritten(entityLabel: string, keys: seq<string>, rows: seq<Row>, singles: seq<Statement>, n: nat, k: string)
    requires Comparable(entityLabel, keys, rows, singles) && n < |rows| && (k in rows[n].extra || k !in ExtraKeys(rows))
    requires Written(singles[n].keys, singles[n].params, k).None?
    ensures forall j :: 0 <= j < |rows| ==>
      && Written(keys, RowMap(rows[j], keys), k).None?
      && Written(singles[j].keys, singles[j].params, k).None?
  {
    assert IsSingle(singles[n], entityLabel, rows[n]);
    OrderingMembers(singles[n].keys, rows[n].extra.Keys);
    OrderingMembers(keys, ExtraKeys(rows));
    forall j | 0 <= j < |rows| ensures k !in singles[j].keys {
      assert IsSingle(singles[j], entityLabel, rows[j]);
      OrderingMembers(singles[j].keys, rows[j].extra.Keys);
    }
  }

  // ------------------------------------------------------- and if it is not

  /** The last row of an entity. */
  lemma {:induction false} LastOf(rows: seq<Row>, n: nat, upTo: nat) returns (t: nat)
    requires n < upTo <= |rows|
    ensures n <= t < upTo && SameEntity(rows[n], rows[t])
    ensures forall j :: t < j < upTo ==> !SameEntity(rows[n], rows[j])
  {
    t := upTo - 1;
    if !SameEntity(rows[n], rows[t]) {
      t := LastOf(rows, n, upTo - 1);
    }
  }

  lemma HitsAreEntity(entityLabel: string, keys: seq<string>, rows: seq<Row>, singles: seq<Statement>, t: nat)
    requires Comparable(entityLabel, keys, rows, singles) && t < |rows| && FileOf(rows[t]) != Null
    ensures var files, id := {FileOf(rows[t])}, (entityLabel, Text(rows[t].uid));
      forall j :: 0 <= j < |rows| ==>
        && (Hits(RowStatements(entityLabel, keys, rows)[j], files, id) <==> SameEntity(rows[t], rows[j]))
        && (Hits(singles[j], files, id) <==> SameEntity(rows[t], rows[j]))
  {
    var files, id := {FileOf(rows[t])}, (entityLabel, Text(rows[t].uid));
    forall j | 0 <= j < |rows|
      ensures Hits(RowStatements(entityLabel, keys, rows)[j], files, id) <==> SameEntity(rows[t], rows[j])
      ensures Hits(singles[j], files, id) <==> SameEntity(rows[t], rows[j])
    {
      HitsAlike(entityLabel, keys, rows, singles, files, id, j);
    }
  }

  /** Row `t` is the last of its entity. */
  predicate IsLast(rows: seq<Row>, t: nat)
    requires t < |rows|
  {
    forall j :: t < j < |rows| ==> !SameEntity(rows[t], rows[j])
  }

  /** A property that the last row of an entity lacks is taken away by the batch ... */
  lemma BatchWritesNull(entityLabel: string, keys: seq<string>, rows: seq<Row>, singles: seq<Statement>, t: nat, k: string)
    requires Comparable(entityLabel, keys, rows, singles) && t < |rows| && Lacks(rows, t, k) && IsLast(rows, t)
    ensures var files, id := {FileOf(rows[t])}, (entityLabel, Text(rows[t].uid));
      LastWrite(RowStatements(entityLabel, keys, rows), files, id, k) == Some(Null)
  {
    var files, id := {FileOf(rows[t])}, (entityLabel, Text(rows[t].uid));
    HitsAreEntity(entityLabel, keys, rows, singles, t);
    OrderingMembers(keys, ExtraKeys(rows));
    RowMapAt(rows[t], keys, k);
    LastAt(RowStatements(entityLabel, keys, rows), files, id, k, t);
  }

  /** ... and not by single statements. */
  lemma SinglesWriteNoNull(entityLabel: string, keys: seq<string>, rows: seq<Row>, singles: seq<Statement>, t: nat, k: string)
    requires Comparable(entityLabel, keys, rows, singles) && t < |rows| && Lacks(rows, t, k) && IsLast(rows, t)
    requires NoNullBefore(rows)
    ensures var files, id := {FileOf(rows[t])}, (entityLabel, Text(rows[t].uid));
      LastWrite(singles, files, id, k) != Some(Null)
  {
    var files, id := {FileOf(rows[t])}, (entityLabel, Text(rows[t].uid));
    HitsAreEntity(entityLabel, keys, rows, singles, t);
    if LastWrite(singles, files, id, k).Some? {
      var m := SomeAt(singles, files, id, k);
      assert SameEntity(rows[m], rows[t]);
      if k in rows[m].extra {
        GivenValue(entityLabel, keys, rows, singles, t, m, k);
      } else {
        NamedValue(entityLabel, keys, rows, singles, m, k);
      }
    }
  }

  lemma GivenValue(entityLabel: string, keys: seq<string>, rows: seq<Row>, singles: seq<Statement>, t: nat, m: nat, k: string)
    requires Comparable(entityLabel, keys, rows, singles) && NoNullBefore(rows) && m <= t < |rows| && Lacks(rows, t, k)
    requires SameEntity(rows[m], rows[t]) && k in rows[m].extra
    ensures Written(singles[m].keys, singles[m].params, k) != Some(Null)
  {
    assert m < t && Get(rows[m].extra, k) != Null;
    assert k != "uid";
    assert IsSingle(singles[m], entityLabel, rows[m]);
    OrderingMembers(singles[m].keys, rows[m].extra.Keys);
    SingleParamsAt(rows[m], k);
  }

  lemma NamedValue(entityLabel: string, keys: seq<string>, rows: seq<Row>, singles: seq<Statement>, m: nat, k: string)
    requires Comparable(entityLabel, keys, rows, singles) && m < |rows| && k !in rows[m].extra && FileOf(rows[m]) != Null
    ensures Written(singles[m].keys, singles[m].params, k) != Some(Null)
  {
    assert IsSingle(singles[m], entityLabel, rows[m]);
    OrderingMembers(singles[m].keys, rows[m].extra.Keys);
    Targets(entityLabel, keys, rows, m);
    SingleParamsAt(rows[m], k);
  }

  /** Some last row of its entity lacks the property. */
  lemma SomeLastLacks(rows: seq<Row>) returns (t: nat, k: string)
    requires !Followed(rows)
    ensures t < |rows| && Lacks(rows, t, k) && IsLast(rows, t)
  {
    var n: nat;
    n, k :| n < |rows| && Lacks(rows, n, k) && !exists r: nat :: r < |rows| && GivesAgain(rows, n, r, k);
    t := LastOf(rows, n, |rows|);
    assert t == n || !GivesAgain(rows, n, t, k);
  }

  lemma DisagreeUnlessFollowed(entityLabel: string, keys: seq<string>, rows: seq<Row>, singles: seq<Statement>)
    requires Comparable(entityLabel, keys, rows, singles) && NoNullBefore(rows) && !Followed(rows)
    ensures !PairsAgree(RowStatements(entityLabel, keys, rows), singles)
  {
    var t, k := SomeLastLacks(rows);
    BatchWritesNull(entityLabel, keys, rows, singles, t, k);
    SinglesWriteNoNull(entityLabel, keys, rows, singles, t, k);
    var p, id := FileOf(rows[t]), (entityLabel, Text(rows[t].uid));
    assert {p} == {p, p};
    assert LastWrite(RowStatements(entityLabel, keys, rows), {p, p}, id, k) != LastWrite(singles, {p, p}, id, k);
  }

  lemma AgreeIfFollowed(entityLabel: string, keys: seq<string>, rows: seq<Row>, singles: seq<Statement>)
    requires Comparable(entityLabel, keys, rows, singles) && Followed(rows)
    ensures PairsAgree(RowStatements(entityLabel, keys, rows), singles)
  {
    forall p, q, id, k
      ensures LastWrite(RowStatements(entityLabel, keys, rows), {p, q}, id, k) == LastWrite(singles, {p, q}, id, k)
    {
      FollowedAgrees(entityLabel, keys, rows, singles, {p, q}, id, k);
    }
  }

  /**
    When the batch sends every row to its own node and file, batches of any size leave every
    graph as single statements do exactly when every row that lacks a property of the batch is
    followed by a row of the same entity that has it.
   */
  lemma MissingPropertiesIff(entityLabel: string, keys: seq<string>, rows: seq<Row>, size: nat, singles: seq<Statement>)
    requires size > 0 && Comparable(entityLabel, keys, rows, singles) && NoNullBefore(rows)
    ensures (forall g :: RunAll(g, Plan(entityLabel, keys, rows, size)) == RunAll(g, singles)) <==> Followed(rows)
  {
    BatchesAgreeIff(entityLabel, keys, rows, size, singles);
    if Followed(rows) {
      AgreeIfFollowed(entityLabel, keys, rows, singles);
    } else {
      DisagreeUnlessFollowed(entityLabel, keys, rows, singles);
    }
  }

  // ------------------------------------------------------- what follows from it

  /** No two rows are about the same node. */
  predicate DistinctUids(rows: seq<Row>) {
    forall i, j :: 0 <= i < j < |rows| ==> rows[i].uid != rows[j].uid
  }

  lemma NothingLacking(rows: seq<Row>, i: nat)
    requires DistinctUids(rows) && Followed(rows) && i < |rows|
    ensures forall k :: !Lacks(rows, i, k)
  {
  }

  /** Rows about different nodes agree exactly when they all have the same extra properties. */
  lemma DistinctRowsIff(entityLabel: string, keys: seq<string>, rows: seq<Row>, size: nat, singles: seq<Statement>)
    requires size > 0 && Comparable(entityLabel, keys, rows, singles) && DistinctUids(rows)
    ensures (forall g :: RunAll(g, Plan(entityLabel, keys, rows, size)) == RunAll(g, singles)) <==>
      forall i :: 0 <= i < |rows| && FileOf(rows[i]) != Null ==> rows[i].extra.Keys == ExtraKeys(rows)
  {
    MissingPropertiesIff(entityLabel, keys, rows, size, singles);
    if Followed(rows) {
      forall i | 0 <= i < |rows| && FileOf(rows[i]) != Null ensures rows[i].extra.Keys == ExtraKeys(rows) {
        NothingLacking(rows, i);
        forall k | k in ExtraKeys(rows) ensures k in rows[i].extra {
          assert !Lacks(rows, i, k);
        }
        forall k | k in rows[i].extra ensures k in ExtraKeys(rows) {
          KeysOfRow(rows, i, k);
        }
      }
    }
  }

  /** A batch that sends a row where no single statement goes is seen in some graph. */
  lemma MovedRowIsSeen(entityLabel: string, keys: seq<string>, rows: seq<Row>, size: nat, singles: seq<Statement>, n: nat)
    requires size > 0 && Acceptable(rows) && AreSingles(singles, entityLabel, rows) && n < |rows|
    requires var p := RowMap(rows[n], keys);
      PathOf(p) != Null && forall j :: 0 <= j < |rows| ==> !(FileOf(rows[j]) == PathOf(p) && Text(rows[j].uid) == Get(p, "uid"))
    ensures exists g :: RunAll(g, Plan(entityLabel, keys, rows, size)) != RunAll(g, singles)
  {
    var p := RowMap(rows[n], keys);
    var files, id, single := {PathOf(p), PathOf(p)}, IdOf(entityLabel, p), RowStatements(entityLabel, keys, rows);
    assert Writes(single[n], files, id, "name");
    if LastWrite(single, files, id, "name").None? {
      WriteIsSeen(single, files, id, "name", n);
    }
    forall j | 0 <= j < |singles| ensures !Hits(singles[j], files, id) {
      assert IsSingle(singles[j], entityLabel, rows[j]);
      SingleParamsAt(rows[j], "file_path");
    }
    NoHitNoWrite(singles, files, id, "name");
    assert LastWrite(single, files, id, "name") != LastWrite(singles, files, id, "name");
    BatchesAgreeIff(entityLabel, keys, rows, size, singles);
  }

  lemma {:induction false} WriteIsSeen(stmts: seq<Statement>, files: set<Value>, id: Id, k: string, n: nat)
    requires n < |stmts| && Writes(stmts[n], files, id, k)
    ensures LastWrite(stmts, files, id, k).Some?
  {
    if n < |stmts| - 1 {
      WriteIsSeen(stmts[..|stmts| - 1], files, id, k, n);
    }
  }

  /** Rows with one shared set of extra properties, none of them "uid". */
  predicate Uniform(rows: seq<Row>, names: set<string>) {
    "uid" !in names && forall i :: 0 <= i < |rows| ==> rows[i].extra.Keys == names
  }

  lemma UniformIsFollowed(rows: seq<Row>, names: set<string>)
    requires Uniform(rows, names)
    ensures SameTargets(rows) && NoNullBefore(rows) && Followed(rows)
  {
    forall i, k | 0 <= i < |rows| && k in ExtraKeys(rows) ensures k in rows[i].extra {
      var j :| 0 <= j < |rows| && k in rows[j].extra;
      assert k in names;
    }
  }

  /** In particular they agree on rows with one shared set of extra properties. */
  lemma BatchesAreSingles(g: Graph, entityLabel: string, keys: seq<string>, names: set<string>, rows: seq<Row>, size: nat,
                          singles: seq<Statement>)
    requires size > 0 && Acceptable(rows) && Uniform(rows, names)
    requires IsOrdering(keys, ExtraKeys(rows)) && AreSingles(singles, entityLabel, rows)
    ensures RunAll(g, Plan(entityLabel, keys, rows, size)) == RunAll(g, singles)
  {
    UniformIsFollowed(rows, names);
    MissingPropertiesIff(entityLabel, keys, rows, size, singles);
  }

  /** A batch that was executed without a failure leaves the graph that the single statements leave. */
  lemma ExecutedBatchLeaves(g: Graph, accepts: Acceptance, before: seq<EntityMerge.Statement>, after: seq<EntityMerge.Statement>,
                            entityLabel: string, keys: seq<string>, rows: seq<Row>, size: nat, singles: seq<Statement>)
    requires size > 0 && Comparable(entityLabel, keys, rows, singles) && NoNullBefore(rows) && Followed(rows)
    requires Executed(accepts, before, Plan(entityLabel, keys, rows, size), after, true)
    ensures RunAll(g, after) == RunAll(g, before + singles)
  {
    var plan := Plan(entityLabel, keys, rows, size);
    ExecutedAll(accepts, before, plan, after);
    RunConcat(g, before, plan);
    RunConcat(g, before, singles);
    MissingPropertiesIff(entityLabel, keys, rows, size, singles);
    assert RunAll(RunAll(g, before), plan) == RunAll(RunAll(g, before), singles);
  }

  // --------------------------------------------------------- two rows that swap

  /** Two statements for different nodes can change places. */
  lemma SwapAgrees(s: Statement, t: Statement)
    requires s.MergeOne? && t.MergeOne? && IdOf(s.entityLabel, s.params) != IdOf(t.entityLabel, t.params)
    ensures PairsAgree([t, s], [s, t])
  {
    forall p, q, id, k ensures LastWrite([t, s], {p, q}, id, k) == LastWrite([s, t], {p, q}, id, k) {
      TwoWrites(t, s, {p, q}, id, k);
      TwoWrites(s, t, {p, q}, id, k);
    }
  }

  lemma TwoWrites(s: Statement, t: Statement, files: set<Value>, id: Id, k: string)
    ensures LastWrite([s, t], files, id, k) ==
      if Writes(t, files, id, k) then Written(t.keys, t.params, k)
      else if Writes(s, files, id, k) then Written(s.keys, s.params, k) else None
  {
    assert [s, t][..1] == [s] && [s][..0] == [];
    assert LastWrite([s], files, id, k) == if Writes(s, files, id, k) then Written(s.keys, s.params, k) else None;
  }

  function Renamed(row: Row, other: string): Row {
    row.(extra := map["uid" := Text(other)])
  }

  lemma RenamedParams(row: Row, a: string, b: string)
    requires a != "" && b != ""
    ensures RowMap(Renamed(row.(uid := a), b), ["uid"]) == SingleParams(Renamed(row.(uid := b), a))
  {
  }

  /** Two rows that name each other by their property "uid". */
  function NamingEachOther(row: Row, a: string, b: string): seq<Row> {
    [Renamed(row.(uid := a), b), Renamed(row.(uid := b), a)]
  }

  lemma NotSameTargets(row: Row, a: string, b: string)
    requires a != b
    ensures !SameTargets(NamingEachOther(row, a, b))
  {
    var rows := NamingEachOther(row, a, b);
    KeysOfRow(rows, 0, "uid");
    assert rows[0].extra["uid"] == Text(b) && rows[0].uid == a;
  }

  lemma TwoRowStatements(entityLabel: string, keys: seq<string>, a: Row, b: Row)
    ensures RowStatements(entityLabel, keys, [a, b]) ==
      [MergeOne(entityLabel, true, keys, RowMap(a, keys)), MergeOne(entityLabel, true, keys, RowMap(b, keys))]
  {
  }

  lemma SwappedPairsAgree(row: Row, a: string, b: string, entityLabel: string, singles: seq<Statement>)
    requires a != "" && b != "" && a != b && AreSingles(singles, entityLabel, NamingEachOther(row, a, b))
    ensures PairsAgree(RowStatements(entityLabel, ["uid"], NamingEachOther(row, a, b)), singles)
  {
    SwappedStatement(row, a, b, entityLabel, singles[1]);
    SwappedStatement(row, b, a, entityLabel, singles[0]);
    TwoRowStatements(entityLabel, ["uid"], Renamed(row.(uid := a), b), Renamed(row.(uid := b), a));
    assert singles == [singles[0], singles[1]];
    SwapAgrees(singles[0], singles[1]);
  }

  /** A "uid" that is not the row's own need not show: two rows that name each other agree on every graph. */
  lemma SwappedUidsAgree(row: Row, a: string, b: string, entityLabel: string, size: nat, singles: seq<Statement>)
    requires size > 0 && a != "" && b != "" && a != b && row.filePath != ""
    requires AreSingles(singles, entityLabel, NamingEachOther(row, a, b))
    ensures !SameTargets(NamingEachOther(row, a, b))
    ensures forall g :: RunAll(g, Plan(entityLabel, ["uid"], NamingEachOther(row, a, b), size)) == RunAll(g, singles)
  {
    NotSameTargets(row, a, b);
    SwappedPairsAgree(row, a, b, entityLabel, singles);
    BatchesAgreeIff(entityLabel, ["uid"], NamingEachOther(row, a, b), size, singles);
  }

  /** The batch's row of one is the other's single statement. */
  lemma SwappedStatement(row: Row, a: string, b: string, entityLabel: string, single: Statement)
    requires a != "" && b != "" && IsSingle(single, entityLabel, Renamed(row.(uid := b), a))
    ensures single == MergeOne(entityLabel, true, ["uid"], RowMap(Renamed(row.(uid := a), b), ["uid"]))
    ensures IdOf(entityLabel, single.params) == (entityLabel, Text(b))
  {
    OrderingMembers(single.keys, {"uid"});
    assert single.keys == ["uid"];
    RenamedParams(row, a, b);
  }
}
