/** The graph store behind the executors: a log of calls, any of which may fail. */
module GraphStores {

  import opened GoStrings
  import opened PhaseGroups

  /** Whether a call succeeds may depend on everything the store has seen before. */
  type Acceptance = (seq<Call>, Call) -> bool

  class Store {
    const grouping: bool          // implements GroupExecutor
    const accepts: Acceptance
    var calls: seq<Call>

    constructor (grouping: bool, accepts: Acceptance)
      ensures this.grouping == grouping && this.accepts == accepts && calls == []
    {
      this.grouping := grouping;
      this.accepts := accepts;
      calls := [];
    }

    method Execute(stmt: Statement) returns (ok: bool)
      modifies this
      ensures calls == old(calls) + [One(stmt)] && ok == accepts(old(calls), One(stmt))
    {
      ok := accepts(calls, One(stmt));
      calls := calls + [One(stmt)];
    }

    method ExecuteGroup(stmts: seq<Statement>) returns (ok: bool)
      modifies this
      ensures calls == old(calls) + [Many(stmts)] && ok == accepts(old(calls), Many(stmts))
    {
      ok := accepts(calls, Many(stmts));
      calls := calls + [Many(stmts)];
    }
  }

  /**
    Running the calls of a plan, sanitized, takes the store's log from `log` to `after`:
    in order, each once, up to and including the first one that fails.
   */
  ghost predicate Ran(accepts: Acceptance, log: seq<Call>, plan: seq<Call>, after: seq<Call>, ok: bool)
    decreases plan
  {
    if plan == [] then after == log && ok
    else
      var call := SanitizedCall(plan[0]);
      if accepts(log, call) then Ran(accepts, log + [call], plan[1..], after, ok)
      else after == log + [call] && !ok
  }

  /**
    What reached the store is a prefix of the sanitized plan: the whole plan on success,
    and otherwise one that ends with the only rejected call.
   */
  lemma {:induction false} RanIsPrefix(accepts: Acceptance, log: seq<Call>, plan: seq<Call>, after: seq<Call>, ok: bool)
    returns (n: nat)
    requires Ran(accepts, log, plan, after, ok)
    ensures n <= |plan| && after == log + SanitizedCalls(plan[..n])
    ensures ok ==> n == |plan|
    ensures !ok ==> n > 0 && !accepts(log + SanitizedCalls(plan[..n - 1]), SanitizedCall(plan[n - 1]))
    ensures forall i :: 0 <= i < n - 1 || (ok && 0 <= i < n) ==>
      accepts(log + SanitizedCalls(plan[..i]), SanitizedCall(plan[i]))
    decreases plan
  {
    if plan == [] {
      n := 0;
      assert SanitizedCalls(plan[..0]) == [];
    } else {
      var call := SanitizedCall(plan[0]);
      assert log + SanitizedCalls(plan[..0]) == log;
      if accepts(log, call) {
        var m := RanIsPrefix(accepts, log + [call], plan[1..], after, ok);
        n := m + 1;
        forall i | 0 < i <= |plan|
          ensures log + SanitizedCalls(plan[..i]) == log + [call] + SanitizedCalls(plan[1..][..i - 1])
        {
          assert plan[..i] == [plan[0]] + plan[1..][..i - 1];
          assert SanitizedCalls(plan[..i]) == [call] + SanitizedCalls(plan[1..][..i - 1]);
        }
        forall i | 0 <= i < n - 1 || (ok && 0 <= i < n)
          ensures accepts(log + SanitizedCalls(plan[..i]), SanitizedCall(plan[i]))
        {
          if i > 0 {
            assert accepts(log + [call] + SanitizedCalls(plan[1..][..i - 1]), SanitizedCall(plan[1..][i - 1]));
          }
        }
      } else {
        n := 1;
        assert SanitizedCalls(plan[..1]) == [call];
      }
    }
  }

  /** The store's answers fix the outcome. */
  lemma {:induction false} RanOnlyOneWay(accepts: Acceptance, log: seq<Call>, plan: seq<Call>,
                                         a: seq<Call>, x: bool, b: seq<Call>, y: bool)
    requires Ran(accepts, log, plan, a, x) && Ran(accepts, log, plan, b, y)
    ensures a == b && x == y
    decreases plan
  {
    if plan != [] && accepts(log, SanitizedCall(plan[0])) {
      RanOnlyOneWay(accepts, log + [SanitizedCall(plan[0])], plan[1..], a, x, b, y);
    }
  }

  /** One plan after another. */
  lemma {:induction false} RanThen(accepts: Acceptance, a: seq<Call>, p: seq<Call>, b: seq<Call>, q: seq<Call>,
                                   c: seq<Call>, ok: bool)
    requires Ran(accepts, a, p, b, true) && Ran(accepts, b, q, c, ok)
    ensures Ran(accepts, a, p + q, c, ok)
    decreases p
  {
    if p == [] {
      assert p + q == q;
    } else {
      RanThen(accepts, a + [SanitizedCall(p[0])], p[1..], b, q, c, ok);
      assert (p + q)[1..] == p[1..] + q;
    }
  }

  /** A failed plan stops what would follow it. */
  lemma {:induction false} RanStops(accepts: Acceptance, a: seq<Call>, p: seq<Call>, b: seq<Call>, q: seq<Call>)
    requires Ran(accepts, a, p, b, false)
    ensures Ran(accepts, a, p + q, b, false)
    decreases p
  {
    if p != [] && accepts(a, SanitizedCall(p[0])) {
      RanStops(accepts, a + [SanitizedCall(p[0])], p[1..], b, q);
      assert (p + q)[1..] == p[1..] + q;
    }
  }

  lemma RanOne(accepts: Acceptance, a: seq<Call>, call: Call)
    ensures Ran(accepts, a, [call], a + [SanitizedCall(call)], accepts(a, SanitizedCall(call)))
  {
    assert [call][1..] == [];
  }

  // -------------------------------------------------------------- sanitizing

  /** Drops the diagnostic keys; a map without any is passed on as it is. */
  method SanitizeParameters(parameters: map<string, Param>) returns (sanitized: map<string, Param>)
    ensures sanitized == SanitizedParameters(parameters)
  {
    if |parameters| == 0 {
      assert parameters == map[];
      return parameters;
    }
    var hasDiagnosticKeys := false;
    var left := parameters.Keys;
    while left != {} && !hasDiagnosticKeys
      invariant left <= parameters.Keys
      invariant !hasDiagnosticKeys ==> forall k :: k in parameters && k !in left ==> !HasPrefix(k, "_")
      decreases |left|, !hasDiagnosticKeys
    {
      var key :| key in left;
      left := left - {key};
      hasDiagnosticKeys := HasPrefix(key, "_");
    }
    if !hasDiagnosticKeys {
      assert SanitizedParameters(parameters).Keys == parameters.Keys;
      return parameters;
    }
    sanitized := map[];
    left := parameters.Keys;
    while left != {}
      invariant left <= parameters.Keys
      invariant forall k :: k in sanitized <==> k in parameters && k !in left && !HasPrefix(k, "_")
      invariant forall k :: k in sanitized ==> sanitized[k] == parameters[k]
      decreases |left|
    {
      var key :| key in left;
      left := left - {key};
      if !HasPrefix(key, "_") {
        sanitized := sanitized[key := parameters[key]];
      }
    }
  }

  method SanitizeStatement(stmt: Statement) returns (sanitized: Statement)
    ensures sanitized == Sanitized(stmt)
  {
    var parameters := SanitizeParameters(stmt.parameters);
    sanitized := stmt.(parameters := parameters);
  }

  /** Copies a chunk into a fresh slice, so the store never sees the executor's buffer. */
  method SanitizeChunk(stmts: seq<Statement>) returns (chunk: seq<Statement>)
    ensures chunk == AllSanitized(stmts)
  {
    var sanitized := new Statement[|stmts|];
    for i := 0 to |stmts|
      invariant forall j :: 0 <= j < i ==> sanitized[j] == Sanitized(stmts[j])
    {
      sanitized[i] := SanitizeStatement(stmts[i]);
    }
    chunk := sanitized[..];
  }
}
