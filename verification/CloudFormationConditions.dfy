/**
  The CloudFormation condition evaluator: mutually recursive evaluation with a
  memo table and a visiting set, proved against an evaluator that has neither and
  is cut off by fuel instead.
 */
module CloudFormationConditions {

  import opened Basics
  import opened GoStrings

  /** A decoded template value. */
  datatype Value =
    | Bool(b: bool)
    | Str(s: string)
    | Number(bits: int)                 // int, int32, int64, float32 or float64
    | List(items: seq<Value>)
    | Object(fields: map<string, Value>)
    | Other                             // nil and every other dynamic type

  datatype Evaluation = Evaluation(resolved: bool, value: bool)

  predicate HasStr(fields: map<string, Value>, key: string) {
    key in fields && fields[key].Str?
  }

  predicate HasList(fields: map<string, Value>, key: string) {
    key in fields && fields[key].List?
  }

  predicate HasPair(fields: map<string, Value>) {
    HasList(fields, "Fn::Equals") && |fields["Fn::Equals"].items| == 2
  }

  predicate HasArgs(fields: map<string, Value>, key: string) {
    HasList(fields, key) && |fields[key].items| > 0
  }

  predicate HasSingle(fields: map<string, Value>) {
    HasList(fields, "Fn::Not") && |fields["Fn::Not"].items| == 1
  }

  function Literal(s: string): Option<bool> {
    var word := ToLower(TrimSpace(s));
    if word == "true" then Some(true) else if word == "false" then Some(false) else None
  }

  // --------------------------------------------------------------- reference

  /** `sprint` is the rendering fmt.Sprint gives a value. */
  datatype Template = Template(
    conditions: map<string, Value>,
    defaults: map<string, Value>,
    sprint: Value -> string)
  {
    /** A condition by name, following at most `fuel` names. */
    function Name(name: string, fuel: nat): Option<bool>
      decreases fuel, 0
    {
      if fuel == 0 || name !in conditions then None else Expr(conditions[name], fuel - 1)
    }

    function Expr(e: Value, fuel: nat): Option<bool>
      decreases fuel, 1, e
    {
      match e
      case Bool(b) => Some(b)
      case Str(s) => Literal(s)
      case Object(fields) =>
        if HasStr(fields, "Condition") then Name(fields["Condition"].s, fuel)
        else if HasPair(fields) then
          var left := Comparable(fields["Fn::Equals"].items[0], fuel);
          var right := Comparable(fields["Fn::Equals"].items[1], fuel);
          if left.None? || right.None? then None else Some(sprint(left.value) == sprint(right.value))
        else if HasArgs(fields, "Fn::And") then All(fields["Fn::And"].items, fuel)
        else if HasArgs(fields, "Fn::Or") then Any(fields["Fn::Or"].items, fuel)
        else if HasSingle(fields) then
          var arg := Expr(fields["Fn::Not"].items[0], fuel);
          if arg.None? then None else Some(!arg.value)
        else None
      case _ => None
    }

    function All(args: seq<Value>, fuel: nat): Option<bool>
      decreases fuel, 1, args
    {
      if args == [] then Some(true)
      else
        var first := Expr(args[0], fuel);
        if first == Some(true) then All(args[1..], fuel) else first
    }

    function Any(args: seq<Value>, fuel: nat): Option<bool>
      decreases fuel, 1, args
    {
      if args == [] then Some(false)
      else
        var first := Expr(args[0], fuel);
        if first == Some(false) then Any(args[1..], fuel) else first
    }

    function Comparable(v: Value, fuel: nat): Option<Value>
      decreases fuel, 1, v
    {
      match v
      case Str(_) => Some(v)
      case Bool(_) => Some(v)
      case Number(_) => Some(v)
      case Object(fields) =>
        if HasStr(fields, "Ref") then
          var name := fields["Ref"].s;
          if name in defaults then Some(defaults[name]) else None
        else if HasStr(fields, "Condition") then
          var value := Name(fields["Condition"].s, fuel);
          if value.None? then None else Some(Bool(value.value))
        else None
      case _ => None
    }

    // --------------------------------------------------- more fuel, same value

    ghost predicate Extends(f: nat, g: nat) {
      forall n: string :: Name(n, f).Some? ==> Name(n, g) == Name(n, f)
    }

    /** An expression sees fuel only through the names it follows. */
    lemma {:induction false} ExprExtends(e: Value, f: nat, g: nat)
      requires Extends(f, g)
      ensures Expr(e, f).Some? ==> Expr(e, g) == Expr(e, f)
      decreases e
    {
      if e.Object? {
        var fields := e.fields;
        if HasStr(fields, "Condition") {
        } else if HasPair(fields) {
          ComparableExtends(fields["Fn::Equals"].items[0], f, g);
          ComparableExtends(fields["Fn::Equals"].items[1], f, g);
        } else if HasArgs(fields, "Fn::And") {
          AllExtends(fields["Fn::And"].items, f, g);
        } else if HasArgs(fields, "Fn::Or") {
          AnyExtends(fields["Fn::Or"].items, f, g);
        } else if HasSingle(fields) {
          ExprExtends(fields["Fn::Not"].items[0], f, g);
        }
      }
    }

    lemma {:induction false} AllExtends(args: seq<Value>, f: nat, g: nat)
      requires Extends(f, g)
      ensures All(args, f).Some? ==> All(args, g) == All(args, f)
      decreases args
    {
      if args != [] {
        ExprExtends(args[0], f, g);
        AllExtends(args[1..], f, g);
      }
    }

    lemma {:induction false} AnyExtends(args: seq<Value>, f: nat, g: nat)
      requires Extends(f, g)
      ensures Any(args, f).Some? ==> Any(args, g) == Any(args, f)
      decreases args
    {
      if args != [] {
        ExprExtends(args[0], f, g);
        AnyExtends(args[1..], f, g);
      }
    }

    lemma ComparableExtends(v: Value, f: nat, g: nat)
      requires Extends(f, g)
      ensures Comparable(v, f).Some? ==> Comparable(v, g) == Comparable(v, f)
    {
    }

    lemma {:induction false} FuelExtends(f: nat, g: nat)
      requires f <= g
      ensures Extends(f, g)
    {
      if f > 0 {
        FuelExtends(f - 1, g - 1);
        forall n: string | Name(n, f).Some? ensures Name(n, g) == Name(n, f) {
          ExprExtends(conditions[n], f - 1, g - 1);
        }
      }
    }

    // -------------------------------------------- as much fuel as there are names

    function Resolved(f: nat): set<string> {
      set n | n in conditions && Name(n, f).Some?
    }

    /** Once one more unit of fuel resolves nothing new, none ever will. */
    lemma {:induction false} StableForever(f: nat, g: nat)
      requires Extends(f + 1, f) && f <= g
      ensures Extends(g, f)
      decreases g
    {
      if g > f + 1 {
        StableForever(f, g - 1);
        forall n: string | Name(n, g).Some? ensures Name(n, f) == Name(n, g) {
          ExprExtends(conditions[n], g - 1, f);
        }
      }
    }

    /** Each unit of fuel resolves a new name until a level is stable. */
    lemma {:induction false} StableOrGrown(k: nat) returns (j: nat)
      ensures (j < k && Extends(j + 1, j)) || |Resolved(k)| >= k
    {
      j := 0;
      if k > 0 {
        j := StableOrGrown(k - 1);
        if !(j < k - 1 && Extends(j + 1, j)) {
          FuelExtends(k - 1, k);
          assert Resolved(k - 1) <= Resolved(k);
          if Resolved(k - 1) == Resolved(k) {
            j := k - 1;
            forall n: string | Name(n, k).Some? ensures Name(n, k - 1) == Name(n, k) {
              assert n in Resolved(k);
            }
          } else {
            Smaller(Resolved(k - 1), Resolved(k));
          }
        }
      }
    }

    static lemma {:induction false} Smaller(a: set<string>, b: set<string>)
      requires a < b
      ensures |a| < |b|
    {
      var x :| x in b && x !in a;
      NotLarger(a, b - {x});
    }

    static lemma {:induction false} NotLarger(a: set<string>, b: set<string>)
      requires a <= b
      ensures |a| <= |b|
    {
      if a != {} {
        var x :| x in a;
        NotLarger(a - {x}, b - {x});
      }
    }

    function Enough(): nat {
      |conditions|
    }

    /** Fuel for every condition once is enough for every name. */
    lemma EnoughFuel(f: nat)
      ensures Extends(f, Enough())
    {
      var n := Enough();
      if f <= n {
        FuelExtends(f, n);
      } else {
        var j := StableOrGrown(n + 1);
        if |Resolved(n + 1)| >= n + 1 && !(j < n + 1 && Extends(j + 1, j)) {
          NotLarger(Resolved(n + 1), conditions.Keys);
        }
        StableForever(j, f);
        FuelExtends(j, n);
        assert forall x: string :: Name(x, f).Some? ==> Name(x, j) == Name(x, f) && Name(x, n) == Name(x, j);
      }
    }

    /** The memo-free evaluator resolves a name to v for some fuel exactly when it does for Enough(). */
    lemma EnoughIsExact(name: string, v: bool)
      ensures (exists f: nat :: Name(name, f) == Some(v)) <==> Name(name, Enough()) == Some(v)
    {
      if f: nat :| Name(name, f) == Some(v) {
        EnoughFuel(f);
      }
    }

    /** What the evaluator's final table must be. */
    function Table(): map<string, Evaluation> {
      map n | n in conditions && Name(n, Enough()).Some? :: Evaluation(true, Name(n, Enough()).value)
    }
  }

  // --------------------------------------------------------------- evaluator

  /** Names being visited cannot be resolved with this much fuel, so meeting one is no loss. */
  ghost predicate Blocked(t: Template, visiting: set<string>, f: nat) {
    forall u :: u in visiting ==> t.Name(u, f).None?
  }

  /** The fewest names to follow before `name` resolves. */
  lemma LeastFuel(t: Template, name: string, f: nat) returns (m: nat)
    requires t.Name(name, f).Some?
    ensures 0 < m <= f && t.Name(name, m) == t.Name(name, f) && t.Name(name, m - 1).None?
  {
    if t.Name(name, f - 1).None? {
      m := f;
    } else {
      t.FuelExtends(f - 1, f);
      m := LeastFuel(t, name, f - 1);
    }
  }

  /** The tables that the recursive evaluation hands down and writes in place. */
  class Evaluator {
    const template: Template
    var evaluations: map<string, Evaluation>
    var visiting: set<string>

    constructor (template: Template)
      ensures Valid() && evaluations == map[] && visiting == {} && this.template == template
    {
      this.template := template;
      evaluations := map[];
      visiting := {};
    }

    /** Every memoised value is the reference value. */
    ghost predicate Valid()
      reads this
    {
      forall n :: n in evaluations ==> n in template.Table() && evaluations[n] == template.Table()[n]
    }

    /** One condition by name, through the memo table and the visiting set. */
    method ByName(name: string) returns (value: bool, resolved: bool)
      requires Valid()
      modifies this
      ensures Valid() && visiting == old(visiting)
      ensures forall n :: n in old(evaluations) ==> n in evaluations
      ensures resolved ==> name in evaluations && template.Name(name, template.Enough()) == Some(value)
      ensures forall f: nat :: template.Name(name, f).Some? && Blocked(template, visiting, f) ==> resolved
      decreases template.conditions.Keys - visiting, 0
    {
      if name in evaluations && evaluations[name].resolved {
        return evaluations[name].value, true;
      }
      if name in visiting {
        return false, false;
      }
      if name !in template.conditions {
        return false, false;
      }
      var expression := template.conditions[name];
      visiting := visiting + {name};
      assert template.conditions.Keys - visiting < template.conditions.Keys - old(visiting) by {
        assert name in template.conditions.Keys - old(visiting);
      }
      value, resolved := Expr(expression);
      visiting := visiting - {name};
      assert visiting == old(visiting);
      forall f: nat | template.Name(name, f).Some? && Blocked(template, visiting, f) ensures resolved {
        var m := LeastFuel(template, name, f);
        template.FuelExtends(m - 1, f);
        assert Blocked(template, visiting + {name}, m - 1);
        assert template.Expr(expression, m - 1).Some?;
      }
      if !resolved {
        return false, false;
      }
      template.EnoughFuel(template.Enough() + 1);
      assert template.Name(name, template.Enough() + 1) == Some(value);
      evaluations := evaluations[name := Evaluation(true, value)];
    }

    /** A condition expression. */
    method Expr(e: Value) returns (value: bool, resolved: bool)
      requires Valid()
      modifies this
      ensures Valid() && visiting == old(visiting)
      ensures forall n :: n in old(evaluations) ==> n in evaluations
      ensures resolved ==> template.Expr(e, template.Enough()) == Some(value)
      ensures forall f: nat :: template.Expr(e, f).Some? && Blocked(template, visiting, f) ==> resolved
      decreases template.conditions.Keys - visiting, 1, e
    {
      match e
      case Bool(b) =>
        return b, true;
      case Str(s) =>
        var word := ToLower(TrimSpace(s));
        if word == "true" {
          return true, true;
        } else if word == "false" {
          return false, true;
        } else {
          return false, false;
        }
      case Object(fields) =>
        if HasStr(fields, "Condition") {
          value, resolved := ByName(fields["Condition"].s);
          return;
        }
        if HasPair(fields) {
          var args := fields["Fn::Equals"].items;
          var left, leftOK := Comparable(args[0]);
          var right, rightOK := Comparable(args[1]);
          if !leftOK || !rightOK {
            return false, false;
          }
          return template.sprint(left) == template.sprint(right), true;
        }
        if HasArgs(fields, "Fn::And") {
          value, resolved := And(fields["Fn::And"].items);
          return;
        }
        if HasArgs(fields, "Fn::Or") {
          value, resolved := Or(fields["Fn::Or"].items);
          return;
        }
        if HasSingle(fields) {
          value, resolved := Expr(fields["Fn::Not"].items[0]);
          if !resolved {
            return false, false;
          }
          return !value, true;
        }
        return false, false;
      case _ =>
        return false, false;
    }

    /** The loop over the arguments of Fn::And. */
    method And(args: seq<Value>) returns (value: bool, resolved: bool)
      requires Valid()
      modifies this
      ensures Valid() && visiting == old(visiting)
      ensures forall n :: n in old(evaluations) ==> n in evaluations
      ensures resolved ==> template.All(args, template.Enough()) == Some(value)
      ensures forall f: nat :: template.All(args, f).Some? && Blocked(template, visiting, f) ==> resolved
      decreases template.conditions.Keys - visiting, 1, args
    {
      for i := 0 to |args|
        invariant Valid() && visiting == old(visiting)
        invariant forall n :: n in old(evaluations) ==> n in evaluations
        invariant template.All(args, template.Enough()) == template.All(args[i..], template.Enough())
        invariant forall f: nat :: template.All(args, f).Some? && Blocked(template, visiting, f) ==>
                    template.All(args[i..], f).Some?
      {
        value, resolved := Expr(args[i]);
        assert args[i..][1..] == args[i + 1..];
        if !resolved {
          return false, false;
        }
        if !value {
          return false, true;
        }
        forall f: nat | template.All(args, f).Some? && Blocked(template, visiting, f)
          ensures template.All(args[i + 1..], f).Some?
        {
          assert template.All(args[i..], f).Some?;
          template.EnoughFuel(f);
          template.ExprExtends(args[i], f, template.Enough());
        }
      }
      return true, true;
    }

    /** The loop over the arguments of Fn::Or. */
    method Or(args: seq<Value>) returns (value: bool, resolved: bool)
      requires Valid()
      modifies this
      ensures Valid() && visiting == old(visiting)
      ensures forall n :: n in old(evaluations) ==> n in evaluations
      ensures resolved ==> template.Any(args, template.Enough()) == Some(value)
      ensures forall f: nat :: template.Any(args, f).Some? && Blocked(template, visiting, f) ==> resolved
      decreases template.conditions.Keys - visiting, 1, args
    {
      for i := 0 to |args|
        invariant Valid() && visiting == old(visiting)
        invariant forall n :: n in old(evaluations) ==> n in evaluations
        invariant template.Any(args, template.Enough()) == template.Any(args[i..], template.Enough())
        invariant forall f: nat :: template.Any(args, f).Some? && Blocked(template, visiting, f) ==>
                    template.Any(args[i..], f).Some?
      {
        value, resolved := Expr(args[i]);
        assert args[i..][1..] == args[i + 1..];
        if !resolved {
          return false, false;
        }
        if value {
          return true, true;
        }
        forall f: nat | template.Any(args, f).Some? && Blocked(template, visiting, f)
          ensures template.Any(args[i + 1..], f).Some?
        {
          assert template.Any(args[i..], f).Some?;
          template.EnoughFuel(f);
          template.ExprExtends(args[i], f, template.Enough());
        }
      }
      return false, true;
    }

    /** A side of Fn::Equals. */
    method Comparable(v: Value) returns (value: Value, resolved: bool)
      requires Valid()
      modifies this
      ensures Valid() && visiting == old(visiting)
      ensures forall n :: n in old(evaluations) ==> n in evaluations
      ensures resolved ==> template.Comparable(v, template.Enough()) == Some(value)
      ensures forall f: nat :: template.Comparable(v, f).Some? && Blocked(template, visiting, f) ==> resolved
      decreases template.conditions.Keys - visiting, 1, v
    {
      match v
      case Str(_) => return v, true;
      case Bool(_) => return v, true;
      case Number(_) => return v, true;
      case Object(fields) =>
        if HasStr(fields, "Ref") {
          var name := fields["Ref"].s;
          if name in template.defaults {
            return template.defaults[name], true;
          }
          return Other, false;
        }
        if HasStr(fields, "Condition") {
          var b, ok := ByName(fields["Condition"].s);
          return Bool(b), ok;
        }
        return Other, false;
      case _ => return Other, false;
    }
  }

  // --------------------------------------------------------------- documents

  function ObjectField(document: map<string, Value>, key: string): map<string, Value> {
    if key in document && document[key].Object? then document[key].fields else map[]
  }

  /** The declared default of a parameter. */
  function DefaultOf(parameters: map<string, Value>, name: string): Option<Value> {
    if name in parameters && parameters[name].Object? && "Default" in parameters[name].fields
    then Some(parameters[name].fields["Default"]) else None
  }

  function Defaults(parameters: map<string, Value>): map<string, Value> {
    map n | n in parameters && DefaultOf(parameters, n).Some? :: DefaultOf(parameters, n).value
  }

  /** Collects the parameter defaults; the parameters are visited in any order. */
  method ParameterDefaults(document: map<string, Value>) returns (defaults: map<string, Value>)
    ensures defaults == Defaults(ObjectField(document, "Parameters"))
  {
    var parameters := ObjectField(document, "Parameters");
    defaults := map[];
    var left := parameters.Keys;
    while left != {}
      invariant left <= parameters.Keys
      invariant forall n :: n in defaults <==> n !in left && DefaultOf(parameters, n).Some?
      invariant forall n :: n in defaults ==> DefaultOf(parameters, n) == Some(defaults[n])
      decreases |left|
    {
      var name :| name in left;
      left := left - {name};
      var body := parameters[name];
      if body.Object? && "Default" in body.fields {
        defaults := defaults[name := body.fields["Default"]];
      }
    }
  }

  function TemplateOf(document: map<string, Value>, sprint: Value -> string): Template {
    Template(ObjectField(document, "Conditions"), Defaults(ObjectField(document, "Parameters")), sprint)
  }

  /**
    Evaluates every condition of a document, in any order.  The final table holds
    exactly the names the reference evaluator resolves, with its values.
   */
  method EvaluateConditions(document: map<string, Value>, sprint: Value -> string)
    returns (table: Option<map<string, Evaluation>>)
    ensures table.None? <==> ObjectField(document, "Conditions") == map[]
    ensures table.Some? ==> table.value == TemplateOf(document, sprint).Table()
  {
    var conditions := ObjectField(document, "Conditions");
    if |conditions| == 0 {
      return None;
    }
    var defaults := ParameterDefaults(document);
    var template := Template(conditions, defaults, sprint);
    var evaluator := new Evaluator(template);
    var left := conditions.Keys;
    while left != {}
      invariant left <= conditions.Keys
      invariant evaluator.Valid() && evaluator.visiting == {} && evaluator.template == template
      invariant forall n :: n in template.Table() && n !in left ==> n in evaluator.evaluations
      decreases |left|
    {
      var name :| name in left;
      left := left - {name};
      var value, resolved := evaluator.ByName(name);
      assert Blocked(template, evaluator.visiting, template.Enough());
      if resolved {
        evaluator.evaluations := evaluator.evaluations[name := Evaluation(true, value)];
      }
    }
    assert evaluator.evaluations.Keys == template.Table().Keys;
    assert evaluator.evaluations == template.Table();
    table := Some(evaluator.evaluations);
  }
}
