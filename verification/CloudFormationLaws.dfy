/** What the evaluated table says, read off the document. */
module CloudFormationLaws {

  import opened Basics
  import opened GoStrings
  import opened CloudFormationConditions

  /** The document declares condition `n` as `e`. */
  predicate Declares(document: map<string, Value>, n: string, e: Value) {
    && "Conditions" in document && document["Conditions"].Object?
    && n in document["Conditions"].fields && document["Conditions"].fields[n] == e
  }

  /** The document declares `v` as the default of parameter `p`. */
  predicate DeclaresDefault(document: map<string, Value>, p: string, v: Value) {
    && "Parameters" in document && document["Parameters"].Object?
    && p in document["Parameters"].fields && document["Parameters"].fields[p].Object?
    && "Default" in document["Parameters"].fields[p].fields
    && document["Parameters"].fields[p].fields["Default"] == v
  }

  /** The table's value of a condition, if it has one. */
  function Answer(document: map<string, Value>, sprint: Value -> string, n: string): Option<bool> {
    var table := TemplateOf(document, sprint).Table();
    if n in table then Some(table[n].value) else None
  }

  /** An expression that stands for condition `m`: a reference to it, whatever else is in the object, or its own expression. */
  predicate StandsFor(document: map<string, Value>, e: Value, m: string) {
    || (e.Object? && "Condition" in e.fields && e.fields["Condition"] == Str(m))
    || Declares(document, m, e)
  }

  function Not(e: Value): Value {
    Object(map["Fn::Not" := List([e])])
  }

  function And(args: seq<Value>): Value {
    Object(map["Fn::And" := List(args)])
  }

  function Or(args: seq<Value>): Value {
    Object(map["Fn::Or" := List(args)])
  }

  function Equals(left: Value, right: Value): Value {
    Object(map["Fn::Equals" := List([left, right])])
  }

  // --------------------------------------------------------------- from fuel

  /** With as much fuel as there are names, an expression has the value the table gives its condition. */
  lemma DeclaredAnswer(document: map<string, Value>, sprint: Value -> string, n: string, e: Value)
    requires Declares(document, n, e)
    ensures var t := TemplateOf(document, sprint); Answer(document, sprint, n) == t.Expr(e, t.Enough())
  {
    var t := TemplateOf(document, sprint);
    var enough := t.Enough();
    t.EnoughFuel(enough + 1);
    t.FuelExtends(enough, enough + 1);
    assert t.Name(n, enough + 1) == t.Expr(e, enough);
  }

  lemma NameAnswer(document: map<string, Value>, sprint: Value -> string, n: string)
    ensures var t := TemplateOf(document, sprint); Answer(document, sprint, n) == t.Name(n, t.Enough())
  {
  }

  lemma StandingAnswer(document: map<string, Value>, sprint: Value -> string, e: Value, m: string)
    requires StandsFor(document, e, m)
    ensures var t := TemplateOf(document, sprint); t.Expr(e, t.Enough()) == Answer(document, sprint, m)
  {
    if Declares(document, m, e) {
      DeclaredAnswer(document, sprint, m, e);
    } else {
      NameAnswer(document, sprint, m);
    }
  }

  // ------------------------------------------------------------------- laws

  /** A reference has the value of what it refers to, and a truth value is itself. */
  lemma ReferenceLaw(document: map<string, Value>, sprint: Value -> string, n: string, e: Value, m: string)
    requires Declares(document, n, e) && StandsFor(document, e, m)
    ensures Answer(document, sprint, n) == Answer(document, sprint, m)
  {
    DeclaredAnswer(document, sprint, n, e);
    StandingAnswer(document, sprint, e, m);
  }

  lemma TruthLaw(document: map<string, Value>, sprint: Value -> string, n: string, b: bool)
    requires Declares(document, n, Bool(b))
    ensures Answer(document, sprint, n) == Some(b)
  {
    DeclaredAnswer(document, sprint, n, Bool(b));
  }

  /** Fn::Not is resolved exactly if its argument is, and to the opposite. */
  lemma NotLaw(document: map<string, Value>, sprint: Value -> string, n: string, arg: Value, m: string)
    requires Declares(document, n, Not(arg)) && StandsFor(document, arg, m)
    ensures Answer(document, sprint, n) == Some(true) <==> Answer(document, sprint, m) == Some(false)
    ensures Answer(document, sprint, n) == Some(false) <==> Answer(document, sprint, m) == Some(true)
  {
    DeclaredAnswer(document, sprint, n, Not(arg));
    StandingAnswer(document, sprint, arg, m);
    NotShape(arg);
  }

  lemma NotShape(arg: Value)
    ensures var fields := Not(arg).fields;
      !HasStr(fields, "Condition") && !HasPair(fields) && !HasArgs(fields, "Fn::And") && !HasArgs(fields, "Fn::Or")
  {
    assert "Fn::Not"[4] == 'N' && "Fn::And"[4] == 'A' && "Fn::Or"[4] == 'O' && "Fn::Equals"[4] == 'E' && "Condition"[0] == 'C';
  }

  lemma AndShape(args: seq<Value>)
    requires args != []
    ensures var fields := And(args).fields;
      !HasStr(fields, "Condition") && !HasPair(fields) && HasArgs(fields, "Fn::And")
  {
    assert "Fn::And"[4] == 'A' && "Fn::Equals"[4] == 'E' && "Condition"[0] == 'C';
  }

  lemma OrShape(args: seq<Value>)
    requires args != []
    ensures var fields := Or(args).fields;
      !HasStr(fields, "Condition") && !HasPair(fields) && !HasArgs(fields, "Fn::And") && HasArgs(fields, "Fn::Or")
  {
    assert "Fn::And"[4] == 'A' && "Fn::Or"[4] == 'O' && "Fn::Equals"[4] == 'E' && "Condition"[0] == 'C';
  }

  lemma EqualsShape(left: Value, right: Value)
    ensures var fields := Equals(left, right).fields;
      !HasStr(fields, "Condition") && HasPair(fields)
  {
    assert "Fn::Equals"[4] == 'E' && "Condition"[0] == 'C';
  }

  /** Each argument stands for the condition of the same index. */
  predicate AllStand(document: map<string, Value>, args: seq<Value>, names: seq<string>) {
    |args| == |names| && forall i :: 0 <= i < |args| ==> StandsFor(document, args[i], names[i])
  }

  /** The first `i` have the value `b`. */
  predicate AllBefore(document: map<string, Value>, sprint: Value -> string, names: seq<string>, i: nat, b: bool) {
    forall j :: 0 <= j < i && j < |names| ==> Answer(document, sprint, names[j]) == Some(b)
  }

  lemma {:induction false} AllIs(document: map<string, Value>, sprint: Value -> string, args: seq<Value>, names: seq<string>)
    requires AllStand(document, args, names)
    ensures var t := TemplateOf(document, sprint);
      && (t.All(args, t.Enough()) == Some(true) <==> AllBefore(document, sprint, names, |names|, true))
      && (t.All(args, t.Enough()) == Some(false) <==>
            exists i: nat :: i < |names| && Answer(document, sprint, names[i]) == Some(false) && AllBefore(document, sprint, names, i, true))
  {
    if args != [] {
      StandingAnswer(document, sprint, args[0], names[0]);
      AllIs(document, sprint, args[1..], names[1..]);
      ShiftBefore(document, sprint, names, true);
    }
  }

  lemma {:induction false} AnyIs(document: map<string, Value>, sprint: Value -> string, args: seq<Value>, names: seq<string>)
    requires AllStand(document, args, names)
    ensures var t := TemplateOf(document, sprint);
      && (t.Any(args, t.Enough()) == Some(false) <==> AllBefore(document, sprint, names, |names|, false))
      && (t.Any(args, t.Enough()) == Some(true) <==>
            exists i: nat :: i < |names| && Answer(document, sprint, names[i]) == Some(true) && AllBefore(document, sprint, names, i, false))
  {
    if args != [] {
      StandingAnswer(document, sprint, args[0], names[0]);
      AnyIs(document, sprint, args[1..], names[1..]);
      ShiftBefore(document, sprint, names, false);
    }
  }

  lemma ShiftBefore(document: map<string, Value>, sprint: Value -> string, names: seq<string>, b: bool)
    requires names != []
    ensures forall i: nat :: i < |names| ==>
      (AllBefore(document, sprint, names, i + 1, b) <==>
         Answer(document, sprint, names[0]) == Some(b) && AllBefore(document, sprint, names[1..], i, b))
  {
    forall i: nat | i < |names|
      ensures AllBefore(document, sprint, names, i + 1, b) <==>
         Answer(document, sprint, names[0]) == Some(b) && AllBefore(document, sprint, names[1..], i, b)
    {
      if Answer(document, sprint, names[0]) == Some(b) && AllBefore(document, sprint, names[1..], i, b) {
        forall j | 0 <= j < i + 1 && j < |names| ensures Answer(document, sprint, names[j]) == Some(b) {
          assert j > 0 ==> names[j] == names[1..][j - 1];
        }
      }
      if AllBefore(document, sprint, names, i + 1, b) {
        forall j | 0 <= j < i && j < |names[1..]| ensures Answer(document, sprint, names[1..][j]) == Some(b) {
          assert names[1..][j] == names[j + 1];
        }
      }
    }
  }

  /** Fn::And is true if all its arguments are, and false if one is with only true ones before it; else unresolved. */
  lemma AndLaw(document: map<string, Value>, sprint: Value -> string, n: string, args: seq<Value>, names: seq<string>)
    requires args != [] && Declares(document, n, And(args)) && AllStand(document, args, names)
    ensures Answer(document, sprint, n) == Some(true) <==> AllBefore(document, sprint, names, |names|, true)
    ensures Answer(document, sprint, n) == Some(false) <==>
      exists i: nat :: i < |names| && Answer(document, sprint, names[i]) == Some(false) && AllBefore(document, sprint, names, i, true)
  {
    DeclaredAnswer(document, sprint, n, And(args));
    AndShape(args);
    AllIs(document, sprint, args, names);
  }

  /** Fn::Or is false if all its arguments are, and true if one is with only false ones before it; else unresolved. */
  lemma OrLaw(document: map<string, Value>, sprint: Value -> string, n: string, args: seq<Value>, names: seq<string>)
    requires args != [] && Declares(document, n, Or(args)) && AllStand(document, args, names)
    ensures Answer(document, sprint, n) == Some(false) <==> AllBefore(document, sprint, names, |names|, false)
    ensures Answer(document, sprint, n) == Some(true) <==>
      exists i: nat :: i < |names| && Answer(document, sprint, names[i]) == Some(true) && AllBefore(document, sprint, names, i, false)
  {
    DeclaredAnswer(document, sprint, n, Or(args));
    OrShape(args);
    AnyIs(document, sprint, args, names);
  }

  /** What an operand of Fn::Equals denotes: a literal itself, a parameter its default, a condition its truth value. */
  predicate Denotes(document: map<string, Value>, sprint: Value -> string, operand: Value, v: Value) {
    || ((operand.Str? || operand.Bool? || operand.Number?) && v == operand)
    || (operand.Object? && "Ref" in operand.fields && operand.fields["Ref"].Str?
        && DeclaresDefault(document, operand.fields["Ref"].s, v))
    || (operand.Object? && ("Ref" in operand.fields ==> !operand.fields["Ref"].Str?)
        && "Condition" in operand.fields && operand.fields["Condition"].Str?
        && Answer(document, sprint, operand.fields["Condition"].s).Some?
        && v == Bool(Answer(document, sprint, operand.fields["Condition"].s).value))
  }

  lemma DenotesIff(document: map<string, Value>, sprint: Value -> string, operand: Value, v: Value)
    ensures var t := TemplateOf(document, sprint);
      Denotes(document, sprint, operand, v) <==> t.Comparable(operand, t.Enough()) == Some(v)
  {
    if operand.Object? && "Condition" in operand.fields && operand.fields["Condition"].Str? {
      NameAnswer(document, sprint, operand.fields["Condition"].s);
    }
  }

  /** Fn::Equals is resolved exactly if both operands denote something, and true exactly if those render alike. */
  lemma EqualsLaw(document: map<string, Value>, sprint: Value -> string, n: string, left: Value, right: Value)
    requires Declares(document, n, Equals(left, right))
    ensures forall b: bool :: Answer(document, sprint, n) == Some(b) <==>
      exists x, y :: Denotes(document, sprint, left, x) && Denotes(document, sprint, right, y) && b == (sprint(x) == sprint(y))
  {
    DeclaredAnswer(document, sprint, n, Equals(left, right));
    EqualsShape(left, right);
    var t := TemplateOf(document, sprint);
    forall x ensures Denotes(document, sprint, left, x) <==> t.Comparable(left, t.Enough()) == Some(x) {
      DenotesIff(document, sprint, left, x);
    }
    forall y ensures Denotes(document, sprint, right, y) <==> t.Comparable(right, t.Enough()) == Some(y) {
      DenotesIff(document, sprint, right, y);
    }
  }

  // ---------------------------------------------------------------- precedence

  /** What an object can be used as, in the order in which it is tried. */
  datatype Operator = Condition | EqualsOp | AndOp | OrOp | NotOp

  function Rank(op: Operator): nat {
    match op case Condition => 0 case EqualsOp => 1 case AndOp => 2 case OrOp => 3 case NotOp => 4
  }

  function Key(op: Operator): string {
    match op
    case Condition => "Condition"
    case EqualsOp => "Fn::Equals"
    case AndOp => "Fn::And"
    case OrOp => "Fn::Or"
    case NotOp => "Fn::Not"
  }

  /** The object has the operator's key with an argument of the right form. */
  predicate Usable(op: Operator, fields: map<string, Value>) {
    && Key(op) in fields
    && var v := fields[Key(op)];
      match op
      case Condition => v.Str?
      case EqualsOp => v.List? && |v.items| == 2
      case AndOp => v.List? && v.items != []
      case OrOp => v.List? && v.items != []
      case NotOp => v.List? && |v.items| == 1
  }

  /** Of several usable operators the first decides, as if it were alone. */
  lemma PrecedenceLaw(
    document: map<string, Value>, sprint: Value -> string, n: string, fields: map<string, Value>, op: Operator, alone: string)
    requires Usable(op, fields) && forall o: Operator :: Rank(o) < Rank(op) ==> !Usable(o, fields)
    requires Declares(document, n, Object(fields)) && Declares(document, alone, Object(map[Key(op) := fields[Key(op)]]))
    ensures Answer(document, sprint, n) == Answer(document, sprint, alone)
  {
    DeclaredAnswer(document, sprint, n, Object(fields));
    DeclaredAnswer(document, sprint, alone, Object(map[Key(op) := fields[Key(op)]]));
    KeysDiffer();
    UsableAre(fields);
    UsableAre(map[Key(op) := fields[Key(op)]]);
  }

  lemma KeysDiffer()
    ensures forall o: Operator, p: Operator :: Key(o) == Key(p) ==> o == p
  {
    assert "Fn::Not"[4] == 'N' && "Fn::And"[4] == 'A' && "Fn::Or"[4] == 'O' && "Fn::Equals"[4] == 'E' && "Condition"[0] == 'C';
  }

  lemma UsableAre(fields: map<string, Value>)
    ensures Usable(Condition, fields) <==> HasStr(fields, "Condition")
    ensures Usable(EqualsOp, fields) <==> HasPair(fields)
    ensures Usable(AndOp, fields) <==> HasArgs(fields, "Fn::And")
    ensures Usable(OrOp, fields) <==> HasArgs(fields, "Fn::Or")
    ensures Usable(NotOp, fields) <==> HasSingle(fields)
  {
  }

  /** An object without a usable operator, and a value that is no object, text or truth value, resolve to nothing. */
  lemma UnusableLaw(document: map<string, Value>, sprint: Value -> string, n: string, e: Value)
    requires Declares(document, n, e)
    requires !e.Bool? && !e.Str? && (e.Object? ==> forall op: Operator :: !Usable(op, e.fields))
    ensures Answer(document, sprint, n).None?
  {
    DeclaredAnswer(document, sprint, n, e);
    if e.Object? {
      UsableAre(e.fields);
    }
  }

  /** A name that the document does not declare has no value. */
  lemma UndeclaredLaw(document: map<string, Value>, sprint: Value -> string, n: string)
    requires forall e :: !Declares(document, n, e)
    ensures Answer(document, sprint, n).None?
  {
    if "Conditions" in document && document["Conditions"].Object? && n in document["Conditions"].fields {
      assert Declares(document, n, document["Conditions"].fields[n]);
    }
  }

  // ------------------------------------------------------------------ literals

  /** `s` is the lower-case `word` in any case. */
  predicate InAnyCase(s: string, word: string) {
    |s| == |word| && forall i :: 0 <= i < |word| ==> s[i] == word[i] || (s[i] < 'a' && s[i] + 'a' - 'A' == word[i])
  }

  /** `s` is the word with spaces around it. */
  ghost predicate Spells(s: string, word: string) {
    exists a: nat, b: nat :: a + |word| + b == |s| && SpelledAt(s, word, a, b)
  }

  predicate SpelledAt(s: string, word: string, a: nat, b: nat)
    requires a + |word| + b == |s|
  {
    AllSpace(s[..a]) && InAnyCase(s[a..a + |word|], word) && AllSpace(s[a + |word|..])
  }

  lemma {:induction false} TrimLeftAt(s: string) returns (a: nat)
    ensures a <= |s| && TrimLeft(s) == s[a..] && AllSpace(s[..a])
  {
    if s != "" && IsSpace(s[0]) {
      var rest := TrimLeftAt(s[1..]);
      a := rest + 1;
      assert s[..a] == [s[0]] + s[1..][..rest];
    } else {
      a := 0;
    }
  }

  lemma {:induction false} TrimRightAt(s: string) returns (b: nat)
    ensures b <= |s| && TrimRight(s) == s[..|s| - b] && AllSpace(s[|s| - b..])
  {
    if s != "" && IsSpace(s[|s| - 1]) {
      var n := |s| - 1;
      var rest := TrimRightAt(s[..n]);
      b := rest + 1;
      assert s[|s| - b..] == s[..n][n - rest..] + [s[n]];
      assert s[..n][..n - rest] == s[..|s| - b];
    } else {
      b := 0;
    }
  }

  lemma LowerIff(s: string, word: string)
    requires forall i :: 0 <= i < |word| ==> 'a' <= word[i] <= 'z'
    ensures ToLower(s) == word <==> InAnyCase(s, word)
  {
    if InAnyCase(s, word) {
      assert forall i :: 0 <= i < |s| ==> ToLower(s)[i] == word[i];
    }
    if ToLower(s) == word {
      forall i | 0 <= i < |word| ensures s[i] == word[i] || (s[i] < 'a' && s[i] + 'a' - 'A' == word[i]) {
        assert ToLower(s)[i] == word[i];
      }
    }
  }

  lemma TrimmedSpells(s: string, word: string)
    requires InAnyCase(TrimSpace(s), word)
    ensures Spells(s, word)
  {
    var a := TrimLeftAt(s);
    var b := TrimRightAt(TrimLeft(s));
    assert TrimSpace(s) == s[a..][..|s| - a - b];
    assert s[a..a + |word|] == TrimSpace(s);
    assert s[a + |word|..] == s[a..][|s| - a - b..];
    assert SpelledAt(s, word, a, b);
  }

  lemma SpelledTrims(s: string, word: string, a: nat, b: nat)
    requires word != "" && forall i :: 0 <= i < |word| ==> 'a' <= word[i] <= 'z'
    requires a + |word| + b == |s| && SpelledAt(s, word, a, b)
    ensures InAnyCase(TrimSpace(s), word)
  {
    var middle := s[a..a + |word|];
    assert s == s[..a] + (middle + s[a + |word|..]);
    NoSpaceInWord(middle, word);
    TrimLeftPast(s[..a], middle + s[a + |word|..]);
    TrimRightPast(middle, s[a + |word|..]);
  }

  /** The trimmed, lowered text is the word exactly when the text spells it. */
  lemma SpellsIff(s: string, word: string)
    requires word != "" && forall i :: 0 <= i < |word| ==> 'a' <= word[i] <= 'z'
    ensures ToLower(TrimSpace(s)) == word <==> Spells(s, word)
  {
    LowerIff(TrimSpace(s), word);
    if InAnyCase(TrimSpace(s), word) {
      TrimmedSpells(s, word);
    }
    if a: nat, b: nat :| a + |word| + b == |s| && SpelledAt(s, word, a, b) {
      SpelledTrims(s, word, a, b);
    }
  }

  lemma NoSpaceInWord(s: string, word: string)
    requires InAnyCase(s, word) && forall i :: 0 <= i < |word| ==> 'a' <= word[i] <= 'z'
    ensures forall i :: 0 <= i < |s| ==> !IsSpace(s[i])
  {
  }

  /** A text resolves to the truth value that it spells, in any case and with spaces around it, and to nothing else. */
  lemma TextLaw(document: map<string, Value>, sprint: Value -> string, n: string, s: string)
    requires Declares(document, n, Str(s))
    ensures Answer(document, sprint, n) == Some(true) <==> Spells(s, "true")
    ensures Answer(document, sprint, n) == Some(false) <==> Spells(s, "false")
  {
    DeclaredAnswer(document, sprint, n, Str(s));
    SpellsIff(s, "true");
    SpellsIff(s, "false");
    assert |"true"| != |"false"|;
  }
}
