/** What a lowered match expression computes.  `KeyMatches` states, for each kind
    of clause key, when a subject value matches it (the wildcard always, a range when
    the number lies between the bounds, a string when equal, an object pattern when
    every listed field is strictly equal, anything else when strictly equal), and
    `FirstMatch` picks the first clause whose key matches.  The theorem
    `LoweredMatchMeaning` shows that the generated conditional chain, run with
    `__matchValue` bound to the subject's value, takes exactly that clause. */
module MatchMeaning {
  import opened Syntax
  import opened Values
  import opened MatchExpr

  datatype Outcome = Chosen(arm: Node) | NoMatch

  function Truth(v: Option<Value>): Option<bool>
  {
    match v
    case Some(Bool(b)) => Some(b)
    case _ => None
  }

  function Lift(b: Option<bool>): Option<Value>
  {
    match b
    case Some(t) => Some(Bool(t))
    case None => None
  }

  /** The arm a conditional spine selects: tests are evaluated from the outside
      in until one holds; reaching the throw means no clause matched. */
  function Branch(c: Node, env: Env): Option<Outcome>
  {
    if c.Conditional? then
      match Truth(Eval(c.test, env))
      case Some(true) => Some(Chosen(c.consequent))
      case Some(false) => Branch(c.alternate, env)
      case None => None
    else if c == NoMatchThrow then Some(NoMatch)
    else None
  }

  /** Whether one entry `k: value` of an object pattern holds of `x`. */
  function FieldMatches(entry: Node, x: Value, env: Env): Option<bool>
  {
    match entry
    case ObjectProperty(Identifier(k), value) =>
      (match (ReadField(x, k), Eval(value, env))
       case (Some(f), Some(y)) => StrictEquals(f, y)
       case _ => None)
    case _ => None
  }

  /** Whether all entries of an object pattern hold of `x`, checked left to right
      and stopping at the first that does not. */
  function FieldsMatch(entries: seq<Node>, x: Value, env: Env): Option<bool>
  {
    if entries == [] then Some(true)
    else
      match FieldMatches(entries[0], x, env)
      case Some(false) => Some(false)
      case Some(true) => FieldsMatch(entries[1..], x, env)
      case None => None
  }

  /** Whether the value `x` matches a clause key. */
  function KeyMatches(key: Node, x: Value, env: Env): Option<bool>
  {
    if key == Identifier("_") then Some(true)
    else if key.StringLiteral? then
      match RangeBounds(key.text)
      case Some((s, e)) => if x.Num? then Some(s <= x.n <= e) else None
      case None => Some(x == Str(key.text))
    else if key.ObjectExpr? then FieldsMatch(key.properties, x, env)
    else
      match Eval(key, env)
      case Some(y) => StrictEquals(x, y)
      case None => None
  }

  /** The first clause whose key matches `x`. */
  function FirstMatch(clauses: seq<Node>, x: Value, env: Env): Option<Outcome>
  {
    if clauses == [] then Some(NoMatch)
    else if !clauses[0].ObjectProperty? then None
    else
      match KeyMatches(clauses[0].key, x, env)
      case Some(true) => Some(Chosen(clauses[0].value))
      case Some(false) => FirstMatch(clauses[1..], x, env)
      case None => None
  }

  /** The conjunction of conditions, read left to right with short-circuiting. */
  function AndRight(cs: seq<Node>, env: Env): Option<bool>
    requires cs != []
  {
    var t := Truth(Eval(cs[0], env));
    if |cs| == 1 then t
    else
      match t
      case Some(false) => Some(false)
      case Some(true) => AndRight(cs[1..], env)
      case None => None
  }

  predicate IsTest(c: Node, env: Env)
  {
    Eval(c, env) == Lift(Truth(Eval(c, env)))
  }

  lemma {:induction false} AndRightSnoc(cs: seq<Node>, c: Node, env: Env)
    requires cs != []
    ensures AndRight(cs + [c], env) ==
            match AndRight(cs, env)
            case Some(false) => Some(false)
            case Some(true) => Truth(Eval(c, env))
            case None => None
  {
    assert (cs + [c])[0] == cs[0];
    if |cs| > 1 {
      assert (cs + [c])[1..] == cs[1..] + [c];
      AndRightSnoc(cs[1..], c, env);
    } else {
      assert (cs + [c])[1..] == [c];
    }
  }

  /** The left-folded `&&` of the source computes the left-to-right conjunction. */
  lemma {:induction false} ConjoinMeaning(cs: seq<Node>, env: Env)
    requires cs != []
    requires forall i :: 0 <= i < |cs| ==> IsTest(cs[i], env)
    ensures Eval(Conjoin(cs), env) == Lift(AndRight(cs, env))
  {
    if |cs| > 1 {
      var init, last := cs[..|cs| - 1], cs[|cs| - 1];
      assert cs == init + [last];
      assert forall i :: 0 <= i < |init| ==> IsTest(init[i], env) by {
        forall i | 0 <= i < |init| ensures IsTest(init[i], env) {
          assert init[i] == cs[i];
        }
      }
      ConjoinMeaning(init, env);
      AndRightSnoc(init, last, env);
      assert IsTest(last, env);
    }
  }

  /** Each generated field test `v.k === value` means `FieldMatches`. */
  lemma FieldTestMeaning(entry: Node, env: Env)
    requires MatchValue.name in env
    requires FieldTest(MatchValue, entry).Ok?
    ensures Eval(FieldTest(MatchValue, entry).value, env) == Lift(FieldMatches(entry, env[MatchValue.name], env))
    ensures IsTest(FieldTest(MatchValue, entry).value, env)
  {
    var k, value := entry.key.name, entry.value;
    var x := env[MatchValue.name];
    assert Eval(Member(MatchValue, Identifier(k)), env) == ReadField(x, k);
  }

  lemma {:induction false} FieldTestsMeaning(entries: seq<Node>, env: Env)
    requires MatchValue.name in env
    requires FieldTests(MatchValue, entries).Ok?
    requires entries != []
    ensures var tests := FieldTests(MatchValue, entries).value;
      && (forall i :: 0 <= i < |tests| ==> IsTest(tests[i], env))
      && AndRight(tests, env) == FieldsMatch(entries, env[MatchValue.name], env)
  {
    var tests := FieldTests(MatchValue, entries).value;
    var x := env[MatchValue.name];
    FieldTestMeaning(entries[0], env);
    assert tests[0] == FieldTest(MatchValue, entries[0]).value;
    if |entries| > 1 {
      FieldTestsMeaning(entries[1..], env);
      assert tests[1..] == FieldTests(MatchValue, entries[1..]).value;
    } else {
      assert entries[1..] == [];
    }
  }

  /** The condition built for a key evaluates to whether the value of
      `__matchValue` matches that key. */
  lemma ConditionMeaning(key: Node, env: Env)
    requires MatchValue.name in env
    requires PatternCondition(MatchValue, key).Ok?
    ensures Eval(PatternCondition(MatchValue, key).value, env) == Lift(KeyMatches(key, env[MatchValue.name], env))
  {
    if key == Identifier("_") {
    } else if key.StringLiteral? {
      StringConditionMeaning(key.text, env);
    } else if key.ObjectExpr? {
      var tests := FieldTests(MatchValue, key.properties).value;
      assert key.properties != [];
      FieldTestsMeaning(key.properties, env);
      ConjoinMeaning(tests, env);
    } else {
      EqualityMeaning(key, env);
    }
  }

  lemma StringConditionMeaning(text: string, env: Env)
    requires MatchValue.name in env
    ensures Eval(PatternCondition(MatchValue, StringLiteral(text)).value, env)
            == Lift(KeyMatches(StringLiteral(text), env[MatchValue.name], env))
  {
    match RangeBounds(text)
    case Some((s, e)) =>
      RangeTestMeaning(s, e, env);
    case None =>
      EqualityMeaning(StringLiteral(text), env);
  }

  /** `v >= s && v <= e` holds exactly when the number `v` lies between the bounds. */
  lemma RangeTestMeaning(s: int, e: int, env: Env)
    requires MatchValue.name in env
    ensures var x := env[MatchValue.name];
      Eval(Logical("&&", Binary(">=", MatchValue, NumericLiteral(s)), Binary("<=", MatchValue, NumericLiteral(e))), env)
      == Lift(if x.Num? then Some(s <= x.n <= e) else None)
  {
    var x := env[MatchValue.name];
    var lower, upper := Binary(">=", MatchValue, NumericLiteral(s)), Binary("<=", MatchValue, NumericLiteral(e));
    if x.Num? {
      assert Eval(lower, env) == Some(Bool(x.n >= s));
      assert Eval(upper, env) == Some(Bool(x.n <= e));
    } else {
      assert Eval(lower, env) == None;
    }
  }

  /** `v === key` evaluates to the strict equality of the two values. */
  lemma EqualityMeaning(key: Node, env: Env)
    requires MatchValue.name in env
    ensures Eval(Binary("===", MatchValue, key), env)
      == Lift(match Eval(key, env) case Some(y) => StrictEquals(env[MatchValue.name], y) case None => None)
  {
  }

  /** The chain built for the clauses selects the first clause whose key matches
      the value of `__matchValue`, or reaches the throw when there is none. */
  lemma {:induction false} ChainMeaning(clauses: seq<Node>, env: Env)
    requires MatchValue.name in env
    requires MatchChain(MatchValue, clauses).Ok?
    ensures Branch(MatchChain(MatchValue, clauses).value, env) == FirstMatch(clauses, env[MatchValue.name], env)
  {
    if clauses != [] {
      ChainMeaning(clauses[1..], env);
      var c := clauses[0];
      ConditionMeaning(c.key, env);
    }
  }

  /** The lowered match expression, applied to a subject whose value is `x`,
      runs its chain with `__matchValue` bound to `x`, and that chain takes the
      first clause whose key matches `x`. */
  lemma LoweredMatchMeaning(subject: Node, clauses: seq<Node>, env: Env, x: Value)
    requires MatchLowering(subject, clauses).Ok?
    requires Eval(subject, env) == Some(x)
    ensures var r := MatchLowering(subject, clauses).value;
      var inner := env[MatchValue.name := x];
      && r.callee.Arrow? && r.callee.params == [MatchValue] && r.arguments == [subject]
      && Branch(r.callee.body, inner) == FirstMatch(clauses, x, inner)
  {
    ChainMeaning(clauses, env[MatchValue.name := x]);
  }
}
