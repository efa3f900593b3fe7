/** The lowering of `subject.match({ key1: value1, ..., keyN: valueN })`
    (src/transpile.ts:293-376): an arrow function of `__matchValue`, applied to the
    subject, whose body is a right-nested chain of conditionals
    `c1 ? value1 : (c2 ? value2 : ... : noMatch())`, where each `ci` tests
    `__matchValue` against `keyi` and `noMatch()` throws `Error("No match found")`. */
module MatchExpr {
  import opened Syntax
  import Text

  /** The parameter that holds the subject inside the generated arrow function. */
  const MatchValue: Node := Identifier("__matchValue")

  /** `(() => { throw new Error("No match found"); })()`, the end of every chain. */
  const NoMatchThrow: Node :=
    Call(Arrow([], Block([Throw(New(Identifier("Error"), [StringLiteral("No match found")]))])), [])

  /** The visitor's test for a match call: a call of a `.match` member with exactly
      one argument, an object literal. */
  predicate IsMatchCall(n: Node)
  {
    n.Call? && n.callee.Member? && IsIdentifierNamed(n.callee.property, "match")
    && |n.arguments| == 1 && n.arguments[0].ObjectExpr?
  }

  /** The bounds of a range pattern `"s..e"`: the first two pieces of splitting on
      `".."`, each trimmed and read with `parseInt`; `None` unless both are numbers. */
  function RangeBounds(text: string): (r: Option<(int, int)>)
    ensures r.Some? ==> Text.Includes(text, "..")
  {
    match Text.RangeParts(text)
    case None => None
    case Some((a, b)) =>
      match (Text.ParseInt(Text.Trim(a)), Text.ParseInt(Text.Trim(b)))
      case (Some(s), Some(e)) => Some((s, e))
      case _ => None
  }

  /** `acc && c`, folded from the left over a non-empty list of conditions. */
  function Conjoin(cs: seq<Node>): Node
    requires cs != []
  {
    if |cs| == 1 then cs[0] else Logical("&&", Conjoin(cs[..|cs| - 1]), cs[|cs| - 1])
  }

  /** The test one entry of an object pattern contributes: `v.k === value`.  The
      member builder accepts only an identifier as a non-computed property, and an
      entry without a key (a spread) or without a value (a method) leaves the
      builders an `undefined` child. */
  function FieldTest(v: Node, entry: Node): Result<Node>
  {
    match entry
    case ObjectProperty(k, value) =>
      if k.Identifier? then Ok(Binary("===", Member(v, k), value))
      else Err(InvalidNode("member property must be an identifier"))
    case ObjectMethod(_, k, _, _) =>
      if k.Identifier? then Err(InvalidNode("binary right operand is undefined"))
      else Err(InvalidNode("member property must be an identifier"))
    case _ => Err(InvalidNode("member property is undefined"))
  }

  /** The tests of all entries of an object pattern, in order; the first entry that
      cannot be built aborts, as in `map`. */
  function FieldTests(v: Node, entries: seq<Node>): (r: Result<seq<Node>>)
    ensures r.Ok? ==> |r.value| == |entries|
  {
    if entries == [] then Ok([])
    else
      var t :- FieldTest(v, entries[0]);
      var rest :- FieldTests(v, entries[1..]);
      Ok([t] + rest)
  }

  /** `createPatternCondition(v, key)`: the condition under which a clause with
      this key is taken. */
  function PatternCondition(v: Node, key: Node): Result<Node>
  {
    if key == Identifier("_") then Ok(BooleanLiteral(true))
    else if key.StringLiteral? then
      match RangeBounds(key.text)
      case Some((s, e)) =>
        Ok(Logical("&&", Binary(">=", v, NumericLiteral(s)), Binary("<=", v, NumericLiteral(e))))
      case None => Ok(Binary("===", v, key))
    else if key.ObjectExpr? then
      var tests :- FieldTests(v, key.properties);
      if tests == [] then Err(TypeError("reduce of empty array with no initial value"))
      else Ok(Conjoin(tests))
    else Ok(Binary("===", v, key))
  }

  /** One step of the reverse loop: the clause wrapped around the chain built from
      the clauses after it.  A spread clause has no key, so reading its `type`
      fails; a method clause has no value for the conditional. */
  function ClauseArm(v: Node, clause: Node, rest: Node): Result<Node>
  {
    match clause
    case ObjectProperty(k, value) =>
      var cond :- PatternCondition(v, k);
      Ok(Conditional(cond, value, rest))
    case ObjectMethod(_, k, _, _) =>
      var cond :- PatternCondition(v, k);
      Err(InvalidNode("conditional consequent is undefined"))
    case _ => Err(TypeError("cannot read the type of an undefined key"))
  }

  /** The conditional chain for a list of clauses.  The source builds it from the
      last clause to the first, so the chain of the later clauses is built first and
      its failure is the one reported. */
  function MatchChain(v: Node, clauses: seq<Node>): Result<Node>
  {
    if clauses == [] then Ok(NoMatchThrow)
    else
      var rest :- MatchChain(v, clauses[1..]);
      ClauseArm(v, clauses[0], rest)
  }

  /** `transformMatchExpression(subject, clauses)` as a value. */
  function MatchLowering(subject: Node, clauses: seq<Node>): Result<Node>
  {
    var chain :- MatchChain(MatchValue, clauses);
    Ok(Call(Arrow([MatchValue], chain), [subject]))
  }

  /** `transformMatchExpression`: the chain is built by a loop running from the
      last clause to the first. */
  method TransformMatchExpression(subject: Node, clauses: seq<Node>) returns (r: Result<Node>)
    ensures r == MatchLowering(subject, clauses)
  {
    var result := NoMatchThrow;
    var i := |clauses|;
    while i > 0
      invariant 0 <= i <= |clauses|
      invariant MatchChain(MatchValue, clauses[i..]) == Ok(result)
      decreases i
    {
      i := i - 1;
      assert clauses[i..][1..] == clauses[i + 1..];
      var arm := ClauseArm(MatchValue, clauses[i], result);
      if arm.Err? {
        FailureReachesFront(MatchValue, clauses, i);
        return Err(arm.error);
      }
      result := arm.value;
    }
    assert clauses[0..] == clauses;
    r := Ok(Call(Arrow([MatchValue], result), [subject]));
  }

  /** A failure in the chain of a suffix is the failure of the whole chain: the
      chain is built from the last clause backwards, so of several invalid
      clauses the last one's error is the one reported. */
  lemma {:induction false} FailureReachesFront(v: Node, clauses: seq<Node>, i: nat)
    requires i <= |clauses|
    requires MatchChain(v, clauses[i..]).Err?
    ensures MatchChain(v, clauses) == MatchChain(v, clauses[i..])
  {
    if i > 0 {
      assert clauses[1..][i - 1..] == clauses[i..];
      FailureReachesFront(v, clauses[1..], i - 1);
    } else {
      assert clauses[0..] == clauses;
    }
  }

  /** A clause the lowering accepts: a key-value property whose key yields a
      condition. */
  predicate ClauseValid(v: Node, clause: Node)
  {
    clause.ObjectProperty? && PatternCondition(v, clause.key).Ok?
  }

  /** The tests of a conditional spine, from the outside in. */
  function Arms(n: Node): seq<(Node, Node)>
  {
    if n.Conditional? then [(n.test, n.consequent)] + Arms(n.alternate) else []
  }

  /** What a conditional spine ends in. */
  function Tail(n: Node): Node
  {
    if n.Conditional? then Tail(n.alternate) else n
  }

  /** One clause of the chain: it succeeds when the clause is valid and the later
      clauses' chain succeeds, and is then the clause's arm around that chain. */
  lemma MatchChainStep(v: Node, clauses: seq<Node>)
    requires clauses != []
    ensures MatchChain(v, clauses).Ok? <==> ClauseValid(v, clauses[0]) && MatchChain(v, clauses[1..]).Ok?
    ensures MatchChain(v, clauses).Ok? ==>
      MatchChain(v, clauses).value
      == Conditional(PatternCondition(v, clauses[0].key).value, clauses[0].value, MatchChain(v, clauses[1..]).value)
  {
  }

  /** `MatchChain` succeeds exactly when every clause is valid. */
  lemma {:induction false} MatchChainValid(v: Node, clauses: seq<Node>)
    ensures MatchChain(v, clauses).Ok? <==> forall i :: 0 <= i < |clauses| ==> ClauseValid(v, clauses[i])
  {
    if clauses != [] {
      var tail := clauses[1..];
      MatchChainStep(v, clauses);
      MatchChainValid(v, tail);
      assert (forall i :: 0 <= i < |clauses| ==> ClauseValid(v, clauses[i]))
         <==> ClauseValid(v, clauses[0]) && (forall i :: 0 <= i < |tail| ==> ClauseValid(v, tail[i])) by {
        forall i | 0 <= i < |tail| ensures tail[i] == clauses[i + 1] { }
        forall i | 0 < i < |clauses| ensures clauses[i] == tail[i - 1] { }
      }
    }
  }

  /** A chain that was built has one arm per valid clause, in declaration order,
      each testing that clause's condition and yielding that clause's value, and
      ends in the throw. */
  lemma {:induction false} MatchChainArms(v: Node, clauses: seq<Node>)
    requires MatchChain(v, clauses).Ok?
    ensures var chain := MatchChain(v, clauses).value;
      && |Arms(chain)| == |clauses|
      && Tail(chain) == NoMatchThrow
      && forall i :: 0 <= i < |clauses| ==>
           ClauseValid(v, clauses[i])
           && Arms(chain)[i] == (PatternCondition(v, clauses[i].key).value, clauses[i].value)
  {
    if clauses != [] {
      var tail := clauses[1..];
      MatchChainStep(v, clauses);
      MatchChainArms(v, tail);
      var chain := MatchChain(v, clauses).value;
      assert Arms(chain) == [(PatternCondition(v, clauses[0].key).value, clauses[0].value)] + Arms(MatchChain(v, tail).value);
      forall i | 0 < i < |clauses|
        ensures ClauseValid(v, clauses[i])
        ensures Arms(chain)[i] == (PatternCondition(v, clauses[i].key).value, clauses[i].value)
      {
        assert clauses[i] == tail[i - 1];
      }
    }
  }

  /** `MatchChain` succeeds exactly when every clause is valid, and then the chain
      has one arm per clause, in declaration order, each testing that clause's
      condition and yielding that clause's value, and ends in the throw. */
  lemma MatchChainShape(v: Node, clauses: seq<Node>)
    ensures MatchChain(v, clauses).Ok? <==> forall i :: 0 <= i < |clauses| ==> ClauseValid(v, clauses[i])
    ensures MatchChain(v, clauses).Ok? ==>
      var chain := MatchChain(v, clauses).value;
      && |Arms(chain)| == |clauses|
      && Tail(chain) == NoMatchThrow
      && forall i :: 0 <= i < |clauses| ==>
           Arms(chain)[i] == (PatternCondition(v, clauses[i].key).value, clauses[i].value)
  {
    if MatchChain(v, clauses).Ok? {
      MatchChainArms(v, clauses);
    } else {
      MatchChainValid(v, clauses);
    }
  }

  /** The lowered call binds the subject once, as the only argument of the arrow
      function, whose only parameter is `__matchValue`; its body has one arm per
      clause. */
  lemma MatchLoweringShape(subject: Node, clauses: seq<Node>)
    requires MatchLowering(subject, clauses).Ok?
    ensures var r := MatchLowering(subject, clauses).value;
      && r.Call? && r.arguments == [subject]
      && r.callee.Arrow? && r.callee.params == [MatchValue]
      && |Arms(r.callee.body)| == |clauses|
      && Tail(r.callee.body) == NoMatchThrow
  {
    MatchChainShape(MatchValue, clauses);
  }

  /** An empty object pattern is rejected: `reduce` gets an empty array. */
  lemma EmptyObjectPatternFails(v: Node)
    ensures PatternCondition(v, ObjectExpr([])).Err?
    ensures PatternCondition(v, ObjectExpr([])).error.TypeError?
  {
  }

  /** Any two integers written `"s..e"` form a range pattern over exactly them. */
  lemma RangeOfNumerals(s: int, e: int)
    ensures RangeBounds(Text.Decimal(s) + ".." + Text.Decimal(e)) == Some((s, e))
  {
    Text.DecimalDotFree(s);
    Text.DecimalDotFree(e);
    Text.RangePartsOfJoin(Text.Decimal(s), Text.Decimal(e));
    Text.TrimDecimal(s);
    Text.TrimDecimal(e);
    Text.ParseDecimal(s);
    Text.ParseDecimal(e);
  }
}
