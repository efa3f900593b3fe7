/** The nodes the lowerings build around the original sub-trees are declined by
    every handler (src/transpile.ts:54-169): a lowering's output over plain parts
    is itself plain, so the traversal's visit of a replacement node changes
    nothing but what the visit of the parts it holds would change. */
module InertGlue {
  import opened Syntax
  import Text
  import MatchExpr
  import WithUpdate
  import QueryChain
  import TokenQuery
  import ObjectQuery
  import Overload
  import opened Transform
  import PassLaws

  lemma NoLowerV(s: string)
    requires forall i :: 0 <= i < |s| ==> s[i] != 'v'
    ensures !Text.Includes(s, "vector")
  {
    forall k: nat ensures !Text.OccursAt(s, "vector", k) {
      if k + 6 <= |s| {
        assert s[k..k + 6][0] == s[k];
      }
    }
  }

  /** `__matchValue` is not taken for a vector, so the range tests on it are never
      overloaded. */
  lemma MatchValueUntyped()
    ensures Overload.InferExpressionType(MatchExpr.MatchValue) == None
  {
    var s := "__matchValue";
    assert forall i :: 0 <= i < |s| ==> s[i] != 'v';
    NoLowerV(s);
    forall k: nat ensures !Text.OccursAt(s, "Vector", k) {
      if k + 6 <= |s| {
        assert s[k..k + 6][0] == s[k];
        assert s[k..k + 6][1] == s[k + 1];
      }
    }
    assert s[..1][0] == s[0];
  }

  /** `(() => { throw new C(m); })()` */
  lemma ThrowerPlain(c: string, m: string)
    ensures Plain(Call(Arrow([], Block([Throw(New(Identifier(c), [StringLiteral(m)]))])), []))
  {
    var error := New(Identifier(c), [StringLiteral(m)]);
    NewErrorPlain(c, m);
    var thrown := Throw(error);
    PlainIntro(thrown);
    var body := Block([thrown]);
    PlainIntro(body);
    var arrow := Arrow([], body);
    assert Children(arrow) == [body];
    PlainIntro(arrow);
    var call := Call(arrow, []);
    assert Children(call) == [arrow];
    PlainIntro(call);
  }

  /** `new C(m)` */
  lemma NewErrorPlain(c: string, m: string)
    ensures Plain(New(Identifier(c), [StringLiteral(m)]))
  {
    var error := New(Identifier(c), [StringLiteral(m)]);
    PlainIntro(Identifier(c));
    PlainIntro(StringLiteral(m));
    assert Children(error) == [Identifier(c), StringLiteral(m)];
    PlainIntro(error);
  }

  lemma NoMatchThrowPlain()
    ensures Plain(MatchExpr.NoMatchThrow)
  {
    ThrowerPlain("Error", "No match found");
  }

  /** `left op right` is plain when no overload can apply to it. */
  lemma BinaryPlain(op: string, l: Node, r: Node)
    requires Plain(l) && Plain(r) && op != "|>"
    requires Overload.IsOverloadableOperator(op) ==>
      Overload.InferExpressionType(l).None? && Overload.InferExpressionType(r).None?
    ensures Plain(Binary(op, l, r))
  {
    assert Children(Binary(op, l, r)) == [l, r];
    PlainIntro(Binary(op, l, r));
  }

  lemma LogicalPlain(op: string, l: Node, r: Node)
    requires Plain(l) && Plain(r)
    ensures Plain(Logical(op, l, r))
  {
    assert Children(Logical(op, l, r)) == [l, r];
    PlainIntro(Logical(op, l, r));
  }

  lemma {:induction false} ConjoinPlain(cs: seq<Node>)
    requires cs != [] && AllPlain(cs)
    ensures Plain(MatchExpr.Conjoin(cs))
    decreases |cs|
  {
    if |cs| > 1 {
      var init := cs[..|cs| - 1];
      assert AllPlain(init) by {
        forall i | 0 <= i < |init| ensures Plain(init[i]) {
          assert init[i] == cs[i];
        }
      }
      ConjoinPlain(init);
      LogicalPlain("&&", MatchExpr.Conjoin(init), cs[|cs| - 1]);
    }
  }

  lemma {:induction false} FieldTestsOutputPlain(entries: seq<Node>)
    requires MatchExpr.FieldTests(MatchExpr.MatchValue, entries).Ok?
    requires AllPlain(entries)
    ensures AllPlain(MatchExpr.FieldTests(MatchExpr.MatchValue, entries).value)
    decreases |entries|
  {
    if entries != [] {
      FieldTestsStep(entries);
      var e := entries[0];
      assert Plain(e);
      ChildrenSmaller(e);
      assert Children(e) == [e.key, e.value];
      PlainIntro(MatchExpr.MatchValue);
      var field := Member(MatchExpr.MatchValue, e.key);
      assert Children(field) == [MatchExpr.MatchValue, e.key];
      PlainIntro(field);
      BinaryPlain("===", field, e.value);
      assert AllPlain(entries[1..]) by {
        forall i | 0 <= i < |entries[1..]| ensures Plain(entries[1..][i]) {
          assert entries[1..][i] == entries[i + 1];
        }
      }
      FieldTestsOutputPlain(entries[1..]);
      var tests := MatchExpr.FieldTests(MatchExpr.MatchValue, entries).value;
      var rest := MatchExpr.FieldTests(MatchExpr.MatchValue, entries[1..]).value;
      assert tests == [Binary("===", field, e.value)] + rest;
      forall i | 0 <= i < |tests| ensures Plain(tests[i]) {
        if i > 0 {
          assert tests[i] == rest[i - 1];
        }
      }
    }
  }

  /** `__matchValue >= s && __matchValue <= e` */
  lemma RangeConditionPlain(s: int, e: int)
    ensures Plain(Logical("&&", Binary(">=", MatchExpr.MatchValue, NumericLiteral(s)),
                                Binary("<=", MatchExpr.MatchValue, NumericLiteral(e))))
  {
    var mv := MatchExpr.MatchValue;
    MatchValueUntyped();
    PlainIntro(mv);
    PlainIntro(NumericLiteral(s));
    PlainIntro(NumericLiteral(e));
    BinaryPlain(">=", mv, NumericLiteral(s));
    BinaryPlain("<=", mv, NumericLiteral(e));
    LogicalPlain("&&", Binary(">=", mv, NumericLiteral(s)), Binary("<=", mv, NumericLiteral(e)));
  }

  lemma ObjectConditionPlain(key: Node)
    requires key.ObjectExpr? && Plain(key)
    requires MatchExpr.PatternCondition(MatchExpr.MatchValue, key).Ok?
    ensures Plain(MatchExpr.PatternCondition(MatchExpr.MatchValue, key).value)
  {
    ChildrenSmaller(key);
    assert AllPlain(key.properties);
    FieldTestsOutputPlain(key.properties);
    ConjoinPlain(MatchExpr.FieldTests(MatchExpr.MatchValue, key.properties).value);
  }

  /** The condition built for a plain key is plain. */
  lemma ConditionOutputPlain(key: Node)
    requires MatchExpr.PatternCondition(MatchExpr.MatchValue, key).Ok?
    requires Plain(key)
    ensures Plain(MatchExpr.PatternCondition(MatchExpr.MatchValue, key).value)
  {
    if key == Identifier("_") {
      PlainIntro(BooleanLiteral(true));
    } else if key.StringLiteral? && MatchExpr.RangeBounds(key.text).Some? {
      var (s, e) := MatchExpr.RangeBounds(key.text).value;
      RangeConditionPlain(s, e);
    } else if key.ObjectExpr? {
      ObjectConditionPlain(key);
    } else {
      PlainIntro(MatchExpr.MatchValue);
      BinaryPlain("===", MatchExpr.MatchValue, key);
    }
  }

  /** The head and the tail of a plain list are plain. */
  lemma AllPlainSplit(ns: seq<Node>)
    requires ns != [] && AllPlain(ns)
    ensures Plain(ns[0]) && AllPlain(ns[1..])
  {
    forall i | 0 <= i < |ns[1..]| ensures Plain(ns[1..][i]) {
      assert ns[1..][i] == ns[i + 1];
    }
  }

  /** One arm of the chain, built from a plain clause over a plain rest, is plain. */
  lemma ArmOutputPlain(c: Node, rest: Node)
    requires c.ObjectProperty? && Plain(c) && Plain(rest)
    requires MatchExpr.PatternCondition(MatchExpr.MatchValue, c.key).Ok?
    ensures MatchExpr.ClauseArm(MatchExpr.MatchValue, c, rest).Ok?
    ensures Plain(MatchExpr.ClauseArm(MatchExpr.MatchValue, c, rest).value)
  {
    ChildrenSmaller(c);
    assert Children(c) == [c.key, c.value];
    ConditionOutputPlain(c.key);
    var arm := Conditional(MatchExpr.PatternCondition(MatchExpr.MatchValue, c.key).value, c.value, rest);
    assert Children(arm) == [arm.test, arm.consequent, arm.alternate];
    PlainIntro(arm);
  }

  lemma {:induction false} ChainOutputPlain(clauses: seq<Node>)
    requires MatchExpr.MatchChain(MatchExpr.MatchValue, clauses).Ok?
    requires AllPlain(clauses)
    ensures Plain(MatchExpr.MatchChain(MatchExpr.MatchValue, clauses).value)
    decreases |clauses|
  {
    if clauses == [] {
      NoMatchThrowPlain();
    } else {
      ChainStep(clauses);
      AllPlainSplit(clauses);
      ChainOutputPlain(clauses[1..]);
      ArmOutputPlain(clauses[0], MatchExpr.MatchChain(MatchExpr.MatchValue, clauses[1..]).value);
    }
  }

  /** The lowering of a match over plain parts is plain. */
  lemma MatchOutputPlain(subject: Node, clauses: seq<Node>)
    requires MatchExpr.MatchLowering(subject, clauses).Ok?
    requires Plain(subject) && AllPlain(clauses)
    ensures Plain(MatchExpr.MatchLowering(subject, clauses).value)
  {
    var chain := MatchExpr.MatchChain(MatchExpr.MatchValue, clauses).value;
    ChainOutputPlain(clauses);
    PlainIntro(MatchExpr.MatchValue);
    var arrow := Arrow([MatchExpr.MatchValue], chain);
    assert Children(arrow) == [MatchExpr.MatchValue, chain];
    PlainIntro(arrow);
    var call := Call(arrow, [subject]);
    assert Children(call) == [arrow, subject];
    PlainIntro(call);
  }

  /** The merged object of an update over plain parts is plain. */
  lemma WithUpdateOutputPlain(base: Node, patch: Node)
    requires WithUpdate.WithUpdateLowering(base, patch).Ok?
    requires Plain(base) && Plain(patch)
    ensures Plain(WithUpdate.WithUpdateLowering(base, patch).value)
  {
    assert Children(Spread(base)) == [base];
    PlainIntro(Spread(base));
    if patch.ObjectExpr? {
      ChildrenSmaller(patch);
      assert AllPlain(patch.properties);
      var kept := WithUpdate.MergeEntries(patch.properties);
      forall i | 0 <= i < |kept| ensures Plain(kept[i]) {
        WithUpdate.MergeEntriesMembership(patch.properties, kept[i]);
      }
      var entries := [Spread(base)] + kept;
      forall i | 0 <= i < |entries| ensures Plain(entries[i]) {
        if i > 0 {
          assert entries[i] == kept[i - 1];
        }
      }
      PlainIntro(ObjectExpr(entries));
    } else {
      assert Children(Spread(patch)) == [patch];
      PlainIntro(Spread(patch));
      PlainIntro(ObjectExpr([Spread(base), Spread(patch)]));
    }
  }

  /** `chain.name(argument)` is plain for plain parts and any name but `match`. */
  lemma StepPlain(chain: Node, name: string, argument: Node)
    requires Plain(chain) && Plain(argument) && name != "match"
    ensures Plain(QueryChain.Step(chain, name, argument))
  {
    PlainIntro(Identifier(name));
    var callee := Member(chain, Identifier(name));
    assert Children(callee) == [chain, Identifier(name)];
    PlainIntro(callee);
    var call := QueryChain.Step(chain, name, argument);
    assert Children(call) == [callee, argument];
    PlainIntro(call);
  }

  lemma {:induction false} WhereChainPlain(chain: Node, filters: seq<Node>)
    requires Plain(chain) && AllPlain(filters)
    ensures Plain(QueryChain.WhereChain(chain, filters))
    decreases |filters|
  {
    if filters != [] {
      var init := filters[..|filters| - 1];
      assert AllPlain(init) by {
        forall i | 0 <= i < |init| ensures Plain(init[i]) {
          assert init[i] == filters[i];
        }
      }
      WhereChainPlain(chain, init);
      StepPlain(QueryChain.WhereChain(chain, init), "where", filters[|filters| - 1]);
    }
  }

  lemma StepIfPresentPlain(chain: Node, name: string, argument: Option<Node>)
    requires Plain(chain) && name != "match"
    requires argument.Some? ==> Plain(argument.value)
    ensures Plain(QueryChain.StepIfPresent(chain, name, argument))
  {
    if argument.Some? {
      StepPlain(chain, name, argument.value);
    }
  }

  /** `chain.toArray()` over a plain chain is plain. */
  lemma ToArrayPlain(chain: Node)
    requires Plain(chain)
    ensures Plain(Call(Member(chain, Identifier("toArray")), []))
  {
    PlainIntro(Identifier("toArray"));
    var callee := Member(chain, Identifier("toArray"));
    assert Children(callee) == [chain, Identifier("toArray")];
    PlainIntro(callee);
    var call := Call(callee, []);
    assert Children(call) == [callee];
    PlainIntro(call);
  }

  /** `from(source)` over a plain source is plain. */
  lemma FromPlain(source: Node)
    requires Plain(source)
    ensures Plain(QueryChain.From(source))
  {
    var from := QueryChain.From(source);
    PlainIntro(Identifier("from"));
    assert Children(from) == [Identifier("from"), source];
    PlainIntro(from);
  }

  /** The whole query chain over plain parts is plain. */
  lemma ChainOfPlain(source: Node, filters: seq<Node>, groupKey: Option<Node>, orderKey: Option<Node>, projection: Option<Node>)
    requires Plain(source) && AllPlain(filters)
    requires groupKey.Some? ==> Plain(groupKey.value)
    requires orderKey.Some? ==> Plain(orderKey.value)
    requires projection.Some? ==> Plain(projection.value)
    ensures Plain(QueryChain.ChainOf(QueryChain.From(source), filters, groupKey, orderKey, projection))
  {
    var from := QueryChain.From(source);
    FromPlain(source);
    WhereChainPlain(from, filters);
    var grouped := QueryChain.StepIfPresent(QueryChain.WhereChain(from, filters), "groupBy", groupKey);
    StepIfPresentPlain(QueryChain.WhereChain(from, filters), "groupBy", groupKey);
    var ordered := QueryChain.StepIfPresent(grouped, "orderBy", orderKey);
    StepIfPresentPlain(grouped, "orderBy", orderKey);
    var selected := QueryChain.StepIfPresent(ordered, "select", projection);
    StepIfPresentPlain(ordered, "select", projection);
    ToArrayPlain(selected);
  }


  /** The chain of a plain query object is plain. */
  lemma ObjectChainPlain(d: QueryChain.Descriptor)
    requires ObjectQuery.ObjectChain(d).Ok?
    requires AllParts(d, x => Plain(x))
    ensures Plain(ObjectQuery.ObjectChain(d).value)
  {
    assert AllPlain(d.filters);
    ChainOfPlain(d.source.value, d.filters, d.groupKey, d.orderKey, d.projection);
  }

  lemma ArrowPlain(p: Node, e: Node)
    requires Plain(p) && Plain(e)
    ensures Plain(Arrow([p], e))
  {
    assert Children(Arrow([p], e)) == [p, e];
    PlainIntro(Arrow([p], e));
  }

  lemma {:induction false} WrapPlain(p: Node, es: seq<Node>)
    requires Plain(p) && AllPlain(es)
    ensures AllPlain(TokenQuery.Wrap(p, es))
    decreases |es|
  {
    if es != [] {
      var init := es[..|es| - 1];
      assert AllPlain(init) by {
        forall i | 0 <= i < |init| ensures Plain(init[i]) {
          assert init[i] == es[i];
        }
      }
      WrapPlain(p, init);
      ArrowPlain(p, es[|es| - 1]);
      var w := TokenQuery.Wrap(p, es);
      var front := TokenQuery.Wrap(p, init);
      assert w == front + [Arrow([p], es[|es| - 1])];
      forall i | 0 <= i < |w| ensures Plain(w[i]) {
        if i < |front| {
          assert w[i] == front[i];
        }
      }
    }
  }

  /** The chain of a token query over plain tokens is plain: the lambdas take the
      range variable, an identifier. */
  lemma TokenChainPlain(d: QueryChain.Descriptor)
    requires TokenQuery.TokenChain(d).Ok?
    requires AllParts(d, x => Plain(x))
    ensures Plain(TokenQuery.TokenChain(d).value)
  {
    var source := d.source.value;
    assert AllPlain(d.filters);
    if !TokenQuery.NeedsParameter(d) {
      ChainOfPlain(source, [], None, None, None);
    } else {
      var p := TokenQuery.Parameter(d.binding).value;
      PlainIntro(p);
      WrapPlain(p, d.filters);
      if d.groupKey.Some? { ArrowPlain(p, d.groupKey.value); }
      if d.orderKey.Some? { ArrowPlain(p, d.orderKey.value); }
      if d.projection.Some? { ArrowPlain(p, d.projection.value); }
      ChainOfPlain(source, TokenQuery.Wrap(p, d.filters), TokenQuery.WrapIfPresent(p, d.groupKey),
                   TokenQuery.WrapIfPresent(p, d.orderKey), TokenQuery.WrapIfPresent(p, d.projection));
    }
  }

  /** A token query over plain tokens lowers to a plain chain. */
  lemma TokenQueryOutputPlain(ts: seq<Node>)
    requires TokenQuery.TokenQueryLowering(ts).Ok?
    requires AllPlain(ts)
    ensures Plain(TokenQuery.TokenQueryLowering(ts).value)
  {
    TokenParts(ts, x => Plain(x));
    TokenChainPlain(TokenQuery.ScanTokens(ts));
  }

  /** A plain query object lowers to a plain chain. */
  lemma ObjectQueryOutputPlain(entries: seq<Node>)
    requires ObjectQuery.ObjectQueryLowering(entries).Ok?
    requires AllPlain(entries)
    ensures Plain(ObjectQuery.ObjectQueryLowering(entries).value)
  {
    var d := ObjectQuery.ScanEntries(QueryChain.NoClauses, entries).value;
    PassLaws.ScanPlain(entries);
    ObjectChainPlain(d);
  }

  /** The overload's static call over plain operands is plain. */
  lemma OverloadOutputPlain(op: string, l: Node, r: Node, reg: Registry)
    requires Overload.TryCreateOperatorOverload(op, l, r, reg).Some?
    requires Plain(l) && Plain(r)
    ensures Plain(Overload.TryCreateOperatorOverload(op, l, r, reg).value)
  {
    var lt, rt := Overload.InferExpressionType(l), Overload.InferExpressionType(r);
    match Overload.Provided(reg, lt, op)
    case Some((t, m)) => StaticCallPlain(t, m, l, r);
    case None =>
      var (t, m) := Overload.Provided(reg, rt, op).value;
      StaticCallPlain(t, m, l, r);
  }

  /** `T.m(left, right)` over plain operands is plain. */
  lemma StaticCallPlain(t: string, m: string, l: Node, r: Node)
    requires Plain(l) && Plain(r)
    ensures Plain(Overload.StaticCall(t, m, l, r))
  {
    var callee := Member(Identifier(t), Identifier(m));
    PlainIntro(Identifier(t));
    PlainIntro(Identifier(m));
    assert Children(callee) == [Identifier(t), Identifier(m)];
    PlainIntro(callee);
    assert Children(Overload.StaticCall(t, m, l, r)) == [callee, l, r];
    PlainIntro(Overload.StaticCall(t, m, l, r));
  }
}
