/** What the pass does to each construct of the language (src/transpile.ts:54-169),
    when the construct's own parts are plain JavaScript: every handler's output is
    its lowering, every lowering failure aborts the pass with that failure, and
    the rewritten constructs are spelled with nodes the handlers decline. */
module PassLaws {
  import opened Syntax
  import Text
  import MatchExpr
  import WithUpdate
  import QueryChain
  import TokenQuery
  import ObjectQuery
  import Accessors
  import Overload
  import opened Transform

  // Pipelines.

  /** `a |> f` is visited exactly as the call `f(a)` is. */
  lemma PipelineAsCall(a: Node, f: Node, cls: Option<string>, reg: Registry)
    ensures Visit(Binary("|>", a, f), cls, reg) == Visit(Call(f, [a]), cls, reg)
  {
    SizeSeqSingle(a);
  }

  /** `x |> f |> g` becomes `g(f(x))`. */
  lemma PipelineChain(x: Node, f: Node, g: Node, cls: Option<string>, reg: Registry)
    requires Plain(Call(g, [Call(f, [x])]))
    ensures Visit(Binary("|>", Binary("|>", x, f), g), cls, reg).Ok?
    ensures Visit(Binary("|>", Binary("|>", x, f), g), cls, reg).value.0 == Call(g, [Call(f, [x])])
  {
    var inner := Binary("|>", x, f);
    ChildrenSmaller(Call(g, [Call(f, [x])]));
    assert Children(Call(g, [Call(f, [x])])) == [g, Call(f, [x])];
    assert Plain(g) && Plain(Call(f, [x]));
    PlainUnchanged(g, cls, reg);
    var visitedG := Visit(g, cls, reg).value;
    PipelineAsCall(x, f, cls, visitedG.1);
    PlainUnchanged(Call(f, [x]), cls, visitedG.1);
    var visitedF := Visit(inner, cls, visitedG.1).value;
    VisitSeqSingle(inner, cls, visitedG.1);
  }

  // Operator overloading.

  /** An operator with a registered overload becomes the static call, and its
      operands are visited where they stand. */
  lemma OverloadPass(op: string, l: Node, r: Node, cls: Option<string>, reg: Registry)
    requires Overload.IsOverloadableOperator(op)
    requires Overload.TryCreateOperatorOverload(op, l, r, reg).Some?
    requires Plain(l) && Plain(r)
    ensures Visit(Binary(op, l, r), cls, reg).Ok?
    ensures Visit(Binary(op, l, r), cls, reg).value.0 == Overload.TryCreateOperatorOverload(op, l, r, reg).value
  {
    var n := Binary(op, l, r);
    OverloadDispatch(op, l, r, cls, reg);
    PlainUnchanged(l, cls, reg);
    var reg1 := Visit(l, cls, reg).value.1;
    PlainUnchanged(r, cls, reg1);
    var reg2 := Visit(r, cls, reg1).value.1;
    OverloadVisit(n, cls, reg, reg1, reg2);
  }

  lemma OverloadDispatch(op: string, l: Node, r: Node, cls: Option<string>, reg: Registry)
    requires Overload.IsOverloadableOperator(op)
    requires Overload.TryCreateOperatorOverload(op, l, r, reg).Some?
    ensures Visit(Binary(op, l, r), cls, reg) == VisitOverload(Binary(op, l, r), cls, reg)
  {
    assert op != "|>";
  }

  /** With both operands visited unchanged, the overload's call is the result. */
  lemma OverloadVisit(n: Node, cls: Option<string>, reg: Registry, reg1: Registry, reg2: Registry)
    requires n.Binary? && Overload.TryCreateOperatorOverload(n.operator, n.left, n.right, reg).Some?
    requires Visit(n.left, cls, reg) == Ok((n.left, reg1))
    requires Visit(n.right, cls, reg1) == Ok((n.right, reg2))
    ensures VisitOverload(n, cls, reg) == Ok((Overload.TryCreateOperatorOverload(n.operator, n.left, n.right, reg).value, reg2))
  {
  }

  // Operator registration.

  /** `static $operator_...() {}`, an operator method with an empty body. */
  function OperatorMethod(name: string): Node
  {
    ClassMethod("method", Identifier(name), true, [], Block([]))
  }

  /** The visit of a method with a name and an empty body, as seen from a class
      body: the method stays, and only its registration changes the registry. */
  lemma OperatorMethodVisit(methodName: string, cls: Option<string>, reg: Registry)
    ensures VisitMember(OperatorMethod(methodName), cls, reg)
         == Ok(([OperatorMethod(methodName)], Registration(OperatorMethod(methodName), cls, reg)))
  {
    var m := OperatorMethod(methodName);
    var after := Registration(m, cls, reg);
    OperatorMethodShape(methodName);
    LeafUnchanged(Identifier(methodName), cls, after);
    LeafUnchanged(Block([]), cls, after);
    VisitSeqSingle(Block([]), cls, after);
    VisitSeqCons(Identifier(methodName), [Block([])], cls, after);
    VisitChildrenOk(m, cls, reg, Children(m), after);
    SugarlessVisit(m, cls, reg);
  }

  lemma OperatorMethodShape(methodName: string)
    ensures Children(OperatorMethod(methodName)) == [Identifier(methodName)] + [Block([])]
    ensures WithChildren(OperatorMethod(methodName), Children(OperatorMethod(methodName))) == OperatorMethod(methodName)
    ensures Sugarless(OperatorMethod(methodName)) && !IsDeclaration(OperatorMethod(methodName))
    ensures Children(Identifier(methodName)) == [] && Sugarless(Identifier(methodName))
    ensures Children(Block([])) == [] && Sugarless(Block([]))
  {
    Rebuild(OperatorMethod(methodName));
  }

  /** A class declaration registers its operator methods under its own name. */
  lemma DeclarationRegisters(className: string, methodName: string, cls: Option<string>, reg: Registry)
    requires Text.StartsWith(methodName, "$operator_")
    ensures Visit(ClassDeclaration(className, [OperatorMethod(methodName)]), cls, reg)
         == Ok((ClassDeclaration(className, [OperatorMethod(methodName)]), Overload.Registered(reg, className, methodName)))
  {
    var m := OperatorMethod(methodName);
    OperatorMethodVisit(methodName, Some(className), reg);
    VisitMembersSingle(m, Some(className), reg);
    SugarlessVisit(ClassDeclaration(className, [m]), cls, reg);
  }

  /** Outside any class declaration, an operator method in a class expression
      registers nothing. */
  lemma ClassExpressionRegistersNothing(methodName: string, reg: Registry)
    ensures Visit(ClassExpression([OperatorMethod(methodName)]), None, reg)
         == Ok((ClassExpression([OperatorMethod(methodName)]), reg))
  {
    var m := OperatorMethod(methodName);
    OperatorMethodVisit(methodName, None, reg);
    VisitMembersSingle(m, None, reg);
    SugarlessVisit(ClassExpression([m]), None, reg);
  }

  // Match expressions.

  /** `subject.match({ clauses })` */
  function MatchCall(subject: Node, clauses: seq<Node>): Node
  {
    Call(Member(subject, Identifier("match")), [ObjectExpr(clauses)])
  }

  /** The visitor hands a match call to the match handler. */
  lemma MatchCallDispatch(subject: Node, clauses: seq<Node>, cls: Option<string>, reg: Registry)
    ensures Visit(MatchCall(subject, clauses), cls, reg) == VisitMatch(subject, clauses, cls, reg)
  {
    var n := MatchCall(subject, clauses);
    assert MatchExpr.IsMatchCall(n);
    assert Visit(n, cls, reg) == VisitCall(n.callee, n.arguments, cls, reg);
  }

  /** A match the lowering refuses aborts the pass with the lowering's failure. */
  lemma MatchPassFails(subject: Node, clauses: seq<Node>, cls: Option<string>, reg: Registry)
    requires MatchExpr.MatchLowering(subject, clauses).Err?
    ensures Visit(MatchCall(subject, clauses), cls, reg) == Err(MatchExpr.MatchLowering(subject, clauses).error)
  {
    MatchCallDispatch(subject, clauses, cls, reg);
  }

  lemma {:induction false} FieldTestsPlain(entries: seq<Node>, bound: nat, cls: Option<string>, reg: Registry)
    requires MatchExpr.FieldTests(MatchExpr.MatchValue, entries).Ok?
    requires forall i :: 0 <= i < |entries| ==> Size(entries[i]) < bound
    requires AllPlain(entries)
    ensures VisitFieldTests(entries, bound, cls, reg).Ok?
    ensures VisitFieldTests(entries, bound, cls, reg).value.0 == MatchExpr.FieldTests(MatchExpr.MatchValue, entries).value
    decreases |entries|
  {
    if entries != [] {
      FieldTestsStep(entries);
      var e := entries[0];
      assert Plain(e);
      ChildrenSmaller(e);
      assert Children(e) == [e.key, e.value];
      PlainUnchanged(e.key, cls, reg);
      var k := Visit(e.key, cls, reg).value;
      PlainUnchanged(e.value, cls, k.1);
      var v := Visit(e.value, cls, k.1).value;
      assert AllPlain(entries[1..]) by {
        forall i | 0 <= i < |entries[1..]| ensures Plain(entries[1..][i]) {
          assert entries[1..][i] == entries[i + 1];
        }
      }
      FieldTestsPlain(entries[1..], bound, cls, v.1);
    }
  }

  lemma ConditionPlain(key: Node, bound: nat, cls: Option<string>, reg: Registry)
    requires MatchExpr.PatternCondition(MatchExpr.MatchValue, key).Ok?
    requires Size(key) < bound
    requires Plain(key)
    ensures VisitCondition(key, bound, cls, reg).Ok?
    ensures VisitCondition(key, bound, cls, reg).value.0 == MatchExpr.PatternCondition(MatchExpr.MatchValue, key).value
  {
    if key == Identifier("_") {
    } else if key.StringLiteral? && MatchExpr.RangeBounds(key.text).Some? {
    } else if key.ObjectExpr? {
      ObjectKeyPlain(key, bound, cls, reg);
    } else {
      PlainUnchanged(key, cls, reg);
    }
  }

  lemma ObjectKeyPlain(key: Node, bound: nat, cls: Option<string>, reg: Registry)
    requires key.ObjectExpr? && MatchExpr.PatternCondition(MatchExpr.MatchValue, key).Ok?
    requires Size(key) < bound
    requires Plain(key)
    ensures VisitCondition(key, bound, cls, reg).Ok?
    ensures VisitCondition(key, bound, cls, reg).value.0 == MatchExpr.PatternCondition(MatchExpr.MatchValue, key).value
  {
    ChildrenSmaller(key);
    SizeSeqElements(key.properties);
    assert AllPlain(key.properties);
    FieldTestsPlain(key.properties, bound, cls, reg);
  }

  lemma {:induction false} ArmsPlain(clauses: seq<Node>, bound: nat, cls: Option<string>, reg: Registry)
    requires MatchExpr.MatchChain(MatchExpr.MatchValue, clauses).Ok?
    requires forall i :: 0 <= i < |clauses| ==> Size(clauses[i]) < bound
    requires AllPlain(clauses)
    ensures VisitArms(clauses, bound, cls, reg).Ok?
    ensures VisitArms(clauses, bound, cls, reg).value.0 == MatchExpr.MatchChain(MatchExpr.MatchValue, clauses).value
    decreases |clauses|
  {
    if clauses != [] {
      ChainStep(clauses);
      var c := clauses[0];
      assert Plain(c);
      ChildrenSmaller(c);
      assert Children(c) == [c.key, c.value];
      ConditionPlain(c.key, bound, cls, reg);
      var cond := VisitCondition(c.key, bound, cls, reg).value;
      PlainUnchanged(c.value, cls, cond.1);
      var value := Visit(c.value, cls, cond.1).value;
      assert AllPlain(clauses[1..]) by {
        forall i | 0 <= i < |clauses[1..]| ensures Plain(clauses[1..][i]) {
          assert clauses[1..][i] == clauses[i + 1];
        }
      }
      ArmsPlain(clauses[1..], bound, cls, value.1);
    }
  }

  /** A match whose subject and clauses are plain becomes its lowering. */
  lemma MatchPass(subject: Node, clauses: seq<Node>, cls: Option<string>, reg: Registry)
    requires MatchExpr.MatchLowering(subject, clauses).Ok?
    requires Plain(subject) && AllPlain(clauses)
    ensures Visit(MatchCall(subject, clauses), cls, reg).Ok?
    ensures Visit(MatchCall(subject, clauses), cls, reg).value.0 == MatchExpr.MatchLowering(subject, clauses).value
  {
    MatchCallDispatch(subject, clauses, cls, reg);
    var bound := 1 + Size(subject) + SizeSeq(clauses);
    assert MatchExpr.MatchChain(MatchExpr.MatchValue, clauses).Ok?;
    SizeSeqElements(clauses);
    ArmsPlain(clauses, bound, cls, reg);
    var arms := VisitArms(clauses, bound, cls, reg).value;
    PlainUnchanged(subject, cls, arms.1);
    MatchVisit(subject, clauses, cls, reg, arms.0, arms.1, Visit(subject, cls, arms.1).value.1);
  }

  /** With the arms and the subject visited, the match handler's result is the
      arrow over the visited arms called on the visited subject. */
  lemma MatchVisit(subject: Node, clauses: seq<Node>, cls: Option<string>, reg: Registry,
                   arms: Node, reg1: Registry, reg2: Registry)
    requires MatchExpr.MatchChain(MatchExpr.MatchValue, clauses).Ok?
    requires forall i :: 0 <= i < |clauses| ==> Size(clauses[i]) < 1 + Size(subject) + SizeSeq(clauses)
    requires VisitArms(clauses, 1 + Size(subject) + SizeSeq(clauses), cls, reg) == Ok((arms, reg1))
    requires Visit(subject, cls, reg1) == Ok((subject, reg2))
    ensures VisitMatch(subject, clauses, cls, reg) == Ok((Call(Arrow([MatchExpr.MatchValue], arms), [subject]), reg2))
  {
  }

  // Record updates.

  /** `withUpdate(base, patch)` */
  function WithUpdateCall(base: Node, patch: Node): Node
  {
    Call(Identifier("withUpdate"), [base, patch])
  }

  /** The visitor hands a `withUpdate` call to the update handler. */
  lemma WithUpdateCallDispatch(base: Node, patch: Node, cls: Option<string>, reg: Registry)
    ensures Visit(WithUpdateCall(base, patch), cls, reg) == VisitWithUpdate(base, patch, cls, reg)
  {
    var n := WithUpdateCall(base, patch);
    assert !MatchExpr.IsMatchCall(n) && WithUpdate.IsWithUpdateCall(n);
    assert Visit(n, cls, reg) == VisitCall(n.callee, n.arguments, cls, reg);
  }

  /** An update the lowering refuses aborts the pass with the lowering's failure. */
  lemma WithUpdatePassFails(base: Node, patch: Node, cls: Option<string>, reg: Registry)
    requires WithUpdate.WithUpdateLowering(base, patch).Err?
    ensures Visit(WithUpdateCall(base, patch), cls, reg) == Err(WithUpdate.WithUpdateLowering(base, patch).error)
  {
    WithUpdateCallDispatch(base, patch, cls, reg);
  }

  /** The entries an update carries over from a plain patch are plain. */
  lemma KeptPlain(entries: seq<Node>)
    requires AllPlain(entries)
    ensures AllPlain(WithUpdate.MergeEntries(entries))
  {
    var kept := WithUpdate.MergeEntries(entries);
    forall i | 0 <= i < |kept| ensures Plain(kept[i]) {
      WithUpdate.MergeEntriesMembership(entries, kept[i]);
    }
  }

  /** An update of plain operands becomes the merged object. */
  lemma WithUpdatePass(base: Node, patch: Node, cls: Option<string>, reg: Registry)
    requires WithUpdate.WithUpdateLowering(base, patch).Ok?
    requires Plain(base) && Plain(patch)
    ensures Visit(WithUpdateCall(base, patch), cls, reg).Ok?
    ensures Visit(WithUpdateCall(base, patch), cls, reg).value.0 == WithUpdate.WithUpdateLowering(base, patch).value
  {
    WithUpdateCallDispatch(base, patch, cls, reg);
    PlainUnchanged(base, cls, reg);
    var reg1 := Visit(base, cls, reg).value.1;
    if patch.ObjectExpr? {
      ChildrenSmaller(patch);
      assert Children(patch) == patch.properties;
      KeptPlain(patch.properties);
      var kept := WithUpdate.MergeEntries(patch.properties);
      PlainSeqUnchanged(kept, cls, reg1);
      WithUpdateVisit(base, patch, cls, reg, reg1, kept, VisitSeq(kept, cls, reg1).value.1);
    } else {
      PlainUnchanged(patch, cls, reg1);
    }
  }

  /** With the base and the kept entries visited unchanged, the update handler's
      result is the merged object. */
  lemma WithUpdateVisit(base: Node, patch: Node, cls: Option<string>, reg: Registry,
                        reg1: Registry, kept: seq<Node>, reg2: Registry)
    requires WithUpdate.WithUpdateLowering(base, patch).Ok? && patch.ObjectExpr?
    requires Visit(base, cls, reg) == Ok((base, reg1))
    requires kept == WithUpdate.MergeEntries(patch.properties)
    requires VisitSeq(kept, cls, reg1) == Ok((kept, reg2))
    ensures VisitWithUpdate(base, patch, cls, reg) == Ok((ObjectExpr([Spread(base)] + kept), reg2))
  {
  }

  // Queries.

  lemma {:induction false} ListPlain(ns: seq<Node>, bound: nat, cls: Option<string>, reg: Registry)
    requires forall i :: 0 <= i < |ns| ==> Size(ns[i]) < bound
    requires AllPlain(ns)
    ensures VisitList(ns, bound, cls, reg).Ok? && VisitList(ns, bound, cls, reg).value.0 == ns
    decreases |ns|
  {
    if ns != [] {
      PlainUnchanged(ns[0], cls, reg);
      var head := Visit(ns[0], cls, reg).value;
      assert AllPlain(ns[1..]) by {
        forall i | 0 <= i < |ns[1..]| ensures Plain(ns[1..][i]) {
          assert ns[1..][i] == ns[i + 1];
        }
      }
      ListPlain(ns[1..], bound, cls, head.1);
      assert [ns[0]] + ns[1..] == ns;
    }
  }

  lemma OptPlain(o: Option<Node>, bound: nat, cls: Option<string>, reg: Registry)
    requires o.Some? ==> Size(o.value) < bound && Plain(o.value)
    ensures VisitOpt(o, bound, cls, reg).Ok? && VisitOpt(o, bound, cls, reg).value.0 == o
  {
    if o.Some? {
      PlainUnchanged(o.value, cls, reg);
    }
  }

  /** Every operand of a descriptor is plain, spelled out part by part. */
  lemma PartsPlain(d: QueryChain.Descriptor)
    requires AllParts(d, x => Plain(x))
    ensures d.source.Some? ==> Plain(d.source.value)
    ensures AllPlain(d.filters)
    ensures d.groupKey.Some? ==> Plain(d.groupKey.value)
    ensures d.orderKey.Some? ==> Plain(d.orderKey.value)
    ensures d.projection.Some? ==> Plain(d.projection.value)
  {
  }

  lemma SourceFiltersPlain(d: QueryChain.Descriptor, bound: nat, cls: Option<string>, reg: Registry)
    requires AllParts(d, x => Size(x) < bound)
    requires AllParts(d, x => Plain(x))
    ensures VisitOpt(d.source, bound, cls, reg).Ok?
    ensures VisitOpt(d.source, bound, cls, reg).value.0 == d.source
    ensures VisitList(d.filters, bound, cls, VisitOpt(d.source, bound, cls, reg).value.1).Ok?
    ensures VisitList(d.filters, bound, cls, VisitOpt(d.source, bound, cls, reg).value.1).value.0 == d.filters
  {
    PartsBelow(d, bound);
    PartsPlain(d);
    OptPlain(d.source, bound, cls, reg);
    ListPlain(d.filters, bound, cls, VisitOpt(d.source, bound, cls, reg).value.1);
  }

  lemma KeysPlain(d: QueryChain.Descriptor, bound: nat, cls: Option<string>, reg: Registry)
    requires AllParts(d, x => Size(x) < bound)
    requires AllParts(d, x => Plain(x))
    ensures VisitOpt(d.groupKey, bound, cls, reg).Ok?
    ensures VisitOpt(d.groupKey, bound, cls, reg).value.0 == d.groupKey
    ensures var g := VisitOpt(d.groupKey, bound, cls, reg).value.1;
      VisitOpt(d.orderKey, bound, cls, g).Ok? && VisitOpt(d.orderKey, bound, cls, g).value.0 == d.orderKey
    ensures var g := VisitOpt(d.groupKey, bound, cls, reg).value.1;
      var o := VisitOpt(d.orderKey, bound, cls, g).value.1;
      VisitOpt(d.projection, bound, cls, o).Ok? && VisitOpt(d.projection, bound, cls, o).value.0 == d.projection
  {
    PartsBelow(d, bound);
    PartsPlain(d);
    OptPlain(d.groupKey, bound, cls, reg);
    var g := VisitOpt(d.groupKey, bound, cls, reg).value.1;
    OptPlain(d.orderKey, bound, cls, g);
    var o := VisitOpt(d.orderKey, bound, cls, g).value.1;
    OptPlain(d.projection, bound, cls, o);
  }

  /** A descriptor of plain operands is visited to itself. */
  lemma DescriptorPlain(d: QueryChain.Descriptor, bound: nat, cls: Option<string>, reg: Registry)
    requires AllParts(d, x => Size(x) < bound)
    requires AllParts(d, x => Plain(x))
    ensures VisitDescriptor(d, bound, cls, reg).Ok? && VisitDescriptor(d, bound, cls, reg).value.0 == d
  {
    SourceFiltersPlain(d, bound, cls, reg);
    var s := VisitOpt(d.source, bound, cls, reg).value;
    KeysPlain(d, bound, cls, VisitList(d.filters, bound, cls, s.1).value.1);
  }

  /** A token query the lowering refuses aborts the pass with its failure. */
  lemma TokenQueryPassFails(ts: seq<Node>, cls: Option<string>, reg: Registry)
    requires TokenQuery.IsLinqQuery(Sequence(ts))
    requires TokenQuery.TokenQueryLowering(ts).Err?
    ensures Visit(Sequence(ts), cls, reg) == Err(TokenQuery.TokenQueryLowering(ts).error)
  {
  }

  /** A token query of plain tokens becomes its method chain. */
  lemma TokenQueryPass(ts: seq<Node>, cls: Option<string>, reg: Registry)
    requires TokenQuery.IsLinqQuery(Sequence(ts))
    requires TokenQuery.TokenQueryLowering(ts).Ok?
    requires AllPlain(ts)
    ensures Visit(Sequence(ts), cls, reg).Ok?
    ensures Visit(Sequence(ts), cls, reg).value.0 == TokenQuery.TokenQueryLowering(ts).value
  {
    var d := TokenQuery.ScanTokens(ts);
    SizeSeqElements(ts);
    TokenParts(ts, x => Size(x) < Size(Sequence(ts)));
    TokenParts(ts, x => Plain(x));
    DescriptorPlain(d, Size(Sequence(ts)), cls, reg);
  }

  /** The statement handler's assignment of the lowered query gives what the walk
      into the statement gives, where the sequence handler replaces the query:
      removing the statement handler would not change the result. */
  lemma ExpressionStatementRedundant(e: Node, cls: Option<string>, reg: Registry)
    ensures Visit(ExpressionStatement(e), cls, reg) == VisitChildren(ExpressionStatement(e), cls, reg)
  {
    if e.Sequence? && TokenQuery.IsLinqQuery(e) {
      QueryStatementRedundant(e, cls, reg);
    } else {
      StatementDispatch(e, cls, reg);
    }
  }

  /** A statement `e;` whose expression is no token query is visited as any
      other node. */
  lemma StatementDispatch(e: Node, cls: Option<string>, reg: Registry)
    requires !(e.Sequence? && TokenQuery.IsLinqQuery(e))
    ensures Visit(ExpressionStatement(e), cls, reg) == VisitChildren(ExpressionStatement(e), cls, reg)
  {
    var n := ExpressionStatement(e);
    assert !MatchExpr.IsMatchCall(n) && !WithUpdate.IsWithUpdateCall(n) && !IsDeclaration(n);
  }

  /** The statement handler for a token query gives what the walk into the
      statement would give. */
  lemma QueryStatementRedundant(e: Node, cls: Option<string>, reg: Registry)
    requires e.Sequence? && TokenQuery.IsLinqQuery(e)
    ensures Visit(ExpressionStatement(e), cls, reg) == VisitChildren(ExpressionStatement(e), cls, reg)
  {
    var n := ExpressionStatement(e);
    assert Children(n) == [e];
    SizeSeqSingle(e);
    assert [e][1..] == [];
    assert Registration(n, cls, reg) == reg;
    var q := VisitTokenQuery(e.expressions, cls, reg);
    assert Visit(e, cls, reg) == q;
    if q.Ok? {
      VisitSeqSingle(e, cls, reg);
    } else {
      VisitSeqSingleFails(e, cls, reg);
    }
  }

  /** What an entry of a plain query object contributes is plain. */
  lemma EntriesPlain(entries: seq<Node>)
    requires AllPlain(entries)
    ensures forall i :: 0 <= i < |entries| ==> EntryParts(entries[i], x => Plain(x))
  {
    forall i | 0 <= i < |entries| ensures EntryParts(entries[i], x => Plain(x)) {
      var e := entries[i];
      assert Plain(e);
      if e.ObjectProperty? {
        ChildrenSmaller(e);
        assert Children(e)[1] == e.value;
        if e.value.ArrayExpr? {
          ChildrenSmaller(e.value);
          assert Children(e.value) == e.value.elements;
        }
      }
    }
  }

  /** A declarator `v = { from: .., ... }` the lowering refuses aborts the pass
      with its failure. */
  lemma ObjectQueryPassFails(binding: Node, entries: seq<Node>, cls: Option<string>, reg: Registry)
    requires ObjectQuery.IsLinqQueryObject(ObjectExpr(entries))
    requires ObjectQuery.ObjectQueryLowering(entries).Err?
    ensures Visit(VariableDeclarator(binding, Some(ObjectExpr(entries))), cls, reg)
         == Err(ObjectQuery.ObjectQueryLowering(entries).error)
  {
  }

  /** The operands the scan of a plain query object keeps are plain. */
  lemma ScanPlain(entries: seq<Node>)
    requires AllPlain(entries)
    requires ObjectQuery.ScanEntries(QueryChain.NoClauses, entries).Ok?
    ensures AllParts(ObjectQuery.ScanEntries(QueryChain.NoClauses, entries).value, x => Plain(x))
  {
    EntriesPlain(entries);
    ObjectParts(QueryChain.NoClauses, entries, x => Plain(x));
  }

  /** A declarator initialised with a plain query object is initialised with its
      method chain instead. */
  lemma ObjectQueryPass(binding: Node, entries: seq<Node>, cls: Option<string>, reg: Registry)
    requires ObjectQuery.IsLinqQueryObject(ObjectExpr(entries))
    requires ObjectQuery.ObjectQueryLowering(entries).Ok?
    requires Plain(binding) && AllPlain(entries)
    ensures Visit(VariableDeclarator(binding, Some(ObjectExpr(entries))), cls, reg).Ok?
    ensures Visit(VariableDeclarator(binding, Some(ObjectExpr(entries))), cls, reg).value.0
         == VariableDeclarator(binding, Some(ObjectQuery.ObjectQueryLowering(entries).value))
  {
    var n := VariableDeclarator(binding, Some(ObjectExpr(entries)));
    var d := ObjectQuery.ScanEntries(QueryChain.NoClauses, entries).value;
    QueryPartsSmaller(binding, entries);
    ScanPlain(entries);
    PlainUnchanged(binding, cls, reg);
    var b := Visit(binding, cls, reg).value;
    DescriptorPlain(d, Size(n), cls, b.1);
    assert VisitDescriptor(d, Size(n), cls, b.1) == Ok((d, VisitDescriptor(d, Size(n), cls, b.1).value.1));
    QueryDeclaratorDispatch(binding, entries, cls, reg);
  }

  /** The visitor hands a declarator initialised with a query object to the
      query handler. */
  lemma QueryDeclaratorDispatch(binding: Node, entries: seq<Node>, cls: Option<string>, reg: Registry)
    requires ObjectQuery.IsLinqQueryObject(ObjectExpr(entries))
    ensures Visit(VariableDeclarator(binding, Some(ObjectExpr(entries))), cls, reg)
         == VisitQueryDeclarator(VariableDeclarator(binding, Some(ObjectExpr(entries))), cls, reg)
  {
  }

  // Property declarations.

  /** A property declaration in a class body becomes its getter and setter; the
      registry is untouched. */
  lemma PropertyDeclarationPass(className: string, p: string, decl: Node, isStatic: bool, cls: Option<string>, reg: Registry)
    requires Accessors.IsPropertyDeclaration(decl)
    ensures Visit(ClassDeclaration(className, [ClassProperty(Identifier(p), Some(decl), isStatic)]), cls, reg)
         == Ok((ClassDeclaration(className, [Accessors.Getter(p), Accessors.Setter(p)]), reg))
  {
    var m := ClassProperty(Identifier(p), Some(decl), isStatic);
    assert VisitMember(m, Some(className), reg) == Ok(([Accessors.Getter(p), Accessors.Setter(p)], reg));
    VisitMembersSingle(m, Some(className), reg);
  }

  /** A property declaration whose key is not a plain name aborts the pass. */
  lemma PropertyDeclarationFails(className: string, key: Node, decl: Node, isStatic: bool, cls: Option<string>, reg: Registry)
    requires Accessors.IsPropertyDeclaration(decl) && !key.Identifier?
    ensures Visit(ClassDeclaration(className, [ClassProperty(key, Some(decl), isStatic)]), cls, reg).Err?
  {
    var m := ClassProperty(key, Some(decl), isStatic);
    assert VisitMember(m, Some(className), reg).Err?;
    VisitMembersSingleFails(m, Some(className), reg);
  }

  lemma FieldPlain(p: string)
    ensures Plain(Accessors.ThisField(Accessors.BackingField(p)))
  {
    var field := Accessors.ThisField(Accessors.BackingField(p));
    PlainIntro(ThisExpression);
    PlainIntro(Identifier(Accessors.BackingField(p)));
    assert Children(field) == [ThisExpression, Identifier(Accessors.BackingField(p))];
    PlainIntro(field);
  }

  lemma GetterPlain(p: string)
    ensures Plain(Accessors.Getter(p))
  {
    var field := Accessors.ThisField(Accessors.BackingField(p));
    FieldPlain(p);
    var ret := Return(Some(field));
    assert Children(ret) == [field];
    PlainIntro(ret);
    var body := Block([ret]);
    PlainIntro(body);
    PlainIntro(Identifier(p));
    var g := Accessors.Getter(p);
    assert Children(g) == [Identifier(p), body];
    PlainIntro(g);
  }

  lemma SetterPlain(p: string)
    ensures Plain(Accessors.Setter(p))
  {
    var field := Accessors.ThisField(Accessors.BackingField(p));
    FieldPlain(p);
    PlainIntro(Identifier("value"));
    var assign := Assignment("=", field, Identifier("value"));
    assert Children(assign) == [field, Identifier("value")];
    PlainIntro(assign);
    var stmt := ExpressionStatement(assign);
    assert Children(stmt) == [assign];
    PlainIntro(stmt);
    var body := Block([stmt]);
    PlainIntro(body);
    PlainIntro(Identifier(p));
    var s := Accessors.Setter(p);
    assert Children(s) == [Identifier(p), Identifier("value"), body];
    PlainIntro(s);
  }

  /** The generated accessors are plain and register nothing, so the visit of the
      methods that replace a declaration leaves them as they are. */
  lemma AccessorsArePlain(p: string, cls: Option<string>, reg: Registry)
    ensures Plain(Accessors.Getter(p)) && Plain(Accessors.Setter(p))
    ensures Registration(Accessors.Getter(p), cls, reg) == reg && Registration(Accessors.Setter(p), cls, reg) == reg
  {
    GetterPlain(p);
    SetterPlain(p);
  }
}
