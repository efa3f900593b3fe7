/** Whole programs through the pass (src/transpile.ts:54-169): the registry read
    and written in visiting order, and a second pass that finds sugar in the
    output of the first. */
module PassExamples {
  import opened Syntax
  import Text
  import WithUpdate
  import QueryChain
  import ObjectQuery
  import TokenQuery
  import MatchExpr
  import Overload
  import opened Transform
  import opened PassLaws

  /** `class Vector { static $operator_plus() {} }` */
  const VectorClass: Node := ClassDeclaration("Vector", [OperatorMethod("$operator_plus")])

  /** `v1 + v2;` */
  const VectorSum: Node := ExpressionStatement(Binary("+", Identifier("v1"), Identifier("v2")))

  lemma VectorSumFacts()
    ensures Text.StartsWith("v1", "v") && Text.StartsWith("v2", "v")
    ensures Text.StartsWith("$operator_plus", "$operator_")
  {
    assert "v1"[..1] == "v";
    assert "v2"[..1] == "v";
    assert "$operator_plus"[..10] == "$operator_";
  }

  /** A block is visited statement by statement. */
  lemma BlockVisit(ss: seq<Node>, cls: Option<string>, reg: Registry, ts: seq<Node>, after: Registry)
    requires VisitSeq(ss, cls, reg) == Ok((ts, after))
    ensures Visit(Block(ss), cls, reg) == Ok((Block(ts), after))
  {
    SugarlessVisit(Block(ss), cls, reg);
    assert Children(Block(ss)) == ss;
    assert Registration(Block(ss), cls, reg) == reg;
  }

  /** A block of two statements: the first is visited, then the second with the
      registry the first left. */
  lemma BlockOfTwo(s1: Node, s2: Node, cls: Option<string>, reg: Registry, t1: Node, reg1: Registry, t2: Node, reg2: Registry)
    requires Visit(s1, cls, reg) == Ok((t1, reg1))
    requires Visit(s2, cls, reg1) == Ok((t2, reg2))
    ensures Visit(Block([s1, s2]), cls, reg) == Ok((Block([t1, t2]), reg2))
  {
    VisitSeqSingle(s2, cls, reg1);
    VisitSeqCons(s1, [s2], cls, reg);
    assert [s1] + [s2] == [s1, s2];
    assert [t1] + [t2] == [t1, t2];
    BlockVisit([s1, s2], cls, reg, [t1, t2], reg2);
  }

  lemma StatementRebuild(e: Node, t: Node)
    ensures WithChildren(ExpressionStatement(e), [t]) == ExpressionStatement(t)
  {
  }

  lemma BinaryRebuild(op: string, l: Node, r: Node, tl: Node, tr: Node)
    ensures WithChildren(Binary(op, l, r), [tl, tr]) == Binary(op, tl, tr)
  {
  }

  lemma DeclaratorRebuild(q: Node, init: Node, tq: Node, ti: Node)
    ensures WithChildren(VariableDeclarator(q, Some(init)), [tq, ti]) == VariableDeclarator(tq, Some(ti))
    ensures Children(VariableDeclarator(q, Some(init))) == [q] + [init]
    ensures [tq] + [ti] == [tq, ti]
    ensures forall cls, reg :: Registration(VariableDeclarator(q, Some(init)), cls, reg) == reg
  {
  }

  /** A statement `e;` is visited as its expression is, when that is no token
      query. */
  lemma StatementVisit(e: Node, cls: Option<string>, reg: Registry, t: Node, after: Registry)
    requires Visit(e, cls, reg) == Ok((t, after))
    requires !(e.Sequence? && TokenQuery.IsLinqQuery(e))
    ensures Visit(ExpressionStatement(e), cls, reg) == Ok((ExpressionStatement(t), after))
  {
    var n := ExpressionStatement(e);
    StatementRebuild(e, t);
    StatementDispatch(e, cls, reg);
    VisitSeqSingle(e, cls, reg);
    assert Children(n) == [e];
    assert Registration(n, cls, reg) == reg;
    VisitChildrenOk(n, cls, reg, [t], after);
  }

  /** With `Vector`'s `plus` registered, `v1 + v2;` becomes the static call. */
  lemma SumAfterDeclaration(cls: Option<string>, reg: Registry)
    requires reg == Overload.Registered(map[], "Vector", "$operator_plus")
    ensures Visit(VectorSum, cls, reg).Ok?
    ensures Visit(VectorSum, cls, reg).value.0
         == ExpressionStatement(Overload.StaticCall("Vector", "$operator_plus", Identifier("v1"), Identifier("v2")))
  {
    VectorSumFacts();
    var sum := Binary("+", Identifier("v1"), Identifier("v2"));
    Overload.VectorExample(map[], "v1", "v2", 0);
    PlainIntro(Identifier("v1"));
    PlainIntro(Identifier("v2"));
    OverloadPass("+", Identifier("v1"), Identifier("v2"), cls, reg);
    StatementVisit(sum, cls, reg, Visit(sum, cls, reg).value.0, Visit(sum, cls, reg).value.1);
  }

  /** A binary expression no handler rewrites is visited as any other node. */
  lemma BinaryDispatch(op: string, l: Node, r: Node, cls: Option<string>, reg: Registry)
    requires op != "|>"
    requires !(Overload.IsOverloadableOperator(op) && Overload.TryCreateOperatorOverload(op, l, r, reg).Some?)
    ensures Visit(Binary(op, l, r), cls, reg) == VisitChildren(Binary(op, l, r), cls, reg)
  {
    var n := Binary(op, l, r);
    assert !MatchExpr.IsMatchCall(n) && !WithUpdate.IsWithUpdateCall(n) && !IsDeclaration(n);
  }

  /** A binary expression no handler rewrites is visited operand by operand. */
  lemma BinaryVisit(op: string, l: Node, r: Node, cls: Option<string>, reg: Registry,
                    tl: Node, reg1: Registry, tr: Node, reg2: Registry)
    requires op != "|>"
    requires !(Overload.IsOverloadableOperator(op) && Overload.TryCreateOperatorOverload(op, l, r, reg).Some?)
    requires Visit(l, cls, reg) == Ok((tl, reg1))
    requires Visit(r, cls, reg1) == Ok((tr, reg2))
    ensures Visit(Binary(op, l, r), cls, reg) == Ok((Binary(op, tl, tr), reg2))
  {
    var n := Binary(op, l, r);
    BinaryRebuild(op, l, r, tl, tr);
    BinaryDispatch(op, l, r, cls, reg);
    VisitSeqSingle(r, cls, reg1);
    VisitSeqCons(l, [r], cls, reg);
    assert [l] + [r] == [l, r] == Children(n);
    assert [tl] + [tr] == [tl, tr];
    assert Registration(n, cls, reg) == reg;
    VisitChildrenOk(n, cls, reg, [tl, tr], reg2);
  }

  /** With nothing registered, `v1 + v2` stays as it is. */
  lemma BareSumUnchanged(cls: Option<string>)
    ensures Visit(Binary("+", Identifier("v1"), Identifier("v2")), cls, map[])
         == Ok((Binary("+", Identifier("v1"), Identifier("v2")), map[]))
  {
    var reg: Registry := map[];
    assert Overload.TryCreateOperatorOverload("+", Identifier("v1"), Identifier("v2"), reg).None?;
    LeafUnchanged(Identifier("v1"), cls, reg);
    LeafUnchanged(Identifier("v2"), cls, reg);
    BinaryVisit("+", Identifier("v1"), Identifier("v2"), cls, reg, Identifier("v1"), reg, Identifier("v2"), reg);
  }

  /** With nothing registered, `v1 + v2;` stays as it is. */
  lemma SumBeforeDeclaration(cls: Option<string>)
    ensures Visit(VectorSum, cls, map[]) == Ok((VectorSum, map[]))
  {
    var sum := Binary("+", Identifier("v1"), Identifier("v2"));
    BareSumUnchanged(cls);
    StatementVisit(sum, cls, map[], sum, map[]);
  }

  /** Once the class is declared, `v1 + v2` calls its operator method. */
  lemma DeclaredThenUsed()
    ensures Transpile(Block([VectorClass, VectorSum]))
         == Ok(Block([VectorClass, ExpressionStatement(Overload.StaticCall("Vector", "$operator_plus", Identifier("v1"), Identifier("v2")))]))
  {
    VectorSumFacts();
    DeclarationRegisters("Vector", "$operator_plus", None, map[]);
    var reg1 := Overload.Registered(map[], "Vector", "$operator_plus");
    SumAfterDeclaration(None, reg1);
    BlockOfTwo(VectorClass, VectorSum, None, map[], VectorClass, reg1, Visit(VectorSum, None, reg1).value.0, Visit(VectorSum, None, reg1).value.1);
  }

  /** An operator used before the class that overloads it is declared is left as
      it is: the registry is still empty when the use is visited. */
  lemma UsedBeforeDeclared()
    ensures Transpile(Block([VectorSum, VectorClass])) == Ok(Block([VectorSum, VectorClass]))
  {
    VectorSumFacts();
    SumBeforeDeclaration(None);
    DeclarationRegisters("Vector", "$operator_plus", None, map[]);
    BlockOfTwo(VectorSum, VectorClass, None, map[], VectorSum, map[], VectorClass, Overload.Registered(map[], "Vector", "$operator_plus"));
  }

  /** `{ from: x, select: y }` */
  function FromSelect(x: Node, y: Node): Node
  {
    ObjectExpr([ObjectProperty(Identifier("from"), x), ObjectProperty(Identifier("select"), y)])
  }

  lemma FromSelectPlain(x: Node, y: Node)
    requires Plain(x) && Plain(y)
    ensures Plain(FromSelect(x, y))
    ensures AllPlain(FromSelect(x, y).properties)
  {
    var p1 := ObjectProperty(Identifier("from"), x);
    var p2 := ObjectProperty(Identifier("select"), y);
    PlainIntro(Identifier("from"));
    PlainIntro(Identifier("select"));
    assert Children(p1) == [Identifier("from"), x];
    PlainIntro(p1);
    assert Children(p2) == [Identifier("select"), y];
    PlainIntro(p2);
    PlainIntro(FromSelect(x, y));
  }

  lemma DeclaratorDispatch(q: Node, init: Node, cls: Option<string>, reg: Registry)
    requires !init.ObjectExpr?
    ensures Visit(VariableDeclarator(q, Some(init)), cls, reg) == VisitChildren(VariableDeclarator(q, Some(init)), cls, reg)
  {
    var n := VariableDeclarator(q, Some(init));
    assert !ObjectQuery.IsLinqQueryObject(init);
    assert !MatchExpr.IsMatchCall(n) && !WithUpdate.IsWithUpdateCall(n) && !IsDeclaration(n);
  }

  /** A declarator whose initialiser is no query object: the binding, then the
      initialiser. */
  lemma DeclaratorVisit(q: Node, init: Node, cls: Option<string>, reg: Registry,
                        tq: Node, reg1: Registry, ti: Node, reg2: Registry)
    requires !init.ObjectExpr?
    requires Visit(q, cls, reg) == Ok((tq, reg1))
    requires Visit(init, cls, reg1) == Ok((ti, reg2))
    ensures Visit(VariableDeclarator(q, Some(init)), cls, reg) == Ok((VariableDeclarator(tq, Some(ti)), reg2))
  {
    var n := VariableDeclarator(q, Some(init));
    DeclaratorRebuild(q, init, tq, ti);
    DeclaratorDispatch(q, init, cls, reg);
    VisitSeqSingle(init, cls, reg1);
    VisitSeqCons(q, [init], cls, reg);
    VisitChildrenOk(n, cls, reg, [tq, ti], reg2);
  }

  /** The first pass: the update becomes the merged object. */
  lemma FirstPass(q: Node, a: Node, x: Node, y: Node)
    requires Plain(q) && Plain(a) && Plain(x) && Plain(y) && !a.Spread?
    ensures Transpile(VariableDeclarator(q, Some(WithUpdateCall(a, FromSelect(x, y)))))
         == Ok(VariableDeclarator(q, Some(ObjectExpr([Spread(a)] + FromSelect(x, y).properties))))
  {
    var patch := FromSelect(x, y);
    FromSelectPlain(x, y);
    WithUpdate.MergeEntriesKeepsAll(patch.properties);
    WithUpdatePass(a, patch, None, map[]);
    PlainUnchanged(q, None, map[]);
    var reg1 := Visit(q, None, map[]).value.1;
    WithUpdatePass(a, patch, None, reg1);
    var t := Visit(WithUpdateCall(a, patch), None, reg1).value;
    DeclaratorVisit(q, WithUpdateCall(a, patch), None, map[], q, reg1, t.0, t.1);
  }

  /** The merged object read as a query: the spread is skipped. */
  lemma MergedIsQuery(a: Node, x: Node, y: Node)
    ensures var entries := [Spread(a)] + FromSelect(x, y).properties;
      && ObjectQuery.IsLinqQueryObject(ObjectExpr(entries))
      && ObjectQuery.ObjectQueryLowering(entries) == Ok(QueryChain.ChainOf(QueryChain.From(x), [], None, None, Some(y)))
  {
    var p1 := ObjectProperty(Identifier("from"), x);
    var p2 := ObjectProperty(Identifier("select"), y);
    var entries := [Spread(a), p1, p2];
    assert [Spread(a)] + FromSelect(x, y).properties == entries;
    assert HasKeyNamed(entries[1], "from") && HasKeyNamed(entries[2], "select");
    var d1 := QueryChain.NoClauses.(source := Some(x));
    var d2 := d1.(projection := Some(y));
    assert entries[1..][1..][1..] == [];
    assert ObjectQuery.ScanEntries(d2, entries[1..][1..][1..]) == Ok(d2);
    assert ObjectQuery.ScanEntries(d1, entries[1..][1..]) == Ok(d2);
    assert ObjectQuery.ScanEntries(QueryChain.NoClauses, entries[1..]) == Ok(d2);
    assert ObjectQuery.ScanEntries(QueryChain.NoClauses, entries) == Ok(d2);
  }

  /** The merged object of plain parts is plain. */
  lemma MergedPlain(a: Node, x: Node, y: Node)
    requires Plain(a) && Plain(x) && Plain(y)
    ensures AllPlain([Spread(a)] + FromSelect(x, y).properties)
  {
    var entries := [Spread(a)] + FromSelect(x, y).properties;
    FromSelectPlain(x, y);
    assert Children(Spread(a)) == [a];
    PlainIntro(Spread(a));
    forall i | 0 <= i < |entries| ensures Plain(entries[i]) {
      if i > 0 {
        assert entries[i] == FromSelect(x, y).properties[i - 1];
      }
    }
  }

  /** The second pass: the merged object is a query object, and becomes its chain. */
  lemma SecondPass(q: Node, a: Node, x: Node, y: Node)
    requires Plain(q) && Plain(a) && Plain(x) && Plain(y)
    ensures Transpile(VariableDeclarator(q, Some(ObjectExpr([Spread(a)] + FromSelect(x, y).properties))))
         == Ok(VariableDeclarator(q, Some(QueryChain.ChainOf(QueryChain.From(x), [], None, None, Some(y)))))
  {
    var entries := [Spread(a)] + FromSelect(x, y).properties;
    MergedPlain(a, x, y);
    MergedIsQuery(a, x, y);
    ObjectQueryPass(q, entries, None, map[]);
  }

  /** `const q = withUpdate(a, { from: x, select: y })`: the first pass turns the
      update into the object `{ ...a, from: x, select: y }`, which is not looked at
      as a query because the declarator was entered before its initialiser was
      replaced; a second pass finds the query object and builds the chain
      `from(x).select(y).toArray()`.  So the pass is not idempotent. */
  lemma NotIdempotent(q: Node, a: Node, x: Node, y: Node)
    requires Plain(q) && Plain(a) && Plain(x) && Plain(y) && !a.Spread?
    ensures var program := VariableDeclarator(q, Some(WithUpdateCall(a, FromSelect(x, y))));
      && Transpile(program).Ok?
      && Transpile(Transpile(program).value).Ok?
      && Transpile(Transpile(program).value) != Transpile(program)
  {
    FirstPass(q, a, x, y);
    SecondPass(q, a, x, y);
  }
}
