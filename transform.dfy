/** The rewrite pass of `transpile` (src/transpile.ts:54-169): a pre-order walk of
    the tree in which each node type has at most one handler.

    The walk follows what the handlers and the traversal do:
    - children are visited in the order of the node's fields (`Children`);
    - a handler that replaces its node skips the old node's children, and the new
      node is visited in their place: its own handlers first, then its children;
    - a handler that assigns a child (`init`, `expression`) leaves the node in
      place, and the walk then goes into the new child;
    - the operator registry is shared by all handlers and read and written in
      visiting order; `Visit` threads it through as a value.

    The node that replaces a rewritten one is made of glue built by the lowering
    (the `__matchValue` arrow function, the conditional spine, the query chain,
    the merged object, the static call) around sub-trees taken from the original.
    The handlers decline every piece of glue (module `InertGlue`), so visiting the new
    node amounts to visiting the original sub-trees it holds, in the order the
    walk meets them there; that is how the replacements are visited here, which
    keeps the walk's measure the size of the original tree. */
module Transform {
  import opened Syntax
  import Text
  import MatchExpr
  import WithUpdate
  import QueryChain
  import TokenQuery
  import ObjectQuery
  import Accessors
  import Overload

  type Registry = Overload.Registry

  /** A visited tree or list, with the registry after the visit, or the failure
      that aborted the transform. */
  type Pass<T> = Result<(T, Registry)>

  function Opt(o: Option<Node>): seq<Node>
  {
    match o
    case None => []
    case Some(n) => [n]
  }

  /** The sub-trees the traversal enters, in its order. */
  function Children(n: Node): seq<Node>
  {
    match n
    case Identifier(_) => []
    case StringLiteral(_) => []
    case NumericLiteral(_) => []
    case BooleanLiteral(_) => []
    case ThisExpression => []
    case Binary(_, l, r) => [l, r]
    case Logical(_, l, r) => [l, r]
    case Assignment(_, t, s) => [t, s]
    case Call(c, args) => [c] + args
    case New(c, args) => [c] + args
    case Member(o, p) => [o, p]
    case Sequence(es) => es
    case ObjectExpr(ps) => ps
    case ObjectProperty(k, v) => [k, v]
    case ObjectMethod(_, k, ps, b) => [k] + ps + [b]
    case Spread(a) => [a]
    case ArrayExpr(es) => es
    case Arrow(ps, b) => ps + [b]
    case Conditional(t, c, a) => [t, c, a]
    case Block(ss) => ss
    case ExpressionStatement(e) => [e]
    case Return(r) => Opt(r)
    case Throw(a) => [a]
    case ClassDeclaration(_, ms) => ms
    case ClassExpression(ms) => ms
    case ClassMethod(_, k, _, ps, b) => [k] + ps + [b]
    case ClassProperty(k, v, _) => [k] + Opt(v)
    case VariableDeclarator(b, i) => [b] + Opt(i)
    case Other(_, cs) => cs
  }

  /** The node with its children replaced, position by position. */
  function WithChildren(n: Node, cs: seq<Node>): Node
    requires |cs| == |Children(n)|
  {
    match n
    case Identifier(_) => n
    case StringLiteral(_) => n
    case NumericLiteral(_) => n
    case BooleanLiteral(_) => n
    case ThisExpression => n
    case Binary(op, _, _) => Binary(op, cs[0], cs[1])
    case Logical(op, _, _) => Logical(op, cs[0], cs[1])
    case Assignment(op, _, _) => Assignment(op, cs[0], cs[1])
    case Call(_, _) => Call(cs[0], cs[1..])
    case New(_, _) => New(cs[0], cs[1..])
    case Member(_, _) => Member(cs[0], cs[1])
    case Sequence(_) => Sequence(cs)
    case ObjectExpr(_) => ObjectExpr(cs)
    case ObjectProperty(_, _) => ObjectProperty(cs[0], cs[1])
    case ObjectMethod(kind, _, _, _) => ObjectMethod(kind, cs[0], cs[1..|cs| - 1], cs[|cs| - 1])
    case Spread(_) => Spread(cs[0])
    case ArrayExpr(_) => ArrayExpr(cs)
    case Arrow(_, _) => Arrow(cs[..|cs| - 1], cs[|cs| - 1])
    case Conditional(_, _, _) => Conditional(cs[0], cs[1], cs[2])
    case Block(_) => Block(cs)
    case ExpressionStatement(_) => ExpressionStatement(cs[0])
    case Return(_) => Return(if cs == [] then None else Some(cs[0]))
    case Throw(_) => Throw(cs[0])
    case ClassDeclaration(name, _) => ClassDeclaration(name, cs)
    case ClassExpression(_) => ClassExpression(cs)
    case ClassMethod(kind, _, isStatic, _, _) => ClassMethod(kind, cs[0], isStatic, cs[1..|cs| - 1], cs[|cs| - 1])
    case ClassProperty(_, _, isStatic) => ClassProperty(cs[0], if |cs| == 1 then None else Some(cs[1]), isStatic)
    case VariableDeclarator(_, _) => VariableDeclarator(cs[0], if |cs| == 1 then None else Some(cs[1]))
    case Other(kind, _) => Other(kind, cs)
  }

  lemma {:induction false} SizeSeqAppend(a: seq<Node>, b: seq<Node>)
    ensures SizeSeq(a + b) == SizeSeq(a) + SizeSeq(b)
  {
    if a == [] {
      assert a + b == b;
    } else {
      assert (a + b)[1..] == a[1..] + b;
      SizeSeqAppend(a[1..], b);
    }
  }

  lemma SizeSeqSingle(n: Node)
    ensures SizeSeq([n]) == Size(n)
  {
    assert [n][1..] == [];
  }

  lemma SizeSeqElements(s: seq<Node>)
    ensures forall i :: 0 <= i < |s| ==> Size(s[i]) <= SizeSeq(s)
  {
    forall i | 0 <= i < |s| ensures Size(s[i]) <= SizeSeq(s) {
      SizeSeqElement(s, i);
    }
  }

  lemma SizeSeqPair(a: Node, b: Node)
    ensures SizeSeq([a, b]) == Size(a) + Size(b)
  {
    assert [a, b][1..] == [b];
    SizeSeqSingle(b);
  }

  lemma SizeSeqCons(k: Node, ps: seq<Node>)
    ensures SizeSeq([k] + ps) == Size(k) + SizeSeq(ps)
  {
    assert ([k] + ps)[1..] == ps;
  }

  lemma SizeSeqSnoc(ps: seq<Node>, b: Node)
    ensures SizeSeq(ps + [b]) == SizeSeq(ps) + Size(b)
  {
    SizeSeqAppend(ps, [b]);
    SizeSeqSingle(b);
  }

  lemma SizeSeqFramed(k: Node, ps: seq<Node>, b: Node)
    ensures SizeSeq([k] + ps + [b]) == Size(k) + SizeSeq(ps) + Size(b)
  {
    SizeSeqSnoc([k] + ps, b);
    SizeSeqCons(k, ps);
  }

  lemma SizeSeqOptCons(k: Node, o: Option<Node>)
    ensures SizeSeq([k] + Opt(o)) == Size(k) + SizeOpt(o)
  {
    SizeSeqCons(k, Opt(o));
    if o.Some? {
      SizeSeqSingle(o.value);
    }
  }

  lemma PairChildrenSize(n: Node)
    requires n.Binary? || n.Logical? || n.Assignment? || n.Member? || n.ObjectProperty?
    ensures SizeSeq(Children(n)) == Size(n) - 1
  {
    match n {
      case Binary(_, l, r) => SizeSeqPair(l, r);
      case Logical(_, l, r) => SizeSeqPair(l, r);
      case Assignment(_, t, s) => SizeSeqPair(t, s);
      case Member(o, p) => SizeSeqPair(o, p);
      case ObjectProperty(k, v) => SizeSeqPair(k, v);
    }
  }

  lemma ListChildrenSize(n: Node)
    requires n.Call? || n.New? || n.Arrow?
    ensures SizeSeq(Children(n)) == Size(n) - 1
  {
    match n {
      case Call(c, args) => SizeSeqCons(c, args);
      case New(c, args) => SizeSeqCons(c, args);
      case Arrow(ps, b) => SizeSeqSnoc(ps, b);
    }
  }

  lemma ObjectMethodChildrenSize(kind: string, k: Node, ps: seq<Node>, b: Node)
    ensures SizeSeq(Children(ObjectMethod(kind, k, ps, b))) == Size(ObjectMethod(kind, k, ps, b)) - 1
  {
    SizeSeqFramed(k, ps, b);
  }

  lemma ClassMethodChildrenSize(kind: string, k: Node, isStatic: bool, ps: seq<Node>, b: Node)
    ensures SizeSeq(Children(ClassMethod(kind, k, isStatic, ps, b))) == Size(ClassMethod(kind, k, isStatic, ps, b)) - 1
  {
    SizeSeqFramed(k, ps, b);
  }

  lemma ConditionalChildrenSize(t: Node, c: Node, a: Node)
    ensures SizeSeq(Children(Conditional(t, c, a))) == Size(Conditional(t, c, a)) - 1
  {
    SizeSeqPair(c, a);
    SizeSeqCons(t, [c, a]);
    assert [t] + [c, a] == [t, c, a];
  }

  lemma SingleChildSize(n: Node)
    requires n.Spread? || n.ExpressionStatement? || n.Throw?
    ensures SizeSeq(Children(n)) == Size(n) - 1
  {
    match n {
      case Spread(a) => SizeSeqSingle(a);
      case ExpressionStatement(e) => SizeSeqSingle(e);
      case Throw(a) => SizeSeqSingle(a);
    }
  }

  lemma ReturnChildrenSize(r: Option<Node>)
    ensures SizeSeq(Children(Return(r))) == Size(Return(r)) - 1
  {
    if r.Some? {
      SizeSeqSingle(r.value);
    }
  }

  lemma ClassPropertyChildrenSize(k: Node, v: Option<Node>, isStatic: bool)
    ensures SizeSeq(Children(ClassProperty(k, v, isStatic))) == Size(ClassProperty(k, v, isStatic)) - 1
  {
    SizeSeqOptCons(k, v);
  }

  lemma DeclaratorChildrenSize(b: Node, i: Option<Node>)
    ensures SizeSeq(Children(VariableDeclarator(b, i))) == Size(VariableDeclarator(b, i)) - 1
  {
    SizeSeqOptCons(b, i);
  }

  /** The children together make up the whole node but its root. */
  lemma ChildrenSize(n: Node)
    ensures SizeSeq(Children(n)) == Size(n) - 1
  {
    if n.Binary? || n.Logical? || n.Assignment? || n.Member? || n.ObjectProperty? {
      PairChildrenSize(n);
    } else if n.Call? || n.New? || n.Arrow? {
      ListChildrenSize(n);
    } else if n.ObjectMethod? {
      ObjectMethodChildrenSize(n.kind, n.key, n.params, n.body);
    } else if n.ClassMethod? {
      ClassMethodChildrenSize(n.kind, n.key, n.isStatic, n.params, n.body);
    } else if n.Conditional? {
      ConditionalChildrenSize(n.test, n.consequent, n.alternate);
    } else if n.Spread? || n.ExpressionStatement? || n.Throw? {
      SingleChildSize(n);
    } else if n.Return? {
      ReturnChildrenSize(n.result);
    } else if n.ClassProperty? {
      ClassPropertyChildrenSize(n.key, n.initializer, n.isStatic);
    } else if n.VariableDeclarator? {
      DeclaratorChildrenSize(n.binding, n.init);
    }
  }

  /** The children together are smaller than the node. */
  lemma ChildrenSmaller(n: Node)
    ensures SizeSeq(Children(n)) < Size(n)
    ensures forall i :: 0 <= i < |Children(n)| ==> Size(Children(n)[i]) < Size(n)
  {
    ChildrenSize(n);
    SizeSeqElements(Children(n));
  }

  /** Putting back a node's own children gives the node. */
  lemma Rebuild(n: Node)
    ensures WithChildren(n, Children(n)) == n
  {
    if n.Call? || n.New? {
      RebuildHeadList(n);
    } else if n.ObjectMethod? || n.ClassMethod? || n.Arrow? {
      RebuildFramed(n);
    } else if n.Sequence? || n.ObjectExpr? || n.ArrayExpr? || n.Block? || n.ClassDeclaration?
           || n.ClassExpression? || n.Other? || n.Return? || n.ClassProperty? || n.VariableDeclarator? {
      RebuildList(n);
    } else {
      RebuildFixed(n);
    }
  }

  lemma RebuildHeadList(n: Node)
    requires n.Call? || n.New?
    ensures WithChildren(n, Children(n)) == n
  {
    match n
    case Call(c, args) => assert ([c] + args)[1..] == args;
    case New(c, args) => assert ([c] + args)[1..] == args;
  }

  lemma RebuildFramed(n: Node)
    requires n.ObjectMethod? || n.ClassMethod? || n.Arrow?
    ensures WithChildren(n, Children(n)) == n
  {
    match n
    case ObjectMethod(_, k, ps, b) =>
      var cs := [k] + ps + [b];
      assert cs[1..|cs| - 1] == ps;
    case Arrow(ps, b) =>
      var cs := ps + [b];
      assert cs[..|cs| - 1] == ps;
    case ClassMethod(_, k, _, ps, b) =>
      var cs := [k] + ps + [b];
      assert cs[1..|cs| - 1] == ps;
  }

  lemma RebuildList(n: Node)
    requires n.Sequence? || n.ObjectExpr? || n.ArrayExpr? || n.Block? || n.ClassDeclaration?
          || n.ClassExpression? || n.Other? || n.Return? || n.ClassProperty? || n.VariableDeclarator?
    ensures WithChildren(n, Children(n)) == n
  {
  }

  lemma RebuildFixed(n: Node)
    requires !(n.Call? || n.New? || n.ObjectMethod? || n.ClassMethod? || n.Arrow?)
    requires !(n.Sequence? || n.ObjectExpr? || n.ArrayExpr? || n.Block? || n.ClassDeclaration?
          || n.ClassExpression? || n.Other? || n.Return? || n.ClassProperty? || n.VariableDeclarator?)
    ensures WithChildren(n, Children(n)) == n
  {
  }

  /** A class member that is a property declaration `p = { get ..., set ... }`. */
  predicate IsDeclaration(m: Node)
  {
    m.ClassProperty? && m.initializer.Some? && Accessors.IsPropertyDeclaration(m.initializer.value)
  }

  /** The `ClassMethod` handler's registration: a static method whose name starts
      with `$operator_` is registered under the nearest enclosing class
      declaration, and nothing happens when there is none.  (A name with that
      prefix is never empty, so the name's truth test adds nothing.) */
  function Registration(m: Node, cls: Option<string>, reg: Registry): Registry
  {
    if m.ClassMethod? && m.isStatic && m.key.Identifier? && Text.StartsWith(m.key.name, "$operator_") && cls.Some?
    then Overload.Registered(reg, cls.value, m.key.name)
    else reg
  }

  /** `after` keeps every class and every operator key that `before` has; the
      method registered for a key may have been replaced. */
  predicate Extends(before: Registry, after: Registry)
  {
    forall c :: c in before ==> c in after && before[c].Keys <= after[c].Keys
  }

  lemma ExtendsTransitive(a: Registry, b: Registry, c: Registry)
    requires Extends(a, b) && Extends(b, c)
    ensures Extends(a, c)
  {
  }

  /** A registration keeps what was registered before. */
  lemma RegistrationExtends(m: Node, cls: Option<string>, reg: Registry)
    ensures Extends(reg, Registration(m, cls, reg))
  {
  }

  /** All the operands a query descriptor holds satisfy `p`. */
  predicate AllParts(d: QueryChain.Descriptor, p: Node -> bool)
  {
    && (d.source.Some? ==> p(d.source.value))
    && (forall i :: 0 <= i < |d.filters| ==> p(d.filters[i]))
    && (d.groupKey.Some? ==> p(d.groupKey.value))
    && (d.orderKey.Some? ==> p(d.orderKey.value))
    && (d.projection.Some? ==> p(d.projection.value))
  }

  /** Two descriptors that differ only in their operands. */
  predicate SameShape(d: QueryChain.Descriptor, e: QueryChain.Descriptor)
  {
    && d.binding == e.binding
    && d.source.Some? == e.source.Some?
    && |d.filters| == |e.filters|
    && d.groupKey.Some? == e.groupKey.Some?
    && d.orderKey.Some? == e.orderKey.Some?
    && d.projection.Some? == e.projection.Some?
  }

  /** The pass over one node. */
  function Visit(n: Node, cls: Option<string>, reg: Registry): (r: Pass<Node>)
    decreases Size(n), 5, 0
    ensures r.Ok? ==> Extends(reg, r.value.1)
  {
    if n.Binary? && n.operator == "|>" then
      // `a |> f` is replaced by `f(a)`, which is then visited as a call.
      SizeSeqSingle(n.left);
      VisitCall(n.right, [n.left], cls, reg)
    else if n.Binary? && Overload.IsOverloadableOperator(n.operator)
            && Overload.TryCreateOperatorOverload(n.operator, n.left, n.right, reg).Some? then
      VisitOverload(n, cls, reg)
    else if n.Call? then VisitCall(n.callee, n.arguments, cls, reg)
    else if n.Sequence? && TokenQuery.IsLinqQuery(n) then VisitTokenQuery(n.expressions, cls, reg)
    else if n.ExpressionStatement? && n.expression.Sequence? && TokenQuery.IsLinqQuery(n.expression) then
      // The statement's expression is assigned the chain, which is then visited.
      var chain :- VisitTokenQuery(n.expression.expressions, cls, reg);
      Ok((ExpressionStatement(chain.0), chain.1))
    else if n.VariableDeclarator? && n.init.Some? && ObjectQuery.IsLinqQueryObject(n.init.value) then
      VisitQueryDeclarator(n, cls, reg)
    else if IsDeclaration(n) then
      Err(InvalidNode("a property declaration is replaced by two methods only inside a class body"))
    else VisitChildren(n, cls, reg)
  }

  /** A node no handler rewrites: the registration of a class method, then the
      children; a class declaration becomes the enclosing class of its members. */
  function VisitChildren(n: Node, cls: Option<string>, reg: Registry): (r: Pass<Node>)
    decreases Size(n), 4, 0
    ensures r.Ok? ==> Extends(reg, r.value.1)
  {
    if n.ClassDeclaration? then
      var ms :- VisitMembers(n.members, Some(n.className), reg);
      Ok((ClassDeclaration(n.className, ms.0), ms.1))
    else if n.ClassExpression? then
      var ms :- VisitMembers(n.members, cls, reg);
      Ok((ClassExpression(ms.0), ms.1))
    else
      ChildrenSmaller(n);
      var cs :- VisitSeq(Children(n), cls, Registration(n, cls, reg));
      Ok((WithChildren(n, cs.0), cs.1))
  }

  function VisitSeq(ns: seq<Node>, cls: Option<string>, reg: Registry): (r: Pass<seq<Node>>)
    decreases SizeSeq(ns), 6, 0
    ensures r.Ok? ==> Extends(reg, r.value.1)
    ensures r.Ok? ==> |r.value.0| == |ns|
  {
    if ns == [] then Ok(([], reg))
    else
      var head :- Visit(ns[0], cls, reg);
      var rest :- VisitSeq(ns[1..], cls, head.1);
      Ok(([head.0] + rest.0, rest.1))
  }

  /** A class body: a property declaration is replaced by its getter and setter,
      which the handlers then pass over; every other member is visited. */
  function VisitMembers(ms: seq<Node>, cls: Option<string>, reg: Registry): (r: Pass<seq<Node>>)
    decreases SizeSeq(ms), 6, 0
    ensures r.Ok? ==> Extends(reg, r.value.1)
  {
    if ms == [] then Ok(([], reg))
    else
      var head :- VisitMember(ms[0], cls, reg);
      var rest :- VisitMembers(ms[1..], cls, head.1);
      Ok((head.0 + rest.0, rest.1))
  }

  function VisitMember(m: Node, cls: Option<string>, reg: Registry): (r: Pass<seq<Node>>)
    decreases Size(m), 5, 1
    ensures r.Ok? ==> Extends(reg, r.value.1)
  {
    if IsDeclaration(m) then
      var methods :- Accessors.CreatePropertyMethods(m.key);
      Ok((methods, reg))
    else
      var v :- Visit(m, cls, reg);
      Ok(([v.0], v.1))
  }

  /** `left op right` with an overload: `T.m(left, right)`, whose operands are
      then visited. */
  function VisitOverload(n: Node, cls: Option<string>, reg: Registry): (r: Pass<Node>)
    requires n.Binary? && Overload.TryCreateOperatorOverload(n.operator, n.left, n.right, reg).Some?
    decreases Size(n), 4, 0
    ensures r.Ok? ==> Extends(reg, r.value.1)
  {
    var call := Overload.TryCreateOperatorOverload(n.operator, n.left, n.right, reg).value;
    var left :- Visit(n.left, cls, reg);
    var right :- Visit(n.right, cls, left.1);
    Ok((Call(call.callee, [left.0, right.0]), right.1))
  }

  /** The `CallExpression` handler on `callee(args)`: a match call is replaced by
      its lowering, a `withUpdate` call by the merged object, and then the parts
      of the original that the replacement holds are visited. */
  function VisitCall(callee: Node, args: seq<Node>, cls: Option<string>, reg: Registry): (r: Pass<Node>)
    decreases 1 + Size(callee) + SizeSeq(args), 4, 0
    ensures r.Ok? ==> Extends(reg, r.value.1)
  {
    if MatchExpr.IsMatchCall(Call(callee, args)) then
      SizeSeqElement(args, 0);
      assert Size(callee) == 1 + Size(callee.receiver) + Size(callee.property);
      assert Size(args[0]) == 1 + SizeSeq(args[0].properties);
      VisitMatch(callee.receiver, args[0].properties, cls, reg)
    else if WithUpdate.IsWithUpdateCall(Call(callee, args)) then
      assert args == [args[0], args[1]];
      SizeSeqPair(args[0], args[1]);
      VisitWithUpdate(args[0], args[1], cls, reg)
    else
      var c :- Visit(callee, cls, reg);
      var a :- VisitSeq(args, cls, c.1);
      ExtendsTransitive(reg, c.1, a.1);
      Ok((Call(c.0, a.0), a.1))
  }

  /** `subject.match({ clauses })`: replaced by its lowering, whose arms are
      visited, then the subject. */
  function VisitMatch(subject: Node, clauses: seq<Node>, cls: Option<string>, reg: Registry): (r: Pass<Node>)
    decreases 1 + Size(subject) + SizeSeq(clauses), 4, 0
    ensures r.Ok? ==> Extends(reg, r.value.1)
  {
    var lowered :- MatchExpr.MatchLowering(subject, clauses);
    SizeSeqElements(clauses);
    var arms :- VisitArms(clauses, 1 + Size(subject) + SizeSeq(clauses), cls, reg);
    var visited :- Visit(subject, cls, arms.1);
    ExtendsTransitive(reg, arms.1, visited.1);
    Ok((Call(Arrow([MatchExpr.MatchValue], arms.0), [visited.0]), visited.1))
  }

  /** `withUpdate(base, patch)`: replaced by the merged object, whose base and
      kept entries are visited. */
  function VisitWithUpdate(base: Node, patch: Node, cls: Option<string>, reg: Registry): (r: Pass<Node>)
    decreases Size(base) + Size(patch), 4, 0
    ensures r.Ok? ==> Extends(reg, r.value.1)
  {
    var lowered :- WithUpdate.WithUpdateLowering(base, patch);
    var b :- Visit(base, cls, reg);
    if patch.ObjectExpr? then
      MergeEntriesSmaller(patch.properties);
      assert Size(patch) == 1 + SizeSeq(patch.properties);
      var kept :- VisitSeq(WithUpdate.MergeEntries(patch.properties), cls, b.1);
      ExtendsTransitive(reg, b.1, kept.1);
      Ok((ObjectExpr([Spread(b.0)] + kept.0), kept.1))
    else
      var p :- Visit(patch, cls, b.1);
      ExtendsTransitive(reg, b.1, p.1);
      Ok((ObjectExpr([Spread(b.0), Spread(p.0)]), p.1))
  }

  /** The conditional spine of a match, visited arm by arm: each condition, then
      its value, then the later arms. */
  function VisitArms(clauses: seq<Node>, bound: nat, cls: Option<string>, reg: Registry): (r: Pass<Node>)
    requires MatchExpr.MatchChain(MatchExpr.MatchValue, clauses).Ok?
    requires forall i :: 0 <= i < |clauses| ==> Size(clauses[i]) < bound
    decreases bound, 3, |clauses|
    ensures r.Ok? ==> Extends(reg, r.value.1)
  {
    if clauses == [] then Ok((MatchExpr.NoMatchThrow, reg))
    else
      ChainStep(clauses);
      var clause := clauses[0];
      assert Size(clause) == 1 + Size(clause.key) + Size(clause.value);
      var cond :- VisitCondition(clause.key, bound, cls, reg);
      var value :- Visit(clause.value, cls, cond.1);
      var rest :- VisitArms(clauses[1..], bound, cls, value.1);
      Ok((Conditional(cond.0, value.0, rest.0), rest.1))
  }

  /** The condition of one arm: the parts of the key it holds are visited; the
      wildcard and range conditions hold none. */
  function VisitCondition(key: Node, bound: nat, cls: Option<string>, reg: Registry): (r: Pass<Node>)
    requires MatchExpr.PatternCondition(MatchExpr.MatchValue, key).Ok?
    requires Size(key) < bound
    decreases bound, 2, 0
    ensures r.Ok? ==> Extends(reg, r.value.1)
  {
    if key == Identifier("_") then Ok((BooleanLiteral(true), reg))
    else if key.StringLiteral? && MatchExpr.RangeBounds(key.text).Some? then
      Ok((MatchExpr.PatternCondition(MatchExpr.MatchValue, key).value, reg))
    else if key.ObjectExpr? then
      SizeSeqElements(key.properties);
      var tests :- VisitFieldTests(key.properties, bound, cls, reg);
      Ok((MatchExpr.Conjoin(tests.0), tests.1))
    else
      var k :- Visit(key, cls, reg);
      Ok((Binary("===", MatchExpr.MatchValue, k.0), k.1))
  }

  function VisitFieldTests(entries: seq<Node>, bound: nat, cls: Option<string>, reg: Registry): (r: Pass<seq<Node>>)
    requires MatchExpr.FieldTests(MatchExpr.MatchValue, entries).Ok?
    requires forall i :: 0 <= i < |entries| ==> Size(entries[i]) < bound
    decreases bound, 1, |entries|
    ensures r.Ok? ==> Extends(reg, r.value.1)
    ensures r.Ok? ==> |r.value.0| == |entries|
  {
    if entries == [] then Ok(([], reg))
    else
      FieldTestsStep(entries);
      assert Size(entries[0]) == 1 + Size(entries[0].key) + Size(entries[0].value);
      var k :- Visit(entries[0].key, cls, reg);
      var v :- Visit(entries[0].value, cls, k.1);
      var rest :- VisitFieldTests(entries[1..], bound, cls, v.1);
      Ok(([Binary("===", Member(MatchExpr.MatchValue, k.0), v.0)] + rest.0, rest.1))
  }

  /** A token query: the chain replaces the sequence, and its operands are visited
      in chain order. */
  function VisitTokenQuery(ts: seq<Node>, cls: Option<string>, reg: Registry): (r: Pass<Node>)
    decreases Size(Sequence(ts)), 3, 0
    ensures r.Ok? ==> Extends(reg, r.value.1)
  {
    var d := TokenQuery.ScanTokens(ts);
    var lowered :- TokenQuery.TokenChain(d);
    SizeSeqElements(ts);
    TokenParts(ts, x => Size(x) < Size(Sequence(ts)));
    var parts :- VisitDescriptor(d, Size(Sequence(ts)), cls, reg);
    Ok((TokenQuery.TokenChain(parts.0).value, parts.1))
  }

  /** A declarator initialised with a query object: `init` is assigned the chain,
      and the walk then visits the binding and the chain's operands. */
  function VisitQueryDeclarator(n: Node, cls: Option<string>, reg: Registry): (r: Pass<Node>)
    requires n.VariableDeclarator? && n.init.Some? && ObjectQuery.IsLinqQueryObject(n.init.value)
    decreases Size(n), 4, 0
    ensures r.Ok? ==> Extends(reg, r.value.1)
  {
    var entries := n.init.value.properties;
    var d :- ObjectQuery.ScanEntries(QueryChain.NoClauses, entries);
    var lowered :- ObjectQuery.ObjectChain(d);
    QueryPartsSmaller(n.binding, entries);
    var binding :- Visit(n.binding, cls, reg);
    var parts :- VisitDescriptor(d, Size(n), cls, binding.1);
    ShapeKeepsChain(d, parts.0);
    Ok((VariableDeclarator(binding.0, Some(ObjectQuery.ObjectChain(parts.0).value)), parts.1))
  }

  /** Visiting the operands keeps the chain buildable. */
  lemma ShapeKeepsChain(d: QueryChain.Descriptor, e: QueryChain.Descriptor)
    requires SameShape(d, e) && ObjectQuery.ObjectChain(d).Ok?
    ensures ObjectQuery.ObjectChain(e).Ok?
  {
  }

  lemma ChainStep(clauses: seq<Node>)
    requires clauses != [] && MatchExpr.MatchChain(MatchExpr.MatchValue, clauses).Ok?
    ensures clauses[0].ObjectProperty?
    ensures MatchExpr.PatternCondition(MatchExpr.MatchValue, clauses[0].key).Ok?
    ensures MatchExpr.MatchChain(MatchExpr.MatchValue, clauses[1..]).Ok?
  {
  }

  lemma FieldTestsStep(entries: seq<Node>)
    requires entries != [] && MatchExpr.FieldTests(MatchExpr.MatchValue, entries).Ok?
    ensures entries[0].ObjectProperty? && entries[0].key.Identifier?
    ensures MatchExpr.FieldTests(MatchExpr.MatchValue, entries[1..]).Ok?
  {
  }

  /** The operands of a query in chain order: source, conditions, group key,
      order key, projection. */
  function VisitDescriptor(d: QueryChain.Descriptor, bound: nat, cls: Option<string>, reg: Registry): (r: Pass<QueryChain.Descriptor>)
    requires AllParts(d, x => Size(x) < bound)
    decreases bound, 2, 0
    ensures r.Ok? ==> Extends(reg, r.value.1)
    ensures r.Ok? ==> SameShape(d, r.value.0)
  {
    PartsBelow(d, bound);
    var source :- VisitOpt(d.source, bound, cls, reg);
    var filters :- VisitList(d.filters, bound, cls, source.1);
    ExtendsTransitive(reg, source.1, filters.1);
    var groupKey :- VisitOpt(d.groupKey, bound, cls, filters.1);
    ExtendsTransitive(reg, filters.1, groupKey.1);
    var orderKey :- VisitOpt(d.orderKey, bound, cls, groupKey.1);
    ExtendsTransitive(reg, groupKey.1, orderKey.1);
    var projection :- VisitOpt(d.projection, bound, cls, orderKey.1);
    ExtendsTransitive(reg, orderKey.1, projection.1);
    Ok((QueryChain.Descriptor(source.0, d.binding, filters.0, groupKey.0, orderKey.0, projection.0), projection.1))
  }

  /** Every operand of a descriptor is below a bound, spelled out part by part. */
  lemma PartsBelow(d: QueryChain.Descriptor, bound: nat)
    requires AllParts(d, x => Size(x) < bound)
    ensures d.source.Some? ==> Size(d.source.value) < bound
    ensures forall i :: 0 <= i < |d.filters| ==> Size(d.filters[i]) < bound
    ensures d.groupKey.Some? ==> Size(d.groupKey.value) < bound
    ensures d.orderKey.Some? ==> Size(d.orderKey.value) < bound
    ensures d.projection.Some? ==> Size(d.projection.value) < bound
  {
  }

  function VisitOpt(o: Option<Node>, bound: nat, cls: Option<string>, reg: Registry): (r: Pass<Option<Node>>)
    requires o.Some? ==> Size(o.value) < bound
    decreases bound, 1, 0
    ensures r.Ok? ==> Extends(reg, r.value.1)
    ensures r.Ok? ==> r.value.0.Some? == o.Some?
  {
    match o
    case None => Ok((None, reg))
    case Some(n) =>
      var v :- Visit(n, cls, reg);
      Ok((Some(v.0), v.1))
  }

  function VisitList(ns: seq<Node>, bound: nat, cls: Option<string>, reg: Registry): (r: Pass<seq<Node>>)
    requires forall i :: 0 <= i < |ns| ==> Size(ns[i]) < bound
    decreases bound, 1, |ns|
    ensures r.Ok? ==> Extends(reg, r.value.1)
    ensures r.Ok? ==> |r.value.0| == |ns|
  {
    if ns == [] then Ok(([], reg))
    else
      var head :- Visit(ns[0], cls, reg);
      var rest :- VisitList(ns[1..], bound, cls, head.1);
      Ok(([head.0] + rest.0, rest.1))
  }

  /** `transpile` on a parsed program: the pass from an empty registry, outside
      any class. */
  function Transpile(program: Node): Result<Node>
  {
    var r :- Visit(program, None, map[]);
    Ok(r.0)
  }

  // Sizes and operands of the query descriptors.

  lemma {:induction false} MergeEntriesSmaller(entries: seq<Node>)
    ensures SizeSeq(WithUpdate.MergeEntries(entries)) <= SizeSeq(entries)
  {
    if entries != [] {
      var init, last := entries[..|entries| - 1], entries[|entries| - 1];
      assert entries == init + [last];
      MergeEntriesSmaller(init);
      SizeSeqAppend(init, [last]);
      SizeSeqSingle(last);
      var kept := if WithUpdate.IsMergeEntry(last) then [last] else [];
      SizeSeqAppend(WithUpdate.MergeEntries(init), kept);
      if kept != [] {
        SizeSeqSingle(last);
      }
    }
  }

  predicate ClauseParts(c: TokenQuery.TokenClause, p: Node -> bool)
  {
    match c
    case FromClause(b, s) => p(b) && p(s)
    case Keyed(_, e) => p(e)
    case Stray(_) => true
  }

  lemma {:induction false} ParseTokensParts(ts: seq<Node>, p: Node -> bool)
    requires forall i :: 0 <= i < |ts| ==> p(ts[i])
    ensures forall i :: 0 <= i < |TokenQuery.ParseTokens(ts)| ==> ClauseParts(TokenQuery.ParseTokens(ts)[i], p)
    decreases |ts|
  {
    if ts != [] {
      var cs := TokenQuery.ParseTokens(ts);
      var k := if ts[0] == Identifier("from") then (if 3 < |ts| then 4 else 1)
               else if ts[0].Identifier? && TokenQuery.IsOperandKeyword(ts[0].name) && 1 < |ts| then 2
               else 1;
      assert p(ts[0]);
      if k == 4 {
        assert p(ts[1]) && p(ts[3]);
      } else if k == 2 {
        assert p(ts[1]);
      }
      forall i | 0 <= i < |ts[k..]| ensures p(ts[k..][i]) {
        assert ts[k..][i] == ts[k + i];
      }
      ParseTokensParts(ts[k..], p);
      assert cs == [cs[0]] + TokenQuery.ParseTokens(ts[k..]);
      assert cs[1..] == TokenQuery.ParseTokens(ts[k..]);
      assert ClauseParts(cs[0], p);
      forall i | 0 <= i < |cs| ensures ClauseParts(cs[i], p) {
        if i > 0 {
          var rest := TokenQuery.ParseTokens(ts[k..]);
          assert cs[i] == rest[i - 1];
          assert ClauseParts(rest[i - 1], p);
        }
      }
    }
  }

  lemma {:induction false} AbsorbAllParts(d: QueryChain.Descriptor, cs: seq<TokenQuery.TokenClause>, p: Node -> bool)
    requires AllParts(d, p)
    requires forall i :: 0 <= i < |cs| ==> ClauseParts(cs[i], p)
    ensures AllParts(TokenQuery.AbsorbAll(d, cs), p)
    decreases |cs|
  {
    if cs != [] {
      var next := TokenQuery.Absorb(d, cs[0]);
      assert ClauseParts(cs[0], p);
      assert AllParts(next, p);
      AbsorbAllParts(next, cs[1..], p);
    }
  }

  /** Every operand the token scan keeps is one of the tokens. */
  lemma TokenParts(ts: seq<Node>, p: Node -> bool)
    requires forall i :: 0 <= i < |ts| ==> p(ts[i])
    ensures AllParts(TokenQuery.ScanTokens(ts), p)
  {
    ParseTokensParts(ts, p);
    AbsorbAllParts(QueryChain.NoClauses, TokenQuery.ParseTokens(ts), p);
  }

  /** The operands an entry of a query object can contribute. */
  predicate EntryParts(e: Node, p: Node -> bool)
  {
    e.ObjectProperty? ==>
      p(e.value) && (e.value.ArrayExpr? ==> forall j :: 0 <= j < |e.value.elements| ==> p(e.value.elements[j]))
  }

  lemma EntriesSmaller(entries: seq<Node>, bound: nat)
    requires forall i :: 0 <= i < |entries| ==> Size(entries[i]) < bound
    ensures forall i :: 0 <= i < |entries| ==> EntryParts(entries[i], x => Size(x) < bound)
  {
    forall i | 0 <= i < |entries| ensures EntryParts(entries[i], x => Size(x) < bound) {
      var e := entries[i];
      if e.ObjectProperty? && e.value.ArrayExpr? {
        SizeSeqElements(e.value.elements);
      }
    }
  }

  /** The operands the scan of a declarator's query object keeps are smaller
      than the declarator. */
  lemma QueryPartsSmaller(binding: Node, entries: seq<Node>)
    requires ObjectQuery.ScanEntries(QueryChain.NoClauses, entries).Ok?
    ensures AllParts(ObjectQuery.ScanEntries(QueryChain.NoClauses, entries).value,
                     x => Size(x) < Size(VariableDeclarator(binding, Some(ObjectExpr(entries)))))
  {
    var bound := Size(VariableDeclarator(binding, Some(ObjectExpr(entries))));
    assert Size(ObjectExpr(entries)) == 1 + SizeSeq(entries);
    assert SizeOpt(Some(ObjectExpr(entries))) == Size(ObjectExpr(entries));
    assert bound == 1 + Size(binding) + SizeOpt(Some(ObjectExpr(entries)));
    SizeSeqElements(entries);
    EntriesSmaller(entries, bound);
    ObjectParts(QueryChain.NoClauses, entries, x => Size(x) < bound);
  }

  /** Every operand the object scan keeps comes from an entry. */
  lemma {:induction false} ObjectParts(d: QueryChain.Descriptor, entries: seq<Node>, p: Node -> bool)
    requires AllParts(d, p)
    requires forall i :: 0 <= i < |entries| ==> EntryParts(entries[i], p)
    requires ObjectQuery.ScanEntries(d, entries).Ok?
    ensures AllParts(ObjectQuery.ScanEntries(d, entries).value, p)
    decreases |entries|
  {
    if entries != [] {
      var next := ObjectQuery.AbsorbEntry(d, entries[0]).value;
      assert EntryParts(entries[0], p);
      assert AllParts(next, p);
      ObjectParts(next, entries[1..], p);
    }
  }

  // Trees the pass leaves alone.

  /** No handler rewrites the node itself, whatever the registry holds. */
  predicate Sugarless(n: Node)
  {
    && !(n.Binary? && n.operator == "|>")
    && !(n.Binary? && Overload.IsOverloadableOperator(n.operator)
         && (Overload.InferExpressionType(n.left).Some? || Overload.InferExpressionType(n.right).Some?))
    && !MatchExpr.IsMatchCall(n)
    && !WithUpdate.IsWithUpdateCall(n)
    && !(n.Sequence? && TokenQuery.IsLinqQuery(n))
    && !(n.VariableDeclarator? && n.init.Some? && ObjectQuery.IsLinqQueryObject(n.init.value))
    && !IsDeclaration(n)
  }

  /** A tree none of whose nodes is rewritten: plain JavaScript. */
  predicate Plain(n: Node)
    decreases Size(n)
  {
    Sugarless(n) && (ChildrenSmaller(n); forall i :: 0 <= i < |Children(n)| ==> Plain(Children(n)[i]))
  }

  /** A list of plain trees. */
  predicate AllPlain(ns: seq<Node>)
  {
    forall i :: 0 <= i < |ns| ==> Plain(ns[i])
  }

  /** The pass leaves a tree without any of the language's extensions as it is;
      only the registry may change, through operator methods it declares. */
  lemma {:induction false} PlainUnchanged(n: Node, cls: Option<string>, reg: Registry)
    requires Plain(n)
    ensures Visit(n, cls, reg).Ok? && Visit(n, cls, reg).value.0 == n
    decreases Size(n), 1
  {
    ChildrenSmaller(n);
    assert AllPlain(Children(n));
    if n.Call? {
      SugarlessCallVisit(n, cls, reg);
      assert Children(n) == [n.callee] + n.arguments;
      assert Plain(n.callee) by { assert Children(n)[0] == n.callee; }
      assert AllPlain(n.arguments) by {
        forall i | 0 <= i < |n.arguments| ensures Plain(n.arguments[i]) {
          assert Children(n)[i + 1] == n.arguments[i];
        }
      }
      SizeSeqElements(n.arguments);
      PlainUnchanged(n.callee, cls, reg);
      var c := Visit(n.callee, cls, reg).value;
      PlainSeqUnchanged(n.arguments, cls, c.1);
    } else {
      SugarlessVisit(n, cls, reg);
      PlainChildrenUnchanged(n, cls, reg);
    }
  }

  /** Outside a class, the walk into the children rebuilds the node from the
      visited children. */
  lemma VisitChildrenOk(n: Node, cls: Option<string>, reg: Registry, cs: seq<Node>, after: Registry)
    requires !n.ClassDeclaration? && !n.ClassExpression?
    requires VisitSeq(Children(n), cls, Registration(n, cls, reg)) == Ok((cs, after))
    ensures VisitChildren(n, cls, reg) == Ok((WithChildren(n, cs), after))
  {
  }

  /** On a node no handler rewrites, the visit is the walk into the children. */
  lemma SugarlessVisit(n: Node, cls: Option<string>, reg: Registry)
    requires Sugarless(n) && !n.Call?
    requires n.ExpressionStatement? ==> !(n.expression.Sequence? && TokenQuery.IsLinqQuery(n.expression))
    ensures Visit(n, cls, reg) == VisitChildren(n, cls, reg)
  {
    if n.Binary? && Overload.IsOverloadableOperator(n.operator) {
      assert Overload.TryCreateOperatorOverload(n.operator, n.left, n.right, reg).None?;
    }
  }

  /** On a call that is no match and no update, the visit is the call handler's
      walk into callee and arguments. */
  lemma SugarlessCallVisit(n: Node, cls: Option<string>, reg: Registry)
    requires Sugarless(n) && n.Call?
    ensures Visit(n, cls, reg) == VisitCall(n.callee, n.arguments, cls, reg)
  {
  }

  lemma {:induction false} PlainChildrenUnchanged(n: Node, cls: Option<string>, reg: Registry)
    requires AllPlain(Children(n)) && !n.Call?
    ensures VisitChildren(n, cls, reg).Ok? && VisitChildren(n, cls, reg).value.0 == n
    decreases Size(n), 0
  {
    ChildrenSmaller(n);
    if n.ClassDeclaration? {
      PlainMembersUnchanged(n.members, Some(n.className), reg);
    } else if n.ClassExpression? {
      PlainMembersUnchanged(n.members, cls, reg);
    } else {
      PlainSeqUnchanged(Children(n), cls, Registration(n, cls, reg));
      Rebuild(n);
    }
  }

  lemma {:induction false} PlainSeqUnchanged(ns: seq<Node>, cls: Option<string>, reg: Registry)
    requires AllPlain(ns)
    ensures VisitSeq(ns, cls, reg).Ok? && VisitSeq(ns, cls, reg).value.0 == ns
    decreases SizeSeq(ns), 2
  {
    if ns != [] {
      SizeSeqElement(ns, 0);
      PlainUnchanged(ns[0], cls, reg);
      var head := Visit(ns[0], cls, reg).value;
      assert AllPlain(ns[1..]) by {
        forall i | 0 <= i < |ns[1..]| ensures Plain(ns[1..][i]) {
          assert ns[1..][i] == ns[i + 1];
        }
      }
      PlainSeqUnchanged(ns[1..], cls, head.1);
      assert [ns[0]] + ns[1..] == ns;
    }
  }

  lemma {:induction false} PlainMembersUnchanged(ms: seq<Node>, cls: Option<string>, reg: Registry)
    requires AllPlain(ms)
    ensures VisitMembers(ms, cls, reg).Ok? && VisitMembers(ms, cls, reg).value.0 == ms
    decreases SizeSeq(ms), 2
  {
    if ms != [] {
      SizeSeqElement(ms, 0);
      assert Plain(ms[0]);
      PlainUnchanged(ms[0], cls, reg);
      var head := VisitMember(ms[0], cls, reg).value;
      assert AllPlain(ms[1..]) by {
        forall i | 0 <= i < |ms[1..]| ensures Plain(ms[1..][i]) {
          assert ms[1..][i] == ms[i + 1];
        }
      }
      PlainMembersUnchanged(ms[1..], cls, head.1);
      assert [ms[0]] + ms[1..] == ms;
    }
  }

  /** A node no handler rewrites, over plain children, is plain. */
  lemma PlainIntro(n: Node)
    requires Sugarless(n) && AllPlain(Children(n))
    ensures Plain(n)
  {
    ChildrenSmaller(n);
  }

  /** A childless node no handler rewrites is visited to itself, and the
      registry stays as it was. */
  lemma LeafUnchanged(n: Node, cls: Option<string>, reg: Registry)
    requires Children(n) == [] && Sugarless(n)
    ensures Visit(n, cls, reg) == Ok((n, reg))
  {
    assert !n.Call?;
    SugarlessVisit(n, cls, reg);
    Rebuild(n);
  }

  /** The walk over a one-element list is the visit of the element. */
  lemma VisitSeqSingle(n: Node, cls: Option<string>, reg: Registry)
    requires Visit(n, cls, reg).Ok?
    ensures VisitSeq([n], cls, reg).Ok?
    ensures VisitSeq([n], cls, reg).value.0 == [Visit(n, cls, reg).value.0]
    ensures VisitSeq([n], cls, reg).value.1 == Visit(n, cls, reg).value.1
  {
    assert [n][1..] == [];
  }

  lemma VisitSeqSingleFails(n: Node, cls: Option<string>, reg: Registry)
    requires Visit(n, cls, reg).Err?
    ensures VisitSeq([n], cls, reg) == Err(Visit(n, cls, reg).error)
  {
  }

  /** A class body of one member is the visit of that member. */
  lemma VisitMembersSingle(m: Node, cls: Option<string>, reg: Registry)
    requires VisitMember(m, cls, reg).Ok?
    ensures VisitMembers([m], cls, reg).Ok?
    ensures VisitMembers([m], cls, reg).value.0 == VisitMember(m, cls, reg).value.0
    ensures VisitMembers([m], cls, reg).value.1 == VisitMember(m, cls, reg).value.1
  {
    assert [m][1..] == [];
    assert VisitMember(m, cls, reg).value.0 + [] == VisitMember(m, cls, reg).value.0;
  }

  lemma VisitMembersSingleFails(m: Node, cls: Option<string>, reg: Registry)
    requires VisitMember(m, cls, reg).Err?
    ensures VisitMembers([m], cls, reg) == Err(VisitMember(m, cls, reg).error)
  {
  }

  /** The walk over a list is the visit of its head, then the walk over the rest. */
  lemma VisitSeqCons(n: Node, ns: seq<Node>, cls: Option<string>, reg: Registry)
    requires Visit(n, cls, reg).Ok?
    requires VisitSeq(ns, cls, Visit(n, cls, reg).value.1).Ok?
    ensures VisitSeq([n] + ns, cls, reg).Ok?
    ensures VisitSeq([n] + ns, cls, reg).value.0 == [Visit(n, cls, reg).value.0] + VisitSeq(ns, cls, Visit(n, cls, reg).value.1).value.0
    ensures VisitSeq([n] + ns, cls, reg).value.1 == VisitSeq(ns, cls, Visit(n, cls, reg).value.1).value.1
  {
    assert ([n] + ns)[0] == n;
    assert ([n] + ns)[1..] == ns;
  }
}
