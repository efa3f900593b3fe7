/** The syntax tree the transform works on, and the failure values it can produce.

    The tree stands for the Babel AST of a parsed module.  Only the node types that a
    rewriter inspects or builds get their own constructor; every other node type is
    `Other(kind, children)`.  Member expressions and object keys are taken to be
    non-computed (`o.p`, `{ p: v }`). */
module Syntax {

  datatype Option<+T> = None | Some(value: T)

  /** Why the transform aborted.  `TypeError` is a JavaScript error raised by the
      transform's own code (reading a property of `undefined`, reducing an empty
      array); `InvalidNode` is a Babel node builder refusing a missing child or a
      child of the wrong kind. */
  datatype Error =
    | TypeError(reason: string)
    | InvalidNode(reason: string)

  datatype Result<+T> = Ok(value: T) | Err(error: Error) {
    predicate IsFailure() { Err? }

    function PropagateFailure<U>(): Result<U>
      requires Err?
    {
      Err(error)
    }

    function Extract(): T
      requires Ok?
    {
      value
    }
  }

  datatype Node =
    | Identifier(name: string)
    | StringLiteral(text: string)
    | NumericLiteral(number: int)
    | BooleanLiteral(truth: bool)
    | ThisExpression
    | Binary(operator: string, left: Node, right: Node)
    | Logical(operator: string, left: Node, right: Node)
    | Assignment(operator: string, target: Node, source: Node)
    | Call(callee: Node, arguments: seq<Node>)
    | New(callee: Node, arguments: seq<Node>)
    | Member(receiver: Node, property: Node)
    | Sequence(expressions: seq<Node>)
    | ObjectExpr(properties: seq<Node>)
    | ObjectProperty(key: Node, value: Node)
    | ObjectMethod(kind: string, key: Node, params: seq<Node>, body: Node)
    | Spread(argument: Node)
    | ArrayExpr(elements: seq<Node>)
    | Arrow(params: seq<Node>, body: Node)
    | Conditional(test: Node, consequent: Node, alternate: Node)
    | Block(statements: seq<Node>)
    | ExpressionStatement(expression: Node)
    | Return(result: Option<Node>)
    | Throw(argument: Node)
    | ClassDeclaration(className: string, members: seq<Node>)
    | ClassExpression(members: seq<Node>)
    | ClassMethod(kind: string, key: Node, isStatic: bool, params: seq<Node>, body: Node)
    | ClassProperty(key: Node, initializer: Option<Node>, isStatic: bool)
    | VariableDeclarator(binding: Node, init: Option<Node>)
    | Other(kind: string, children: seq<Node>)

  /** The number of nodes of a tree; the traversal's termination measure. */
  function Size(n: Node): (s: nat)
    ensures s >= 1
  {
    match n
    case Identifier(_) => 1
    case StringLiteral(_) => 1
    case NumericLiteral(_) => 1
    case BooleanLiteral(_) => 1
    case ThisExpression => 1
    case Binary(_, l, r) => 1 + Size(l) + Size(r)
    case Logical(_, l, r) => 1 + Size(l) + Size(r)
    case Assignment(_, t, s) => 1 + Size(t) + Size(s)
    case Call(c, args) => 1 + Size(c) + SizeSeq(args)
    case New(c, args) => 1 + Size(c) + SizeSeq(args)
    case Member(o, p) => 1 + Size(o) + Size(p)
    case Sequence(es) => 1 + SizeSeq(es)
    case ObjectExpr(ps) => 1 + SizeSeq(ps)
    case ObjectProperty(k, v) => 1 + Size(k) + Size(v)
    case ObjectMethod(_, k, ps, b) => 1 + Size(k) + SizeSeq(ps) + Size(b)
    case Spread(a) => 1 + Size(a)
    case ArrayExpr(es) => 1 + SizeSeq(es)
    case Arrow(ps, b) => 1 + SizeSeq(ps) + Size(b)
    case Conditional(t, c, a) => 1 + Size(t) + Size(c) + Size(a)
    case Block(ss) => 1 + SizeSeq(ss)
    case ExpressionStatement(e) => 1 + Size(e)
    case Return(r) => 1 + SizeOpt(r)
    case Throw(a) => 1 + Size(a)
    case ClassDeclaration(_, ms) => 1 + SizeSeq(ms)
    case ClassExpression(ms) => 1 + SizeSeq(ms)
    case ClassMethod(_, k, _, ps, b) => 1 + Size(k) + SizeSeq(ps) + Size(b)
    case ClassProperty(k, v, _) => 1 + Size(k) + SizeOpt(v)
    case VariableDeclarator(b, i) => 1 + Size(b) + SizeOpt(i)
    case Other(_, cs) => 1 + SizeSeq(cs)
  }

  function SizeSeq(s: seq<Node>): nat
  {
    if s == [] then 0 else Size(s[0]) + SizeSeq(s[1..])
  }

  function SizeOpt(o: Option<Node>): nat
  {
    match o
    case None => 0
    case Some(n) => Size(n)
  }

  /** Every element of a sequence is at most as large as the whole sequence. */
  lemma {:induction false} SizeSeqElement(s: seq<Node>, i: nat)
    requires i < |s|
    ensures Size(s[i]) <= SizeSeq(s)
  {
    if i > 0 {
      SizeSeqElement(s[1..], i - 1);
    }
  }

  /** The name carried by an object or class key, as `key.name` reads it: only an
      identifier has one. */
  function KeyName(key: Node): (r: Option<string>)
    ensures r.Some? <==> key.Identifier?
    ensures r.Some? ==> r.value == key.name
  {
    if key.Identifier? then Some(key.name) else None
  }

  /** `prop.key && prop.key.name === name`: the entry has a key and that key is the
      identifier `name`.  Spread elements have no key. */
  predicate HasKeyNamed(prop: Node, name: string)
  {
    (prop.ObjectProperty? || prop.ObjectMethod? || prop.ClassMethod? || prop.ClassProperty?)
    && prop.key == Identifier(name)
  }

  /** `expr.type === 'Identifier' && expr.name === name` */
  predicate IsIdentifierNamed(n: Node, name: string)
  {
    n == Identifier(name)
  }
}
