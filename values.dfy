/** A small evaluator for the JavaScript fragment that the lowerings emit, used to
    state what lowered code computes.  It covers identifiers, literals, the strict
    equality `===`, the numeric comparisons `>=` and `<=`, `&&` on booleans,
    property reads and object literals with spreads.  Anything outside that
    fragment evaluates to `None`: the evaluator makes no claim about it. */
module Values {
  import opened Syntax
  import Text

  datatype Value =
    | Undefined
    | Num(n: int)
    | Str(s: string)
    | Bool(b: bool)
    | Obj(fields: map<string, Value>)

  type Env = map<string, Value>

  /** `a === b`.  Objects compare by identity, which the model does not track. */
  function StrictEquals(a: Value, b: Value): Option<bool>
  {
    if a.Obj? && b.Obj? then None
    else Some(a == b)
  }

  /** The property name an object-literal key stands for. */
  function PropertyName(key: Node): Option<string>
  {
    match key
    case Identifier(x) => Some(x)
    case StringLiteral(t) => Some(t)
    case NumericLiteral(k) => Some(Text.Decimal(k))
    case _ => None
  }

  /** `o.k` */
  function ReadField(o: Value, k: string): Option<Value>
  {
    match o
    case Obj(m) => Some(if k in m then m[k] else Undefined)
    case _ => None
  }

  /** The own enumerable properties `...v` copies: none for `undefined`, numbers
      and booleans; the characters of a string are not modelled. */
  function SpreadFields(v: Value): Option<map<string, Value>>
  {
    match v
    case Obj(m) => Some(m)
    case Str(_) => None
    case _ => Some(map[])
  }

  function Eval(e: Node, env: Env): Option<Value>
    decreases Size(e), 0
  {
    match e
    case Identifier(x) => if x in env then Some(env[x]) else None
    case StringLiteral(t) => Some(Str(t))
    case NumericLiteral(k) => Some(Num(k))
    case BooleanLiteral(b) => Some(Bool(b))
    case Binary(op, l, r) =>
      (match (Eval(l, env), Eval(r, env))
       case (Some(a), Some(b)) =>
         if op == "===" then
           (match StrictEquals(a, b) case Some(t) => Some(Bool(t)) case None => None)
         else if op == ">=" && a.Num? && b.Num? then Some(Bool(a.n >= b.n))
         else if op == "<=" && a.Num? && b.Num? then Some(Bool(a.n <= b.n))
         else None
       case _ => None)
    case Logical(op, l, r) =>
      if op != "&&" then None
      else
        (match Eval(l, env)
         case Some(Bool(false)) => Some(Bool(false))
         case Some(Bool(true)) => Eval(r, env)
         case _ => None)
    case Member(o, Identifier(k)) =>
      (match Eval(o, env) case Some(v) => ReadField(v, k) case None => None)
    case ObjectExpr(ps) =>
      (match EvalEntries(ps, map[], env) case Some(m) => Some(Obj(m)) case None => None)
    case _ => None
  }

  /** The fields an object literal's entries produce, left to right, starting
      from `acc`: a property sets its key, a spread copies the fields of its
      argument, and a later write to a key replaces an earlier one. */
  function EvalEntries(ps: seq<Node>, acc: map<string, Value>, env: Env): Option<map<string, Value>>
    decreases SizeSeq(ps), 2
  {
    if ps == [] then Some(acc)
    else
      match EvalEntry(ps[0], acc, env)
      case Some(acc') => EvalEntries(ps[1..], acc', env)
      case None => None
  }

  /** One entry of an object literal applied to the fields built so far. */
  function EvalEntry(p: Node, acc: map<string, Value>, env: Env): Option<map<string, Value>>
    decreases Size(p), 1
  {
    match p
    case ObjectProperty(k, v) =>
      (match (PropertyName(k), Eval(v, env))
       case (Some(name), Some(x)) => Some(acc[name := x])
       case _ => None)
    case Spread(a) =>
      (match Eval(a, env)
       case Some(x) =>
         (match SpreadFields(x) case Some(m) => Some(acc + m) case None => None)
       case None => None)
    case _ => None
  }

  /** Evaluating entries on top of existing fields is the same as evaluating them
      alone and letting them override those fields. */
  lemma {:induction false} EvalEntriesOnTop(ps: seq<Node>, base: map<string, Value>, env: Env)
    ensures EvalEntries(ps, base, env) ==
            match EvalEntries(ps, map[], env)
            case Some(m) => Some(base + m)
            case None => None
  {
    EvalEntriesShift(ps, base, map[], env);
    assert base + map[] == base;
  }

  lemma {:induction false} EvalEntriesShift(ps: seq<Node>, base: map<string, Value>, acc: map<string, Value>, env: Env)
    ensures EvalEntries(ps, base + acc, env) ==
            match EvalEntries(ps, acc, env)
            case Some(m) => Some(base + m)
            case None => None
  {
    if ps != [] {
      EntryShift(ps[0], base, acc, env);
      match EvalEntry(ps[0], acc, env)
      case Some(next) => EvalEntriesShift(ps[1..], base, next, env);
      case None =>
    }
  }

  /** One entry applied on top of existing fields. */
  lemma EntryShift(p: Node, base: map<string, Value>, acc: map<string, Value>, env: Env)
    ensures EvalEntry(p, base + acc, env) ==
            match EvalEntry(p, acc, env)
            case Some(m) => Some(base + m)
            case None => None
  {
    match p
    case ObjectProperty(k, v) =>
      if PropertyName(k).Some? && Eval(v, env).Some? {
        var name, x := PropertyName(k).value, Eval(v, env).value;
        UpdateOnTop(base, acc, name, x);
      }
    case Spread(a) =>
      if Eval(a, env).Some? && SpreadFields(Eval(a, env).value).Some? {
        var m := SpreadFields(Eval(a, env).value).value;
        MergeOnTop(base, acc, m);
      }
    case _ =>
  }

  lemma UpdateOnTop(base: map<string, Value>, acc: map<string, Value>, name: string, x: Value)
    ensures (base + acc)[name := x] == base + acc[name := x]
  {
  }

  lemma MergeOnTop(base: map<string, Value>, acc: map<string, Value>, m: map<string, Value>)
    ensures (base + acc) + m == base + (acc + m)
  {
  }
}
