/** Operator overloading (src/transpile.ts:605-740): the operators that can be
    overloaded and their method-name keys, the naming-convention type guess, the
    registry of overloads built from `static $operator_name` methods, and the
    resolution of `left op right` to `T.method(left, right)`. */
module Overload {
  import opened Syntax
  import Text

  /** `isOverloadableOperator`'s list. */
  const OverloadableOperators: seq<string> := ["+", "-", "*", "/", "%", "==", "!=", "<", ">", "<=", ">="]

  predicate IsOverloadableOperator(op: string)
  {
    op in OverloadableOperators
  }

  /** `getOperatorKey`'s table. */
  const OperatorNames: map<string, string> := map[
    "+" := "plus", "-" := "minus", "*" := "multiply", "/" := "divide", "%" := "modulo",
    "==" := "equals", "!=" := "notEquals", "<" := "lessThan", ">" := "greaterThan",
    "<=" := "lessThanOrEqual", ">=" := "greaterThanOrEqual"]

  /** `getOperatorKey`: the table's name for the operator, or the operator itself. */
  function OperatorKey(op: string): (k: string)
    ensures op !in OperatorNames ==> k == op
  {
    if op in OperatorNames then OperatorNames[op] else op
  }

  /** Every overloadable operator has its own name in the table. */
  lemma OperatorKeyTable()
    ensures forall op :: IsOverloadableOperator(op) <==> op in OperatorNames
    ensures forall a, b :: IsOverloadableOperator(a) && IsOverloadableOperator(b) && OperatorKey(a) == OperatorKey(b) ==> a == b
  {
    OperatorNamesDomain();
    OperatorNamesDistinct();
  }

  lemma OperatorNamesDomain()
    ensures forall op :: op in OverloadableOperators <==> op in OperatorNames
  {
  }

  lemma OperatorNamesDistinct()
    ensures forall a, b :: a in OperatorNames && b in OperatorNames && OperatorNames[a] == OperatorNames[b] ==> a == b
  {
  }

  /** `inferExpressionType`: the class of `new C(..)`, `"Vector"` for an identifier
      that starts with `v` or mentions `vector` or `Vector`, or for a call of a
      `Vector.` member, the type of the receiver for a member access, and no type
      otherwise. */
  function InferExpressionType(n: Node): Option<string>
  {
    if n.New? && n.callee.Identifier? then Some(n.callee.name)
    else if n.Identifier? then
      if Text.StartsWith(n.name, "v") || Text.Includes(n.name, "vector") || Text.Includes(n.name, "Vector")
      then Some("Vector") else None
    else if n.Call? && n.callee.Member? && n.callee.receiver == Identifier("Vector") then Some("Vector")
    else if n.Member? then InferExpressionType(n.receiver)
    else None
  }

  /** The expression a chain of member accesses starts from. */
  function Head(n: Node): (h: Node)
    ensures !h.Member?
  {
    if n.Member? then Head(n.receiver) else n
  }

  /** The guess depends only on what a member chain starts from, and it is either
      `Vector` or the constructor of a `new` expression. */
  lemma {:induction false} InferredFromHead(n: Node)
    ensures InferExpressionType(n) == InferExpressionType(Head(n))
    ensures InferExpressionType(n).Some? ==>
      InferExpressionType(n).value == "Vector" || (Head(n).New? && Head(n).callee == Identifier(InferExpressionType(n).value))
  {
    if n.Member? {
      InferredFromHead(n.receiver);
    }
  }

  /** The registered overloads: class name to operator name to method name. */
  type Registry = map<string, map<string, string>>

  /** `methodName.replace('$operator_', '')` */
  function OperatorName(methodName: string): string
  {
    Text.ReplaceFirst(methodName, "$operator_", "")
  }

  /** The registry after `registerOperatorOverload` of `methodName` in `className`. */
  function Registered(reg: Registry, className: string, methodName: string): Registry
  {
    var ops := if className in reg then reg[className] else map[];
    reg[className := ops[OperatorName(methodName) := methodName]]
  }

  /** The registry as the object the visitor shares between handlers. */
  class OperatorRegistry {
    var table: Registry

    constructor()
      ensures table == map[]
    {
      table := map[];
    }

    /** `registerOperatorOverload`, with the enclosing class's name given: an empty
        operator map is created for a class seen for the first time, and the
        operator name is then set to the method name. */
    method Register(className: string, methodName: string)
      modifies this
      ensures table == Registered(old(table), className, methodName)
    {
      var operatorName := OperatorName(methodName);
      if className !in table {
        table := table[className := map[]];
      }
      var operatorMap := table[className];
      table := table[className := operatorMap[operatorName := methodName]];
    }
  }

  /** Registering `$operator_name` makes `name` map to the method in that class,
      and leaves every other class and every other operator of the class as it was. */
  lemma RegisteredMeaning(reg: Registry, className: string, methodName: string)
    requires Text.StartsWith(methodName, "$operator_")
    ensures var after := Registered(reg, className, methodName);
      && after.Keys == reg.Keys + {className}
      && methodName[10..] in after[className]
      && after[className][methodName[10..]] == methodName
      && (forall c :: c in reg && c != className ==> after[c] == reg[c])
      && (className in reg ==> forall o :: o in reg[className] && o != methodName[10..] ==>
            o in after[className] && after[className][o] == reg[className][o])
  {
    Text.ReplacePrefix(methodName, "$operator_");
  }

  /** A second registration of the same operator in the same class replaces the
      first. */
  lemma RegisterLastWins(reg: Registry, className: string, first: string, second: string)
    requires OperatorName(first) == OperatorName(second)
    ensures Registered(Registered(reg, className, first), className, second) == Registered(reg, className, second)
  {
    var ops := if className in reg then reg[className] else map[];
    var once := Registered(reg, className, first);
    assert once[className] == ops[OperatorName(first) := first];
    assert once[className][OperatorName(second) := second] == ops[OperatorName(second) := second];
  }

  /** The overload a type provides for an operator, when the type is known and
      registered and has an entry for the operator's key. */
  function Provided(reg: Registry, t: Option<string>, op: string): (r: Option<(string, string)>)
    ensures r.Some? <==> t.Some? && t.value != "" && t.value in reg && OperatorKey(op) in reg[t.value]
    ensures r.Some? ==> r.value.0 == t.value && reg[r.value.0][OperatorKey(op)] == r.value.1
  {
    match t
    case Some(name) =>
      if name != "" && name in reg && OperatorKey(op) in reg[name] then Some((name, reg[name][OperatorKey(op)]))
      else None
    case None => None
  }

  /** `T.method(left, right)` */
  function StaticCall(t: string, methodName: string, left: Node, right: Node): Node
  {
    Call(Member(Identifier(t), Identifier(methodName)), [left, right])
  }

  /** `tryCreateOperatorOverload`: the left operand's type is tried first, then the
      right's; the operands keep their order in either case. */
  function TryCreateOperatorOverload(op: string, left: Node, right: Node, reg: Registry): (r: Option<Node>)
    ensures r.Some? ==> r.value.Call? && r.value.arguments == [left, right]
  {
    match Provided(reg, InferExpressionType(left), op)
    case Some((t, m)) => Some(StaticCall(t, m, left, right))
    case None =>
      match Provided(reg, InferExpressionType(right), op)
      case Some((t, m)) => Some(StaticCall(t, m, left, right))
      case None => None
  }

  /** An overload is produced exactly when one operand's guessed type registers a
      method for the operator's key; the left operand's type wins when both do,
      and the call is to the method registered for that key. */
  lemma OverloadResolution(op: string, left: Node, right: Node, reg: Registry)
    ensures var r := TryCreateOperatorOverload(op, left, right, reg);
      var lt, rt := InferExpressionType(left), InferExpressionType(right);
      && (r.Some? <==> Provided(reg, lt, op).Some? || Provided(reg, rt, op).Some?)
      && (Provided(reg, lt, op).Some? ==>
            r == Some(StaticCall(lt.value, reg[lt.value][OperatorKey(op)], left, right)))
      && (Provided(reg, lt, op).None? && Provided(reg, rt, op).Some? ==>
            r == Some(StaticCall(rt.value, reg[rt.value][OperatorKey(op)], left, right)))
  {
  }

  /** Literal operands have no guessed type, so `1 + 2` is never rewritten. */
  lemma LiteralsNotOverloaded(a: int, b: int, op: string, reg: Registry)
    ensures TryCreateOperatorOverload(op, NumericLiteral(a), NumericLiteral(b), reg) == None
  {
  }

  /** With `static $operator_plus` registered in `Vector`, `v1 + v2` becomes
      `Vector.$operator_plus(v1, v2)`, and so does `2 + v2`. */
  lemma VectorExample(reg: Registry, a: string, b: string, k: int)
    requires Text.StartsWith(a, "v") && Text.StartsWith(b, "v")
    ensures var after := Registered(reg, "Vector", "$operator_plus");
      && TryCreateOperatorOverload("+", Identifier(a), Identifier(b), after)
           == Some(StaticCall("Vector", "$operator_plus", Identifier(a), Identifier(b)))
      && TryCreateOperatorOverload("+", NumericLiteral(k), Identifier(b), after)
           == Some(StaticCall("Vector", "$operator_plus", NumericLiteral(k), Identifier(b)))
  {
    RegisteredMeaning(reg, "Vector", "$operator_plus");
    assert "$operator_plus"[10..] == "plus";
    assert OperatorKey("+") == "plus";
  }
}
