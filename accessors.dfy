/** Class accessors (src/transpile.ts:182-259): the auto-property test on getters
    and setters, and the lowering of a property declaration `p = { get; set; }`
    into a getter and a setter over the backing field `_p`. */
module Accessors {
  import opened Syntax
  import opened Values

  /** `isAutoProperty`: an accessor whose body is a block that is empty or holds a
      single `return` or expression statement. */
  predicate IsAutoProperty(m: Node)
  {
    m.ClassMethod? && m.body.Block?
    && (|m.body.statements| == 0
        || (|m.body.statements| == 1
            && (m.body.statements[0].Return? || m.body.statements[0].ExpressionStatement?)))
  }

  /** `isPropertyDeclaration`: an object literal with an entry keyed `get` or `set`. */
  predicate IsPropertyDeclaration(value: Node)
  {
    value.ObjectExpr?
    && exists i :: 0 <= i < |value.properties|
         && (HasKeyNamed(value.properties[i], "get") || HasKeyNamed(value.properties[i], "set"))
  }

  /** The field an accessor pair stores its value in. */
  function BackingField(p: string): (f: string)
    ensures f != p && |f| == |p| + 1
  {
    "_" + p
  }

  /** `this.f` */
  function ThisField(f: string): Node
  {
    Member(ThisExpression, Identifier(f))
  }

  /** `get p() { return this._p; }` */
  function Getter(p: string): Node
  {
    ClassMethod("get", Identifier(p), false, [], Block([Return(Some(ThisField(BackingField(p))))]))
  }

  /** `set p(value) { this._p = value; }` */
  function Setter(p: string): Node
  {
    ClassMethod("set", Identifier(p), false, [Identifier("value")],
      Block([ExpressionStatement(Assignment("=", ThisField(BackingField(p)), Identifier("value")))]))
  }

  /** `createPropertyMethods(key.name, config)`: the getter and then the setter.
      The property's name is read as `key.name`, which only an identifier key has;
      `t.identifier(undefined)` is refused.  The declaration's value plays no part,
      and neither does whether the property was static. */
  function CreatePropertyMethods(key: Node): (r: Result<seq<Node>>)
    ensures r.Ok? <==> key.Identifier?
  {
    if key.Identifier? then Ok([Getter(key.name), Setter(key.name)])
    else Err(InvalidNode("identifier name must be a string"))
  }

  /** What calling a getter on an object with fields `self` returns, for a getter
      whose body is `return this.f;`; `None` for any other method. */
  function CallGetter(m: Node, self: map<string, Value>): Option<Value>
  {
    if m.ClassMethod? && m.kind == "get" && m.params == [] && m.body.Block? && |m.body.statements| == 1
       && m.body.statements[0].Return? && m.body.statements[0].result.Some?
       && m.body.statements[0].result.value.Member?
       && m.body.statements[0].result.value.receiver == ThisExpression
       && m.body.statements[0].result.value.property.Identifier?
    then
      var f := m.body.statements[0].result.value.property.name;
      Some(if f in self then self[f] else Undefined)
    else None
  }

  /** The fields after calling a setter with argument `v`, for a setter of one
      parameter `x` whose body is `this.f = x;`; `None` for any other method. */
  function CallSetter(m: Node, self: map<string, Value>, v: Value): Option<map<string, Value>>
  {
    if m.ClassMethod? && m.kind == "set" && |m.params| == 1 && m.params[0].Identifier?
       && m.body.Block? && |m.body.statements| == 1
       && m.body.statements[0].ExpressionStatement?
       && m.body.statements[0].expression.Assignment?
       && m.body.statements[0].expression.operator == "="
       && m.body.statements[0].expression.source == m.params[0]
       && m.body.statements[0].expression.target.Member?
       && m.body.statements[0].expression.target.receiver == ThisExpression
       && m.body.statements[0].expression.target.property.Identifier?
    then Some(self[m.body.statements[0].expression.target.property.name := v])
    else None
  }

  /** `createPropertyMethods` yields exactly two instance methods for the key's
      name, the getter first: the getter returns the backing field, the setter
      stores its argument there and touches no other field, and reading after
      writing gives back what was written. */
  lemma PropertyMethodsMeaning(p: string, self: map<string, Value>, v: Value)
    ensures var r := CreatePropertyMethods(Identifier(p));
      && r.Ok? && |r.value| == 2
      && r.value[0].ClassMethod? && r.value[0].kind == "get" && r.value[0].key == Identifier(p) && !r.value[0].isStatic
      && r.value[1].ClassMethod? && r.value[1].kind == "set" && r.value[1].key == Identifier(p) && !r.value[1].isStatic
      && CallGetter(r.value[0], self) == Some(if BackingField(p) in self then self[BackingField(p)] else Undefined)
      && CallSetter(r.value[1], self, v) == Some(self[BackingField(p) := v])
      && CallGetter(r.value[0], CallSetter(r.value[1], self, v).value) == Some(v)
  {
  }

  /** Storing through the setter never overwrites the property itself: the
      backing field is another name. */
  lemma SetterKeepsOtherFields(p: string, self: map<string, Value>, v: Value, f: string)
    requires f != BackingField(p) && f in self
    ensures CallSetter(Setter(p), self, v).Some?
    ensures var after := CallSetter(Setter(p), self, v).value;
      f in after && after[f] == self[f]
  {
  }

  /** The generated accessors are themselves auto-properties and not static, so
      the class-method rewrite passes over them. */
  lemma GeneratedAccessorsAreAuto(p: string)
    ensures IsAutoProperty(Getter(p)) && IsAutoProperty(Setter(p))
    ensures !Getter(p).isStatic && !Setter(p).isStatic
    ensures Getter(p).kind == "get" && Setter(p).kind == "set"
  {
  }
}
