/** The comma-sequence encoding of a query, `from, x, in, xs, where, p, select, e`
    (src/transpile.ts:381-514): recognising it, scanning its tokens into a query
    descriptor, and building the method chain in which every operand becomes the
    arrow function `x => operand`. */
module TokenQuery {
  import opened Syntax
  import opened QueryChain

  /** The keywords whose operand is the token right after them. */
  predicate IsOperandKeyword(name: string)
  {
    name == "where" || name == "select" || name == "orderby" || name == "groupby"
  }

  predicate IsKeywordToken(t: Node)
  {
    t == Identifier("from") || (t.Identifier? && IsOperandKeyword(t.name))
  }

  /** `isLinqQuery`: a sequence of at least three expressions among which are the
      identifiers `from`, `in` and `select`. */
  predicate IsLinqQuery(n: Node)
  {
    n.Sequence? && |n.expressions| >= 3
    && Identifier("from") in n.expressions
    && Identifier("in") in n.expressions
    && Identifier("select") in n.expressions
  }

  /** The clauses the scanning loop sees: `from` with the tokens one and three places
      after it, a keyword with the next token, or a token it passes over. */
  datatype TokenClause =
    | FromClause(binding: Node, source: Node)
    | Keyed(keyword: string, operand: Node)
    | Stray(token: Node)

  /** How the loop splits the tokens: `from` takes four tokens when three more
      follow it, an operand keyword takes two when one more follows it, and any
      other token (including a keyword with too few tokens after it) is passed
      over alone.  The token two places after `from` is skipped unread. */
  function ParseTokens(ts: seq<Node>): seq<TokenClause>
  {
    if ts == [] then []
    else if ts[0] == Identifier("from") then
      if 3 < |ts| then [FromClause(ts[1], ts[3])] + ParseTokens(ts[4..])
      else [Stray(ts[0])] + ParseTokens(ts[1..])
    else if ts[0].Identifier? && IsOperandKeyword(ts[0].name) && 1 < |ts| then
      [Keyed(ts[0].name, ts[1])] + ParseTokens(ts[2..])
    else [Stray(ts[0])] + ParseTokens(ts[1..])
  }

  /** One clause applied to the accumulators: a where condition is appended, every
      other clause overwrites what it sets. */
  function Absorb(d: Descriptor, c: TokenClause): Descriptor
  {
    match c
    case FromClause(b, s) => d.(binding := Some(b), source := Some(s))
    case Keyed(k, e) =>
      if k == "where" then d.(filters := d.filters + [e])
      else if k == "select" then d.(projection := Some(e))
      else if k == "orderby" then d.(orderKey := Some(e))
      else if k == "groupby" then d.(groupKey := Some(e))
      else d
    case Stray(_) => d
  }

  function AbsorbAll(d: Descriptor, cs: seq<TokenClause>): Descriptor
    decreases |cs|
  {
    if cs == [] then d else AbsorbAll(Absorb(d, cs[0]), cs[1..])
  }

  /** The descriptor the scanning loop ends with. */
  function ScanTokens(ts: seq<Node>): Descriptor
  {
    AbsorbAll(NoClauses, ParseTokens(ts))
  }

  /** `createLambdaFromCondition` / `createLambdaFromSelector` need an identifier
      as the parameter: `null` (no `from` read) or another node is refused. */
  function Parameter(binding: Option<Node>): (r: Result<Node>)
    ensures r.Ok? <==> binding.Some? && binding.value.Identifier?
    ensures r.Ok? ==> r.value == binding.value
    ensures r.Err? ==> r.error == BadParameter
  {
    match binding
    case Some(Identifier(x)) => Ok(Identifier(x))
    case _ => Err(BadParameter)
  }

  /** The arrow builder's refusal of a parameter that is no identifier. */
  const BadParameter := InvalidNode("arrow parameter must be an identifier")

  /** `x => e` for each operand. */
  function Wrap(p: Node, es: seq<Node>): seq<Node>
  {
    if es == [] then [] else Wrap(p, es[..|es| - 1]) + [Arrow([p], es[|es| - 1])]
  }

  function WrapIfPresent(p: Node, e: Option<Node>): Option<Node>
  {
    match e
    case None => None
    case Some(x) => Some(Arrow([p], x))
  }

  /** Whether the chain has an operand that needs an arrow function. */
  predicate NeedsParameter(d: Descriptor)
  {
    d.filters != [] || d.groupKey.Some? || d.orderKey.Some? || d.projection.Some?
  }

  /** The chain built from the descriptor: `from(collection)` first, then every
      operand as `variable => operand`. */
  function TokenChain(d: Descriptor): Result<Node>
  {
    var source :- Required(d.source);
    if !NeedsParameter(d) then Ok(ChainOf(From(source), [], None, None, None))
    else
      var p :- Parameter(d.binding);
      Ok(ChainOf(From(source), Wrap(p, d.filters), WrapIfPresent(p, d.groupKey),
                 WrapIfPresent(p, d.orderKey), WrapIfPresent(p, d.projection)))
  }

  /** `transformLinqQuery` on the expressions of a sequence, as a value. */
  function TokenQueryLowering(ts: seq<Node>): Result<Node>
  {
    TokenChain(ScanTokens(ts))
  }

  /** `transformLinqQuery`: an index loop over the tokens that jumps past the
      operands it reads, then a loop adding one `.where` per condition. */
  method TransformLinqQuery(ts: seq<Node>) returns (r: Result<Node>)
    ensures r == TokenQueryLowering(ts)
  {
    var collection: Option<Node> := None;
    var variable: Option<Node> := None;
    var whereConditions: seq<Node> := [];
    var selector: Option<Node> := None;
    var orderBy: Option<Node> := None;
    var groupBy: Option<Node> := None;
    var i := 0;
    while i < |ts|
      invariant 0 <= i <= |ts|
      invariant AbsorbAll(Descriptor(collection, variable, whereConditions, groupBy, orderBy, selector),
                          ParseTokens(ts[i..])) == ScanTokens(ts)
      decreases |ts| - i
    {
      var d := Descriptor(collection, variable, whereConditions, groupBy, orderBy, selector);
      var e := ts[i];
      ghost var rest := ts[i..];
      if e == Identifier("from") {
        if i + 3 < |ts| {
          assert rest[4..] == ts[i + 4..];
          variable := Some(ts[i + 1]);
          collection := Some(ts[i + 3]);
          i := i + 3;
        } else {
          assert rest[1..] == ts[i + 1..];
        }
      } else if e == Identifier("where") || e == Identifier("select") || e == Identifier("orderby") || e == Identifier("groupby") {
        if i + 1 < |ts| {
          assert rest[2..] == ts[i + 2..];
          if e == Identifier("where") {
            whereConditions := whereConditions + [ts[i + 1]];
          } else if e == Identifier("select") {
            selector := Some(ts[i + 1]);
          } else if e == Identifier("orderby") {
            orderBy := Some(ts[i + 1]);
          } else {
            groupBy := Some(ts[i + 1]);
          }
          i := i + 1;
        } else {
          assert rest[1..] == ts[i + 1..];
        }
      } else {
        assert rest[1..] == ts[i + 1..];
      }
      i := i + 1;
    }
    var d := Descriptor(collection, variable, whereConditions, groupBy, orderBy, selector);
    assert d == ScanTokens(ts);
    r := BuildTokenChain(d);
  }

  /** `variable => body`, as both lambda builders of the source make it. */
  function Lambda(binding: Option<Node>, body: Node): (r: Result<Node>)
    ensures r.Ok? <==> Parameter(binding).Ok?
    ensures r.Ok? ==> r.value == Arrow([binding.value], body)
    ensures r.Err? ==> r.error == BadParameter
  {
    var p :- Parameter(binding);
    Ok(Arrow([p], body))
  }

  /** The chain-building half of `transformLinqQuery`. */
  method BuildTokenChain(d: Descriptor) returns (r: Result<Node>)
    ensures r == TokenChain(d)
  {
    if d.source.None? {
      return Err(InvalidNode("call argument is null"));
    }
    var base := From(d.source.value);
    var wheres := AddWhereLambdas(base, d.binding, d.filters);
    if wheres.Err? {
      return wheres;
    }
    var grouped := ExtendIfPresent(wheres.value, "groupBy", d.binding, d.groupKey);
    if grouped.Err? {
      return grouped;
    }
    var ordered := ExtendIfPresent(grouped.value, "orderBy", d.binding, d.orderKey);
    if ordered.Err? {
      return ordered;
    }
    var selected := ExtendIfPresent(ordered.value, "select", d.binding, d.projection);
    if selected.Err? {
      return selected;
    }
    r := Ok(Call(Member(selected.value, Identifier("toArray")), []));
  }

  /** The loop over the where conditions: `queryChain` becomes
      `queryChain.where(variable => condition)` for each in turn. */
  method AddWhereLambdas(base: Node, binding: Option<Node>, conditions: seq<Node>) returns (r: Result<Node>)
    ensures conditions == [] ==> r == Ok(base)
    ensures conditions != [] ==> r.Ok? == Parameter(binding).Ok?
    ensures conditions != [] && r.Ok? ==> r.value == WhereChain(base, Wrap(binding.value, conditions))
    ensures r.Err? ==> r == Err(BadParameter)
  {
    var queryChain := base;
    for j := 0 to |conditions|
      invariant j > 0 ==> Parameter(binding).Ok?
      invariant j > 0 ==> queryChain == WhereChain(base, Wrap(binding.value, conditions[..j]))
      invariant j == 0 ==> queryChain == base
    {
      var lambda := Lambda(binding, conditions[j]);
      if lambda.Err? {
        return Err(lambda.error);
      }
      WhereChainPrefix(base, binding.value, conditions, j);
      queryChain := Step(queryChain, "where", lambda.value);
    }
    assert conditions[..|conditions|] == conditions;
    r := Ok(queryChain);
  }

  /** The chain of one more where condition is one more `.where(p => c)`. */
  lemma WhereChainPrefix(base: Node, p: Node, conditions: seq<Node>, j: nat)
    requires j < |conditions|
    ensures WhereChain(base, Wrap(p, conditions[..j + 1]))
         == Step(WhereChain(base, Wrap(p, conditions[..j])), "where", Arrow([p], conditions[j]))
  {
    assert conditions[..j + 1] == conditions[..j] + [conditions[j]];
    WrapSnoc(p, conditions[..j], conditions[j]);
    WhereChainSnoc(base, Wrap(p, conditions[..j]), Arrow([p], conditions[j]));
  }

  /** Each wrapped operand is the arrow function of the operand in the same place. */
  lemma {:induction false} WrapElements(p: Node, es: seq<Node>)
    ensures |Wrap(p, es)| == |es|
    ensures forall i :: 0 <= i < |es| ==> Wrap(p, es)[i] == Arrow([p], es[i])
  {
    if es != [] {
      WrapElements(p, es[..|es| - 1]);
    }
  }

  lemma WrapSnoc(p: Node, es: seq<Node>, e: Node)
    ensures Wrap(p, es + [e]) == Wrap(p, es) + [Arrow([p], e)]
  {
    assert (es + [e])[..|es|] == es;
  }

  /** One of the `if (groupBy)`, `if (orderBy)`, `if (selector)` steps. */
  method ExtendIfPresent(chain: Node, name: string, binding: Option<Node>, key: Option<Node>) returns (r: Result<Node>)
    ensures key.None? ==> r == Ok(chain)
    ensures key.Some? ==> r.Ok? == Parameter(binding).Ok?
    ensures key.Some? && r.Ok? ==> r.value == Step(chain, name, Arrow([binding.value], key.value))
    ensures r.Err? ==> r == Err(BadParameter)
  {
    if key.None? {
      return Ok(chain);
    }
    var lambda := Lambda(binding, key.value);
    if lambda.Err? {
      return Err(lambda.error);
    }
    r := Ok(Step(chain, name, lambda.value));
  }

  /** The where conditions of a clause list, in order. */
  function Filters(cs: seq<TokenClause>): seq<Node>
  {
    if cs == [] then []
    else FilterOf(cs[0]) + Filters(cs[1..])
  }

  /** The operand of the last clause with keyword `k`, if any. */
  function LastOperand(cs: seq<TokenClause>, k: string): Option<Node>
  {
    if cs == [] then None
    else
      match LastOperand(cs[1..], k)
      case Some(e) => Some(e)
      case None => if cs[0].Keyed? && cs[0].keyword == k then Some(cs[0].operand) else None
  }

  /** The last `from` clause, if any. */
  function LastFrom(cs: seq<TokenClause>): (r: Option<TokenClause>)
    ensures r.Some? ==> r.value.FromClause?
    ensures r.Some? ==> exists i :: 0 <= i < |cs| && cs[i] == r.value
                                 && forall j :: i < j < |cs| ==> !cs[j].FromClause?
    ensures r.None? <==> forall i :: 0 <= i < |cs| ==> !cs[i].FromClause?
  {
    if cs == [] then None
    else
      match LastFrom(cs[1..])
      case Some(c) => Some(c)
      case None => if cs[0].FromClause? then Some(cs[0]) else None
  }

  function Override(earlier: Option<Node>, later: Option<Node>): Option<Node>
  {
    if later.Some? then later else earlier
  }

  /** The scan's source and variable are those of the last `from`, if any. */
  lemma {:induction false} AbsorbAllFrom(d: Descriptor, cs: seq<TokenClause>)
    decreases |cs|
    ensures var last := LastFrom(cs);
      && AbsorbAll(d, cs).source == (if last.Some? then Some(last.value.source) else d.source)
      && AbsorbAll(d, cs).binding == (if last.Some? then Some(last.value.binding) else d.binding)
  {
    if cs != [] {
      AbsorbAllFrom(Absorb(d, cs[0]), cs[1..]);
    }
  }

  /** The where condition a clause contributes, if any. */
  function FilterOf(c: TokenClause): seq<Node>
  {
    if c.Keyed? && c.keyword == "where" then [c.operand] else []
  }

  lemma AbsorbFilters(d: Descriptor, c: TokenClause)
    ensures Absorb(d, c).filters == d.filters + FilterOf(c)
  {
    if !(c.Keyed? && c.keyword == "where") {
      assert d.filters + [] == d.filters;
    }
  }

  /** The scan appends every where condition, in order. */
  lemma {:induction false} AbsorbAllFilters(d: Descriptor, cs: seq<TokenClause>)
    decreases |cs|
    ensures AbsorbAll(d, cs).filters == d.filters + Filters(cs)
  {
    if cs == [] {
      assert d.filters + [] == d.filters;
    } else {
      var next := Absorb(d, cs[0]);
      AbsorbAllFilters(next, cs[1..]);
      AbsorbFilters(d, cs[0]);
      assert Filters(cs) == FilterOf(cs[0]) + Filters(cs[1..]);
      assert d.filters + Filters(cs) == (d.filters + FilterOf(cs[0])) + Filters(cs[1..]);
    }
  }

  /** The scan's group key, order key and projection are the last ones given. */
  lemma {:induction false} AbsorbAllKeys(d: Descriptor, cs: seq<TokenClause>)
    decreases |cs|
    ensures AbsorbAll(d, cs).groupKey == Override(d.groupKey, LastOperand(cs, "groupby"))
    ensures AbsorbAll(d, cs).orderKey == Override(d.orderKey, LastOperand(cs, "orderby"))
    ensures AbsorbAll(d, cs).projection == Override(d.projection, LastOperand(cs, "select"))
  {
    if cs != [] {
      AbsorbAllKeys(Absorb(d, cs[0]), cs[1..]);
    }
  }

  /** What the scan keeps: the source and variable of the last `from`, every where
      condition in order after those already collected, and for `groupby`,
      `orderby` and `select` the operand of the last such clause. */
  lemma AbsorbAllMeaning(d: Descriptor, cs: seq<TokenClause>)
    ensures var last := LastFrom(cs);
      AbsorbAll(d, cs) == Descriptor(
        if last.Some? then Some(last.value.source) else d.source,
        if last.Some? then Some(last.value.binding) else d.binding,
        d.filters + Filters(cs),
        Override(d.groupKey, LastOperand(cs, "groupby")),
        Override(d.orderKey, LastOperand(cs, "orderby")),
        Override(d.projection, LastOperand(cs, "select")))
  {
    AbsorbAllFrom(d, cs);
    AbsorbAllFilters(d, cs);
    AbsorbAllKeys(d, cs);
  }

  /** The tokens a clause list is written as, with `in` after the variable. */
  function Render(cs: seq<TokenClause>): seq<Node>
  {
    if cs == [] then []
    else
      var head := match cs[0]
        case FromClause(b, s) => [Identifier("from"), b, Identifier("in"), s]
        case Keyed(k, e) => [Identifier(k), e]
        case Stray(t) => [t];
      head + Render(cs[1..])
  }

  /** A clause that renders to tokens the scan reads back as that clause: keyed
      clauses use a real keyword, and a passed-over token is not a keyword. */
  predicate Renderable(c: TokenClause)
  {
    match c
    case FromClause(_, _) => true
    case Keyed(k, _) => IsOperandKeyword(k)
    case Stray(t) => !IsKeywordToken(t)
  }

  /** Scanning the tokens of a clause list gives back the clause list: `from`
      takes the variable and the source one and three places after it, and each
      keyword takes the token after it. */
  lemma {:induction false} ParseRender(cs: seq<TokenClause>)
    requires forall i :: 0 <= i < |cs| ==> Renderable(cs[i])
    ensures ParseTokens(Render(cs)) == cs
  {
    if cs != [] {
      var rest := cs[1..];
      assert forall i :: 0 <= i < |rest| ==> Renderable(rest[i]) by {
        forall i | 0 <= i < |rest| ensures Renderable(rest[i]) {
          assert rest[i] == cs[i + 1];
        }
      }
      ParseRender(rest);
      assert Renderable(cs[0]);
      var ts := Render(cs);
      match cs[0]
      case FromClause(b, s) =>
        assert ts == [Identifier("from"), b, Identifier("in"), s] + Render(rest);
        assert ts[4..] == Render(rest);
      case Keyed(k, e) =>
        assert ts == [Identifier(k), e] + Render(rest);
        assert ts[2..] == Render(rest);
      case Stray(t) =>
        assert ts == [t] + Render(rest);
        assert ts[1..] == Render(rest);
    }
  }

  /** The lowering fails exactly when no `from` was read, or when an operand needs
      an arrow function and the variable is not an identifier. */
  lemma TokenLoweringFails(ts: seq<Node>)
    ensures var d := ScanTokens(ts);
      TokenQueryLowering(ts).Err? <==>
        LastFrom(ParseTokens(ts)).None? || (NeedsParameter(d) && !(d.binding.Some? && d.binding.value.Identifier?))
  {
    AbsorbAllMeaning(NoClauses, ParseTokens(ts));
  }

  /** A lowered token query is `from(source)` followed by one `.where(x => c)` per
      where condition in source order, then `.groupBy`, `.orderBy` and `.select`
      with the last operands of those keywords, each as `x => operand`, and
      `.toArray()` outermost; `source` and `x` come from the last `from`. */
  lemma TokenLoweringSteps(ts: seq<Node>)
    requires TokenQueryLowering(ts).Ok?
    ensures LastFrom(ParseTokens(ts)).Some?
    ensures var cs := ParseTokens(ts);
      var r := TokenQueryLowering(ts).value;
      var x := LastFrom(cs).value.binding;
      && Base(r) == From(LastFrom(cs).value.source)
      && Steps(r) == WhereSteps(Wrap(x, Filters(cs)))
                     + StepIfPresentSteps("groupBy", WrapIfPresent(x, LastOperand(cs, "groupby")))
                     + StepIfPresentSteps("orderBy", WrapIfPresent(x, LastOperand(cs, "orderby")))
                     + StepIfPresentSteps("select", WrapIfPresent(x, LastOperand(cs, "select")))
                     + [("toArray", [])]
  {
    var cs := ParseTokens(ts);
    AbsorbAllMeaning(NoClauses, cs);
    var d := ScanTokens(ts);
    assert [] + Filters(cs) == Filters(cs);
    FromIsBase(d.source.value);
    if NeedsParameter(d) {
      var x := Parameter(d.binding).value;
      ChainOfSteps(From(d.source.value), Wrap(x, d.filters), WrapIfPresent(x, d.groupKey),
                   WrapIfPresent(x, d.orderKey), WrapIfPresent(x, d.projection));
    } else {
      ChainOfSteps(From(d.source.value), [], None, None, None);
      assert Filters(cs) == [];
    }
  }

  /** A query without a `select` operand is still lowered: `from, x, in, xs,
      select` has its `select` as the last token, so no selector is read, and the
      result is `from(xs).toArray()`. */
  lemma MissingSelectAccepted(x: string, xs: string)
    ensures var ts := [Identifier("from"), Identifier(x), Identifier("in"), Identifier(xs), Identifier("select")];
      && IsLinqQuery(Sequence(ts))
      && TokenQueryLowering(ts) == Ok(Call(Member(From(Identifier(xs)), Identifier("toArray")), []))
  {
    var ts := [Identifier("from"), Identifier(x), Identifier("in"), Identifier(xs), Identifier("select")];
    assert Identifier("from") == ts[0] && Identifier("in") == ts[2] && Identifier("select") == ts[4];
    var rest := [Identifier("select")];
    assert ts[4..] == rest;
    assert rest[1..] == [];
    var tail := [Stray(Identifier("select"))];
    assert ParseTokens(rest) == tail;
    var cs := [FromClause(Identifier(x), Identifier(xs))] + tail;
    assert ParseTokens(ts) == cs;
    var d := NoClauses.(binding := Some(Identifier(x)), source := Some(Identifier(xs)));
    assert cs[1..] == tail && tail[1..] == [];
    assert AbsorbAll(d, tail) == d;
    assert ScanTokens(ts) == d;
  }

  /** `from, x, in, items, where, c, select, e` lowers to
      `from(items).where(x => c).select(x => e).toArray()`. */
  lemma QueryExample(x: string, items: Node, c: Node, e: Node)
    ensures var ts := [Identifier("from"), Identifier(x), Identifier("in"), items,
                       Identifier("where"), c, Identifier("select"), e];
      TokenQueryLowering(ts) == Ok(Call(Member(
        Step(Step(From(items), "where", Arrow([Identifier(x)], c)), "select", Arrow([Identifier(x)], e)),
        Identifier("toArray")), []))
  {
    var cs := [FromClause(Identifier(x), items), Keyed("where", c), Keyed("select", e)];
    var ts := [Identifier("from"), Identifier(x), Identifier("in"), items,
               Identifier("where"), c, Identifier("select"), e];
    assert cs[1..][1..][1..] == [];
    assert Render(cs[1..][1..]) == [Identifier("select"), e];
    assert Render(cs[1..]) == [Identifier("where"), c, Identifier("select"), e];
    assert Render(cs) == ts;
    ParseRender(cs);
    AbsorbAllMeaning(NoClauses, cs);
    var p := Identifier(x);
    assert Wrap(p, [c]) == [Arrow([p], c)] by {
      assert [c][..0] == [];
    }
    assert WhereChain(From(items), [Arrow([p], c)]) == Step(From(items), "where", Arrow([p], c)) by {
      assert [Arrow([p], c)][..0] == [];
    }
    assert Filters(cs) == [c] by {
      assert Filters(cs[1..][1..]) == [];
    }
    var last := [Keyed("select", e)];
    assert cs[1..][1..] == last && last[1..] == [];
    assert LastOperand(last, "select") == Some(e);
    assert LastOperand(last, "groupby") == None && LastOperand(last, "orderby") == None;
    assert LastOperand(cs[1..], "select") == Some(e);
    assert LastOperand(cs[1..], "groupby") == None && LastOperand(cs[1..], "orderby") == None;
    assert LastOperand(cs, "select") == Some(e);
    assert LastOperand(cs, "groupby") == None;
    assert LastOperand(cs, "orderby") == None;
    assert ScanTokens(ts) == Descriptor(Some(items), Some(p), [c], None, None, Some(e));
  }
}
