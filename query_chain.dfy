/** The query descriptor both LINQ encodings are reduced to, and the method chain
    `from(source).where(..)*.groupBy(..)?.orderBy(..)?.select(..)?.toArray()` built
    from it (src/transpile.ts:461-497 and 560-599). */
module QueryChain {
  import opened Syntax

  /** The accumulators of the scan: `collection`, `variable`, the where conditions,
      `groupBy`, `orderBy` and `selector`; `None` is the initial `null` (and, in the
      object form, the `undefined` value of a method entry). */
  datatype Descriptor = Descriptor(
    source: Option<Node>,
    binding: Option<Node>,
    filters: seq<Node>,
    groupKey: Option<Node>,
    orderKey: Option<Node>,
    projection: Option<Node>)

  const NoClauses := Descriptor(None, None, [], None, None, None)

  /** `from(source)` */
  function From(source: Node): Node
  {
    Call(Identifier("from"), [source])
  }

  /** `chain.name(argument)` */
  function Step(chain: Node, name: string, argument: Node): Node
  {
    Call(Member(chain, Identifier(name)), [argument])
  }

  /** The chain extended by one `.where(f)` per filter, in order. */
  function WhereChain(chain: Node, filters: seq<Node>): Node
  {
    if filters == [] then chain
    else Step(WhereChain(chain, filters[..|filters| - 1]), "where", filters[|filters| - 1])
  }

  lemma WhereChainSnoc(chain: Node, filters: seq<Node>, f: Node)
    ensures WhereChain(chain, filters + [f]) == Step(WhereChain(chain, filters), "where", f)
  {
    assert (filters + [f])[..|filters|] == filters;
  }

  /** The chain extended by `.name(argument)` when the argument is present. */
  function StepIfPresent(chain: Node, name: string, argument: Option<Node>): Node
  {
    match argument
    case None => chain
    case Some(a) => Step(chain, name, a)
  }

  /** The whole chain: wheres, then groupBy, then orderBy, then select, and
      `.toArray()` around all of it. */
  function ChainOf(base: Node, filters: seq<Node>, groupKey: Option<Node>, orderKey: Option<Node>, projection: Option<Node>): Node
  {
    var grouped := StepIfPresent(WhereChain(base, filters), "groupBy", groupKey);
    var ordered := StepIfPresent(grouped, "orderBy", orderKey);
    var selected := StepIfPresent(ordered, "select", projection);
    Call(Member(selected, Identifier("toArray")), [])
  }

  /** `t.callExpression(from, [collection])` with a `null` or `undefined` collection
      is refused by the builder. */
  function Required(source: Option<Node>): (r: Result<Node>)
    ensures r.Ok? <==> source.Some?
  {
    match source
    case None => Err(InvalidNode("call argument is null"))
    case Some(s) => Ok(s)
  }

  /** Reading a method chain back: the calls of named members, from the innermost
      to the outermost, with their arguments. */
  function Steps(n: Node): seq<(string, seq<Node>)>
  {
    if n.Call? && n.callee.Member? && n.callee.property.Identifier? then
      Steps(n.callee.receiver) + [(n.callee.property.name, n.arguments)]
    else []
  }

  /** What a method chain starts from. */
  function Base(n: Node): Node
  {
    if n.Call? && n.callee.Member? && n.callee.property.Identifier? then Base(n.callee.receiver) else n
  }

  function WhereSteps(filters: seq<Node>): (r: seq<(string, seq<Node>)>)
    ensures |r| == |filters|
    ensures forall i :: 0 <= i < |filters| ==> r[i] == ("where", [filters[i]])
  {
    if filters == [] then [] else [("where", [filters[0]])] + WhereSteps(filters[1..])
  }

  function StepIfPresentSteps(name: string, argument: Option<Node>): seq<(string, seq<Node>)>
  {
    match argument
    case None => []
    case Some(a) => [(name, [a])]
  }

  lemma {:induction false} WhereStepsSnoc(filters: seq<Node>, f: Node)
    ensures WhereSteps(filters + [f]) == WhereSteps(filters) + [("where", [f])]
  {
    if filters != [] {
      assert (filters + [f])[1..] == filters[1..] + [f];
      WhereStepsSnoc(filters[1..], f);
    } else {
      assert [f][1..] == [];
    }
  }

  lemma {:induction false} WhereChainSteps(base: Node, filters: seq<Node>)
    ensures Steps(WhereChain(base, filters)) == Steps(base) + WhereSteps(filters)
    ensures Base(WhereChain(base, filters)) == Base(base)
  {
    if filters != [] {
      var init := filters[..|filters| - 1];
      WhereChainSteps(base, init);
      WhereStepsSnoc(init, filters[|filters| - 1]);
      assert filters == init + [filters[|filters| - 1]];
    }
  }

  /** The chain starts from its base, and its calls are one `where` per filter in
      order, then `groupBy`, `orderBy` and `select` for the keys that are present,
      and `toArray()` last. */
  lemma ChainOfSteps(base: Node, filters: seq<Node>, groupKey: Option<Node>, orderKey: Option<Node>, projection: Option<Node>)
    requires Steps(base) == []
    ensures var chain := ChainOf(base, filters, groupKey, orderKey, projection);
      && Base(chain) == Base(base)
      && Steps(chain) == WhereSteps(filters) + StepIfPresentSteps("groupBy", groupKey)
                         + StepIfPresentSteps("orderBy", orderKey) + StepIfPresentSteps("select", projection)
                         + [("toArray", [])]
  {
    var wheres := WhereChain(base, filters);
    WhereChainSteps(base, filters);
    var grouped := StepIfPresent(wheres, "groupBy", groupKey);
    StepIfPresentReads(wheres, "groupBy", groupKey);
    var ordered := StepIfPresent(grouped, "orderBy", orderKey);
    StepIfPresentReads(grouped, "orderBy", orderKey);
    var selected := StepIfPresent(ordered, "select", projection);
    StepIfPresentReads(ordered, "select", projection);
    var chain := ChainOf(base, filters, groupKey, orderKey, projection);
    assert chain == Call(Member(selected, Identifier("toArray")), []);
    assert Steps(chain) == Steps(selected) + [("toArray", [])];
  }

  lemma StepIfPresentReads(chain: Node, name: string, argument: Option<Node>)
    ensures Steps(StepIfPresent(chain, name, argument)) == Steps(chain) + StepIfPresentSteps(name, argument)
    ensures Base(StepIfPresent(chain, name, argument)) == Base(chain)
  {
  }

  /** `from(source)` is the base of a chain built on it. */
  lemma FromIsBase(source: Node)
    ensures Steps(From(source)) == [] && Base(From(source)) == From(source)
  {
  }
}
