/** The object-literal encoding of a query, `{ from: xs, where: p, select: e }`
    (src/transpile.ts:519-600): recognising it, scanning its entries into a query
    descriptor, and building the method chain, whose operands are used as written. */
module ObjectQuery {
  import opened Syntax
  import opened QueryChain

  /** `isLinqQueryObject`: an object literal with an entry keyed `from` and an entry
      keyed `select`. */
  predicate IsLinqQueryObject(n: Node)
  {
    n.ObjectExpr?
    && (exists i :: 0 <= i < |n.properties| && HasKeyNamed(n.properties[i], "from"))
    && (exists i :: 0 <= i < |n.properties| && HasKeyNamed(n.properties[i], "select"))
  }

  /** `prop.value`: a method entry has none (`undefined`). */
  function EntryValue(entry: Node): (r: Option<Node>)
    ensures r.Some? <==> entry.ObjectProperty?
  {
    if entry.ObjectProperty? then Some(entry.value) else None
  }

  /** A `where` entry whose value cannot be inspected: reading `type` of the
      missing value of a method raises. */
  predicate BadWhere(entry: Node)
  {
    HasKeyNamed(entry, "where") && !entry.ObjectProperty?
  }

  const UndefinedWhere := TypeError("cannot read the type of an undefined value")

  /** The where conditions an entry lists: the elements of an array literal, or
      else the one value. */
  function Conditions(entry: Node): seq<Node>
  {
    match EntryValue(entry)
    case Some(ArrayExpr(es)) => es
    case Some(v) => [v]
    case None => []
  }

  /** One pass of the loop body: the first key test that holds decides, and every
      clause, `where` included, overwrites what it sets. */
  function AbsorbEntry(d: Descriptor, entry: Node): Result<Descriptor>
  {
    if HasKeyNamed(entry, "from") then Ok(d.(source := EntryValue(entry)))
    else if HasKeyNamed(entry, "where") then
      if !entry.ObjectProperty? then Err(UndefinedWhere) else Ok(d.(filters := Conditions(entry)))
    else if HasKeyNamed(entry, "select") then Ok(d.(projection := EntryValue(entry)))
    else if HasKeyNamed(entry, "orderBy") then Ok(d.(orderKey := EntryValue(entry)))
    else if HasKeyNamed(entry, "groupBy") then Ok(d.(groupKey := EntryValue(entry)))
    else Ok(d)
  }

  function ScanEntries(d: Descriptor, entries: seq<Node>): Result<Descriptor>
    decreases |entries|
  {
    if entries == [] then Ok(d)
    else
      var next :- AbsorbEntry(d, entries[0]);
      ScanEntries(next, entries[1..])
  }

  /** The chain built from the descriptor, with the operands as they are.  The
      `if (groupByClause)` tests see a node or `undefined`, so they amount to
      presence. */
  function ObjectChain(d: Descriptor): Result<Node>
  {
    var source :- Required(d.source);
    Ok(ChainOf(From(source), d.filters, d.groupKey, d.orderKey, d.projection))
  }

  /** `transformLinqQueryObject` on the entries of the literal, as a value. */
  function ObjectQueryLowering(entries: seq<Node>): Result<Node>
  {
    var d :- ScanEntries(NoClauses, entries);
    ObjectChain(d)
  }

  /** `transformLinqQueryObject`: a loop over the entries updating the clause
      variables, then the chain built step by step. */
  method TransformLinqQueryObject(entries: seq<Node>) returns (r: Result<Node>)
    ensures r == ObjectQueryLowering(entries)
  {
    var fromClause: Option<Node> := None;
    var whereClauses: seq<Node> := [];
    var selectClause: Option<Node> := None;
    var orderByClause: Option<Node> := None;
    var groupByClause: Option<Node> := None;
    for i := 0 to |entries|
      invariant ScanEntries(Descriptor(fromClause, None, whereClauses, groupByClause, orderByClause, selectClause),
                            entries[i..]) == ScanEntries(NoClauses, entries)
    {
      var entry := entries[i];
      assert entries[i..][1..] == entries[i + 1..];
      if HasKeyNamed(entry, "from") {
        fromClause := EntryValue(entry);
      } else if HasKeyNamed(entry, "where") {
        if !entry.ObjectProperty? {
          return Err(UndefinedWhere);
        }
        if entry.value.ArrayExpr? {
          whereClauses := entry.value.elements;
        } else {
          whereClauses := [entry.value];
        }
      } else if HasKeyNamed(entry, "select") {
        selectClause := EntryValue(entry);
      } else if HasKeyNamed(entry, "orderBy") {
        orderByClause := EntryValue(entry);
      } else if HasKeyNamed(entry, "groupBy") {
        groupByClause := EntryValue(entry);
      }
    }
    if fromClause.None? {
      return Err(InvalidNode("call argument is null"));
    }
    var queryChain := From(fromClause.value);
    for j := 0 to |whereClauses|
      invariant queryChain == WhereChain(From(fromClause.value), whereClauses[..j])
    {
      WhereChainSnoc(From(fromClause.value), whereClauses[..j], whereClauses[j]);
      assert whereClauses[..j + 1] == whereClauses[..j] + [whereClauses[j]];
      queryChain := Step(queryChain, "where", whereClauses[j]);
    }
    assert whereClauses[..|whereClauses|] == whereClauses;
    if groupByClause.Some? {
      queryChain := Step(queryChain, "groupBy", groupByClause.value);
    }
    if orderByClause.Some? {
      queryChain := Step(queryChain, "orderBy", orderByClause.value);
    }
    if selectClause.Some? {
      queryChain := Step(queryChain, "select", selectClause.value);
    }
    r := Ok(Call(Member(queryChain, Identifier("toArray")), []));
  }

  /** The last entry keyed `name`, if any. */
  function LastNamed(entries: seq<Node>, name: string): (r: Option<Node>)
    ensures r.Some? ==> HasKeyNamed(r.value, name)
    ensures r.Some? ==> exists i :: 0 <= i < |entries| && entries[i] == r.value
                                 && forall j :: i < j < |entries| ==> !HasKeyNamed(entries[j], name)
    ensures r.None? <==> forall i :: 0 <= i < |entries| ==> !HasKeyNamed(entries[i], name)
  {
    if entries == [] then None
    else
      match LastNamed(entries[1..], name)
      case Some(e) => Some(e)
      case None =>
        assert forall i :: 1 <= i < |entries| ==> entries[i] == entries[1..][i - 1];
        if HasKeyNamed(entries[0], name) then Some(entries[0]) else None
  }

  /** What the last entry keyed `name` sets the clause to, or `earlier` when there
      is none. */
  function Pick(earlier: Option<Node>, last: Option<Node>): Option<Node>
  {
    match last
    case None => earlier
    case Some(e) => EntryValue(e)
  }

  function PickConditions(earlier: seq<Node>, last: Option<Node>): seq<Node>
  {
    match last
    case None => earlier
    case Some(e) => Conditions(e)
  }

  /** The scan fails exactly when a `where` entry is a method. */
  lemma {:induction false} ScanEntriesFails(d: Descriptor, entries: seq<Node>)
    decreases |entries|
    ensures ScanEntries(d, entries).Err? <==> exists i :: 0 <= i < |entries| && BadWhere(entries[i])
    ensures ScanEntries(d, entries).Err? ==> ScanEntries(d, entries).error == UndefinedWhere
  {
    if entries != [] {
      var rest := entries[1..];
      assert forall i :: 1 <= i < |entries| ==> entries[i] == rest[i - 1];
      var step := AbsorbEntry(d, entries[0]);
      if step.Ok? {
        ScanEntriesFails(step.value, rest);
        assert !BadWhere(entries[0]);
      } else {
        assert BadWhere(entries[0]);
      }
    }
  }

  /** Otherwise every clause is set by the last entry with its key: the last
      `where` replaces all earlier conditions, and a method entry sets its clause
      to `undefined`. */
  lemma {:induction false} ScanEntriesMeaning(d: Descriptor, entries: seq<Node>)
    decreases |entries|
    requires ScanEntries(d, entries).Ok?
    ensures ScanEntries(d, entries).value == Descriptor(
      Pick(d.source, LastNamed(entries, "from")),
      d.binding,
      PickConditions(d.filters, LastNamed(entries, "where")),
      Pick(d.groupKey, LastNamed(entries, "groupBy")),
      Pick(d.orderKey, LastNamed(entries, "orderBy")),
      Pick(d.projection, LastNamed(entries, "select")))
  {
    if entries != [] {
      var head, rest := entries[0], entries[1..];
      var next := AbsorbEntry(d, head).value;
      ScanEntriesMeaning(next, rest);
      PickShift(d.source, entries, "from");
      PickShift(d.groupKey, entries, "groupBy");
      PickShift(d.orderKey, entries, "orderBy");
      PickShift(d.projection, entries, "select");
      PickConditionsShift(d.filters, entries);
    }
  }

  /** The clause after the first entry, read through the rest. */
  lemma PickShift(earlier: Option<Node>, entries: seq<Node>, name: string)
    requires entries != []
    ensures Pick(earlier, LastNamed(entries, name))
         == Pick(if HasKeyNamed(entries[0], name) then EntryValue(entries[0]) else earlier, LastNamed(entries[1..], name))
  {
  }

  lemma PickConditionsShift(earlier: seq<Node>, entries: seq<Node>)
    requires entries != []
    ensures PickConditions(earlier, LastNamed(entries, "where"))
         == PickConditions(if HasKeyNamed(entries[0], "where") then Conditions(entries[0]) else earlier, LastNamed(entries[1..], "where"))
  {
  }

  /** The recogniser holds exactly when there is a last `from` entry and a last
      `select` entry. */
  lemma RecogniserMeaning(entries: seq<Node>)
    ensures IsLinqQueryObject(ObjectExpr(entries)) <==>
      LastNamed(entries, "from").Some? && LastNamed(entries, "select").Some?
  {
  }

  /** The object form fails exactly when a `where` entry is a method, or no entry
      gives `from` a value. */
  lemma ObjectLoweringFails(entries: seq<Node>)
    ensures ObjectQueryLowering(entries).Err? <==>
      (exists i :: 0 <= i < |entries| && BadWhere(entries[i])) || Pick(None, LastNamed(entries, "from")).None?
  {
    ScanEntriesFails(NoClauses, entries);
    if ScanEntries(NoClauses, entries).Ok? {
      ScanEntriesMeaning(NoClauses, entries);
    }
  }

  /** A lowered query object is `from(source)`, one `.where(c)` per condition of
      the last `where` entry, `.groupBy`, `.orderBy` and `.select` with the values
      of the last such entries, then `.toArray()`; no operand is wrapped. */
  lemma ObjectLoweringSteps(entries: seq<Node>)
    requires ObjectQueryLowering(entries).Ok?
    ensures Pick(None, LastNamed(entries, "from")).Some?
    ensures var r := ObjectQueryLowering(entries).value;
      && Base(r) == From(Pick(None, LastNamed(entries, "from")).value)
      && Steps(r) == WhereSteps(PickConditions([], LastNamed(entries, "where")))
                     + StepIfPresentSteps("groupBy", Pick(None, LastNamed(entries, "groupBy")))
                     + StepIfPresentSteps("orderBy", Pick(None, LastNamed(entries, "orderBy")))
                     + StepIfPresentSteps("select", Pick(None, LastNamed(entries, "select")))
                     + [("toArray", [])]
  {
    ScanEntriesMeaning(NoClauses, entries);
    var d := ScanEntries(NoClauses, entries).value;
    FromIsBase(d.source.value);
    ChainOfSteps(From(d.source.value), d.filters, d.groupKey, d.orderKey, d.projection);
  }

  /** `{ from: xs, where: [a, b], select: e }` lowers to
      `from(xs).where(a).where(b).select(e).toArray()`. */
  lemma ObjectQueryExample(xs: Node, a: Node, b: Node, e: Node)
    ensures ObjectQueryLowering([ObjectProperty(Identifier("from"), xs),
                                 ObjectProperty(Identifier("where"), ArrayExpr([a, b])),
                                 ObjectProperty(Identifier("select"), e)])
      == Ok(Call(Member(Step(Step(Step(From(xs), "where", a), "where", b), "select", e), Identifier("toArray")), []))
  {
    var entries := [ObjectProperty(Identifier("from"), xs),
                    ObjectProperty(Identifier("where"), ArrayExpr([a, b])),
                    ObjectProperty(Identifier("select"), e)];
    var d1 := NoClauses.(source := Some(xs));
    var d2 := d1.(filters := [a, b]);
    var d3 := d2.(projection := Some(e));
    assert entries[1..][1..][1..] == [];
    assert ScanEntries(d3, entries[1..][1..][1..]) == Ok(d3);
    assert ScanEntries(d2, entries[1..][1..]) == Ok(d3);
    assert ScanEntries(d1, entries[1..]) == Ok(d3);
    assert ScanEntries(NoClauses, entries) == Ok(d3);
    assert [a, b][..1] == [a] && [a][..0] == [];
    assert WhereChain(From(xs), [a]) == Step(From(xs), "where", a);
    assert WhereChain(From(xs), [a, b]) == Step(Step(From(xs), "where", a), "where", b);
  }
}
