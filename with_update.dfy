/** The lowering of `withUpdate(base, patch)` (src/transpile.ts:264-288): an object
    literal that spreads `base` and then lists the patch's own entries, so that the
    patch's fields override the base's. */
module WithUpdate {
  import opened Syntax
  import opened Values

  /** The visitor's test: a call of the identifier `withUpdate` with two arguments. */
  predicate IsWithUpdateCall(n: Node)
  {
    n.Call? && IsIdentifierNamed(n.callee, "withUpdate") && |n.arguments| == 2
  }

  /** The entries of a patch literal that are carried over: properties and spreads. */
  predicate IsMergeEntry(entry: Node)
  {
    entry.ObjectProperty? || entry.Spread?
  }

  /** The carried-over entries, in their original order. */
  function MergeEntries(entries: seq<Node>): seq<Node>
  {
    if entries == [] then []
    else
      var last := entries[|entries| - 1];
      MergeEntries(entries[..|entries| - 1]) + (if IsMergeEntry(last) then [last] else [])
  }

  /** `t.spreadElement(e)`: the builder accepts only an expression, so a spread of a
      spread is refused. */
  function SpreadOf(e: Node): Result<Node>
  {
    if e.Spread? then Err(InvalidNode("spread argument must be an expression")) else Ok(Spread(e))
  }

  /** `transformWithExpression(base, patch)` as a value. */
  function WithUpdateLowering(base: Node, patch: Node): Result<Node>
  {
    var head :- SpreadOf(base);
    if !patch.ObjectExpr? then
      var tail :- SpreadOf(patch);
      Ok(ObjectExpr([head, tail]))
    else
      Ok(ObjectExpr([head] + MergeEntries(patch.properties)))
  }

  /** `transformWithExpression`: the merged literal is built by pushing the kept
      entries one by one after the base spread. */
  method TransformWithExpression(base: Node, patch: Node) returns (r: Result<Node>)
    ensures r == WithUpdateLowering(base, patch)
  {
    if !patch.ObjectExpr? {
      if base.Spread? || patch.Spread? {
        return Err(InvalidNode("spread argument must be an expression"));
      }
      return Ok(ObjectExpr([Spread(base), Spread(patch)]));
    }
    if base.Spread? {
      return Err(InvalidNode("spread argument must be an expression"));
    }
    var entries := patch.properties;
    var properties := [Spread(base)];
    for i := 0 to |entries|
      invariant properties == [Spread(base)] + MergeEntries(entries[..i])
    {
      var entry := entries[i];
      assert entries[..i + 1][..i] == entries[..i];
      if entry.ObjectProperty? {
        properties := properties + [entry];
      } else if entry.Spread? {
        properties := properties + [entry];
      }
    }
    assert entries[..|entries|] == entries;
    r := Ok(ObjectExpr(properties));
  }

  /** An entry is carried over exactly when it is a property or a spread of the
      patch. */
  lemma {:induction false} MergeEntriesMembership(entries: seq<Node>, e: Node)
    ensures e in MergeEntries(entries) <==> e in entries && IsMergeEntry(e)
  {
    if entries != [] {
      var init := entries[..|entries| - 1];
      MergeEntriesMembership(init, e);
      assert entries == init + [entries[|entries| - 1]];
    }
  }

  /** Filtering a concatenation filters each part. */
  lemma {:induction false} MergeEntriesAppend(a: seq<Node>, b: seq<Node>)
    ensures MergeEntries(a + b) == MergeEntries(a) + MergeEntries(b)
  {
    if b == [] {
      assert a + b == a;
    } else {
      var init := b[..|b| - 1];
      assert (a + b)[..|a + b| - 1] == a + init;
      MergeEntriesAppend(a, init);
    }
  }

  /** A patch made only of properties and spreads is carried over unchanged. */
  lemma {:induction false} MergeEntriesKeepsAll(entries: seq<Node>)
    requires forall i :: 0 <= i < |entries| ==> IsMergeEntry(entries[i])
    ensures MergeEntries(entries) == entries
  {
    if entries != [] {
      var init := entries[..|entries| - 1];
      MergeEntriesKeepsAll(init);
      assert entries == init + [entries[|entries| - 1]];
    }
  }

  /** The carried-over entries are never more than the patch's. */
  lemma {:induction false} MergeEntriesLength(entries: seq<Node>)
    ensures |MergeEntries(entries)| <= |entries|
  {
    if entries != [] {
      MergeEntriesLength(entries[..|entries| - 1]);
    }
  }

  /** The lowered literal starts with `...base` and then holds exactly the patch's
      properties and spreads, in order. */
  lemma WithUpdateShape(base: Node, entries: seq<Node>)
    requires !base.Spread?
    ensures var r := WithUpdateLowering(base, ObjectExpr(entries));
      && r.Ok? && r.value.ObjectExpr?
      && r.value.properties[0] == Spread(base)
      && (forall e :: e in r.value.properties[1..] <==> e in entries && IsMergeEntry(e))
  {
    var r := WithUpdateLowering(base, ObjectExpr(entries));
    assert r.value.properties[1..] == MergeEntries(entries);
    forall e ensures e in r.value.properties[1..] <==> e in entries && IsMergeEntry(e) {
      MergeEntriesMembership(entries, e);
    }
  }

  /** A spread of an object in front of entries starts them from its fields. */
  lemma SpreadHead(base: Node, entries: seq<Node>, env: Env, b: map<string, Value>)
    requires Eval(base, env) == Some(Obj(b))
    ensures EvalEntries([Spread(base)] + entries, map[], env) == EvalEntries(entries, b, env)
  {
    var all := [Spread(base)] + entries;
    assert all[1..] == entries;
    assert EvalEntry(Spread(base), map[], env) == Some(map[] + b);
    assert map[] + b == b;
  }

  /** A literal patch whose entries all evaluate is kept whole behind the base. */
  lemma LiteralPatchLowering(base: Node, entries: seq<Node>, env: Env)
    requires !base.Spread?
    requires EvalEntries(entries, map[], env).Some?
    ensures WithUpdateLowering(base, ObjectExpr(entries)) == Ok(ObjectExpr([Spread(base)] + entries))
  {
    EntriesEvaluatedAreKept(entries, map[], env);
    MergeEntriesKeepsAll(entries);
  }

  /** For an object-literal patch, the lowered literal evaluates to the base's
      fields overridden by the patch's. */
  lemma WithUpdateMeaning(base: Node, entries: seq<Node>, env: Env, b: map<string, Value>, p: map<string, Value>)
    requires Eval(base, env) == Some(Obj(b))
    requires Eval(ObjectExpr(entries), env) == Some(Obj(p))
    ensures WithUpdateLowering(base, ObjectExpr(entries)).Ok?
    ensures Eval(WithUpdateLowering(base, ObjectExpr(entries)).value, env) == Some(Obj(b + p))
  {
    assert EvalEntries(entries, map[], env) == Some(p);
    LiteralPatchLowering(base, entries, env);
    SpreadHead(base, entries, env, b);
    EvalEntriesOnTop(entries, b, env);
  }

  /** For any other patch, the lowered literal evaluates to the base's fields
      overridden by whatever the patch spreads. */
  lemma WithUpdateOpaquePatchMeaning(base: Node, patch: Node, env: Env, b: map<string, Value>, x: Value)
    requires !patch.ObjectExpr? && !patch.Spread?
    requires Eval(base, env) == Some(Obj(b))
    requires Eval(patch, env) == Some(x) && SpreadFields(x).Some?
    ensures WithUpdateLowering(base, patch).Ok?
    ensures Eval(WithUpdateLowering(base, patch).value, env) == Some(Obj(b + SpreadFields(x).value))
  {
    var m := SpreadFields(x).value;
    assert WithUpdateLowering(base, patch) == Ok(ObjectExpr([Spread(base), Spread(patch)]));
    assert [Spread(base)] + [Spread(patch)] == [Spread(base), Spread(patch)];
    SpreadHead(base, [Spread(patch)], env, b);
    assert [Spread(patch)][1..] == [];
    assert EvalEntry(Spread(patch), b, env) == Some(b + m);
  }

  /** Entries that evaluate are all properties or spreads. */
  lemma {:induction false} EntriesEvaluatedAreKept(entries: seq<Node>, acc: map<string, Value>, env: Env)
    requires EvalEntries(entries, acc, env).Some?
    ensures forall i :: 0 <= i < |entries| ==> IsMergeEntry(entries[i])
  {
    if entries != [] {
      var next := EvalEntry(entries[0], acc, env).value;
      EntriesEvaluatedAreKept(entries[1..], next, env);
      forall i | 0 <= i < |entries| ensures IsMergeEntry(entries[i]) {
        if i > 0 {
          assert entries[i] == entries[1..][i - 1];
        }
      }
    }
  }
}
