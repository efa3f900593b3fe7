# CScript rewrite engine, modelled in Dafny

CScript is JavaScript with a few extra pieces of syntax:
- a pipeline operator `a |> f`;
- `subject.match({ pattern: value, ... })` expressions;
- `withUpdate(base, patch)` record updates;
- LINQ-style queries, recognised either in a comma sequence of tokens `from, x, in, xs, where, c, select, e` or in an object literal `{ from, where, select, orderBy, groupBy }`;
- C#-style property declarations, a class property whose value is an object with a `get` or `set` key;
- operator overloading through `static $operator_plus(a, b)` methods.

`transpile` parses the source and walks the syntax tree once. Each handler lowers one sugared shape to plain JavaScript. The tree is then printed. This project models that walk and every lowering it performs, on an algebraic syntax tree, and proves what each lowering produces and what the whole pass does to a program.

Modules, in dependency order:
- `Syntax`: the tree (`Node`), `Option`/`Result`, and the failures the lowerings raise.
- `Text`: the string operations the engine relies on, namely `startsWith`, `includes`, first-occurrence `replace`, `split('..')`, `trim` and decimal `parseInt`.
- `Values`: a small evaluator for expressions, used to state what lowered code means. It covers identifiers, literals, member reads, strict equality, comparisons, `&&`, conditionals and object literals with spreads.
- `Accessors`: property declarations, i.e. `isPropertyDeclaration`, `createPropertyMethods` and `isAutoProperty`.
- `MatchExpr` and `MatchMeaning`:
  - the `match` lowering and `createPatternCondition`;
  - proofs that the lowered conditional chain selects the first clause whose pattern accepts the subject.
- `WithUpdate`: `transformWithExpression`, and the proof that the lowered object evaluates to the base overridden by the patch.
- `QueryChain`: the method chain `from(src).where(..)*.groupBy?.orderBy?.select?.toArray()` that both query forms build, and its list of steps.
- `TokenQuery`: `isLinqQuery` and `transformLinqQuery`, with the lambdas of `createLambdaFromCondition`/`createLambdaFromSelector`.
- `ObjectQuery`: `isLinqQueryObject` and `transformLinqQueryObject`.
- `Overload`:
  - `isOverloadableOperator`, `getOperatorKey` and `inferExpressionType`;
  - the registry of overloads, with a `Register` method that updates it in place;
  - `tryCreateOperatorOverload`.
- `Transform`: the visitor (`Visit`), which threads the registry through the walk in visiting order; and `Plain`, the trees no handler touches.
- `PassLaws`: what the pass does to each sugared shape.
- `InertGlue`: proofs that each lowering's output over plain parts is plain.
- `PassExamples`: whole programs, such as declaring an overload before or after its use, and running the pass twice.

The walk follows the traversal the source uses:
- It is pre-order.
- Children are visited in field order.
- A node replaced by a handler is visited again as its replacement.
- A child assigned by a handler (`init =`, `expression =`) is walked into.
- A replacement is visited by visiting the original sub-trees it holds, in the order they appear in it. The `InertGlue` lemmas, together with `Transform.PlainUnchanged`, show that the glue a lowering adds is declined by every handler, so this is the same visit.

The loops of the source are methods proved equal to the functions that specify them:
- `TransformMatchExpression` builds the conditional chain from the last clause backwards.
- `TransformWithExpression` pushes the kept entries.
- `TransformLinqQuery` and `TransformLinqQueryObject` scan the tokens or entries, then extend the chain.

The source keeps its registry of overloads in one mutable map that the handlers share. `Overload.OperatorRegistry` is that map as an object: its `Register` method updates the map in place and is proved to leave exactly `Overload.Registered` of the old map. The walk itself threads the registry as a value and applies `Registered`, so `Transform.Visit` does not use the class.

## Definitions

These definitions model source functions and carry no contract of their own. The lemmas named beside each one state what it does:
- `MatchExpr.PatternCondition` is `createPatternCondition` (src/transpile.ts:331-376). It is specified by `MatchMeaning.ConditionMeaning`, `MatchMeaning.StringConditionMeaning`, `MatchExpr.MatchChainShape` and `MatchExpr.EmptyObjectPatternFails`.
- `MatchExpr.MatchLowering` is `transformMatchExpression` (src/transpile.ts:293-326). It is specified by `MatchExpr.TransformMatchExpression`, `MatchExpr.MatchLoweringShape` and `MatchMeaning.LoweredMatchMeaning`.
- `WithUpdate.WithUpdateLowering` is `transformWithExpression` (src/transpile.ts:264-288). It is specified by `WithUpdate.TransformWithExpression`, `WithUpdate.WithUpdateShape`, `WithUpdate.WithUpdateMeaning` and `WithUpdate.WithUpdateOpaquePatchMeaning`.
- `TokenQuery.IsLinqQuery` is `isLinqQuery` (src/transpile.ts:381-406). It is used by `TokenQuery.MissingSelectAccepted` and `PassLaws.TokenQueryPass`, which exhibit or assume it; no lemma characterises it on its own.
- `TokenQuery.ParseTokens` is the clause scan of `transformLinqQuery` (src/transpile.ts:411-445). It is specified by `TokenQuery.ParseRender`, `TokenQuery.AbsorbAllMeaning` and `TokenQuery.TransformLinqQuery`.
- `TokenQuery.TokenQueryLowering` is the whole of `transformLinqQuery` (src/transpile.ts:411-498). It is specified by `TokenQuery.TransformLinqQuery`, `TokenQuery.TokenLoweringSteps`, `TokenQuery.TokenLoweringFails` and `TokenQuery.QueryExample`.
- `ObjectQuery.IsLinqQueryObject` is `isLinqQueryObject` (src/transpile.ts:519-535). It is specified by `ObjectQuery.RecogniserMeaning`.
- `ObjectQuery.ObjectQueryLowering` is `transformLinqQueryObject` (src/transpile.ts:540-600). It is specified by `ObjectQuery.TransformLinqQueryObject`, `ObjectQuery.ObjectLoweringSteps`, `ObjectQuery.ObjectLoweringFails` and `ObjectQuery.ObjectQueryExample`.
- `Accessors.IsAutoProperty` is `isAutoProperty` (src/transpile.ts:182-200). It decides nothing the walk uses, because `transformAutoProperty` does nothing; `Accessors.GeneratedAccessorsAreAuto` shows that the generated accessors pass it.
- `Accessors.IsPropertyDeclaration` is `isPropertyDeclaration` (src/transpile.ts:213-219). It is used by `PassLaws.PropertyDeclarationPass` and `PassLaws.PropertyDeclarationFails`, which assume it; no lemma characterises it on its own.
- `Overload.InferExpressionType` is `inferExpressionType` (src/transpile.ts:707-740). It is specified by `Overload.InferredFromHead`, `Overload.LiteralsNotOverloaded` and `InertGlue.MatchValueUntyped`.
- `Overload.IsOverloadableOperator` is `isOverloadableOperator` (src/transpile.ts:605-608). It is specified by `Overload.OperatorKeyTable`.
- `Overload.Registered` is `registerOperatorOverload` (src/transpile.ts:662-681) on a registry value. It is specified by `Overload.RegisteredMeaning`, `Overload.RegisterLastWins` and `Overload.OperatorRegistry.Register`.
- `Transform.Registration` is the `ClassMethod` handler's registration step (src/transpile.ts:77-84). It is specified by `Transform.RegistrationExtends`, `PassLaws.OperatorMethodVisit` and `PassLaws.DeclarationRegisters`.
- `Transform.VisitChildren` is the traversal into a node that no handler replaces. It has its own row below, and `Transform.SugarlessVisit` connects it to `Transform.Visit`.

## Model

| member | source | states |
|---|---|---|
| Transform.Visit | src/transpile.ts:54-169 | the walk with one shared registry: a walk that does not fail ends with a registry that extends the one it started with, keeping every class and every operator key registered before (a method may be replaced) |
| Transform.VisitChildren | src/transpile.ts:54-169 | walking into the children of a node no handler replaces, with a class declaration as the enclosing class of its members, only grows the registry |
| Transform.VisitSeq | src/transpile.ts:54-169 | a list of statements or operands keeps its length through the walk, and the registry only grows |
| Transform.VisitMember | src/transpile.ts:77-109 | walking a class member, which a property declaration turns into two accessors, only grows the registry |
| Transform.VisitCall | src/transpile.ts:112-138 | walking a call, lowered first when it is a match or a withUpdate, only grows the registry |
| Transform.VisitMatch | src/transpile.ts:112-125 | walking a match call, replaced by its lowering, whose arms and subject are walked in turn, only grows the registry |
| Transform.VisitWithUpdate | src/transpile.ts:127-138 | walking a withUpdate call, replaced by the merged object, whose base and kept entries are walked in turn, only grows the registry |
| Transform.VisitOverload | src/transpile.ts:68-73 | walking a resolved overload's operands only grows the registry |
| Transform.VisitTokenQuery | src/transpile.ts:141-147 | walking a token query's lowered parts only grows the registry |
| Transform.VisitQueryDeclarator | src/transpile.ts:159-167 | walking a query declarator's binding and lowered parts only grows the registry |
| Transform.VisitDescriptor | src/transpile.ts:411-498 | walking the parts of a scanned query keeps its binding, which parts are present and how many filters it has, and only grows the registry |
| Transform.RegistrationExtends | src/transpile.ts:77-84 | reaching a method, operator method or not, never removes a class or an operator from the registry |
| Transform.PlainUnchanged | src/transpile.ts:54-169 | a tree with no sugar at any node is left exactly as it is by the pass |
| Transform.SugarlessVisit | src/transpile.ts:54-169 | a node no handler rewrites is visited through its children only (or as a call, when it is one) |
| Transform.LeafUnchanged | src/transpile.ts:54-169 | a leaf no handler rewrites leaves both the tree and the registry unchanged |
| PassLaws.PipelineAsCall | src/transpile.ts:58-65 | `a \|> f` is visited exactly as the call `f(a)`, with no other checks, so the call is itself open to the other handlers |
| PassLaws.PipelineChain | src/transpile.ts:58-65 | `x \|> f \|> g` over plain parts becomes `g(f(x))` |
| PassLaws.OverloadPass | src/transpile.ts:68-73 | an overloadable binary whose overload resolves becomes exactly the resolved static call |
| PassLaws.OperatorMethodVisit | src/transpile.ts:77-84 | a method is kept as it is; visiting it changes only the registry |
| PassLaws.DeclarationRegisters | src/transpile.ts:77-84 | a class declaring `static $operator_x()` is kept and registers that method under `x` for the class |
| PassLaws.ClassExpressionRegistersNothing | src/transpile.ts:662-665 | an operator method in a class expression outside any class declaration registers nothing |
| PassLaws.MatchPass | src/transpile.ts:112-126 | `subject.match({...})` over plain parts becomes exactly its lowering |
| PassLaws.MatchPassFails | src/transpile.ts:112-126 | when the match lowering fails, the whole transform fails with its error |
| PassLaws.WithUpdatePass | src/transpile.ts:129-137 | `withUpdate(base, patch)` over plain parts becomes exactly the merged object |
| PassLaws.WithUpdatePassFails | src/transpile.ts:129-137 | when the merge fails, the whole transform fails with its error |
| PassLaws.TokenQueryPass | src/transpile.ts:141-147 | a recognised token query over plain tokens becomes exactly its method chain |
| PassLaws.TokenQueryPassFails | src/transpile.ts:141-147 | when a recognised token query cannot be lowered, the transform fails with that error |
| PassLaws.ExpressionStatementRedundant | src/transpile.ts:144-157 | the statement handler's assignment of the lowered query gives the same tree and registry that walking into the statement and letting the sequence handler replace the query would give, so removing the statement handler would not change the output |
| PassLaws.ObjectQueryPass | src/transpile.ts:159-167 | `const q = { from, ..., select }` over plain parts gets the query chain as its initialiser, with the binding kept |
| PassLaws.ObjectQueryPassFails | src/transpile.ts:159-167 | when a recognised query object cannot be lowered, the transform fails with that error |
| PassLaws.PropertyDeclarationPass | src/transpile.ts:99-109 | a class whose only member is `p = { get; set; }` ends up with exactly the getter and the setter of `p`, and the registry is unchanged |
| PassLaws.PropertyDeclarationFails | src/transpile.ts:99-109 | a property declaration whose key is no identifier makes the transform fail |
| PassLaws.AccessorsArePlain | src/transpile.ts:224-259 | the generated accessors hold no sugar and register nothing |
| PassLaws.KeptPlain | src/transpile.ts:279-285 | the entries a merge keeps from a plain patch are plain |
| PassExamples.DeclaredThenUsed | src/transpile.ts:54-169 | `class Vector { static $operator_plus() {} } v1 + v2;` rewrites the sum to `Vector.$operator_plus(v1, v2)` and leaves the class as it is |
| PassExamples.UsedBeforeDeclared | src/transpile.ts:54-169 | the same two statements in the other order are left unchanged, because the registry is still empty when the sum is visited |
| PassExamples.NotIdempotent | src/transpile.ts:129-167 | a withUpdate whose patch is `{ from, select }` becomes a query object on the first pass and a query chain on the second: the pass is not idempotent |
| PassExamples.MergedIsQuery | src/transpile.ts:519-600 | the merged object `{ ...a, from: x, select: y }` is recognised as a query object, and the spread is skipped |
| InertGlue.MatchOutputPlain | src/transpile.ts:293-326 | a match lowering over plain parts is plain: no handler rewrites the arrow function, the conditional chain or the throw |
| InertGlue.ConditionOutputPlain | src/transpile.ts:331-376 | a pattern condition over a plain key is plain |
| InertGlue.MatchValueUntyped | src/transpile.ts:707-740 | `__matchValue` has no guessed type, so comparisons against it are never taken as overloads |
| InertGlue.WithUpdateOutputPlain | src/transpile.ts:264-288 | a merged object over plain parts is plain |
| InertGlue.TokenQueryOutputPlain | src/transpile.ts:411-514 | a token query's chain over plain tokens is plain |
| InertGlue.ObjectQueryOutputPlain | src/transpile.ts:540-600 | a query object's chain over plain entries is plain |
| InertGlue.OverloadOutputPlain | src/transpile.ts:613-657 | a resolved static call over plain operands is plain |
| Accessors.CreatePropertyMethods | src/transpile.ts:224-259 | the accessor pair can be built exactly when the property's key is an identifier |
| Accessors.PropertyMethodsMeaning | src/transpile.ts:224-259 | the result is exactly two non-static methods, `get p` then `set p`; the getter reads `this._p` (undefined when absent), the setter writes `value` to `this._p`, and reading after writing gives the value written |
| Accessors.SetterKeepsOtherFields | src/transpile.ts:241-256 | the setter leaves every other field of the object as it was |
| Accessors.BackingField | src/transpile.ts:224-259 | the backing field's name differs from the property's name |
| Accessors.GeneratedAccessorsAreAuto | src/transpile.ts:182-200 | the generated getter and setter are themselves auto-properties in the sense of `isAutoProperty` |
| MatchExpr.TransformMatchExpression | src/transpile.ts:293-326 | the reverse loop that builds the chain from the last clause produces the match lowering |
| MatchExpr.MatchChainShape | src/transpile.ts:306-316 | the chain can be built exactly when every clause is a plain property with a valid pattern; it then has one arm per clause in declaration order, each arm pairing the clause's condition with its value, and it ends in the throw of `No match found` |
| MatchExpr.MatchLoweringShape | src/transpile.ts:293-326 | the lowering calls an arrow function whose only parameter is `__matchValue`, with the subject as its only argument; the arrow's body has as many arms as there are clauses, then the throw |
| MatchExpr.FailureReachesFront | src/transpile.ts:310-316 | when the chain of the clauses from one clause on fails, the whole chain fails with that same error; since the chain is built from the last clause backwards, of several invalid clauses the last one's error is reported |
| MatchExpr.FieldTests | src/transpile.ts:362-372 | an object pattern gives one test per property |
| MatchExpr.EmptyObjectPatternFails | src/transpile.ts:362-372 | an empty object pattern fails with a type error, since the reduce has no initial value |
| MatchExpr.RangeBounds | src/transpile.ts:343-356 | a pattern string is read as a range only when it contains `..` |
| MatchExpr.RangeOfNumerals | src/transpile.ts:343-356 | the string `"s..e"` of two integer numerals is read as the range from s to e, exactly in unbounded integers (see Left out for the double precision of `parseInt`) |
| MatchMeaning.ConditionMeaning | src/transpile.ts:331-376 | the condition built for a pattern evaluates to whether the pattern accepts the value: `_` always does, a range when the value is a number within it, an object pattern when every listed field is strictly equal, anything else by strict equality |
| MatchMeaning.StringConditionMeaning | src/transpile.ts:343-360 | a string pattern's condition means a range test when both halves parse, strict equality with the string otherwise |
| MatchMeaning.RangeTestMeaning | src/transpile.ts:348-356 | `v >= s && v <= e` holds exactly for a number s <= v <= e |
| MatchMeaning.EqualityMeaning | src/transpile.ts:357-376 | `v === key` compares the value strictly with the key's value |
| MatchMeaning.FieldTestMeaning | src/transpile.ts:362-372 | one field test holds exactly when the value's field equals the pattern's |
| MatchMeaning.FieldTestsMeaning | src/transpile.ts:362-372 | the field tests together hold exactly when every listed field matches, checked left to right |
| MatchMeaning.ConjoinMeaning | src/transpile.ts:362-372 | the left-folded `&&` of the tests evaluates as the tests checked left to right, stopping at the first false |
| MatchMeaning.AndRightSnoc | src/transpile.ts:362-372 | checking one more test at the end extends the left-to-right check |
| MatchMeaning.ChainMeaning | src/transpile.ts:306-316 | the conditional chain selects the value of the first clause whose pattern accepts `__matchValue`, and reaches the throw when none does |
| MatchMeaning.LoweredMatchMeaning | src/transpile.ts:293-326 | calling the lowered match on a subject gives the value of the first clause whose pattern accepts the subject |
| WithUpdate.TransformWithExpression | src/transpile.ts:264-288 | the loop that pushes the patch's entries produces the merge lowering |
| WithUpdate.WithUpdateShape | src/transpile.ts:264-288 | with an object patch, the output starts with `...base` and then holds exactly the patch's properties and spreads |
| WithUpdate.MergeEntriesAppend | src/transpile.ts:279-285 | the kept entries of two lists joined are the kept entries of each, joined: kept entries stay in their original order |
| WithUpdate.MergeEntriesMembership | src/transpile.ts:279-285 | an entry is kept exactly when it is a property or a spread of the patch |
| WithUpdate.MergeEntriesKeepsAll | src/transpile.ts:279-285 | a patch made only of properties and spreads is kept whole |
| WithUpdate.MergeEntriesLength | src/transpile.ts:279-285 | the merge never adds entries |
| WithUpdate.WithUpdateMeaning | src/transpile.ts:264-288 | the merged object evaluates to the base's fields overridden by the patch's |
| WithUpdate.WithUpdateOpaquePatchMeaning | src/transpile.ts:265-272 | with a patch that is no object literal, the result `{...base, ...patch}` evaluates to the base overridden by the patch's fields |
| WithUpdate.EntriesEvaluatedAreKept | src/transpile.ts:279-285 | an object literal with a value has only properties and spreads, none of which the merge drops |
| Values.EvalEntriesOnTop | src/transpile.ts:276-287 | the fields an object literal's entries produce on top of earlier ones override those earlier fields |
| QueryChain.ChainOfSteps | src/transpile.ts:462-497 | the chain is `from(src)`, then one `where` per filter in order, then `groupBy`, `orderBy` and `select` when present, with `toArray()` outermost |
| QueryChain.WhereChainSteps | src/transpile.ts:468-474 | the where steps follow the filters, one per filter, in order |
| QueryChain.WhereSteps | src/transpile.ts:468-474 | there is one `where(f)` step per filter f, at its position |
| QueryChain.WhereStepsSnoc | src/transpile.ts:468-474 | one more filter adds one more `where` step at the end |
| QueryChain.WhereChainSnoc | src/transpile.ts:468-474 | one more filter wraps the chain in one more `.where(f)` |
| QueryChain.StepIfPresentReads | src/transpile.ts:475-494 | an optional step is appended exactly when its argument is present |
| QueryChain.FromIsBase | src/transpile.ts:462-467 | `from(src)` is the chain's start and has no steps |
| QueryChain.Required | src/transpile.ts:462-467 | a chain can be started exactly when a source was found |
| TokenQuery.TransformLinqQuery | src/transpile.ts:411-498 | the scanning loop, with its skips, and the chain building produce the token lowering |
| TokenQuery.BuildTokenChain | src/transpile.ts:462-497 | the loop over the where conditions and the optional steps build the chain of the scanned query |
| TokenQuery.AddWhereLambdas | src/transpile.ts:468-474 | each where condition becomes `.where(x => c)` in order; with conditions and no identifier binding the transform fails |
| TokenQuery.ExtendIfPresent | src/transpile.ts:475-494 | an optional clause becomes `.name(x => e)` when present and is skipped when absent |
| TokenQuery.Lambda | src/transpile.ts:503-514 | the lambda `x => e` is built exactly when the binding is an identifier |
| TokenQuery.Parameter | src/transpile.ts:503-514 | an arrow parameter exists exactly when the binding is an identifier, and it is that identifier |
| TokenQuery.WrapElements | src/transpile.ts:468-474 | every where condition is wrapped as `x => c`, at its own position |
| TokenQuery.WrapSnoc | src/transpile.ts:468-474 | wrapping one more condition adds one more lambda at the end |
| TokenQuery.AbsorbAllMeaning | src/transpile.ts:423-459 | the scan's result: the last `from` gives the source and binding, the where conditions are collected in source order, and the last `groupby`, `orderby` and `select` win |
| TokenQuery.LastFrom | src/transpile.ts:426-433 | the `from` the scan keeps is the last `from` clause of the query, and there is none exactly when the query has no `from` clause |
| TokenQuery.ParseRender | src/transpile.ts:423-459 | tokenising a query's clauses and scanning them back gives the same clauses, so `from` takes the tokens one and three places after it |
| TokenQuery.TokenLoweringFails | src/transpile.ts:411-498 | the lowering fails exactly when no `from` clause was found, or when a lambda is needed and the binding is not an identifier |
| TokenQuery.TokenLoweringSteps | src/transpile.ts:411-498 | a successful lowering starts from the last `from`'s source, then the wrapped where conditions in order, then groupBy, orderBy and select when present, with `toArray()` last |
| TokenQuery.MissingSelectAccepted | src/transpile.ts:381-445 | `from x in xs select` with nothing after `select` is recognised and lowered to `from(xs).toArray()` |
| TokenQuery.QueryExample | src/transpile.ts:411-498 | `from x in items where c select e` becomes `from(items).where(x => c).select(x => e).toArray()` |
| ObjectQuery.TransformLinqQueryObject | src/transpile.ts:540-600 | the loop over the entries and the chain building produce the object lowering |
| ObjectQuery.EntryValue | src/transpile.ts:549-566 | only object properties carry a value |
| ObjectQuery.LastNamed | src/transpile.ts:549-566 | the entry that wins for a key is the last one with that key, and there is none exactly when no entry has it |
| ObjectQuery.ScanEntriesMeaning | src/transpile.ts:549-566 | the scan keeps, for each of `from`, `where`, `groupBy`, `orderBy` and `select`, the last entry with that key, overwriting earlier ones |
| ObjectQuery.ScanEntriesFails | src/transpile.ts:552-557 | the scan fails exactly when a `where` entry is no object property, and fails with the error of reading `type` of the entry's undefined `value` |
| ObjectQuery.PickShift | src/transpile.ts:549-566 | the key's last entry is found by looking at the first entry, then at the rest |
| ObjectQuery.PickConditionsShift | src/transpile.ts:552-557 | the `where` conditions are read in the same way |
| ObjectQuery.RecogniserMeaning | src/transpile.ts:519-535 | an object literal is a query object exactly when it has a `from` and a `select` entry |
| ObjectQuery.ObjectLoweringFails | src/transpile.ts:540-600 | the lowering fails exactly when a `where` entry is no property, or when no source was given |
| ObjectQuery.ObjectLoweringSteps | src/transpile.ts:540-600 | a successful lowering starts from the last `from`, then one `where` per condition of the last `where` in order, then groupBy, orderBy and select when present, with `toArray()` last |
| ObjectQuery.ObjectQueryExample | src/transpile.ts:540-600 | `{ from: xs, where: [a, b], select: e }` becomes `from(xs).where(a).where(b).select(e).toArray()`, with the conditions not wrapped in lambdas |
| Overload.OperatorKey | src/transpile.ts:686-702 | an operator outside the table is its own key |
| Overload.OperatorKeyTable | src/transpile.ts:686-702 | the overloadable operators are exactly the eleven the table names, and no two of them share a key |
| Overload.InferredFromHead | src/transpile.ts:707-740 | the guessed type of a member chain is that of the expression it starts from, and is either `Vector` or the class of a `new` expression |
| Overload.Head | src/transpile.ts:734-737 | the start of a member chain is no member access |
| Overload.OperatorRegistry.constructor | src/transpile.ts:51 | the registry starts empty |
| Overload.OperatorRegistry.Register | src/transpile.ts:662-681 | registering updates the registry to the registration of the method under its class |
| Overload.RegisteredMeaning | src/transpile.ts:662-681 | after registering `$operator_x` in class C, C is present and maps `x` to the method; every other class and every other operator of C is as before |
| Overload.RegisterLastWins | src/transpile.ts:673-678 | a later registration of the same operator in the same class overwrites the earlier one |
| Overload.Provided | src/transpile.ts:619-650 | a type provides an overload exactly when it is known, non-empty, registered and has an entry for the operator's key; the overload names that type and the method of that entry |
| Overload.TryCreateOperatorOverload | src/transpile.ts:613-657 | a resolved overload is a call with the operands as its arguments, in their original order |
| Overload.OverloadResolution | src/transpile.ts:613-657 | an overload is produced exactly when either operand's type provides one; the left operand's type wins when both do; when neither does, the result is none and the node stays |
| Overload.LiteralsNotOverloaded | src/transpile.ts:707-740 | numeric literals have no guessed type, so an operator between two of them is never rewritten |
| Overload.VectorExample | src/transpile.ts:707-740 | with `Vector.$operator_plus` registered, `v1 + v2` and `2 + v2` both become `Vector.$operator_plus(..)` |
| Syntax.KeyName | src/transpile.ts:550-562 | a key has a name exactly when it is an identifier |
| Text.IndexOf | src/transpile.ts:346 | the first occurrence of a pattern at or after a position, or none when there is none |
| Text.ReplaceFirst | src/transpile.ts:671 | a string without the pattern is left as it is |
| Text.ReplacePrefix | src/transpile.ts:80 | removing a prefix the string starts with leaves the rest of the string |
| Text.RangeParts | src/transpile.ts:346-347 | a string splits around `..` exactly when it contains `..` |
| Text.RangePartsOfJoin | src/transpile.ts:347 | splitting `a..b`, where neither part has a dot, gives back a and b |
| Text.TrimStart | src/transpile.ts:347 | trimming the start removes only whitespace and leaves a suffix that does not start with whitespace |
| Text.TrimEnd | src/transpile.ts:347 | trimming the end removes only whitespace and leaves a prefix that does not end with whitespace |
| Text.DigitPrefixLength | src/transpile.ts:347 | the digits `parseInt` reads are the longest run of digits at the start |
| Text.ParseDecimal | src/transpile.ts:347 | `parseInt` reads back the decimal numeral of every integer, exactly in unbounded integers (see Left out for the double precision of `parseInt`) |
| Text.TrimDecimal | src/transpile.ts:347 | a decimal numeral has no whitespace to trim |
| Text.DigitsValueOfDigits | src/transpile.ts:347 | the digits of a natural number have that number as their value |
| Text.DecimalDotFree | src/transpile.ts:347 | a decimal numeral has no dot |

## Left out

- Parsing, printing and the traversal library (src/transpile.ts:1-7, 43-48, 171-176) are not part of this model. The tree is a datatype, and the traversal is the explicit recursive `Transform.Visit`.
- Transform.Visit: a replacement is visited through the original sub-trees it holds, not by walking the built tree again. Walking the built tree again has no termination measure, because a match or a query grows the tree. The `InertGlue` lemmas show that the built glue holds nothing any handler would rewrite.
- Transform.Transpile: has no contract of its own. What it does is stated by the `PassLaws` and `PassExamples` lemmas.
- Transform.PlainUnchanged: states that the tree is unchanged, not which registry results. A plain tree may still hold operator methods that register.
- The `config` argument (src/transpile.ts:41) is never read, so no feature toggle has any effect and none is modelled.
- `findParent` is replaced by passing the enclosing class declaration's name down the walk. A class expression keeps the enclosing declaration's name; an anonymous class declaration is not part of the syntax.
- The `console.log` in `registerOperatorOverload` is left out, as output.
- Text.ParseInt reads an optional sign and then decimal digits after trimming. The radix prefixes `parseInt` also accepts (`0x` and the like) and its Unicode whitespace set are not modelled.
- ParseInt and RangeBounds: the parsed number is an exact unbounded integer. JavaScript's `parseInt` returns a double, so a numeral above 2^53 is rounded, and a numeral of about 310 or more digits gives `Infinity`, which the `!isNaN` test (src/transpile.ts:348) lets through. The range bounds the model emits therefore agree with the code's only for numerals of magnitude at most 2^53.
- ParseDecimal: reads back every integer exactly. The code's `parseInt` does this only for integers of magnitude at most 2^53.
- RangeOfNumerals: states exact bounds for every pair of integer numerals. The code's bounds agree only when both numerals have magnitude at most 2^53; above that they are the nearest doubles, or `Infinity`.
- Numeric literals are integers: the `NumericLiteral` case of `Syntax.Node` holds an `int`. Fractional numeric literals, such as `1.5` as a match pattern, are not part of the syntax.
- `transformAutoProperty` (src/transpile.ts:205-208) does nothing, so the visit keeps an auto-property as it is. Only `isAutoProperty` is modelled.
- A `ClassProperty` node outside a class body, a shape the parser never produces but the datatype allows, makes the visit fail with an `InvalidNode` error instead of being expanded in place.
- Tree validation by the node builders is modelled only for a missing child, a non-identifier arrow parameter, a non-identifier member property and a missing name. The general "this child must be an expression" checks are not modelled.
- Computed keys, array holes, decorators, super classes, type annotations and the remaining JavaScript node types are not part of the syntax; sub-trees of these kinds are not modelled.
- The handlers update the tree in place. The model returns a new tree instead, and no node is shared between two places, so aliasing is not captured.
- Values: the evaluator answers `None` where a value would depend on JavaScript coercions or on code it does not model, and the meaning lemmas make no claim in that case.
- `createPatternCondition`'s branch for `Literal` nodes (src/transpile.ts:333-336) cannot fire, because the parser never produces that node type.
- src/cli.ts and src/run.ts are not part of this model. They read files, load configuration, write output and evaluate the generated code.

## Behaviour worth knowing

- The pass is not idempotent (`PassExamples.NotIdempotent`). The declarator handler (src/transpile.ts:159-168) runs on entry to a declarator, before its initialiser is walked. If the initialiser is a `withUpdate` call (src/transpile.ts:127-138) whose patch has `from` and `select` keys, the call becomes a query object only after the declarator handler has run. So only a second pass lowers that object to a query.
- The object form of a query passes its `where`, `select`, `orderBy` and `groupBy` operands to the chain unwrapped, not as one-parameter arrow functions (src/transpile.ts:569-595; `ObjectQuery.ObjectQueryExample`). A later `where` entry replaces an earlier one (src/transpile.ts:552-557; `ObjectQuery.ScanEntriesMeaning`).
- The token form accepts a `select` with nothing after it and emits no `select` step (src/transpile.ts:381-445; `TokenQuery.MissingSelectAccepted`).
- The `config` argument of `transpile` (src/transpile.ts:41) is never read, so every lowering always applies.
- An operator used before the class that overloads it is declared is not rewritten. Registration happens during the same walk (src/transpile.ts:58-84; `PassExamples.UsedBeforeDeclared`).
- The traversal enters an expression statement before the sequence inside it. For a query written as a statement, the statement handler (src/transpile.ts:153-157) is the one that lowers it, and the sequence handler (src/transpile.ts:144-150) then sees a call, not a sequence. The statement handler's assignment gives the same result the sequence handler's replacement would (`PassLaws.ExpressionStatementRedundant`), so removing it would not change the output.
- The parser is configured with the `pipelineOperator` plugin only (src/transpile.ts:43-48). Under standard JavaScript grammar the text `from x in xs where c select e` is not an expression, and `{ get; set; }` is not an object literal; only `{ get, set }` is. Since `in` is a reserved word, no parsed program holds an identifier named `in`, so `isLinqQuery` (src/transpile.ts:381-406) never accepts a tree the parser produces, and the token form of a query is never lowered in practice. A property declaration is reached only through an object with `get` or `set` keys (src/transpile.ts:213-219). The model starts from the tree and states what the handlers do to such trees, whatever text produces them.
- `getOperatorKey` looks its table up as a plain object (src/transpile.ts:686-702). Inherited names such as `constructor` never reach it, because only the eleven operators `isOverloadableOperator` accepts are passed in.
