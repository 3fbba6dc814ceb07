# Metamorph transformation engine — a Dafny model

This project models the core of Metafacture's Metamorph engine as its unit
tests (`MetamorphTest.java`) pin it down. The model is derived from
`MetamorphTest.java`; the `Metamorph` and `Data` classes are not part of this
model, so it is an abstract, test-driven specification. The engine consumes the stream protocol
`startRecord`, `startEntity`, `literal`, `endEntity` and `endRecord`. It keeps
a stack of open entity names. It computes each literal's dotted path and
routes the literal to every `Data` node registered under that path. A `Data`
node renames the value and forwards it, either to a named-value receiver or
back into the engine, which re-dispatches `@` names (feedback). The engine also
keeps a store of named lookup tables with default-key fallback.

Everything is immutable data and pure functions:

- `wrappers.dfy` (`Wrappers`): `Option` and `Result`.
- `events.dfy` (`Events`): stream events; emissions, which are events sent
  downstream or `receive` calls on a named-value receiver; failures.
- `paths.dfy` (`Paths`): joining entity names and a literal name into a dotted
  path, and splitting it back.
- `map_store.dfy` (`MapStore`): `putMap`, `getMap`, `getValue`.
- `dispatch.dfy` (`Routing`): the registration table, `Data` nodes, dispatch
  with feedback.
- `metamorph.dfy` (`Metamorph`): the event-by-event state machine, running an
  event sequence, and the pass-through directives `_passEntityEvents` and
  `_else`.
- `scenarios.dfy` (`MetamorphScenarios`): each test method restated as a lemma
  over the model.

Feedback cycles are not guarded by the engine. The model therefore gives
dispatch an explicit `fuel` bound: one unit per feedback re-entry. Running out
is reported as the failure `FeedbackTooDeep`.

`_passEntityEvents` forwards both `startEntity` and `endEntity`:
`MetamorphTest.java:220` checks that `startEntity("clone")` reaches the
receiver, and line 217 leaves the first one unchecked.

## Model

| member | source | states |
|---|---|---|
| `Paths.JoinAffixes` | metamorph/src/test/java/org/metafacture/metamorph/MetamorphTest.java:145 | a joined path starts with its first segment and ends with its last |
| `Paths.PathAffixes` | metamorph/src/test/java/org/metafacture/metamorph/MetamorphTest.java:92-101 | a literal's path ends with the literal's name; with no open entity it is the name itself; otherwise it starts with the outermost entity |
| `Paths.Split` | metamorph/src/test/java/org/metafacture/metamorph/MetamorphTest.java:145 | splitting a path yields at least one segment, and no segment holds a separator |
| `Paths.SplitJoin` | metamorph/src/test/java/org/metafacture/metamorph/MetamorphTest.java:145 | joining segments without separators and splitting the result gives the segments back |
| `Paths.JoinSplit` | metamorph/src/test/java/org/metafacture/metamorph/MetamorphTest.java:145 | splitting any string and joining the parts rebuilds the string |
| `Paths.PathFlatten` | metamorph/src/test/java/org/metafacture/metamorph/MetamorphTest.java:70-101 | a literal inside entities `outer + inner` has the same path as a literal inside `outer` named by the dotted rest of the path |
| `Paths.PathOfInnermostEntity` | metamorph/src/test/java/org/metafacture/metamorph/MetamorphTest.java:92-101 | literal `n` inside entity `e` has the path of literal `e.n` one level out |
| `Paths.PathSegments` | metamorph/src/test/java/org/metafacture/metamorph/MetamorphTest.java:92-135 | the path begins with all open entity names in open order, then `.`; with plain names it splits into exactly the open entities plus the literal name |
| `MapStore.PutMap` | metamorph/src/test/java/org/metafacture/metamorph/MetamorphTest.java:153-155 | after `putMap(name, t)`, `getMap(name)` is `t`, every other name is unchanged, and the store knows `name` |
| `MapStore.GetMap` | metamorph/src/test/java/org/metafacture/metamorph/MetamorphTest.java:155 | a table is found exactly when its name was installed |
| `MapStore.GetValue` | metamorph/src/test/java/org/metafacture/metamorph/MetamorphTest.java:156-166 | a value is found exactly when the table exists and holds the key or the default key, and it is a value of that table |
| `MapStore.PutThenGetValue` | metamorph/src/test/java/org/metafacture/metamorph/MetamorphTest.java:149-157 | after `putMap(name, t)`, `getValue(name, k)` is `t[k]` for every key of `t` |
| `MapStore.PutThenGetDefault` | metamorph/src/test/java/org/metafacture/metamorph/MetamorphTest.java:159-167 | a key the table lacks resolves to the default entry when there is one, and to no value otherwise |
| `MapStore.DefaultOnlyTable` | metamorph/src/test/java/org/metafacture/metamorph/MetamorphTest.java:159-167 | a table holding only the default key answers every key with the default value |
| `MapStore.PutLeavesOtherTables` | metamorph/src/test/java/org/metafacture/metamorph/MetamorphTest.java:149-157 | installing one table changes no lookup in another |
| `Events.ReceivedBy` | metamorph/src/test/java/org/metafacture/metamorph/MetamorphTest.java:76-77 | the calls on one receiver are exactly the emissions that are calls on it |
| `Events.Emitted` | metamorph/src/test/java/org/metafacture/metamorph/MetamorphTest.java:215-223 | the downstream events are exactly those of the emissions |
| `Routing.Matching` | metamorph/src/test/java/org/metafacture/metamorph/MetamorphTest.java:145 | a `Data` matches a path exactly when it is registered under that path |
| `Routing.MatchingSnoc` | metamorph/src/test/java/org/metafacture/metamorph/MetamorphTest.java:175-180 | one more registration appends its `Data` to the matches of its own path only |
| `Routing.Register` | metamorph/src/test/java/org/metafacture/metamorph/MetamorphTest.java:141-146 | `registerNamedValueReceiver(path, d)` makes `d` the last match of `path` and changes no other path's matches |
| `Routing.Deliver` | metamorph/src/test/java/org/metafacture/metamorph/MetamorphTest.java:142-144 | a `Data` hands exactly one call to its receiver, with the node's name and the unchanged value; to the engine, a non-`@` name becomes one downstream literal |
| `Routing.DeliverAll` | metamorph/src/test/java/org/metafacture/metamorph/MetamorphTest.java:141-146 | every emission carries the dispatched value, and every receiver call comes from one of the nodes or from a registered node |
| `Routing.Dispatch` | metamorph/src/test/java/org/metafacture/metamorph/MetamorphTest.java:70-78 | through any chain of feedback, every emission carries the dispatched value and every receiver call comes from a registered `Data`; the only failure is the depth bound |
| `Routing.DirectCalls` | metamorph/src/test/java/org/metafacture/metamorph/MetamorphTest.java:76-77 | one call per `Data`, in order, with its name and the value |
| `Routing.DeliverAllDirect` | metamorph/src/test/java/org/metafacture/metamorph/MetamorphTest.java:141-146 | nodes that do not feed back deliver exactly one call each, in order |
| `Routing.DispatchDirect` | metamorph/src/test/java/org/metafacture/metamorph/MetamorphTest.java:70-78 | without feedback, dispatch at a path makes one call per registered `Data`, in registration order |
| `Routing.DispatchRoutesByPath` | metamorph/src/test/java/org/metafacture/metamorph/MetamorphTest.java:70-135 | without feedback, receiver `id` gets `(n, v)` if and only if a `Data(n, id)` is registered under the path and `v` is the dispatched value |
| `Routing.NoMatches` | metamorph/src/test/java/org/metafacture/metamorph/MetamorphTest.java:80-89 | a path no registration names has no matches |
| `Routing.UnregisteredPathDeliversNothing` | metamorph/src/test/java/org/metafacture/metamorph/MetamorphTest.java:80-89 | dispatch at an unregistered path emits nothing |
| `Routing.FeedbackReenters` | metamorph/src/test/java/org/metafacture/metamorph/MetamorphTest.java:169-187 | when the only match is an engine source named `@x`, dispatching at the path equals dispatching at `@x` one level deeper |
| `Routing.DispatchFuelMonotone` | metamorph/src/test/java/org/metafacture/metamorph/MetamorphTest.java:169-187 | a dispatch that succeeds with some depth bound gives the same result with any larger bound |
| `Routing.DeliverAllFuelMonotone` | metamorph/src/test/java/org/metafacture/metamorph/MetamorphTest.java:169-187 | the same, for a sequence of nodes |
| `Routing.DeliverFuelMonotone` | metamorph/src/test/java/org/metafacture/metamorph/MetamorphTest.java:169-187 | the same, for one node |
| `Metamorph.NewMorph` | metamorph/src/test/java/org/metafacture/metamorph/MetamorphTest.java:63-67 | a new engine has the given rules, no open entity, and `getMap` finds no table under any name |
| `Metamorph.LiteralOut` | metamorph/src/test/java/org/metafacture/metamorph/MetamorphTest.java:199-223 | a literal with no match emits nothing, or under `_else` one literal with its full path and value; all emissions carry the value |
| `Metamorph.Step` | metamorph/src/test/java/org/metafacture/metamorph/MetamorphTest.java:189-223 | `startEntity` pushes, `endEntity` pops or fails when nothing is open, `endRecord` fails with an illegal-state error exactly when entities are open, `startRecord` clears the stack; entity events go downstream only under `_passEntityEvents`; rules and maps never change |
| `Metamorph.Run` | metamorph/src/test/java/org/metafacture/metamorph/MetamorphTest.java:189-196 | running events never changes rules or maps; a failure is structural or the depth bound |
| `Metamorph.RunAppend` | metamorph/src/test/java/org/metafacture/metamorph/MetamorphTest.java:189-196 | running `a + b` is running `a` then `b`, stopping at the first failure |
| `Metamorph.Opens` | metamorph/src/test/java/org/metafacture/metamorph/MetamorphTest.java:192-193 | at most one start per event |
| `Metamorph.Closes` | metamorph/src/test/java/org/metafacture/metamorph/MetamorphTest.java:194 | at most one end per event |
| `Metamorph.RunDepth` | metamorph/src/test/java/org/metafacture/metamorph/MetamorphTest.java:189-196 | inside a record, open entities after a clean run = before + started - ended |
| `Metamorph.EndRecordChecksBalance` | metamorph/src/test/java/org/metafacture/metamorph/MetamorphTest.java:189-196 | a record whose body runs cleanly ends cleanly if and only if every started entity was ended; otherwise it fails with an illegal-state error counting the open entities |
| `Metamorph.EntityEventsSwallowed` | metamorph/src/test/java/org/metafacture/metamorph/MetamorphTest.java:199-204 | without `_passEntityEvents`, whatever registrations and `_else` setting the rules hold, entity events are not forwarded |
| `Metamorph.UnmatchedLiteral` | metamorph/src/test/java/org/metafacture/metamorph/MetamorphTest.java:80-135 | a literal whose path is not registered never reaches a named-value receiver; it is re-emitted under its full path if and only if `_else` is set |
| `Metamorph.LiteralRoutesByPath` | metamorph/src/test/java/org/metafacture/metamorph/MetamorphTest.java:70-135 | without feedback, a literal reaches receiver `id` as `(n, v)` if and only if `Data(n, id)` is registered under the open entities plus the literal name, and `v` is the literal's value |
| `Metamorph.EntityEquivalentToDottedName` | metamorph/src/test/java/org/metafacture/metamorph/MetamorphTest.java:70-101 | literal `n` inside entity `e` is handled exactly like literal `e.n` one level out |
| `Metamorph.PassThrough` | metamorph/src/test/java/org/metafacture/metamorph/MetamorphTest.java:199-223 | reference output of the pass-through directives: one output event per input event |
| `Metamorph.PassThroughStep` | metamorph/src/test/java/org/metafacture/metamorph/MetamorphTest.java:199-223 | with only the two directives, each event is emitted once, literals renamed to their full path, and the stack follows the stream's structure |
| `Metamorph.PassThroughRun` | metamorph/src/test/java/org/metafacture/metamorph/MetamorphTest.java:199-223 | with only `_passEntityEvents` and `_else`, a well-nested stream runs without failure, emits exactly the reference output, and calls no receiver |
| `MetamorphScenarios.SimpleMapping` | metamorph/src/test/java/org/metafacture/metamorph/MetamorphTest.java:141-146 | the only match is `Data("outName")` under `testEntity.testLiteral`; no directive is set |
| `MetamorphScenarios.MockCallsOfLiteral` | metamorph/src/test/java/org/metafacture/metamorph/MetamorphTest.java:70-135 | in the simple mapping, a literal after any entity starts runs without exception and reaches the mock once if its path is `testEntity.testLiteral`, and never otherwise |
| `MetamorphScenarios.MockCallsTopLevel` | metamorph/src/test/java/org/metafacture/metamorph/MetamorphTest.java:70-89 | a top-level literal runs without exception and reaches the mock once exactly when its name is `testEntity.testLiteral` |
| `MetamorphScenarios.MockCallsInEntity` | metamorph/src/test/java/org/metafacture/metamorph/MetamorphTest.java:92-125 | a literal inside one entity runs without exception and reaches the mock once exactly when `entity.name` is `testEntity.testLiteral` |
| `MetamorphScenarios.RunStartEntities` | metamorph/src/test/java/org/metafacture/metamorph/MetamorphTest.java:95-96 | after `startRecord` and entity starts, exactly those entities are open in order |
| `MetamorphScenarios.ShouldMapMatchingPath` | metamorph/src/test/java/org/metafacture/metamorph/MetamorphTest.java:69-78 | the run raises no exception and the mock receives `("outName", "testValue")` exactly once |
| `MetamorphScenarios.ShouldNotMapNonMatchingPath` | metamorph/src/test/java/org/metafacture/metamorph/MetamorphTest.java:80-89 | the run raises no exception and the mock is never called |
| `MetamorphScenarios.ShouldMapMatchingLiteralInMatchingEntity` | metamorph/src/test/java/org/metafacture/metamorph/MetamorphTest.java:91-101 | the run raises no exception and the mock receives `("outName", "testValue")` exactly once |
| `MetamorphScenarios.ShouldNotMapNonMatchingLiteralInMatchingEntity` | metamorph/src/test/java/org/metafacture/metamorph/MetamorphTest.java:103-113 | the run raises no exception and the mock is never called |
| `MetamorphScenarios.ShouldNotMapMatchingLiteralInNonMatchingEntity` | metamorph/src/test/java/org/metafacture/metamorph/MetamorphTest.java:115-125 | the run raises no exception and the mock is never called |
| `MetamorphScenarios.ShouldNotMapLiteralWithoutMatchingEntity` | metamorph/src/test/java/org/metafacture/metamorph/MetamorphTest.java:126-135 | the run raises no exception and the mock is never called |
| `MetamorphScenarios.ShouldReturnValueFromNestedMap` | metamorph/src/test/java/org/metafacture/metamorph/MetamorphTest.java:148-157 | the map is found and `outName` maps to `testValue` |
| `MetamorphScenarios.ShouldReturnDefaultValueIfMapIsKnownButNameIsUnknown` | metamorph/src/test/java/org/metafacture/metamorph/MetamorphTest.java:159-167 | an unknown key yields `defaultValue` |
| `MetamorphScenarios.FeedbackRules` | metamorph/src/test/java/org/metafacture/metamorph/MetamorphTest.java:171-180 | `@feedback` is the only match of `testLiteral`, and `outName` is the only match of `@feedback` |
| `MetamorphScenarios.FeedbackDispatch` | metamorph/src/test/java/org/metafacture/metamorph/MetamorphTest.java:169-187 | dispatching at a path whose only match is an `@` engine source yields exactly the one call of the node registered under the source's name |
| `MetamorphScenarios.FeedbackOnce` | metamorph/src/test/java/org/metafacture/metamorph/MetamorphTest.java:169-187 | a literal whose only match is an `@` engine source runs without exception and reaches, through feedback, the receiver registered at that name once, renamed and with its value unchanged |
| `MetamorphScenarios.ShouldFeedbackLiteralsStartingWithAt` | metamorph/src/test/java/org/metafacture/metamorph/MetamorphTest.java:169-187 | the run raises no exception and the fed-back value reaches the mock once as `("outName", "testValue")` |
| `MetamorphScenarios.ShouldThrowIllegalStateIfEntityIsNotClosed` | metamorph/src/test/java/org/metafacture/metamorph/MetamorphTest.java:189-196 | the run fails with an illegal-state error, one entity open |
| `MetamorphScenarios.PassTwoSiblings` | metamorph/src/test/java/org/metafacture/metamorph/MetamorphTest.java:206-213 | two sibling entities with one literal each pass through with the literals renamed to `entity.literal` |
| `MetamorphScenarios.ShouldPassEntityEvents` | metamorph/src/test/java/org/metafacture/metamorph/MetamorphTest.java:198-224 | the run succeeds; the downstream events are both `clone` entities with their `clone.id` literals, between `startRecord("1")` and `endRecord`; the test's expected calls appear in that order |

## Left out

- Wildcard path patterns: only exact paths are matched, because the tests register only exact paths.
- The `source` argument and the record and entity counters of `receive`: the tests match them with `any()` and `anyInt()`.
- Rule XML parsing (`InlineMorph`): rules are given as a registration list plus the two pass-through flags.
- `HelpDebugMetafacture.java`: file I/O, compression choice and pipeline wiring, outside the engine.
- Mockito and JUnit mechanics and `DefaultStreamReceiver`: the model records the emissions and the receiver calls in order instead.
- `Maps.DEFAULT_MAP_KEY`: the `Maps` interface is not part of this model; its value is taken to be `"__default"`, and no proof depends on it beyond differing from the test keys.
- `endEntity` with no open entity fails with `NoOpenEntity`. The tests do not assert this; the model reports it as a structural error.
- `getMap` of an unknown name and `getValue` of a missing key in a table without a default return `None`. The tests do not assert these cases.
- Events outside a record: the model does not track an idle state, because the tests never send events before `startRecord`.
- `Routing.Dispatch`: feedback depth is bounded by explicit fuel, while the engine recurses without bound on cyclic feedback. `DispatchFuelMonotone` shows that a successful result does not depend on the bound.
- `Metamorph.Run`: when feedback exceeds the depth bound partway through one event, the calls that event already made are dropped together with it; only the emissions of the earlier events are kept.
- `_else` applies only to literals from the input stream. Values fed back under an `@` name are not re-emitted by it.
- Receivers that write to the map store during processing: no such node is modelled, so events never change the maps.
- Data nodes other than the renaming `Data` (functions, collectors): the tests use only `Data`.
