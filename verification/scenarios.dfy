/**
 * The behaviour that MetamorphTest.java pins down, one lemma per test method,
 * stated over the model: the engine is built from its registrations, fed the
 * test's events, and its emissions are compared with what the test verifies.
 */
module MetamorphScenarios {
  import opened Wrappers
  import opened Events
  import opened Paths
  import opened MapStore
  import opened Routing
  import opened Metamorph

  /** The mocked named-value receiver of the tests. */
  const Mock: string := "namedValueReceiver"

  /** Generous fuel: the tests feed back at most once. */
  const Fuel: nat := 4

  /** `setupSimpleMappingMorph`: `<data source="testEntity.testLiteral" name="outName" />`. */
  function SimpleMapping(): (m: Morph)
    ensures m.stack == []
    ensures Matching(m.rules.table, "testEntity.testLiteral") == [Data("outName", Receiver(Mock))]
    ensures forall p :: p != "testEntity.testLiteral" ==> Matching(m.rules.table, p) == []
    ensures !m.rules.passElse && !m.rules.passEntityEvents
  {
    var rules := Register(NoRules, "testEntity" + [Separator] + "testLiteral", Data("outName", Receiver(Mock)));
    assert "testEntity" + [Separator] + "testLiteral" == "testEntity.testLiteral";
    NewMorph(rules)
  }

  /** Running `events` on `m` raised no exception. */
  predicate RunsCleanly(m: Morph, events: seq<Event>) {
    Run(m, events, Fuel).failure.None?
  }

  /** The calls the mocked receiver saw when `events` ran on `m`. */
  function MockCalls(m: Morph, events: seq<Event>): (r: seq<Emission>)
    ensures forall i :: 0 <= i < |r| ==> r[i].Receive? && r[i].receiver == Mock
  {
    ReceivedBy(Run(m, events, Fuel).out, Mock)
  }

  /**
   * Runs a single literal after `startRecord("")` and the given entity starts:
   * the run raises no exception, and the mock is called once exactly when the
   * literal's path is `testEntity.testLiteral`.
   */
  lemma MockCallsOfLiteral(m: Morph, entities: seq<string>, name: string, value: string)
    requires m == SimpleMapping()
    ensures RunsCleanly(m, [StartRecord("")] + StartEntities(entities) + [Literal(name, value)])
    ensures MockCalls(m, [StartRecord("")] + StartEntities(entities) + [Literal(name, value)]) ==
            if Path(entities, name) == "testEntity.testLiteral" then [Receive(Mock, "outName", value)] else []
  {
    var prefix := [StartRecord("")] + StartEntities(entities);
    RunStartEntities(m, entities);
    var rp := Run(m, prefix, Fuel);
    var path := Path(entities, name);
    var m1 := m.(stack := entities);
    var out: seq<Emission>;
    if path == "testEntity.testLiteral" {
      DispatchDirect(m1.rules, path, value, Fuel);
      out := [Receive(Mock, "outName", value)];
      assert DirectCalls([Data("outName", Receiver(Mock))], value) == out;
      assert LiteralOut(m1, name, value, Fuel) == Success(out);
    } else {
      NoMatchesFromMatching(m1, path);
      out := [];
      assert LiteralOut(m1, name, value, Fuel) == Success(out);
    }
    assert Step(m1, Literal(name, value), Fuel) == Success(Stepped(m1, out));
    RunAppend(m, prefix, [Literal(name, value)], Fuel);
    RunSingle(m1, Literal(name, value));
    ReceivedByAppend(rp.out, out, Mock);
    assert ReceivedBy(out, Mock) == out;
  }

  /** In the simple mapping, a top-level literal reaches the mock exactly when its name is the registered path. */
  lemma MockCallsTopLevel(name: string, value: string)
    ensures RunsCleanly(SimpleMapping(), [StartRecord(""), Literal(name, value)])
    ensures MockCalls(SimpleMapping(), [StartRecord(""), Literal(name, value)]) ==
            if name == "testEntity.testLiteral" then [Receive(Mock, "outName", value)] else []
  {
    MockCallsOfLiteral(SimpleMapping(), [], name, value);
    assert [StartRecord("")] + StartEntities([]) + [Literal(name, value)] == [StartRecord(""), Literal(name, value)];
  }

  /** In the simple mapping, a literal inside one entity reaches the mock exactly when `entity.name` is the registered path. */
  lemma MockCallsInEntity(entity: string, name: string, value: string)
    ensures RunsCleanly(SimpleMapping(), [StartRecord(""), StartEntity(entity), Literal(name, value)])
    ensures MockCalls(SimpleMapping(), [StartRecord(""), StartEntity(entity), Literal(name, value)]) ==
            if entity + [Separator] + name == "testEntity.testLiteral" then [Receive(Mock, "outName", value)] else []
  {
    MockCallsOfLiteral(SimpleMapping(), [entity], name, value);
    assert StartEntities([entity]) == [StartEntity(entity)];
    assert [StartRecord("")] + StartEntities([entity]) + [Literal(name, value)]
        == [StartRecord(""), StartEntity(entity), Literal(name, value)];
    OneEntityPath(entity, name);
  }

  /** `startEntity` for each of `names`, in order. */
  function StartEntities(names: seq<string>): (r: seq<Event>)
    ensures |r| == |names|
    ensures forall i :: 0 <= i < |r| ==> r[i] == StartEntity(names[i])
  {
    if |names| == 0 then [] else [StartEntity(names[0])] + StartEntities(names[1..])
  }

  /** After `startRecord` and the entity starts, exactly those entities are open, in order, and nothing reached the mock. */
  lemma RunStartEntities(m: Morph, names: seq<string>)
    requires m.stack == [] && !m.rules.passEntityEvents
    ensures var r := Run(m, [StartRecord("")] + StartEntities(names), Fuel);
            r.failure.None? && r.final == m.(stack := names) && ReceivedBy(r.out, Mock) == []
  {
    assert [StartRecord("")][1..] == [];
    assert Run(m, [StartRecord("")], Fuel) == Outcome(m, [Emit(StartRecord(""))], None);
    RunAppend(m, [StartRecord("")], StartEntities(names), Fuel);
    OpenEntities(m, [], names);
    assert ReceivedBy([Emit(StartRecord(""))], Mock) == [];
    ReceivedByAppend([Emit(StartRecord(""))], Run(m, StartEntities(names), Fuel).out, Mock);
  }

  lemma {:induction false} OpenEntities(m: Morph, open: seq<string>, names: seq<string>)
    requires !m.rules.passEntityEvents
    ensures var r := Run(m.(stack := open), StartEntities(names), Fuel);
            r.failure.None? && r.final == m.(stack := open + names) && r.out == []
    decreases |names|
  {
    if |names| == 0 {
      assert open + names == open;
    } else {
      var events := StartEntities(names);
      assert events[1..] == StartEntities(names[1..]);
      OpenEntities(m, open + [names[0]], names[1..]);
      assert open + [names[0]] + names[1..] == open + names;
    }
  }

  lemma NoMatchesFromMatching(m: Morph, path: string)
    requires m.rules == SimpleMapping().rules
    requires path != "testEntity.testLiteral"
    ensures Matching(m.rules.table, path) == []
  {
  }

  lemma OneEntityPath(entity: string, name: string)
    ensures Path([entity], name) == entity + [Separator] + name
  {
    PathOfInnermostEntity([], entity, name);
    assert [] + [entity] == [entity];
  }

  lemma RunSingle(m: Morph, e: Event)
    requires Step(m, e, Fuel).Success?
    ensures Run(m, [e], Fuel) == Outcome(Step(m, e, Fuel).value.next, Step(m, e, Fuel).value.out, None)
  {
    assert [e][1..] == [];
    assert Step(m, e, Fuel).value.out + [] == Step(m, e, Fuel).value.out;
  }

  lemma {:induction false} ReceivedByAppend(a: seq<Emission>, b: seq<Emission>, id: string)
    ensures ReceivedBy(a + b, id) == ReceivedBy(a, id) + ReceivedBy(b, id)
  {
    if |a| > 0 {
      assert (a + b)[1..] == a[1..] + b;
      ReceivedByAppend(a[1..], b, id);
    } else {
      assert a + b == b;
    }
  }

  /** shouldMapMatchingPath: a top-level literal named `testEntity.testLiteral` reaches the mock once, renamed. */
  lemma ShouldMapMatchingPath()
    ensures RunsCleanly(SimpleMapping(), [StartRecord(""), Literal("testEntity.testLiteral", "testValue")])
    ensures MockCalls(SimpleMapping(), [StartRecord(""), Literal("testEntity.testLiteral", "testValue")])
            == [Receive(Mock, "outName", "testValue")]
  {
    MockCallsTopLevel("testEntity.testLiteral", "testValue");
  }

  /** shouldNotMapNonMatchingPath. */
  lemma ShouldNotMapNonMatchingPath()
    ensures RunsCleanly(SimpleMapping(), [StartRecord(""), Literal("nonMatching.path", "testValue")])
    ensures MockCalls(SimpleMapping(), [StartRecord(""), Literal("nonMatching.path", "testValue")]) == []
  {
    MockCallsTopLevel("nonMatching.path", "testValue");
    assert |"nonMatching.path"| != |"testEntity.testLiteral"|;
  }

  /** shouldMapMatchingLiteralInMatchingEntity: `testLiteral` inside `testEntity` reaches the mock once. */
  lemma ShouldMapMatchingLiteralInMatchingEntity()
    ensures RunsCleanly(SimpleMapping(), [StartRecord(""), StartEntity("testEntity"), Literal("testLiteral", "testValue")])
    ensures MockCalls(SimpleMapping(), [StartRecord(""), StartEntity("testEntity"), Literal("testLiteral", "testValue")])
            == [Receive(Mock, "outName", "testValue")]
  {
    MockCallsInEntity("testEntity", "testLiteral", "testValue");
    assert "testEntity" + [Separator] + "testLiteral" == "testEntity.testLiteral";
  }

  /** shouldNotMapNonMatchingLiteralInMatchingEntity. */
  lemma ShouldNotMapNonMatchingLiteralInMatchingEntity()
    ensures RunsCleanly(SimpleMapping(), [StartRecord(""), StartEntity("testEntity"), Literal("nonMatching", "testValue")])
    ensures MockCalls(SimpleMapping(), [StartRecord(""), StartEntity("testEntity"), Literal("nonMatching", "testValue")]) == []
  {
    MockCallsInEntity("testEntity", "nonMatching", "testValue");
    var path := "testEntity" + [Separator] + "nonMatching";
    assert path[11] == 'n' && "testEntity.testLiteral"[11] == 't';
  }

  /** shouldNotMapMatchingLiteralInNonMatchingEntity. */
  lemma ShouldNotMapMatchingLiteralInNonMatchingEntity()
    ensures RunsCleanly(SimpleMapping(), [StartRecord(""), StartEntity("nonMatching"), Literal("testLiteral", "testValue")])
    ensures MockCalls(SimpleMapping(), [StartRecord(""), StartEntity("nonMatching"), Literal("testLiteral", "testValue")]) == []
  {
    MockCallsInEntity("nonMatching", "testLiteral", "testValue");
    assert |"nonMatching" + [Separator] + "testLiteral"| != |"testEntity.testLiteral"|;
  }

  /** shouldNotMapLiteralWithoutMatchingEntity: `testLiteral` at top level has path `testLiteral`. */
  lemma ShouldNotMapLiteralWithoutMatchingEntity()
    ensures RunsCleanly(SimpleMapping(), [StartRecord(""), Literal("testLiteral", "testValue")])
    ensures MockCalls(SimpleMapping(), [StartRecord(""), Literal("testLiteral", "testValue")]) == []
  {
    MockCallsTopLevel("testLiteral", "testValue");
    assert |"testLiteral"| != |"testEntity.testLiteral"|;
  }

  /** shouldReturnValueFromNestedMap. */
  lemma ShouldReturnValueFromNestedMap()
    ensures var store := PutMap(NewMorph(NoRules).maps, "testMap", map["outName" := "testValue"]);
            GetMap(store, "testMap").Some? && GetValue(store, "testMap", "outName") == Some("testValue")
  {
    PutThenGetValue(NewMorph(NoRules).maps, "testMap", map["outName" := "testValue"], "outName");
  }

  /** shouldReturnDefaultValueIfMapIsKnownButNameIsUnknown. */
  lemma ShouldReturnDefaultValueIfMapIsKnownButNameIsUnknown()
    ensures var store := PutMap(NewMorph(NoRules).maps, "testMap", map[DefaultMapKey := "defaultValue"]);
            GetValue(store, "testMap", "nameNotInMap") == Some("defaultValue")
  {
    DefaultOnlyTable(NewMorph(NoRules).maps, "testMap", "defaultValue", "nameNotInMap");
  }

  /**
   * The rules of shouldFedbackLiteralsStartingWithAtIntoMetamorph: `@feedback` is an
   * engine source registered at `testLiteral`; `outName` is registered at `@feedback`.
   */
  function FeedbackRules(): (r: Rules)
    ensures Matching(r.table, "testLiteral") == [Data("@feedback", Engine)]
    ensures Matching(r.table, "@feedback") == [Data("outName", Receiver(Mock))]
  {
    // `addNamedValueSource(data1)` makes the engine the receiver of `data1`.
    var data1 := Data("@feedback", Engine);
    var data2 := Data("outName", Receiver(Mock));
    Register(Register(NoRules, "testLiteral", data1), "@feedback", data2)
  }

  /** A top-level literal after `startRecord("")` runs cleanly and emits what the literal's handling emits. */
  lemma RunTopLevelLiteral(m: Morph, name: string, value: string, out: seq<Emission>)
    requires m.stack == []
    requires LiteralOut(m, name, value, Fuel) == Success(out)
    ensures Run(m, [StartRecord(""), Literal(name, value)], Fuel) == Outcome(m, [Emit(StartRecord(""))] + out, None)
  {
    assert Step(m, StartRecord(""), Fuel) == Success(Stepped(m, [Emit(StartRecord(""))]));
    assert Step(m, Literal(name, value), Fuel) == Success(Stepped(m, out));
    RunAppend(m, [StartRecord("")], [Literal(name, value)], Fuel);
    RunSingle(m, StartRecord(""));
    RunSingle(m, Literal(name, value));
    assert [StartRecord("")] + [Literal(name, value)] == [StartRecord(""), Literal(name, value)];
  }

  /** Dispatching at a path whose only match is an `@` engine source ends at the node registered under the source's name. */
  lemma FeedbackDispatch(rules: Rules, path: string, source: string, name: string, id: string, value: string)
    requires IsFeedbackName(source)
    requires Matching(rules.table, path) == [Data(source, Engine)]
    requires Matching(rules.table, source) == [Data(name, Receiver(id))]
    ensures Dispatch(rules, path, value, Fuel) == Success([Receive(id, name, value)])
  {
    FeedbackReenters(rules, path, Data(source, Engine), value, Fuel - 1);
    DispatchDirect(rules, source, value, Fuel - 1);
    assert DirectCalls([Data(name, Receiver(id))], value) == [Receive(id, name, value)];
  }

  /**
   * A top-level literal at `path` whose only match is an engine source named with
   * `@`, whose name in turn matches only a `Data` with receiver `id`, runs without
   * exception and reaches `id` once, renamed by the second node and with its value unchanged.
   */
  lemma FeedbackOnce(rules: Rules, path: string, source: string, name: string, id: string, value: string)
    requires IsFeedbackName(source)
    requires Matching(rules.table, path) == [Data(source, Engine)]
    requires Matching(rules.table, source) == [Data(name, Receiver(id))]
    ensures Run(NewMorph(rules), [StartRecord(""), Literal(path, value)], Fuel).failure.None?
    ensures ReceivedBy(Run(NewMorph(rules), [StartRecord(""), Literal(path, value)], Fuel).out, id)
            == [Receive(id, name, value)]
  {
    var m := NewMorph(rules);
    var out := [Receive(id, name, value)];
    FeedbackDispatch(rules, path, source, name, id, value);
    PathAffixes([], path);
    assert LiteralOut(m, path, value, Fuel) == Success(out);
    RunTopLevelLiteral(m, path, value, out);
    ReceivedByAppend([Emit(StartRecord(""))], out, id);
    assert ReceivedBy([Emit(StartRecord(""))], id) == [];
    assert ReceivedBy(out, id) == out;
  }

  /** shouldFedbackLiteralsStartingWithAtIntoMetamorph: the fed-back value reaches the mock renamed to `outName`. */
  lemma ShouldFeedbackLiteralsStartingWithAt()
    ensures RunsCleanly(NewMorph(FeedbackRules()), [StartRecord(""), Literal("testLiteral", "testValue")])
    ensures MockCalls(NewMorph(FeedbackRules()), [StartRecord(""), Literal("testLiteral", "testValue")])
            == [Receive(Mock, "outName", "testValue")]
  {
    FeedbackOnce(FeedbackRules(), "testLiteral", "@feedback", "outName", Mock, "testValue");
  }

  /** shouldThrowIllegalStateExceptionIfEntityIsNotClosed: one entity is left open at `endRecord`. */
  lemma ShouldThrowIllegalStateIfEntityIsNotClosed()
    ensures var r := Run(NewMorph(NoRules),
                         [StartRecord(""), StartEntity("testEntity"), StartEntity("testEntity"), EndEntity, EndRecord], Fuel);
            r.failure == Some(UnclosedEntities(1)) && IsIllegalState(r.failure.value)
  {
    var m := NewMorph(NoRules);
    var body := [StartEntity("testEntity"), StartEntity("testEntity"), EndEntity];
    assert Opens(body) == 2 && Closes(body) == 1;
    var m0 := m.(stack := []);
    assert Run(m0, body, Fuel).failure.None?;
    EndRecordChecksBalance(m, "", body, Fuel);
    assert [StartRecord("")] + body + [EndRecord] ==
           [StartRecord(""), StartEntity("testEntity"), StartEntity("testEntity"), EndEntity, EndRecord];
  }

  /** The events of shouldPassEntityEvents. */
  const CloneEvents: seq<Event> := [
    StartRecord("1"),
    StartEntity("clone"), Literal("id", "0"), EndEntity,
    StartEntity("clone"), Literal("id", "1"), EndEntity,
    EndRecord]

  /** What shouldPassEntityEvents verifies, in order (the first `startEntity` is left unchecked there). */
  const CloneExpected: seq<Event> := [
    StartRecord("1"),
    Literal("clone.id", "0"), EndEntity,
    StartEntity("clone"), Literal("clone.id", "1"), EndEntity,
    EndRecord]

  /** What the pass-through directives emit for the events of shouldPassEntityEvents. */
  const ClonePassed: seq<Event> := [
    StartRecord("1"),
    StartEntity("clone"), Literal("clone.id", "0"), EndEntity,
    StartEntity("clone"), Literal("clone.id", "1"), EndEntity,
    EndRecord]

  /** An entity `e` holding the single literal `n = v`. */
  function EntityWithLiteral(e: string, n: string, v: string): (r: seq<Event>)
    ensures |r| == 3
  {
    [StartEntity(e), Literal(n, v), EndEntity]
  }

  /** A record holding two sibling entities `e`, each with one literal `n`. */
  function TwoSiblings(id: string, e: string, n: string, v0: string, v1: string): (r: seq<Event>)
    ensures |r| == 8
  {
    [StartRecord(id)] + (EntityWithLiteral(e, n, v0) + (EntityWithLiteral(e, n, v1) + [EndRecord]))
  }

  lemma CloneShapes()
    ensures CloneEvents == TwoSiblings("1", "clone", "id", "0", "1")
    ensures ClonePassed == TwoSiblings("1", "clone", "clone.id", "0", "1")
  {
  }

  lemma TwoSiblingsNested(id: string, e: string, n: string, v0: string, v1: string)
    ensures Nested(0, TwoSiblings(id, e, n, v0, v1))
  {
    var c := TwoSiblings(id, e, n, v0, v1);
    assert Nested(0, c[7..]);
    assert Nested(1, c[6..]);
    assert Nested(1, c[5..]);
    assert Nested(0, c[4..]);
    assert Nested(1, c[3..]);
    assert Nested(1, c[2..]);
    assert Nested(0, c[1..]);
  }

  lemma PassThroughCons(stack: seq<string>, e: Event, rest: seq<Event>)
    ensures PassThrough(stack, [e] + rest) == [Passed(stack, e)] + PassThrough(StackAfter(stack, e), rest)
  {
    assert ([e] + rest)[0] == e;
    assert ([e] + rest)[1..] == rest;
  }

  /** At top level, an entity with one literal passes through with the literal renamed to its path. */
  lemma PassEntityWithLiteral(e: string, n: string, v: string, rest: seq<Event>)
    ensures PassThrough([], EntityWithLiteral(e, n, v) + rest) ==
            EntityWithLiteral(e, Path([e], n), v) + PassThrough([], rest)
  {
    var none: seq<string> := [];
    var r3 := [EndEntity] + rest;
    var r2 := [Literal(n, v)] + r3;
    var r1 := [StartEntity(e)] + r2;
    var tail := PassThrough(none, rest);
    assert StackAfter([e], EndEntity) == none;
    PassThroughCons([e], EndEntity, rest);
    assert PassThrough([e], r3) == [EndEntity] + tail;
    PassThroughCons([e], Literal(n, v), r3);
    assert PassThrough([e], r2) == [Literal(Path([e], n), v)] + ([EndEntity] + tail);
    assert StackAfter(none, StartEntity(e)) == [e];
    PassThroughCons(none, StartEntity(e), r2);
    assert PassThrough(none, r1) == [StartEntity(e)] + ([Literal(Path([e], n), v)] + ([EndEntity] + tail));
    assert EntityWithLiteral(e, n, v) + rest == r1;
  }

  lemma PassTwoSiblings(id: string, e: string, n: string, v0: string, v1: string)
    ensures PassThrough([], TwoSiblings(id, e, n, v0, v1)) == TwoSiblings(id, e, Path([e], n), v0, v1)
  {
    var none: seq<string> := [];
    var last := [EndRecord];
    PassThroughCons(none, EndRecord, []);
    assert last == [EndRecord] + [];
    PassEntityWithLiteral(e, n, v1, last);
    PassEntityWithLiteral(e, n, v0, EntityWithLiteral(e, n, v1) + last);
    PassThroughCons(none, StartRecord(id), EntityWithLiteral(e, n, v0) + (EntityWithLiteral(e, n, v1) + last));
  }

  lemma CloneEventsPassed()
    ensures PassThrough([], CloneEvents) == ClonePassed
  {
    CloneShapes();
    PassTwoSiblings("1", "clone", "id", "0", "1");
    OneEntityPath("clone", "id");
    assert "clone" + [Separator] + "id" == "clone.id";
  }

  lemma CloneExpectedInOrder()
    ensures InOrder(CloneExpected, ClonePassed)
  {
    var e, p := CloneExpected, ClonePassed;
    assert InOrder(e[7..], p[8..]);
    assert InOrder(e[6..], p[7..]);
    assert InOrder(e[5..], p[6..]);
    assert InOrder(e[4..], p[5..]);
    assert InOrder(e[3..], p[4..]);
    assert InOrder(e[2..], p[3..]);
    assert InOrder(e[1..], p[2..]);
    assert InOrder(e[1..], p[1..]);
  }

  /**
   * shouldPassEntityEvents: under `_passEntityEvents` and `_else`, both `clone`
   * entities are passed on and each `id` is re-emitted as `clone.id`; the test's
   * expected calls appear in order.
   */
  lemma ShouldPassEntityEvents()
    ensures var r := Run(NewMorph(Rules([], true, true)), CloneEvents, Fuel);
            && r.failure.None?
            && Emitted(r.out) == ClonePassed
            && InOrder(CloneExpected, Emitted(r.out))
  {
    CloneShapes();
    TwoSiblingsNested("1", "clone", "id", "0", "1");
    PassThroughRun(NewMorph(Rules([], true, true)), CloneEvents, Fuel);
    CloneEventsPassed();
    CloneExpectedInOrder();
  }
}
