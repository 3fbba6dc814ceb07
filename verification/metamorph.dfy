/**
 * The engine's structural state machine: it keeps the stack of open entity
 * names, computes the path of every literal, routes literals through the
 * dispatch table, forwards record events downstream, and forwards entity
 * events and unmatched literals when the pass-through directives ask for it.
 */
module Metamorph {
  import opened Wrappers
  import opened Events
  import opened Paths
  import opened MapStore
  import opened Routing

  /** The engine: its compiled rules, its map store and the open entities (outermost first). */
  datatype Morph = Morph(rules: Rules, maps: Store, stack: seq<string>)

  /** A freshly built engine with the given rules: no maps, no open entity. */
  function NewMorph(rules: Rules): (m: Morph)
    ensures m.rules == rules && m.stack == []
    ensures forall name :: GetMap(m.maps, name).None?
  {
    Morph(rules, EmptyStore, [])
  }

  /** The engine after one event, and what handling that event emitted. */
  datatype Stepped = Stepped(next: Morph, out: seq<Emission>)

  /**
   * `literal(name, value)`: the literal's path is the open entities plus `name`.
   * Matching `Data` nodes receive it; with no match, `_else` re-emits it under its path.
   */
  function LiteralOut(m: Morph, name: string, value: string, fuel: nat): (r: Result<seq<Emission>, Failure>)
    ensures r.Failure? ==> r.error == FeedbackTooDeep
    ensures r.Success? ==> CarriesValue(r.value, value)
    ensures r.Success? ==> CallsFrom(r.value, [], m.rules.table)
    ensures |Matching(m.rules.table, Path(m.stack, name))| == 0 ==>
              r == Success(if m.rules.passElse then [Emit(Literal(Path(m.stack, name), value))] else [])
  {
    var path := Path(m.stack, name);
    if |Matching(m.rules.table, path)| == 0 then
      Success(if m.rules.passElse then [Emit(Literal(path, value))] else [])
    else
      Dispatch(m.rules, path, value, fuel)
  }

  /** Handles one stream event. Rules and maps are never changed by an event. */
  function Step(m: Morph, e: Event, fuel: nat): (r: Result<Stepped, Failure>)
    ensures r.Success? ==> r.value.next.rules == m.rules && r.value.next.maps == m.maps
    ensures r.Failure? ==> IsIllegalState(r.error) || (e.Literal? && r.error == FeedbackTooDeep)
    ensures e.StartRecord? ==> r == Success(Stepped(m.(stack := []), [Emit(e)]))
    ensures e.StartEntity? ==> r.Success? && r.value.next.stack == m.stack + [e.name]
    ensures e.EndEntity? ==> (r.Success? <==> |m.stack| > 0)
    ensures e.EndEntity? && r.Success? ==> r.value.next.stack + [m.stack[|m.stack| - 1]] == m.stack
    ensures e.EndEntity? && r.Failure? ==> r.error == NoOpenEntity
    ensures (e.StartEntity? || e.EndEntity?) && r.Success? ==>
              r.value.out == (if m.rules.passEntityEvents then [Emit(e)] else [])
    ensures e.EndRecord? ==> (r.Success? <==> |m.stack| == 0)
    ensures e.EndRecord? && r.Success? ==> r.value == Stepped(m, [Emit(EndRecord)])
    ensures e.EndRecord? && r.Failure? ==> r.error == UnclosedEntities(|m.stack|)
    ensures e.Literal? && r.Success? ==> r.value.next == m && CarriesValue(r.value.out, e.value)
  {
    match e
    case StartRecord(_) =>
      Success(Stepped(m.(stack := []), [Emit(e)]))
    case StartEntity(name) =>
      Success(Stepped(m.(stack := m.stack + [name]), if m.rules.passEntityEvents then [Emit(e)] else []))
    case Literal(name, value) =>
      var out :- LiteralOut(m, name, value, fuel);
      Success(Stepped(m, out))
    case EndEntity =>
      if |m.stack| == 0 then Failure(NoOpenEntity)
      else Success(Stepped(m.(stack := m.stack[..|m.stack| - 1]), if m.rules.passEntityEvents then [Emit(e)] else []))
    case EndRecord =>
      if |m.stack| > 0 then Failure(UnclosedEntities(|m.stack|))
      else Success(Stepped(m, [Emit(EndRecord)]))
  }

  /**
   * The result of feeding a sequence of events: the engine afterwards, everything
   * emitted, and the failure that stopped processing, if any. The emissions of
   * the events before the failing one are kept, as the downstream receivers have
   * already seen them; those of the failing event itself are not.
   */
  datatype Outcome = Outcome(final: Morph, out: seq<Emission>, failure: Option<Failure>)

  function Run(m: Morph, events: seq<Event>, fuel: nat): (r: Outcome)
    ensures r.final.rules == m.rules && r.final.maps == m.maps
    ensures r.failure.Some? ==> IsIllegalState(r.failure.value) || r.failure.value == FeedbackTooDeep
    decreases |events|
  {
    if |events| == 0 then Outcome(m, [], None)
    else
      match Step(m, events[0], fuel)
      case Failure(f) => Outcome(m, [], Some(f))
      case Success(s) =>
        var rest := Run(s.next, events[1..], fuel);
        Outcome(rest.final, s.out + rest.out, rest.failure)
  }

  /** Running `a + b` is running `a`, then, if `a` did not fail, running `b` from where `a` stopped. */
  lemma {:induction false} RunAppend(m: Morph, a: seq<Event>, b: seq<Event>, fuel: nat)
    ensures var ra := Run(m, a, fuel);
            var rb := Run(ra.final, b, fuel);
            Run(m, a + b, fuel) ==
              if ra.failure.Some? then ra else Outcome(rb.final, ra.out + rb.out, rb.failure)
    decreases |a|
  {
    if |a| == 0 {
      assert a + b == b;
    } else {
      assert (a + b)[0] == a[0];
      assert (a + b)[1..] == a[1..] + b;
      match Step(m, a[0], fuel)
      case Failure(_) =>
      case Success(s) =>
        RunAppend(s.next, a[1..], b, fuel);
        var ra' := Run(s.next, a[1..], fuel);
        if ra'.failure.None? {
          var rb := Run(ra'.final, b, fuel);
          assert s.out + (ra'.out + rb.out) == (s.out + ra'.out) + rb.out;
        }
    }
  }

  /** Number of `startEntity` events. */
  function Opens(events: seq<Event>): (n: nat)
    ensures n <= |events|
  {
    if |events| == 0 then 0 else (if events[0].StartEntity? then 1 else 0) + Opens(events[1..])
  }

  /** Number of `endEntity` events. */
  function Closes(events: seq<Event>): (n: nat)
    ensures n <= |events|
  {
    if |events| == 0 then 0 else (if events[0].EndEntity? then 1 else 0) + Closes(events[1..])
  }

  /** Events that may occur between `startRecord` and `endRecord`. */
  predicate InsideRecord(events: seq<Event>) {
    forall i :: 0 <= i < |events| ==> !events[i].StartRecord? && !events[i].EndRecord?
  }

  /**
   * Inside a record, the number of open entities after a clean run is the number
   * before, plus the entities started, minus the entities ended.
   */
  lemma {:induction false} RunDepth(m: Morph, events: seq<Event>, fuel: nat)
    requires InsideRecord(events)
    requires Run(m, events, fuel).failure.None?
    ensures |Run(m, events, fuel).final.stack| + Closes(events) == |m.stack| + Opens(events)
    decreases |events|
  {
    if |events| > 0 {
      var s := Step(m, events[0], fuel).value;
      assert InsideRecord(events[1..]) by {
        forall i | 0 <= i < |events[1..]| ensures !events[1..][i].StartRecord? && !events[1..][i].EndRecord? {
          assert events[1..][i] == events[i + 1];
        }
      }
      RunDepth(s.next, events[1..], fuel);
    }
  }

  /**
   * `endRecord` checks entity balance: when the events of a record run cleanly,
   * the record ends cleanly exactly when every started entity was ended, and
   * otherwise fails with an illegal-state error naming the entities left open.
   */
  lemma EndRecordChecksBalance(m: Morph, id: string, body: seq<Event>, fuel: nat)
    requires InsideRecord(body)
    requires Run(m.(stack := []), body, fuel).failure.None?
    ensures var r := Run(m, [StartRecord(id)] + body + [EndRecord], fuel);
            && (r.failure.None? <==> Opens(body) == Closes(body))
            && (r.failure.Some? ==> r.failure.value.UnclosedEntities? &&
                                     r.failure.value.open + Closes(body) == Opens(body))
            && (r.failure.Some? ==> IsIllegalState(r.failure.value))
  {
    var m0 := m.(stack := []);
    RunDepth(m0, body, fuel);
    assert [StartRecord(id)][1..] == [];
    assert Run(m0, [StartRecord(id)][1..], fuel) == Outcome(m0, [], None);
    assert Step(m, StartRecord(id), fuel) == Success(Stepped(m0, [Emit(StartRecord(id))]));
    var rs := Run(m, [StartRecord(id)], fuel);
    assert rs.final == m0 && rs.failure.None?;
    RunAppend(m, [StartRecord(id)], body, fuel);
    RunAppend(m, [StartRecord(id)] + body, [EndRecord], fuel);
    var rb := Run(m0, body, fuel);
    var re := Run(rb.final, [EndRecord], fuel);
    assert re.failure.None? <==> |rb.final.stack| == 0;
  }

  /** Without `_passEntityEvents`, entity events are swallowed, whatever else the rules hold. */
  lemma EntityEventsSwallowed(m: Morph, e: Event, fuel: nat)
    requires !m.rules.passEntityEvents
    requires e.StartEntity? || e.EndEntity?
    requires Step(m, e, fuel).Success?
    ensures Step(m, e, fuel).value.out == []
  {
  }

  /**
   * A literal whose path no rule registers never reaches a named-value receiver;
   * under `_else` it is re-emitted once, under its full path, with its value.
   */
  lemma UnmatchedLiteral(m: Morph, name: string, value: string, fuel: nat)
    requires forall j :: 0 <= j < |m.rules.table| ==> m.rules.table[j].path != Path(m.stack, name)
    ensures Step(m, Literal(name, value), fuel).Success?
    ensures var out := Step(m, Literal(name, value), fuel).value.out;
            && (forall i :: 0 <= i < |out| ==> !out[i].Receive?)
            && (m.rules.passElse <==> out == [Emit(Literal(Path(m.stack, name), value))])
            && (!m.rules.passElse <==> out == [])
  {
    var path := Path(m.stack, name);
    NoMatches(m.rules.table, path);
    var out := if m.rules.passElse then [Emit(Literal(path, value))] else [];
    assert LiteralOut(m, name, value, fuel) == Success(out);
    assert Step(m, Literal(name, value), fuel) == Success(Stepped(m, out));
  }

  /**
   * Without feedback among the matches, a literal reaches the named-value receiver
   * `id` as `(n, v)` exactly when a `Data` named `n` with receiver `id` is registered
   * under the literal's path (open entities plus name) and `v` is the literal's value.
   */
  lemma LiteralRoutesByPath(m: Morph, name: string, value: string, fuel: nat, id: string, n: string, v: string)
    requires var ms := Matching(m.rules.table, Path(m.stack, name));
             forall i :: 0 <= i < |ms| ==> ms[i].target.Receiver?
    ensures Step(m, Literal(name, value), fuel).Success?
    ensures Receive(id, n, v) in Step(m, Literal(name, value), fuel).value.out <==>
            v == value && exists j :: 0 <= j < |m.rules.table| && m.rules.table[j].path == Path(m.stack, name)
                                      && m.rules.table[j].data == Data(n, Receiver(id))
  {
    var path := Path(m.stack, name);
    DispatchRoutesByPath(m.rules, path, value, fuel, id, n, v);
    if |Matching(m.rules.table, path)| == 0 {
      assert Dispatch(m.rules, path, value, fuel).value == [];
      var out := if m.rules.passElse then [Emit(Literal(path, value))] else [];
      assert Step(m, Literal(name, value), fuel) == Success(Stepped(m, out));
      assert Receive(id, n, v) !in out;
    } else {
      assert Step(m, Literal(name, value), fuel) ==
             Success(Stepped(m, Dispatch(m.rules, path, value, fuel).value));
    }
  }

  /**
   * The entity stack decides only the path: a literal inside entity `entity` is
   * handled exactly like a literal named `entity.name` one level further out.
   */
  lemma EntityEquivalentToDottedName(m: Morph, entity: string, name: string, value: string, fuel: nat)
    ensures Step(m.(stack := m.stack + [entity]), Literal(name, value), fuel).Success? <==>
            Step(m, Literal(entity + [Separator] + name, value), fuel).Success?
    ensures Step(m.(stack := m.stack + [entity]), Literal(name, value), fuel).Success? ==>
            Step(m.(stack := m.stack + [entity]), Literal(name, value), fuel).value.out ==
            Step(m, Literal(entity + [Separator] + name, value), fuel).value.out
  {
    var inner := m.(stack := m.stack + [entity]);
    var dotted := entity + [Separator] + name;
    PathOfInnermostEntity(m.stack, entity, name);
    assert LiteralOut(inner, name, value, fuel) == LiteralOut(m, dotted, value, fuel);
  }

  /** Tracks the entity nesting depth: every `endEntity` closes an open entity and every record ends balanced. */
  predicate Nested(depth: nat, events: seq<Event>)
    decreases |events|
  {
    if |events| == 0 then true
    else match events[0]
      case StartRecord(_) => Nested(0, events[1..])
      case StartEntity(_) => Nested(depth + 1, events[1..])
      case Literal(_, _) => Nested(depth, events[1..])
      case EndEntity => depth > 0 && Nested(depth - 1, events[1..])
      case EndRecord => depth == 0 && Nested(0, events[1..])
  }

  /** The open entities after event `e`, as the stream's structure alone dictates. */
  function StackAfter(stack: seq<string>, e: Event): seq<string> {
    match e
    case StartRecord(_) => []
    case StartEntity(n) => stack + [n]
    case EndEntity => if |stack| > 0 then stack[..|stack| - 1] else []
    case _ => stack
  }

  /** What the pass-through directives emit for event `e`: literals are renamed to their full path. */
  function Passed(stack: seq<string>, e: Event): Event {
    match e
    case Literal(n, v) => Literal(Path(stack, n), v)
    case _ => e
  }

  /**
   * Reference output of the two pass-through directives with no other rule:
   * every structural event is copied and every literal is copied under its full path.
   */
  function PassThrough(stack: seq<string>, events: seq<Event>): (r: seq<Event>)
    ensures |r| == |events|
    decreases |events|
  {
    if |events| == 0 then []
    else [Passed(stack, events[0])] + PassThrough(StackAfter(stack, events[0]), events[1..])
  }

  /** One event under the pass-through directives alone. */
  lemma PassThroughStep(m: Morph, e: Event, fuel: nat)
    requires m.rules == Rules([], true, true)
    requires e.EndEntity? ==> |m.stack| > 0
    requires e.EndRecord? ==> |m.stack| == 0
    ensures Step(m, e, fuel) == Success(Stepped(m.(stack := StackAfter(m.stack, e)), [Emit(Passed(m.stack, e))]))
  {
    if e.Literal? {
      NoMatches(m.rules.table, Path(m.stack, e.name));
    }
  }

  /**
   * Under `_passEntityEvents` and `_else` with no other rule, a well-nested event
   * stream is processed without failure and emitted as `PassThrough` describes,
   * with no named-value receiver call.
   */
  lemma {:induction false} PassThroughRun(m: Morph, events: seq<Event>, fuel: nat)
    requires m.rules == Rules([], true, true)
    requires Nested(|m.stack|, events)
    ensures Run(m, events, fuel).failure.None?
    ensures Emitted(Run(m, events, fuel).out) == PassThrough(m.stack, events)
    ensures forall i :: 0 <= i < |Run(m, events, fuel).out| ==> Run(m, events, fuel).out[i].Emit?
    decreases |events|
  {
    if |events| > 0 {
      var e := events[0];
      PassThroughStep(m, e, fuel);
      var next := m.(stack := StackAfter(m.stack, e));
      assert Nested(|next.stack|, events[1..]);
      PassThroughRun(next, events[1..], fuel);
      var rest := Run(next, events[1..], fuel);
      assert Run(m, events, fuel) == Outcome(rest.final, [Emit(Passed(m.stack, e))] + rest.out, rest.failure);
      EmittedCons(Emit(Passed(m.stack, e)), rest.out);
    }
  }

  lemma EmittedCons(first: Emission, rest: seq<Emission>)
    requires first.Emit?
    ensures Emitted([first] + rest) == [first.event] + Emitted(rest)
  {
    assert ([first] + rest)[1..] == rest;
  }
}
