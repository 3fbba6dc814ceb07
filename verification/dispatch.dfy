/**
 * The dispatch table and the `Data` nodes it routes to.
 *
 * `registerNamedValueReceiver(path, data)` appends `data` to the table under
 * `path`; a value dispatched at a path reaches every `Data` registered under
 * exactly that path, in registration order. A `Data` renames the value to its
 * own name, keeps the value, and hands it to its receiver: an external
 * named-value receiver, or the engine itself when the `Data` was added with
 * `addNamedValueSource`. The engine re-dispatches a value whose name starts
 * with `@` at the path equal to that name (feedback) and sends any other
 * value downstream as a literal. Feedback cycles are not guarded in the
 * engine, so the model bounds feedback depth with explicit fuel.
 */
module Routing {
  import opened Wrappers
  import opened Events

  /** Names starting with this character are fed back into dispatch. */
  const FeedbackChar: char := '@'

  predicate IsFeedbackName(name: string) {
    |name| > 0 && name[0] == FeedbackChar
  }

  /** Where a `Data` node sends what it receives. */
  datatype Target =
    | Receiver(id: string)   // an external `NamedValueReceiver`, identified by `id`
    | Engine                 // the engine itself (`addNamedValueSource`)

  /** A `Data` node of the rule graph: `<data source=... name=.../>`. */
  datatype Data = Data(name: string, target: Target)

  datatype Registration = Registration(path: string, data: Data)

  /**
   * The compiled rules: the ordered registrations and the two pass-through
   * directives `_passEntityEvents` and `_else`.
   */
  datatype Rules = Rules(table: seq<Registration>, passEntityEvents: bool, passElse: bool)

  /** An engine with no rules at all. */
  const NoRules: Rules := Rules([], false, false)

  /** True when `d` is registered under some path of `table`. */
  predicate Registered(table: seq<Registration>, d: Data) {
    exists j :: 0 <= j < |table| && table[j].data == d
  }

  /** Every receiver call in `out` is one that a `Data` of `ds` or of `table` makes. */
  predicate CallsFrom(out: seq<Emission>, ds: seq<Data>, table: seq<Registration>) {
    forall i :: 0 <= i < |out| && out[i].Receive? ==>
      var d := Data(out[i].name, Receiver(out[i].receiver));
      d in ds || Registered(table, d)
  }

  /** The `Data` nodes registered under exactly `path`, in registration order. */
  function Matching(table: seq<Registration>, path: string): (r: seq<Data>)
    ensures |r| <= |table|
    ensures forall d :: d in r <==> exists j :: 0 <= j < |table| && table[j].path == path && table[j].data == d
  {
    if |table| == 0 then []
    else
      var rest := Matching(table[1..], path);
      assert forall j :: 0 < j < |table| ==> table[j] == table[1..][j - 1];
      if table[0].path == path then [table[0].data] + rest else rest
  }

  /** Registering one more entry only extends the matches of its own path. */
  lemma {:induction false} MatchingSnoc(table: seq<Registration>, reg: Registration, path: string)
    ensures Matching(table + [reg], path) ==
            Matching(table, path) + (if reg.path == path then [reg.data] else [])
  {
    if |table| > 0 {
      assert (table + [reg])[1..] == table[1..] + [reg];
      MatchingSnoc(table[1..], reg, path);
    }
  }

  /**
   * `registerNamedValueReceiver(path, data)`: `data` becomes the last match of
   * `path`; the matches of every other path are unchanged.
   */
  function Register(rules: Rules, path: string, data: Data): (r: Rules)
    ensures Matching(r.table, path) == Matching(rules.table, path) + [data]
    ensures forall p :: p != path ==> Matching(r.table, p) == Matching(rules.table, p)
    ensures r.passEntityEvents == rules.passEntityEvents && r.passElse == rules.passElse
  {
    var reg := Registration(path, data);
    assert forall p :: Matching(rules.table + [reg], p) ==
                       Matching(rules.table, p) + (if path == p then [data] else []) by {
      forall p ensures Matching(rules.table + [reg], p) ==
                       Matching(rules.table, p) + (if path == p then [data] else []) {
        MatchingSnoc(rules.table, reg, p);
      }
    }
    rules.(table := rules.table + [reg])
  }

  /**
   * Dispatches `value` at `path`: every `Data` registered there receives it, in
   * registration order, and their emissions are concatenated. Every receiver
   * call comes from a registered `Data` and every emission carries `value`.
   */
  function Dispatch(rules: Rules, path: string, value: string, fuel: nat): (r: Result<seq<Emission>, Failure>)
    ensures r.Failure? ==> r.error == FeedbackTooDeep
    ensures r.Success? ==> CarriesValue(r.value, value)
    ensures r.Success? ==> CallsFrom(r.value, [], rules.table)
    decreases fuel, 2
  {
    DeliverAll(rules, Matching(rules.table, path), value, fuel)
  }

  /** Hands `value` to each of `ds` in order and concatenates what they emit. */
  function DeliverAll(rules: Rules, ds: seq<Data>, value: string, fuel: nat): (r: Result<seq<Emission>, Failure>)
    ensures r.Failure? ==> r.error == FeedbackTooDeep
    ensures r.Success? ==> CarriesValue(r.value, value)
    ensures r.Success? ==> CallsFrom(r.value, ds, rules.table)
    decreases fuel, 1, |ds|
  {
    if |ds| == 0 then Success([])
    else
      var first :- Deliver(rules, ds[0], value, fuel);
      var rest :- DeliverAll(rules, ds[1..], value, fuel);
      assert forall d :: d in ds[1..] ==> d in ds;
      Success(first + rest)
  }

  /**
   * `Data.receive`: the value is renamed to the node's name, left unchanged, and
   * handed to the node's target. The engine as target feeds `@` names back into
   * dispatch (one unit of fuel per re-entry) and emits every other name as a literal.
   */
  function Deliver(rules: Rules, d: Data, value: string, fuel: nat): (r: Result<seq<Emission>, Failure>)
    ensures r.Failure? ==> r.error == FeedbackTooDeep
    ensures r.Success? ==> CarriesValue(r.value, value)
    ensures r.Success? ==> CallsFrom(r.value, [d], rules.table)
    ensures d.target.Receiver? ==> r == Success([Receive(d.target.id, d.name, value)])
    ensures d.target.Engine? && !IsFeedbackName(d.name) ==> r == Success([Emit(Literal(d.name, value))])
    decreases fuel, 0
  {
    match d.target
    case Receiver(id) => Success([Receive(id, d.name, value)])
    case Engine =>
      if !IsFeedbackName(d.name) then Success([Emit(Literal(d.name, value))])
      else if fuel == 0 then Failure(FeedbackTooDeep)
      else Dispatch(rules, d.name, value, fuel - 1)
  }

  /** What a sequence of `Data` nodes delivers when none of them feeds back. */
  function DirectCalls(ds: seq<Data>, value: string): (r: seq<Emission>)
    requires forall i :: 0 <= i < |ds| ==> ds[i].target.Receiver?
    ensures |r| == |ds|
    ensures forall i :: 0 <= i < |ds| ==> r[i] == Receive(ds[i].target.id, ds[i].name, value)
  {
    if |ds| == 0 then [] else [Receive(ds[0].target.id, ds[0].name, value)] + DirectCalls(ds[1..], value)
  }

  lemma {:induction false} DeliverAllDirect(rules: Rules, ds: seq<Data>, value: string, fuel: nat)
    requires forall i :: 0 <= i < |ds| ==> ds[i].target.Receiver?
    ensures DeliverAll(rules, ds, value, fuel) == Success(DirectCalls(ds, value))
  {
    if |ds| > 0 {
      DeliverAllDirect(rules, ds[1..], value, fuel);
    }
  }

  /**
   * Without feedback among the matches, dispatch at `path` makes exactly one
   * call per `Data` registered under `path`, in registration order, each with
   * the node's name and the unchanged value.
   */
  lemma DispatchDirect(rules: Rules, path: string, value: string, fuel: nat)
    requires forall i :: 0 <= i < |Matching(rules.table, path)| ==> Matching(rules.table, path)[i].target.Receiver?
    ensures Dispatch(rules, path, value, fuel) == Success(DirectCalls(Matching(rules.table, path), value))
  {
    DeliverAllDirect(rules, Matching(rules.table, path), value, fuel);
  }

  /**
   * Without feedback among the matches, the receiver `id` gets `(name, v)` from a
   * dispatch of `value` at `path` exactly when a `Data` named `name` with receiver
   * `id` is registered under `path` and `v` is `value`.
   */
  lemma DispatchRoutesByPath(rules: Rules, path: string, value: string, fuel: nat, id: string, name: string, v: string)
    requires forall i :: 0 <= i < |Matching(rules.table, path)| ==> Matching(rules.table, path)[i].target.Receiver?
    ensures Dispatch(rules, path, value, fuel).Success?
    ensures Receive(id, name, v) in Dispatch(rules, path, value, fuel).value <==>
            v == value && exists j :: 0 <= j < |rules.table| && rules.table[j].path == path
                                      && rules.table[j].data == Data(name, Receiver(id))
  {
    var ms := Matching(rules.table, path);
    DispatchDirect(rules, path, value, fuel);
    var out := DirectCalls(ms, value);
    if Receive(id, name, v) in out {
      var i :| 0 <= i < |out| && out[i] == Receive(id, name, v);
      assert ms[i] == Data(name, Receiver(id));
      assert ms[i] in ms;
    }
    if v == value && Data(name, Receiver(id)) in ms {
      var i :| 0 <= i < |ms| && ms[i] == Data(name, Receiver(id));
      assert out[i] == Receive(id, name, v);
    }
  }

  /** A path nobody registered reaches no `Data` and emits nothing. */
  lemma UnregisteredPathDeliversNothing(rules: Rules, path: string, value: string, fuel: nat)
    requires forall j :: 0 <= j < |rules.table| ==> rules.table[j].path != path
    ensures Dispatch(rules, path, value, fuel) == Success([])
  {
    NoMatches(rules.table, path);
  }

  lemma {:induction false} NoMatches(table: seq<Registration>, path: string)
    requires forall j :: 0 <= j < |table| ==> table[j].path != path
    ensures Matching(table, path) == []
  {
    if |table| > 0 {
      assert forall j :: 0 <= j < |table[1..]| ==> table[1..][j] == table[j + 1];
      NoMatches(table[1..], path);
    }
  }

  /**
   * Feedback: when the only `Data` under `path` is an engine source whose name
   * starts with `@`, dispatching at `path` is dispatching at that name, one level deeper.
   */
  lemma FeedbackReenters(rules: Rules, path: string, d: Data, value: string, fuel: nat)
    requires Matching(rules.table, path) == [d]
    requires d.target.Engine? && IsFeedbackName(d.name)
    ensures Dispatch(rules, path, value, fuel + 1) == Dispatch(rules, d.name, value, fuel)
  {
    var inner := Dispatch(rules, d.name, value, fuel);
    assert Deliver(rules, d, value, fuel + 1) == inner;
    assert DeliverAll(rules, [d][1..], value, fuel + 1) == Success([]);
    if inner.Success? {
      assert inner.value + [] == inner.value;
    }
    assert DeliverAll(rules, [d], value, fuel + 1) == inner;
  }

  /** More fuel never changes a dispatch that already succeeded. */
  lemma {:induction false} DispatchFuelMonotone(rules: Rules, path: string, value: string, fuel: nat, more: nat)
    requires fuel <= more
    requires Dispatch(rules, path, value, fuel).Success?
    ensures Dispatch(rules, path, value, more) == Dispatch(rules, path, value, fuel)
    decreases fuel, 2
  {
    DeliverAllFuelMonotone(rules, Matching(rules.table, path), value, fuel, more);
  }

  lemma {:induction false} DeliverAllFuelMonotone(rules: Rules, ds: seq<Data>, value: string, fuel: nat, more: nat)
    requires fuel <= more
    requires DeliverAll(rules, ds, value, fuel).Success?
    ensures DeliverAll(rules, ds, value, more) == DeliverAll(rules, ds, value, fuel)
    decreases fuel, 1, |ds|
  {
    if |ds| > 0 {
      DeliverFuelMonotone(rules, ds[0], value, fuel, more);
      DeliverAllFuelMonotone(rules, ds[1..], value, fuel, more);
    }
  }

  lemma {:induction false} DeliverFuelMonotone(rules: Rules, d: Data, value: string, fuel: nat, more: nat)
    requires fuel <= more
    requires Deliver(rules, d, value, fuel).Success?
    ensures Deliver(rules, d, value, more) == Deliver(rules, d, value, fuel)
    decreases fuel, 0
  {
    if d.target.Engine? && IsFeedbackName(d.name) {
      DispatchFuelMonotone(rules, d.name, value, fuel - 1, more - 1);
    }
  }
}
