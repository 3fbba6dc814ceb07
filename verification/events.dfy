/**
 * The stream protocol the engine consumes and produces, the calls it makes on
 * named-value receivers, and the ways processing can fail.
 */
module Events {

  /** One structural event of the record stream (the `StreamReceiver` protocol). */
  datatype Event =
    | StartRecord(id: string)
    | StartEntity(name: string)
    | Literal(name: string, value: string)
    | EndEntity
    | EndRecord

  /**
   * One observable effect of the engine: an event sent to the downstream stream
   * receiver, or a `receive(name, value, ...)` call on the named-value receiver `receiver`.
   * The source and the record and entity counters of `receive` are not modelled.
   */
  datatype Emission =
    | Emit(event: Event)
    | Receive(receiver: string, name: string, value: string)

  /** Why processing of an event was aborted. */
  datatype Failure =
    | UnclosedEntities(open: nat)   // `endRecord` while entities are still open
    | NoOpenEntity                  // `endEntity` with no open entity
    | FeedbackTooDeep               // feedback re-entry exceeded the model's depth bound

  /** The structural failures, which the engine reports as an `IllegalStateException`. */
  predicate IsIllegalState(f: Failure) {
    f.UnclosedEntities? || f.NoOpenEntity?
  }

  /** Every named value in `out` carries `value`: no node on the way altered it. */
  predicate CarriesValue(out: seq<Emission>, value: string) {
    forall i :: 0 <= i < |out| ==>
      match out[i]
      case Receive(_, _, v) => v == value
      case Emit(e) => e.Literal? && e.value == value
  }

  /** The calls made on the named-value receiver `receiver`, in order. */
  function ReceivedBy(out: seq<Emission>, receiver: string): (r: seq<Emission>)
    ensures |r| <= |out|
    ensures forall i :: 0 <= i < |r| ==> r[i].Receive? && r[i].receiver == receiver && r[i] in out
    ensures forall e :: e in out && e.Receive? && e.receiver == receiver ==> e in r
  {
    if |out| == 0 then []
    else
      var rest := ReceivedBy(out[1..], receiver);
      if out[0].Receive? && out[0].receiver == receiver then [out[0]] + rest else rest
  }

  /** The events sent downstream, in order. */
  function Emitted(out: seq<Emission>): (r: seq<Event>)
    ensures |r| <= |out|
    ensures forall e :: e in r <==> Emit(e) in out
  {
    if |out| == 0 then []
    else
      var rest := Emitted(out[1..]);
      if out[0].Emit? then [out[0].event] + rest else rest
  }

  /**
   * `expected` occurs in `actual` in the same order, possibly with other events
   * between: what an in-order verification of the stream receiver accepts.
   */
  predicate InOrder(expected: seq<Event>, actual: seq<Event>)
    decreases |actual|
  {
    if |expected| == 0 then true
    else if |actual| == 0 then false
    else if expected[0] == actual[0] then InOrder(expected[1..], actual[1..])
    else InOrder(expected, actual[1..])
  }
}
