/** The SockJS event-bus bridge event, as seen by the bridge dispatcher.
    Each event carries its type and a resolution that starts `Unresolved` and
    is settled at most once, either with a boolean verdict (`complete`) or with
    an error (`fail`). A settled event never changes again. */
module BridgeEvents {

  /** The kinds of bridge event the SockJS transport reports. */
  datatype EventType =
    | SocketCreated
    | SocketClosed
    | Send
    | Publish
    | Receive
    | Register
    | Unregister

  /** A Java exception (a `java.lang.Exception`, the kind the dispatcher catches),
      reduced to what the dispatcher passes on. */
  datatype Exception =
    | Exception(className: string, message: string)
    /** What reflective invocation throws when the invoked method itself threw. */
    | InvocationTargetException(cause: Exception)

  /** The three states of an event's resolution. */
  datatype Resolution =
    | Unresolved
    | Succeeded(verdict: bool)
    | Failed(cause: Exception)

  datatype BridgeEvent = BridgeEvent(eventType: EventType, resolution: Resolution) {

    predicate HasFailed() {
      resolution.Failed?
    }

    predicate HasSucceeded() {
      resolution.Succeeded?
    }

    /** Terminal: either succeeded or failed. */
    predicate IsResolved() {
      HasFailed() || HasSucceeded()
    }

    /** `be.complete(verdict)`: settles an unresolved event with a verdict. */
    function Complete(verdict: bool): (r: BridgeEvent)
      ensures r.eventType == eventType
      ensures !IsResolved() ==> r.HasSucceeded() && r.resolution.verdict == verdict
      ensures IsResolved() ==> r == this
    {
      if IsResolved() then this else this.(resolution := Succeeded(verdict))
    }

    /** `be.fail(cause)`: settles an unresolved event with an error. */
    function Fail(cause: Exception): (r: BridgeEvent)
      ensures r.eventType == eventType
      ensures !IsResolved() ==> r.HasFailed() && r.resolution.cause == cause
      ensures IsResolved() ==> r == this
    {
      if IsResolved() then this else this.(resolution := Failed(cause))
    }

    /** Performs one resolving call made by a handler body. */
    function Apply(a: Action): (r: BridgeEvent)
      ensures r.eventType == eventType
      ensures r.IsResolved()
      ensures IsResolved() ==> r == this
    {
      match a
      case CompleteWith(v) => Complete(v)
      case FailWith(e) => Fail(e)
    }
  }

  /** One resolving call (`complete` or `fail`) a handler body makes on the event. */
  datatype Action = CompleteWith(verdict: bool) | FailWith(cause: Exception)

  /** The event after a handler body has made the calls `actions`, in order. */
  function ApplyActions(e: BridgeEvent, actions: seq<Action>): (r: BridgeEvent)
    ensures r.eventType == e.eventType
    ensures e.IsResolved() ==> r == e
    ensures |actions| == 0 ==> r == e
    ensures |actions| > 0 && !e.IsResolved() ==> r == e.Apply(actions[0])
    decreases |actions|
  {
    if |actions| == 0 then e else ApplyActions(e.Apply(actions[0]), actions[1..])
  }

  /** Resolution only moves forward: Unresolved may become resolved, never the reverse,
      and the only way to leave Unresolved is through a resolving call. */
  lemma ResolutionIsMonotone(e: BridgeEvent, actions: seq<Action>)
    ensures ApplyActions(e, actions).IsResolved() <==> e.IsResolved() || |actions| > 0
    ensures !ApplyActions(e, actions).IsResolved() ==> ApplyActions(e, actions) == e
  {
  }
}
