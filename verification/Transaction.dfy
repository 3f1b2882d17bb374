/** What the four transaction machines of section 17 of RFC 3261 share. */
module Transaction {
  import opened Wrappers
  import opened Sip

  /** Durations and instants are whole nanoseconds, as `std::time::Duration` counts. */
  const SECOND: nat := 1_000_000_000

  datatype Reliability = Reliable | Unreliable

  /** The base timers T1, T2 and T4, and the transaction timers derived from them. */
  datatype Timers = Timers(t1: nat, t2: nat, t4: nat) {
    function Timeout(): nat { 64 * t1 }

    function D(rel: Reliability): nat { if rel.Reliable? then 0 else 32 * SECOND }

    function I(rel: Reliability): nat { if rel.Reliable? then 0 else t4 }

    function J(rel: Reliability): nat { if rel.Reliable? then 0 else Timeout() }

    function K(rel: Reliability): nat { if rel.Reliable? then 0 else t4 }
  }

  datatype TimerId = A | B | D | E | F | G | H | I | J | K

  /** One unit of work a machine asks its runner to perform. */
  datatype TxAction =
    | Send(message: SipMessage)
    | StartTimer(id: TimerId, after: nat)
    | StopTimer(stopped: TimerId)
    | DeliverResponse(response: Response)
    | DeliverRequest(request: Request)
    | TimedOut
    | Terminated

  /** The state a machine moves to, and the actions it asks for on the way. */
  datatype Step<M> = Step(next: M, actions: seq<TxAction>)

  function Min(a: nat, b: nat): nat { if a <= b then a else b }

  /** The messages a step puts on the wire, in order. */
  function Sends(actions: seq<TxAction>): seq<SipMessage> {
    if actions == [] then []
    else (if actions[0].Send? then [actions[0].message] else []) + Sends(actions[1..])
  }

  lemma {:induction false} SendsNone(actions: seq<TxAction>)
    requires forall i :: 0 <= i < |actions| ==> !actions[i].Send?
    ensures Sends(actions) == []
  {
    if actions == [] {
    } else {
      SendsNone(actions[1..]);
    }
  }

  /** The steps of the machines send once at most, and first. */
  lemma SendsFirst(actions: seq<TxAction>)
    requires forall i :: 1 <= i < |actions| ==> !actions[i].Send?
    ensures Sends(actions) == if actions != [] && actions[0].Send? then [actions[0].message] else []
  {
    if actions == [] {
    } else {
      SendsNone(actions[1..]);
    }
  }
}
