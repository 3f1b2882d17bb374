/**
 The router between the engine and its users: one subscription a key, each client
 transaction's events handed to the flow that subscribed for it, inbound requests to one
 common stream.
 */
module Routing {
  import opened Wrappers
  import opened Sip
  import opened EngineModel

  /** What reaches the router: a subscription, or an event of the engine. */
  datatype Input = Subscribe(key: TransactionKey, flow: nat) | Arrives(event: Event)

  /** The events a flow is about: those of one client transaction. */
  function ClientKey(event: Event): Option<TransactionKey> {
    match event
    case ResponseEvent(key, _) => Some(key)
    case TimedOutEvent(key) => Some(key)
    case TerminatedEvent(key) => Some(key)
    case _ => None
  }

  /** An inbound request, if its key can be read. */
  function Inbound(event: Event): Option<(TransactionKey, Request, Addr)> {
    match event
    case IncomingRequest(key, request, peer) => Some((key, request, peer))
    case UnmatchedRequest(request, peer) =>
        (match RequestKey(request) case Some(key) => Some((key, request, peer)) case None => None)
    case _ => None
  }

  datatype RouterState = RouterState(subs: map<TransactionKey, nat>, handed: map<nat, seq<Event>>,
          incoming: seq<(TransactionKey, Request, Addr)>)

  function HandedTo(handed: map<nat, seq<Event>>, flow: nat): seq<Event> {
    if flow in handed then handed[flow] else []
  }

  predicate Subscribed(s: RouterState, key: TransactionKey, flow: nat) {
    key in s.subs && s.subs[key] == flow
  }

  function Step(s: RouterState, input: Input): RouterState {
    match input
    case Subscribe(key, flow) => s.(subs := s.subs[key := flow])
    case Arrives(event) =>
      match ClientKey(event)
      case None => (match Inbound(event) case Some(i) => s.(incoming := s.incoming + [i]) case None => s)
      case Some(key) =>
        var sent := if key in s.subs
            then s.(handed := s.handed[s.subs[key] := HandedTo(s.handed, s.subs[key]) + [event]]) else s;
        if event.TerminatedEvent? then sent.(subs := sent.subs - {key}) else sent
  }

  function Run(s: RouterState, inputs: seq<Input>): RouterState
    decreases |inputs|
  {
    if inputs == [] then s else Run(Step(s, inputs[0]), inputs[1..])
  }

  class Router {
    var subs: map<TransactionKey, nat>
    var handed: map<nat, seq<Event>>
    var incoming: seq<(TransactionKey, Request, Addr)>

    ghost function Value(): RouterState
      reads this
    {
      RouterState(subs, handed, incoming)
    }

    constructor ()
      ensures Value() == RouterState(map[], map[], [])
    {
      subs, handed, incoming := map[], map[], [];
    }

    method Handle(input: Input)
      modifies this
      ensures Value() == Step(old(Value()), input)
    {
      match input {
        case Subscribe(key, flow) => subs := subs[key := flow];
        case Arrives(event) =>
          var key := ClientKey(event);
          if key.None? {
            var inbound := Inbound(event);
            if inbound.Some? {
              incoming := incoming + [inbound.value];
            }
          } else {
            if key.value in subs {
              handed := handed[subs[key.value] := HandedTo(handed, subs[key.value]) + [event]];
            }
            if event.TerminatedEvent? {
              subs := subs - {key.value};
            }
          }
      }
    }
  }

  // ---- What each flow gets ----

  /** Whether an input ends a subscription for a key: its termination, or another subscription. */
  predicate Closes(input: Input, key: TransactionKey) {
    match input
    case Subscribe(k, _) => k == key
    case Arrives(event) => event.TerminatedEvent? && event.key == key
  }

  function Own(input: Input, key: TransactionKey): seq<Event> {
    if input.Arrives? && ClientKey(input.event) == Some(key) then [input.event] else []
  }

  /** The events of a key up to what closes it, termination included. */
  function Share(inputs: seq<Input>, key: TransactionKey): seq<Event> {
    if inputs == [] then []
    else
      if Closes(inputs[0], key) then Own(inputs[0], key) else Own(inputs[0], key) + Share(inputs[1..], key)
  }

  predicate Closed(inputs: seq<Input>, key: TransactionKey) {
    exists i :: 0 <= i < |inputs| && Closes(inputs[i], key)
  }

  /** A flow is subscribed for at most this key, and no later input subscribes it again. */
  predicate Exclusive(s: RouterState, inputs: seq<Input>, key: TransactionKey, flow: nat) {
    && (forall k :: k in s.subs && s.subs[k] == flow ==> k == key)
    && (forall i :: 0 <= i < |inputs| && inputs[i].Subscribe? ==> inputs[i].flow != flow)
  }

  /** A flow that holds no subscription is handed nothing. */
  lemma {:induction false} NothingWithoutSubscription(s: RouterState, inputs: seq<Input>, flow: nat)
    requires forall k :: k in s.subs ==> s.subs[k] != flow
    requires forall i :: 0 <= i < |inputs| && inputs[i].Subscribe? ==> inputs[i].flow != flow
    ensures HandedTo(Run(s, inputs).handed, flow) == HandedTo(s.handed, flow)
    decreases |inputs|
  {
    if inputs == [] {
    } else {
      hide ClientKey, Inbound;
      assert inputs[0].Subscribe? ==> inputs[0].flow != flow;
      assert forall i :: 0 <= i < |inputs[1..]| ==> inputs[1..][i] == inputs[i + 1];
      NothingWithoutSubscription(Step(s, inputs[0]), inputs[1..], flow);
    }
  }

  lemma StepHands(s: RouterState, input: Input, key: TransactionKey, flow: nat)
    requires key in s.subs && s.subs[key] == flow && forall k :: k in s.subs && s.subs[k] == flow ==> k == key
    requires input.Subscribe? ==> input.flow != flow
    ensures
      var next := Step(s, input);
      && HandedTo(next.handed, flow) == HandedTo(s.handed, flow) + Own(input, key)
      && (if Closes(input, key) then forall k :: k in next.subs ==> next.subs[k] != flow
          else key in next.subs && next.subs[key] == flow && forall k :: k in next.subs && next.subs[k] == flow ==>
              k == key)
  {
    assert HandedTo(s.handed, flow) + [] == HandedTo(s.handed, flow);
  }

  lemma ExclusiveStep(s: RouterState, inputs: seq<Input>, key: TransactionKey, flow: nat)
    requires inputs != [] && Subscribed(s, key, flow) && Exclusive(s, inputs, key, flow)
    ensures
      var next, rest := Step(s, inputs[0]), inputs[1..];
      && HandedTo(next.handed, flow) == HandedTo(s.handed, flow) + Own(inputs[0], key)
      && (forall i :: 0 <= i < |rest| && rest[i].Subscribe? ==> rest[i].flow != flow)
      && (if Closes(inputs[0], key) then forall k :: k in next.subs ==> next.subs[k] != flow
          else Subscribed(next, key, flow) && Exclusive(next, rest, key, flow))
  {
    var rest := inputs[1..];
    assert forall i :: 0 <= i < |rest| ==> rest[i] == inputs[i + 1];
    StepHands(s, inputs[0], key, flow);
    hide Step, Closes, Own, HandedTo;
  }

  lemma ShareStep(inputs: seq<Input>, key: TransactionKey)
    requires inputs != []
    ensures Share(inputs, key) == if Closes(inputs[0], key) then Own(inputs[0], key)
        else Own(inputs[0], key) + Share(inputs[1..], key)
  {
  }

  lemma Appended(a: seq<Event>, b: seq<Event>, c: seq<Event>)
    ensures a + (b + c) == a + b + c
  {
  }

  lemma RunStep(s: RouterState, inputs: seq<Input>)
    requires inputs != []
    ensures Run(s, inputs) == Run(Step(s, inputs[0]), inputs[1..])
  {
  }

  lemma ClosedStep(inputs: seq<Input>, key: TransactionKey)
    requires inputs != []
    ensures Closed(inputs, key) <==> Closes(inputs[0], key) || Closed(inputs[1..], key)
  {
    hide Closes;
    if Closed(inputs[1..], key) {
      var i :| 0 <= i < |inputs[1..]| && Closes(inputs[1..][i], key);
      assert Closes(inputs[i + 1], key);
    }
    if Closed(inputs, key) && !Closes(inputs[0], key) {
      var i :| 0 <= i < |inputs| && Closes(inputs[i], key);
      assert Closes(inputs[1..][i - 1], key);
    }
  }

  /**
   A subscribed flow is handed exactly its own key's events, in order, up to and including
   the termination, whatever else the router handles; after that the key has no subscription.
   */
  lemma {:induction false} EachFlowItsShare(s: RouterState, inputs: seq<Input>, key: TransactionKey, flow: nat)
    requires Subscribed(s, key, flow) && Exclusive(s, inputs, key, flow)
    ensures HandedTo(Run(s, inputs).handed, flow) == HandedTo(s.handed, flow) + Share(inputs, key)
    ensures !Closed(inputs, key) ==> Subscribed(Run(s, inputs), key, flow)
    decreases |inputs|
  {
    if inputs == [] {
      assert HandedTo(s.handed, flow) + [] == HandedTo(s.handed, flow);
    } else {
      hide *;
      var next, rest := Step(s, inputs[0]), inputs[1..];
      ExclusiveStep(s, inputs, key, flow);
      ClosedStep(inputs, key);
      RunStep(s, inputs);
      ShareStep(inputs, key);
      if Closes(inputs[0], key) {
        NothingWithoutSubscription(next, rest, flow);
      } else {
        EachFlowItsShare(next, rest, key, flow);
        Appended(HandedTo(s.handed, flow), Own(inputs[0], key), Share(rest, key));
      }
    }
  }

  /** A termination leaves its key without a subscription, so no flow outlives its transaction in the router. */
  lemma TerminationUnsubscribes(s: RouterState, key: TransactionKey)
    ensures key !in Step(s, Arrives(TerminatedEvent(key))).subs
    ensures forall k :: k != key ==> (k in Step(s, Arrives(TerminatedEvent(key))).subs <==> k in s.subs)
  {
  }

  // ---- What the endpoint gets ----

  /** The inbound request an input brings, with its key and sender: a new one, or an ACK that matches nothing. */
  function Brings(input: Input): seq<(TransactionKey, Request, Addr)> {
    match input
    case Arrives(IncomingRequest(key, request, peer)) => [(key, request, peer)]
    case Arrives(UnmatchedRequest(request, peer)) =>
      if RequestKey(request).Some? then [(RequestKey(request).value, request, peer)] else []
    case _ => []
  }

  function Requests(inputs: seq<Input>): seq<(TransactionKey, Request, Addr)> {
    if inputs == [] then [] else Brings(inputs[0]) + Requests(inputs[1..])
  }

  lemma StepBrings(s: RouterState, input: Input)
    ensures Step(s, input).incoming == s.incoming + Brings(input)
  {
    hide Sip.RequestKey;
  }

  lemma Unfolded(s: RouterState, inputs: seq<Input>)
    requires inputs != []
    ensures Run(s, inputs) == Run(Step(s, inputs[0]), inputs[1..])
    ensures Requests(inputs) == Brings(inputs[0]) + Requests(inputs[1..])
  {
  }

  /** The endpoint is handed exactly the inbound requests, in order, whatever flows come and go. */
  lemma {:induction false} RequestsReachTheEndpoint(s: RouterState, inputs: seq<Input>)
    ensures Run(s, inputs).incoming == s.incoming + Requests(inputs)
    decreases |inputs|
  {
    if inputs == [] {
    } else {
      RequestsReachTheEndpoint(Step(s, inputs[0]), inputs[1..]);
      StepBrings(s, inputs[0]);
      Unfolded(s, inputs);
      hide Step, Brings, Run, Requests;
    }
  }
}
