/**
 The engine and the router together, as the endpoint sees them: it is handed exactly the
 inbound requests that match no transaction, each once and in order of arrival. Copies and
 the ACKs of refusals are absorbed; the ACK of a 2xx matches nothing and comes through.
 */
module EndpointRequests {
  import opened Wrappers
  import opened Sip
  import opened Transaction
  import opened EngineModel
  import opened EngineRuns
  import opened EventTraces
  import CI = ClientInviteTransaction
  import CN = ClientNonInviteTransaction
  import SI = ServerInviteTransaction
  import SN = ServerNonInviteTransaction
  import F = FlowEvents
  import R = Routing

  type Handed = seq<(TransactionKey, Request, Addr)>

  /** The requests among published events. */
  function Told(events: seq<Event>): Handed {
    if events == [] then [] else R.Brings(R.Arrives(events[0])) + Told(events[1..])
  }

  lemma {:induction false} ToldConcat(a: seq<Event>, b: seq<Event>)
    ensures Told(a + b) == Told(a) + Told(b)
    decreases |a|
  {
    if a == [] {
      assert a + b == b;
    } else {
      ToldConcat(a[1..], b);
      assert (a + b)[0] == a[0] && (a + b)[1..] == a[1..] + b;
      assert Told(a + b) == R.Brings(R.Arrives(a[0])) + Told((a + b)[1..]);
      hide R.Brings;
    }
  }

  /** What the router hands on does not depend on the subscriptions between the events. */
  lemma {:induction false} RequestsAreTold(handled: seq<R.Input>)
    ensures R.Requests(handled) == Told(F.Arriving(handled))
  {
    if handled == [] {
    } else {
      RequestsAreTold(handled[1..]);
      var rest := F.Arriving(handled[1..]);
      if handled[0].Arrives? {
        assert F.Arriving(handled) == [handled[0].event] + rest;
        assert ([handled[0].event] + rest)[1..] == rest;
      } else {
        assert F.Arriving(handled) == [] + rest == rest;
        assert R.Requests(handled) == [] + R.Requests(handled[1..]);
      }
    }
  }

  /** The request an input brings, if no transaction takes it. */
  function Unclaimed(w: World, input: Input): Handed {
    match input
    case Inbound(RequestMessage(req), src) =>
      if RequestKey(req).Some? && RequestKey(req).value !in w.engine.txns then [(RequestKey(req).value, req, src)]
      else []
    case _ => []
  }

  function AllUnclaimed(w: World, inputs: seq<Input>): Handed
    decreases |inputs|
  {
    if inputs == [] then [] else Unclaimed(w, inputs[0]) + AllUnclaimed(Next(w, inputs[0]), inputs[1..])
  }

  predicate Silent(actions: seq<TxAction>) {
    forall j :: 0 <= j < |actions| ==> !actions[j].DeliverRequest?
  }

  lemma {:induction false} SilentTellsNothing(key: TransactionKey, peer: Addr, actions: seq<TxAction>)
    requires Silent(actions)
    ensures Told(EventsOf(key, peer, actions)) == []
  {
    if actions == [] {
    } else {
      SilentTellsNothing(key, peer, actions[1..]);
      var own, rest := EventsOfOne(key, peer, actions[0]), EventsOf(key, peer, actions[1..]);
      assert !actions[0].DeliverRequest?;
      assert own == [] || (|own| == 1 && own[1..] == [] && R.Brings(R.Arrives(own[0])) == []);
      assert Told(own) == [];
      hide Told;
      ToldConcat(own, rest);
    }
  }

  /** Live transactions keep what they hear to themselves, and terminate last. */
  predicate Discreet(step: Step<TxState>) { Silent(step.actions) && EndsLast(step.actions) }

  lemma TimerIsDiscreet(tx: TxState, id: TimerId)
    ensures Discreet(tx.OnTimer(id))
  {
  }

  lemma RequestIsDiscreet(tx: TxState, req: Request)
    ensures Discreet(tx.OnRequest(req))
  {
  }

  lemma ResponseIsDiscreet(tx: TxState, resp: Response)
    ensures Discreet(tx.OnResponse(resp))
  {
    hide Sip.Non2xxAck;
  }

  lemma AnswerIsDiscreet(tx: TxState, resp: Response)
    ensures Discreet(tx.OnUserResponse(resp))
  {
  }

  lemma MoveIsDiscreet(w: World, input: Input)
    requires EffectOf(w, input).Moves?
    ensures Discreet(EffectOf(w, input).step)
  {
    var tx := w.engine.txns[EffectOf(w, input).key].tx;
    hide Discreet, Sip.RequestKey, Sip.ResponseKey, TxState.OnTimer, TxState.OnRequest, TxState.OnResponse,
        TxState.OnUserResponse;
    match input
    case Inbound(RequestMessage(req), _) => RequestIsDiscreet(tx, req);
    case Inbound(ResponseMessage(resp), _) => ResponseIsDiscreet(tx, resp);
    case Issue(SendResponse(_, resp)) => AnswerIsDiscreet(tx, resp);
    case Fire(i) => TimerIsDiscreet(tx, w.engine.spawned[i].id);
    case _ =>
  }

  lemma MoveIsClaimed(w: World, input: Input)
    requires EffectOf(w, input).Moves?
    ensures Unclaimed(w, input) == []
  {
    hide Sip.RequestKey, Sip.ResponseKey;
  }

  lemma MoveTells(w: World, input: Input)
    requires EffectOf(w, input).Moves?
    ensures Told(Next(w, input).engine.published) == Told(w.engine.published) + Unclaimed(w, input)
  {
    MoveIsDiscreet(w, input);
    MoveIsClaimed(w, input);
    StepByEffect(w, input);
    var key, step := EffectOf(w, input).key, EffectOf(w, input).step;
    var e0 := w.engine.(txns := w.engine.txns[key := w.engine.txns[key].(tx := step.next)]);
    assert Next(w, input).engine == Apply(e0, key, step.actions);
    hide EngineRuns.Next, EngineRuns.EffectOf, EngineRuns.StepEngine, EngineModel.Apply, Told, Unclaimed;
    ApplyPublishes(e0, key, step.actions);
    SilentTellsNothing(key, e0.txns[key].peer, step.actions);
    ToldConcat(w.engine.published, EventsOf(key, e0.txns[key].peer, step.actions));
  }

  lemma StartIs(w: World, input: Input)
    requires EffectOf(w, input).Starts?
    ensures
      var key, peer, step := EffectOf(w, input).key, EffectOf(w, input).peer, EffectOf(w, input).step;
      && EndsLast(step.actions)
      && ((Silent(step.actions) && Unclaimed(w, input) == [])
          || (input.Inbound? && input.message.RequestMessage?
              && step.actions == [DeliverRequest(input.message.request)]
              && Unclaimed(w, input) == [(key, input.message.request, peer)]))
  {
    hide Sip.RequestKey;
  }

  lemma OneTold(key: TransactionKey, peer: Addr, request: Request)
    ensures Told(EventsOf(key, peer, [DeliverRequest(request)])) == [(key, request, peer)]
  {
    var actions := [DeliverRequest(request)];
    assert actions[1..] == [] && EventsOf(key, peer, actions) == [IncomingRequest(key, request, peer)];
    assert [IncomingRequest(key, request, peer)][1..] == [];
  }

  lemma StartTells(w: World, input: Input)
    requires EffectOf(w, input).Starts?
    ensures Told(Next(w, input).engine.published) == Told(w.engine.published) + Unclaimed(w, input)
  {
    StartIs(w, input);
    StepByEffect(w, input);
    var key, peer, step := EffectOf(w, input).key, EffectOf(w, input).peer, EffectOf(w, input).step;
    var e0 := w.engine.(txns := w.engine.txns[key := EntryState(step.next, peer, map[])]);
    assert Next(w, input).engine == Apply(e0, key, step.actions);
    hide EngineRuns.Next, EngineRuns.EffectOf, EngineRuns.StepEngine, EngineModel.Apply, Told, Unclaimed;
    ApplyPublishes(e0, key, step.actions);
    ToldConcat(w.engine.published, EventsOf(key, peer, step.actions));
    if Silent(step.actions) {
      SilentTellsNothing(key, peer, step.actions);
    } else {
      OneTold(key, peer, input.message.request);
    }
  }

  lemma IdleTells(w: World, input: Input)
    requires EffectOf(w, input).Idle?
    ensures Told(Next(w, input).engine.published) == Told(w.engine.published) + Unclaimed(w, input)
  {
    StepByEffect(w, input);
    var e, e' := w.engine, Next(w, input).engine;
    assert e' == EffectOf(w, input).after;
    if Unclaimed(w, input) == [] {
      assert e'.published == e.published;
    } else {
      var req, src := input.message.request, input.src;
      assert e'.published == e.published + [UnmatchedRequest(req, src)];
      ToldConcat(e.published, [UnmatchedRequest(req, src)]);
      assert [UnmatchedRequest(req, src)][1..] == [];
    }
  }

  lemma StepTells(w: World, input: Input)
    ensures Told(Next(w, input).engine.published) == Told(w.engine.published) + Unclaimed(w, input)
  {
    hide EngineRuns.Next, Told, Unclaimed;
    if EffectOf(w, input).Moves? {
      MoveTells(w, input);
    } else if EffectOf(w, input).Starts? {
      StartTells(w, input);
    } else {
      IdleTells(w, input);
    }
  }

  lemma Unroll(w: World, inputs: seq<Input>)
    requires inputs != []
    ensures Exec(w, inputs) == Exec(Next(w, inputs[0]), inputs[1..])
    ensures AllUnclaimed(w, inputs) == Unclaimed(w, inputs[0]) + AllUnclaimed(Next(w, inputs[0]), inputs[1..])
  {
    hide EngineRuns.Next, Unclaimed;
  }

  lemma Chained(before: Handed, after: Handed, last: Handed, now: Handed, later: Handed, all: Handed)
    requires after == before + now && last == after + later && all == now + later
    ensures last == before + all
  {
  }

  lemma {:induction false} RunTells(w: World, inputs: seq<Input>)
    ensures Told(Exec(w, inputs).engine.published) == Told(w.engine.published) + AllUnclaimed(w, inputs)
    decreases |inputs|
  {
    if inputs == [] {
    } else {
      hide EngineRuns.Next, Unclaimed;
      var w' := Next(w, inputs[0]);
      StepTells(w, inputs[0]);
      Unroll(w, inputs);
      RunTells(w', inputs[1..]);
      Chained(Told(w.engine.published), Told(w'.engine.published), Told(Exec(w, inputs).engine.published),
          Unclaimed(w, inputs[0]), AllUnclaimed(w', inputs[1..]), AllUnclaimed(w, inputs));
    }
  }

  /**
   Over every run of the engine, and however subscriptions come between the events on their
   way through the router: the endpoint is handed exactly the requests that matched no
   transaction when they arrived, each with its key and sender, once and in order.
   */
  lemma EndpointIsHandedTheUnclaimed(timers: Timers, rel: Reliability, inputs: seq<Input>, s: R.RouterState,
          handled: seq<R.Input>)
    requires F.Arriving(handled) == Exec(Initially(timers, rel), inputs).engine.published
    ensures R.Run(s, handled).incoming == s.incoming + AllUnclaimed(Initially(timers, rel), inputs)
  {
    hide R.Requests, R.Run, AllUnclaimed, Exec, F.Arriving;
    R.RequestsReachTheEndpoint(s, handled);
    RequestsAreTold(handled);
    RunTells(Initially(timers, rel), inputs);
    assert Initially(timers, rel).engine.published == [];
  }
}
