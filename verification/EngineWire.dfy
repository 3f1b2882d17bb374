/**
 From the machines to the wire: each step of the engine sends exactly what the machine it
 moves asks for, in order, to that transaction's peer. So what the machines are proved to
 send over their lives is what leaves the engine.
 */
module EngineWire {
  import opened Wrappers
  import opened Sip
  import opened Transaction
  import opened EngineModel
  import opened EngineRuns
  import opened EventTraces
  import EndpointRequests
  import C = ClientInviteReplay
  import CI = ClientInviteTransaction
  import SI = ServerInviteTransaction

  function Packets(messages: seq<SipMessage>, dst: Addr): seq<Packet> {
    if messages == [] then [] else [Packet(messages[0], dst)] + Packets(messages[1..], dst)
  }

  lemma PacketsOfOne(message: SipMessage, dst: Addr)
    ensures Packets([message], dst) == [Packet(message, dst)] && Packets([], dst) == []
  {
    assert [message][1..] == [];
  }

  lemma SendsStep(actions: seq<TxAction>, dst: Addr)
    requires actions != []
    ensures Packets(Sends(actions), dst)
         == (if actions[0].Send? then [Packet(actions[0].message, dst)] else []) + Packets(Sends(actions[1..]), dst)
  {
    var rest := Sends(actions[1..]);
    if actions[0].Send? {
      assert Sends(actions) == [actions[0].message] + rest;
      assert ([actions[0].message] + rest)[1..] == rest;
    } else {
      assert Sends(actions) == [] + rest == rest;
      assert [] + Packets(rest, dst) == Packets(rest, dst);
    }
  }

  lemma NothingSent(dst: Addr)
    ensures Packets(Sends([]), dst) == []
  {
  }

  lemma {:induction false} ApplySends(e: State, key: TransactionKey, actions: seq<TxAction>)
    requires key in e.txns && EndsLast(actions)
    ensures Apply(e, key, actions).wire == e.wire + Packets(Sends(actions), e.txns[key].peer)
    decreases |actions|
  {
    if actions == [] {
    } else {
      var peer := e.txns[key].peer;
      var e1 := ApplyOne(e, key, actions[0]);
      assert e1.wire == e.wire + if actions[0].Send? then [Packet(actions[0].message, peer)] else [];
      SendsStep(actions, peer);
      ApplyOneExtends(e, key, actions[0]);
      hide ApplyOne, Extends, Packets, Sends;
      if actions[0].Terminated? {
        assert actions[1..] == [];
        assert Apply(e1, key, actions[1..]) == e1;
        NothingSent(peer);
      } else {
        ApplySends(e1, key, actions[1..]);
      }
    }
  }

  /** What one input has the engine put on the wire. */
  function Sent(w: World, input: Input): seq<Packet> {
    match EffectOf(w, input)
    case Moves(key, step) => if key in w.engine.txns then Packets(Sends(step.actions), w.engine.txns[key].peer) else []
    case Starts(_, peer, step) => Packets(Sends(step.actions), peer)
    case Idle(_) =>
      match input
      case Issue(SendOutOfDialog(message, peer)) => [Packet(message, peer)]
      case _ => []
  }

  lemma MoveSends(w: World, input: Input)
    requires EffectOf(w, input).Moves?
    ensures Next(w, input).engine.wire == w.engine.wire + Sent(w, input)
  {
    EndpointRequests.MoveIsDiscreet(w, input);
    StepByEffect(w, input);
    var key, step := EffectOf(w, input).key, EffectOf(w, input).step;
    var e0 := w.engine.(txns := w.engine.txns[key := w.engine.txns[key].(tx := step.next)]);
    assert Next(w, input).engine == Apply(e0, key, step.actions);
    hide EngineRuns.Next, EngineRuns.EffectOf, EngineRuns.StepEngine, EngineModel.Apply, Packets, Sends;
    ApplySends(e0, key, step.actions);
  }

  lemma StartSends(w: World, input: Input)
    requires EffectOf(w, input).Starts?
    ensures Next(w, input).engine.wire == w.engine.wire + Sent(w, input)
  {
    EndpointRequests.StartIs(w, input);
    StepByEffect(w, input);
    var key, peer, step := EffectOf(w, input).key, EffectOf(w, input).peer, EffectOf(w, input).step;
    var e0 := w.engine.(txns := w.engine.txns[key := EntryState(step.next, peer, map[])]);
    assert Next(w, input).engine == Apply(e0, key, step.actions);
    hide EngineRuns.Next, EngineRuns.EffectOf, EngineRuns.StepEngine, EngineModel.Apply, Packets, Sends;
    ApplySends(e0, key, step.actions);
  }

  /** Every step: the wire grows by what the step's machine sends, or by a message sent outside any transaction. */
  lemma StepSends(w: World, input: Input)
    ensures Next(w, input).engine.wire == w.engine.wire + Sent(w, input)
  {
    if EffectOf(w, input).Moves? {
      MoveSends(w, input);
    } else if EffectOf(w, input).Starts? {
      StartSends(w, input);
    } else {
      StepByEffect(w, input);
      hide Sip.RequestKey, Sip.ResponseKey, EngineModel.Apply;
    }
  }

  lemma MessageMoves(w: World, key: TransactionKey, message: SipMessage, src: Addr)
    requires key in w.engine.txns
    requires Some(key) == match message case RequestMessage(r) => RequestKey(r)
        case ResponseMessage(r) => ResponseKey(r)
    ensures EffectOf(w, Inbound(message, src))
         == Moves(key, match message
                       case RequestMessage(r) => w.engine.txns[key].tx.OnRequest(r)
                       case ResponseMessage(r) => w.engine.txns[key].tx.OnResponse(r))
  {
    hide Sip.RequestKey, Sip.ResponseKey, TxState.OnRequest, TxState.OnResponse;
  }

  lemma MachineAcknowledges(m: CI.Machine, refusal: Response)
    requires m.invite.verb == Invite && m.phase != CI.Ended && refusal.status >= 300 && C.Copyable(m.invite, refusal)
    ensures
      var sent := Sends(m.OnResponse(refusal).actions);
      |sent| == 1 && C.Acknowledges(sent[0], m.invite, refusal)
  {
    AckMatchesInvite(m.invite, refusal);
    C.CopyableIsAckable(m.invite, refusal);
    hide Sip.Non2xxAck, Sip.RequestKey, Sip.Only, Sip.First, C.Copyable;
    SendsFirst(m.OnResponse(refusal).actions);
  }

  /**
   A refusal that arrives for a client INVITE transaction of the engine, first or again, is
   answered on the wire by exactly one packet: its ACK, to the transaction's peer.
   */
  lemma RefusalIsAcknowledgedOnTheWire(w: World, key: TransactionKey, m: CI.Machine, refusal: Response, src: Addr)
    requires key in w.engine.txns && w.engine.txns[key].tx == ClientInvite(m) && m.invite.verb == Invite
    requires m.phase != CI.Ended
    requires ResponseKey(refusal) == Some(key) && refusal.status >= 300 && C.Copyable(m.invite, refusal)
    ensures
      var before, after := w.engine.wire, Next(w, Inbound(ResponseMessage(refusal), src)).engine.wire;
      && |after| == |before| + 1 && after[..|before|] == before
      && after[|before|].dst == w.engine.txns[key].peer
      && C.Acknowledges(after[|before|].message, m.invite, refusal)
  {
    var sent := Sends(m.OnResponse(refusal).actions);
    MachineAcknowledges(m, refusal);
    hide EngineRuns.Next, EngineRuns.EffectOf, Sip.ResponseKey, CI.Machine.OnResponse, C.Copyable, C.Acknowledges;
    StepSends(w, Inbound(ResponseMessage(refusal), src));
    MessageMoves(w, key, ResponseMessage(refusal), src);
    PacketsOfOne(sent[0], w.engine.txns[key].peer);
    assert sent == [sent[0]];
  }

  /** A copy of the INVITE gets the stored response, to the transaction's peer, and nothing else. */
  lemma CopyIsAnsweredOnTheWire(w: World, key: TransactionKey, m: SI.Machine, copy: Request, src: Addr)
    requires key in w.engine.txns && w.engine.txns[key].tx == ServerInvite(m)
    requires RequestKey(copy) == Some(key) && copy.verb == Invite
    ensures
      var stored := if m.phase == SI.Proceeding then m.lastProvisional
          else if m.phase == SI.Completed then m.lastFinal else None;
      Next(w, Inbound(RequestMessage(copy), src)).engine.wire ==
      w.engine.wire
      + (if stored.Some? then [Packet(ResponseMessage(stored.value), w.engine.txns[key].peer)] else [])
  {
    var input := Inbound(RequestMessage(copy), src);
    var actions := m.OnRequest(copy).actions;
    hide EngineRuns.Next, EngineRuns.EffectOf, Sip.RequestKey;
    StepSends(w, input);
    MessageMoves(w, key, RequestMessage(copy), src);
    SendsFirst(actions);
    PacketsOfOne(if actions != [] && actions[0].Send? then actions[0].message else RequestMessage(copy),
        w.engine.txns[key].peer);
  }
}
