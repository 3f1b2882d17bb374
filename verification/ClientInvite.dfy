/** The client INVITE transaction (section 17.1.1 of RFC 3261). */
module ClientInviteTransaction {
  import opened Wrappers
  import opened Sip
  import opened Transaction

  datatype Phase = Calling | Proceeding | Completed | Ended

  /** The machine as a value; `ClientInvite` below is the object that updates it in place. */
  datatype Machine = Machine(phase: Phase, timers: Timers, rel: Reliability, invite: Request, timerA: nat) {
    function OnResponse(resp: Response): Step<Machine> {
      match phase
      case Calling =>
        if resp.status < 200 then
          Step(this.(phase := Proceeding), [StopTimer(A), StopTimer(B), DeliverResponse(resp)])
        else OnFinal(resp)
      case Proceeding =>
        if resp.status < 200 then Step(this, [DeliverResponse(resp)]) else OnFinal(resp)
      case Completed =>
        if resp.status >= 300 && Non2xxAck(invite, resp).Some?
        then Step(this, [Send(RequestMessage(Non2xxAck(invite, resp).value))])
        else Step(this, [])
      case Ended => Step(this, [])
    }

    function OnFinal(resp: Response): Step<Machine> {
      if resp.status < 300 then
        Step(this.(phase := Ended), [DeliverResponse(resp), Transaction.Terminated])
      else match Non2xxAck(invite, resp)
        case None => Step(this, [])
        case Some(ack) =>
          if rel.Reliable? then
            Step(this.(phase := Ended), [Send(RequestMessage(ack)), DeliverResponse(resp), Transaction.Terminated])
          else
            Step(this.(phase := Completed),
                [Send(RequestMessage(ack)), DeliverResponse(resp), StartTimer(D, timers.D(rel))])
    }

    function OnTimer(id: TimerId): Step<Machine> {
      if phase == Calling && id == A then
        Step(this.(timerA := 2 * timerA), [Send(RequestMessage(invite)), StartTimer(A, 2 * timerA)])
      else if phase == Calling && id == B then
        Step(this.(phase := Ended), [TimedOut, Transaction.Terminated])
      else if phase == Completed && id == D then
        Step(this.(phase := Ended), [Transaction.Terminated])
      else Step(this, [])
    }
  }

  function Start(invite: Request, timers: Timers, rel: Reliability): Step<Machine> {
    Step(Machine(Calling, timers, rel, invite, timers.t1),
         [Send(RequestMessage(invite))]
         + (if rel.Reliable? then [] else [StartTimer(A, timers.t1)])
         + [StartTimer(B, timers.Timeout())])
  }

  class ClientInvite {
    var phase: Phase
    const timers: Timers
    const rel: Reliability
    const invite: Request
    var timerA: nat

    ghost function Value(): Machine
      reads this
    {
      Machine(phase, timers, rel, invite, timerA)
    }

    constructor (phase: Phase, timers: Timers, rel: Reliability, invite: Request, timerA: nat)
      ensures Value() == Machine(phase, timers, rel, invite, timerA)
    {
      this.phase, this.timers, this.rel, this.invite, this.timerA := phase, timers, rel, invite, timerA;
    }

    static method Begin(invite: Request, timers: Timers, rel: Reliability)
      returns (tx: ClientInvite, actions: seq<TxAction>)
      ensures fresh(tx)
      ensures Step(tx.Value(), actions) == Start(invite, timers, rel)
    {
      actions := [Send(RequestMessage(invite))];
      if !rel.Reliable? {
        actions := actions + [StartTimer(A, timers.t1)];
      }
      actions := actions + [StartTimer(B, timers.Timeout())];
      tx := new ClientInvite(Calling, timers, rel, invite, timers.t1);
    }

    method OnResponse(resp: Response) returns (actions: seq<TxAction>)
      modifies this
      ensures Step(Value(), actions) == old(Value()).OnResponse(resp)
    {
      var code := resp.status;
      match phase {
        case Calling | Proceeding =>
          if code < 200 {
            actions := OnProvisional(resp);
          } else if code < 300 {
            // The user sends the ACK for a 2xx and owns the dialog.
            phase := Ended;
            actions := [DeliverResponse(resp), Transaction.Terminated];
          } else {
            actions := OnFinalFailure(resp);
          }
        case Completed =>
          // A retransmitted failure: resend the ACK, do not deliver again.
          actions := [];
          if code >= 300 {
            var ack := BuildNon2xxAck(invite, resp);
            if ack.Some? {
              actions := [Send(RequestMessage(ack.value))];
            }
          }
        case Ended =>
          actions := [];
      }
    }

    method OnTimer(id: TimerId) returns (actions: seq<TxAction>)
      modifies this
      ensures Step(Value(), actions) == old(Value()).OnTimer(id)
    {
      if phase == Calling && id == A {
        timerA := timerA * 2;
        actions := [Send(RequestMessage(invite)), StartTimer(A, timerA)];
      } else if phase == Calling && id == B {
        phase := Ended;
        actions := [TimedOut, Transaction.Terminated];
      } else if phase == Completed && id == D {
        phase := Ended;
        actions := [Transaction.Terminated];
      } else {
        actions := [];
      }
    }

    method OnProvisional(resp: Response) returns (actions: seq<TxAction>)
      requires phase in {Calling, Proceeding} && resp.status < 200
      modifies this
      ensures Step(Value(), actions) == old(Value()).OnResponse(resp)
    {
      if phase == Calling {
        // Leave Calling: a call may ring in Proceeding for minutes.
        phase := Proceeding;
        actions := [StopTimer(A), StopTimer(B), DeliverResponse(resp)];
      } else {
        actions := [DeliverResponse(resp)];
      }
    }

    method OnFinalFailure(resp: Response) returns (actions: seq<TxAction>)
      requires resp.status >= 300
      modifies this
      ensures Step(Value(), actions) == old(Value()).OnFinal(resp)
    {
      var ack := BuildNon2xxAck(invite, resp);
      if ack.None? {
        return [];
      }
      actions := [Send(RequestMessage(ack.value)), DeliverResponse(resp)];
      if rel.Reliable? {
        phase := Ended;
        actions := actions + [Transaction.Terminated];
      } else {
        phase := Completed;
        actions := actions + [StartTimer(D, timers.D(rel))];
      }
    }
  }
}
