/** The server INVITE transaction (section 17.2.1 of RFC 3261). */
module ServerInviteTransaction {
  import opened Wrappers
  import opened Sip
  import opened Transaction

  datatype Phase = Proceeding | Completed | Confirmed | Ended

  function Resend(stored: Option<Response>): seq<TxAction> {
    match stored
    case Some(resp) => [Send(ResponseMessage(resp))]
    case None => []
  }

  datatype Machine = Machine(
    phase: Phase,
    timers: Timers,
    rel: Reliability,
    lastProvisional: Option<Response>,
    lastFinal: Option<Response>,
    timerG: nat
  ) {
    function SendResponse(resp: Response): Step<Machine> {
      if phase != Proceeding then Step(this, [])
      else if resp.status < 200 then
        Step(this.(lastProvisional := Some(resp)), [Send(ResponseMessage(resp))])
      else if resp.status < 300 then
        Step(this.(phase := Ended), [Send(ResponseMessage(resp)), Transaction.Terminated])
      else
        Step(this.(phase := Completed, lastFinal := Some(resp)),
             [Send(ResponseMessage(resp))]
             + (if rel.Reliable? then [] else [StartTimer(G, timers.t1)])
             + [StartTimer(H, timers.Timeout())])
    }

    function OnRequest(req: Request): Step<Machine> {
      if req.verb == Invite && phase == Proceeding then Step(this, Resend(lastProvisional))
      else if req.verb == Invite && phase == Completed then Step(this, Resend(lastFinal))
      else if req.verb == Ack && phase == Completed then
        if rel.Reliable? then
          Step(this.(phase := Ended), [StopTimer(G), StopTimer(H), Transaction.Terminated])
        else
          Step(this.(phase := Confirmed), [StopTimer(G), StopTimer(H), StartTimer(I, timers.I(rel))])
      else Step(this, [])
    }

    function OnTimer(id: TimerId): Step<Machine> {
      if phase == Completed && id == G then
        var g := Min(2 * timerG, timers.t2);
        Step(this.(timerG := g), Resend(lastFinal) + [StartTimer(G, g)])
      else if phase == Completed && id == H then
        Step(this.(phase := Ended), [TimedOut, Transaction.Terminated])
      else if phase == Confirmed && id == I then
        Step(this.(phase := Ended), [Transaction.Terminated])
      else Step(this, [])
    }
  }

  function Start(invite: Request, timers: Timers, rel: Reliability): Step<Machine> {
    Step(Machine(Proceeding, timers, rel, None, None, timers.t1), [DeliverRequest(invite)])
  }

  class ServerInvite {
    var phase: Phase
    const timers: Timers
    const rel: Reliability
    var lastProvisional: Option<Response>
    var lastFinal: Option<Response>
    var timerG: nat

    ghost function Value(): Machine
      reads this
    {
      Machine(phase, timers, rel, lastProvisional, lastFinal, timerG)
    }

    constructor (timers: Timers, rel: Reliability)
      ensures Value() == Machine(Proceeding, timers, rel, None, None, timers.t1)
    {
      this.phase, this.timers, this.rel := Proceeding, timers, rel;
      this.lastProvisional, this.lastFinal, this.timerG := None, None, timers.t1;
    }

    static method Begin(invite: Request, timers: Timers, rel: Reliability)
      returns (tx: ServerInvite, actions: seq<TxAction>)
      ensures fresh(tx)
      ensures Step(tx.Value(), actions) == Start(invite, timers, rel)
    {
      tx := new ServerInvite(timers, rel);
      actions := [DeliverRequest(invite)];
    }

    method SendResponse(resp: Response) returns (actions: seq<TxAction>)
      modifies this
      ensures Step(Value(), actions) == old(Value()).SendResponse(resp)
    {
      if phase != Proceeding {
        return [];
      }
      if resp.status < 200 {
        lastProvisional := Some(resp);
        actions := [Send(ResponseMessage(resp))];
      } else if resp.status < 300 {
        // The user now owns the retransmission of the 2xx.
        phase := Ended;
        actions := [Send(ResponseMessage(resp)), Transaction.Terminated];
      } else {
        lastFinal := Some(resp);
        actions := [Send(ResponseMessage(resp))];
        if !rel.Reliable? {
          actions := actions + [StartTimer(G, timers.t1)];
        }
        actions := actions + [StartTimer(H, timers.Timeout())];
        phase := Completed;
      }
    }

    method OnRequest(req: Request) returns (actions: seq<TxAction>)
      modifies this
      ensures Step(Value(), actions) == old(Value()).OnRequest(req)
    {
      if req.verb == Invite && phase == Proceeding {
        actions := Resend(lastProvisional);
      } else if req.verb == Invite && phase == Completed {
        actions := Resend(lastFinal);
      } else if req.verb == Ack && phase == Completed {
        actions := [StopTimer(G), StopTimer(H)];
        if rel.Reliable? {
          phase := Ended;
          actions := actions + [Transaction.Terminated];
        } else {
          phase := Confirmed;
          actions := actions + [StartTimer(I, timers.I(rel))];
        }
      } else {
        // A retransmitted ACK in Confirmed is absorbed here too.
        actions := [];
      }
    }

    method OnTimer(id: TimerId) returns (actions: seq<TxAction>)
      modifies this
      ensures Step(Value(), actions) == old(Value()).OnTimer(id)
    {
      if phase == Completed && id == G {
        timerG := Min(timerG * 2, timers.t2);
        actions := Resend(lastFinal);
        actions := actions + [StartTimer(G, timerG)];
      } else if phase == Completed && id == H {
        phase := Ended;
        actions := [TimedOut, Transaction.Terminated];
      } else if phase == Confirmed && id == I {
        phase := Ended;
        actions := [Transaction.Terminated];
      } else {
        actions := [];
      }
    }
  }
}
