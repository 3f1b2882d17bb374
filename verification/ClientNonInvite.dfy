/** The client non-INVITE transaction (section 17.1.2 of RFC 3261). */
module ClientNonInviteTransaction {
  import opened Wrappers
  import opened Sip
  import opened Transaction

  datatype Phase = Trying | Proceeding | Completed | Ended

  datatype Machine = Machine(phase: Phase, timers: Timers, rel: Reliability, request: Request, timerE: nat) {
    function OnResponse(resp: Response): Step<Machine> {
      if phase in {Completed, Ended} then Step(this, [])
      else if resp.status < 200 then Step(this.(phase := Proceeding), [DeliverResponse(resp)])
      else if rel.Reliable? then
        Step(this.(phase := Ended), [DeliverResponse(resp), Transaction.Terminated])
      else
        Step(this.(phase := Completed),
             [StopTimer(E), StopTimer(F), DeliverResponse(resp), StartTimer(K, timers.K(rel))])
    }

    function OnTimer(id: TimerId): Step<Machine> {
      if phase == Trying && id == E then Retransmit(Min(2 * timerE, timers.t2))
      else if phase == Proceeding && id == E then Retransmit(timers.t2)
      else if phase in {Trying, Proceeding} && id == F then
        Step(this.(phase := Ended), [TimedOut, Transaction.Terminated])
      else if phase == Completed && id == K then
        Step(this.(phase := Ended), [Transaction.Terminated])
      else Step(this, [])
    }

    function Retransmit(wait: nat): Step<Machine> {
      Step(this.(timerE := wait), [Send(RequestMessage(request)), StartTimer(E, wait)])
    }
  }

  function Start(request: Request, timers: Timers, rel: Reliability): Step<Machine> {
    Step(Machine(Trying, timers, rel, request, timers.t1),
         [Send(RequestMessage(request))]
         + (if rel.Reliable? then [] else [StartTimer(E, timers.t1)])
         + [StartTimer(F, timers.Timeout())])
  }

  class ClientNonInvite {
    var phase: Phase
    const timers: Timers
    const rel: Reliability
    const request: Request
    var timerE: nat

    ghost function Value(): Machine
      reads this
    {
      Machine(phase, timers, rel, request, timerE)
    }

    constructor (request: Request, timers: Timers, rel: Reliability)
      ensures Value() == Machine(Trying, timers, rel, request, timers.t1)
    {
      this.phase, this.timers, this.rel, this.request, this.timerE := Trying, timers, rel, request, timers.t1;
    }

    static method Begin(request: Request, timers: Timers, rel: Reliability)
      returns (tx: ClientNonInvite, actions: seq<TxAction>)
      ensures fresh(tx)
      ensures Step(tx.Value(), actions) == Start(request, timers, rel)
    {
      actions := [Send(RequestMessage(request))];
      if !rel.Reliable? {
        actions := actions + [StartTimer(E, timers.t1)];
      }
      actions := actions + [StartTimer(F, timers.Timeout())];
      tx := new ClientNonInvite(request, timers, rel);
    }

    method OnResponse(resp: Response) returns (actions: seq<TxAction>)
      modifies this
      ensures Step(Value(), actions) == old(Value()).OnResponse(resp)
    {
      match phase {
        case Trying | Proceeding =>
          if resp.status < 200 {
            phase := Proceeding;
            actions := [DeliverResponse(resp)];
          } else {
            actions := EnterCompleted(resp);
          }
        case Completed | Ended =>
          // A retransmitted final is absorbed; a non-INVITE final has no ACK.
          actions := [];
      }
    }

    method OnTimer(id: TimerId) returns (actions: seq<TxAction>)
      modifies this
      ensures Step(Value(), actions) == old(Value()).OnTimer(id)
    {
      if phase == Trying && id == E {
        timerE := Min(timerE * 2, timers.t2);
        actions := [Send(RequestMessage(request)), StartTimer(E, timerE)];
      } else if phase == Proceeding && id == E {
        timerE := timers.t2;
        actions := [Send(RequestMessage(request)), StartTimer(E, timerE)];
      } else if phase in {Trying, Proceeding} && id == F {
        phase := Ended;
        actions := [TimedOut, Transaction.Terminated];
      } else if phase == Completed && id == K {
        phase := Ended;
        actions := [Transaction.Terminated];
      } else {
        actions := [];
      }
    }

    method EnterCompleted(resp: Response) returns (actions: seq<TxAction>)
      requires phase in {Trying, Proceeding} && resp.status >= 200
      modifies this
      ensures Step(Value(), actions) == old(Value()).OnResponse(resp)
    {
      if rel.Reliable? {
        phase := Ended;
        return [DeliverResponse(resp), Transaction.Terminated];
      }
      phase := Completed;
      actions := [StopTimer(E), StopTimer(F), DeliverResponse(resp), StartTimer(K, timers.K(rel))];
    }
  }
}
