/** The server non-INVITE transaction (section 17.2.2 of RFC 3261). */
module ServerNonInviteTransaction {
  import opened Wrappers
  import opened Sip
  import opened Transaction

  datatype Phase = Trying | Proceeding | Completed | Ended

  datatype Machine = Machine(phase: Phase, timers: Timers, rel: Reliability, lastResponse: Option<Response>) {
    function SendResponse(resp: Response): Step<Machine> {
      if phase in {Completed, Ended} then Step(this, [])
      else if resp.status < 200 then
        Step(this.(phase := Proceeding, lastResponse := Some(resp)), [Send(ResponseMessage(resp))])
      else if rel.Reliable? then
        Step(this.(phase := Ended, lastResponse := Some(resp)),
             [Send(ResponseMessage(resp)), Transaction.Terminated])
      else
        Step(this.(phase := Completed, lastResponse := Some(resp)),
             [Send(ResponseMessage(resp)), StartTimer(J, timers.J(rel))])
    }

    function OnRequest(): Step<Machine> {
      if phase in {Proceeding, Completed} && lastResponse.Some?
      then Step(this, [Send(ResponseMessage(lastResponse.value))])
      else Step(this, [])
    }

    function OnTimer(id: TimerId): Step<Machine> {
      if phase == Completed && id == J
      then Step(this.(phase := Ended), [Transaction.Terminated])
      else Step(this, [])
    }
  }

  function Start(request: Request, timers: Timers, rel: Reliability): Step<Machine> {
    Step(Machine(Trying, timers, rel, None), [DeliverRequest(request)])
  }

  class ServerNonInvite {
    var phase: Phase
    const timers: Timers
    const rel: Reliability
    var lastResponse: Option<Response>

    ghost function Value(): Machine
      reads this
    {
      Machine(phase, timers, rel, lastResponse)
    }

    constructor (timers: Timers, rel: Reliability)
      ensures Value() == Machine(Trying, timers, rel, None)
    {
      this.phase, this.timers, this.rel, this.lastResponse := Trying, timers, rel, None;
    }

    static method Begin(request: Request, timers: Timers, rel: Reliability)
      returns (tx: ServerNonInvite, actions: seq<TxAction>)
      ensures fresh(tx)
      ensures Step(tx.Value(), actions) == Start(request, timers, rel)
    {
      tx := new ServerNonInvite(timers, rel);
      actions := [DeliverRequest(request)];
    }

    method SendResponse(resp: Response) returns (actions: seq<TxAction>)
      modifies this
      ensures Step(Value(), actions) == old(Value()).SendResponse(resp)
    {
      if phase in {Completed, Ended} {
        return [];
      }
      lastResponse := Some(resp);
      if resp.status < 200 {
        phase := Proceeding;
        actions := [Send(ResponseMessage(resp))];
      } else if rel.Reliable? {
        phase := Ended;
        actions := [Send(ResponseMessage(resp)), Transaction.Terminated];
      } else {
        phase := Completed;
        actions := [Send(ResponseMessage(resp)), StartTimer(J, timers.J(rel))];
      }
    }

    method OnRequest(req: Request) returns (actions: seq<TxAction>)
      ensures Step(Value(), actions) == Value().OnRequest()
    {
      match phase {
        case Trying | Ended => actions := [];
        case Proceeding | Completed =>
          match lastResponse {
            case Some(resp) => actions := [Send(ResponseMessage(resp))];
            case None => actions := [];
          }
      }
    }

    method OnTimer(id: TimerId) returns (actions: seq<TxAction>)
      modifies this
      ensures Step(Value(), actions) == old(Value()).OnTimer(id)
    {
      if phase == Completed && id == J {
        phase := Ended;
        actions := [Transaction.Terminated];
      } else {
        actions := [];
      }
    }
  }
}
