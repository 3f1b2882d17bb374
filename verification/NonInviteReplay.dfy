/**
 What a server non-INVITE transaction puts on the wire over its whole life (section 17.2.2
 of RFC 3261): what its user sends, and between that the last of it again for every copy of
 the request; after a final response nothing but that response.
 */
module NonInviteReplay {
  import opened Wrappers
  import opened Sip
  import opened Transaction
  import SN = ServerNonInviteTransaction

  datatype Move = UserSends(response: Response) | RequestAgain | TimerFires(id: TimerId)

  /** A response on the wire: newly sent, or sent again for a copy of the request. */
  datatype Out = Newly(response: Response) | Again(response: Response)

  function StepOf(m: SN.Machine, move: Move): Step<SN.Machine> {
    match move
    case UserSends(response) => m.SendResponse(response)
    case RequestAgain => m.OnRequest()
    case TimerFires(id) => m.OnTimer(id)
  }

  /** Each step sends one response at most, and sends it first. */
  function OutOf(move: Move, actions: seq<TxAction>): seq<Out> {
    if actions != [] && actions[0].Send? && actions[0].message.ResponseMessage? then
      [if move.UserSends? then Newly(actions[0].message.response) else Again(actions[0].message.response)]
    else []
  }

  function Log(m: SN.Machine, moves: seq<Move>): seq<Out>
    decreases |moves|
  {
    if moves == [] then []
    else
      var step := StepOf(m, moves[0]);
      OutOf(moves[0], step.actions) + Log(step.next, moves[1..])
  }

  /** The machine remembers what it sent last, and is done once that was final. */
  predicate Remembers(m: SN.Machine) {
    match m.phase
    case Trying => m.lastResponse == None
    case Proceeding => m.lastResponse.Some? && m.lastResponse.value.status < 200
    case Completed => m.lastResponse.Some? && m.lastResponse.value.status >= 200
    case Ended => m.lastResponse.Some? && m.lastResponse.value.status >= 200
  }

  /** A log that goes on from the last response sent. */
  predicate GoesOn(last: Option<Response>, log: seq<Out>)
    decreases |log|
  {
    log == [] ||
    (match log[0]
     case Newly(response) => (last.None? || last.value.status < 200) && GoesOn(Some(response), log[1..])
     case Again(response) => last == Some(response) && GoesOn(last, log[1..]))
  }

  lemma StepRemembers(m: SN.Machine, move: Move)
    requires Remembers(m)
    ensures var step := StepOf(m, move);
            && Remembers(step.next)
            && (forall a :: a in step.actions[if step.actions == [] then 0 else 1..] ==> !a.Send?)
            && var outs := OutOf(move, step.actions);
            && (outs == [] ==> step.next.lastResponse == m.lastResponse)
            && (outs != [] ==>
                  && step.next.lastResponse == Some(outs[0].response)
                  && (if outs[0].Newly? then m.lastResponse.None? || m.lastResponse.value.status < 200
                      else m.lastResponse == Some(outs[0].response)))
  {
  }

  lemma {:induction false} LogGoesOn(m: SN.Machine, moves: seq<Move>)
    requires Remembers(m)
    ensures GoesOn(m.lastResponse, Log(m, moves))
    decreases |moves|
  {
    if moves == [] {
    } else {
      var step := StepOf(m, moves[0]);
      var outs, rest := OutOf(moves[0], step.actions), Log(step.next, moves[1..]);
      StepRemembers(m, moves[0]);
      LogGoesOn(step.next, moves[1..]);
      if outs == [] {
        assert outs + rest == rest;
      } else {
        assert (outs + rest)[1..] == rest;
      }
    }
  }

  lemma {:induction false} GoesOnReads(last: Option<Response>, log: seq<Out>, i: nat)
    requires GoesOn(last, log) && i < |log|
    ensures log[i].Again? ==> (if i == 0 then last else Some(log[i - 1].response)) == Some(log[i].response)
    ensures last.Some? && last.value.status >= 200 ==> log[i] == Again(last.value)
    ensures forall j :: i < j < |log| && log[i].response.status >= 200 ==> log[j] == Again(log[i].response)
    decreases |log|
  {
    var next := Some(log[0].response);
    assert GoesOn(next, log[1..]);
    if i > 0 {
      GoesOnReads(next, log[1..], i - 1);
      assert forall j :: i < j < |log| ==> log[j] == log[1..][j - 1];
    } else {
      forall j | 0 < j < |log| && log[0].response.status >= 200 ensures log[j] == Again(log[0].response) {
        GoesOnReads(next, log[1..], j - 1);
      }
    }
  }

  /** A copy of the request gets the response sent last; after a final, only that final is ever sent. */
  lemma LastResponseIsReplayed(request: Request, timers: Timers, rel: Reliability, moves: seq<Move>, i: nat)
    requires i < |Log(SN.Start(request, timers, rel).next, moves)|
    ensures var log := Log(SN.Start(request, timers, rel).next, moves);
            && (log[i].Again? ==> i > 0 && log[i].response == log[i - 1].response)
            && forall j :: i < j < |log| && log[i].response.status >= 200 ==> log[j] == Again(log[i].response)
  {
    var m := SN.Start(request, timers, rel).next;
    LogGoesOn(m, moves);
    GoesOnReads(m.lastResponse, Log(m, moves), i);
  }

  // ---- Every copy is answered ----

  function MachineAfter(m: SN.Machine, moves: seq<Move>): SN.Machine
    decreases |moves|
  {
    if moves == [] then m else MachineAfter(StepOf(m, moves[0]).next, moves[1..])
  }

  function LastOf(last: Option<Response>, log: seq<Out>): Option<Response> {
    if log == [] then last else Some(log[|log| - 1].response)
  }

  /** The machine holds the response its log ends with, and its log goes on where it stands. */
  lemma {:induction false} LogEnds(m: SN.Machine, moves: seq<Move>, more: Move)
    requires Remembers(m)
    ensures var m', log := MachineAfter(m, moves), Log(m, moves);
            && Remembers(m') && m'.lastResponse == LastOf(m.lastResponse, log)
            && Log(m, moves + [more]) == log + OutOf(more, StepOf(m', more).actions)
    decreases |moves|
  {
    if moves == [] {
      assert [more][1..] == [] && moves + [more] == [more];
      assert Log(m, [more]) == OutOf(more, StepOf(m, more).actions) + Log(StepOf(m, more).next, []);
    } else {
      hide StepOf, Remembers, OutOf;
      StepRemembers(m, moves[0]);
      var step := StepOf(m, moves[0]);
      var outs, rest := OutOf(moves[0], step.actions), Log(step.next, moves[1..]);
      LogEnds(step.next, moves[1..], more);
      assert (moves + [more])[1..] == moves[1..] + [more];
      assert rest == [] ==> outs + rest == outs;
    }
  }

  /**
   A copy of the request puts the response sent last on the wire again, once; before the
   first response, and when the transaction is over, it puts nothing there.
   */
  lemma CopyIsAnswered(request: Request, timers: Timers, rel: Reliability, moves: seq<Move>)
    ensures
      var start := SN.Start(request, timers, rel).next;
      var log := Log(start, moves);
      && Log(start, moves + [RequestAgain]) ==
           log + (if log == [] || MachineAfter(start, moves).phase == SN.Ended then []
               else [Again(log[|log| - 1].response)])
      && (log == [] <==> MachineAfter(start, moves).phase == SN.Trying)
  {
    var start := SN.Start(request, timers, rel).next;
    LogEnds(start, moves, RequestAgain);
  }
}
