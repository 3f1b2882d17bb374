/**
 What a server INVITE transaction puts on the wire over its whole life (section 17.2.1 of
 RFC 3261), read off what has happened to it: what its user sends up to a final response,
 and in between the last of it again for every copy of the INVITE, until the ACK for a
 refusal has arrived or is given up.
 */
module ServerInviteReplay {
  import opened Wrappers
  import opened Sip
  import opened Transaction
  import SI = ServerInviteTransaction

  datatype Move = UserSends(response: Response) | Receives(request: Request) | Fires(id: TimerId)

  function StepOf(m: SI.Machine, move: Move): Step<SI.Machine> {
    match move
    case UserSends(response) => m.SendResponse(response)
    case Receives(request) => m.OnRequest(request)
    case Fires(id) => m.OnTimer(id)
  }

  function MachineAfter(invite: Request, timers: Timers, rel: Reliability, moves: seq<Move>): SI.Machine
    decreases |moves|
  {
    if moves == [] then SI.Start(invite, timers, rel).next
    else StepOf(MachineAfter(invite, timers, rel, moves[..|moves| - 1]), moves[|moves| - 1]).next
  }

  /** Everything the transaction has sent. */
  function Log(invite: Request, timers: Timers, rel: Reliability, moves: seq<Move>): seq<SipMessage>
    decreases |moves|
  {
    if moves == [] then Sends(SI.Start(invite, timers, rel).actions)
    else
      var before := moves[..|moves| - 1];
      Log(invite, timers, rel, before)
      + Sends(StepOf(MachineAfter(invite, timers, rel, before), moves[|moves| - 1]).actions)
  }

  // ---- The life of the transaction, read off what happened to it ----

  predicate Refuses(move: Move) { move.UserSends? && move.response.status >= 300 }

  predicate Refused(before: seq<Move>) {
    exists i :: 0 <= i < |before| && Refuses(before[i])
  }

  /** A 2xx before any refusal; after a refusal, its ACK or timer H. */
  predicate Closes(before: seq<Move>, move: Move) {
    match move
    case UserSends(response) => 200 <= response.status < 300 && !Refused(before)
    case Receives(request) => request.verb == Ack && Refused(before)
    case Fires(id) => id == H && Refused(before)
  }

  /** The transaction proceeds, or waits for the ACK of a refusal. */
  predicate Open(moves: seq<Move>) {
    forall i :: 0 <= i < |moves| ==> !Closes(moves[..i], moves[i])
  }

  lemma HistoryGrows(moves: seq<Move>, move: Move)
    ensures Refused(moves + [move]) <==> Refused(moves) || Refuses(move)
    ensures Open(moves + [move]) <==> Open(moves) && !Closes(moves, move)
  {
    hide Refuses;
    var longer := moves + [move];
    assert longer[|moves|] == move && longer[..|moves|] == moves;
    assert forall i :: 0 <= i < |moves| ==> longer[i] == moves[i];
    forall i | 0 <= i < |moves| ensures longer[..i] == moves[..i] {}
    hide Closes;
    if Open(longer) {
      forall i | 0 <= i < |moves| ensures !Closes(moves[..i], moves[i]) {
        assert !Closes(longer[..i], longer[i]);
      }
      assert !Closes(longer[..|moves|], longer[|moves|]);
    }
  }

  /** The response a log ends with. */
  function Latest(log: seq<SipMessage>): Option<SipMessage> {
    if log == [] then None else Some(log[|log| - 1])
  }

  function Message(stored: Option<Response>): Option<SipMessage> {
    match stored
    case Some(resp) => Some(ResponseMessage(resp))
    case None => None
  }

  /** The phase is what the history says, and what is stored is what was sent last. */
  predicate Stands(m: SI.Machine, log: seq<SipMessage>, moves: seq<Move>) {
    && (Open(moves) <==> m.phase in {SI.Proceeding, SI.Completed})
    && (Open(moves) ==> (Refused(moves) <==> m.phase == SI.Completed))
    && (m.phase == SI.Proceeding ==> Message(m.lastProvisional) == Latest(log))
    && (m.phase == SI.Completed ==> log != [] && Message(m.lastFinal) == Latest(log))
  }

  // ---- What is sent ----

  /** What one move puts on the wire. */
  function Said(log: seq<SipMessage>, moves: seq<Move>, move: Move): seq<SipMessage> {
    var repeat := if log == [] then [] else [log[|log| - 1]];
    if !Open(moves) then []
    else match move
      case UserSends(response) => if Refused(moves) then [] else [ResponseMessage(response)]
      case Receives(request) => if request.verb == Invite then repeat else []
      case Fires(id) => if id == G && Refused(moves) then repeat else []
  }

  lemma StepSays(m: SI.Machine, log: seq<SipMessage>, moves: seq<Move>, move: Move)
    requires Stands(m, log, moves)
    ensures
      var step := StepOf(m, move);
      && Sends(step.actions) == Said(log, moves, move)
      && Stands(step.next, log + Sends(step.actions), moves + [move])
  {
    HistoryGrows(moves, move);
    hide Open, Refused;
    var step := StepOf(m, move);
    SendsFirst(step.actions);
    hide Sends;
  }

  lemma {:induction false} StandsAlways(invite: Request, timers: Timers, rel: Reliability, moves: seq<Move>)
    ensures Stands(MachineAfter(invite, timers, rel, moves), Log(invite, timers, rel, moves), moves)
    decreases |moves|
  {
    if moves == [] {
      SendsFirst(SI.Start(invite, timers, rel).actions);
    } else {
      var before, move := moves[..|moves| - 1], moves[|moves| - 1];
      StandsAlways(invite, timers, rel, before);
      StepSays(MachineAfter(invite, timers, rel, before), Log(invite, timers, rel, before), before, move);
      assert before + [move] == moves;
    }
  }

  /**
   Over every run: while the transaction proceeds or waits for the ACK of its refusal, each
   copy of the INVITE puts the response sent last on the wire again, once, if there is one;
   so does timer G after a refusal. What the user sends goes out up to the first final.
   After a 2xx, the ACK or timer H nothing is sent.
   */
  lemma EveryCopyIsAnswered(invite: Request, timers: Timers, rel: Reliability, moves: seq<Move>, move: Move)
    ensures
      var log := Log(invite, timers, rel, moves);
      Log(invite, timers, rel, moves + [move]) == log + Said(log, moves, move)
    ensures Log(invite, timers, rel, []) == []
  {
    var m, log := MachineAfter(invite, timers, rel, moves), Log(invite, timers, rel, moves);
    StandsAlways(invite, timers, rel, moves);
    StepSays(m, log, moves, move);
    hide Said, Stands;
    assert (moves + [move])[..|moves|] == moves;
    SendsFirst(SI.Start(invite, timers, rel).actions);
    assert Log(invite, timers, rel, moves + [move]) == log + Sends(StepOf(m, move).actions);
  }
}
