/**
 What a client INVITE transaction puts on the wire over its whole life (section 17.1.1 of
 RFC 3261), read off what has happened to it: the INVITE until something answers it, and an
 ACK for every arrival of a refusal until the transaction is over.
 */
module ClientInviteReplay {
  import opened Wrappers
  import opened Sip
  import opened Transaction
  import CI = ClientInviteTransaction

  datatype Move = Hears(response: Response) | Fires(id: TimerId)

  function StepOf(m: CI.Machine, move: Move): Step<CI.Machine> {
    match move
    case Hears(response) => m.OnResponse(response)
    case Fires(id) => m.OnTimer(id)
  }

  function MachineAfter(invite: Request, timers: Timers, rel: Reliability, moves: seq<Move>): CI.Machine
    decreases |moves|
  {
    if moves == [] then CI.Start(invite, timers, rel).next
    else StepOf(MachineAfter(invite, timers, rel, moves[..|moves| - 1]), moves[|moves| - 1]).next
  }

  /** Everything the transaction has sent. */
  function Log(invite: Request, timers: Timers, rel: Reliability, moves: seq<Move>): seq<SipMessage>
    decreases |moves|
  {
    if moves == [] then Sends(CI.Start(invite, timers, rel).actions)
    else
      var before := moves[..|moves| - 1];
      Log(invite, timers, rel, before)
      + Sends(StepOf(MachineAfter(invite, timers, rel, before), moves[|moves| - 1]).actions)
  }

  // ---- The life of the transaction, read off what happened to it ----

  /** The INVITE and the response have the headers an ACK is made of. */
  predicate Copyable(invite: Request, resp: Response) {
    && First(invite.headers, KVia).Some? && First(invite.headers, KFrom).Some?
    && First(invite.headers, KCallId).Some? && CSeqOf(invite.headers).Some?
    && First(resp.headers, KTo).Some?
  }

  predicate Refuses(invite: Request, move: Move) {
    move.Hears? && move.response.status >= 300 && Copyable(invite, move.response)
  }

  predicate Refused(invite: Request, before: seq<Move>) {
    exists i :: 0 <= i < |before| && Refuses(invite, before[i])
  }

  predicate Answered(invite: Request, before: seq<Move>) {
    exists i :: 0 <= i < |before|
        && (Refuses(invite, before[i]) || (before[i].Hears? && before[i].response.status < 200))
  }

  /** A 2xx, timer B with no answer yet, timer D after a refusal; without timer D, the refusal. */
  predicate Ends(invite: Request, rel: Reliability, before: seq<Move>, move: Move) {
    match move
    case Hears(response) =>
      (200 <= response.status < 300 && !Refused(invite, before)) || (rel.Reliable? && Refuses(invite, move))
    case Fires(id) => (id == B && !Answered(invite, before)) || (id == D && Refused(invite, before))
  }

  predicate Live(invite: Request, rel: Reliability, moves: seq<Move>) {
    forall i :: 0 <= i < |moves| ==> !Ends(invite, rel, moves[..i], moves[i])
  }

  lemma HistoryGrows(invite: Request, rel: Reliability, moves: seq<Move>, move: Move)
    ensures Refused(invite, moves + [move]) <==> Refused(invite, moves) || Refuses(invite, move)
    ensures Answered(invite, moves + [move])
        <==> Answered(invite, moves) || Refuses(invite, move) || (move.Hears? && move.response.status < 200)
    ensures Live(invite, rel, moves + [move]) <==> Live(invite, rel, moves) && !Ends(invite, rel, moves, move)
  {
    hide Refuses;
    var longer := moves + [move];
    assert longer[|moves|] == move && longer[..|moves|] == moves;
    assert forall i :: 0 <= i < |moves| ==> longer[i] == moves[i];
    forall i | 0 <= i < |moves| ensures longer[..i] == moves[..i] {}
    hide Ends;
    if Live(invite, rel, longer) {
      forall i | 0 <= i < |moves| ensures !Ends(invite, rel, moves[..i], moves[i]) {
        assert !Ends(invite, rel, longer[..i], longer[i]);
      }
      assert !Ends(invite, rel, longer[..|moves|], longer[|moves|]);
    }
  }

  /** The phase is what the history says. */
  predicate Stands(m: CI.Machine, invite: Request, rel: Reliability, moves: seq<Move>) {
    && m.invite == invite && m.rel == rel
    && (Refused(invite, moves) ==> Answered(invite, moves))
    && m.phase ==
       if !Live(invite, rel, moves) then CI.Ended
       else if Refused(invite, moves) then CI.Completed
       else if Answered(invite, moves) then CI.Proceeding
       else CI.Calling
  }

  /** The ACK can be built exactly if its headers are there. */
  lemma CopyableIsAckable(invite: Request, resp: Response)
    ensures Non2xxAck(invite, resp).Some? <==> Copyable(invite, resp)
  {
  }

  lemma StandsOn(m: CI.Machine, invite: Request, rel: Reliability, moves: seq<Move>, move: Move)
    requires Stands(m, invite, rel, moves)
    ensures Stands(StepOf(m, move).next, invite, rel, moves + [move])
  {
    HistoryGrows(invite, rel, moves, move);
    if move.Hears? {
      CopyableIsAckable(invite, move.response);
    }
    hide Live, Refused, Answered, Sip.Non2xxAck, Copyable;
  }

  lemma {:induction false} StandsAlways(invite: Request, timers: Timers, rel: Reliability, moves: seq<Move>)
    ensures Stands(MachineAfter(invite, timers, rel, moves), invite, rel, moves)
    decreases |moves|
  {
    if moves == [] {
    } else {
      var before := moves[..|moves| - 1];
      StandsAlways(invite, timers, rel, before);
      StandsOn(MachineAfter(invite, timers, rel, before), invite, rel, before, moves[|moves| - 1]);
      assert before + [moves[|moves| - 1]] == moves;
    }
  }

  // ---- What is sent ----

  /** An ACK with the INVITE's key, number, caller, target and routes, and the refusal's To. */
  predicate Acknowledges(sent: SipMessage, invite: Request, refusal: Response) {
    && sent.RequestMessage?
    && var ack := sent.request;
    && ack.verb == Ack && RequestKey(ack) == RequestKey(invite) && ack.uri == invite.uri && ack.body == []
    && CSeqOf(invite.headers).Some?
    && CSeqOf(ack.headers) == Some(CSeq(CSeqOf(invite.headers).value.number, Ack))
    && First(ack.headers, KTo) == First(refusal.headers, KTo) && First(ack.headers, KVia) == First(invite.headers, KVia)
    && First(ack.headers, KFrom) == First(invite.headers, KFrom)
    && First(ack.headers, KCallId) == First(invite.headers, KCallId)
    && Only(ack.headers, KRoute) == Only(invite.headers, KRoute)
  }

  /** What one move puts on the wire. */
  predicate Said(sent: seq<SipMessage>, invite: Request, rel: Reliability, moves: seq<Move>, move: Move) {
    if Live(invite, rel, moves) && Refuses(invite, move) then
      |sent| == 1 && Acknowledges(sent[0], invite, move.response)
    else if Live(invite, rel, moves) && !Answered(invite, moves) && move == Fires(A) then
      sent == [RequestMessage(invite)]
    else sent == []
  }

  lemma StepSays(m: CI.Machine, invite: Request, rel: Reliability, moves: seq<Move>, move: Move)
    requires invite.verb == Invite && Stands(m, invite, rel, moves)
    ensures Said(Sends(StepOf(m, move).actions), invite, rel, moves, move)
  {
    if move.Hears? {
      AckMatchesInvite(invite, move.response);
      CopyableIsAckable(invite, move.response);
    }
    hide Sip.Non2xxAck, Sip.RequestKey, Sip.Only, Sip.First, Live, Refused, Answered, Copyable;
    SendsFirst(StepOf(m, move).actions);
  }

  /**
   Over every run: each arrival of a refusal, the first or a copy, puts exactly one ACK for
   it on the wire as long as the transaction is not over; timer A puts the INVITE there
   until something answers it; nothing else puts anything there.
   */
  lemma EveryRefusalIsAcknowledged(invite: Request, timers: Timers, rel: Reliability, moves: seq<Move>, move: Move)
    requires invite.verb == Invite
    ensures
      var log, longer := Log(invite, timers, rel, moves), Log(invite, timers, rel, moves + [move]);
      && log <= longer
      && Said(longer[|log|..], invite, rel, moves, move)
    ensures Log(invite, timers, rel, []) == [RequestMessage(invite)]
  {
    hide Said, Stands;
    var m := MachineAfter(invite, timers, rel, moves);
    StandsAlways(invite, timers, rel, moves);
    StepSays(m, invite, rel, moves, move);
    assert (moves + [move])[..|moves|] == moves;
    SendsFirst(CI.Start(invite, timers, rel).actions);
    assert Log(invite, timers, rel, moves + [move]) == Log(invite, timers, rel, moves) + Sends(StepOf(m, move).actions);
  }
}
