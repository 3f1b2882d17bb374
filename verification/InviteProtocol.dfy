/**
 The INVITE protocol of sections 17.1.1 and 17.2.1 of RFC 3261 between two parties. One
 client transaction and the server side of the same key are joined by a network that may
 lose, duplicate, delay and reorder: a message once sent may arrive any number of times,
 at any later point, or never. Timers fire at any time. The server side opens a
 transaction for every INVITE that finds none, as the engine does, so it may have several
 instances one after the other.
 */
module InviteProtocol {
  import opened Wrappers
  import opened Sip
  import opened Transaction
  import CI = ClientInviteTransaction
  import SI = ServerInviteTransaction

  datatype Pair = Pair(
    client: CI.Machine,
    /** The live server transaction, the last of its instances. */
    server: Option<SI.Machine>,
    /** Every request and response ever sent. */
    requests: set<Request>,
    responses: set<Response>,
    /** The final response each server instance's user has committed to. */
    committed: seq<Option<Response>>,
    /** The server instances an ACK has confirmed. */
    acked: set<nat>,
    /** What the client has handed to its user. */
    delivered: seq<Response>
  )

  datatype Move =
    | ToServer(request: Request)
    | ToClient(response: Response)
    | ClientTimer(id: TimerId)
    | ServerTimer(id: TimerId)
    | Answer(answer: Response)

  function RequestsOf(actions: seq<TxAction>): set<Request> {
    set a | a in actions && a.Send? && a.message.RequestMessage? :: a.message.request
  }

  function ResponsesOf(actions: seq<TxAction>): set<Response> {
    set a | a in actions && a.Send? && a.message.ResponseMessage? :: a.message.response
  }

  function DeliveriesOf(actions: seq<TxAction>): seq<Response> {
    if actions == [] then []
    else (if actions[0].DeliverResponse? then [actions[0].response] else []) + DeliveriesOf(actions[1..])
  }

  function Begin(invite: Request, timers: Timers, rel: Reliability): Pair {
    var step := CI.Start(invite, timers, rel);
    Pair(step.next, None, RequestsOf(step.actions), {}, [], {}, [])
  }

  function ClientMoves(p: Pair, step: Step<CI.Machine>): Pair {
    p.(client := step.next, requests := p.requests + RequestsOf(step.actions),
        delivered := p.delivered + DeliveriesOf(step.actions))
  }

  /** A transaction that terminates leaves the table. */
  function ServerMoves(p: Pair, step: Step<SI.Machine>): Pair {
    p.(server := if Transaction.Terminated in step.actions then None else Some(step.next),
       responses := p.responses + ResponsesOf(step.actions))
  }

  function OpenServer(p: Pair, request: Request): Pair {
    var step := SI.Start(request, p.client.timers, p.client.rel);
    ServerMoves(p.(committed := p.committed + [None]), step)
  }

  /** The ACK a completed transaction waits for. */
  predicate Confirms(server: SI.Machine, request: Request) {
    server.phase == SI.Completed && request.verb == Ack
  }

  /** The user of a server transaction that still proceeds commits to the first final it sends. */
  function Commit(p: Pair, server: SI.Machine, resp: Response): Pair {
    if server.phase == SI.Proceeding && resp.status >= 200 && |p.committed| > 0
    then p.(committed := p.committed[|p.committed| - 1 := Some(resp)])
    else p
  }

  function Play(p: Pair, move: Move): Pair {
    match move
    case ToServer(req) =>
      if req !in p.requests || RequestKey(req) != RequestKey(p.client.invite) then p
      else
        (match p.server
         case None => if req.verb == Ack then p else OpenServer(p, req)
         case Some(m) =>
           ServerMoves(if Confirms(m, req) && |p.committed| > 0 then p.(acked := p.acked + {|p.committed| - 1})
               else p, m.OnRequest(req)))
    case ToClient(resp) =>
      if resp !in p.responses || ResponseKey(resp) != RequestKey(p.client.invite) then p
      else ClientMoves(p, p.client.OnResponse(resp))
    case ClientTimer(id) => ClientMoves(p, p.client.OnTimer(id))
    case ServerTimer(id) =>
      (match p.server
       case None => p
       case Some(m) => ServerMoves(p, m.OnTimer(id)))
    case Answer(resp) =>
      (match p.server
       case None => p
       case Some(m) => ServerMoves(Commit(p, m, resp), m.SendResponse(resp)))
  }

  function PlayAll(p: Pair, moves: seq<Move>): Pair
    decreases |moves|
  {
    if moves == [] then p else PlayAll(Play(p, moves[0]), moves[1..])
  }

  // ---- What every run keeps ----

  predicate IsFinal(resp: Response) { resp.status >= 200 }

  predicate Refusal(resp: Response) { resp.status >= 300 }

  /** The final responses the client has handed to its user. */
  function Finals(delivered: seq<Response>): seq<Response> {
    if delivered == [] then []
    else (if IsFinal(delivered[0]) then [delivered[0]] else []) + Finals(delivered[1..])
  }

  lemma FinalsStep(a: seq<Response>)
    requires a != []
    ensures Finals(a) == (if IsFinal(a[0]) then [a[0]] else []) + Finals(a[1..])
  {
  }

  lemma {:induction false} FinalsConcat(a: seq<Response>, b: seq<Response>)
    ensures Finals(a + b) == Finals(a) + Finals(b)
    decreases |a|
  {
    if a == [] {
      assert a + b == b;
    } else {
      FinalsConcat(a[1..], b);
      FinalsStep(a);
      FinalsStep(a + b);
      hide Finals;
      assert (a + b)[0] == a[0] && (a + b)[1..] == a[1..] + b;
    }
  }

  /** The client has taken a refusal, and nothing else that is final. */
  predicate TookRefusal(p: Pair) {
    |Finals(p.delivered)| == 1 && Refusal(Finals(p.delivered)[0])
  }

  /** The client delivers finals according to its phase. */
  predicate ClientKept(p: Pair) {
    && p.client.invite.verb == Invite
    && (p.client.phase in {CI.Calling, CI.Proceeding} ==> Finals(p.delivered) == [])
    && (p.client.phase == CI.Completed ==> TookRefusal(p))
    && |Finals(p.delivered)| <= 1
    && forall f :: f in Finals(p.delivered) ==> f in p.responses
  }

  /** A request in flight is the INVITE or an ACK for its key, and an ACK means a refusal was taken. */
  predicate RequestsKept(p: Pair) {
    forall r :: r in p.requests ==>
        r == p.client.invite || (r.verb == Ack && RequestKey(r) == RequestKey(p.client.invite) && TookRefusal(p))
  }

  /** A final in flight is one that some instance's user committed to. */
  predicate ResponsesKept(p: Pair) {
    forall f :: f in p.responses && IsFinal(f) ==> Some(f) in p.committed
  }

  /** The live instance remembers what its user sent. */
  predicate InstanceKept(m: SI.Machine, commitment: Option<Response>, acked: bool) {
    && (m.lastProvisional.Some? ==> !IsFinal(m.lastProvisional.value))
    && match m.phase
       case Proceeding => commitment == None && m.lastFinal == None && !acked
       case Completed => commitment == m.lastFinal && m.lastFinal.Some? && Refusal(m.lastFinal.value) && !acked
       case Confirmed => commitment == m.lastFinal && m.lastFinal.Some? && Refusal(m.lastFinal.value) && acked
       case Ended => false
  }

  predicate ServerKept(p: Pair) {
    && (forall c :: c in p.committed && c.Some? ==> IsFinal(c.value))
    && (p.acked != {} ==> TookRefusal(p))
    && (forall i :: i in p.acked ==> i < |p.committed| && p.committed[i].Some? && Refusal(p.committed[i].value))
    && (p.server.Some? ==>
        |p.committed| > 0 && InstanceKept(p.server.value, p.committed[|p.committed| - 1], |p.committed| - 1 in p.acked))
  }

  predicate Kept(p: Pair) {
    ClientKept(p) && RequestsKept(p) && ResponsesKept(p) && ServerKept(p)
  }

  lemma BeginKeeps(invite: Request, timers: Timers, rel: Reliability)
    requires invite.verb == Invite
    ensures Kept(Begin(invite, timers, rel))
  {
  }

  /** What a step of the client can do to the finals it has delivered and the ACKs it has sent. */
  predicate ClientStepFits(before: CI.Machine, step: Step<CI.Machine>, heard: Option<Response>) {
    && step.next.invite == before.invite
    && (match Finals(DeliveriesOf(step.actions)) == []
        case true =>
            step.next.phase == before.phase || step.next.phase == CI.Ended
                || (before.phase == CI.Calling && step.next.phase == CI.Proceeding)
        case false =>
          && before.phase in {CI.Calling, CI.Proceeding} && heard.Some?
          && Finals(DeliveriesOf(step.actions)) == [heard.value]
          && (step.next.phase == CI.Ended || (step.next.phase == CI.Completed && Refusal(heard.value))))
    && forall r :: r in RequestsOf(step.actions) ==>
         || r == before.invite
         || (&& r.verb == Ack && RequestKey(r) == RequestKey(before.invite)
             && (before.phase == CI.Completed || (Finals(DeliveriesOf(step.actions)) != [] && Refusal(heard.value))))
  }

  lemma ShortDeliveries(a: TxAction, b: TxAction, c: TxAction)
    ensures DeliveriesOf([]) == []
    ensures DeliveriesOf([a]) == if a.DeliverResponse? then [a.response] else []
    ensures DeliveriesOf([a, b]) == DeliveriesOf([a]) + DeliveriesOf([b])
    ensures DeliveriesOf([a, b, c]) == DeliveriesOf([a]) + DeliveriesOf([b]) + DeliveriesOf([c])
  {
    assert [a][1..] == [] && [a, b][1..] == [b] && [b, c][1..] == [c] && [a, b, c][1..] == [b, c];
    assert [b][1..] == [] && [c][1..] == [];
  }

  lemma FinalsOfOne(f: Response)
    ensures Finals([f]) == if IsFinal(f) then [f] else []
  {
    assert [f][1..] == [];
  }

  /** The ACK, if one can be built, is for the INVITE's key. */
  lemma AckFits(invite: Request, resp: Response)
    requires invite.verb == Invite
    ensures Non2xxAck(invite, resp).Some? ==>
              var ack := Non2xxAck(invite, resp).value; ack.verb == Ack && RequestKey(ack) == RequestKey(invite)
  {
    AckMatchesInvite(invite, resp);
  }

  lemma ClientHearsAgain(m: CI.Machine, resp: Response)
    requires m.invite.verb == Invite && m.phase in {CI.Completed, CI.Ended}
    ensures ClientStepFits(m, m.OnResponse(resp), Some(resp))
  {
    AckFits(m.invite, resp);
    hide Sip.Non2xxAck, Sip.RequestKey;
    var actions := m.OnResponse(resp).actions;
    if actions != [] {
      ShortDeliveries(actions[0], actions[0], actions[0]);
      assert actions == [actions[0]];
    }
  }

  lemma ClientHearsProvisional(m: CI.Machine, resp: Response)
    requires m.invite.verb == Invite && m.phase in {CI.Calling, CI.Proceeding} && !IsFinal(resp)
    ensures ClientStepFits(m, m.OnResponse(resp), Some(resp))
  {
    FinalsOfOne(resp);
    var actions := m.OnResponse(resp).actions;
    var deliver := DeliverResponse(resp);
    ShortDeliveries(StopTimer(A), StopTimer(B), deliver);
    ShortDeliveries(deliver, deliver, deliver);
    assert actions == [deliver] || actions == [StopTimer(A), StopTimer(B), deliver];
    hide DeliveriesOf, Finals;
    assert DeliveriesOf(actions) == [resp];
  }

  lemma SuccessFits(m: CI.Machine, resp: Response, next: CI.Machine)
    requires m.phase in {CI.Calling, CI.Proceeding} && IsFinal(resp) && next == m.(phase := CI.Ended)
    ensures ClientStepFits(m, Step(next, [DeliverResponse(resp), Transaction.Terminated]), Some(resp))
  {
    FinalsOfOne(resp);
    ShortDeliveries(DeliverResponse(resp), Transaction.Terminated, TimedOut);
    assert DeliveriesOf([DeliverResponse(resp), Transaction.Terminated]) == [resp];
    hide DeliveriesOf, Finals;
  }

  lemma RefusalFits(m: CI.Machine, resp: Response, ack: Request, next: CI.Machine, last: TxAction)
    requires m.phase in {CI.Calling, CI.Proceeding} && Refusal(resp) && (last.Terminated? || last.StartTimer?)
    requires ack.verb == Ack && RequestKey(ack) == RequestKey(m.invite)
    requires next == m.(phase := CI.Ended) || next == m.(phase := CI.Completed)
    ensures ClientStepFits(m, Step(next, [Send(RequestMessage(ack)), DeliverResponse(resp), last]), Some(resp))
  {
    FinalsOfOne(resp);
    ShortDeliveries(Send(RequestMessage(ack)), DeliverResponse(resp), last);
    assert DeliveriesOf([Send(RequestMessage(ack)), DeliverResponse(resp), last]) == [resp];
    hide DeliveriesOf, Finals, Sip.RequestKey;
  }

  lemma ClientHearsFinal(m: CI.Machine, resp: Response)
    requires m.invite.verb == Invite && m.phase in {CI.Calling, CI.Proceeding} && IsFinal(resp)
    ensures ClientStepFits(m, m.OnResponse(resp), Some(resp))
  {
    AckFits(m.invite, resp);
    hide Sip.Non2xxAck, Sip.RequestKey;
    var step := m.OnResponse(resp);
    if !Refusal(resp) {
      hide ClientStepFits;
      assert step == Step(m.(phase := CI.Ended), [DeliverResponse(resp), Transaction.Terminated]);
      SuccessFits(m, resp, step.next);
    } else if Non2xxAck(m.invite, resp).Some? {
      hide ClientStepFits;
      var ack := Non2xxAck(m.invite, resp).value;
      assert step.actions == [Send(RequestMessage(ack)), DeliverResponse(resp), step.actions[2]];
      RefusalFits(m, resp, ack, step.next, step.actions[2]);
    } else {
      ShortDeliveries(TimedOut, TimedOut, TimedOut);
      assert step == Step(m, []);
    }
  }

  lemma ClientHears(m: CI.Machine, resp: Response)
    requires m.invite.verb == Invite
    ensures ClientStepFits(m, m.OnResponse(resp), Some(resp))
  {
    hide ClientStepFits;
    match m.phase
    case Completed | Ended => ClientHearsAgain(m, resp);
    case Calling | Proceeding =>
      if IsFinal(resp) {
        ClientHearsFinal(m, resp);
      } else {
        ClientHearsProvisional(m, resp);
      }
  }

  lemma ClientWakes(m: CI.Machine, id: TimerId)
    ensures ClientStepFits(m, m.OnTimer(id), None)
  {
    var actions := m.OnTimer(id).actions;
    if actions != [] {
      var b := if |actions| > 1 then actions[1] else actions[0];
      ShortDeliveries(actions[0], b, b);
      assert actions == [actions[0]] || actions == [actions[0], b];
    }
  }

  lemma ClientMovesKeeps(p: Pair, step: Step<CI.Machine>, heard: Option<Response>)
    requires Kept(p) && ClientStepFits(p.client, step, heard) && (heard.Some? ==> heard.value in p.responses)
    ensures Kept(ClientMoves(p, step))
  {
    var p' := ClientMoves(p, step);
    FinalsConcat(p.delivered, DeliveriesOf(step.actions));
    hide DeliveriesOf, RequestsOf, Finals;
    assert Finals(p'.delivered) == Finals(p.delivered) + Finals(DeliveriesOf(step.actions));
    if Finals(DeliveriesOf(step.actions)) == [] {
      assert Finals(p'.delivered) == Finals(p.delivered);
    } else {
      assert Finals(p'.delivered) == [heard.value];
    }
  }

  lemma ServerHears(p: Pair, m: SI.Machine, req: Request)
    requires Kept(p) && p.server == Some(m) && req in p.requests
    ensures Kept(Play(p, ToServer(req)))
  {
    hide Finals, Sip.RequestKey;
  }

  lemma ServerWakes(p: Pair, m: SI.Machine, id: TimerId)
    requires Kept(p) && p.server == Some(m)
    ensures Kept(ServerMoves(p, m.OnTimer(id)))
  {
    hide Finals, Sip.RequestKey;
  }

  lemma ServerAnswers(p: Pair, m: SI.Machine, resp: Response)
    requires Kept(p) && p.server == Some(m)
    ensures Kept(ServerMoves(Commit(p, m, resp), m.SendResponse(resp)))
  {
    hide Finals, Sip.RequestKey;
    var p' := ServerMoves(Commit(p, m, resp), m.SendResponse(resp));
    var last := |p.committed| - 1;
    forall f | f in p'.responses && IsFinal(f) ensures Some(f) in p'.committed {
      if f in p.responses {
        var i :| 0 <= i < |p.committed| && p.committed[i] == Some(f);
        assert p'.committed[i] == Some(f);
      } else {
        assert p'.committed[last] == Some(resp);
      }
    }
  }

  lemma ServerOpens(p: Pair, req: Request)
    requires Kept(p) && p.server == None
    ensures Kept(OpenServer(p, req))
  {
  }

  lemma PlayKeeps(p: Pair, move: Move)
    requires Kept(p)
    ensures Kept(Play(p, move))
  {
    match move
    case ToServer(req) =>
      if req in p.requests {
        if p.server.Some? {
          ServerHears(p, p.server.value, req);
        } else {
          ServerOpens(p, req);
        }
      }
    case ToClient(resp) =>
      if resp in p.responses {
        ClientHears(p.client, resp);
        ClientMovesKeeps(p, p.client.OnResponse(resp), Some(resp));
      }
    case ClientTimer(id) =>
      ClientWakes(p.client, id);
      ClientMovesKeeps(p, p.client.OnTimer(id), None);
    case ServerTimer(id) =>
      if p.server.Some? {
        ServerWakes(p, p.server.value, id);
      }
    case Answer(resp) =>
      if p.server.Some? {
        ServerAnswers(p, p.server.value, resp);
      }
  }

  lemma {:induction false} AlwaysKept(p: Pair, moves: seq<Move>)
    requires Kept(p)
    ensures Kept(PlayAll(p, moves))
    decreases |moves|
  {
    if moves == [] {
    } else {
      PlayKeeps(p, moves[0]);
      AlwaysKept(Play(p, moves[0]), moves[1..]);
    }
  }

  lemma {:induction false} DeliveredFinalsAreFinal(delivered: seq<Response>)
    ensures forall f :: f in Finals(delivered) ==> IsFinal(f)
  {
    if delivered == [] {
    } else {
      DeliveredFinalsAreFinal(delivered[1..]);
    }
  }

  /** The finals of one run, all of whose server instances agree on nothing but that each committed once. */
  lemma FinalsAreCommitted(invite: Request, timers: Timers, rel: Reliability, moves: seq<Move>)
    requires invite.verb == Invite
    ensures
      var p := PlayAll(Begin(invite, timers, rel), moves);
      && |Finals(p.delivered)| <= 1
      && (forall f :: f in p.responses && IsFinal(f) ==> Some(f) in p.committed)
      && (forall f :: f in Finals(p.delivered) ==> Some(f) in p.committed)
      && (forall i :: i in p.acked ==>
          TookRefusal(p) && i < |p.committed| && p.committed[i].Some? && Refusal(p.committed[i].value))
  {
    BeginKeeps(invite, timers, rel);
    AlwaysKept(Begin(invite, timers, rel), moves);
    DeliveredFinalsAreFinal(PlayAll(Begin(invite, timers, rel), moves).delivered);
  }

  lemma ConfirmedIsAcked(p: Pair)
    requires Kept(p) && |p.committed| <= 1
    ensures p.server.Some? && p.server.value.phase == SI.Confirmed ==> 0 in p.acked
    ensures forall i :: i in p.acked ==> TookRefusal(p)
  {
    hide Finals;
  }

  /**
   With one server transaction both sides agree: every final ever in flight is the one the
   server's user committed to, the client hands over at most one final and it is that one,
   and the server is confirmed only if the client took that same final, a refusal.
   */
  lemma OneServerOneFinal(invite: Request, timers: Timers, rel: Reliability, moves: seq<Move>)
    requires invite.verb == Invite
    requires |PlayAll(Begin(invite, timers, rel), moves).committed| <= 1
    ensures
      var p := PlayAll(Begin(invite, timers, rel), moves);
      && (forall f :: f in p.responses && IsFinal(f) ==> p.committed == [Some(f)])
      && (Finals(p.delivered) == [] || p.committed == [Some(Finals(p.delivered)[0])])
      && (0 in p.acked ==>
          |Finals(p.delivered)| == 1 && Refusal(Finals(p.delivered)[0])
              && p.committed == [Some(Finals(p.delivered)[0])])
      && (p.server.Some? && p.server.value.phase == SI.Confirmed ==> 0 in p.acked)
  {
    hide PlayAll, Begin, Kept;
    FinalsAreCommitted(invite, timers, rel, moves);
    BeginKeeps(invite, timers, rel);
    AlwaysKept(Begin(invite, timers, rel), moves);
    var p := PlayAll(Begin(invite, timers, rel), moves);
    ConfirmedIsAcked(p);
    if Finals(p.delivered) != [] {
      assert Finals(p.delivered)[0] in Finals(p.delivered);
    }
  }

  /** Every final an instance's user committed to is in flight. */
  predicate Flown(p: Pair) {
    forall c :: c in p.committed && c.Some? ==> c.value in p.responses
  }

  lemma AnswerFlies(p: Pair, m: SI.Machine, resp: Response)
    requires Kept(p) && Flown(p) && p.server == Some(m)
    ensures Flown(ServerMoves(Commit(p, m, resp), m.SendResponse(resp)))
  {
    hide Finals, Sip.RequestKey, ClientKept, RequestsKept, ResponsesKept;
    var actions := m.SendResponse(resp).actions;
    if m.phase == SI.Proceeding {
      assert Send(ResponseMessage(resp)) in actions;
      assert resp in ResponsesOf(actions);
    }
  }

  lemma PlayFlies(p: Pair, move: Move)
    requires Kept(p) && Flown(p)
    ensures Flown(Play(p, move))
  {
    hide Finals, Sip.RequestKey, Kept, CI.Machine.OnResponse, CI.Machine.OnTimer;
    if move.Answer? && p.server.Some? {
      AnswerFlies(p, p.server.value, move.answer);
    }
  }

  lemma {:induction false} AlwaysFlown(p: Pair, moves: seq<Move>)
    requires Kept(p) && Flown(p)
    ensures Flown(PlayAll(p, moves))
    decreases |moves|
  {
    if moves == [] {
    } else {
      PlayKeeps(p, moves[0]);
      PlayFlies(p, moves[0]);
      hide Play, Kept, Flown;
      AlwaysFlown(Play(p, moves[0]), moves[1..]);
    }
  }

  /** All finals ever in flight are one. */
  ghost predicate OneFinal(p: Pair) {
    forall f, g :: f in p.responses && IsFinal(f) && g in p.responses && IsFinal(g) ==> f == g
  }

  /** All server instances whose users committed to a final committed to the same. */
  predicate OneCommitment(p: Pair) {
    forall c, d :: c in p.committed && c.Some? && d in p.committed && d.Some? ==> c == d
  }

  lemma CommitmentsFly(p: Pair)
    requires Kept(p) && Flown(p)
    ensures OneFinal(p) <==> OneCommitment(p)
  {
    hide ClientKept, RequestsKept, InstanceKept, Finals, IsFinal;
    assert forall c :: c in p.committed && c.Some? ==> IsFinal(c.value) && c.value in p.responses;
    if OneCommitment(p) {
      forall f, g | f in p.responses && IsFinal(f) && g in p.responses && IsFinal(g) ensures f == g {
        assert Some(f) in p.committed && Some(g) in p.committed;
      }
    }
  }

  lemma DeliveredIsCommitted(p: Pair)
    requires forall f :: f in Finals(p.delivered) ==> Some(f) in p.committed
    requires forall i :: i in p.acked ==> TookRefusal(p) && i < |p.committed| && p.committed[i].Some?
    ensures OneCommitment(p) && Finals(p.delivered) != [] ==>
      forall c :: c in p.committed && c.Some? ==> c.value == Finals(p.delivered)[0]
    ensures OneCommitment(p) ==> forall i :: i in p.acked ==>
      Finals(p.delivered) != [] && i < |p.committed| && p.committed[i] == Some(Finals(p.delivered)[0])
  {
    hide Finals;
    if Finals(p.delivered) != [] {
      var f := Finals(p.delivered)[0];
      assert f in Finals(p.delivered) && Some(f) in p.committed;
      assert forall i :: i in p.acked ==> p.committed[i] in p.committed;
    }
  }

  /**
   However many server instances there were, one final is ever in flight exactly if their
   users committed to one. Then it is the one the client took and the one of every instance
   that an ACK confirmed.
   */
  lemma FinalsAgreeIff(invite: Request, timers: Timers, rel: Reliability, moves: seq<Move>)
    requires invite.verb == Invite
    ensures
      var p := PlayAll(Begin(invite, timers, rel), moves);
      && (OneFinal(p) <==> OneCommitment(p))
      && (OneCommitment(p) && Finals(p.delivered) != [] ==>
            forall c :: c in p.committed && c.Some? ==> c.value == Finals(p.delivered)[0])
      && (OneCommitment(p) ==> forall i :: i in p.acked ==>
            Finals(p.delivered) != [] && i < |p.committed| && p.committed[i] == Some(Finals(p.delivered)[0]))
  {
    BeginKeeps(invite, timers, rel);
    AlwaysKept(Begin(invite, timers, rel), moves);
    AlwaysFlown(Begin(invite, timers, rel), moves);
    FinalsAreCommitted(invite, timers, rel, moves);
    hide PlayAll, Begin;
    CommitmentsFly(PlayAll(Begin(invite, timers, rel), moves));
    DeliveredIsCommitted(PlayAll(Begin(invite, timers, rel), moves));
  }

  // ---- A second server transaction ----

  lemma CopyOpens(p: Pair, invite: Request)
    requires p.server == None && invite in p.requests && p.client.invite == invite && invite.verb == Invite
    ensures Play(p, ToServer(invite)) ==
      p.(server := Some(SI.Start(invite, p.client.timers, p.client.rel).next), committed := p.committed + [None])
  {
    var step := SI.Start(invite, p.client.timers, p.client.rel);
    assert ResponsesOf(step.actions) == {};
  }

  lemma UserRefuses(p: Pair, m: SI.Machine, refusal: Response)
    requires p.server == Some(m) && m.phase == SI.Proceeding && p.committed != [] && Refusal(refusal)
    ensures Play(p, Answer(refusal)) ==
      p.(server := Some(m.(phase := SI.Completed, lastFinal := Some(refusal))), responses := p.responses + {refusal},
         committed := p.committed[|p.committed| - 1 := Some(refusal)])
  {
    var actions := m.SendResponse(refusal).actions;
    assert Send(ResponseMessage(refusal)) in actions;
    assert ResponsesOf(actions) == {refusal};
  }

  lemma ClientTakes(p: Pair, refusal: Response)
    requires p.client.phase == CI.Calling && p.client.rel == Unreliable && refusal in p.responses && Refusal(refusal)
    requires ResponseKey(refusal) == RequestKey(p.client.invite) && Non2xxAck(p.client.invite, refusal).Some?
    ensures Play(p, ToClient(refusal)) ==
      p.(client := p.client.(phase := CI.Completed),
          requests := p.requests + {Non2xxAck(p.client.invite, refusal).value},
         delivered := p.delivered + [refusal])
  {
    hide Sip.Non2xxAck, Sip.RequestKey, Sip.ResponseKey;
    var ack := Non2xxAck(p.client.invite, refusal).value;
    var send, deliver, arm := Send(RequestMessage(ack)), DeliverResponse(refusal),
        StartTimer(D, p.client.timers.D(Unreliable));
    assert p.client.OnResponse(refusal).actions == [send, deliver, arm];
    ShortDeliveries(send, deliver, arm);
    assert RequestsOf([send, deliver, arm]) == {ack} by {
      assert send in [send, deliver, arm];
    }
  }

  lemma ServerGivesUp(p: Pair, m: SI.Machine)
    requires p.server == Some(m) && m.phase == SI.Completed
    ensures Play(p, ServerTimer(H)) == p.(server := None)
  {
    assert ResponsesOf(m.OnTimer(H).actions) == {};
  }

  lemma AckConfirms(p: Pair, m: SI.Machine, ack: Request)
    requires p.server == Some(m) && m.phase == SI.Completed && m.rel == Unreliable && p.committed != []
    requires ack in p.requests && ack.verb == Ack && RequestKey(ack) == RequestKey(p.client.invite)
    ensures Play(p, ToServer(ack))
        == p.(server := Some(m.(phase := SI.Confirmed)), acked := p.acked + {|p.committed| - 1})
  {
    assert ResponsesOf(m.OnRequest(ack).actions) == {};
  }

  lemma BeginSends(invite: Request, timers: Timers, rel: Reliability)
    ensures Begin(invite, timers, rel) == Pair(CI.Start(invite, timers, rel).next, None, {invite}, {}, [], {}, [])
  {
    var actions := CI.Start(invite, timers, rel).actions;
    assert Send(RequestMessage(invite)) in actions;
    assert RequestsOf(actions) == {invite};
  }

  /** A late copy of the INVITE opens another instance, and the late ACK confirms its refusal. */
  lemma AnotherIsConfirmed(p: Pair, refusal: Response, another: Response, ack: Request)
    requires p.server == None && p.committed == [Some(refusal)] && Refusal(another) && p.client.rel == Unreliable
    requires p.client.invite in p.requests && p.client.invite.verb == Invite
    requires ack in p.requests && ack.verb == Ack && RequestKey(ack) == RequestKey(p.client.invite)
    ensures
      var p' := Play(Play(Play(p, ToServer(p.client.invite)), Answer(another)), ToServer(ack));
      && p'.committed == [Some(refusal), Some(another)] && p'.acked == p.acked + {1} && p'.delivered == p.delivered
      && p'.server.Some? && p'.server.value.phase == SI.Confirmed && p'.server.value.lastFinal == Some(another)
  {
    hide Sip.RequestKey, Play;
    CopyOpens(p, p.client.invite);
    var p1 := Play(p, ToServer(p.client.invite));
    assert p1.committed == [Some(refusal), None];
    UserRefuses(p1, p1.server.value, another);
    var p2 := Play(p1, Answer(another));
    assert p2.committed == [Some(refusal), Some(another)];
    AckConfirms(p2, p2.server.value, ack);
  }

  /** A refusal is taken and acknowledged, but its transaction times out before the ACK arrives. */
  function Unacknowledged(start: Pair, refusal: Response): Pair {
    Play(Play(Play(Play(start, ToServer(start.client.invite)), Answer(refusal)), ToClient(refusal)), ServerTimer(H))
  }

  lemma LosesTheAck(start: Pair, refusal: Response)
    requires start.client.phase == CI.Calling && start.client.rel == Unreliable && start.client.invite.verb == Invite
    requires start.requests == {start.client.invite} && start.server == None && start.committed == []
        && start.delivered == []
    requires ResponseKey(refusal) == RequestKey(start.client.invite) && Non2xxAck(start.client.invite, refusal).Some?
        && Refusal(refusal)
    ensures
      var p := Unacknowledged(start, refusal);
      && p.requests == {start.client.invite, Non2xxAck(start.client.invite, refusal).value} && p.server == None
      && p.committed == [Some(refusal)] && p.acked == start.acked && p.delivered == [refusal]
      && p.client == start.client.(phase := CI.Completed)
  {
    hide Sip.Non2xxAck, Sip.RequestKey, Sip.ResponseKey, Play;
    CopyOpens(start, start.client.invite);
    var p1 := Play(start, ToServer(start.client.invite));
    UserRefuses(p1, p1.server.value, refusal);
    var p2 := Play(p1, Answer(refusal));
    ClientTakes(p2, refusal);
    var p3 := Play(p2, ToClient(refusal));
    ServerGivesUp(p3, p3.server.value);
  }

  lemma PlayThen(p: Pair, move: Move, moves: seq<Move>)
    ensures PlayAll(p, [move] + moves) == PlayAll(Play(p, move), moves)
  {
    assert ([move] + moves)[1..] == moves;
    hide Play;
  }

  lemma PlayFour(p: Pair, a: Move, b: Move, c: Move, d: Move, moves: seq<Move>)
    ensures PlayAll(p, [a, b, c, d] + moves) == PlayAll(Play(Play(Play(Play(p, a), b), c), d), moves)
  {
    hide Play, PlayAll;
    PlayThen(p, a, [b, c, d] + moves);
    PlayThen(Play(p, a), b, [c, d] + moves);
    PlayThen(Play(Play(p, a), b), c, [d] + moves);
    PlayThen(Play(Play(Play(p, a), b), c), d, moves);
    assert [a, b, c, d] + moves == [a] + ([b, c, d] + moves) && [b, c, d] + moves == [b] + ([c, d] + moves);
    assert [c, d] + moves == [c] + ([d] + moves);
  }

  lemma PlayThree(p: Pair, a: Move, b: Move, c: Move)
    ensures PlayAll(p, [a, b, c]) == Play(Play(Play(p, a), b), c)
  {
    hide Play;
    PlayThen(p, a, [b, c]);
    PlayThen(Play(p, a), b, [c]);
    PlayThen(Play(Play(p, a), b), c, []);
    assert [a, b, c] == [a] + [b, c] && [b, c] == [b] + [c] && [c] == [c] + [];
  }

  /**
   With a second server transaction they need not agree. The ACK for the first refusal is
   late; the first transaction has timed out, a late copy of the INVITE has opened another,
   and its user refuses with a different response. That late ACK confirms it, though the
   client never took that refusal.
   */
  lemma LateAckConfirmsAnother(invite: Request, timers: Timers, refusal: Response, another: Response)
    returns (moves: seq<Move>)
    requires invite.verb == Invite && Refusal(refusal) && Refusal(another) && another != refusal
    requires ResponseKey(refusal) == RequestKey(invite) && Non2xxAck(invite, refusal).Some?
    ensures
      var p := PlayAll(Begin(invite, timers, Unreliable), moves);
      && p.committed == [Some(refusal), Some(another)] && p.acked == {1}
      && Finals(p.delivered) == [refusal]
      && p.server.Some? && p.server.value.phase == SI.Confirmed && p.server.value.lastFinal == Some(another)
  {
    AckFits(invite, refusal);
    FinalsOfOne(refusal);
    BeginSends(invite, timers, Unreliable);
    var start, ack := Begin(invite, timers, Unreliable), Non2xxAck(invite, refusal).value;
    hide Sip.Non2xxAck, Sip.RequestKey, Sip.ResponseKey, Play, PlayAll, Begin, Finals;
    LosesTheAck(start, refusal);
    var p4 := Unacknowledged(start, refusal);
    AnotherIsConfirmed(p4, refusal, another, ack);
    var more := [ToServer(invite), Answer(another), ToServer(ack)];
    moves := [ToServer(invite), Answer(refusal), ToClient(refusal), ServerTimer(H)] + more;
    PlayFour(start, ToServer(invite), Answer(refusal), ToClient(refusal), ServerTimer(H), more);
    PlayThree(p4, ToServer(invite), Answer(another), ToServer(ack));
  }
}
