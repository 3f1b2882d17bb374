/**
 CANCEL races (section 9 of RFC 3261): the caller that gives up while its INVITE rings,
 and the callee whose answer meets a CANCEL on the way.
 */
module CancelRaces {
  import opened Wrappers
  import opened Sip
  import opened Transaction
  import SI = ServerInviteTransaction

  // ---- The CANCEL request (section 9.1) ----

  function CSeqNumber(request: Request): nat {
    match CSeqOf(request.headers) case Some(c) => c.number case None => 1
  }

  /** The headers a CANCEL copies are taken as they stand, whether they parse or not. */
  function BuildCancel(invite: Request): Option<Request> {
    match (First(invite.headers, KVia), First(invite.headers, KFrom), First(invite.headers, KTo),
        First(invite.headers, KCallId))
    case (Some(via), Some(from), Some(to), Some(callId)) =>
      Some(Request(Cancel, invite.uri,
                   [via, MaxForwardsHeader, from, to, callId, CSeqHeader(CSeq(CSeqNumber(invite), Cancel)),
                       ContentLengthHeader(0)], []))
    case _ => None
  }

  /** The key of a CANCEL aims at exactly its INVITE, and a response to it at neither's place. */
  lemma CancelAimsAtInvite(invite: Request)
    requires invite.verb == Invite && BuildCancel(invite).Some?
    ensures var cancel := BuildCancel(invite).value;
            && (RequestKey(cancel).Some? <==> RequestKey(invite).Some?)
            && (RequestKey(invite).Some? ==>
                  RequestKey(cancel).value.InviteTarget() == RequestKey(invite).value
                      && RequestKey(cancel) != RequestKey(invite))
            && cancel.verb == Cancel && cancel.body == [] && First(cancel.headers, KVia) == First(invite.headers, KVia)
            && cancel.uri == invite.uri && FromOf(cancel.headers) == FromOf(invite.headers)
            && ToOf(cancel.headers) == ToOf(invite.headers) && CallIdOf(cancel.headers) == CallIdOf(invite.headers)
            && CSeqOf(cancel.headers)
               == Some(CSeq(if CSeqOf(invite.headers).Some? then CSeqOf(invite.headers).value.number else 1, Cancel))
  {
    var hs := BuildCancel(invite).value.headers;
    hide First;
    FirstAt(hs, 0, KVia);
    FirstAt(hs, 2, KFrom);
    FirstAt(hs, 3, KTo);
    FirstAt(hs, 4, KCallId);
    FirstAt(hs, 5, KCSeq);
  }

  // ---- The caller ----

  /** What the caller's wait meets, in the order it processes it. */
  datatype Happening = Heard(response: Response) | TransactionTimedOut | TransactionOver | ChannelClosed | TokenFired

  predicate Ends(h: Happening) {
    (h.Heard? && h.response.status >= 200) || h.TransactionTimedOut? || h.ChannelClosed?
  }

  /** The part of the happenings the wait gets to process before the one that ends it. */
  function Processed(happenings: seq<Happening>): (hs: seq<Happening>)
    ensures hs <= happenings && (|hs| < |happenings| ==> Ends(happenings[|hs|]))
  {
    if happenings == [] || Ends(happenings[0]) then [] else [happenings[0]] + Processed(happenings[1..])
  }

  predicate Rang(hs: seq<Happening>) { exists i :: 0 <= i < |hs| && hs[i].Heard? }

  predicate GaveUp(hs: seq<Happening>) { exists i :: 0 <= i < |hs| && hs[i].TokenFired? }

  lemma {:induction false} ProcessedIs(hs: seq<Happening>, n: nat)
    requires n <= |hs| && (n < |hs| ==> Ends(hs[n])) && forall i :: 0 <= i < n ==> !Ends(hs[i])
    ensures Processed(hs) == hs[..n]
    decreases n
  {
    if n == 0 {
    } else {
      ProcessedIs(hs[1..], n - 1);
      assert hs[..n] == [hs[0]] + hs[1..][..n - 1];
    }
  }

  /** An INVITE without a header that its CANCEL would copy gets none. */
  function SendCancel(invite: Request, cancels: seq<(nat, Request)>, processed: nat): seq<(nat, Request)> {
    match BuildCancel(invite) case Some(cancel) => cancels + [(processed, cancel)] case None => cancels
  }

  lemma Grows(hs: seq<Happening>, i: nat)
    requires i < |hs|
    ensures Rang(hs[..i + 1]) <==> Rang(hs[..i]) || hs[i].Heard?
    ensures GaveUp(hs[..i + 1]) <==> GaveUp(hs[..i]) || hs[i].TokenFired?
  {
    var a, b := hs[..i], hs[..i + 1];
    assert b[i] == hs[i] && forall j :: 0 <= j < i ==> b[j] == a[j];
    if Rang(a) {
      var j :| 0 <= j < |a| && a[j].Heard?;
      assert b[j].Heard?;
    }
    if GaveUp(a) {
      var j :| 0 <= j < |a| && a[j].TokenFired?;
      assert b[j].TokenFired?;
    }
  }

  /**
   Waiting for the final response while watching the token. `cancels` are the CANCELs sent,
   each with how many happenings had been processed: there is one exactly if a provisional
   and the token were both processed before the wait ended and the INVITE has the headers a
   CANCEL copies, and it goes out when the second of the two is processed, never before.
   */
  method AwaitFinalCancellable(invite: Request, happenings: seq<Happening>)
    returns (final: Option<Response>, cancels: seq<(nat, Request)>)
    ensures |cancels| == if Rang(Processed(happenings)) && GaveUp(Processed(happenings)) && BuildCancel(invite).Some?
        then 1 else 0
    ensures forall c :: c in cancels ==>
      && Some(c.1) == BuildCancel(invite) && c.0 <= |happenings|
      && Rang(happenings[..c.0]) && GaveUp(happenings[..c.0])
      && (c.0 > 0 ==> !(Rang(happenings[..c.0 - 1]) && GaveUp(happenings[..c.0 - 1])))
    ensures var n := |Processed(happenings)|;
            final == if n < |happenings| && happenings[n].Heard? then Some(happenings[n].response) else None
  {
    var cancelRequested, cancelSent, provisionalSeen := false, false, false;
    cancels, final := [], None;
    var i := 0;
    while i < |happenings|
      invariant i <= |happenings| && forall j :: 0 <= j < i ==> !Ends(happenings[j])
      invariant provisionalSeen == Rang(happenings[..i]) && cancelRequested == GaveUp(happenings[..i])
      invariant cancelSent == (provisionalSeen && cancelRequested)
      invariant |cancels| == if cancelSent && BuildCancel(invite).Some? then 1 else 0
      invariant forall c :: c in cancels ==>
        && Some(c.1) == BuildCancel(invite) && c.0 <= i && Rang(happenings[..c.0]) && GaveUp(happenings[..c.0])
        && (c.0 > 0 ==> !(Rang(happenings[..c.0 - 1]) && GaveUp(happenings[..c.0 - 1])))
    {
      Grows(happenings, i);
      match happenings[i] {
        case Heard(response) =>
          if response.status >= 200 {
            ProcessedIs(happenings, i);
            return Some(response), cancels;
          }
          provisionalSeen := true;
          if cancelRequested && !cancelSent {
            cancels := SendCancel(invite, cancels, i + 1);
            cancelSent := true;
          }
        case TransactionTimedOut | ChannelClosed =>
          ProcessedIs(happenings, i);
          return None, cancels;
        case TransactionOver =>
        case TokenFired =>
          if !cancelRequested {
            cancelRequested := true;
            if provisionalSeen && !cancelSent {
              cancels := SendCancel(invite, cancels, i + 1);
              cancelSent := true;
            }
          }
      }
      i := i + 1;
    }
    ProcessedIs(happenings, i);
  }

  // ---- The callee ----

  /** The user's one decision: still to be taken, taken and about to be sent, or over. */
  datatype UserTask = Deciding | Answering(answer: Response) | Decided

  /** The router's handling of a CANCEL: none under way, or a 487 about to be sent. */
  datatype RouterTask = Free | Terminating(refusal: Response)

  /**
   One inbound INVITE: whether a CANCEL still finds it, the two tasks that may answer it,
   its server transaction while there is one, all it has put on the wire, and the first
   final response it accepted.
   */
  datatype Callee = Callee(pending: bool, user: UserTask, router: RouterTask, server: Option<SI.Machine>,
                           sent: seq<Response>, final: Option<Response>, cancelled: bool)

  datatype Step =
    | Ring(provisional: Response)
    | Accept(answer: Response)
    | Reject(refusal: Response)
    | UserSends
    | CancelArrives(terminated: Response)
    | RouterSends
    | InviteAgain(invite: Request)
    | AckArrives(ack: Request)
    | TimerFires(id: TimerId)

  function Arrived(timers: Timers, rel: Reliability, invite: Request): Callee {
    Callee(true, Deciding, Free, Some(SI.Start(invite, timers, rel).next), [], None, false)
  }

  function ResponsesOf(actions: seq<TxAction>): seq<Response> {
    if actions == [] then []
    else
      (if actions[0].Send? && actions[0].message.ResponseMessage? then [actions[0].message.response] else [])
      + ResponsesOf(actions[1..])
  }

  function Moves(c: Callee, step: Transaction.Step<SI.Machine>): Callee {
    c.(server := if Transaction.Terminated in step.actions then None
        else Some(step.next), sent := c.sent + ResponsesOf(step.actions))
  }

  /** A response handed to the engine: it goes to the live transaction or nowhere. */
  function Hand(c: Callee, response: Response): Callee {
    match c.server
    case None => c
    case Some(m) =>
      var noted := if m.phase == SI.Proceeding && response.status >= 200 then c.(final := Some(response)) else c;
      Moves(noted, m.SendResponse(response))
  }

  /** Only a decision that is still open can be taken; refusals below 300 are refused themselves. */
  function Take(c: Callee, step: Step): Callee {
    match step
    case Ring(provisional) => if c.user.Deciding? && provisional.status < 200 then Hand(c, provisional) else c
    case Accept(answer) =>
        if c.user.Deciding? && answer.status >= 200 then c.(pending := false, user := Answering(answer)) else c
    case Reject(refusal) =>
      if !c.user.Deciding? then c
      else c.(pending := false, user := if refusal.status < 300 then Decided else Answering(refusal))
    case UserSends => if c.user.Answering? then Hand(c.(user := Decided), c.user.answer) else c
    case CancelArrives(terminated) =>
      if c.router.Free? && c.pending && terminated.status == 487
          then c.(pending := false, router := Terminating(terminated)) else c
    case RouterSends => if c.router.Terminating? then Hand(c.(router := Free, cancelled := true), c.router.refusal)
        else c
    case InviteAgain(invite) =>
      if c.server.Some? && invite.verb == Invite then Moves(c, c.server.value.OnRequest(invite)) else c
    case AckArrives(ack) => if c.server.Some? && ack.verb == Ack then Moves(c, c.server.value.OnRequest(ack)) else c
    case TimerFires(id) => if c.server.Some? then Moves(c, c.server.value.OnTimer(id)) else c
  }

  function TakeAll(c: Callee, steps: seq<Step>): Callee
    decreases |steps|
  {
    if steps == [] then c else TakeAll(Take(c, steps[0]), steps[1..])
  }

  /** Every final response on the wire is the one accepted first, and the transaction remembers it. */
  predicate Kept(c: Callee) {
    && (forall i :: 0 <= i < |c.sent| && c.sent[i].status >= 200 ==> c.final == Some(c.sent[i]))
    && (c.final.Some? ==> c.final.value.status >= 200)
    && (c.server.Some? ==>
          && (c.server.value.lastProvisional.Some? ==> c.server.value.lastProvisional.value.status < 200)
          && match c.server.value.phase
             case Proceeding => c.final == None && c.server.value.lastFinal == None
             case Completed => c.server.value.lastFinal == c.final && c.final.Some?
             case Confirmed => c.final.Some?
             case Ended => false)
  }

  lemma {:induction false} OnlyFirst(actions: seq<TxAction>)
    requires forall i :: 0 <= i < |actions| ==> !actions[i].Send?
    ensures ResponsesOf(actions) == []
  {
    if actions == [] {
    } else {
      OnlyFirst(actions[1..]);
    }
  }

  /** At most one response is sent at a time. */
  lemma ServerSends(m: SI.Machine, step: Transaction.Step<SI.Machine>)
    requires (exists r :: step == m.SendResponse(r)) || (exists q :: step == m.OnRequest(q))
        || (exists id :: step == m.OnTimer(id))
    ensures |step.actions| > 0 && step.actions[0].Send? && step.actions[0].message.ResponseMessage?
            ==> ResponsesOf(step.actions) == [step.actions[0].message.response]
    ensures !(|step.actions| > 0 && step.actions[0].Send? && step.actions[0].message.ResponseMessage?) ==>
        ResponsesOf(step.actions) == []
  {
    var actions := step.actions;
    if |actions| > 1 {
      OnlyFirst(actions[1..]);
    } else {
      OnlyFirst([]);
    }
  }

  lemma HandKeeps(c: Callee, response: Response)
    requires Kept(c)
    ensures Kept(Hand(c, response))
  {
    if c.server.Some? {
      var m := c.server.value;
      ServerSends(m, m.SendResponse(response));
    }
  }

  lemma RequestKeeps(c: Callee, m: SI.Machine, request: Request)
    requires Kept(c) && c.server == Some(m)
    ensures Kept(Moves(c, m.OnRequest(request)))
  {
    ServerSends(m, m.OnRequest(request));
  }

  lemma TimerKeeps(c: Callee, m: SI.Machine, id: TimerId)
    requires Kept(c) && c.server == Some(m)
    ensures Kept(Moves(c, m.OnTimer(id)))
  {
    ServerSends(m, m.OnTimer(id));
  }

  lemma TakeKeeps(c: Callee, step: Step)
    requires Kept(c)
    ensures Kept(Take(c, step))
  {
    hide Hand, Moves;
    match step
    case Ring(provisional) => HandKeeps(c, provisional);
    case UserSends => if c.user.Answering? { HandKeeps(c.(user := Decided), c.user.answer); }
    case RouterSends => if c.router.Terminating? { HandKeeps(c.(router := Free, cancelled := true), c.router.refusal); }
    case InviteAgain(invite) => if c.server.Some? { RequestKeeps(c, c.server.value, invite); }
    case AckArrives(ack) => if c.server.Some? { RequestKeeps(c, c.server.value, ack); }
    case TimerFires(id) => if c.server.Some? { TimerKeeps(c, c.server.value, id); }
    case _ =>
  }

  lemma {:induction false} AlwaysKept(c: Callee, steps: seq<Step>)
    requires Kept(c)
    ensures Kept(TakeAll(c, steps))
    decreases |steps|
  {
    if steps == [] {
    } else {
      TakeKeeps(c, steps[0]);
      AlwaysKept(Take(c, steps[0]), steps[1..]);
    }
  }

  /** However ringing, answering, refusing and cancelling interleave, one final at most reaches the wire. */
  lemma OneFinalOnTheWire(timers: Timers, rel: Reliability, invite: Request, steps: seq<Step>, i: nat, j: nat)
    requires var sent := TakeAll(Arrived(timers, rel, invite), steps).sent;
             i < |sent| && j < |sent| && sent[i].status >= 200 && sent[j].status >= 200
    ensures var sent := TakeAll(Arrived(timers, rel, invite), steps).sent; sent[i] == sent[j]
  {
    AlwaysKept(Arrived(timers, rel, invite), steps);
  }

  /** The user has committed and no CANCEL is being handled: from here on none can interfere. */
  predicate PastCancelling(c: Callee) {
    !c.pending && !c.user.Deciding? && c.router.Free?
  }

  /** A CANCEL that arrives after the decision is registered changes nothing: no 487, no token. */
  lemma {:induction false} LateCancelIsIgnored(c: Callee, steps: seq<Step>)
    requires PastCancelling(c)
    ensures PastCancelling(TakeAll(c, steps)) && TakeAll(c, steps).cancelled == c.cancelled
    ensures forall step: Step :: step.CancelArrives? ==> Take(c, step) == c
    decreases |steps|
  {
    if steps == [] {
    } else {
      hide SI.Machine.OnRequest, SI.Machine.OnTimer, SI.Machine.SendResponse, ResponsesOf;
      LateCancelIsIgnored(Take(c, steps[0]), steps[1..]);
    }
  }

  /** The token fires only for a CANCEL that found the INVITE undecided, and then at most one 487 was handed over. */
  predicate CancelFoundIt(c: Callee) {
    && (c.pending ==> c.user.Deciding? && c.router.Free? && !c.cancelled)
    && (c.router.Terminating? ==> !c.cancelled && c.router.refusal.status == 487)
  }

  lemma {:induction false} OneCancelAtMost(c: Callee, steps: seq<Step>)
    requires CancelFoundIt(c)
    ensures CancelFoundIt(TakeAll(c, steps))
    ensures c.cancelled ==> TakeAll(c, steps).router.Free? && !TakeAll(c, steps).pending
    decreases |steps|
  {
    if steps == [] {
    } else {
      hide SI.Machine.OnRequest, SI.Machine.OnTimer, SI.Machine.SendResponse, ResponsesOf;
      OneCancelAtMost(Take(c, steps[0]), steps[1..]);
    }
  }

  // ---- Which final it is ----

  /** The final response a step hands to the engine. */
  function Handed(c: Callee, step: Step): seq<Response> {
    match step
    case UserSends => if c.user.Answering? then [c.user.answer] else []
    case RouterSends => if c.router.Terminating? then [c.router.refusal] else []
    case _ => []
  }

  function AllHanded(c: Callee, steps: seq<Step>): seq<Response>
    decreases |steps|
  {
    if steps == [] then [] else Handed(c, steps[0]) + AllHanded(Take(c, steps[0]), steps[1..])
  }

  /** Until a final is accepted the transaction proceeds; what is to be sent is final; what was accepted was sent. */
  predicate AwaitsFinal(c: Callee) {
    && (c.final == None ==> c.server.Some? && c.server.value.phase == SI.Proceeding)
    && (c.user.Answering? ==> c.user.answer.status >= 200)
    && (c.router.Terminating? ==> c.router.refusal.status >= 200)
    && (c.final.Some? ==> c.final.value in c.sent)
  }

  lemma HandAwaits(c: Callee, response: Response)
    requires Kept(c) && AwaitsFinal(c)
    ensures AwaitsFinal(Hand(c, response))
    ensures Hand(c, response).final == if c.final == None && response.status >= 200 then Some(response) else c.final
  {
    if c.server.Some? {
      var m := c.server.value;
      ServerSends(m, m.SendResponse(response));
    }
  }

  lemma DecidedKeeps(c: Callee, d: Callee)
    requires Kept(c) && d.sent == c.sent && d.final == c.final && d.server == c.server
    ensures Kept(d)
  {
  }

  lemma TakeAwaits(c: Callee, step: Step)
    requires Kept(c) && AwaitsFinal(c)
    ensures AwaitsFinal(Take(c, step))
    ensures Take(c, step).final == if c.final == None && Handed(c, step) != [] then Some(Handed(c, step)[0])
        else c.final
  {
    hide Hand, ResponsesOf, Kept;
    match step
    case Ring(provisional) => HandAwaits(c, provisional);
    case UserSends =>
      if c.user.Answering? {
        DecidedKeeps(c, c.(user := Decided));
        HandAwaits(c.(user := Decided), c.user.answer);
      }
    case RouterSends =>
      if c.router.Terminating? {
        DecidedKeeps(c, c.(router := Free, cancelled := true));
        HandAwaits(c.(router := Free, cancelled := true), c.router.refusal);
      }
    case _ =>
  }

  lemma {:induction false} FinalIsFirst(c: Callee, steps: seq<Step>)
    requires Kept(c) && AwaitsFinal(c)
    ensures
      var after, handed := TakeAll(c, steps), AllHanded(c, steps);
      && AwaitsFinal(after)
      && after.final == if c.final == None && handed != [] then Some(handed[0]) else c.final
    decreases |steps|
  {
    if steps == [] {
    } else {
      TakeKeeps(c, steps[0]);
      TakeAwaits(c, steps[0]);
      hide Kept, AwaitsFinal, Take, Handed;
      FinalIsFirst(Take(c, steps[0]), steps[1..]);
    }
  }

  /**
   In every interleaving the first final handed to the engine is the one accepted. It is on
   the wire, and nothing that happens later changes it.
   */
  lemma FirstFinalWins(timers: Timers, rel: Reliability, invite: Request, steps: seq<Step>, later: seq<Step>)
    ensures
      var arrived := Arrived(timers, rel, invite);
      var c, handed := TakeAll(arrived, steps), AllHanded(arrived, steps);
      && c.final == (if handed == [] then None else Some(handed[0]))
      && (c.final.Some? ==> c.final.value in c.sent && TakeAll(c, later).final == c.final)
  {
    var arrived := Arrived(timers, rel, invite);
    FinalIsFirst(arrived, steps);
    AlwaysKept(arrived, steps);
    FinalIsFirst(TakeAll(arrived, steps), later);
  }

  /** When an accept and a CANCEL race, either can be first. */
  lemma EitherCanBeFirst(timers: Timers, rel: Reliability, invite: Request, ok: Response, terminated: Response)
    requires 200 <= ok.status < 300 && terminated.status == 487
    ensures
      var raced := Take(Take(Arrived(timers, rel, invite), CancelArrives(terminated)), Accept(ok));
      && Take(Take(raced, RouterSends), UserSends).final == Some(terminated)
      && Take(Take(raced, UserSends), RouterSends).final == Some(ok)
  {
  }

  // ---- Copies of the INVITE meanwhile ----

  function LastSent(sent: seq<Response>): Option<Response> {
    if sent == [] then None else Some(sent[|sent| - 1])
  }

  /** The transaction stores what was sent last, as long as it repeats it. */
  predicate Stores(c: Callee) {
    c.server.Some? ==>
      && (c.server.value.phase == SI.Proceeding ==> c.server.value.lastProvisional == LastSent(c.sent))
      && (c.server.value.phase == SI.Completed ==>
            c.server.value.lastFinal == LastSent(c.sent) && c.server.value.lastFinal.Some?)
  }

  lemma HandStores(c: Callee, response: Response)
    requires Stores(c)
    ensures Stores(Hand(c, response))
  {
    if c.server.Some? {
      var m := c.server.value;
      ServerSends(m, m.SendResponse(response));
    }
  }

  lemma RequestStores(c: Callee, m: SI.Machine, request: Request)
    requires Stores(c) && c.server == Some(m)
    ensures Stores(Moves(c, m.OnRequest(request)))
  {
    ServerSends(m, m.OnRequest(request));
  }

  lemma TimerStores(c: Callee, m: SI.Machine, id: TimerId)
    requires Stores(c) && c.server == Some(m)
    ensures Stores(Moves(c, m.OnTimer(id)))
  {
    ServerSends(m, m.OnTimer(id));
  }

  lemma TakeStores(c: Callee, step: Step)
    requires Stores(c)
    ensures Stores(Take(c, step))
  {
    hide Hand, Moves;
    match step
    case Ring(provisional) => HandStores(c, provisional);
    case UserSends => if c.user.Answering? { HandStores(c.(user := Decided), c.user.answer); }
    case RouterSends =>
      if c.router.Terminating? { HandStores(c.(router := Free, cancelled := true), c.router.refusal); }
    case InviteAgain(invite) => if c.server.Some? { RequestStores(c, c.server.value, invite); }
    case AckArrives(ack) => if c.server.Some? { RequestStores(c, c.server.value, ack); }
    case TimerFires(id) => if c.server.Some? { TimerStores(c, c.server.value, id); }
    case _ =>
  }

  lemma {:induction false} AlwaysStores(c: Callee, steps: seq<Step>)
    requires Stores(c)
    ensures Stores(TakeAll(c, steps))
    decreases |steps|
  {
    if steps == [] {
    } else {
      TakeStores(c, steps[0]);
      AlwaysStores(Take(c, steps[0]), steps[1..]);
    }
  }

  lemma CopySends(c: Callee, copy: Request)
    requires Stores(c) && c.server.Some? && copy.verb == Invite
    ensures
      var repeats := c.server.value.phase in {SI.Proceeding, SI.Completed} && c.sent != [];
      Take(c, InviteAgain(copy)) == c.(sent := c.sent + if repeats then [c.sent[|c.sent| - 1]] else [])
  {
    var m := c.server.value;
    ServerSends(m, m.OnRequest(copy));
    assert c.sent + [] == c.sent;
  }

  /**
   In every interleaving a copy of the INVITE gets the response sent last again, be it the
   user's or the router's 487, while the transaction proceeds or waits for its ACK; nothing
   else comes of it.
   */
  lemma CopyIsAnsweredMeanwhile(timers: Timers, rel: Reliability, invite: Request, steps: seq<Step>, copy: Request)
    requires copy.verb == Invite
    ensures
      var c := TakeAll(Arrived(timers, rel, invite), steps);
      var repeats := c.server.Some? && c.server.value.phase in {SI.Proceeding, SI.Completed} && c.sent != [];
      Take(c, InviteAgain(copy)) == c.(sent := c.sent + if repeats then [c.sent[|c.sent| - 1]] else [])
  {
    AlwaysStores(Arrived(timers, rel, invite), steps);
    var c := TakeAll(Arrived(timers, rel, invite), steps);
    assert Stores(c) && c.sent + [] == c.sent;
    hide TakeAll, Stores;
    if c.server.Some? {
      CopySends(c, copy);
    }
  }
}
