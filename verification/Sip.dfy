/**
 SIP messages as header lists, and the message builders of the transaction and
 call layers. A header is kept in its typed form, or as text that does not parse as its
 kind: typed accessors find nothing in such a header, but it is copied as it stands where
 the source copies headers without reading them.
 */
module Sip {
  import opened Wrappers

  type Uri = string

  datatype Method =
    | Ack | Bye | Cancel | Info | Invite | Message | Notify | Options
    | PRack | Publish | Refer | Register | Subscribe | Update

  datatype Via = Via(branch: Option<string>, sentBy: string)

  datatype NameAddr = NameAddr(displayName: Option<string>, uri: Uri, tag: Option<string>)

  datatype CSeq = CSeq(number: nat, verb: Method)

  datatype Header =
    | ViaHeader(via: Via)
    | FromHeader(from: NameAddr)
    | ToHeader(to: NameAddr)
    | CallIdHeader(callId: string)
    | CSeqHeader(cseq: CSeq)
    | RouteHeader(routes: seq<Uri>)
    | RecordRouteHeader(recorded: seq<Uri>)
    | ContactHeader(contact: Uri)
    | MaxForwardsHeader
    | ContentTypeHeader(contentType: string)
    | ContentLengthHeader(length: nat)
    | OtherHeader(name: string, value: string)
    | MalformedHeader(kind: Kind, text: string)

  /** The name of a header, which is what the accessors look headers up by. */
  datatype Kind =
    | KVia | KFrom | KTo | KCallId | KCSeq | KRoute | KRecordRoute | KContact
    | KMaxForwards | KContentType | KContentLength | KOther

  function KindOf(h: Header): Kind {
    match h
    case ViaHeader(_) => KVia
    case FromHeader(_) => KFrom
    case ToHeader(_) => KTo
    case CallIdHeader(_) => KCallId
    case CSeqHeader(_) => KCSeq
    case RouteHeader(_) => KRoute
    case RecordRouteHeader(_) => KRecordRoute
    case ContactHeader(_) => KContact
    case MaxForwardsHeader => KMaxForwards
    case ContentTypeHeader(_) => KContentType
    case ContentLengthHeader(_) => KContentLength
    case OtherHeader(_, _) => KOther
    case MalformedHeader(kind, _) => kind
  }

  /** The first header of a kind; every `*_header()` accessor of the source is this. */
  function First(hs: seq<Header>, kind: Kind): (r: Option<Header>)
    ensures r.Some? ==> KindOf(r.value) == kind
  {
    if hs == [] then None
    else if KindOf(hs[0]) == kind then Some(hs[0])
    else First(hs[1..], kind)
  }

  lemma {:induction false} FirstOfConcat(a: seq<Header>, b: seq<Header>, kind: Kind)
    ensures First(a + b, kind) == if First(a, kind).Some? then First(a, kind) else First(b, kind)
  {
    if a == [] {
      assert a + b == b;
    } else {
      assert (a + b)[1..] == a[1..] + b;
      FirstOfConcat(a[1..], b, kind);
    }
  }

  function TopVia(hs: seq<Header>): Option<Via> {
    match First(hs, KVia) case Some(ViaHeader(via)) => Some(via) case _ => None
  }

  function FromOf(hs: seq<Header>): Option<NameAddr> {
    match First(hs, KFrom) case Some(FromHeader(from)) => Some(from) case _ => None
  }

  function ToOf(hs: seq<Header>): Option<NameAddr> {
    match First(hs, KTo) case Some(ToHeader(to)) => Some(to) case _ => None
  }

  function CallIdOf(hs: seq<Header>): Option<string> {
    match First(hs, KCallId) case Some(CallIdHeader(callId)) => Some(callId) case _ => None
  }

  function CSeqOf(hs: seq<Header>): Option<CSeq> {
    match First(hs, KCSeq) case Some(CSeqHeader(cseq)) => Some(cseq) case _ => None
  }

  function ContactOf(hs: seq<Header>): Option<Uri> {
    match First(hs, KContact) case Some(ContactHeader(contact)) => Some(contact) case _ => None
  }

  datatype Request = Request(verb: Method, uri: Uri, headers: seq<Header>, body: seq<bv8>)

  datatype Response = Response(status: nat, headers: seq<Header>, body: seq<bv8>)

  datatype SipMessage = RequestMessage(request: Request) | ResponseMessage(response: Response)

  // ---- Transaction matching (sections 17.1.3 and 17.2.3 of RFC 3261) ----

  datatype TransactionKey = TransactionKey(branch: string, sentBy: string, keyVerb: Method) {
    /** The INVITE transaction a CANCEL with this key aims at. */
    function InviteTarget(): TransactionKey {
      TransactionKey(branch, sentBy, Invite)
    }
  }

  function Normalize(m: Method): Method {
    if m == Ack then Invite else m
  }

  function BuildKey(hs: seq<Header>, m: Method): Option<TransactionKey> {
    match TopVia(hs)
    case Some(Via(Some(branch), sentBy)) => Some(TransactionKey(branch, sentBy, m))
    case _ => None
  }

  function RequestKey(req: Request): Option<TransactionKey> {
    BuildKey(req.headers, Normalize(req.verb))
  }

  function ResponseKey(resp: Response): Option<TransactionKey> {
    match CSeqOf(resp.headers)
    case Some(c) => BuildKey(resp.headers, Normalize(c.verb))
    case None => None
  }

  // ---- The ACK for a non-2xx final (section 17.1.1.3 of RFC 3261) ----

  /** The headers of one kind, in order. */
  function Only(hs: seq<Header>, kind: Kind): (r: seq<Header>)
    ensures forall i :: 0 <= i < |r| ==> KindOf(r[i]) == kind
  {
    if hs == [] then []
    else if KindOf(hs[0]) == kind then [hs[0]] + Only(hs[1..], kind)
    else Only(hs[1..], kind)
  }

  lemma {:induction false} OnlyOfConcat(a: seq<Header>, b: seq<Header>, kind: Kind)
    ensures Only(a + b, kind) == Only(a, kind) + Only(b, kind)
  {
    if a == [] {
      assert a + b == b;
    } else {
      assert (a + b)[1..] == a[1..] + b;
      OnlyOfConcat(a[1..], b, kind);
    }
  }

  lemma {:induction false} FirstIsOnly(hs: seq<Header>, kind: Kind)
    ensures First(hs, kind) == if Only(hs, kind) == [] then None else Some(Only(hs, kind)[0])
  {
    if hs == [] {
    } else {
      FirstIsOnly(hs[1..], kind);
    }
  }

  function Non2xxAckHeaders(copied: seq<Header>, seqNo: nat, routes: seq<Header>): seq<Header> {
    copied + [CSeqHeader(CSeq(seqNo, Ack))] + routes + [MaxForwardsHeader, ContentLengthHeader(0)]
  }

  /** Via, From, To and Call-ID are copied as they stand, whether they parse or not; the CSeq is read. */
  function Non2xxAck(invite: Request, response: Response): Option<Request> {
    match (First(invite.headers, KVia), First(invite.headers, KFrom), First(response.headers, KTo),
        First(invite.headers, KCallId),
           CSeqOf(invite.headers))
    case (Some(via), Some(from), Some(to), Some(callId), Some(cseq)) =>
      var headers := Non2xxAckHeaders([via, from, to, callId], cseq.number, Only(invite.headers, KRoute));
      Some(Request(Ack, invite.uri, headers, []))
    case _ => None
  }

  method BuildNon2xxAck(invite: Request, response: Response) returns (ack: Option<Request>)
    ensures ack == Non2xxAck(invite, response)
  {
    var via := First(invite.headers, KVia);
    var from := First(invite.headers, KFrom);
    // To carries the remote tag the server placed on its final response.
    var to := First(response.headers, KTo);
    var callId := First(invite.headers, KCallId);
    var cseq := CSeqOf(invite.headers);
    if via.None? || from.None? || to.None? || callId.None? || cseq.None? {
      return None;
    }
    var headers := [via.value, from.value, to.value, callId.value, CSeqHeader(CSeq(cseq.value.number, Ack))];
    ghost var fixed := headers;
    var i := 0;
    while i < |invite.headers|
      invariant 0 <= i <= |invite.headers|
      invariant headers == fixed + Only(invite.headers[..i], KRoute)
    {
      assert invite.headers[..i + 1] == invite.headers[..i] + [invite.headers[i]];
      OnlyOfConcat(invite.headers[..i], [invite.headers[i]], KRoute);
      if KindOf(invite.headers[i]) == KRoute {
        headers := headers + [invite.headers[i]];
      }
      i := i + 1;
    }
    assert invite.headers[..i] == invite.headers;
    assert fixed == [via.value, from.value, to.value, callId.value] + [CSeqHeader(CSeq(cseq.value.number, Ack))];
    headers := headers + [MaxForwardsHeader, ContentLengthHeader(0)];
    ack := Some(Request(Ack, invite.uri, headers, []));
  }

  /** The accessors find the first header of their kind wherever it stands. */
  lemma {:induction false} FirstAt(hs: seq<Header>, i: nat, kind: Kind)
    requires i < |hs| && KindOf(hs[i]) == kind
    requires forall j :: 0 <= j < i ==> KindOf(hs[j]) != kind
    ensures First(hs, kind) == Some(hs[i])
  {
    if i == 0 {
    } else {
      FirstAt(hs[1..], i - 1, kind);
    }
  }

  lemma {:induction false} OnlyNone(hs: seq<Header>, kind: Kind)
    requires forall j :: 0 <= j < |hs| ==> KindOf(hs[j]) != kind
    ensures Only(hs, kind) == []
  {
    if hs == [] {
    } else {
      OnlyNone(hs[1..], kind);
    }
  }

  lemma FirstOfFive(hs: seq<Header>)
    requires |hs| == 5
    requires KindOf(hs[0]) == KVia && KindOf(hs[1]) == KFrom && KindOf(hs[2]) == KTo && KindOf(hs[3]) == KCallId
    requires KindOf(hs[4]) == KCSeq
    ensures First(hs, KVia) == Some(hs[0]) && First(hs, KFrom) == Some(hs[1]) && First(hs, KTo) == Some(hs[2])
    ensures First(hs, KCallId) == Some(hs[3]) && First(hs, KCSeq) == Some(hs[4]) && Only(hs, KRoute) == []
  {
    FirstAt(hs, 0, KVia);
    FirstAt(hs, 1, KFrom);
    FirstAt(hs, 2, KTo);
    FirstAt(hs, 3, KCallId);
    FirstAt(hs, 4, KCSeq);
    OnlyNone(hs, KRoute);
  }

  /** What the accessors find in the ACK's header list. */
  lemma AckHeaders(copied: seq<Header>, seqNo: nat, routes: seq<Header>)
    requires |copied| == 4 && Only(routes, KRoute) == routes
    requires KindOf(copied[0]) == KVia && KindOf(copied[1]) == KFrom && KindOf(copied[2]) == KTo
        && KindOf(copied[3]) == KCallId
    ensures
      var hs := Non2xxAckHeaders(copied, seqNo, routes);
      && First(hs, KVia) == Some(copied[0]) && First(hs, KFrom) == Some(copied[1]) && First(hs, KTo) == Some(copied[2])
      && First(hs, KCallId) == Some(copied[3]) && CSeqOf(hs) == Some(CSeq(seqNo, Ack)) && Only(hs, KRoute) == routes
  {
    var fixed, last := copied + [CSeqHeader(CSeq(seqNo, Ack))], [MaxForwardsHeader, ContentLengthHeader(0)];
    hide First, Only;
    assert Non2xxAckHeaders(copied, seqNo, routes) == fixed + (routes + last);
    FirstOfFive(fixed);
    FirstOfConcat(fixed, routes + last, KVia);
    FirstOfConcat(fixed, routes + last, KFrom);
    FirstOfConcat(fixed, routes + last, KTo);
    FirstOfConcat(fixed, routes + last, KCallId);
    FirstOfConcat(fixed, routes + last, KCSeq);
    OnlyOfConcat(fixed, routes + last, KRoute);
    OnlyOfConcat(routes, last, KRoute);
    OnlyNone(last, KRoute);
  }

  lemma {:induction false} OnlyAgain(hs: seq<Header>, kind: Kind)
    ensures Only(Only(hs, kind), kind) == Only(hs, kind)
  {
    if hs == [] {
    } else {
      OnlyAgain(hs[1..], kind);
      if KindOf(hs[0]) == kind {
        assert Only(hs, kind)[1..] == Only(hs[1..], kind);
      }
    }
  }

  /**
   The ACK reaches the server transaction that sent the final: it has the INVITE's
   key, sequence number, From, Call-ID, Request-URI and route set, and takes its To
   from the response.
   */
  lemma AckMatchesInvite(invite: Request, response: Response)
    requires invite.verb == Invite
    ensures Non2xxAck(invite, response).Some? <==>
              && First(invite.headers, KVia).Some? && First(invite.headers, KFrom).Some?
                  && First(invite.headers, KCallId).Some?
              && CSeqOf(invite.headers).Some? && First(response.headers, KTo).Some?
    ensures Non2xxAck(invite, response).Some? ==>
              var ack := Non2xxAck(invite, response).value;
              && ack.verb == Ack
              && RequestKey(ack) == RequestKey(invite)
              && CSeqOf(ack.headers) == Some(CSeq(CSeqOf(invite.headers).value.number, Ack))
              && First(ack.headers, KVia) == First(invite.headers, KVia)
              && First(ack.headers, KFrom) == First(invite.headers, KFrom)
              && First(ack.headers, KCallId) == First(invite.headers, KCallId)
              && First(ack.headers, KTo) == First(response.headers, KTo)
              && ack.uri == invite.uri
              && Only(ack.headers, KRoute) == Only(invite.headers, KRoute)
              && ack.body == []
  {
    hide First, Only;
    if Non2xxAck(invite, response).Some? {
      var via, from := First(invite.headers, KVia).value, First(invite.headers, KFrom).value;
      var to, callId := First(response.headers, KTo).value, First(invite.headers, KCallId).value;
      OnlyAgain(invite.headers, KRoute);
      AckHeaders([via, from, to, callId], CSeqOf(invite.headers).value.number, Only(invite.headers, KRoute));
    }
  }
}
