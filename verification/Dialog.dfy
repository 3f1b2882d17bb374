/**
 Dialogs (section 12 of RFC 3261) and the responses that establish them. The URI's host
 and the branch of each request are parameters: one is URI syntax, the other is random.
 */
module Dialogs {
  import opened Wrappers
  import opened Sip

  /** Content lengths are 32 bits wide. */
  const TWO_32: nat := 0x1_0000_0000

  // ---- Responses (section 8.2.6) ----

  /** The headers a response echoes verbatim, Record-Route included. */
  predicate IsEchoed(h: Header) {
    KindOf(h) in {KVia, KFrom, KCallId, KCSeq, KRecordRoute}
  }

  function Echoed(hs: seq<Header>): seq<Header> {
    if hs == [] then [] else (if IsEchoed(hs[0]) then [hs[0]] else []) + Echoed(hs[1..])
  }

  datatype ResponseBody = ResponseBody(contentType: string, bytes: seq<bv8>)

  function Tagged(to: NameAddr, tag: Option<string>): NameAddr {
    if to.tag.None? && tag.Some? then to.(tag := tag) else to
  }

  /** What follows the echoed headers. */
  function TailOf(to: NameAddr, contact: Option<Uri>, body: Option<ResponseBody>): seq<Header> {
    [ToHeader(to)]
    + (if contact.Some? then [ContactHeader(contact.value)] else [])
    + (if body.Some? then [ContentTypeHeader(body.value.contentType)] else [])
    + [ContentLengthHeader(if body.Some? then |body.value.bytes| % TWO_32 else 0)]
  }

  function ResponseHeaders(request: Request, to: NameAddr, contact: Option<Uri>,
          body: Option<ResponseBody>): seq<Header> {
    Echoed(request.headers) + TailOf(to, contact, body)
  }

  function ResponseTo(request: Request, status: nat, toTag: Option<string>, contact: Option<Uri>,
          body: Option<ResponseBody>): Option<Response> {
    match ToOf(request.headers)
    case None => None
    case Some(to) =>
      Some(Response(status, ResponseHeaders(request, Tagged(to, toTag), contact, body), if body.Some?
          then body.value.bytes else []))
  }

  lemma EchoedStep(hs: seq<Header>)
    requires hs != []
    ensures Echoed(hs) == (if IsEchoed(hs[0]) then [hs[0]] else []) + Echoed(hs[1..])
  {
  }

  lemma {:induction false} EchoedThen(a: seq<Header>, b: seq<Header>)
    ensures Echoed(a + b) == Echoed(a) + Echoed(b)
    decreases |a|
  {
    if a == [] {
      assert a + b == b;
    } else {
      EchoedThen(a[1..], b);
      EchoedStep(a);
      EchoedStep(a + b);
      hide Echoed, IsEchoed;
      assert (a + b)[0] == a[0] && (a + b)[1..] == a[1..] + b;
    }
  }

  lemma {:induction false} EchoedOnly(hs: seq<Header>, kind: Kind)
    ensures Only(Echoed(hs), kind)
         == if kind in {KVia, KFrom, KCallId, KCSeq, KRecordRoute} then Only(hs, kind) else []
  {
    if hs == [] {
    } else {
      EchoedOnly(hs[1..], kind);
      if IsEchoed(hs[0]) {
        assert Echoed(hs)[1..] == Echoed(hs[1..]);
      } else {
        assert [] + Echoed(hs[1..]) == Echoed(hs[1..]);
      }
    }
  }

  /** The headers of a kind in the tail of a response. */
  function TailOnly(to: NameAddr, contact: Option<Uri>, body: Option<ResponseBody>, kind: Kind): seq<Header> {
    match kind
    case KTo => [ToHeader(to)]
    case KContact => if contact.Some? then [ContactHeader(contact.value)] else []
    case KContentType => if body.Some? then [ContentTypeHeader(body.value.contentType)] else []
    case KContentLength => [ContentLengthHeader(if body.Some? then |body.value.bytes| % TWO_32 else 0)]
    case _ => []
  }

  lemma {:induction false} OnlyUniform(hs: seq<Header>, own: Kind, kind: Kind)
    requires forall i :: 0 <= i < |hs| ==> KindOf(hs[i]) == own
    ensures Only(hs, kind) == if own == kind then hs else []
  {
    if hs == [] {
    } else {
      OnlyUniform(hs[1..], own, kind);
      assert [hs[0]] + hs[1..] == hs;
    }
  }

  lemma OnlyOfFour(a: seq<Header>, b: seq<Header>, c: seq<Header>, d: seq<Header>, kind: Kind)
    requires forall i :: 0 <= i < |a| ==> KindOf(a[i]) == KTo
    requires forall i :: 0 <= i < |b| ==> KindOf(b[i]) == KContact
    requires forall i :: 0 <= i < |c| ==> KindOf(c[i]) == KContentType
    requires forall i :: 0 <= i < |d| ==> KindOf(d[i]) == KContentLength
    ensures Only(a + b + c + d, kind)
         == match kind case KTo => a case KContact => b case KContentType => c case KContentLength => d case _ => []
  {
    hide Only;
    OnlyUniform(a, KTo, kind);
    OnlyUniform(b, KContact, kind);
    OnlyUniform(c, KContentType, kind);
    OnlyUniform(d, KContentLength, kind);
    OnlyOfConcat(a, b, kind);
    OnlyOfConcat(a + b, c, kind);
    OnlyOfConcat(a + b + c, d, kind);
  }

  lemma TailHas(to: NameAddr, contact: Option<Uri>, body: Option<ResponseBody>, kind: Kind)
    ensures Only(TailOf(to, contact, body), kind) == TailOnly(to, contact, body, kind)
  {
    hide Only;
    OnlyOfFour([ToHeader(to)], if contact.Some? then [ContactHeader(contact.value)] else [],
        if body.Some? then [ContentTypeHeader(body.value.contentType)] else [],
        [ContentLengthHeader(if body.Some? then |body.value.bytes| % TWO_32 else 0)], kind);
  }

  lemma ResponseOnly(request: Request, to: NameAddr, contact: Option<Uri>, body: Option<ResponseBody>, kind: Kind)
    ensures Only(ResponseHeaders(request, to, contact, body), kind)
         == if kind in {KVia, KFrom, KCallId, KCSeq, KRecordRoute} then Only(request.headers, kind)
            else TailOnly(to, contact, body, kind)
  {
    hide Only, Echoed, TailOf;
    EchoedOnly(request.headers, kind);
    TailHas(to, contact, body, kind);
    OnlyOfConcat(Echoed(request.headers), TailOf(to, contact, body), kind);
  }

  /**
   What a response to a request is: the status asked for, the body given, and of every kind
   exactly these headers. All Vias and Record-Routes are there, in order, as they stood.
   */
  ghost predicate Carries(response: Response, request: Request, status: nat, toTag: Option<string>,
          contact: Option<Uri>, body: Option<ResponseBody>) {
    && response.status == status
    && response.body == (if body.Some? then body.value.bytes else [])
    && (forall kind :: kind in {KVia, KFrom, KCallId, KCSeq, KRecordRoute} ==>
        Only(response.headers, kind) == Only(request.headers, kind))
    && ToOf(request.headers).Some?
    && (var to := ToOf(request.headers).value;
        Only(response.headers, KTo)
        == [ToHeader(NameAddr(to.displayName, to.uri, if to.tag.Some? then to.tag else toTag))])
    && Only(response.headers, KContact) == (if contact.Some? then [ContactHeader(contact.value)] else [])
    && Only(response.headers, KContentType)
       == (if body.Some? then [ContentTypeHeader(body.value.contentType)] else [])
    && Only(response.headers, KContentLength) == [ContentLengthHeader(|response.body| % TWO_32)]
    && (forall kind :: kind in {KRoute, KMaxForwards, KOther} ==> Only(response.headers, kind) == [])
  }

  lemma ResponseCarries(request: Request, status: nat, toTag: Option<string>, contact: Option<Uri>,
          body: Option<ResponseBody>)
    requires ResponseTo(request, status, toTag, contact, body).Some?
    ensures Carries(ResponseTo(request, status, toTag, contact, body).value, request, status, toTag, contact, body)
  {
    hide Only, ResponseHeaders, Echoed, First;
    var to := Tagged(ToOf(request.headers).value, toTag);
    forall kind: Kind
      ensures Only(ResponseHeaders(request, to, contact, body), kind)
           == if kind in {KVia, KFrom, KCallId, KCSeq, KRecordRoute} then Only(request.headers, kind)
              else TailOnly(to, contact, body, kind)
    {
      ResponseOnly(request, to, contact, body, kind);
    }
  }

  method BuildResponse(request: Request, status: nat, toTag: Option<string>, contact: Option<Uri>,
          body: Option<ResponseBody>)
    returns (response: Option<Response>)
    ensures response == ResponseTo(request, status, toTag, contact, body)
    ensures response.None? <==> ToOf(request.headers).None?
    ensures response.Some? ==> Carries(response.value, request, status, toTag, contact, body)
  {
    hide Carries;
    var headers: seq<Header> := [];
    var i := 0;
    while i < |request.headers|
      invariant i <= |request.headers| && headers == Echoed(request.headers[..i])
    {
      var header := request.headers[i];
      assert request.headers[..i + 1] == request.headers[..i] + [header];
      EchoedThen(request.headers[..i], [header]);
      if IsEchoed(header) {
        headers := headers + [header];
      }
      i := i + 1;
    }
    assert request.headers[..i] == request.headers;
    var to := ToOf(request.headers);
    if to.None? {
      return None;
    }
    headers := headers + [ToHeader(Tagged(to.value, toTag))];
    if contact.Some? {
      headers := headers + [ContactHeader(contact.value)];
    }
    var bytes: seq<bv8> := [];
    if body.Some? {
      headers := headers + [ContentTypeHeader(body.value.contentType)];
      bytes := body.value.bytes;
    }
    headers := headers + [ContentLengthHeader(|bytes| % TWO_32)];
    assert headers == ResponseHeaders(request, Tagged(to.value, toTag), contact, body);
    response := Some(Response(status, headers, bytes));
    ResponseCarries(request, status, toTag, contact, body);
  }

  /** The announced length is the length of the body, unless 32 bits do not hold it. */
  lemma LengthIsRightIff(response: Response, request: Request, status: nat, toTag: Option<string>, contact: Option<Uri>,
          body: Option<ResponseBody>)
    requires Carries(response, request, status, toTag, contact, body)
    ensures First(response.headers, KContentLength) == Some(ContentLengthHeader(|response.body|))
        <==> |response.body| < TWO_32
  {
    FirstIsOnly(response.headers, KContentLength);
  }

  /** Every Record-Route entry of a message, across its headers, in order. */
  function CollectRoutes(hs: seq<Header>): seq<Uri> {
    if hs == [] then []
    else (if hs[0].RecordRouteHeader? then hs[0].recorded else []) + CollectRoutes(hs[1..])
  }

  lemma {:induction false} CollectThen(a: seq<Header>, b: seq<Header>)
    ensures CollectRoutes(a + b) == CollectRoutes(a) + CollectRoutes(b)
  {
    if a == [] {
      assert a + b == b;
    } else {
      assert (a + b)[1..] == a[1..] + b;
      CollectThen(a[1..], b);
    }
  }

  /** Echoing keeps the recorded routes and, of the echoed kinds, the first headers. */
  lemma {:induction false} EchoedFirst(hs: seq<Header>, kind: Kind)
    requires kind in {KVia, KFrom, KCallId, KCSeq, KTo, KContact}
    ensures First(Echoed(hs), kind) == if kind in {KTo, KContact} then None else First(hs, kind)
  {
    if hs == [] {
    } else {
      EchoedFirst(hs[1..], kind);
      if IsEchoed(hs[0]) {
        assert Echoed(hs)[1..] == Echoed(hs[1..]);
      } else {
        assert [] + Echoed(hs[1..]) == Echoed(hs[1..]);
      }
    }
  }

  lemma {:induction false} EchoedRoutes(hs: seq<Header>)
    ensures CollectRoutes(Echoed(hs)) == CollectRoutes(hs)
  {
    if hs == [] {
    } else {
      EchoedRoutes(hs[1..]);
      if IsEchoed(hs[0]) {
        assert Echoed(hs)[1..] == Echoed(hs[1..]);
      } else {
        assert [] + Echoed(hs[1..]) == Echoed(hs[1..]);
        assert [] + CollectRoutes(hs[1..]) == CollectRoutes(hs[1..]);
      }
    }
  }

  lemma {:induction false} FirstNone(hs: seq<Header>, kind: Kind)
    requires forall i :: 0 <= i < |hs| ==> KindOf(hs[i]) != kind
    ensures First(hs, kind) == None
  {
    if hs == [] {
    } else {
      FirstNone(hs[1..], kind);
    }
  }

  lemma {:induction false} CollectNone(hs: seq<Header>)
    requires forall i :: 0 <= i < |hs| ==> !hs[i].RecordRouteHeader?
    ensures CollectRoutes(hs) == []
  {
    if hs == [] {
    } else {
      CollectNone(hs[1..]);
    }
  }

  lemma TailReads(to: NameAddr, contact: Uri, body: Option<ResponseBody>)
    ensures var tail := TailOf(to, Some(contact), body);
            && First(tail, KTo) == Some(ToHeader(to)) && First(tail, KContact) == Some(ContactHeader(contact))
            && First(tail, KVia) == None && First(tail, KCSeq) == None && CollectRoutes(tail) == []
  {
    var tail := TailOf(to, Some(contact), body);
    hide First, CollectRoutes;
    FirstAt(tail, 0, KTo);
    FirstAt(tail, 1, KContact);
    FirstNone(tail, KVia);
    FirstNone(tail, KCSeq);
    CollectNone(tail);
  }

  /** What the caller reads in a response with a Contact. */
  lemma ResponseReads(request: Request, to: NameAddr, contact: Uri, body: Option<ResponseBody>)
    ensures var hs := ResponseHeaders(request, to, Some(contact), body);
            && ToOf(hs) == Some(to) && ContactOf(hs) == Some(contact)
            && CollectRoutes(hs) == CollectRoutes(request.headers)
            && TopVia(hs) == TopVia(request.headers) && CSeqOf(hs) == CSeqOf(request.headers)
  {
    hide Echoed, First, CollectRoutes;
    var head, tail := Echoed(request.headers), TailOf(to, Some(contact), body);
    hide TailOf;
    TailReads(to, contact, body);
    EchoedRoutes(request.headers);
    CollectThen(head, tail);
    assert CollectRoutes(head) + [] == CollectRoutes(head);
    EchoedFirst(request.headers, KTo);
    EchoedFirst(request.headers, KContact);
    EchoedFirst(request.headers, KVia);
    EchoedFirst(request.headers, KCSeq);
    FirstOfConcat(head, tail, KTo);
    FirstOfConcat(head, tail, KContact);
    FirstOfConcat(head, tail, KVia);
    FirstOfConcat(head, tail, KCSeq);
  }

  /** Contact or not, a response keeps the first of its request's Vias and its CSeq. */
  lemma ResponseKeepsPath(request: Request, to: NameAddr, contact: Option<Uri>, body: Option<ResponseBody>, kind: Kind)
    requires kind in {KVia, KCSeq}
    ensures First(ResponseHeaders(request, to, contact, body), kind) == First(request.headers, kind)
  {
    var tail := TailOf(to, contact, body);
    hide First, Echoed;
    FirstNone(tail, kind);
    EchoedFirst(request.headers, kind);
    FirstOfConcat(Echoed(request.headers), tail, kind);
  }

  /** Any response built for a request finds its way back: it has the request's transaction key. */
  lemma ResponseFindsRequest(request: Request, status: nat, toTag: Option<string>, contact: Option<Uri>,
          body: Option<ResponseBody>)
    requires ResponseTo(request, status, toTag, contact, body).Some?
    requires CSeqOf(request.headers).Some? && CSeqOf(request.headers).value.verb == request.verb
    ensures ResponseKey(ResponseTo(request, status, toTag, contact, body).value) == RequestKey(request)
  {
    hide First, ResponseHeaders, Tagged;
    var to := Tagged(ToOf(request.headers).value, toTag);
    ResponseKeepsPath(request, to, contact, body, KVia);
    ResponseKeepsPath(request, to, contact, body, KCSeq);
  }

  // ---- Dialogs ----

  datatype Party = Party(displayName: Option<string>, uri: Uri, tag: string)

  datatype DialogId = DialogId(callId: string, localTag: string, remoteTag: string)

  /** The dialog an inbound request belongs to, as its receiver sees it. */
  function IdFromRequest(request: Request): Option<DialogId> {
    match (ToOf(request.headers), FromOf(request.headers), CallIdOf(request.headers))
    case (Some(NameAddr(_, _, Some(local))), Some(NameAddr(_, _, Some(remote))), Some(callId)) =>
        Some(DialogId(callId, local, remote))
    case _ => None
  }

  function Reversed<T>(s: seq<T>): (r: seq<T>)
    ensures |r| == |s| && forall i :: 0 <= i < |s| ==> r[i] == s[|s| - 1 - i]
  {
    if s == [] then [] else Reversed(s[1..]) + [s[0]]
  }

  lemma ReversedTwice<T>(s: seq<T>)
    ensures Reversed(Reversed(s)) == s
  {
  }

  /** A dialog as a value. */
  datatype DialogState = DialogState(
    callId: string, local: Party, remote: Party, localContact: Uri, remoteTarget: Uri,
    routeSet: seq<Uri>, localSeq: nat, confirmed: bool
  ) {
    function Id(): DialogId { DialogId(callId, local.tag, remote.tag) }

    /** The dialog's own headers of a request. */
    function Fixed(hostOf: Uri -> string, branch: string, verb: Method, seqNo: nat): seq<Header> {
      [ViaHeader(Via(Some(branch), hostOf(localContact))), MaxForwardsHeader,
       FromHeader(NameAddr(local.displayName, local.uri, Some(local.tag))),
       ToHeader(NameAddr(remote.displayName, remote.uri, Some(remote.tag))),
       CallIdHeader(callId), CSeqHeader(CSeq(seqNo, verb))]
      + (if routeSet != [] then [RouteHeader(routeSet)] else [])
      + [ContactHeader(localContact)]
    }

    function Composed(hostOf: Uri -> string, branch: string, verb: Method, seqNo: nat, extra: seq<Header>,
            size: nat): seq<Header> {
      Fixed(hostOf, branch, verb, seqNo) + extra + [ContentLengthHeader(size)]
    }

    function Compose(hostOf: Uri -> string, branch: string, verb: Method, seqNo: nat, extra: seq<Header>,
            body: seq<bv8>): Request {
      Request(verb, remoteTarget, Composed(hostOf, branch, verb, seqNo, extra, |body| % TWO_32), body)
    }
  }

  function UacDialog(invite: Request, response: Response, localContact: Uri): Option<DialogState> {
    match (FromOf(invite.headers), ToOf(response.headers), CSeqOf(invite.headers), CallIdOf(invite.headers),
        ContactOf(response.headers))
    case (Some(NameAddr(fromName, fromUri, Some(fromTag))), Some(NameAddr(toName, toUri, Some(toTag))), Some(cseq),
        Some(callId), Some(target)) =>
      Some(DialogState(callId, Party(fromName, fromUri, fromTag), Party(toName, toUri, toTag), localContact, target,
                       Reversed(CollectRoutes(response.headers)), cseq.number, response.status >= 200))
    case _ => None
  }

  function UasDialog(invite: Request, localTag: string, localContact: Uri): Option<DialogState> {
    match (FromOf(invite.headers), ToOf(invite.headers), CallIdOf(invite.headers), ContactOf(invite.headers))
    case (Some(NameAddr(fromName, fromUri, Some(fromTag))), Some(to), Some(callId), Some(target)) =>
      Some(DialogState(callId, Party(to.displayName, to.uri, localTag), Party(fromName, fromUri, fromTag), localContact,
          target,
                       CollectRoutes(invite.headers), 0, true))
    case _ => None
  }

  class Dialog {
    const callId: string
    const local: Party
    const remote: Party
    const localContact: Uri
    const remoteTarget: Uri
    const routeSet: seq<Uri>
    const hostOf: Uri -> string
    var localSeq: nat
    var confirmed: bool

    ghost function Value(): DialogState
      reads this
    {
      DialogState(callId, local, remote, localContact, remoteTarget, routeSet, localSeq, confirmed)
    }

    constructor (state: DialogState, hostOf: Uri -> string)
      ensures Value() == state && this.hostOf == hostOf
    {
      callId, local, remote, localContact := state.callId, state.local, state.remote, state.localContact;
      remoteTarget, routeSet, localSeq, confirmed := state.remoteTarget, state.routeSet, state.localSeq,
          state.confirmed;
      this.hostOf := hostOf;
    }

    method Confirm()
      modifies this
      ensures Value() == old(Value()).(confirmed := true)
    {
      confirmed := true;
    }

    /** The next in-dialog request: one number on, to the remote target, along the stored route set. */
    method NewRequestWith(verb: Method, extra: seq<Header>, body: seq<bv8>, branch: string) returns (request: Request)
      modifies this
      ensures Value() == old(Value()).(localSeq := old(localSeq) + 1)
      ensures request == old(Value()).Compose(hostOf, branch, verb, old(localSeq) + 1, extra, body)
    {
      localSeq := localSeq + 1;
      request := ComposeRequest(verb, localSeq, extra, body, branch);
    }

    /** The ACK for a 2xx: the INVITE's own number, and none of the dialog's. */
    method Ack2xx(inviteSeq: nat, branch: string) returns (request: Request)
      ensures request == Value().Compose(hostOf, branch, Ack, inviteSeq, [], [])
    {
      request := ComposeRequest(Ack, inviteSeq, [], [], branch);
    }

    method ComposeRequest(verb: Method, seqNo: nat, extra: seq<Header>, body: seq<bv8>, branch: string)
      returns (request: Request)
      ensures request == Value().Compose(hostOf, branch, verb, seqNo, extra, body)
    {
      var headers := [ViaHeader(Via(Some(branch), hostOf(localContact))), MaxForwardsHeader];
      headers := headers + [FromHeader(NameAddr(local.displayName, local.uri, Some(local.tag))),
                            ToHeader(NameAddr(remote.displayName, remote.uri, Some(remote.tag)))];
      headers := headers + [CallIdHeader(callId), CSeqHeader(CSeq(seqNo, verb))];
      if routeSet != [] {
        headers := headers + [RouteHeader(routeSet)];
      }
      headers := headers + [ContactHeader(localContact)];
      var i := 0;
      ghost var before := headers;
      while i < |extra|
        invariant i <= |extra| && headers == before + extra[..i]
      {
        headers := headers + [extra[i]];
        i := i + 1;
      }
      headers := headers + [ContentLengthHeader(|body| % TWO_32)];
      assert extra[..i] == extra;
      request := Request(verb, remoteTarget, headers, body);
    }
  }

  /** Two ends of one dialog. */
  predicate Mirrored(a: DialogState, b: DialogState) {
    && a.callId == b.callId && a.local.tag == b.remote.tag && a.remote.tag == b.local.tag
    && a.local.uri == b.remote.uri && a.remote.uri == b.local.uri
    && a.routeSet == Reversed(b.routeSet) && b.routeSet == Reversed(a.routeSet)
    && a.remoteTarget == b.localContact && b.remoteTarget == a.localContact
  }

  // ---- Mirrored dialogs ----

  /** The INVITE as it arrives: proxies may have added to its Via and Record-Route headers. */
  predicate ArrivesAs(sent: Request, received: Request) {
    && FromOf(received.headers) == FromOf(sent.headers) && ToOf(received.headers) == ToOf(sent.headers)
    && CallIdOf(received.headers) == CallIdOf(sent.headers) && CSeqOf(received.headers) == CSeqOf(sent.headers)
    && ContactOf(received.headers) == ContactOf(sent.headers)
  }

  /** What an INVITE must carry to open a dialog. */
  predicate Opens(invite: Request, contact: Uri) {
    && ContactOf(invite.headers) == Some(contact) && CallIdOf(invite.headers).Some? && CSeqOf(invite.headers).Some?
    && FromOf(invite.headers).Some? && FromOf(invite.headers).value.tag.Some?
    && ToOf(invite.headers).Some? && ToOf(invite.headers).value.tag.None?
  }

  lemma UacIs(invite: Request, response: Response, localContact: Uri, from: NameAddr, to: NameAddr, target: Uri,
          routes: seq<Uri>)
    requires FromOf(invite.headers) == Some(from) && from.tag.Some? && ToOf(response.headers) == Some(to)
        && to.tag.Some?
    requires CSeqOf(invite.headers).Some? && CallIdOf(invite.headers).Some?
        && ContactOf(response.headers) == Some(target)
    requires CollectRoutes(response.headers) == routes
    ensures UacDialog(invite, response, localContact) ==
      Some(DialogState(CallIdOf(invite.headers).value, Party(from.displayName, from.uri, from.tag.value),
                       Party(to.displayName, to.uri, to.tag.value), localContact, target, Reversed(routes),
                       CSeqOf(invite.headers).value.number, response.status >= 200))
  {
    hide First, CollectRoutes, FromOf, ToOf, CSeqOf, CallIdOf, ContactOf;
  }

  lemma UasIs(invite: Request, localTag: string, localContact: Uri, from: NameAddr, target: Uri)
    requires FromOf(invite.headers) == Some(from) && from.tag.Some? && ToOf(invite.headers).Some?
    requires CallIdOf(invite.headers).Some? && ContactOf(invite.headers) == Some(target)
    ensures UasDialog(invite, localTag, localContact) ==
      Some(DialogState(CallIdOf(invite.headers).value,
                       Party(ToOf(invite.headers).value.displayName, ToOf(invite.headers).value.uri, localTag),
                       Party(from.displayName, from.uri, from.tag.value), localContact, target,
                       CollectRoutes(invite.headers), 0, true))
  {
    hide First, CollectRoutes, FromOf, ToOf, CallIdOf, ContactOf;
  }

  /** The caller's and the callee's dialog of one answered INVITE are mirror images. */
  lemma DialogsMirror(sent: Request, received: Request, status: nat, tag: string, caller: Uri, callee: Uri,
          body: Option<ResponseBody>)
    requires Opens(sent, caller) && ArrivesAs(sent, received)
    ensures
      var response := ResponseTo(received, status, Some(tag), Some(callee), body);
      && response.Some?
      && var uac, uas := UacDialog(sent, response.value, caller), UasDialog(received, tag, callee);
      && uac.Some? && uas.Some? && Mirrored(uac.value, uas.value)
      && uac.value.local.tag == FromOf(sent.headers).value.tag.value && uac.value.remote.tag == tag
      && uac.value.localSeq == CSeqOf(sent.headers).value.number && (uac.value.confirmed <==> status >= 200)
      && uas.value.localSeq == 0 && uas.value.confirmed
      && uac.value.local.displayName == uas.value.remote.displayName == FromOf(sent.headers).value.displayName
      && uac.value.remote.displayName == uas.value.local.displayName == ToOf(sent.headers).value.displayName
  {
    var from, to := FromOf(sent.headers).value, Tagged(ToOf(received.headers).value, Some(tag));
    ResponseReads(received, to, callee, body);
    var response := ResponseTo(received, status, Some(tag), Some(callee), body).value;
    hide ResponseTo, ResponseHeaders;
    var routes := CollectRoutes(received.headers);
    UacIs(sent, response, caller, from, to, callee, routes);
    UasIs(received, tag, callee, from, caller);
    hide CollectRoutes, UacDialog, UasDialog, First;
    ReversedTwice(routes);
  }

  /** The headers of a composed request by position. */
  lemma ComposedAt(d: DialogState, hostOf: Uri -> string, branch: string, verb: Method, seqNo: nat, extra: seq<Header>,
          size: nat)
    ensures var hs := d.Composed(hostOf, branch, verb, seqNo, extra, size);
            var n := if d.routeSet != [] then 7 else 6;
            && |hs| == n + 1 + |extra| + 1
            && hs[0].ViaHeader? && hs[1].MaxForwardsHeader?
            && hs[2] == FromHeader(NameAddr(d.local.displayName, d.local.uri, Some(d.local.tag)))
            && hs[3] == ToHeader(NameAddr(d.remote.displayName, d.remote.uri, Some(d.remote.tag)))
            && hs[4] == CallIdHeader(d.callId) && hs[5] == CSeqHeader(CSeq(seqNo, verb))
            && (d.routeSet != [] ==> hs[6] == RouteHeader(d.routeSet))
            && hs[n] == ContactHeader(d.localContact)
            && hs[n + 1..] == extra + [ContentLengthHeader(size)]
  {
  }

  lemma RouteAfter(hs: seq<Header>, extra: seq<Header>, last: Header)
    requires |hs| >= 7 && hs[7..] == extra + [last] && KindOf(last) != KRoute
    requires forall i :: 0 <= i < 7 ==> KindOf(hs[i]) != KRoute
    ensures First(hs, KRoute) == First(extra, KRoute)
  {
    hide First;
    assert hs == hs[..7] + (extra + [last]);
    FirstNone(hs[..7], KRoute);
    FirstNone([last], KRoute);
    FirstOfConcat(hs[..7], extra + [last], KRoute);
    FirstOfConcat(extra, [last], KRoute);
  }

  lemma PathRead(hs: seq<Header>, d: DialogState, extra: seq<Header>, last: Header)
    requires |hs| >= 7 && KindOf(last) != KRoute && forall i :: 0 <= i < 6 ==> KindOf(hs[i]) !in {KRoute, KContact}
    requires d.routeSet != [] ==>
        hs[6] == RouteHeader(d.routeSet) && |hs| >= 8 && hs[7] == ContactHeader(d.localContact)
    requires d.routeSet == [] ==> hs[6] == ContactHeader(d.localContact) && hs[7..] == extra + [last]
    ensures ContactOf(hs) == Some(d.localContact)
    ensures First(hs, KRoute) == (if d.routeSet != [] then Some(RouteHeader(d.routeSet)) else First(extra, KRoute))
  {
    hide First;
    if d.routeSet != [] {
      FirstAt(hs, 6, KRoute);
      FirstAt(hs, 7, KContact);
    } else {
      FirstAt(hs, 6, KContact);
      RouteAfter(hs, extra, last);
    }
  }

  lemma HeadersRead(hs: seq<Header>, d: DialogState, seqNo: nat, verb: Method)
    requires |hs| >= 6 && hs[0].ViaHeader? && hs[1].MaxForwardsHeader?
    requires hs[2] == FromHeader(NameAddr(d.local.displayName, d.local.uri, Some(d.local.tag)))
    requires hs[3] == ToHeader(NameAddr(d.remote.displayName, d.remote.uri, Some(d.remote.tag)))
    requires hs[4] == CallIdHeader(d.callId) && hs[5] == CSeqHeader(CSeq(seqNo, verb))
    ensures FromOf(hs) == Some(hs[2].from) && ToOf(hs) == Some(hs[3].to) && CallIdOf(hs) == Some(d.callId)
    ensures CSeqOf(hs) == Some(CSeq(seqNo, verb))
  {
    hide First;
    FirstAt(hs, 2, KFrom);
    FirstAt(hs, 3, KTo);
    FirstAt(hs, 4, KCallId);
    FirstAt(hs, 5, KCSeq);
  }

  /** What the receiver reads in a composed request. */
  lemma ComposedReads(d: DialogState, hostOf: Uri -> string, branch: string, verb: Method, seqNo: nat,
          extra: seq<Header>, body: seq<bv8>)
    ensures var r := d.Compose(hostOf, branch, verb, seqNo, extra, body);
            && IdFromRequest(r) == Some(DialogId(d.callId, d.remote.tag, d.local.tag))
            && CSeqOf(r.headers) == Some(CSeq(seqNo, verb))
            && r.uri == d.remoteTarget && ContactOf(r.headers) == Some(d.localContact)
            && First(r.headers, KRoute)
                == (if d.routeSet != [] then Some(RouteHeader(d.routeSet)) else First(extra, KRoute))
  {
    hide DialogState.Composed, First;
    var size := |body| % TWO_32;
    ComposedAt(d, hostOf, branch, verb, seqNo, extra, size);
    var hs := d.Composed(hostOf, branch, verb, seqNo, extra, size);
    HeadersRead(hs, d, seqNo, verb);
    PathRead(hs, d, extra, ContentLengthHeader(size));
  }

  /** No two headers of one kind. */
  ghost predicate KindsApart(hs: seq<Header>) {
    forall i, j :: 0 <= i < j < |hs| ==> KindOf(hs[i]) != KindOf(hs[j])
  }

  lemma OnlySingle(hs: seq<Header>, i: nat)
    requires KindsApart(hs) && i < |hs|
    ensures Only(hs, KindOf(hs[i])) == [hs[i]]
  {
    var kind := KindOf(hs[i]);
    OnlyNone(hs[..i], kind);
    OnlyNone(hs[i + 1..], kind);
    OnlyUniform([hs[i]], kind, kind);
    hide Only;
    OnlyOfConcat(hs[..i], [hs[i]], kind);
    OnlyOfConcat(hs[..i] + [hs[i]], hs[i + 1..], kind);
    assert hs == hs[..i] + [hs[i]] + hs[i + 1..];
  }

  /** The dialog's own header of a kind. */
  function OwnHeader(d: DialogState, hostOf: Uri -> string, branch: string, verb: Method, seqNo: nat, kind: Kind)
    : seq<Header>
  {
    match kind
    case KVia => [ViaHeader(Via(Some(branch), hostOf(d.localContact)))]
    case KMaxForwards => [MaxForwardsHeader]
    case KFrom => [FromHeader(NameAddr(d.local.displayName, d.local.uri, Some(d.local.tag)))]
    case KTo => [ToHeader(NameAddr(d.remote.displayName, d.remote.uri, Some(d.remote.tag)))]
    case KCallId => [CallIdHeader(d.callId)]
    case KCSeq => [CSeqHeader(CSeq(seqNo, verb))]
    case KRoute => if d.routeSet != [] then [RouteHeader(d.routeSet)] else []
    case KContact => [ContactHeader(d.localContact)]
    case _ => []
  }

  lemma FixedAt(d: DialogState, hostOf: Uri -> string, branch: string, verb: Method, seqNo: nat)
    ensures var hs := d.Fixed(hostOf, branch, verb, seqNo);
            && |hs| == (if d.routeSet != [] then 8 else 7) && KindsApart(hs)
            && (forall i :: 0 <= i < |hs| ==> [hs[i]] == OwnHeader(d, hostOf, branch, verb, seqNo, KindOf(hs[i])))
            && KindOf(hs[0]) == KVia && KindOf(hs[1]) == KMaxForwards && KindOf(hs[2]) == KFrom
            && KindOf(hs[3]) == KTo && KindOf(hs[4]) == KCallId && KindOf(hs[5]) == KCSeq
            && KindOf(hs[6]) == (if d.routeSet != [] then KRoute else KContact) && KindOf(hs[|hs| - 1]) == KContact
  {
  }

  lemma FixedOnly(d: DialogState, hostOf: Uri -> string, branch: string, verb: Method, seqNo: nat, kind: Kind)
    ensures Only(d.Fixed(hostOf, branch, verb, seqNo), kind) == OwnHeader(d, hostOf, branch, verb, seqNo, kind)
  {
    FixedAt(d, hostOf, branch, verb, seqNo);
    var hs := d.Fixed(hostOf, branch, verb, seqNo);
    if i :| 0 <= i < |hs| && KindOf(hs[i]) == kind {
      hide *;
      OnlySingle(hs, i);
    } else {
      OnlyNone(hs, kind);
      hide Only, DialogState.Fixed, KindsApart;
    }
  }

  /**
   All of a composed request: the verb, the target and the body, and of every kind the
   dialog's own header, then what the caller adds, then the length of the body, which wraps
   at 32 bits.
   */
  lemma ComposedCarries(d: DialogState, hostOf: Uri -> string, branch: string, verb: Method, seqNo: nat,
          extra: seq<Header>, body: seq<bv8>, kind: Kind)
    ensures var r := d.Compose(hostOf, branch, verb, seqNo, extra, body);
            && r.verb == verb && r.uri == d.remoteTarget && r.body == body
            && Only(r.headers, kind) ==
               OwnHeader(d, hostOf, branch, verb, seqNo, kind) + Only(extra, kind)
               + (if kind == KContentLength then [ContentLengthHeader(|body| % 0x1_0000_0000)] else [])
  {
    var fixed, last := d.Fixed(hostOf, branch, verb, seqNo), [ContentLengthHeader(|body| % TWO_32)];
    FixedOnly(d, hostOf, branch, verb, seqNo, kind);
    OnlyUniform(last, KContentLength, kind);
    hide Only, DialogState.Fixed;
    OnlyOfConcat(fixed, extra, kind);
    OnlyOfConcat(fixed + extra, last, kind);
  }

  // ---- Whole runs of one side ----

  datatype DialogOp = Send(verb: Method, extra: seq<Header>, body: seq<bv8>, branch: string)
    | SendAck(inviteSeq: nat, ackBranch: string)

  function Perform(d: DialogState, hostOf: Uri -> string, op: DialogOp): (DialogState, Request) {
    match op
    case Send(verb, extra, body, branch) =>
      (d.(localSeq := d.localSeq + 1), d.Compose(hostOf, branch, verb, d.localSeq + 1, extra, body))
    case SendAck(n, branch) => (d, d.Compose(hostOf, branch, Ack, n, [], []))
  }

  function Requests(d: DialogState, hostOf: Uri -> string, ops: seq<DialogOp>): (r: seq<Request>)
    ensures |r| == |ops|
    decreases |ops|
  {
    if ops == [] then []
    else
      var (next, request) := Perform(d, hostOf, ops[0]);
      [request] + Requests(next, hostOf, ops[1..])
  }

  /** How many requests that are no ACK come before the i-th operation. */
  function Sends(ops: seq<DialogOp>, i: nat): nat
    requires i <= |ops|
  {
    if i == 0 then 0 else Sends(ops, i - 1) + (if ops[i - 1].Send? then 1 else 0)
  }

  /** The headers the user adds to a request. */
  function ExtraOf(op: DialogOp): seq<Header> {
    match op case Send(_, extra, _, _) => extra case SendAck(_, _) => []
  }

  /**
   The i-th request of a run reaches the other side's dialog, by its route set, at the right
   number; with an empty route set it bears no Route of the dialog's.
   */
  ghost predicate WellSent(d: DialogState, other: DialogState, op: DialogOp, request: Request, sends: nat) {
    && IdFromRequest(request) == Some(other.Id())
    && request.uri == other.localContact
    && request.verb == (match op case Send(verb, _, _, _) => verb case SendAck(_, _) => Ack)
    && request.body == (match op case Send(_, _, body, _) => body case SendAck(_, _) => [])
    && First(request.headers, KRoute) ==
         (if d.routeSet != [] then Some(RouteHeader(Reversed(other.routeSet))) else First(ExtraOf(op), KRoute))
    && CSeqOf(request.headers) ==
         match op case Send(verb, _, _, _) => Some(CSeq(d.localSeq + sends + 1, verb))
             case SendAck(n, _) => Some(CSeq(n, Ack))
  }

  lemma {:induction false} SendsShift(ops: seq<DialogOp>, i: nat)
    requires ops != [] && i < |ops|
    ensures Sends(ops, i + 1) == (if ops[0].Send? then 1 else 0) + Sends(ops[1..], i)
  {
    if i == 0 {
    } else {
      SendsShift(ops, i - 1);
    }
  }

  lemma FirstIsWellSent(d: DialogState, other: DialogState, hostOf: Uri -> string, op: DialogOp)
    requires Mirrored(d, other)
    ensures WellSent(d, other, op, Perform(d, hostOf, op).1, 0)
    ensures Perform(d, hostOf, op).0 == d.(localSeq := d.localSeq + (if op.Send? then 1 else 0))
  {
    hide DialogState.Composed, First, Reversed;
    match op
    case Send(verb, extra, body, branch) => ComposedReads(d, hostOf, branch, verb, d.localSeq + 1, extra, body);
    case SendAck(n, branch) => ComposedReads(d, hostOf, branch, Ack, n, [], []);
  }

  lemma StepsOn(d: DialogState, next: DialogState, other: DialogState, first: DialogOp, op: DialogOp, request: Request,
          sends: nat)
    requires next == d.(localSeq := d.localSeq + (if first.Send? then 1 else 0))
        && WellSent(next, other, op, request, sends)
    ensures WellSent(d, other, op, request, (if first.Send? then 1 else 0) + sends)
  {
    hide IdFromRequest, First, Reversed;
  }

  /** Only the local number has moved. */
  lemma NextIsMirrored(d: DialogState, other: DialogState, next: DialogState)
    requires Mirrored(d, other) && next == d.(localSeq := next.localSeq)
    ensures Mirrored(next, other)
  {
  }

  lemma RequestsStep(d: DialogState, hostOf: Uri -> string, ops: seq<DialogOp>)
    requires ops != []
    ensures Requests(d, hostOf, ops)
         == [Perform(d, hostOf, ops[0]).1] + Requests(Perform(d, hostOf, ops[0]).0, hostOf, ops[1..])
  {
    hide Perform;
  }

  lemma NoneBefore(ops: seq<DialogOp>)
    ensures Sends(ops, 0) == 0
  {
  }

  lemma {:induction false} RequestStaysMirrored(d: DialogState, other: DialogState, hostOf: Uri -> string,
          ops: seq<DialogOp>, i: nat)
    requires Mirrored(d, other) && i < |ops|
    ensures WellSent(d, other, ops[i], Requests(d, hostOf, ops)[i], Sends(ops, i))
    decreases |ops|
  {
    hide *;
    var next := Perform(d, hostOf, ops[0]).0;
    FirstIsWellSent(d, other, hostOf, ops[0]);
    NextIsMirrored(d, other, next);
    RequestsStep(d, hostOf, ops);
    if i == 0 {
      NoneBefore(ops);
    } else {
      RequestStaysMirrored(next, other, hostOf, ops[1..], i - 1);
      SendsShift(ops, i - 1);
      assert ops[1..][i - 1] == ops[i];
      StepsOn(d, next, other, ops[0], ops[i], Requests(d, hostOf, ops)[i], Sends(ops[1..], i - 1));
    }
  }

  /**
   Whatever one side sends, each request resolves to the other side's dialog and carries
   the route set captured at set-up, its number one above the last; ACKs take no number.
   */
  lemma RunsStayMirrored(d: DialogState, other: DialogState, hostOf: Uri -> string, ops: seq<DialogOp>)
    requires Mirrored(d, other)
    ensures forall i :: 0 <= i < |ops| ==> WellSent(d, other, ops[i], Requests(d, hostOf, ops)[i], Sends(ops, i))
  {
    hide Mirrored, WellSent, Requests, Sends;
    forall i | 0 <= i < |ops| ensures WellSent(d, other, ops[i], Requests(d, hostOf, ops)[i], Sends(ops, i)) {
      RequestStaysMirrored(d, other, hostOf, ops, i);
    }
  }
}
