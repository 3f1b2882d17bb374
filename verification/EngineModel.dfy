/**
 The transaction engine as a function from states to states: the table of live
 transactions, the timers it has armed, what it has put on the wire and what it has
 published. `Engine` (the class) is proved to take exactly these steps; the modules
 about whole runs reason about this form.
 */
module EngineModel {
  import opened Wrappers
  import opened Sip
  import opened Transaction
  import CI = ClientInviteTransaction
  import CN = ClientNonInviteTransaction
  import SI = ServerInviteTransaction
  import SN = ServerNonInviteTransaction

  datatype Addr = Addr(ip: string, port: nat)

  datatype Event =
    | IncomingRequest(key: TransactionKey, request: Request, peer: Addr)
    | ResponseEvent(key: TransactionKey, response: Response)
    | UnmatchedRequest(request: Request, peer: Addr)
    | TimedOutEvent(key: TransactionKey)
    | TerminatedEvent(key: TransactionKey)

  datatype Command =
    | StartClient(request: Request, peer: Addr)
    | SendResponse(key: TransactionKey, response: Response)
    | SendOutOfDialog(message: SipMessage, peer: Addr)

  /** A spawned sleeper: it sleeps for `after`, then queues its fire for the engine, once. */
  datatype Sleeper = Sleeper(key: TransactionKey, id: TimerId, generation: nat, after: nat)

  datatype Packet = Packet(message: SipMessage, dst: Addr)

  datatype State = State(
    timers: Timers,
    rel: Reliability,
    txns: map<TransactionKey, EntryState>,
    spawned: seq<Sleeper>,
    published: seq<Event>,
    wire: seq<Packet>
  )

  function Empty(timers: Timers, rel: Reliability): State {
    State(timers, rel, map[], [], [], [])
  }

  function Publish(e: State, event: Event): State {
    e.(published := e.published + [event])
  }

  /** Arming bumps the timer's generation and spawns a sleeper tagged with it. */
  function ArmTimer(e: State, key: TransactionKey, id: TimerId, after: nat): State {
    if key !in e.txns then e
    else
      var entry := e.txns[key];
      var g := (if id in entry.generations then entry.generations[id] else 0) + 1;
      e.(txns := e.txns[key := entry.(generations := entry.generations[id := g])],
         spawned := e.spawned + [Sleeper(key, id, g, after)])
  }

  /** Stopping bumps the generation of a timer that was ever armed. */
  function StopTimerOf(e: State, key: TransactionKey, id: TimerId): State {
    if key !in e.txns || id !in e.txns[key].generations then e
    else
      var entry := e.txns[key];
      e.(txns := e.txns[key := entry.(generations := entry.generations[id := entry.generations[id] + 1])])
  }

  function ApplyOne(e: State, key: TransactionKey, action: TxAction): State {
    match action
    case Send(msg) => if key in e.txns then e.(wire := e.wire + [Packet(msg, e.txns[key].peer)]) else e
    case StartTimer(id, after) => ArmTimer(e, key, id, after)
    case StopTimer(id) => StopTimerOf(e, key, id)
    case DeliverResponse(resp) => Publish(e, ResponseEvent(key, resp))
    case DeliverRequest(req) => if key in e.txns then Publish(e, IncomingRequest(key, req, e.txns[key].peer)) else e
    case TimedOut => Publish(e, TimedOutEvent(key))
    case Terminated => Publish(e.(txns := e.txns - {key}), TerminatedEvent(key))
  }

  function Apply(e: State, key: TransactionKey, actions: seq<TxAction>): State
    decreases |actions|
  {
    if actions == [] then e else Apply(ApplyOne(e, key, actions[0]), key, actions[1..])
  }

  /** A live transaction takes a step of its own machine. */
  function Advance(e: State, key: TransactionKey, step: Step<TxState>): State
    requires key in e.txns
  {
    Apply(e.(txns := e.txns[key := e.txns[key].(tx := step.next)]), key, step.actions)
  }

  function OnResponse(e: State, resp: Response): State {
    match ResponseKey(resp)
    case Some(key) => if key in e.txns then Advance(e, key, e.txns[key].tx.OnResponse(resp)) else e
    case None => e
  }

  function StartServerTx(req: Request, timers: Timers, rel: Reliability): Step<TxState> {
    if req.verb == Invite then var s := SI.Start(req, timers, rel); Step(ServerInvite(s.next), s.actions)
    else var s := SN.Start(req, timers, rel); Step(ServerNonInvite(s.next), s.actions)
  }

  /** A new transaction enters the table, replacing any that had its key. */
  function Open(e: State, key: TransactionKey, peer: Addr, step: Step<TxState>): State {
    Apply(e.(txns := e.txns[key := EntryState(step.next, peer, map[])]), key, step.actions)
  }

  function OnRequest(e: State, req: Request, src: Addr): State {
    match RequestKey(req)
    case None => e
    case Some(key) =>
      if key in e.txns then Advance(e, key, e.txns[key].tx.OnRequest(req))
      else if req.verb == Ack then Publish(e, UnmatchedRequest(req, src))
      else Open(e, key, src, StartServerTx(req, e.timers, e.rel))
  }

  /** A transaction of any of the four kinds. */
  datatype TxState =
    | ClientInvite(ci: CI.Machine)
    | ClientNonInvite(cn: CN.Machine)
    | ServerInvite(si: SI.Machine)
    | ServerNonInvite(sn: SN.Machine)
  {
    function OnResponse(resp: Response): Step<TxState> {
      match this
      case ClientInvite(m) => var s := m.OnResponse(resp); Step(ClientInvite(s.next), s.actions)
      case ClientNonInvite(m) => var s := m.OnResponse(resp); Step(ClientNonInvite(s.next), s.actions)
      case _ => Step(this, [])
    }

    function OnRequest(req: Request): Step<TxState> {
      match this
      case ServerInvite(m) => var s := m.OnRequest(req); Step(ServerInvite(s.next), s.actions)
      case ServerNonInvite(m) => var s := m.OnRequest(); Step(ServerNonInvite(s.next), s.actions)
      case _ => Step(this, [])
    }

    function OnTimer(id: TimerId): Step<TxState> {
      match this
      case ClientInvite(m) => var s := m.OnTimer(id); Step(ClientInvite(s.next), s.actions)
      case ClientNonInvite(m) => var s := m.OnTimer(id); Step(ClientNonInvite(s.next), s.actions)
      case ServerInvite(m) => var s := m.OnTimer(id); Step(ServerInvite(s.next), s.actions)
      case ServerNonInvite(m) => var s := m.OnTimer(id); Step(ServerNonInvite(s.next), s.actions)
    }

    /** The user hands a server transaction its response; client transactions ignore it. */
    function OnUserResponse(resp: Response): Step<TxState> {
      match this
      case ServerInvite(m) => var s := m.SendResponse(resp); Step(ServerInvite(s.next), s.actions)
      case ServerNonInvite(m) => var s := m.SendResponse(resp); Step(ServerNonInvite(s.next), s.actions)
      case _ => Step(this, [])
    }

    predicate IsClient() { ClientInvite? || ClientNonInvite? }
  }

  /** A live transaction, where its messages go, and the generation of each of its timers. */
  datatype EntryState = EntryState(tx: TxState, peer: Addr, generations: map<TimerId, nat>)

  function StartClientTx(req: Request, timers: Timers, rel: Reliability): Step<TxState> {
    if req.verb == Invite then var s := CI.Start(req, timers, rel); Step(ClientInvite(s.next), s.actions)
    else var s := CN.Start(req, timers, rel); Step(ClientNonInvite(s.next), s.actions)
  }

  /** A fire is heard only while its generation is the current one. */
  predicate Heard(e: State, fire: Sleeper) {
    && fire.key in e.txns
    && fire.id in e.txns[fire.key].generations
    && e.txns[fire.key].generations[fire.id] == fire.generation
  }

  function OnTimerFire(e: State, fire: Sleeper): State {
    if Heard(e, fire) then Advance(e, fire.key, e.txns[fire.key].tx.OnTimer(fire.id)) else e
  }

  function OnCommand(e: State, cmd: Command): State {
    match cmd
    case StartClient(req, peer) =>
      (match RequestKey(req)
       case Some(key) => Open(e, key, peer, StartClientTx(req, e.timers, e.rel))
       case None => e)
    case SendResponse(key, resp) =>
      if key in e.txns then Advance(e, key, e.txns[key].tx.OnUserResponse(resp)) else e
    case SendOutOfDialog(msg, peer) => e.(wire := e.wire + [Packet(msg, peer)])
  }

  function OnInbound(e: State, msg: SipMessage, src: Addr): State {
    match msg
    case RequestMessage(req) => OnRequest(e, req, src)
    case ResponseMessage(resp) => OnResponse(e, resp)
  }
}
