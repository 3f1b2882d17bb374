/**
 Whole runs of the engine: any sequence of inbound messages, commands, timer fires and
 passing time, in any order. A sleeper fires at most once, at or after its due time; a
 fire that is not possible leaves the world as it is, so every input sequence is a run.
 */
module EngineRuns {
  import opened Wrappers
  import opened Sip
  import opened Transaction
  import opened EngineModel
  import CI = ClientInviteTransaction
  import SI = ServerInviteTransaction
  import SN = ServerNonInviteTransaction

  datatype Input =
    | Inbound(message: SipMessage, src: Addr)
    | Issue(cmd: Command)
    | Fire(sleeper: nat)
    | Tick(elapsed: nat)

  /** What the event log records: the start of a transaction, and each published event. */
  datatype LogItem = Born(key: TransactionKey, client: bool) | Published(event: Event)

  datatype World = World(
    engine: State,
    /** The sleepers that have already fired. */
    fired: set<nat>,
    now: nat,
    /** When each sleeper is due. */
    due: seq<nat>,
    /** How many sleepers had been spawned when the present owner of a key was opened. */
    birth: map<TransactionKey, nat>,
    /** When the present phase's clock started; see `ClockStarts`. */
    since: map<TransactionKey, nat>,
    log: seq<LogItem>
  )

  function Initially(timers: Timers, rel: Reliability): World {
    World(Empty(timers, rel), {}, 0, [], map[], map[], [])
  }

  predicate CanFire(w: World, i: nat) {
    i < |w.engine.spawned| && i < |w.due| && i !in w.fired && w.due[i] <= w.now
  }

  /** The key of the transaction an input opens, if it opens one. */
  function Opens(e: State, input: Input): Option<TransactionKey> {
    match input
    case Inbound(RequestMessage(req), _) =>
      (match RequestKey(req)
       case Some(key) => if key !in e.txns && req.verb != Ack then Some(key) else None
       case None => None)
    case Issue(StartClient(req, _)) => RequestKey(req)
    case _ => None
  }

  predicate OpensClient(input: Input) { input.Issue? }

  function StepEngine(w: World, input: Input): State {
    match input
    case Inbound(msg, src) => OnInbound(w.engine, msg, src)
    case Issue(cmd) => OnCommand(w.engine, cmd)
    case Fire(i) => if CanFire(w, i) then OnTimerFire(w.engine, w.engine.spawned[i]) else w.engine
    case Tick(_) => w.engine
  }

  /**
   The phases whose clock is not the one of the phase before: a client request starts
   its clock when it opens, the others when their final response enters them.
   */
  predicate ClockStarts(before: TxState, after: TxState) {
    match (before, after)
    case (ClientInvite(a), ClientInvite(b)) => a.phase != CI.Completed && b.phase == CI.Completed
    case (ServerInvite(a), ServerInvite(b)) => a.phase == SI.Proceeding && b.phase == SI.Completed
    case (ServerNonInvite(a), ServerNonInvite(b)) => a.phase != SN.Completed && b.phase == SN.Completed
    case _ => false
  }

  function Since(w: World, after: State, entered: Option<TransactionKey>): map<TransactionKey, nat> {
    map k | k in after.txns ::
      if Some(k) == entered || k !in w.engine.txns || k !in w.since
          || ClockStarts(w.engine.txns[k].tx, after.txns[k].tx)
      then w.now else w.since[k]
  }

  /** When each sleeper is due: those spawned by this step, `after` from now. */
  function DueTimes(now: nat, due: seq<nat>, spawned: seq<Sleeper>): (r: seq<nat>)
    ensures |due| <= |spawned| ==> |r| == |spawned|
    ensures forall i :: 0 <= i < |due| ==> i < |r| && r[i] == due[i]
    ensures forall i :: |due| <= i < |r| ==> i < |spawned| && r[i] == now + spawned[i].after
    decreases |spawned| - |due|
  {
    if |spawned| <= |due| then due else DueTimes(now, due + [now + spawned[|due|].after], spawned)
  }

  function News(seen: nat, published: seq<Event>): (r: seq<LogItem>)
    ensures seen <= |published| ==> |r| == |published| - seen
    ensures forall i :: 0 <= i < |r| ==> seen + i < |published| && r[i] == Published(published[seen + i])
    decreases |published| - seen
  {
    if seen >= |published| then [] else [Published(published[seen])] + News(seen + 1, published)
  }

  function Next(w: World, input: Input): World {
    var e := StepEngine(w, input);
    var entered := Opens(w.engine, input);
    World(
      e,
      if input.Fire? && CanFire(w, input.sleeper) then w.fired + {input.sleeper} else w.fired,
      if input.Tick? then w.now + input.elapsed else w.now,
      DueTimes(w.now, w.due, e.spawned),
      if entered.Some? then w.birth[entered.value := |w.engine.spawned|] else w.birth,
      Since(w, e, entered),
      w.log + (if entered.Some? then [Born(entered.value, OpensClient(input))] else [])
            + News(|w.engine.published|, e.published))
  }

  function Exec(w: World, inputs: seq<Input>): World
    decreases |inputs|
  {
    if inputs == [] then w else Exec(Next(w, inputs[0]), inputs[1..])
  }

  // ---- What applying actions leaves alone ----

  /** Bookkeeping every reachable world satisfies. */
  ghost predicate Tidy(w: World) {
    && |w.due| == |w.engine.spawned|
    && (forall i :: i in w.fired ==> i < |w.engine.spawned|)
    && (forall k :: k in w.engine.txns ==>
          k in w.birth && w.birth[k] <= |w.engine.spawned| && k in w.since && w.since[k] <= w.now)
  }

  /** The engine only ever appends to what it has spawned, published and sent. */
  ghost predicate Extends(e: State, f: State) {
    && f.timers == e.timers && f.rel == e.rel
    && |e.spawned| <= |f.spawned| && f.spawned[..|e.spawned|] == e.spawned
    && |e.published| <= |f.published| && f.published[..|e.published|] == e.published
    && |e.wire| <= |f.wire| && f.wire[..|e.wire|] == e.wire
  }

  lemma ApplyOneExtends(e: State, key: TransactionKey, action: TxAction)
    ensures Extends(e, ApplyOne(e, key, action))
    ensures forall k :: k != key ==> (k in ApplyOne(e, key, action).txns <==> k in e.txns)
    ensures forall k :: k != key && k in e.txns ==> ApplyOne(e, key, action).txns[k] == e.txns[k]
    ensures key in ApplyOne(e, key, action).txns <==> key in e.txns && !action.Terminated?
    ensures key in ApplyOne(e, key, action).txns ==>
              && ApplyOne(e, key, action).txns[key].tx == e.txns[key].tx
              && ApplyOne(e, key, action).txns[key].peer == e.txns[key].peer
  {
  }

  /** Applying actions for one key touches no other entry and no machine. */
  lemma {:induction false} ApplyExtends(e: State, key: TransactionKey, actions: seq<TxAction>)
    ensures Extends(e, Apply(e, key, actions))
    ensures forall k :: k != key ==> (k in Apply(e, key, actions).txns <==> k in e.txns)
    ensures forall k :: k != key && k in e.txns ==> Apply(e, key, actions).txns[k] == e.txns[k]
    ensures key in Apply(e, key, actions).txns <==> key in e.txns && Transaction.Terminated !in actions
    ensures key in Apply(e, key, actions).txns ==>
              && Apply(e, key, actions).txns[key].tx == e.txns[key].tx
              && Apply(e, key, actions).txns[key].peer == e.txns[key].peer
    decreases |actions|
  {
    if actions == [] {
    } else {
      ApplyOneExtends(e, key, actions[0]);
      ApplyExtends(ApplyOne(e, key, actions[0]), key, actions[1..]);
      assert actions == [actions[0]] + actions[1..];
    }
  }

  /** The sleepers an action list spawns are for its own key. */
  lemma {:induction false} ApplySpawnsFor(e: State, key: TransactionKey, actions: seq<TxAction>)
    ensures |e.spawned| <= |Apply(e, key, actions).spawned|
    ensures forall i :: |e.spawned| <= i < |Apply(e, key, actions).spawned| ==>
        Apply(e, key, actions).spawned[i].key == key
    ensures forall i :: 0 <= i < |e.spawned| ==> Apply(e, key, actions).spawned[i] == e.spawned[i]
    decreases |actions|
  {
    if actions == [] {
    } else {
      ApplySpawnsFor(ApplyOne(e, key, actions[0]), key, actions[1..]);
    }
  }

  /** Every step of the engine is one machine step, one opening, or bookkeeping. */
  datatype Effect = Moves(key: TransactionKey, step: Step<TxState>)
                | Starts(key: TransactionKey, peer: Addr, step: Step<TxState>)
                | Idle(after: State)

  function EffectOf(w: World, input: Input): Effect {
    var e := w.engine;
    match input
    case Inbound(RequestMessage(req), src) =>
      (match RequestKey(req)
       case None => Idle(e)
       case Some(key) =>
         if key in e.txns then Moves(key, e.txns[key].tx.OnRequest(req))
         else if req.verb == Ack then Idle(EngineModel.Publish(e, UnmatchedRequest(req, src)))
         else Starts(key, src, StartServerTx(req, e.timers, e.rel)))
    case Inbound(ResponseMessage(resp), _) =>
      (match ResponseKey(resp)
       case Some(key) => if key in e.txns then Moves(key, e.txns[key].tx.OnResponse(resp)) else Idle(e)
       case None => Idle(e))
    case Issue(StartClient(req, peer)) =>
      (match RequestKey(req)
       case Some(key) => Starts(key, peer, StartClientTx(req, e.timers, e.rel))
       case None => Idle(e))
    case Issue(SendResponse(key, resp)) =>
      if key in e.txns then Moves(key, e.txns[key].tx.OnUserResponse(resp)) else Idle(e)
    case Issue(SendOutOfDialog(msg, peer)) => Idle(e.(wire := e.wire + [Packet(msg, peer)]))
    case Fire(i) =>
      if CanFire(w, i) && Heard(e, e.spawned[i])
      then Moves(e.spawned[i].key, e.txns[e.spawned[i].key].tx.OnTimer(e.spawned[i].id))
      else Idle(e)
    case Tick(_) => Idle(e)
  }

  lemma StepByEffect(w: World, input: Input)
    ensures match EffectOf(w, input)
            case Moves(key, step) =>
              key in w.engine.txns && StepEngine(w, input) == Advance(w.engine, key, step)
                  && Opens(w.engine, input) == None
            case Starts(key, peer, step) =>
              StepEngine(w, input) == Open(w.engine, key, peer, step) && Opens(w.engine, input) == Some(key)
              && (input.Issue? || key !in w.engine.txns) && step.next.IsClient() == OpensClient(input)
            case Idle(after) =>
              StepEngine(w, input) == after && after.txns == w.engine.txns && after.spawned == w.engine.spawned
              && Extends(w.engine, after) && Opens(w.engine, input) == None
  {
  }

  lemma StepExtends(w: World, input: Input)
    ensures Extends(w.engine, StepEngine(w, input))
  {
    StepByEffect(w, input);
    var e := w.engine;
    match EffectOf(w, input) {
      case Moves(key, step) =>
        ApplyExtends(e.(txns := e.txns[key := e.txns[key].(tx := step.next)]), key, step.actions);
      case Starts(key, peer, step) =>
        ApplyExtends(e.(txns := e.txns[key := EntryState(step.next, peer, map[])]), key, step.actions);
      case Idle(_) =>
    }
  }

  lemma TidyStep(w: World, input: Input)
    requires Tidy(w)
    ensures Tidy(Next(w, input))
  {
    StepExtends(w, input);
    StepByEffect(w, input);
    var e := w.engine;
    match EffectOf(w, input) {
      case Moves(key, step) =>
        ApplyExtends(e.(txns := e.txns[key := e.txns[key].(tx := step.next)]), key, step.actions);
      case Starts(key, peer, step) =>
        ApplyExtends(e.(txns := e.txns[key := EntryState(step.next, peer, map[])]), key, step.actions);
      case Idle(_) =>
    }
  }

  lemma ApplyFront(e: State, key: TransactionKey, a: TxAction, rest: seq<TxAction>)
    ensures Apply(e, key, [a] + rest) == Apply(ApplyOne(e, key, a), key, rest)
  {
    assert ([a] + rest)[1..] == rest;
  }

  /** The action lists of the machines are short; these spell out what applying them does. */
  lemma ApplyShort(e: State, key: TransactionKey, a: TxAction, b: TxAction, c: TxAction)
    ensures Apply(e, key, []) == e
    ensures Apply(e, key, [a]) == ApplyOne(e, key, a)
    ensures Apply(e, key, [a, b]) == ApplyOne(ApplyOne(e, key, a), key, b)
    ensures Apply(e, key, [a, b, c]) == ApplyOne(ApplyOne(ApplyOne(e, key, a), key, b), key, c)
  {
    var e1 := ApplyOne(e, key, a);
    var e2 := ApplyOne(e1, key, b);
    ApplyFront(e, key, a, []);
    ApplyFront(e, key, a, [b]);
    ApplyFront(e, key, a, [b, c]);
    ApplyFront(e1, key, b, []);
    ApplyFront(e1, key, b, [c]);
    ApplyFront(e2, key, c, []);
    assert [a] + [b, c] == [a, b, c] && [a] + [b] == [a, b] && [a] + [] == [a] && [b] + [c] == [b, c];
  }

  /** How the bookkeeping of a world follows from what the engine did. */
  lemma NextFrom(w: World, input: Input, e: State)
    requires Tidy(w) && e == StepEngine(w, input)
    ensures Tidy(Next(w, input)) && Next(w, input).engine == e
    ensures Next(w, input).now == if input.Tick? then w.now + input.elapsed else w.now
    ensures Next(w, input).fired == if input.Fire? && CanFire(w, input.sleeper) then w.fired + {input.sleeper}
        else w.fired
    ensures Opens(w.engine, input) == None ==> Next(w, input).birth == w.birth
    ensures |w.due| <= |Next(w, input).due| == |e.spawned|
    ensures forall i :: 0 <= i < |w.due| ==> Next(w, input).due[i] == w.due[i]
    ensures forall i :: |w.due| <= i < |Next(w, input).due| ==> Next(w, input).due[i] == w.now + e.spawned[i].after
  {
    StepExtends(w, input);
    TidyStep(w, input);
  }

  /** Runs extend at the end. */
  lemma {:induction false} ExecThen(w: World, inputs: seq<Input>, last: Input)
    ensures Exec(w, inputs + [last]) == Next(Exec(w, inputs), last)
    decreases |inputs|
  {
    if inputs == [] {
      assert inputs + [last] == [last] && [last][1..] == [];
    } else {
      assert (inputs + [last])[1..] == inputs[1..] + [last];
      ExecThen(Next(w, inputs[0]), inputs[1..], last);
    }
  }
}
