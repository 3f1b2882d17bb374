/**
 No transaction waits without a way out. In every reachable world, every transaction that
 is waiting for something has a live timer whose firing ends it; and when sleepers fire as
 soon as they are due, the wait is bounded by the timers of section 17 of RFC 3261.
 Both hold over every run, impostors' fires included: they can only end a wait sooner.
 */
module TransactionExit {
  import opened Wrappers
  import opened Sip
  import opened Transaction
  import opened EngineModel
  import opened EngineRuns
  import CI = ClientInviteTransaction
  import CN = ClientNonInviteTransaction
  import SI = ServerInviteTransaction
  import SN = ServerNonInviteTransaction

  /** The timer that ends a waiting transaction; the other live phases wait for the user or the peer. */
  function Exit(tx: TxState): Option<TimerId> {
    match tx
    case ClientInvite(m) => if m.phase == CI.Calling then Some(B) else if m.phase == CI.Completed then Some(D) else None
    case ClientNonInvite(m) => if m.phase in {CN.Trying, CN.Proceeding} then Some(F)
        else if m.phase == CN.Completed then Some(K) else None
    case ServerInvite(m) => if m.phase == SI.Completed then Some(H) else if m.phase == SI.Confirmed then Some(I)
        else None
    case ServerNonInvite(m) => if m.phase == SN.Completed then Some(J) else None
  }

  predicate HasEnded(tx: TxState) {
    match tx
    case ClientInvite(m) => m.phase == CI.Ended
    case ClientNonInvite(m) => m.phase == CN.Ended
    case ServerInvite(m) => m.phase == SI.Ended
    case ServerNonInvite(m) => m.phase == SN.Ended
  }

  /** How long a phase may last after its clock started; the soak timers only run on unreliable transports. */
  function Budget(tx: TxState): nat {
    match tx
    case ClientInvite(m) => if m.phase == CI.Completed then m.timers.D(m.rel) else m.timers.Timeout()
    case ClientNonInvite(m) => m.timers.Timeout() + if m.phase == CN.Completed then m.timers.K(m.rel) else 0
    case ServerInvite(m) => m.timers.Timeout() + if m.phase == SI.Confirmed then m.timers.I(m.rel) else 0
    case ServerNonInvite(m) => m.timers.J(m.rel)
  }

  function TimersOf(tx: TxState): Timers {
    match tx
    case ClientInvite(m) => m.timers
    case ClientNonInvite(m) => m.timers
    case ServerInvite(m) => m.timers
    case ServerNonInvite(m) => m.timers
  }

  ghost predicate Live(e: State, fired: set<nat>, now: nat, due: seq<nat>, key: TransactionKey, id: TimerId,
          limit: Option<nat>) {
    exists i :: Wakes(e, fired, now, due, key, id, limit, i)
  }

  // ---- Live timers ----

  /** When sleeper `i` is due, in the middle of a step taken at `now` by a world with due times `due`. */
  function DueOf(e: State, now: nat, due: seq<nat>, i: nat): nat
    requires i < |e.spawned|
  {
    if i < |due| then due[i] else now + e.spawned[i].after
  }

  /** Sleeper `i` is still to fire, will be heard by this timer, and is due within the limit. */
  predicate Wakes(e: State, fired: set<nat>, now: nat, due: seq<nat>, key: TransactionKey, id: TimerId,
          limit: Option<nat>, i: nat) {
    && i < |e.spawned| && i !in fired
    && e.spawned[i].key == key && e.spawned[i].id == id && Heard(e, e.spawned[i])
    && (limit.Some? ==> DueOf(e, now, due, i) <= limit.value)
  }

  predicate Touches(action: TxAction, id: TimerId) {
    (action.StartTimer? && action.id == id) || (action.StopTimer? && action.stopped == id)
  }

  predicate Untouched(actions: seq<TxAction>, id: TimerId) {
    forall j :: 0 <= j < |actions| ==> !Touches(actions[j], id)
  }

  predicate ArmsLast(actions: seq<TxAction>, id: TimerId) {
    actions != [] && actions[|actions| - 1].StartTimer? && actions[|actions| - 1].id == id
  }

  lemma ApplyOneKeepsLive(e: State, key: TransactionKey, action: TxAction, fired: set<nat>, now: nat, due: seq<nat>,
          k: TransactionKey, id: TimerId, limit: Option<nat>)
    requires Live(e, fired, now, due, k, id, limit)
    requires k != key || (!Touches(action, id) && !action.Terminated?)
    ensures Live(ApplyOne(e, key, action), fired, now, due, k, id, limit)
  {
    var i :| Wakes(e, fired, now, due, k, id, limit, i);
    assert Wakes(ApplyOne(e, key, action), fired, now, due, k, id, limit, i);
  }

  /** A live timer stays live through actions for other keys, and through actions that leave it alone. */
  lemma {:induction false} ApplyKeepsLive(e: State, key: TransactionKey, actions: seq<TxAction>, fired: set<nat>,
          now: nat, due: seq<nat>, k: TransactionKey, id: TimerId, limit: Option<nat>)
    requires Live(e, fired, now, due, k, id, limit)
    requires k != key || (Untouched(actions, id) && Transaction.Terminated !in actions)
    ensures Live(Apply(e, key, actions), fired, now, due, k, id, limit)
    decreases |actions|
  {
    if actions == [] {
    } else {
      ApplyOneKeepsLive(e, key, actions[0], fired, now, due, k, id, limit);
      ApplyKeepsLive(ApplyOne(e, key, actions[0]), key, actions[1..], fired, now, due, k, id, limit);
    }
  }

  /** A timer armed by the last action is live. */
  lemma {:induction false} ApplyArmsLive(e: State, key: TransactionKey, actions: seq<TxAction>, fired: set<nat>,
          now: nat, due: seq<nat>, id: TimerId)
    requires key in e.txns && Transaction.Terminated !in actions && ArmsLast(actions, id)
    requires |due| <= |e.spawned| && forall i :: i in fired ==> i < |e.spawned|
    ensures Live(Apply(e, key, actions), fired, now, due, key, id, Some(now + actions[|actions| - 1].after))
    decreases |actions|
  {
    var e1 := ApplyOne(e, key, actions[0]);
    if |actions| == 1 {
      assert Apply(e1, key, actions[1..]) == e1;
      assert Wakes(e1, fired, now, due, key, id, Some(now + actions[0].after), |e.spawned|);
    } else {
      assert actions[0] in actions;
      ApplyOneExtends(e, key, actions[0]);
      ApplyArmsLive(e1, key, actions[1..], fired, now, due, id);
    }
  }

  // ---- What each machine step does to its way out ----

  /** A step that does not end its transaction arms the next phase's exit last, or keeps the present one. */
  ghost predicate KeepsExit(tx: TxState, step: Step<TxState>) {
    && TimersOf(step.next) == TimersOf(tx)
    && (HasEnded(step.next) <==> Transaction.Terminated in step.actions)
    && (Exit(step.next).Some? ==>
          || ArmsLast(step.actions, Exit(step.next).value)
          || (Exit(step.next) == Exit(tx) && Untouched(step.actions, Exit(tx).value)
              && !ClockStarts(tx, step.next) && Budget(step.next) == Budget(tx)))
  }

  /** The exit armed by a step leaves within the phase's budget, counted from the right clock. */
  ghost predicate ArmsWithin(tx: TxState, step: Step<TxState>) {
    Exit(step.next).Some? && ArmsLast(step.actions, Exit(step.next).value) ==>
      var after := step.actions[|step.actions| - 1].after;
      if ClockStarts(tx, step.next) then after <= Budget(step.next)
      else Exit(tx).Some? && Budget(tx) + after <= Budget(step.next)
  }

  lemma ClientInviteResponse(m: CI.Machine, resp: Response)
    requires m.phase != CI.Ended
    ensures KeepsExit(ClientInvite(m), ClientInvite(m).OnResponse(resp))
        && ArmsWithin(ClientInvite(m), ClientInvite(m).OnResponse(resp))
  {
    hide Non2xxAck;
  }

  lemma ClientNonInviteResponse(m: CN.Machine, resp: Response)
    requires m.phase != CN.Ended
    ensures KeepsExit(ClientNonInvite(m), ClientNonInvite(m).OnResponse(resp))
    ensures ArmsWithin(ClientNonInvite(m), ClientNonInvite(m).OnResponse(resp))
  {
  }

  lemma ResponseKeepsExit(tx: TxState, resp: Response)
    requires !HasEnded(tx)
    ensures KeepsExit(tx, tx.OnResponse(resp)) && ArmsWithin(tx, tx.OnResponse(resp))
  {
    match tx
    case ClientInvite(m) => ClientInviteResponse(m, resp);
    case ClientNonInvite(m) => ClientNonInviteResponse(m, resp);
    case _ =>
  }

  lemma RequestKeepsExit(tx: TxState, req: Request)
    requires !HasEnded(tx)
    ensures KeepsExit(tx, tx.OnRequest(req)) && ArmsWithin(tx, tx.OnRequest(req))
  {
  }

  lemma UserKeepsExit(tx: TxState, resp: Response)
    requires !HasEnded(tx)
    ensures KeepsExit(tx, tx.OnUserResponse(resp)) && ArmsWithin(tx, tx.OnUserResponse(resp))
  {
  }

  lemma ClientInviteTimer(m: CI.Machine, id: TimerId)
    requires m.phase != CI.Ended
    ensures KeepsExit(ClientInvite(m), ClientInvite(m).OnTimer(id))
        && ArmsWithin(ClientInvite(m), ClientInvite(m).OnTimer(id))
    ensures Exit(ClientInvite(m)) == Some(id) ==> HasEnded(ClientInvite(m).OnTimer(id).next)
  {
  }

  lemma ClientNonInviteTimer(m: CN.Machine, id: TimerId)
    requires m.phase != CN.Ended
    ensures KeepsExit(ClientNonInvite(m), ClientNonInvite(m).OnTimer(id))
    ensures ArmsWithin(ClientNonInvite(m), ClientNonInvite(m).OnTimer(id))
    ensures Exit(ClientNonInvite(m)) == Some(id) ==> HasEnded(ClientNonInvite(m).OnTimer(id).next)
  {
  }

  lemma ServerInviteTimer(m: SI.Machine, id: TimerId)
    requires m.phase != SI.Ended
    ensures KeepsExit(ServerInvite(m), ServerInvite(m).OnTimer(id))
        && ArmsWithin(ServerInvite(m), ServerInvite(m).OnTimer(id))
    ensures Exit(ServerInvite(m)) == Some(id) ==> HasEnded(ServerInvite(m).OnTimer(id).next)
  {
  }

  lemma TimerKeepsExit(tx: TxState, id: TimerId)
    requires !HasEnded(tx)
    ensures KeepsExit(tx, tx.OnTimer(id)) && ArmsWithin(tx, tx.OnTimer(id))
    ensures Exit(tx) == Some(id) ==> HasEnded(tx.OnTimer(id).next)
  {
    match tx
    case ClientInvite(m) => ClientInviteTimer(m, id);
    case ClientNonInvite(m) => ClientNonInviteTimer(m, id);
    case ServerInvite(m) => ServerInviteTimer(m, id);
    case ServerNonInvite(m) =>
  }

  lemma StartArmsExit(req: Request, timers: Timers, rel: Reliability)
    ensures forall step :: step in {StartClientTx(req, timers, rel), StartServerTx(req, timers, rel)} ==>
      && !HasEnded(step.next) && Transaction.Terminated !in step.actions && TimersOf(step.next) == timers
      && (Exit(step.next).Some? ==> ArmsLast(step.actions, Exit(step.next).value)
                                    && step.actions[|step.actions| - 1].after <= Budget(step.next))
  {
  }

  // ---- Whole runs ----

  /** The time limit of a wait: its phase's budget from its clock's start, if runs are timely. */
  function Limit(w: World, timely: bool, key: TransactionKey): Option<nat>
    requires key in w.engine.txns && key in w.since
  {
    if timely then Some(w.since[key] + Budget(w.engine.txns[key].tx)) else None
  }

  /** One transaction's way out: if it waits, the timer it waits for is live. */
  ghost predicate WayOut(w: World, timely: bool, key: TransactionKey)
    requires key in w.engine.txns && key in w.since
  {
    var tx := w.engine.txns[key].tx;
    && !HasEnded(tx) && TimersOf(tx) == w.engine.timers
    && (Exit(tx).Some? ==> Live(w.engine, w.fired, w.now, w.due, key, Exit(tx).value, Limit(w, timely, key)))
  }

  /** No sleeper that is still to fire is past its due time. */
  ghost predicate NothingOverdue(w: World) {
    forall i :: 0 <= i < |w.due| && i !in w.fired ==> w.now <= w.due[i]
  }

  ghost predicate Waits(w: World, timely: bool) {
    && Tidy(w)
    && (timely ==> NothingOverdue(w))
    && (forall k :: k in w.engine.txns ==> WayOut(w, timely, k))
  }

  /** Time only passes while no sleeper that is still to fire would become overdue. */
  predicate Timely(w: World, input: Input) {
    input.Tick? ==> forall i :: 0 <= i < |w.due| && i !in w.fired ==> w.now + input.elapsed <= w.due[i]
  }

  predicate Punctual(w: World, inputs: seq<Input>)
    decreases |inputs|
  {
    inputs == [] || (Timely(w, inputs[0]) && Punctual(Next(w, inputs[0]), inputs[1..]))
  }

  /** A live timer in the middle of a step is live in the world after it. */
  lemma LiveNext(w: World, input: Input, e: State, key: TransactionKey, id: TimerId, limit: Option<nat>)
    requires Tidy(w) && e == StepEngine(w, input)
    requires Live(e, Next(w, input).fired, w.now, w.due, key, id, limit)
    ensures Live(e, Next(w, input).fired, Next(w, input).now, Next(w, input).due, key, id, limit)
  {
    hide EngineRuns.StepEngine;
    StepExtends(w, input);
    NextFrom(w, input, e);
    var i :| Wakes(e, Next(w, input).fired, w.now, w.due, key, id, limit, i);
    assert Wakes(e, Next(w, input).fired, Next(w, input).now, Next(w, input).due, key, id, limit, i);
  }

  /** A sleeper that fires unheard, or for another timer, leaves this one live. */
  lemma SpendKeepsLive(w: World, i: nat, key: TransactionKey, id: TimerId, limit: Option<nat>)
    requires CanFire(w, i) && Live(w.engine, w.fired, w.now, w.due, key, id, limit)
    requires w.engine.spawned[i].key != key || w.engine.spawned[i].id != id || !Heard(w.engine, w.engine.spawned[i])
    ensures Live(w.engine, w.fired + {i}, w.now, w.due, key, id, limit)
  {
    var j :| Wakes(w.engine, w.fired, w.now, w.due, key, id, limit, j);
    assert Wakes(w.engine, w.fired + {i}, w.now, w.due, key, id, limit, j);
  }

  /** Changing a machine changes none of its timers. */
  lemma MachineKeepsLive(e: State, e': State, fired: set<nat>, now: nat, due: seq<nat>, key: TransactionKey,
          id: TimerId, limit: Option<nat>)
    requires Live(e, fired, now, due, key, id, limit)
    requires e'.spawned == e.spawned
    requires key in e.txns ==> key in e'.txns && e'.txns[key].generations == e.txns[key].generations
    ensures Live(e', fired, now, due, key, id, limit)
  {
    var i :| Wakes(e, fired, now, due, key, id, limit, i);
    assert Wakes(e', fired, now, due, key, id, limit, i);
  }

  /** The sleepers spent by a step. */
  function Spent(w: World, input: Input): set<nat> {
    if input.Fire? && CanFire(w, input.sleeper) then w.fired + {input.sleeper} else w.fired
  }

  /** The step's own fire, if it has one, is heard by another timer than this. */
  predicate Elsewhere(w: World, input: Input, key: TransactionKey, id: TimerId) {
    input.Fire? && CanFire(w, input.sleeper) && Heard(w.engine, w.engine.spawned[input.sleeper]) ==>
      w.engine.spawned[input.sleeper].key != key || w.engine.spawned[input.sleeper].id != id
  }

  /** A transaction another one's step passes by keeps its way out. */
  lemma OthersKeepWayOut(w: World, timely: bool, input: Input, e0: State, key: TransactionKey, actions: seq<TxAction>,
          k: TransactionKey)
    requires Waits(w, timely) && k in w.engine.txns && k != key
    requires e0.spawned == w.engine.spawned && k in e0.txns && e0.txns[k] == w.engine.txns[k]
    requires Exit(w.engine.txns[k].tx).Some? ==> Elsewhere(w, input, k, Exit(w.engine.txns[k].tx).value)
    ensures var tx := w.engine.txns[k].tx;
            Exit(tx).Some? ==>
              Live(Apply(e0, key, actions), Spent(w, input), w.now, w.due, k, Exit(tx).value, Limit(w, timely, k))
  {
    assert WayOut(w, timely, k);
    var tx := w.engine.txns[k].tx;
    if Exit(tx).Some? {
      var id, limit := Exit(tx).value, Limit(w, timely, k);
      if input.Fire? && CanFire(w, input.sleeper) {
        SpendKeepsLive(w, input.sleeper, k, id, limit);
      }
      MachineKeepsLive(w.engine, e0, Spent(w, input), w.now, w.due, k, id, limit);
      ApplyKeepsLive(e0, key, actions, Spent(w, input), w.now, w.due, k, id, limit);
    }
  }

  /** In a timely world no wait has run past its budget. */
  lemma WithinBudget(w: World, key: TransactionKey)
    requires Waits(w, true) && key in w.engine.txns && Exit(w.engine.txns[key].tx).Some?
    ensures w.now <= w.since[key] + Budget(w.engine.txns[key].tx)
  {
    assert WayOut(w, true, key);
    var tx := w.engine.txns[key].tx;
    var i :| Wakes(w.engine, w.fired, w.now, w.due, key, Exit(tx).value, Limit(w, true, key), i);
  }

  lemma LooserLimit(e: State, fired: set<nat>, now: nat, due: seq<nat>, key: TransactionKey, id: TimerId, tight: nat,
          limit: Option<nat>)
    requires Live(e, fired, now, due, key, id, Some(tight)) && (limit.Some? ==> tight <= limit.value)
    ensures Live(e, fired, now, due, key, id, limit)
  {
    var i :| Wakes(e, fired, now, due, key, id, Some(tight), i);
    assert Wakes(e, fired, now, due, key, id, limit, i);
  }

  /** The transaction that moves: its next exit is armed in time, or its present one is kept. */
  lemma MoverKeepsWayOut(w: World, timely: bool, input: Input, key: TransactionKey, step: Step<TxState>, since: nat)
    requires Waits(w, timely) && key in w.engine.txns
    requires KeepsExit(w.engine.txns[key].tx, step) && ArmsWithin(w.engine.txns[key].tx, step)
    requires Transaction.Terminated !in step.actions
    requires
      Exit(step.next).Some? && Exit(step.next) == Exit(w.engine.txns[key].tx)
          && Untouched(step.actions, Exit(step.next).value)
      ==> Elsewhere(w, input, key, Exit(step.next).value)
    requires since == if ClockStarts(w.engine.txns[key].tx, step.next) then w.now else w.since[key]
    ensures Exit(step.next).Some? ==>
              Live(Advance(w.engine, key, step), Spent(w, input), w.now, w.due, key, Exit(step.next).value,
                   if timely then Some(since + Budget(step.next)) else None)
  {
    if Exit(step.next).Some? {
      assert WayOut(w, timely, key);
      var tx, id := w.engine.txns[key].tx, Exit(step.next).value;
      var e0 := w.engine.(txns := w.engine.txns[key := w.engine.txns[key].(tx := step.next)]);
      var limit := if timely then Some(since + Budget(step.next)) else None;
      if ArmsLast(step.actions, id) {
        ApplyArmsLive(e0, key, step.actions, Spent(w, input), w.now, w.due, id);
        if timely && Exit(tx).Some? {
          WithinBudget(w, key);
        }
        LooserLimit(Apply(e0, key, step.actions), Spent(w, input), w.now, w.due, key, id,
                    w.now + step.actions[|step.actions| - 1].after, limit);
      } else {
        if input.Fire? && CanFire(w, input.sleeper) {
          SpendKeepsLive(w, input.sleeper, key, id, Limit(w, timely, key));
        }
        MachineKeepsLive(w.engine, e0, Spent(w, input), w.now, w.due, key, id, limit);
        ApplyKeepsLive(e0, key, step.actions, Spent(w, input), w.now, w.due, key, id, limit);
      }
    }
  }

  lemma StarterHasWayOut(w: World, timely: bool, fired: set<nat>, key: TransactionKey, peer: Addr, step: Step<TxState>)
    requires Tidy(w) && forall i :: i in fired ==> i < |w.engine.spawned|
    requires Transaction.Terminated !in step.actions
    requires Exit(step.next).Some? ==> ArmsLast(step.actions, Exit(step.next).value)
                                       && step.actions[|step.actions| - 1].after <= Budget(step.next)
    ensures Exit(step.next).Some? ==>
              Live(Open(w.engine, key, peer, step), fired, w.now, w.due, key, Exit(step.next).value,
                   if timely then Some(w.now + Budget(step.next)) else None)
  {
    if Exit(step.next).Some? {
      var id := Exit(step.next).value;
      var e0 := w.engine.(txns := w.engine.txns[key := EntryState(step.next, peer, map[])]);
      ApplyArmsLive(e0, key, step.actions, fired, w.now, w.due, id);
      LooserLimit(Apply(e0, key, step.actions), fired, w.now, w.due, key, id,
                  w.now + step.actions[|step.actions| - 1].after, if timely then Some(w.now + Budget(step.next))
                      else None);
    }
  }

  lemma OverdueStep(w: World, input: Input)
    requires Tidy(w) && NothingOverdue(w) && Timely(w, input)
    ensures NothingOverdue(Next(w, input))
  {
    assert input.Tick? ==> StepEngine(w, input) == w.engine;
    hide EngineRuns.StepEngine;
    StepExtends(w, input);
    NextFrom(w, input, StepEngine(w, input));
  }

  /** When a key's clock started, after a step. */
  lemma SinceNext(w: World, input: Input, k: TransactionKey)
    requires k in Next(w, input).engine.txns
    ensures k in Next(w, input).since
    ensures Next(w, input).since[k] ==
      if Opens(w.engine, input) == Some(k) || k !in w.engine.txns || k !in w.since
         || ClockStarts(w.engine.txns[k].tx, Next(w, input).engine.txns[k].tx)
      then w.now else w.since[k]
  {
    hide EngineRuns.StepEngine;
  }

  /** The world after a step, in the terms the proofs below need. */
  ghost predicate Follows(w: World, input: Input, w': World, e: State) {
    && w' == Next(w, input) && e == StepEngine(w, input) && w'.engine == e
    && Tidy(w') && w'.fired == Spent(w, input)
  }

  lemma NoClock(tx: TxState)
    ensures !ClockStarts(tx, tx)
  {
  }

  lemma MoveWaitsAt(w: World, timely: bool, input: Input, key: TransactionKey, step: Step<TxState>, w': World,
          k: TransactionKey)
    requires Waits(w, timely) && EffectOf(w, input) == Moves(key, step)
    requires key in w.engine.txns && Opens(w.engine, input) == None
    requires Follows(w, input, w', Advance(w.engine, key, step)) && k in w'.engine.txns
    requires KeepsExit(w.engine.txns[key].tx, step) && ArmsWithin(w.engine.txns[key].tx, step)
    requires !HasEnded(step.next) && Exit(step.next).Some? && Exit(step.next) == Exit(w.engine.txns[key].tx)
             ==> Elsewhere(w, input, key, Exit(step.next).value)
    requires forall other, id {:trigger Elsewhere(w, input, other, id)} :: other != key ==>
        Elsewhere(w, input, other, id)
    ensures k in w'.since && WayOut(w', timely, k)
  {
    hide EngineRuns.StepEngine, EngineRuns.EffectOf, EngineModel.Apply, EngineRuns.Next;
    hide EngineRuns.ClockStarts, Exit, Budget, HasEnded, TimersOf, Live;
    var e0 := w.engine.(txns := w.engine.txns[key := w.engine.txns[key].(tx := step.next)]);
    ApplyExtends(e0, key, step.actions);
    SinceNext(w, input, k);
    assert WayOut(w, timely, k);
    var tx := w'.engine.txns[k].tx;
    if k == key {
      MoverKeepsWayOut(w, timely, input, key, step, w'.since[key]);
    } else {
      NoClock(tx);
      OthersKeepWayOut(w, timely, input, e0, key, step.actions, k);
    }
    if Exit(tx).Some? {
      LiveNext(w, input, w'.engine, k, Exit(tx).value, Limit(w', timely, k));
    }
  }

  lemma MoveKeepsExit(w: World, timely: bool, input: Input, key: TransactionKey, step: Step<TxState>)
    requires Waits(w, timely) && EffectOf(w, input) == Moves(key, step)
    ensures key in w.engine.txns
    ensures KeepsExit(w.engine.txns[key].tx, step) && ArmsWithin(w.engine.txns[key].tx, step)
    ensures !HasEnded(step.next) && Exit(step.next).Some? && Exit(step.next) == Exit(w.engine.txns[key].tx)
            ==> Elsewhere(w, input, key, Exit(step.next).value)
    ensures forall k, id {:trigger Elsewhere(w, input, k, id)} :: k != key ==> Elsewhere(w, input, k, id)
  {
    StepByEffect(w, input);
    assert WayOut(w, timely, key);
    var tx := w.engine.txns[key].tx;
    match input
    case Inbound(RequestMessage(req), _) => RequestKeepsExit(tx, req);
    case Inbound(ResponseMessage(resp), _) => ResponseKeepsExit(tx, resp);
    case Issue(SendResponse(_, resp)) => UserKeepsExit(tx, resp);
    case Issue(_) =>
    case Fire(i) => TimerKeepsExit(tx, w.engine.spawned[i].id);
    case Tick(_) =>
  }

  lemma MoveWaits(w: World, timely: bool, input: Input, key: TransactionKey, step: Step<TxState>)
    requires Waits(w, timely) && EffectOf(w, input) == Moves(key, step)
    ensures forall k :: k in Next(w, input).engine.txns ==>
        k in Next(w, input).since && WayOut(Next(w, input), timely, k)
  {
    TidyStep(w, input);
    StepByEffect(w, input);
    MoveKeepsExit(w, timely, input, key, step);
    var w' := Next(w, input);
    assert Follows(w, input, w', Advance(w.engine, key, step));
    hide EngineRuns.StepEngine, EngineRuns.EffectOf, EngineModel.Apply, EngineRuns.Next;
    forall k | k in w'.engine.txns ensures k in w'.since && WayOut(w', timely, k) {
      MoveWaitsAt(w, timely, input, key, step, w', k);
    }
  }

  lemma StartWaitsAt(w: World, timely: bool, input: Input, key: TransactionKey, peer: Addr, step: Step<TxState>,
          w': World, k: TransactionKey)
    requires Waits(w, timely) && !input.Fire? && Opens(w.engine, input) == Some(key)
    requires Follows(w, input, w', Open(w.engine, key, peer, step)) && k in w'.engine.txns
    requires !HasEnded(step.next) && Transaction.Terminated !in step.actions && TimersOf(step.next) == w.engine.timers
    requires Exit(step.next).Some? ==> ArmsLast(step.actions, Exit(step.next).value)
                                       && step.actions[|step.actions| - 1].after <= Budget(step.next)
    ensures k in w'.since && WayOut(w', timely, k)
  {
    hide EngineRuns.StepEngine, EngineRuns.EffectOf, EngineModel.Apply, EngineRuns.Next;
    hide EngineRuns.ClockStarts, Exit, Budget, HasEnded, TimersOf, Live;
    var e0 := w.engine.(txns := w.engine.txns[key := EntryState(step.next, peer, map[])]);
    ApplyExtends(e0, key, step.actions);
    SinceNext(w, input, k);
    var tx := w'.engine.txns[k].tx;
    if k == key {
      StarterHasWayOut(w, timely, w'.fired, key, peer, step);
    } else {
      assert WayOut(w, timely, k);
      NoClock(tx);
      OthersKeepWayOut(w, timely, input, e0, key, step.actions, k);
    }
    if Exit(tx).Some? {
      LiveNext(w, input, w'.engine, k, Exit(tx).value, Limit(w', timely, k));
    }
  }

  lemma IdleWaitsAt(w: World, timely: bool, input: Input, w': World, k: TransactionKey)
    requires Waits(w, timely) && Opens(w.engine, input) == None
    requires Follows(w, input, w', w'.engine) && w'.engine.txns == w.engine.txns
        && w'.engine.spawned == w.engine.spawned
    requires w'.engine.timers == w.engine.timers
    requires forall other, id {:trigger Elsewhere(w, input, other, id)} :: Elsewhere(w, input, other, id)
    requires k in w'.engine.txns
    ensures k in w'.since && WayOut(w', timely, k)
  {
    hide EngineRuns.StepEngine, EngineRuns.EffectOf, EngineModel.Apply, EngineRuns.Next;
    SinceNext(w, input, k);
    assert WayOut(w, timely, k);
    var tx := w'.engine.txns[k].tx;
    NoClock(tx);
    if Exit(tx).Some? {
      var id, limit := Exit(tx).value, Limit(w, timely, k);
      if input.Fire? && CanFire(w, input.sleeper) {
        assert Elsewhere(w, input, k, id);
        SpendKeepsLive(w, input.sleeper, k, id, limit);
      }
      MachineKeepsLive(w.engine, w'.engine, w'.fired, w.now, w.due, k, id, limit);
      LiveNext(w, input, w'.engine, k, id, limit);
    }
  }

  lemma RestWaits(w: World, timely: bool, input: Input)
    requires Waits(w, timely) && !EffectOf(w, input).Moves?
    ensures forall k :: k in Next(w, input).engine.txns ==>
        k in Next(w, input).since && WayOut(Next(w, input), timely, k)
  {
    hide EngineRuns.ClockStarts, Exit, Budget, HasEnded, TimersOf, Live, EngineModel.Apply, Untouched, ArmsLast;
    TidyStep(w, input);
    StepByEffect(w, input);
    var w' := Next(w, input);
    match EffectOf(w, input)
    case Starts(key, peer, step) =>
      assert !input.Fire?;
      assert exists req ::
          step in {StartClientTx(req, w.engine.timers, w.engine.rel),
              StartServerTx(req, w.engine.timers, w.engine.rel)};
      var req :| step in {StartClientTx(req, w.engine.timers, w.engine.rel),
          StartServerTx(req, w.engine.timers, w.engine.rel)};
      StartArmsExit(req, w.engine.timers, w.engine.rel);
      assert Follows(w, input, w', Open(w.engine, key, peer, step));
      hide EngineRuns.StepEngine, EngineRuns.EffectOf, EngineRuns.Next;
      forall k | k in w'.engine.txns ensures k in w'.since && WayOut(w', timely, k) {
        StartWaitsAt(w, timely, input, key, peer, step, w', k);
      }
    case Idle(after) =>
      assert Follows(w, input, w', w'.engine);
      assert forall other, id {:trigger Elsewhere(w, input, other, id)} :: Elsewhere(w, input, other, id);
      hide EngineRuns.StepEngine, EngineRuns.EffectOf, EngineRuns.Next;
      forall k | k in w'.engine.txns ensures k in w'.since && WayOut(w', timely, k) {
        IdleWaitsAt(w, timely, input, w', k);
      }
    case Moves(_, _) =>
  }

  lemma WaitsStep(w: World, timely: bool, input: Input)
    requires Waits(w, timely) && (timely ==> Timely(w, input))
    ensures Waits(Next(w, input), timely)
  {
    TidyStep(w, input);
    if timely {
      OverdueStep(w, input);
    }
    if EffectOf(w, input).Moves? {
      MoveWaits(w, timely, input, EffectOf(w, input).key, EffectOf(w, input).step);
    } else {
      RestWaits(w, timely, input);
    }
  }

  lemma {:induction false} WaitsAlways(w: World, timely: bool, inputs: seq<Input>)
    requires Waits(w, timely) && (timely ==> Punctual(w, inputs))
    ensures Waits(Exec(w, inputs), timely)
    decreases |inputs|
  {
    if inputs == [] {
    } else {
      WaitsStep(w, timely, inputs[0]);
      WaitsAlways(Next(w, inputs[0]), timely, inputs[1..]);
    }
  }

  /**
   After any run whatever, every transaction in the table has a live timer that will end
   it, or is one of those that wait for a person: a client INVITE that rings, a server
   transaction its user has not answered.
   */
  lemma EveryWaitHasAWayOut(timers: Timers, rel: Reliability, inputs: seq<Input>, key: TransactionKey)
    requires key in Exec(Initially(timers, rel), inputs).engine.txns
    ensures
      var w := Exec(Initially(timers, rel), inputs);
      var tx := w.engine.txns[key].tx;
      if Exit(tx).Some? then exists i :: Wakes(w.engine, w.fired, w.now, w.due, key, Exit(tx).value, None, i)
      else (tx.ClientInvite? && tx.ci.phase == CI.Proceeding)
           || (tx.ServerInvite? && tx.si.phase == SI.Proceeding)
           || (tx.ServerNonInvite? && tx.sn.phase in {SN.Trying, SN.Proceeding})
  {
    WaitsAlways(Initially(timers, rel), false, inputs);
    var w := Exec(Initially(timers, rel), inputs);
    assert WayOut(w, false, key);
    var tx := w.engine.txns[key].tx;
    if Exit(tx).Some? {
      var i :| Wakes(w.engine, w.fired, w.now, w.due, key, Exit(tx).value, Limit(w, false, key), i);
      assert Wakes(w.engine, w.fired, w.now, w.due, key, Exit(tx).value, None, i);
    }
  }

  lemma ExitOnEngine(e: State, key: TransactionKey, fire: Sleeper)
    requires key in e.txns && !HasEnded(e.txns[key].tx) && fire.key == key && Heard(e, fire)
    requires Exit(e.txns[key].tx) == Some(fire.id)
    ensures var e' := OnTimerFire(e, fire);
            && key !in e'.txns && |e'.published| > |e.published|
            && e'.published[|e'.published| - 1] == TerminatedEvent(key)
  {
    var step := e.txns[key].tx.OnTimer(fire.id);
    TimerKeepsExit(e.txns[key].tx, fire.id);
    assert step.actions == [TimedOut, Transaction.Terminated] || step.actions == [Transaction.Terminated];
    var e0 := e.(txns := e.txns[key := e.txns[key].(tx := step.next)]);
    ApplyExtends(e0, key, step.actions);
    ApplyShort(e0, key, TimedOut, Transaction.Terminated, Transaction.Terminated);
    ApplyShort(e0, key, Transaction.Terminated, TimedOut, TimedOut);
  }

  /** That timer does end it: once due, its fire removes the transaction and says so last. */
  lemma TheWayOutEnds(w: World, key: TransactionKey, i: nat)
    requires Tidy(w) && key in w.engine.txns && !HasEnded(w.engine.txns[key].tx) && Exit(w.engine.txns[key].tx).Some?
    requires Wakes(w.engine, w.fired, w.now, w.due, key, Exit(w.engine.txns[key].tx).value, None, i)
    requires w.due[i] <= w.now
    ensures var w' := Next(w, Fire(i));
            && key !in w'.engine.txns
            && |w'.engine.published| > |w.engine.published|
            && w'.engine.published[|w'.engine.published| - 1] == TerminatedEvent(key)
  {
    assert Next(w, Fire(i)).engine == OnTimerFire(w.engine, w.engine.spawned[i]);
    hide EngineRuns.Next, EngineModel.OnTimerFire;
    ExitOnEngine(w.engine, key, w.engine.spawned[i]);
  }

  lemma OneWayOut(w: World, timely: bool, key: TransactionKey)
    requires Waits(w, timely) && key in w.engine.txns
    ensures key in w.since && WayOut(w, timely, key)
  {
    hide WayOut, NothingOverdue;
  }

  lemma {:induction false} TimersStay(w: World, inputs: seq<Input>)
    ensures Exec(w, inputs).engine.timers == w.engine.timers
    decreases |inputs|
  {
    if inputs == [] {
    } else {
      StepExtends(w, inputs[0]);
      TimersStay(Next(w, inputs[0]), inputs[1..]);
    }
  }

  /**
   Real time: when every sleeper fires as soon as it is due, a client non-INVITE
   transaction is gone 64*T1 + T4 after it opened, whatever arrives meanwhile, and a
   server INVITE transaction 64*T1 + T4 after its non-2xx final.
   */
  lemma TransactionsEndInTime(timers: Timers, rel: Reliability, inputs: seq<Input>, key: TransactionKey)
    requires Punctual(Initially(timers, rel), inputs)
    requires key in Exec(Initially(timers, rel), inputs).engine.txns
    ensures
      var w := Exec(Initially(timers, rel), inputs);
      var tx := w.engine.txns[key].tx;
      && key in w.since
      && (tx.ClientNonInvite? ==> w.now <= w.since[key] + 64 * timers.t1 + timers.t4)
      && (tx.ServerInvite? && tx.si.phase != SI.Proceeding ==> w.now <= w.since[key] + 64 * timers.t1 + timers.t4)
      && (tx.ServerNonInvite? && tx.sn.phase == SN.Completed ==> w.now <= w.since[key] + 64 * timers.t1)
      && (tx.ClientInvite? && tx.ci.phase == CI.Calling ==> w.now <= w.since[key] + 64 * timers.t1)
      && (tx.ClientInvite? && tx.ci.phase == CI.Completed ==> w.now <= w.since[key] + 32 * SECOND)
  {
    hide Exec, Punctual, Waits, NothingOverdue, Live;
    WaitsAlways(Initially(timers, rel), true, inputs);
    var w := Exec(Initially(timers, rel), inputs);
    TimersStay(Initially(timers, rel), inputs);
    OneWayOut(w, true, key);
    if Exit(w.engine.txns[key].tx).Some? {
      WithinBudget(w, key);
    }
  }
}
