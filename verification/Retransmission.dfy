/**
 Retransmission schedules in closed form. A transaction whose peer stays silent sends its
 message again at instants that depend on T1 and T2 alone, and gives up at 64*T1: this
 holds in any run of the engine in which sleepers fire when due, whatever its other
 transactions do meanwhile.
 */
module Retransmission {
  import opened Wrappers
  import opened Sip
  import opened Transaction
  import opened EngineModel
  import opened EngineRuns
  import opened TransactionExit
  import CI = ClientInviteTransaction
  import CN = ClientNonInviteTransaction
  import SI = ServerInviteTransaction

  function Pow2(k: nat): (r: nat)
    ensures r >= 1
  {
    if k == 0 then 1 else 2 * Pow2(k - 1)
  }

  /** The timer that retransmits: A while calling, E while trying, G while completed. */
  function Retry(tx: TxState): Option<TimerId> {
    match tx
    case ClientInvite(m) => if m.phase == CI.Calling then Some(A) else None
    case ClientNonInvite(m) => if m.phase == CN.Trying then Some(E) else None
    case ServerInvite(m) => if m.phase == SI.Completed && m.lastFinal.Some? then Some(G) else None
    case ServerNonInvite(_) => None
  }

  function Interval(tx: TxState): nat {
    match tx
    case ClientInvite(m) => m.timerA
    case ClientNonInvite(m) => m.timerE
    case ServerInvite(m) => m.timerG
    case ServerNonInvite(_) => 0
  }

  /** The wait before retransmission k + 1: T1 doubling, and but for an INVITE capped at T2. */
  function Wait(tx: TxState, k: nat): nat {
    var t := TimersOf(tx);
    if tx.ClientInvite? || k == 0 then Pow2(k) * t.t1 else Min(Pow2(k) * t.t1, t.t2)
  }

  /** How long after the first transmission the k-th retransmission is due. */
  function Offset(tx: TxState, k: nat): nat {
    if k == 0 then 0 else Offset(tx, k - 1) + Wait(tx, k - 1)
  }

  /** Two states of one transaction, as far as its schedule goes. */
  predicate SameKind(a: TxState, b: TxState) {
    && Retry(a).Some? && Retry(b) == Retry(a)
    && TimersOf(b) == TimersOf(a)
    && match (a, b)
       case (ClientInvite(m), ClientInvite(n)) => m.invite == n.invite
       case (ClientNonInvite(m), ClientNonInvite(n)) => m.request == n.request
       case (ServerInvite(m), ServerInvite(n)) => m.lastFinal == n.lastFinal
       case _ => false
  }

  function Repeated(tx: TxState): SipMessage
    requires Retry(tx).Some?
  {
    match tx
    case ClientInvite(m) => RequestMessage(m.invite)
    case ClientNonInvite(m) => RequestMessage(m.request)
    case ServerInvite(m) => ResponseMessage(m.lastFinal.value)
  }

  lemma SameKindSameSchedule(a: TxState, b: TxState, k: nat)
    requires SameKind(a, b)
    ensures Wait(a, k) == Wait(b, k) && Offset(a, k) == Offset(b, k) && Repeated(a) == Repeated(b) && Exit(a) == Exit(b)
    ensures TimersOf(a) == TimersOf(b) && Retry(a).Some?
  {
    if k > 0 {
      SameKindSameSchedule(a, b, k - 1);
    }
  }

  /** One retransmission: the same message, and the next wait of the closed form. */
  lemma RetryStep(tx: TxState, n: nat)
    requires Retry(tx).Some? && Interval(tx) == Wait(tx, n)
    ensures
      var step := tx.OnTimer(Retry(tx).value);
      && SameKind(tx, step.next) && Interval(step.next) == Wait(tx, n + 1)
      && step.actions == [Send(Repeated(tx)), StartTimer(Retry(tx).value, Wait(tx, n + 1))]
  {
    var t := TimersOf(tx);
    assert Pow2(n + 1) * t.t1 == 2 * (Pow2(n) * t.t1);
    if !tx.ClientInvite? && n > 0 && Pow2(n) * t.t1 > t.t2 {
      assert Min(2 * t.t2, t.t2) == t.t2;
    }
  }

  lemma GiveUpStep(tx: TxState)
    requires Retry(tx).Some?
    ensures Exit(tx).Some? && Exit(tx) != Retry(tx)
    ensures tx.OnTimer(Exit(tx).value).actions == [TimedOut, Transaction.Terminated]
  {
  }

  // ---- The rhythm of one transaction in a run ----

  /** The two timers of a transaction waiting for its peer: they will be heard when they fire. */
  ghost predicate Armed(w: World, key: TransactionKey, next: nat, last: nat) {
    && Tidy(w) && NothingOverdue(w)
    && key in w.engine.txns
    && next < |w.engine.spawned| && last < |w.engine.spawned| && next !in w.fired && last !in w.fired
    && w.engine.spawned[next].key == key && w.engine.spawned[last].key == key
    && Heard(w.engine, w.engine.spawned[next]) && Heard(w.engine, w.engine.spawned[last])
  }

  /** They retransmit and give up, at the instants of the closed form, n retransmissions after the start. */
  ghost predicate OnBeat(w: World, key: TransactionKey, start: nat, n: nat, next: nat, last: nat)
    requires Armed(w, key, next, last)
  {
    var tx := w.engine.txns[key].tx;
    && Retry(tx) == Some(w.engine.spawned[next].id) && Exit(tx) == Some(w.engine.spawned[last].id)
    && Interval(tx) == Wait(tx, n)
    && w.due[next] == start + Offset(tx, n + 1)
    && w.due[last] == start + TimersOf(tx).Timeout()
    && start + Offset(tx, n) <= w.now
  }

  /** A sleeper of the key is one of the two that matter, or cannot be heard any more. */
  ghost predicate Known(w: World, key: TransactionKey, next: nat, last: nat, i: nat)
    requires i < |w.engine.spawned| && key in w.engine.txns
  {
    var sl, g := w.engine.spawned[i], w.engine.txns[key].generations;
    && sl.id in g && sl.generation <= g[sl.id]
    && (sl.generation == g[sl.id] && i !in w.fired ==> i == next || i == last)
  }

  /** No other sleeper of this key can be heard. */
  ghost predicate NoOthers(w: World, key: TransactionKey, next: nat, last: nat)
    requires key in w.engine.txns
  {
    forall i :: 0 <= i < |w.engine.spawned| && w.engine.spawned[i].key == key ==> Known(w, key, next, last, i)
  }

  ghost predicate Beats(w: World, key: TransactionKey, start: nat, n: nat, next: nat, last: nat) {
    Armed(w, key, next, last) && OnBeat(w, key, start, n, next, last) && NoOthers(w, key, next, last)
  }

  /** The peer stays silent: only timers move this transaction. */
  predicate Silent(w: World, input: Input, key: TransactionKey) {
    match EffectOf(w, input)
    case Moves(k, _) => k == key ==> input.Fire?
    case Starts(k, _, _) => k != key
    case Idle(_) => true
  }

  predicate Undisturbed(w: World, inputs: seq<Input>, key: TransactionKey)
    decreases |inputs|
  {
    inputs == []
        || (Silent(w, inputs[0], key) && Timely(w, inputs[0]) && Undisturbed(Next(w, inputs[0]), inputs[1..], key))
  }

  /** Whether this step has the key's transaction send its message again. */
  predicate Resends(w: World, input: Input, key: TransactionKey) {
    match EffectOf(w, input)
    case Moves(k, step) => k == key && key in w.engine.txns && Retry(w.engine.txns[key].tx).Some?
                           && Send(Repeated(w.engine.txns[key].tx)) in step.actions
    case _ => false
  }

  /** The instants at which a run has the key's transaction send its message again. */
  function Resent(w: World, inputs: seq<Input>, key: TransactionKey): seq<nat>
    decreases |inputs|
  {
    if inputs == [] then []
    else (if Resends(w, inputs[0], key) then [w.now] else []) + Resent(Next(w, inputs[0]), inputs[1..], key)
  }

  /** The instants at which the key's transaction leaves the table. */
  function Ended(w: World, inputs: seq<Input>, key: TransactionKey): seq<nat>
    decreases |inputs|
  {
    if inputs == [] then []
    else (if key in w.engine.txns && key !in Next(w, inputs[0]).engine.txns then [w.now] else [])
         + Ended(Next(w, inputs[0]), inputs[1..], key)
  }

  // ---- One step of an undisturbed run ----

  /** A step that passes the transaction by: its entry stays, and what is spawned or spent is not its own. */
  ghost predicate PassesBy(w: World, w': World, key: TransactionKey, next: nat, last: nat) {
    && Tidy(w') && NothingOverdue(w') && w.now <= w'.now
    && key in w.engine.txns && key in w'.engine.txns && w'.engine.txns[key] == w.engine.txns[key]
    && |w.engine.spawned| <= |w'.engine.spawned| && |w.due| <= |w'.due|
    && (forall i :: 0 <= i < |w.engine.spawned| ==> w'.engine.spawned[i] == w.engine.spawned[i])
    && (forall i :: |w.engine.spawned| <= i < |w'.engine.spawned| ==> w'.engine.spawned[i].key != key)
    && (forall i :: 0 <= i < |w.due| ==> w'.due[i] == w.due[i])
    && w.fired <= w'.fired && (next in w'.fired ==> next in w.fired) && (last in w'.fired ==> last in w.fired)
  }

  lemma PassedBy(w: World, w': World, key: TransactionKey, start: nat, n: nat, next: nat, last: nat)
    requires Beats(w, key, start, n, next, last) && PassesBy(w, w', key, next, last)
    ensures Beats(w', key, start, n, next, last)
  {
    forall i | 0 <= i < |w'.engine.spawned| && w'.engine.spawned[i].key == key ensures Known(w', key, next, last, i) {
      assert Known(w, key, next, last, i);
    }
  }

  /** Time stands still but for ticks, and only sleepers that can fire are spent. */
  ghost predicate KeepsPace(w: World, input: Input, w': World) {
    && Tidy(w') && NothingOverdue(w') && w.now <= w'.now && (!input.Tick? ==> w'.now == w.now)
    && w'.engine == StepEngine(w, input)
    && |w.due| == |w.engine.spawned| && |w'.due| == |w'.engine.spawned| && |w.due| <= |w'.due|
    && (forall i :: 0 <= i < |w.due| ==> w'.due[i] == w.due[i])
    && (forall i :: |w.due| <= i < |w'.due| ==> w'.due[i] == w.now + w'.engine.spawned[i].after)
    && w'.fired == (if input.Fire? && CanFire(w, input.sleeper) then w.fired + {input.sleeper} else w.fired)
  }

  lemma StepKeepsPace(w: World, input: Input)
    requires Tidy(w) && NothingOverdue(w) && Timely(w, input)
    ensures KeepsPace(w, input, Next(w, input))
  {
    hide EngineRuns.StepEngine;
    OverdueStep(w, input);
    NextFrom(w, input, StepEngine(w, input));
  }

  /** What the engine does to other transactions it does not do to this one. */
  ghost predicate LeavesAlone(e: State, e': State, key: TransactionKey) {
    && key in e.txns && key in e'.txns && e'.txns[key] == e.txns[key]
    && |e.spawned| <= |e'.spawned|
    && (forall i :: 0 <= i < |e.spawned| ==> e'.spawned[i] == e.spawned[i])
    && (forall i :: |e.spawned| <= i < |e'.spawned| ==> e'.spawned[i].key != key)
  }

  lemma EngineLeavesAlone(w: World, input: Input, key: TransactionKey)
    requires key in w.engine.txns
    requires match EffectOf(w, input) case Moves(k, _) => k != key case Starts(k, _, _) => k != key case Idle(_) => true
    ensures LeavesAlone(w.engine, StepEngine(w, input), key)
  {
    StepByEffect(w, input);
    hide EngineRuns.EffectOf, EngineRuns.StepEngine, EngineModel.Apply;
    var e := w.engine;
    match EffectOf(w, input)
    case Moves(k, step) =>
      var e0 := e.(txns := e.txns[k := e.txns[k].(tx := step.next)]);
      ApplyExtends(e0, k, step.actions);
      ApplySpawnsFor(e0, k, step.actions);
    case Starts(k, peer, step) =>
      var e0 := e.(txns := e.txns[k := EntryState(step.next, peer, map[])]);
      ApplyExtends(e0, k, step.actions);
      ApplySpawnsFor(e0, k, step.actions);
    case Idle(after) =>
  }

  lemma HeardFireMoves(w: World, i: nat)
    requires CanFire(w, i) && Heard(w.engine, w.engine.spawned[i])
    ensures EffectOf(w, Fire(i)).Moves? && EffectOf(w, Fire(i)).key == w.engine.spawned[i].key
  {
  }

  lemma ElsewherePassesBy(w: World, input: Input, key: TransactionKey, start: nat, n: nat, next: nat, last: nat)
    requires Beats(w, key, start, n, next, last) && Timely(w, input) && Silent(w, input, key)
    requires EffectOf(w, input).Moves? ==> EffectOf(w, input).key != key
    ensures PassesBy(w, Next(w, input), key, next, last)
  {
    hide EngineRuns.EffectOf, EngineRuns.StepEngine, EngineRuns.Next, OnBeat, NoOthers;
    if input.Fire? && input.sleeper in {next, last} && CanFire(w, input.sleeper) {
      HeardFireMoves(w, input.sleeper);
    }
    EngineLeavesAlone(w, input, key);
    StepKeepsPace(w, input);
  }

  lemma ElsewhereResendsNothing(w: World, input: Input, key: TransactionKey)
    requires EffectOf(w, input).Moves? ==> EffectOf(w, input).key != key
    ensures !Resends(w, input, key)
  {
  }

  /** What `RetryOnEngine` says of the engine. */
  ghost predicate Retried(e: State, e': State, key: TransactionKey, fire: Sleeper, n: nat)
    requires key in e.txns
  {
    var tx := e.txns[key].tx;
    && key in e'.txns && SameKind(tx, e'.txns[key].tx) && Interval(e'.txns[key].tx) == Wait(tx, n + 1)
    && e'.txns[key].generations == e.txns[key].generations[fire.id := fire.generation + 1]
    && e'.spawned == e.spawned + [Sleeper(key, fire.id, fire.generation + 1, Wait(tx, n + 1))]
    && e'.wire == e.wire + [Packet(Repeated(tx), e.txns[key].peer)]
  }

  /** The retransmission fires: the message goes out again, and the timer is armed for the next. */
  lemma RetryOnEngine(e: State, key: TransactionKey, fire: Sleeper, n: nat)
    requires key in e.txns && fire.key == key && Heard(e, fire)
    requires Retry(e.txns[key].tx) == Some(fire.id) && Interval(e.txns[key].tx) == Wait(e.txns[key].tx, n)
    ensures Retried(e, OnTimerFire(e, fire), key, fire, n)
  {
    var tx := e.txns[key].tx;
    var step := tx.OnTimer(fire.id);
    RetryStep(tx, n);
    hide Wait, Retry, Interval, SameKind, Repeated;
    var e0 := e.(txns := e.txns[key := e.txns[key].(tx := step.next)]);
    ApplyShort(e0, key, step.actions[0], step.actions[1], TimedOut);
    assert step.actions == [step.actions[0], step.actions[1]];
  }

  lemma FireIsStep(w: World, i: nat)
    requires CanFire(w, i)
    ensures StepEngine(w, Fire(i)) == OnTimerFire(w.engine, w.engine.spawned[i])
  {
  }

  lemma OffsetGrows(tx: TxState, k: nat)
    ensures Offset(tx, k + 1) == Offset(tx, k) + Wait(tx, k)
  {
  }

  /** After one re-arming of the retransmission timer its old sleeper is known to be deaf. */
  lemma OthersAfterRetry(w: World, w': World, key: TransactionKey, next: nat, last: nat)
    requires Armed(w, key, next, last) && NoOthers(w, key, next, last)
    requires key in w'.engine.txns && w'.fired == w.fired + {next}
    requires var fire := w.engine.spawned[next];
      && w'.engine.txns[key].generations == w.engine.txns[key].generations[fire.id := fire.generation + 1]
      && |w'.engine.spawned| == |w.engine.spawned| + 1 && w'.engine.spawned[..|w.engine.spawned|] == w.engine.spawned
      && w'.engine.spawned[|w.engine.spawned|].id == fire.id
          && w'.engine.spawned[|w.engine.spawned|].generation == fire.generation + 1
    ensures NoOthers(w', key, |w.engine.spawned|, last)
  {
    var e := w.engine;
    forall i | 0 <= i < |w'.engine.spawned| && w'.engine.spawned[i].key == key
      ensures Known(w', key, |e.spawned|, last, i)
    {
      if i < |e.spawned| {
        assert w'.engine.spawned[i] == w'.engine.spawned[..|e.spawned|][i];
        assert Known(w, key, next, last, i);
      }
    }
  }

  lemma BeatsOn(w: World, w': World, key: TransactionKey, start: nat, n: nat, next: nat, last: nat)
    requires Beats(w, key, start, n, next, last) && CanFire(w, next)
    requires KeepsPace(w, Fire(next), w') && Retried(w.engine, w'.engine, key, w.engine.spawned[next], n)
    ensures w.now == start + Offset(w.engine.txns[key].tx, n + 1)
    ensures Beats(w', key, start, n + 1, |w.engine.spawned|, last)
  {
    hide EngineRuns.StepEngine, EngineModel.OnTimerFire, Wait, Offset, Interval;
    var e := w.engine;
    var tx, tx' := e.txns[key].tx, w'.engine.txns[key].tx;
    assert w.now == w.due[next];
    assert Armed(w', key, |e.spawned|, last);
    assert NoOthers(w', key, |e.spawned|, last) by {
      OthersAfterRetry(w, w', key, next, last);
    }
    hide NoOthers;
    SameKindSameSchedule(tx, tx', n + 1);
    SameKindSameSchedule(tx, tx', n + 2);
    OffsetGrows(tx, n + 1);
  }

  lemma RetryBeats(w: World, key: TransactionKey, start: nat, n: nat, next: nat, last: nat)
    requires Beats(w, key, start, n, next, last) && CanFire(w, next)
    ensures w.now == start + Offset(w.engine.txns[key].tx, n + 1)
    ensures Beats(Next(w, Fire(next)), key, start, n + 1, |w.engine.spawned|, last)
    ensures SameKind(w.engine.txns[key].tx, Next(w, Fire(next)).engine.txns[key].tx)
  {
    StepKeepsPace(w, Fire(next));
    FireIsStep(w, next);
    RetryOnEngine(w.engine, key, w.engine.spawned[next], n);
    hide EngineRuns.Next, EngineRuns.StepEngine, EngineModel.OnTimerFire;
    BeatsOn(w, Next(w, Fire(next)), key, start, n, next, last);
  }

  lemma GiveUpOnEngine(e: State, key: TransactionKey, fire: Sleeper)
    requires key in e.txns && fire.key == key && Heard(e, fire)
    requires Retry(e.txns[key].tx).Some? && Exit(e.txns[key].tx) == Some(fire.id)
    ensures key !in OnTimerFire(e, fire).txns
    ensures OnTimerFire(e, fire).published == e.published + [TimedOutEvent(key), TerminatedEvent(key)]
  {
    var tx := e.txns[key].tx;
    var step := tx.OnTimer(fire.id);
    GiveUpStep(tx);
    ApplyShort(e.(txns := e.txns[key := e.txns[key].(tx := step.next)]), key, TimedOut, Transaction.Terminated,
        TimedOut);
  }

  /** One step of an undisturbed run: the beat goes on, or the transaction gives up on time. */
  lemma BeatStep(w: World, input: Input, key: TransactionKey, start: nat, n: nat, next: nat, last: nat)
    returns (next': nat)
    requires Beats(w, key, start, n, next, last) && Silent(w, input, key) && Timely(w, input)
    ensures
      var tx, w' := w.engine.txns[key].tx, Next(w, input);
      if Resends(w, input, key) then
        && w.now == start + Offset(tx, n + 1) <= start + TimersOf(tx).Timeout()
        && Beats(w', key, start, n + 1, next', last) && SameKind(tx, w'.engine.txns[key].tx)
      else if key in w'.engine.txns then
        Beats(w', key, start, n, next', last) && SameKind(tx, w'.engine.txns[key].tx)
      else
        w.now == start + TimersOf(tx).Timeout() <= start + Offset(tx, n + 1)
  {
    next' := next;
    var tx := w.engine.txns[key].tx;
    if EffectOf(w, input).Moves? && EffectOf(w, input).key == key {
      var i := input.sleeper;
      assert Known(w, key, next, last, i);
      if i == next {
        RetryBeats(w, key, start, n, next, last);
        RetryStep(tx, n);
        assert tx.OnTimer(Retry(tx).value).actions[0] == Send(Repeated(tx));
        next' := |w.engine.spawned|;
      } else {
        GiveUpOnEngine(w.engine, key, w.engine.spawned[last]);
        GiveUpStep(tx);
        FireIsStep(w, last);
      }
    } else {
      ElsewherePassesBy(w, input, key, start, n, next, last);
      ElsewhereResendsNothing(w, input, key);
      PassedBy(w, Next(w, input), key, start, n, next, last);
    }
  }

  lemma QuietStep(w: World, input: Input, key: TransactionKey)
    requires Tidy(w) && key !in w.engine.txns && Silent(w, input, key)
    ensures !Resends(w, input, key) && key !in Next(w, input).engine.txns && Tidy(Next(w, input))
  {
    TidyStep(w, input);
    StepByEffect(w, input);
    var e := w.engine;
    assert Next(w, input).engine == StepEngine(w, input);
    hide EngineRuns.StepEngine, EngineModel.Apply, EngineRuns.Next, EngineRuns.EffectOf;
    match EffectOf(w, input)
    case Moves(k, step) => ApplyExtends(e.(txns := e.txns[k := e.txns[k].(tx := step.next)]), k, step.actions);
    case Starts(k, peer, step) =>
        ApplyExtends(e.(txns := e.txns[k := EntryState(step.next, peer, map[])]), k, step.actions);
    case Idle(_) =>
  }

  // ---- Undisturbed runs ----

  /** A transaction that has left the table sends nothing more. */
  lemma {:induction false} Quiet(w: World, inputs: seq<Input>, key: TransactionKey)
    requires Tidy(w) && key !in w.engine.txns && Undisturbed(w, inputs, key)
    ensures Resent(w, inputs, key) == [] && Ended(w, inputs, key) == [] && key !in Exec(w, inputs).engine.txns
    decreases |inputs|
  {
    if inputs == [] {
    } else {
      QuietStep(w, inputs[0], key);
      Quiet(Next(w, inputs[0]), inputs[1..], key);
    }
  }

  /** Retransmissions n + 1, n + 2, ... at the instants of the closed form, none after giving up. */
  ghost predicate OnTime(tx: TxState, start: nat, n: nat, resent: seq<nat>) {
    forall j :: 0 <= j < |resent| ==> resent[j] == start + Offset(tx, n + j + 1) <= start + TimersOf(tx).Timeout()
  }

  /** After n retransmissions the transaction beats on, or gave up on time with all n due before. */
  ghost predicate Stands(tx: TxState, w: World, key: TransactionKey, start: nat, n: nat, ended: seq<nat>, next: nat,
          last: nat) {
    if key in w.engine.txns then
      ended == [] && Beats(w, key, start, n, next, last) && SameKind(tx, w.engine.txns[key].tx)
    else
      ended == [start + TimersOf(tx).Timeout()] && TimersOf(tx).Timeout() <= Offset(tx, n + 1)
  }

  /** The instants at which an undisturbed transaction has spoken, and how its run stands. */
  ghost predicate Rhythmic(tx: TxState, w': World, key: TransactionKey, start: nat, n: nat, resent: seq<nat>,
          ended: seq<nat>, next: nat, last: nat) {
    OnTime(tx, start, n, resent) && Stands(tx, w', key, start, n + |resent|, ended, next, last)
  }

  /** One step of the recursions over a run. */
  lemma Unroll(w: World, inputs: seq<Input>, key: TransactionKey)
    requires inputs != [] && key in w.engine.txns && Undisturbed(w, inputs, key)
    ensures
      var w', rest := Next(w, inputs[0]), inputs[1..];
      && Resent(w, inputs, key) == (if Resends(w, inputs[0], key) then [w.now] else []) + Resent(w', rest, key)
      && Ended(w, inputs, key) == (if key !in w'.engine.txns then [w.now] else []) + Ended(w', rest, key)
      && Exec(w, inputs) == Exec(w', rest) && Undisturbed(w', rest, key)
  {
  }

  lemma Gone(tx: TxState, w': World, key: TransactionKey, start: nat, n: nat, now: nat, next: nat, last: nat)
    requires key !in w'.engine.txns && now == start + TimersOf(tx).Timeout() <= start + Offset(tx, n + 1)
    ensures Rhythmic(tx, w', key, start, n, [] + [], [now] + [], next, last)
  {
  }

  lemma SameKindChains(a: TxState, b: TxState, c: TxState)
    requires SameKind(a, b) && SameKind(b, c)
    ensures SameKind(a, c)
  {
  }

  lemma StandsSame(tx: TxState, tx': TxState, w: World, key: TransactionKey, start: nat, n: nat, ended: seq<nat>,
          next: nat, last: nat)
    requires SameKind(tx, tx') && Stands(tx', w, key, start, n, ended, next, last)
    ensures Stands(tx, w, key, start, n, ended, next, last)
  {
    hide Beats;
    if key in w.engine.txns {
      SameKindChains(tx, tx', w.engine.txns[key].tx);
    } else {
      SameKindSameSchedule(tx, tx', n + 1);
    }
  }

  lemma PrependTimes(tx: TxState, tx': TxState, start: nat, n: nat, resends: bool, now: nat, resent: seq<nat>)
    requires SameKind(tx, tx') && OnTime(tx', start, if resends then n + 1 else n, resent)
    requires resends ==> now == start + Offset(tx, n + 1) <= start + TimersOf(tx).Timeout()
    ensures OnTime(tx, start, n, (if resends then [now] else []) + resent)
  {
    var all := (if resends then [now] else []) + resent;
    forall j | 0 <= j < |all| ensures all[j] == start + Offset(tx, n + j + 1) <= start + TimersOf(tx).Timeout() {
      SameKindSameSchedule(tx, tx', n + j + 1);
      if !resends {
        assert all[j] == resent[j];
      } else if j > 0 {
        assert all[j] == resent[j - 1] == start + Offset(tx', n + 1 + (j - 1) + 1);
        assert n + 1 + (j - 1) + 1 == n + j + 1;
      }
    }
    assert OnTime(tx, start, n, all);
  }

  lemma Prepend(tx: TxState, tx': TxState, w': World, key: TransactionKey, start: nat, n: nat, resends: bool, now: nat,
          resent: seq<nat>, ended: seq<nat>, next: nat, last: nat)
    requires SameKind(tx, tx') && Rhythmic(tx', w', key, start, if resends then n + 1 else n, resent, ended, next, last)
    requires resends ==> now == start + Offset(tx, n + 1) <= start + TimersOf(tx).Timeout()
    ensures Rhythmic(tx, w', key, start, n, (if resends then [now] else []) + resent, [] + ended, next, last)
  {
    hide Stands, OnTime;
    assert [] + ended == ended;
    PrependTimes(tx, tx', start, n, resends, now, resent);
    StandsSame(tx, tx', w', key, start, (if resends then n + 1 else n) + |resent|, ended, next, last);
    assert |(if resends then [now] else []) + resent| == (if resends then 1 else 0) + |resent|;
  }

  lemma {:induction false} Rhythm(w: World, inputs: seq<Input>, key: TransactionKey, start: nat, n: nat, next: nat,
          last: nat)
    returns (next': nat)
    requires key in w.engine.txns && Beats(w, key, start, n, next, last) && Undisturbed(w, inputs, key)
    ensures Rhythmic(w.engine.txns[key].tx, Exec(w, inputs), key, start, n, Resent(w, inputs, key),
        Ended(w, inputs, key), next', last)
    decreases |inputs|
  {
    if inputs == [] {
      next' := next;
      assert SameKind(w.engine.txns[key].tx, w.engine.txns[key].tx);
    } else {
      var tx, w', rest := w.engine.txns[key].tx, Next(w, inputs[0]), inputs[1..];
      var resends := Resends(w, inputs[0], key);
      next' := BeatStep(w, inputs[0], key, start, n, next, last);
      Unroll(w, inputs, key);
      assert Tidy(w') && (resends ==> key in w'.engine.txns) by {
        TidyStep(w, inputs[0]);
      }
      hide EngineRuns.Next, Resends, Resent, Ended, EngineRuns.Exec, Undisturbed, Offset, Silent, Beats, Rhythmic;
      if key in w'.engine.txns {
        next' := Rhythm(w', rest, key, start, if resends then n + 1 else n, next', last);
        Prepend(tx, w'.engine.txns[key].tx, Exec(w', rest), key, start, n, resends, w.now,
                Resent(w', rest, key), Ended(w', rest, key), next', last);
      } else {
        Quiet(w', rest, key);
        Gone(tx, Exec(w', rest), key, start, n, w.now, next', last);
      }
    }
  }

  // ---- How a rhythm starts ----

  /** No sleeper of the key was ever spawned, so none can disturb a transaction opened under it. */
  ghost predicate Unused(w: World, key: TransactionKey) {
    forall i :: 0 <= i < |w.engine.spawned| ==> w.engine.spawned[i].key != key
  }

  /** The engine after the first transmission: the message is sent, and both timers run. */
  ghost predicate Launched(e: State, e': State, key: TransactionKey) {
    && key in e'.txns
    && var entry := e'.txns[key];
    && Retry(entry.tx).Some? && Exit(entry.tx).Some? && Retry(entry.tx) != Exit(entry.tx)
    && Interval(entry.tx) == TimersOf(entry.tx).t1
    && entry.generations == map[Retry(entry.tx).value := 1, Exit(entry.tx).value := 1]
    && e'.spawned == e.spawned + [Sleeper(key, Retry(entry.tx).value, 1, TimersOf(entry.tx).t1),
                                  Sleeper(key, Exit(entry.tx).value, 1, TimersOf(entry.tx).Timeout())]
    && e'.wire == e.wire + [Packet(Repeated(entry.tx), entry.peer)]
  }

  lemma LaunchedBeats(w: World, input: Input, w': World, key: TransactionKey)
    requires Tidy(w) && Unused(w, key) && !input.Fire? && !input.Tick?
    requires KeepsPace(w, input, w') && Launched(w.engine, w'.engine, key)
    ensures Beats(w', key, w.now, 0, |w.engine.spawned|, |w.engine.spawned| + 1)
  {
    hide EngineRuns.StepEngine, Repeated;
    var tx := w'.engine.txns[key].tx;
    assert Offset(tx, 1) == Offset(tx, 0) + Wait(tx, 0) == TimersOf(tx).t1;
  }

  lemma LaunchOnEngine(e0: State, key: TransactionKey, send: SipMessage, retry: TimerId, exit: TimerId, t1: nat,
          timeout: nat)
    requires key in e0.txns && e0.txns[key].generations == map[] && retry != exit
    ensures
      var e' := Apply(e0, key, [Send(send), StartTimer(retry, t1), StartTimer(exit, timeout)]);
      && key in e'.txns && e'.txns[key] == e0.txns[key].(generations := map[retry := 1, exit := 1])
      && e'.spawned == e0.spawned + [Sleeper(key, retry, 1, t1), Sleeper(key, exit, 1, timeout)]
      && e'.wire == e0.wire + [Packet(send, e0.txns[key].peer)]
  {
    ApplyShort(e0, key, Send(send), StartTimer(retry, t1), StartTimer(exit, timeout));
    var e1 := ApplyOne(e0, key, Send(send));
    var e2 := ArmTimer(e1, key, retry, t1);
    assert e2.txns[key].generations == map[retry := 1];
    var e3 := ArmTimer(e2, key, exit, timeout);
    assert e3.txns[key].generations == map[retry := 1, exit := 1];
  }

  /** Starting a client transaction over an unreliable transport. */
  lemma StartBeats(w: World, req: Request, peer: Addr)
    requires Tidy(w) && NothingOverdue(w) && w.engine.rel == Unreliable
    requires RequestKey(req).Some? && Unused(w, RequestKey(req).value)
    ensures
      var key, w' := RequestKey(req).value, Next(w, Issue(StartClient(req, peer)));
      && Beats(w', key, w.now, 0, |w.engine.spawned|, |w.engine.spawned| + 1)
      && TimersOf(w'.engine.txns[key].tx) == w.engine.timers
      && (w'.engine.txns[key].tx.ClientInvite? <==> req.verb == Invite)
      && !w'.engine.txns[key].tx.ServerInvite?
      && Repeated(w'.engine.txns[key].tx) == RequestMessage(req)
      && w'.engine.wire == w.engine.wire + [Packet(RequestMessage(req), peer)]
  {
    hide Sip.RequestKey;
    var key, input := RequestKey(req).value, Issue(StartClient(req, peer));
    var step := StartClientTx(req, w.engine.timers, w.engine.rel);
    var e0 := w.engine.(txns := w.engine.txns[key := EntryState(step.next, peer, map[])]);
    var e' := Open(w.engine, key, peer, step);
    var retry, exit := if req.verb == Invite then A else E, if req.verb == Invite then B else F;
    LaunchOnEngine(e0, key, RequestMessage(req), retry, exit, w.engine.timers.t1, w.engine.timers.Timeout());
    assert step.actions
        == [Send(RequestMessage(req)), StartTimer(retry, w.engine.timers.t1),
            StartTimer(exit, w.engine.timers.Timeout())];
    assert Launched(w.engine, e', key);
    assert StepEngine(w, input) == e';
    StepKeepsPace(w, input);
    hide EngineRuns.Next, EngineRuns.StepEngine, EngineModel.Open;
    LaunchedBeats(w, input, Next(w, input), key);
  }

  /** A server INVITE transaction that has sent provisional responses at most. */
  predicate JustOpened(entry: EntryState, timers: Timers) {
    && entry.tx.ServerInvite? && entry.generations == map[]
    && entry.tx.si.phase == SI.Proceeding && entry.tx.si.rel == Unreliable
    && entry.tx.si.timers == timers && entry.tx.si.timerG == timers.t1
  }

  /** Refusing an INVITE over an unreliable transport. */
  lemma RefuseBeats(w: World, key: TransactionKey, refusal: Response)
    requires Tidy(w) && NothingOverdue(w) && w.engine.rel == Unreliable && refusal.status >= 300
    requires key in w.engine.txns && Unused(w, key) && JustOpened(w.engine.txns[key], w.engine.timers)
    ensures
      var w' := Next(w, Issue(SendResponse(key, refusal)));
      && Beats(w', key, w.now, 0, |w.engine.spawned|, |w.engine.spawned| + 1)
      && TimersOf(w'.engine.txns[key].tx) == w.engine.timers && w'.engine.txns[key].tx.ServerInvite?
      && Repeated(w'.engine.txns[key].tx) == ResponseMessage(refusal)
      && w'.engine.wire == w.engine.wire + [Packet(ResponseMessage(refusal), w.engine.txns[key].peer)]
  {
    var input := Issue(SendResponse(key, refusal));
    var step := w.engine.txns[key].tx.OnUserResponse(refusal);
    var e0 := w.engine.(txns := w.engine.txns[key := w.engine.txns[key].(tx := step.next)]);
    var e' := Advance(w.engine, key, step);
    LaunchOnEngine(e0, key, ResponseMessage(refusal), G, H, w.engine.timers.t1, w.engine.timers.Timeout());
    assert step.actions
        == [Send(ResponseMessage(refusal)), StartTimer(G, w.engine.timers.t1),
            StartTimer(H, w.engine.timers.Timeout())];
    assert Launched(w.engine, e', key);
    assert StepEngine(w, input) == e';
    StepKeepsPace(w, input);
    hide EngineRuns.Next, EngineRuns.StepEngine, EngineModel.Advance;
    LaunchedBeats(w, input, Next(w, input), key);
  }

  // ---- The closed forms ----

  lemma {:induction false} InviteOffsets(tx: TxState, k: nat)
    requires tx.ClientInvite?
    ensures Offset(tx, k) == (Pow2(k) - 1) * TimersOf(tx).t1
  {
    if k == 0 {
    } else {
      InviteOffsets(tx, k - 1);
    }
  }

  /** Timers E and G wait min(2^k*T1, T2), which never shrinks and never passes T2. */
  lemma CappedWaits(tx: TxState, k: nat)
    requires !tx.ClientInvite? && TimersOf(tx).t1 <= TimersOf(tx).t2
    ensures Wait(tx, k) == Min(Pow2(k) * TimersOf(tx).t1, TimersOf(tx).t2)
    ensures Wait(tx, k) <= Wait(tx, k + 1) <= TimersOf(tx).t2
  {
    assert Pow2(k + 1) * TimersOf(tx).t1 == 2 * (Pow2(k) * TimersOf(tx).t1);
  }

  lemma SmallPowers()
    ensures Pow2(0) == 1 && Pow2(1) == 2 && Pow2(2) == 4 && Pow2(3) == 8 && Pow2(4) == 16
    ensures Pow2(5) == 32 && Pow2(6) == 64 && Pow2(7) == 128
  {
  }

  lemma {:induction false} PowersGrow(k: nat)
    requires k >= 7
    ensures Pow2(k) >= 128
  {
    if k > 7 {
      PowersGrow(k - 1);
    } else {
      SmallPowers();
    }
  }

  /**
   Seven transmissions and no more: the first at the start, then T1*(2^k - 1) later for k
   from 1 to 6, and giving up 64*T1 after the start.
   */
  ghost predicate SevenTimes(t1: nat, w': World, key: TransactionKey, start: nat, resent: seq<nat>, ended: seq<nat>) {
    && |resent| <= 6 && (forall j :: 0 <= j < |resent| ==> resent[j] == start + (Pow2(j + 1) - 1) * t1)
    && if key in w'.engine.txns then
         && w'.now <= start + 64 * t1
         && (|resent| < 6 ==> w'.now <= start + (Pow2(|resent| + 1) - 1) * t1)
         && w'.engine.txns[key].tx.ClientInvite? && w'.engine.txns[key].tx.ci.timerA == Pow2(|resent|) * t1 <= 64 * t1
       else |resent| == 6 && ended == [start + 64 * t1]
  }

  lemma PowerAtMost(n: nat, t1: nat)
    requires n <= 6
    ensures Pow2(n) * t1 <= 64 * t1
  {
    SmallPowers();
  }

  lemma AtMostSix(k: nat, t1: nat)
    requires t1 > 0
    ensures k > 6 ==> (Pow2(k) - 1) * t1 > 64 * t1
  {
    if k > 6 {
      PowersGrow(k);
      assert (Pow2(k) - 1) * t1 >= 127 * t1;
    }
  }

  lemma EndsAfterSix(n: nat, t1: nat)
    requires n <= 6 && t1 > 0 && 64 * t1 <= (Pow2(n + 1) - 1) * t1
    ensures n == 6
  {
    SmallPowers();
  }

  /** Where a beating transaction stands in time. */
  lemma Progress(w: World, key: TransactionKey, start: nat, n: nat, next: nat, last: nat)
    requires key in w.engine.txns && Beats(w, key, start, n, next, last)
    ensures var tx := w.engine.txns[key].tx;
            && start + Offset(tx, n) <= w.now <= start + Offset(tx, n + 1)
            && w.now <= start + TimersOf(tx).Timeout() && Interval(tx) == Wait(tx, n)
  {
  }

  lemma SevenBeats(tx: TxState, w': World, key: TransactionKey, start: nat, resent: seq<nat>, ended: seq<nat>,
          next: nat, last: nat)
    requires tx.ClientInvite? && TimersOf(tx).t1 > 0 && Rhythmic(tx, w', key, start, 0, resent, ended, next, last)
    ensures SevenTimes(TimersOf(tx).t1, w', key, start, resent, ended)
  {
    hide Offset, Beats;
    var t1 := TimersOf(tx).t1;
    forall j | 0 <= j < |resent| ensures resent[j] == start + (Pow2(j + 1) - 1) * t1 && j < 6 {
      InviteOffsets(tx, j + 1);
      AtMostSix(j + 1, t1);
    }
    InviteOffsets(tx, |resent| + 1);
    if |resent| > 0 {
      assert resent[|resent| - 1] == start + (Pow2(|resent|) - 1) * t1;
    }
    if key in w'.engine.txns {
      Progress(w', key, start, |resent|, next, last);
      SameKindSameSchedule(tx, w'.engine.txns[key].tx, |resent| + 1);
      PowerAtMost(|resent|, t1);
    } else {
      EndsAfterSix(|resent|, t1);
    }
  }

  /**
   An INVITE nobody answers is transmitted exactly seven times before it times out, and
   Timer A's stored interval never passes 64*T1.
   */
  lemma SevenTransmissions(w: World, invite: Request, peer: Addr, inputs: seq<Input>, key: TransactionKey, w0: World)
    requires Tidy(w) && NothingOverdue(w) && w.engine.rel == Unreliable && w.engine.timers.t1 > 0
    requires invite.verb == Invite && RequestKey(invite) == Some(key) && Unused(w, key)
    requires w0 == Next(w, Issue(StartClient(invite, peer)))
    requires Undisturbed(w0, inputs, key)
    ensures w0.engine.wire == w.engine.wire + [Packet(RequestMessage(invite), peer)]
    ensures SevenTimes(w.engine.timers.t1, Exec(w0, inputs), key, w.now, Resent(w0, inputs, key),
        Ended(w0, inputs, key))
  {
    var last := |w.engine.spawned| + 1;
    StartBeats(w, invite, peer);
    hide EngineRuns.Next, EngineRuns.Exec, Resent, Ended, NoOthers, Offset, Rhythmic, OnBeat, Undisturbed;
    var next := Rhythm(w0, inputs, key, w.now, 0, |w.engine.spawned|, last);
    SevenBeats(w0.engine.txns[key].tx, Exec(w0, inputs), key, w.now, Resent(w0, inputs, key), Ended(w0, inputs, key),
        next, last);
  }

  /** Waits of min(2^k*T1, T2), and giving up 64*T1 after the start with every retransmission due before that sent. */
  ghost predicate CappedTimes(t: Timers, present: bool, start: nat, resent: seq<nat>, ended: seq<nat>) {
    && (forall j :: 0 <= j < |resent| ==>
          && resent[j] == (if j == 0 then start else resent[j - 1]) + Min(Pow2(j) * t.t1, t.t2)
          && resent[j] <= start + 64 * t.t1)
    && (!present ==>
          && ended == [start + 64 * t.t1]
          && start + 64 * t.t1 <= (if resent == [] then start else resent[|resent| - 1])
              + Min(Pow2(|resent|) * t.t1, t.t2))
  }

  lemma CappedOffsets(tx: TxState, k: nat)
    requires !tx.ClientInvite? && TimersOf(tx).t1 <= TimersOf(tx).t2
    ensures Offset(tx, k + 1) == Offset(tx, k) + Min(Pow2(k) * TimersOf(tx).t1, TimersOf(tx).t2)
    ensures Offset(tx, 0) == 0
  {
    CappedWaits(tx, k);
  }

  lemma CappedBeats(tx: TxState, w': World, key: TransactionKey, start: nat, resent: seq<nat>, ended: seq<nat>,
          next: nat, last: nat)
    requires !tx.ClientInvite? && TimersOf(tx).t1 <= TimersOf(tx).t2
        && Rhythmic(tx, w', key, start, 0, resent, ended, next, last)
    ensures CappedTimes(TimersOf(tx), key in w'.engine.txns, start, resent, ended)
  {
    hide Offset, Wait, Beats, Pow2, TimersOf;
    CappedOffsets(tx, |resent|);
    CappedOffsets(tx, 0);
    forall j | 0 <= j < |resent|
      ensures resent[j] == (if j == 0 then start else resent[j - 1]) + Min(Pow2(j) * TimersOf(tx).t1, TimersOf(tx).t2)
    {
      CappedOffsets(tx, j);
      assert resent[j] == start + Offset(tx, j + 1);
      assert j > 0 ==> resent[j - 1] == start + Offset(tx, (j - 1) + 1);
    }
    if resent != [] {
      assert resent[|resent| - 1] == start + Offset(tx, (|resent| - 1) + 1);
    }
  }

  /** A request nobody answers, on Timer E. */
  lemma SilentPeerNonInvite(w: World, req: Request, peer: Addr, inputs: seq<Input>, key: TransactionKey, w0: World)
    requires Tidy(w) && NothingOverdue(w) && w.engine.rel == Unreliable && w.engine.timers.t1 <= w.engine.timers.t2
    requires req.verb != Invite && RequestKey(req) == Some(key) && Unused(w, key)
    requires w0 == Next(w, Issue(StartClient(req, peer)))
    requires Undisturbed(w0, inputs, key)
    ensures CappedTimes(w.engine.timers, key in Exec(w0, inputs).engine.txns, w.now, Resent(w0, inputs, key),
        Ended(w0, inputs, key))
  {
    var last := |w.engine.spawned| + 1;
    StartBeats(w, req, peer);
    hide EngineRuns.Next, EngineRuns.Exec, Resent, Ended, NoOthers, Offset, Rhythmic, OnBeat, Undisturbed;
    var next := Rhythm(w0, inputs, key, w.now, 0, |w.engine.spawned|, last);
    CappedBeats(w0.engine.txns[key].tx, Exec(w0, inputs), key, w.now, Resent(w0, inputs, key), Ended(w0, inputs, key),
        next, last);
  }

  /** A refusal nobody acknowledges, on Timer G. */
  lemma SilentPeerRefusal(w: World, key: TransactionKey, refusal: Response, inputs: seq<Input>, w0: World)
    requires Tidy(w) && NothingOverdue(w) && w.engine.rel == Unreliable && w.engine.timers.t1 <= w.engine.timers.t2
    requires key in w.engine.txns && Unused(w, key) && refusal.status >= 300
        && JustOpened(w.engine.txns[key], w.engine.timers)
    requires w0 == Next(w, Issue(SendResponse(key, refusal)))
    requires Undisturbed(w0, inputs, key)
    ensures CappedTimes(w.engine.timers, key in Exec(w0, inputs).engine.txns, w.now, Resent(w0, inputs, key),
        Ended(w0, inputs, key))
  {
    var last := |w.engine.spawned| + 1;
    RefuseBeats(w, key, refusal);
    hide EngineRuns.Next, EngineRuns.Exec, Resent, Ended, NoOthers, Offset, Rhythmic, OnBeat, Undisturbed;
    var next := Rhythm(w0, inputs, key, w.now, 0, |w.engine.spawned|, last);
    CappedBeats(w0.engine.txns[key].tx, Exec(w0, inputs), key, w.now, Resent(w0, inputs, key), Ended(w0, inputs, key),
        next, last);
  }
}
