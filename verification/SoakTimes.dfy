/**
 A finished transaction stays long enough to absorb retransmissions (sections 17.1.1.2,
 17.1.2.2, 17.2.1 and 17.2.2 of RFC 3261): over an unreliable transport it is in the table
 for its whole soak time, whatever arrives meanwhile; over a reliable one it never soaks.
 */
module SoakTimes {
  import opened Wrappers
  import opened Sip
  import opened Transaction
  import opened EngineModel
  import opened EngineRuns
  import opened TransactionExit
  import opened Retransmission
  import CI = ClientInviteTransaction
  import CN = ClientNonInviteTransaction
  import SI = ServerInviteTransaction
  import SN = ServerNonInviteTransaction

  /** How long a finished transaction waits for stragglers: 32 seconds, T4 or 64*T1. */
  function Soak(tx: TxState, t: Timers): Option<nat> {
    match tx
    case ClientInvite(m) => if m.phase == CI.Completed then Some(32_000_000_000) else None
    case ClientNonInvite(m) => if m.phase == CN.Completed then Some(t.t4) else None
    case ServerInvite(m) => if m.phase == SI.Confirmed then Some(t.t4) else None
    case ServerNonInvite(m) => if m.phase == SN.Completed then Some(64 * t.t1) else None
  }

  predicate Soaks(tx: TxState) { Soak(tx, Timers(0, 0, 0)).Some? }

  ghost predicate NotBefore(w: World, key: TransactionKey, until: nat, i: nat)
    requires key in w.engine.txns && i < |w.engine.spawned| == |w.due|
  {
    Exit(w.engine.txns[key].tx) == Some(w.engine.spawned[i].id) && i !in w.fired && Heard(w.engine, w.engine.spawned[i])
    ==> until <= w.due[i]
  }

  /** The transaction soaks, and no fire that would end it is due before `until`. */
  ghost predicate SoaksUntil(w: World, key: TransactionKey, until: nat) {
    && Tidy(w) && key in w.engine.txns && Soaks(w.engine.txns[key].tx)
    && forall i :: 0 <= i < |w.engine.spawned| && w.engine.spawned[i].key == key ==> NotBefore(w, key, until, i)
  }

  /** The transaction is in the table, soaking, or its time has come. */
  predicate InPlaceUntil(w: World, key: TransactionKey, until: nat) {
    (key in w.engine.txns && Soaks(w.engine.txns[key].tx)) || until <= w.now
  }

  /** No user starts a client request under this key. */
  predicate Spares(input: Input, key: TransactionKey) {
    !(input.Issue? && input.cmd.StartClient? && RequestKey(input.cmd.request) == Some(key))
  }

  /** While it soaks a transaction repeats itself at most, and its exit timer alone ends it. */
  lemma SoakingMoves(w: World, input: Input)
    requires EffectOf(w, input).Moves? && Soaks(w.engine.txns[EffectOf(w, input).key].tx)
    ensures
      var tx, step := w.engine.txns[EffectOf(w, input).key].tx, EffectOf(w, input).step;
      || (input.Fire? && CanFire(w, input.sleeper) && Heard(w.engine, w.engine.spawned[input.sleeper])
          && w.engine.spawned[input.sleeper].key == EffectOf(w, input).key
          && Exit(tx) == Some(w.engine.spawned[input.sleeper].id))
      || (step.next == tx && (step.actions == [] || (|step.actions| == 1 && step.actions[0].Send?)))
  {
    hide Sip.Non2xxAck, Sip.RequestKey, Sip.ResponseKey;
  }

  /** Another fire, or a repeated message, leaves the soaking transaction as it is. */
  lemma RepeatKeeps(e: State, key: TransactionKey, step: Step<TxState>)
    requires key in e.txns && step.next == e.txns[key].tx
    requires step.actions == [] || (|step.actions| == 1 && step.actions[0].Send?)
    ensures var e' := Advance(e, key, step); e'.txns == e.txns && e'.spawned == e.spawned
  {
    var e0 := e.(txns := e.txns[key := e.txns[key].(tx := step.next)]);
    assert e0.txns == e.txns;
    if step.actions != [] {
      ApplyShort(e0, key, step.actions[0], TimedOut, TimedOut);
      assert step.actions == [step.actions[0]];
    }
  }

  lemma SoakStep(w: World, input: Input, key: TransactionKey, until: nat)
    requires SoaksUntil(w, key, until) && Spares(input, key)
    ensures SoaksUntil(Next(w, input), key, until) || until <= w.now
  {
    StepByEffect(w, input);
    var w', effect := Next(w, input), EffectOf(w, input);
    NextFrom(w, input, StepEngine(w, input));
    if effect.Moves? && effect.key == key {
      SoakingMoves(w, input);
      var i := if input.Fire? then input.sleeper else 0;
      if input.Fire? && CanFire(w, i) && Heard(w.engine, w.engine.spawned[i])
         && w.engine.spawned[i].key == key && Exit(w.engine.txns[key].tx) == Some(w.engine.spawned[i].id) {
        assert NotBefore(w, key, until, i);
        return;
      }
      RepeatKeeps(w.engine, key, effect.step);
    } else {
      assert effect.Starts? ==> effect.key != key;
      EngineLeavesAlone(w, input, key);
    }
    hide EngineRuns.Next, EngineRuns.StepEngine, EngineRuns.EffectOf, EngineModel.Advance, EngineModel.Open;
    forall i | 0 <= i < |w'.engine.spawned| && w'.engine.spawned[i].key == key ensures NotBefore(w', key, until, i) {
      assert i < |w.engine.spawned|;
      assert NotBefore(w, key, until, i);
    }
  }

  lemma {:induction false} TimePasses(w: World, inputs: seq<Input>)
    ensures w.now <= Exec(w, inputs).now
    decreases |inputs|
  {
    if inputs == [] {
    } else {
      TimePasses(Next(w, inputs[0]), inputs[1..]);
    }
  }

  lemma {:induction false} SoaksOn(w: World, inputs: seq<Input>, key: TransactionKey, until: nat)
    requires SoaksUntil(w, key, until) && forall j :: 0 <= j < |inputs| ==> Spares(inputs[j], key)
    ensures InPlaceUntil(Exec(w, inputs), key, until)
    decreases |inputs|
  {
    if inputs == [] {
    } else {
      SoakStep(w, inputs[0], key, until);
      if SoaksUntil(Next(w, inputs[0]), key, until) {
        SoaksOn(Next(w, inputs[0]), inputs[1..], key, until);
      } else {
        TimePasses(w, inputs);
      }
    }
  }

  /** The step that starts a soak arms its exit timer last, for the soak time. */
  lemma SoakIsArmed(w: World, input: Input)
    requires EffectOf(w, input).Moves? && !Soaks(w.engine.txns[EffectOf(w, input).key].tx)
    requires Soaks(EffectOf(w, input).step.next)
    ensures
      var tx, step := w.engine.txns[EffectOf(w, input).key].tx, EffectOf(w, input).step;
      && Exit(step.next).Some? && ArmsLast(step.actions, Exit(step.next).value)
      && Transaction.Terminated !in step.actions
      && Soak(step.next, TimersOf(tx)) == Some(step.actions[|step.actions| - 1].after)
      && forall j :: 0 <= j < |step.actions| - 1 ==> !step.actions[j].StartTimer?
  {
    hide Sip.Non2xxAck, Sip.RequestKey, Sip.ResponseKey;
  }

  lemma {:induction false} ArmsOnce(e: State, key: TransactionKey, actions: seq<TxAction>, id: TimerId)
    requires key in e.txns && Transaction.Terminated !in actions && ArmsLast(actions, id)
    requires forall j :: 0 <= j < |actions| - 1 ==> !actions[j].StartTimer?
    ensures
      var spawned := Apply(e, key, actions).spawned;
      && |spawned| == |e.spawned| + 1 && spawned[..|e.spawned|] == e.spawned
      && spawned[|e.spawned|].key == key && spawned[|e.spawned|].after == actions[|actions| - 1].after
    decreases |actions|
  {
    var e1 := ApplyOne(e, key, actions[0]);
    if |actions| == 1 {
      assert Apply(e1, key, actions[1..]) == e1;
    } else {
      assert actions[0] in actions;
      ApplyOneExtends(e, key, actions[0]);
      ArmsOnce(e1, key, actions[1..], id);
    }
  }

  /** No fire of an earlier owner of the key is still to come for this timer. */
  predicate Unclaimed(w: World, key: TransactionKey, id: Option<TimerId>) {
    forall i :: 0 <= i < |w.engine.spawned| && i !in w.fired ==>
        w.engine.spawned[i].key != key || Some(w.engine.spawned[i].id) != id
  }

  lemma MoveStartsSoak(w: World, input: Input, key: TransactionKey)
    requires Tidy(w) && EffectOf(w, input).Moves? && EffectOf(w, input).key == key
    requires !Soaks(w.engine.txns[key].tx) && Soaks(EffectOf(w, input).step.next)
    requires Unclaimed(w, key, Exit(EffectOf(w, input).step.next))
    ensures
      var next := EffectOf(w, input).step.next;
      && SoaksUntil(Next(w, input), key, w.now + Soak(next, TimersOf(w.engine.txns[key].tx)).value)
      && Next(w, input).engine.txns[key].tx == next
  {
    StepByEffect(w, input);
    SoakIsArmed(w, input);
    var w', step := Next(w, input), EffectOf(w, input).step;
    NextFrom(w, input, StepEngine(w, input));
    var e0 := w.engine.(txns := w.engine.txns[key := w.engine.txns[key].(tx := step.next)]);
    ApplyExtends(e0, key, step.actions);
    ArmsOnce(e0, key, step.actions, Exit(step.next).value);
    hide EngineRuns.Next, EngineRuns.StepEngine, EngineRuns.EffectOf, EngineModel.Apply, Exit, Soak, ArmsLast;
    var until := w.now + Soak(step.next, TimersOf(w.engine.txns[key].tx)).value;
    forall i | 0 <= i < |w'.engine.spawned| && w'.engine.spawned[i].key == key ensures NotBefore(w', key, until, i) {
      if i < |w.engine.spawned| {
        assert w'.engine.spawned[i] == w'.engine.spawned[..|w.engine.spawned|][i] == w.engine.spawned[i];
      }
    }
  }

  /** Only a move of its own makes a transaction soak. */
  lemma SoakIsEntered(w: World, input: Input, key: TransactionKey)
    requires key in w.engine.txns && !Soaks(w.engine.txns[key].tx)
    requires key in Next(w, input).engine.txns && Soaks(Next(w, input).engine.txns[key].tx)
    ensures EffectOf(w, input).Moves? && EffectOf(w, input).key == key
    ensures EffectOf(w, input).step.next == Next(w, input).engine.txns[key].tx
  {
    StepByEffect(w, input);
    var effect := EffectOf(w, input);
    assert Next(w, input).engine == StepEngine(w, input);
    if effect.Moves? && effect.key == key {
      var e0 := w.engine.(txns := w.engine.txns[key := w.engine.txns[key].(tx := effect.step.next)]);
      ApplyExtends(e0, key, effect.step.actions);
    } else if effect.Starts? && effect.key == key {
      var e0 := w.engine.(txns := w.engine.txns[key := EntryState(effect.step.next, effect.peer, map[])]);
      ApplyExtends(e0, key, effect.step.actions);
    } else {
      EngineLeavesAlone(w, input, key);
    }
  }

  /**
   The soak time is kept in full: a transaction that a step leaves soaking is in the table
   until 32 seconds (a client INVITE), T4 (a client request, a confirmed server INVITE) or
   64*T1 (a server request) have passed, whatever else the run holds.
   */
  lemma SoaksItsTime(w: World, input: Input, w': World, inputs: seq<Input>, key: TransactionKey, wait: nat)
    requires Tidy(w) && key in w.engine.txns && TimersOf(w.engine.txns[key].tx) == w.engine.timers
    requires !Soaks(w.engine.txns[key].tx)
    requires key in w'.engine.txns && Soak(w'.engine.txns[key].tx, w.engine.timers) == Some(wait)
    requires Unclaimed(w, key, Exit(w'.engine.txns[key].tx))
    requires forall j :: 0 <= j < |inputs| ==> Spares(inputs[j], key)
    requires w' == Next(w, input)
    ensures InPlaceUntil(Exec(w', inputs), key, w.now + wait)
  {
    hide EngineRuns.Next, EngineRuns.StepEngine, EngineRuns.EffectOf, Exit, Unclaimed, Spares, Exec;
    SoakIsEntered(w, input, key);
    MoveStartsSoak(w, input, key);
    SoaksOn(w', inputs, key, w.now + wait);
  }

  // ---- Reliable transports ----

  function RelOf(tx: TxState): Reliability {
    match tx
    case ClientInvite(m) => m.rel
    case ClientNonInvite(m) => m.rel
    case ServerInvite(m) => m.rel
    case ServerNonInvite(m) => m.rel
  }

  ghost predicate AllSolid(e: State) {
    e.rel.Reliable? && forall k :: k in e.txns ==> RelOf(e.txns[k].tx).Reliable? && !Soaks(e.txns[k].tx)
  }

  lemma SolidMove(w: World, input: Input)
    requires EffectOf(w, input).Moves? && AllSolid(w.engine)
    ensures RelOf(EffectOf(w, input).step.next).Reliable? && !Soaks(EffectOf(w, input).step.next)
  {
    hide Sip.Non2xxAck, Sip.RequestKey, Sip.ResponseKey;
  }

  lemma SolidStart(w: World, input: Input)
    requires EffectOf(w, input).Starts? && AllSolid(w.engine)
    ensures RelOf(EffectOf(w, input).step.next).Reliable? && !Soaks(EffectOf(w, input).step.next)
  {
    hide Sip.RequestKey, Sip.ResponseKey;
  }

  /** A step that gives one key such a transaction, or changes none, keeps all of them such. */
  lemma SolidAfter(e: State, e': State, key: TransactionKey)
    requires AllSolid(e) && e'.rel == e.rel
    requires forall k :: k != key && k in e'.txns ==> k in e.txns && e'.txns[k] == e.txns[k]
    requires key in e'.txns ==> RelOf(e'.txns[key].tx).Reliable? && !Soaks(e'.txns[key].tx)
    ensures AllSolid(e')
  {
    hide RelOf, Soaks;
  }

  lemma SolidStep(w: World, input: Input)
    requires AllSolid(w.engine)
    ensures AllSolid(Next(w, input).engine)
  {
    StepByEffect(w, input);
    assert Next(w, input).engine == StepEngine(w, input);
    var e, effect := w.engine, EffectOf(w, input);
    if effect.Moves? {
      SolidMove(w, input);
    } else if effect.Starts? {
      SolidStart(w, input);
    }
    hide EngineRuns.Next, EngineRuns.StepEngine, EngineRuns.EffectOf, EngineModel.Apply, RelOf, Soaks, AllSolid;
    match effect
    case Moves(key, step) =>
      ApplyExtends(e.(txns := e.txns[key := e.txns[key].(tx := step.next)]), key, step.actions);
      SolidAfter(e, Next(w, input).engine, key);
    case Starts(key, peer, step) =>
      ApplyExtends(e.(txns := e.txns[key := EntryState(step.next, peer, map[])]), key, step.actions);
      SolidAfter(e, Next(w, input).engine, key);
    case Idle(_) =>
  }

  /** Over a reliable transport no transaction ever soaks: its final response ends it. */
  lemma {:induction false} NoSoakWhenReliable(w: World, inputs: seq<Input>)
    requires AllSolid(w.engine)
    ensures AllSolid(Exec(w, inputs).engine)
    decreases |inputs|
  {
    if inputs == [] {
    } else {
      SolidStep(w, inputs[0]);
      NoSoakWhenReliable(Next(w, inputs[0]), inputs[1..]);
    }
  }
}
