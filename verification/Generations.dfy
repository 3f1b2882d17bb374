/**
 What the generation counters say in every run, whoever owned a key before: no sleeper of
 the present owner of a key bears a generation above its timer's counter, and later
 armings of one timer bear higher generations. So of an owner's own sleepers only the
 latest arming of a timer is ever heard.
 */
module Generations {
  import opened Sip
  import opened Transaction
  import opened EngineModel
  import opened EngineRuns
  import CI = ClientInviteTransaction
  import CN = ClientNonInviteTransaction
  import SI = ServerInviteTransaction

  /** A sleeper of the present owner of its key. */
  predicate Own(e: State, birth: map<TransactionKey, nat>, i: nat) {
    && i < |e.spawned| && e.spawned[i].key in e.txns
    && e.spawned[i].key in birth && birth[e.spawned[i].key] <= i
  }

  predicate Covered(e: State, i: nat)
    requires i < |e.spawned| && e.spawned[i].key in e.txns
  {
    var generations := e.txns[e.spawned[i].key].generations;
    e.spawned[i].id in generations && 1 <= e.spawned[i].generation <= generations[e.spawned[i].id]
  }

  /** Two armings of one timer by one owner. */
  predicate Rearmed(e: State, birth: map<TransactionKey, nat>, i: nat, j: nat) {
    && i < j && Own(e, birth, i) && Own(e, birth, j)
    && e.spawned[i].key == e.spawned[j].key && e.spawned[i].id == e.spawned[j].id
  }

  ghost predicate Numbered(e: State, birth: map<TransactionKey, nat>) {
    && (forall i: nat :: Own(e, birth, i) ==> Covered(e, i))
    && (forall i: nat, j: nat :: Rearmed(e, birth, i, j) ==> e.spawned[i].generation < e.spawned[j].generation)
  }

  lemma ArmNumbered(e: State, birth: map<TransactionKey, nat>, key: TransactionKey, id: TimerId, after: nat)
    requires Numbered(e, birth)
    ensures Numbered(ArmTimer(e, key, id, after), birth)
  {
    var e' := ArmTimer(e, key, id, after);
    forall i: nat | Own(e', birth, i) ensures Covered(e', i) {
      assert i < |e.spawned| ==> Own(e, birth, i);
    }
    forall i: nat, j: nat | Rearmed(e', birth, i, j) ensures e'.spawned[i].generation < e'.spawned[j].generation {
      assert Own(e, birth, i);
      assert j < |e.spawned| ==> Rearmed(e, birth, i, j);
    }
  }

  /** A change that spawns nothing, opens nothing and lowers no counter. */
  lemma CountersOnlyRise(e: State, e': State, birth: map<TransactionKey, nat>)
    requires Numbered(e, birth) && e'.spawned == e.spawned && e'.txns.Keys <= e.txns.Keys
    requires forall k, id :: k in e'.txns && id in e.txns[k].generations ==>
      id in e'.txns[k].generations && e.txns[k].generations[id] <= e'.txns[k].generations[id]
    ensures Numbered(e', birth)
  {
    forall i: nat | Own(e', birth, i) ensures Covered(e', i) {
      assert Own(e, birth, i);
    }
    forall i: nat, j: nat | Rearmed(e', birth, i, j) ensures e'.spawned[i].generation < e'.spawned[j].generation {
      assert Rearmed(e, birth, i, j);
    }
  }

  lemma ApplyOneNumbered(e: State, birth: map<TransactionKey, nat>, key: TransactionKey, action: TxAction)
    requires Numbered(e, birth)
    ensures Numbered(ApplyOne(e, key, action), birth)
  {
    hide Numbered;
    if action.StartTimer? {
      ArmNumbered(e, birth, key, action.id, action.after);
    } else {
      CountersOnlyRise(e, ApplyOne(e, key, action), birth);
    }
  }

  lemma {:induction false} ApplyNumbered(e: State, birth: map<TransactionKey, nat>, key: TransactionKey,
          actions: seq<TxAction>)
    requires Numbered(e, birth)
    ensures Numbered(Apply(e, key, actions), birth)
    decreases |actions|
  {
    hide Numbered, ApplyOne;
    if actions == [] {
    } else {
      ApplyOneNumbered(e, birth, key, actions[0]);
      ApplyNumbered(ApplyOne(e, key, actions[0]), birth, key, actions[1..]);
    }
  }

  /** A new owner has no sleepers yet. */
  lemma OpenedNumbered(e: State, e': State, birth: map<TransactionKey, nat>, key: TransactionKey, entry: EntryState)
    requires Numbered(e, birth) && e' == e.(txns := e.txns[key := entry])
    ensures Numbered(e', birth[key := |e.spawned|])
  {
    var birth' := birth[key := |e.spawned|];
    forall i: nat | Own(e', birth', i) ensures Covered(e', i) {
      assert Own(e, birth, i);
    }
    forall i: nat, j: nat | Rearmed(e', birth', i, j) ensures e'.spawned[i].generation < e'.spawned[j].generation {
      assert Rearmed(e, birth, i, j);
    }
  }

  lemma StepNumbered(w: World, input: Input)
    requires Numbered(w.engine, w.birth)
    ensures Numbered(Next(w, input).engine, Next(w, input).birth)
  {
    StepByEffect(w, input);
    hide Numbered, EngineRuns.StepEngine, EngineModel.Apply;
    var e := w.engine;
    match EffectOf(w, input) {
      case Moves(key, step) =>
        var moved := e.(txns := e.txns[key := e.txns[key].(tx := step.next)]);
        CountersOnlyRise(e, moved, w.birth);
        ApplyNumbered(moved, w.birth, key, step.actions);
      case Starts(key, peer, step) =>
        var entry := EntryState(step.next, peer, map[]);
        OpenedNumbered(e, e.(txns := e.txns[key := entry]), w.birth, key, entry);
        ApplyNumbered(e.(txns := e.txns[key := entry]), w.birth[key := |e.spawned|], key, step.actions);
      case Idle(after) =>
        CountersOnlyRise(e, after, w.birth);
    }
  }

  lemma {:induction false} AlwaysNumbered(w: World, inputs: seq<Input>)
    requires Numbered(w.engine, w.birth)
    ensures Numbered(Exec(w, inputs).engine, Exec(w, inputs).birth)
    decreases |inputs|
  {
    hide Numbered, Next;
    if inputs == [] {
    } else {
      StepNumbered(w, inputs[0]);
      AlwaysNumbered(Next(w, inputs[0]), inputs[1..]);
    }
  }

  /**
   In every run from the empty engine the counters bound the generations of the present
   owners' sleepers, and of an owner's sleepers for one timer no earlier one is heard.
   */
  lemma OnlyTheLatestIsHeard(timers: Timers, rel: Reliability, inputs: seq<Input>, i: nat, j: nat)
    requires var w := Exec(Initially(timers, rel), inputs); Own(w.engine, w.birth, i)
    ensures var w := Exec(Initially(timers, rel), inputs);
            && Covered(w.engine, i)
            && (Rearmed(w.engine, w.birth, i, j) ==>
                  w.engine.spawned[i].generation < w.engine.spawned[j].generation
                      && !Heard(w.engine, w.engine.spawned[i]))
  {
    AlwaysNumbered(Initially(timers, rel), inputs);
    hide Exec;
    var w := Exec(Initially(timers, rel), inputs);
    if Rearmed(w.engine, w.birth, i, j) {
      assert Covered(w.engine, j);
    }
  }

  // ---- Stopped timers ----

  /** The counter of a timer of a key; 0 if it was never armed. */
  function Counter(e: State, key: TransactionKey, id: TimerId): nat {
    if key in e.txns && id in e.txns[key].generations then e.txns[key].generations[id] else 0
  }

  predicate Arms(actions: seq<TxAction>, id: TimerId) {
    exists j :: 0 <= j < |actions| && actions[j].StartTimer? && actions[j].id == id
  }

  predicate Stops(actions: seq<TxAction>, id: TimerId) {
    exists j :: 0 <= j < |actions| && actions[j].StopTimer? && actions[j].stopped == id
  }

  /** Every sleeper of this timer was there before. */
  predicate NoneSpawned(e: State, e': State, key: TransactionKey, id: TimerId) {
    && |e.spawned| <= |e'.spawned| && e'.spawned[..|e.spawned|] == e.spawned
    && forall i :: |e.spawned| <= i < |e'.spawned| ==> e'.spawned[i].key != key || e'.spawned[i].id != id
  }

  lemma OneStops(e: State, key: TransactionKey, action: TxAction, id: TimerId)
    requires key in e.txns && !action.Terminated? && !(action.StartTimer? && action.id == id)
    ensures
      var e' := ApplyOne(e, key, action);
      && key in e'.txns && NoneSpawned(e, e', key, id) && Counter(e, key, id) <= Counter(e', key, id)
      && (action == StopTimer(id) && Counter(e, key, id) > 0 ==> Counter(e, key, id) < Counter(e', key, id))
      && (id in e.txns[key].generations ==> id in e'.txns[key].generations)
  {
  }

  lemma NoneSpawnedThen(a: State, b: State, c: State, key: TransactionKey, id: TimerId)
    requires NoneSpawned(a, b, key, id) && NoneSpawned(b, c, key, id)
    ensures NoneSpawned(a, c, key, id)
  {
    assert forall i :: 0 <= i < |b.spawned| ==> c.spawned[i] == c.spawned[..|b.spawned|][i] == b.spawned[i];
  }

  lemma TailStops(actions: seq<TxAction>, id: TimerId)
    requires actions != [] && Transaction.Terminated !in actions && !Arms(actions, id)
    ensures !actions[0].Terminated? && !(actions[0].StartTimer? && actions[0].id == id)
    ensures Transaction.Terminated !in actions[1..] && !Arms(actions[1..], id)
    ensures Stops(actions, id) ==> actions[0] == StopTimer(id) || Stops(actions[1..], id)
  {
    var rest := actions[1..];
    assert actions[0] in actions && forall j :: 0 <= j < |rest| ==> rest[j] == actions[j + 1];
  }

  /** Stopping raises the counter past every generation there was, and arms nothing. */
  lemma {:induction false} ApplyStops(e: State, key: TransactionKey, actions: seq<TxAction>, id: TimerId)
    requires key in e.txns && Transaction.Terminated !in actions && !Arms(actions, id)
    ensures
      var e' := Apply(e, key, actions);
      && NoneSpawned(e, e', key, id) && Counter(e, key, id) <= Counter(e', key, id)
      && (Stops(actions, id) && Counter(e, key, id) > 0 ==> Counter(e, key, id) < Counter(e', key, id))
    decreases |actions|
  {
    if actions == [] {
    } else {
      var e1, rest := ApplyOne(e, key, actions[0]), actions[1..];
      TailStops(actions, id);
      OneStops(e, key, actions[0], id);
      hide ApplyOne, Counter, NoneSpawned, Stops, Arms;
      ApplyStops(e1, key, rest, id);
      NoneSpawnedThen(e, e1, Apply(e1, key, rest), key, id);
    }
  }

  /** What an answer stops: A and B by ringing, E and F by a final response, G and H by the ACK. */
  predicate Answered(before: TxState, after: TxState, id: TimerId) {
    match (before, after)
    case (ClientInvite(a), ClientInvite(b)) => a.phase == CI.Calling && b.phase == CI.Proceeding && id in {A, B}
    case (ClientNonInvite(a), ClientNonInvite(b)) => a.phase != CN.Completed && b.phase == CN.Completed && id in {E, F}
    case (ServerInvite(a), ServerInvite(b)) => a.phase == SI.Completed && b.phase == SI.Confirmed && id in {G, H}
    case _ => false
  }

  lemma FirstStops(actions: seq<TxAction>, id: TimerId)
    requires |actions| >= 2 && (actions[0] == StopTimer(id) || actions[1] == StopTimer(id))
    ensures Stops(actions, id)
  {
  }

  lemma AnswerStops(w: World, input: Input, id: TimerId)
    requires EffectOf(w, input).Moves?
    requires Answered(w.engine.txns[EffectOf(w, input).key].tx, EffectOf(w, input).step.next, id)
    ensures
      var actions := EffectOf(w, input).step.actions;
      Stops(actions, id) && !Arms(actions, id) && Transaction.Terminated !in actions
  {
    hide Sip.Non2xxAck, Sip.RequestKey, Sip.ResponseKey, Stops;
    FirstStops(EffectOf(w, input).step.actions, id);
  }

  /** A timer an answer stops is deaf at once: none of its owner's sleepers is heard any more. */
  lemma AnsweredTimersAreDeaf(w: World, input: Input, w': World, key: TransactionKey, id: TimerId, i: nat)
    requires Numbered(w.engine, w.birth)
    requires EffectOf(w, input).Moves? && EffectOf(w, input).key == key
    requires Answered(w.engine.txns[key].tx, EffectOf(w, input).step.next, id)
    requires w' == Next(w, input)
    requires Own(w'.engine, w'.birth, i) && w'.engine.spawned[i].key == key && w'.engine.spawned[i].id == id
    ensures !Heard(w'.engine, w'.engine.spawned[i])
  {
    AnswerStops(w, input, id);
    StepByEffect(w, input);
    var step := EffectOf(w, input).step;
    var e0 := w.engine.(txns := w.engine.txns[key := w.engine.txns[key].(tx := step.next)]);
    assert w'.engine == Apply(e0, key, step.actions) && w'.birth == w.birth;
    hide EngineRuns.Next, EngineRuns.EffectOf, EngineRuns.StepEngine, EngineModel.Apply, Answered, Stops, Arms;
    CountersOnlyRise(w.engine, e0, w.birth);
    ApplyStops(e0, key, step.actions, id);
    assert i < |e0.spawned| && e0.spawned[i] == w'.engine.spawned[..|e0.spawned|][i] == w'.engine.spawned[i];
    assert Own(e0, w.birth, i);
    assert Covered(e0, i);
  }
}
