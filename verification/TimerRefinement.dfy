/**
 Generation counters against cancellable timers. The ideal engine keeps, per
 transaction and timer, the one sleeper that is armed; stopping or re-arming forgets
 it at once, and a fire is heard exactly when its own sleeper is still the armed one.
 The real engine simulates it, except for one kind of fire: a sleeper left over from an
 earlier transaction with the same key whose generation happens to be current again.
 */
module TimerRefinement {
  import opened Wrappers
  import opened Sip
  import opened Transaction
  import opened EngineModel
  import opened EngineRuns
  import SI = ServerInviteTransaction

  datatype Timer = Timer(key: TransactionKey, id: TimerId)

  datatype IdealEntry = IdealEntry(tx: TxState, peer: Addr)

  datatype Ideal = Ideal(
    timers: Timers,
    rel: Reliability,
    txns: map<TransactionKey, IdealEntry>,
    armed: map<Timer, nat>,
    sleepers: seq<Timer>,
    published: seq<Event>,
    wire: seq<Packet>
  ) {
    function Apply(key: TransactionKey, actions: seq<TxAction>): Ideal
      decreases |actions|
    {
      if actions == [] then this else ApplyOne(key, actions[0]).Apply(key, actions[1..])
    }

    function ApplyOne(key: TransactionKey, action: TxAction): Ideal {
      match action
      case Send(msg) => if key in txns then this.(wire := wire + [Packet(msg, txns[key].peer)]) else this
      case StartTimer(id, _) =>
        if key in txns
        then this.(armed := armed[Timer(key, id) := |sleepers|], sleepers := sleepers + [Timer(key, id)])
        else this
      case StopTimer(id) => this.(armed := armed - {Timer(key, id)})
      case DeliverResponse(resp) => this.(published := published + [ResponseEvent(key, resp)])
      case DeliverRequest(req) =>
        if key in txns then this.(published := published + [IncomingRequest(key, req, txns[key].peer)]) else this
      case TimedOut => this.(published := published + [TimedOutEvent(key)])
      case Terminated => Forget(key).(published := published + [TerminatedEvent(key)])
    }

    /** A transaction leaves the table and takes its armed timers with it. */
    function Forget(key: TransactionKey): Ideal {
      this.(txns := txns - {key}, armed := map t | t in armed && t.key != key :: armed[t])
    }

    function Move(key: TransactionKey, step: Step<TxState>): Ideal
      requires key in txns
    {
      this.(txns := txns[key := txns[key].(tx := step.next)]).Apply(key, step.actions)
    }

    function Start(key: TransactionKey, peer: Addr, step: Step<TxState>): Ideal {
      var cleared := Forget(key);
      cleared.(txns := cleared.txns[key := IdealEntry(step.next, peer)]).Apply(key, step.actions)
    }

    predicate Hears(i: nat) {
      i < |sleepers| && sleepers[i] in armed && armed[sleepers[i]] == i && sleepers[i].key in txns
    }

    /** The armed sleeper fires once: it is no longer armed, and its machine hears it. */
    function OnFire(i: nat): Ideal {
      if !Hears(i) then this
      else
        var t := sleepers[i];
        this.(armed := armed - {t}).Move(t.key, txns[t.key].tx.OnTimer(t.id))
    }

    function Step(input: Input): Ideal {
      match input
      case Inbound(RequestMessage(req), src) =>
        (match RequestKey(req)
         case None => this
         case Some(key) =>
           if key in txns then Move(key, txns[key].tx.OnRequest(req))
           else if req.verb == Ack then this.(published := published + [UnmatchedRequest(req, src)])
           else Start(key, src, StartServerTx(req, timers, rel)))
      case Inbound(ResponseMessage(resp), _) =>
        (match ResponseKey(resp)
         case Some(key) => if key in txns then Move(key, txns[key].tx.OnResponse(resp)) else this
         case None => this)
      case Issue(StartClient(req, peer)) =>
        (match RequestKey(req)
         case Some(key) => Start(key, peer, StartClientTx(req, timers, rel))
         case None => this)
      case Issue(SendResponse(key, resp)) =>
        if key in txns then Move(key, txns[key].tx.OnUserResponse(resp)) else this
      case Issue(SendOutOfDialog(msg, peer)) => this.(wire := wire + [Packet(msg, peer)])
      case Fire(i) => OnFire(i)
      case Tick(_) => this
    }
  }

  function IdealInitially(timers: Timers, rel: Reliability): Ideal {
    Ideal(timers, rel, map[], map[], [], [], [])
  }

  /** The ideal run: a fire that has not come due, or has been spent, never reaches the ideal engine. */
  function IdealExec(s: Ideal, w: World, inputs: seq<Input>): Ideal
    decreases |inputs|
  {
    if inputs == [] then s
    else if inputs[0].Fire? && !CanFire(w, inputs[0].sleeper) then IdealExec(s, Next(w, inputs[0]), inputs[1..])
    else IdealExec(s.Step(inputs[0]), Next(w, inputs[0]), inputs[1..])
  }

  /** A sleeper of an earlier owner of its key is taken for one of the present owner's. */
  predicate Impostor(w: World, i: nat) {
    && i < |w.engine.spawned|
    && var sl := w.engine.spawned[i];
    && sl.key in w.birth && i < w.birth[sl.key]
    && Heard(w.engine, sl)
  }

  /** No fire of the run is an impostor's. */
  predicate Genuine(w: World, inputs: seq<Input>)
    decreases |inputs|
  {
    inputs == [] ||
    (!(inputs[0].Fire? && CanFire(w, inputs[0].sleeper) && Impostor(w, inputs[0].sleeper))
     && Genuine(Next(w, inputs[0]), inputs[1..]))
  }

  // ---- The simulation relation ----

  ghost predicate SameSurface(e: State, s: Ideal) {
    && s.timers == e.timers && s.rel == e.rel && s.published == e.published && s.wire == e.wire
    && s.txns.Keys == e.txns.Keys
    && (forall k :: k in e.txns ==> s.txns[k] == IdealEntry(e.txns[k].tx, e.txns[k].peer))
    && |s.sleepers| == |e.spawned|
    && (forall i :: 0 <= i < |e.spawned| ==> s.sleepers[i] == Timer(e.spawned[i].key, e.spawned[i].id))
  }

  /** Sleeper `i` of the present owner: current and unspent exactly when it is the armed one. */
  ghost predicate Agrees(e: State, fired: set<nat>, s: Ideal, i: nat)
    requires i < |e.spawned|
  {
    var sl := e.spawned[i];
    && sl.key in e.txns && sl.id in e.txns[sl.key].generations
    && sl.generation <= e.txns[sl.key].generations[sl.id]
    && ((sl.generation == e.txns[sl.key].generations[sl.id] && i !in fired)
        <==> (Timer(sl.key, sl.id) in s.armed && s.armed[Timer(sl.key, sl.id)] == i))
  }

  /** An armed timer's sleeper was spawned for it by the present owner of its key. */
  ghost predicate IsOwn(e: State, birth: map<TransactionKey, nat>, s: Ideal, t: Timer) {
    t in s.armed ==>
      && t.key in e.txns && t.key in birth && birth[t.key] <= s.armed[t] < |e.spawned|
      && e.spawned[s.armed[t]].key == t.key && e.spawned[s.armed[t]].id == t.id
  }

  ghost predicate TimersAgree(e: State, fired: set<nat>, birth: map<TransactionKey, nat>, s: Ideal) {
    && (forall k :: k in e.txns ==> k in birth && birth[k] <= |e.spawned|)
    && (forall i :: i in fired ==> i < |e.spawned|)
    && (forall i {:trigger Agrees(e, fired, s, i)} ::
          0 <= i < |e.spawned| && e.spawned[i].key in e.txns && birth[e.spawned[i].key] <= i ==> Agrees(e, fired, s, i))
    && (forall t {:trigger IsOwn(e, birth, s, t)} :: t in s.armed ==> IsOwn(e, birth, s, t))
  }

  ghost predicate Sim(e: State, fired: set<nat>, birth: map<TransactionKey, nat>, s: Ideal) {
    SameSurface(e, s) && TimersAgree(e, fired, birth, s)
  }

  lemma ArmSim(e: State, fired: set<nat>, birth: map<TransactionKey, nat>, s: Ideal, key: TransactionKey, id: TimerId,
          after: nat)
    requires Sim(e, fired, birth, s)
    ensures Sim(ArmTimer(e, key, id, after), fired, birth, s.ApplyOne(key, StartTimer(id, after)))
  {
    if key in e.txns {
      var e', s' := ArmTimer(e, key, id, after), s.ApplyOne(key, StartTimer(id, after));
      forall i | 0 <= i < |e'.spawned| && e'.spawned[i].key in e'.txns && birth[e'.spawned[i].key] <= i
        ensures Agrees(e', fired, s', i)
      {
        if i < |e.spawned| {
          assert Agrees(e, fired, s, i);
        }
      }
      forall t | t in s'.armed ensures IsOwn(e', birth, s', t) {
        assert IsOwn(e, birth, s, t);
      }
    }
  }

  lemma ArmedWasArmed(e: State, fired: set<nat>, birth: map<TransactionKey, nat>, s: Ideal, t: Timer)
    requires Sim(e, fired, birth, s)
    ensures t in s.armed ==> t.key in e.txns && t.id in e.txns[t.key].generations
  {
    assert IsOwn(e, birth, s, t);
    if t in s.armed {
      assert Agrees(e, fired, s, s.armed[t]);
    }
  }

  lemma StopSim(e: State, fired: set<nat>, birth: map<TransactionKey, nat>, s: Ideal, key: TransactionKey, id: TimerId)
    requires Sim(e, fired, birth, s)
    ensures Sim(StopTimerOf(e, key, id), fired, birth, s.ApplyOne(key, StopTimer(id)))
  {
    var e', s' := StopTimerOf(e, key, id), s.ApplyOne(key, StopTimer(id));
    var t := Timer(key, id);
    if key !in e.txns || id !in e.txns[key].generations {
      ArmedWasArmed(e, fired, birth, s, t);
      assert s'.armed == s.armed;
      assert s' == s;
    } else {
      assert SameSurface(e', s');
      forall i | 0 <= i < |e'.spawned| && e'.spawned[i].key in e'.txns && birth[e'.spawned[i].key] <= i
        ensures Agrees(e', fired, s', i)
      {
        assert Agrees(e, fired, s, i);
      }
      forall t | t in s'.armed ensures IsOwn(e', birth, s', t) {
        assert IsOwn(e, birth, s, t);
      }
    }
  }

  lemma ForgetSim(e: State, fired: set<nat>, birth: map<TransactionKey, nat>, s: Ideal, key: TransactionKey)
    requires Sim(e, fired, birth, s)
    ensures Sim(e.(txns := e.txns - {key}), fired, birth, s.Forget(key))
  {
    var e', s' := e.(txns := e.txns - {key}), s.Forget(key);
    forall i | 0 <= i < |e'.spawned| && e'.spawned[i].key in e'.txns && birth[e'.spawned[i].key] <= i
      ensures Agrees(e', fired, s', i)
    {
      assert Agrees(e, fired, s, i);
    }
    forall t | t in s'.armed ensures IsOwn(e', birth, s', t) {
      assert IsOwn(e, birth, s, t);
    }
  }

  /** Sending and publishing leave every timer as it is. */
  lemma OutputSim(e: State, fired: set<nat>, birth: map<TransactionKey, nat>, s: Ideal, e': State, s': Ideal)
    requires Sim(e, fired, birth, s)
    requires e'.timers == e.timers && e'.rel == e.rel && e'.txns == e.txns && e'.spawned == e.spawned
    requires s' == s.(published := e'.published, wire := e'.wire)
    ensures Sim(e', fired, birth, s')
  {
    forall i | 0 <= i < |e'.spawned| && e'.spawned[i].key in e'.txns && birth[e'.spawned[i].key] <= i
      ensures Agrees(e', fired, s', i)
    {
      assert Agrees(e, fired, s, i);
    }
    forall t | t in s'.armed ensures IsOwn(e', birth, s', t) {
      assert IsOwn(e, birth, s, t);
    }
  }

  lemma ApplyOneSim(e: State, fired: set<nat>, birth: map<TransactionKey, nat>, s: Ideal, key: TransactionKey,
          action: TxAction)
    requires Sim(e, fired, birth, s)
    ensures Sim(ApplyOne(e, key, action), fired, birth, s.ApplyOne(key, action))
  {
    match action {
      case StartTimer(id, after) => ArmSim(e, fired, birth, s, key, id, after);
      case StopTimer(id) => StopSim(e, fired, birth, s, key, id);
      case Terminated =>
        ForgetSim(e, fired, birth, s, key);
        OutputSim(e.(txns := e.txns - {key}), fired, birth, s.Forget(key), ApplyOne(e, key, action),
            s.ApplyOne(key, action));
      case Send(_) =>
        assert key in e.txns ==> s.txns[key] == IdealEntry(e.txns[key].tx, e.txns[key].peer);
        OutputSim(e, fired, birth, s, ApplyOne(e, key, action), s.ApplyOne(key, action));
      case DeliverRequest(_) =>
        assert key in e.txns ==> s.txns[key] == IdealEntry(e.txns[key].tx, e.txns[key].peer);
        OutputSim(e, fired, birth, s, ApplyOne(e, key, action), s.ApplyOne(key, action));
      case DeliverResponse(_) => OutputSim(e, fired, birth, s, ApplyOne(e, key, action), s.ApplyOne(key, action));
      case TimedOut => OutputSim(e, fired, birth, s, ApplyOne(e, key, action), s.ApplyOne(key, action));
    }
  }

  /** The two engines stay in step through any list of actions. */
  lemma {:induction false} ApplySim(e: State, fired: set<nat>, birth: map<TransactionKey, nat>, s: Ideal,
          key: TransactionKey, actions: seq<TxAction>)
    requires Sim(e, fired, birth, s)
    ensures Sim(Apply(e, key, actions), fired, birth, s.Apply(key, actions))
    decreases |actions|
  {
    if actions == [] {
    } else {
      ApplyOneSim(e, fired, birth, s, key, actions[0]);
      ApplySim(ApplyOne(e, key, actions[0]), fired, birth, s.ApplyOne(key, actions[0]), key, actions[1..]);
    }
  }

  // ---- Whole steps and whole runs ----

  ghost predicate InStep(w: World, s: Ideal) {
    Tidy(w) && Sim(w.engine, w.fired, w.birth, s)
  }

  /**
   A fire reaches its machine in the real engine exactly when it reaches it in the ideal
   one, that is when it is the latest arming of its timer and nothing has stopped it since,
   or when it is an impostor.
   */
  lemma HeardExactly(w: World, s: Ideal, i: nat)
    requires InStep(w, s) && CanFire(w, i)
    ensures Heard(w.engine, w.engine.spawned[i]) <==> s.Hears(i) || Impostor(w, i)
    ensures !(s.Hears(i) && Impostor(w, i))
  {
    var sl := w.engine.spawned[i];
    var t := Timer(sl.key, sl.id);
    assert IsOwn(w.engine, w.birth, s, t);
    if sl.key in w.engine.txns && w.birth[sl.key] <= i {
      assert Agrees(w.engine, w.fired, s, i);
    }
  }

  lemma MoveSim(e: State, fired: set<nat>, birth: map<TransactionKey, nat>, s: Ideal, key: TransactionKey,
          step: Step<TxState>)
    requires Sim(e, fired, birth, s) && key in e.txns
    ensures Sim(Advance(e, key, step), fired, birth, s.Move(key, step))
  {
    var e' := e.(txns := e.txns[key := e.txns[key].(tx := step.next)]);
    var s' := s.(txns := s.txns[key := s.txns[key].(tx := step.next)]);
    forall i | 0 <= i < |e'.spawned| && e'.spawned[i].key in e'.txns && birth[e'.spawned[i].key] <= i
      ensures Agrees(e', fired, s', i)
    {
      assert Agrees(e, fired, s, i);
    }
    forall t | t in s'.armed ensures IsOwn(e', birth, s', t) {
      assert IsOwn(e, birth, s, t);
    }
    ApplySim(e', fired, birth, s', key, step.actions);
  }

  lemma StartSim(e: State, fired: set<nat>, birth: map<TransactionKey, nat>, s: Ideal, key: TransactionKey, peer: Addr,
          step: Step<TxState>)
    requires Sim(e, fired, birth, s)
    ensures Sim(Open(e, key, peer, step), fired, birth[key := |e.spawned|], s.Start(key, peer, step))
  {
    var birth' := birth[key := |e.spawned|];
    var e' := e.(txns := e.txns[key := EntryState(step.next, peer, map[])]);
    var cleared := s.Forget(key);
    var s' := cleared.(txns := cleared.txns[key := IdealEntry(step.next, peer)]);
    forall i | 0 <= i < |e'.spawned| && e'.spawned[i].key in e'.txns && birth'[e'.spawned[i].key] <= i
      ensures Agrees(e', fired, s', i)
    {
      assert Agrees(e, fired, s, i);
    }
    forall t | t in s'.armed ensures IsOwn(e', birth', s', t) {
      assert IsOwn(e, birth, s, t);
    }
    ApplySim(e', fired, birth', s', key, step.actions);
  }

  /** A spent sleeper is no longer armed; for an unheard one that was already so. */
  lemma SpendSim(w: World, s: Ideal, i: nat)
    requires InStep(w, s) && CanFire(w, i) && !Impostor(w, i)
    ensures
      var sl := w.engine.spawned[i];
      Sim(w.engine, w.fired + {i}, w.birth,
          if s.Hears(i) then s.(armed := s.armed - {Timer(sl.key, sl.id)}) else s)
  {
    HeardExactly(w, s, i);
    var e, sl := w.engine, w.engine.spawned[i];
    var s' := if s.Hears(i) then s.(armed := s.armed - {Timer(sl.key, sl.id)}) else s;
    forall j | 0 <= j < |e.spawned| && e.spawned[j].key in e.txns && w.birth[e.spawned[j].key] <= j
      ensures Agrees(e, w.fired + {i}, s', j)
    {
      assert Agrees(e, w.fired, s, j);
      assert IsOwn(e, w.birth, s, Timer(e.spawned[j].key, e.spawned[j].id));
    }
    forall t | t in s'.armed ensures IsOwn(e, w.birth, s', t) {
      assert IsOwn(e, w.birth, s, t);
    }
  }

  lemma FireSim(w: World, s: Ideal, i: nat)
    requires InStep(w, s) && CanFire(w, i) && !Impostor(w, i)
    ensures Sim(StepEngine(w, Fire(i)), w.fired + {i}, w.birth, s.OnFire(i))
  {
    HeardExactly(w, s, i);
    SpendSim(w, s, i);
    if s.Hears(i) {
      var t := s.sleepers[i];
      MoveSim(w.engine, w.fired + {i}, w.birth, s.(armed := s.armed - {t}), t.key,
          w.engine.txns[t.key].tx.OnTimer(t.id));
    }
  }

  lemma RequestSim(e: State, fired: set<nat>, birth: map<TransactionKey, nat>, s: Ideal, req: Request, src: Addr)
    requires Sim(e, fired, birth, s)
    ensures
      var entered := Opens(e, Inbound(RequestMessage(req), src));
      Sim(OnRequest(e, req, src), fired, if entered.Some? then birth[entered.value := |e.spawned|] else birth,
          s.Step(Inbound(RequestMessage(req), src)))
  {
    match RequestKey(req)
    case None =>
    case Some(key) =>
      if key in e.txns {
        assert s.txns[key] == IdealEntry(e.txns[key].tx, e.txns[key].peer);
        MoveSim(e, fired, birth, s, key, e.txns[key].tx.OnRequest(req));
      } else if req.verb == Ack {
        var e' := EngineModel.Publish(e, UnmatchedRequest(req, src));
        OutputSim(e, fired, birth, s, e', s.(published := e'.published, wire := e'.wire));
      } else {
        StartSim(e, fired, birth, s, key, src, StartServerTx(req, e.timers, e.rel));
      }
  }

  lemma ResponseSim(e: State, fired: set<nat>, birth: map<TransactionKey, nat>, s: Ideal, resp: Response, src: Addr)
    requires Sim(e, fired, birth, s)
    ensures Sim(OnResponse(e, resp), fired, birth, s.Step(Inbound(ResponseMessage(resp), src)))
  {
    match ResponseKey(resp)
    case None =>
    case Some(key) =>
      if key in e.txns {
        assert s.txns[key] == IdealEntry(e.txns[key].tx, e.txns[key].peer);
        MoveSim(e, fired, birth, s, key, e.txns[key].tx.OnResponse(resp));
      }
  }

  lemma CommandSim(e: State, fired: set<nat>, birth: map<TransactionKey, nat>, s: Ideal, cmd: Command)
    requires Sim(e, fired, birth, s)
    ensures
      var entered := Opens(e, Issue(cmd));
      Sim(OnCommand(e, cmd), fired, if entered.Some? then birth[entered.value := |e.spawned|]
          else birth, s.Step(Issue(cmd)))
  {
    match cmd
    case StartClient(req, peer) =>
      var key := RequestKey(req);
      if key.Some? {
        StartSim(e, fired, birth, s, key.value, peer, StartClientTx(req, e.timers, e.rel));
      }
    case SendResponse(key, resp) =>
      if key in e.txns {
        assert s.txns[key] == IdealEntry(e.txns[key].tx, e.txns[key].peer);
        MoveSim(e, fired, birth, s, key, e.txns[key].tx.OnUserResponse(resp));
      }
    case SendOutOfDialog(msg, peer) =>
      var e' := e.(wire := e.wire + [Packet(msg, peer)]);
      OutputSim(e, fired, birth, s, e', s.(published := e'.published, wire := e'.wire));
  }

  lemma QuietSim(w: World, s: Ideal, input: Input)
    requires InStep(w, s) && !input.Fire?
    ensures Sim(StepEngine(w, input), w.fired, Next(w, input).birth, s.Step(input))
  {
    match input
    case Inbound(RequestMessage(req), src) => RequestSim(w.engine, w.fired, w.birth, s, req, src);
    case Inbound(ResponseMessage(resp), src) => ResponseSim(w.engine, w.fired, w.birth, s, resp, src);
    case Issue(cmd) => CommandSim(w.engine, w.fired, w.birth, s, cmd);
    case Tick(_) =>
  }

  lemma StepSim(w: World, s: Ideal, input: Input)
    requires InStep(w, s)
    requires input.Fire? ==> CanFire(w, input.sleeper) && !Impostor(w, input.sleeper)
    ensures InStep(Next(w, input), s.Step(input))
  {
    TidyStep(w, input);
    if input.Fire? {
      FireSim(w, s, input.sleeper);
    } else {
      QuietSim(w, s, input);
    }
  }

  lemma DisabledSim(w: World, s: Ideal, input: Input)
    requires InStep(w, s) && input.Fire? && !CanFire(w, input.sleeper)
    ensures InStep(Next(w, input), s)
  {
    TidyStep(w, input);
  }

  /**
   The refinement: over every run without an impostor's fire, the engine with generation
   counters and the engine with cancellable timers are in the same machine states, and have
   published and sent the same things.
   */
  lemma {:induction false} GenerationsRefineCancellation(w: World, s: Ideal, inputs: seq<Input>)
    requires InStep(w, s) && Genuine(w, inputs)
    ensures InStep(Exec(w, inputs), IdealExec(s, w, inputs))
    decreases |inputs|
  {
    if inputs == [] {
    } else {
      if inputs[0].Fire? && !CanFire(w, inputs[0].sleeper) {
        DisabledSim(w, s, inputs[0]);
        GenerationsRefineCancellation(Next(w, inputs[0]), s, inputs[1..]);
      } else {
        StepSim(w, s, inputs[0]);
        GenerationsRefineCancellation(Next(w, inputs[0]), s.Step(inputs[0]), inputs[1..]);
      }
    }
  }

  lemma EngineRefinesIdeal(timers: Timers, rel: Reliability, inputs: seq<Input>)
    requires Genuine(Initially(timers, rel), inputs)
    ensures
      var engine := Exec(Initially(timers, rel), inputs).engine;
      var ideal := IdealExec(IdealInitially(timers, rel), Initially(timers, rel), inputs);
      && engine.published == ideal.published && engine.wire == ideal.wire
      && engine.txns.Keys == ideal.txns.Keys
      && (forall k :: k in engine.txns ==> engine.txns[k].tx == ideal.txns[k].tx)
  {
    GenerationsRefineCancellation(Initially(timers, rel), IdealInitially(timers, rel), inputs);
  }

  // ---- When runs are free of impostors ----

  /** No transaction is opened with a key that was in use before. */
  predicate FreshKeys(w: World, inputs: seq<Input>)
    decreases |inputs|
  {
    inputs == [] ||
    (var entered := Opens(w.engine, inputs[0]);
     (entered.Some? ==> entered.value !in w.birth) && FreshKeys(Next(w, inputs[0]), inputs[1..]))
  }

  /** Every sleeper was spawned by the only owner its key has had. */
  ghost predicate OneOwner(w: World) {
    && Tidy(w)
    && (forall i :: 0 <= i < |w.engine.spawned| ==>
          w.engine.spawned[i].key in w.birth && w.birth[w.engine.spawned[i].key] <= i)
    && (forall k :: k in w.birth ==> w.birth[k] <= |w.engine.spawned|)
  }

  lemma OneOwnerStep(w: World, input: Input)
    requires OneOwner(w)
    requires var entered := Opens(w.engine, input); entered.Some? ==> entered.value !in w.birth
    ensures OneOwner(Next(w, input))
  {
    TidyStep(w, input);
    StepByEffect(w, input);
    var e := w.engine;
    match EffectOf(w, input) {
      case Moves(key, step) =>
        ApplySpawnsFor(e.(txns := e.txns[key := e.txns[key].(tx := step.next)]), key, step.actions);
      case Starts(key, peer, step) =>
        ApplySpawnsFor(e.(txns := e.txns[key := EntryState(step.next, peer, map[])]), key, step.actions);
      case Idle(_) =>
    }
  }

  /** A run whose keys are all fresh has no impostor, so it refines the ideal engine. */
  lemma {:induction false} FreshKeysAreGenuine(w: World, inputs: seq<Input>)
    requires OneOwner(w) && FreshKeys(w, inputs)
    ensures Genuine(w, inputs)
    decreases |inputs|
  {
    if inputs == [] {
    } else {
      OneOwnerStep(w, inputs[0]);
      FreshKeysAreGenuine(Next(w, inputs[0]), inputs[1..]);
    }
  }

  /** A run, and the world it leads to from the empty engine over an unreliable transport. */
  ghost function After(timers: Timers, inputs: seq<Input>): World {
    Exec(Initially(timers, Unreliable), inputs)
  }

  ghost predicate Run(timers: Timers, inputs: seq<Input>, w: World) {
    && w == Exec(Initially(timers, Unreliable), inputs)
    && Tidy(w) && w.engine.timers == timers && w.engine.rel == Unreliable
  }

  ghost function Proceeds(timers: Timers, src: Addr): EntryState {
    EntryState(ServerInvite(SI.Machine(SI.Proceeding, timers, Unreliable, None, None, timers.t1)), src, map[])
  }

  /** An INVITE with no transaction opens one. */
  lemma InviteOpens(timers: Timers, inputs: seq<Input>, w: World, invite: Request, src: Addr)
    returns (inputs': seq<Input>)
    requires Run(timers, inputs, w)
    requires invite.verb == Invite && RequestKey(invite).Some? && RequestKey(invite).value !in w.engine.txns
    ensures
      var w' := After(timers, inputs');
      var key := RequestKey(invite).value;
      && Run(timers, inputs', w')
      && w'.now == w.now && w'.fired == w.fired && w'.due == w.due && w'.engine.spawned == w.engine.spawned
      && w'.engine.txns == w.engine.txns[key := Proceeds(timers, src)]
      && key in w'.birth && w'.birth[key] == |w.engine.spawned|
  {
    hide Sip.RequestKey;
    var key, input := RequestKey(invite).value, Inbound(RequestMessage(invite), src);
    inputs' := inputs + [input];
    var w' := Next(w, input);
    ExecThen(Initially(timers, Unreliable), inputs, input);
    TidyStep(w, input);
    var e := w.engine.(txns := w.engine.txns[key := Proceeds(timers, src)]);
    ApplyShort(e, key, DeliverRequest(invite), TimedOut, TimedOut);
    assert w'.due == w.due;
  }

  /** The sleepers spawned by a step, by their due times. */
  ghost predicate Later(w: World, w': World, more: seq<nat>) {
    && |w'.due| == |w.due| + |more|
    && (forall i :: 0 <= i < |w.due| ==> w'.due[i] == w.due[i])
    && (forall i :: 0 <= i < |more| ==> w'.due[|w.due| + i] == more[i])
  }

  ghost predicate AwaitsAck(entry: EntryState, timers: Timers) {
    && entry.tx.ServerInvite? && entry.tx.si.phase == SI.Completed && entry.tx.si.rel == Unreliable
    && entry.tx.si.timers == timers
    && entry.generations == map[G := 1, H := 1]
  }

  lemma RefusalOnEngine(e: State, key: TransactionKey, refusal: Response)
    requires key in e.txns && refusal.status >= 300
    requires e.txns[key].tx.ServerInvite? && e.txns[key].generations == map[]
    requires var m := e.txns[key].tx.si; m.phase == SI.Proceeding && m.rel == Unreliable
    ensures
      var m, e' := e.txns[key].tx.si, OnCommand(e, SendResponse(key, refusal));
      && e'.timers == e.timers && e'.rel == e.rel
      && e'.spawned == e.spawned + [Sleeper(key, G, 1, m.timers.t1), Sleeper(key, H, 1, m.timers.Timeout())]
      && key in e'.txns && AwaitsAck(e'.txns[key], m.timers)
  {
    var m := e.txns[key].tx.si;
    var step := m.SendResponse(refusal);
    var g, h := StartTimer(G, m.timers.t1), StartTimer(H, m.timers.Timeout());
    assert step.actions == [Send(ResponseMessage(refusal)), g, h];
    var e0 := e.(txns := e.txns[key := e.txns[key].(tx := ServerInvite(step.next))]);
    ApplyShort(e0, key, Send(ResponseMessage(refusal)), g, h);
    var e1 := ApplyOne(e0, key, Send(ResponseMessage(refusal)));
    var e2 := ArmTimer(e1, key, G, m.timers.t1);
    assert e2.txns[key].generations == map[G := 1];
    var e3 := ArmTimer(e2, key, H, m.timers.Timeout());
    assert e3.txns[key].generations == map[G := 1, H := 1];
  }

  /** Refusing an INVITE arms Timers G and H. */
  lemma RefusalArms(timers: Timers, inputs: seq<Input>, w: World, key: TransactionKey, refusal: Response, src: Addr)
    returns (inputs': seq<Input>)
    requires Run(timers, inputs, w)
    requires key in w.engine.txns && w.engine.txns[key] == Proceeds(timers, src) && refusal.status >= 300
    ensures
      var w' := After(timers, inputs');
      && Run(timers, inputs', w')
      && w'.now == w.now && w'.fired == w.fired && w'.birth == w.birth
      && w'.engine.spawned == w.engine.spawned + [Sleeper(key, G, 1, timers.t1), Sleeper(key, H, 1, timers.Timeout())]
      && Later(w, w', [w.now + timers.t1, w.now + timers.Timeout()])
      && key in w'.engine.txns && AwaitsAck(w'.engine.txns[key], timers)
  {
    hide EngineRuns.Exec, EngineRuns.Since, EngineModel.OnCommand;
    var input := Issue(SendResponse(key, refusal));
    inputs' := inputs + [input];
    var w' := Next(w, input);
    ExecThen(Initially(timers, Unreliable), inputs, input);
    RefusalOnEngine(w.engine, key, refusal);
    NextFrom(w, input, w'.engine);
  }

  lemma RunBegins(timers: Timers)
    ensures Run(timers, [], Initially(timers, Unreliable))
  {
  }

  lemma DueAfter(w: World, w': World, more: seq<nat>)
    requires Later(w, w', more)
    ensures w'.due == w.due + more
  {
  }

  ghost predicate Soaks(entry: EntryState) {
    && entry.tx.ServerInvite? && entry.tx.si.phase == SI.Confirmed
    && entry.generations == map[G := 2, H := 2, I := 1]
  }

  lemma AckOnEngine(timers: Timers, e: State, ack: Request, src: Addr)
    requires ack.verb == Ack && RequestKey(ack).Some? && RequestKey(ack).value in e.txns
    requires AwaitsAck(e.txns[RequestKey(ack).value], timers)
    ensures
      var key, e' := RequestKey(ack).value, OnRequest(e, ack, src);
      && e'.timers == e.timers && e'.rel == e.rel
      && e'.spawned == e.spawned + [Sleeper(key, I, 1, timers.t4)]
      && key in e'.txns && Soaks(e'.txns[key])
  {
    var key := RequestKey(ack).value;
    var m := e.txns[key].tx.si;
    var e0 := e.(txns := e.txns[key := e.txns[key].(tx := ServerInvite(m.(phase := SI.Confirmed)))]);
    ApplyShort(e0, key, StopTimer(G), StopTimer(H), StartTimer(I, m.timers.t4));
    var e1 := StopTimerOf(e0, key, G);
    var e2 := StopTimerOf(e1, key, H);
    assert e2.txns[key].generations == map[G := 2, H := 2];
    var e3 := ArmTimer(e2, key, I, m.timers.t4);
    assert e3.txns[key].generations == map[G := 2, H := 2, I := 1];
  }

  /** The ACK stops Timers G and H and arms Timer I. */
  lemma AckArms(timers: Timers, inputs: seq<Input>, w: World, ack: Request, src: Addr)
    returns (inputs': seq<Input>)
    requires Run(timers, inputs, w)
    requires ack.verb == Ack && RequestKey(ack).Some? && RequestKey(ack).value in w.engine.txns
    requires AwaitsAck(w.engine.txns[RequestKey(ack).value], timers)
    ensures
      var w' := After(timers, inputs');
      && Run(timers, inputs', w')
      && w'.now == w.now && w'.fired == w.fired && w'.birth == w.birth
      && w'.engine.spawned == w.engine.spawned + [Sleeper(RequestKey(ack).value, I, 1, timers.t4)]
      && Later(w, w', [w.now + timers.t4])
      && RequestKey(ack).value in w'.engine.txns && Soaks(w'.engine.txns[RequestKey(ack).value])
  {
    hide EngineRuns.Exec, EngineRuns.Since, EngineModel.OnRequest;
    var input := Inbound(RequestMessage(ack), src);
    inputs' := inputs + [input];
    var w' := Next(w, input);
    ExecThen(Initially(timers, Unreliable), inputs, input);
    AckOnEngine(timers, w.engine, ack, src);
    NextFrom(w, input, w'.engine);
  }

  lemma TimerIOnEngine(e: State, key: TransactionKey, fire: Sleeper)
    requires key in e.txns && Soaks(e.txns[key])
    requires fire.key == key && fire.id == I && fire.generation == 1
    ensures var e' := OnTimerFire(e, fire);
            e'.timers == e.timers && e'.rel == e.rel && e'.spawned == e.spawned && key !in e'.txns
  {
    var step := e.txns[key].tx.OnTimer(I);
    ApplyShort(e.(txns := e.txns[key := e.txns[key].(tx := step.next)]), key, Transaction.Terminated, TimedOut,
        TimedOut);
  }

  /** Timer I ends the transaction. */
  lemma TimerIEnds(timers: Timers, inputs: seq<Input>, w: World, key: TransactionKey, i: nat)
    returns (inputs': seq<Input>)
    requires Run(timers, inputs, w) && CanFire(w, i) && key in w.engine.txns && Soaks(w.engine.txns[key])
    requires w.engine.spawned[i].key == key && w.engine.spawned[i].id == I && w.engine.spawned[i].generation == 1
    ensures
      var w' := After(timers, inputs');
      && Run(timers, inputs', w')
      && w'.now == w.now && w'.fired == w.fired + {i} && w'.due == w.due
      && w'.engine.spawned == w.engine.spawned && key !in w'.engine.txns
  {
    var input := Fire(i);
    inputs' := inputs + [input];
    var w' := Next(w, input);
    ExecThen(Initially(timers, Unreliable), inputs, input);
    TimerIOnEngine(w.engine, key, w.engine.spawned[i]);
    NextFrom(w, input, w'.engine);
  }

  lemma TimePasses(timers: Timers, inputs: seq<Input>, w: World, elapsed: nat) returns (inputs': seq<Input>)
    requires Run(timers, inputs, w)
    ensures
      var w' := After(timers, inputs');
      && Run(timers, inputs', w')
      && w'.engine == w.engine && w'.fired == w.fired && w'.birth == w.birth && w'.due == w.due
      && w'.now == w.now + elapsed
  {
    var input := Tick(elapsed);
    inputs' := inputs + [input];
    var w' := Next(w, input);
    ExecThen(Initially(timers, Unreliable), inputs, input);
    TidyStep(w, input);
  }

  lemma SecondOwner(timers: Timers, inputs: seq<Input>, w: World, invite: Request, refusal: Response, src: Addr)
    returns (inputs': seq<Input>)
    requires Run(timers, inputs, w) && timers.t4 <= timers.Timeout()
    requires invite.verb == Invite && RequestKey(invite).Some? && refusal.status >= 300
    requires w.fired == {} && w.now == 0
    requires var key := RequestKey(invite).value;
      && w.engine.spawned
          == [Sleeper(key, G, 1, timers.t1), Sleeper(key, H, 1, timers.Timeout()), Sleeper(key, I, 1, timers.t4)]
      && w.due == [timers.t1, timers.Timeout(), timers.t4]
      && key in w.engine.txns && Soaks(w.engine.txns[key])
    ensures
      var w' := After(timers, inputs');
      var key := RequestKey(invite).value;
      && Run(timers, inputs', w')
      && |w'.engine.spawned| == 5 && |w'.due| == 5 && key in w'.birth && w'.birth[key] == 3
      && w'.engine.spawned[1] == Sleeper(key, H, 1, timers.Timeout()) && w'.due[1] == w'.now && 1 !in w'.fired
      && w'.engine.spawned[4].id == H && w'.due[4] == w'.now + timers.t4
      && key in w'.engine.txns && AwaitsAck(w'.engine.txns[key], timers)
  {
    hide EngineRuns.Exec, After;
    var key := RequestKey(invite).value;
    inputs' := TimePasses(timers, inputs, w, timers.t4);
    inputs' := TimerIEnds(timers, inputs', After(timers, inputs'), key, 2);
    inputs' := InviteOpens(timers, inputs', After(timers, inputs'), invite, src);
    var w1 := After(timers, inputs');
    inputs' := RefusalArms(timers, inputs', w1, key, refusal, src);
    var w2 := After(timers, inputs');
    DueAfter(w1, w2, [w1.now + timers.t1, w1.now + timers.Timeout()]);
    inputs' := TimePasses(timers, inputs', w2, timers.Timeout() - timers.t4);
  }

  lemma FirstOwner(timers: Timers, invite: Request, ack: Request, refusal: Response, src: Addr)
    returns (inputs: seq<Input>)
    requires invite.verb == Invite && RequestKey(invite).Some? && refusal.status >= 300
    requires ack.verb == Ack && RequestKey(ack) == RequestKey(invite)
    ensures
      var w := After(timers, inputs);
      var key := RequestKey(invite).value;
      && Run(timers, inputs, w)
      && w.fired == {} && w.now == 0
      && w.engine.spawned
          == [Sleeper(key, G, 1, timers.t1), Sleeper(key, H, 1, timers.Timeout()), Sleeper(key, I, 1, timers.t4)]
      && w.due == [timers.t1, timers.Timeout(), timers.t4]
      && key in w.engine.txns && Soaks(w.engine.txns[key])
  {
    hide EngineRuns.Exec, After;
    RunBegins(timers);
    inputs := InviteOpens(timers, [], Initially(timers, Unreliable), invite, src);
    var w1 := After(timers, inputs);
    inputs := RefusalArms(timers, inputs, w1, RequestKey(invite).value, refusal, src);
    var w2 := After(timers, inputs);
    DueAfter(w1, w2, [timers.t1, timers.Timeout()]);
    inputs := AckArms(timers, inputs, w2, ack, src);
    DueAfter(w2, After(timers, inputs), [timers.t4]);
  }

  lemma TimerHEnds(timers: Timers, w: World, key: TransactionKey, i: nat)
    requires CanFire(w, i) && key in w.engine.txns && AwaitsAck(w.engine.txns[key], timers)
    requires w.engine.spawned[i].key == key && w.engine.spawned[i].id == H && w.engine.spawned[i].generation == 1
    ensures key !in Next(w, Fire(i)).engine.txns
  {
    var step := w.engine.txns[key].tx.OnTimer(H);
    var e := w.engine.(txns := w.engine.txns[key := w.engine.txns[key].(tx := step.next)]);
    ApplyExtends(e, key, step.actions);
    assert step.actions[1] in step.actions;
  }

  /**
   Impostors are real. An INVITE is refused and its ACK ends the transaction; a late copy
   of the INVITE then opens a second transaction with the same key, which is refused too.
   Timer H of the first transaction comes due while the second waits for its ACK, bears
   the generation the second transaction's Timer H has, and is heard by it, T4 too early.
   */
  lemma OldTimerIsHeard(timers: Timers, invite: Request, ack: Request, refusal: Response, src: Addr)
    returns (inputs: seq<Input>)
    requires timers.t4 <= timers.Timeout()
    requires invite.verb == Invite && RequestKey(invite).Some?
    requires ack.verb == Ack && RequestKey(ack) == RequestKey(invite)
    requires refusal.status >= 300
    ensures
      var w := After(timers, inputs);
      && CanFire(w, 1) && Impostor(w, 1)
      && |w.engine.spawned| == 5 && w.engine.spawned[4].id == H && |w.due| == 5 && w.due[4] == w.now + timers.t4
      && RequestKey(invite).value in w.engine.txns && RequestKey(invite).value !in Next(w, Fire(1)).engine.txns
  {
    hide EngineRuns.Exec, After;
    var key := RequestKey(invite).value;
    inputs := FirstOwner(timers, invite, ack, refusal, src);
    inputs := SecondOwner(timers, inputs, After(timers, inputs), invite, refusal, src);
    TimerHEnds(timers, After(timers, inputs), key, 1);
  }
}
