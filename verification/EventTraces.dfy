/**
 What the user of the engine hears about one key. Over every run, the events of a client
 transaction are provisional responses, then one final response or one timeout, then its
 termination; those of a server transaction are its request, at most one timeout, then its
 termination. Nothing follows a termination until the key is opened again.
 */
module EventTraces {
  import opened Wrappers
  import opened Sip
  import opened Transaction
  import opened EngineModel
  import opened EngineRuns
  import opened TransactionExit
  import CI = ClientInviteTransaction
  import CN = ClientNonInviteTransaction
  import SI = ServerInviteTransaction
  import SN = ServerNonInviteTransaction

  /** Where the events of a key stand. `Garbled` is an order that must not occur. */
  datatype Trace = Silent | ClientOpen | ClientDone | ServerNew | ServerOpen | ServerTimedOut | Over | Garbled {
    function After(item: LogItem): Trace {
      match item
      case Born(_, true) => ClientOpen
      case Born(_, false) => if this in {Silent, Over} then ServerNew else Garbled
      case Published(event) =>
        match (this, event)
        case (ClientOpen, ResponseEvent(_, resp)) => if resp.status < 200 then ClientOpen else ClientDone
        case (ClientOpen, TimedOutEvent(_)) => ClientDone
        case (ClientDone, TerminatedEvent(_)) => Over
        case (ServerNew, IncomingRequest(_, _, _)) => ServerOpen
        case (ServerOpen, TimedOutEvent(_)) => ServerTimedOut
        case (ServerOpen, TerminatedEvent(_)) => Over
        case (ServerTimedOut, TerminatedEvent(_)) => Over
        case _ => Garbled
    }
  }

  /** Whether a log item is about a key; a request that matched nothing is about none. */
  predicate About(item: LogItem, key: TransactionKey) {
    match item
    case Born(k, _) => k == key
    case Published(UnmatchedRequest(_, _)) => false
    case Published(event) => event.key == key
  }

  /** The trace of a key, continued from `t` through some log items. */
  function Continue(t: Trace, key: TransactionKey, items: seq<LogItem>): Trace
    decreases |items|
  {
    if items == [] then t
    else Continue(if About(items[0], key) then t.After(items[0]) else t, key, items[1..])
  }

  lemma {:induction false} ContinueConcat(t: Trace, key: TransactionKey, a: seq<LogItem>, b: seq<LogItem>)
    ensures Continue(t, key, a + b) == Continue(Continue(t, key, a), key, b)
    decreases |a|
  {
    if a == [] {
      assert a + b == b;
    } else {
      assert (a + b)[1..] == a[1..] + b;
      ContinueConcat(if About(a[0], key) then t.After(a[0]) else t, key, a[1..], b);
    }
  }

  lemma {:induction false} ContinueElsewhere(t: Trace, key: TransactionKey, items: seq<LogItem>)
    requires forall i :: 0 <= i < |items| ==> !About(items[i], key)
    ensures Continue(t, key, items) == t
    decreases |items|
  {
    if items == [] {
    } else {
      ContinueElsewhere(t, key, items[1..]);
    }
  }

  // ---- The events of a list of actions ----

  function EventsOfOne(key: TransactionKey, peer: Addr, action: TxAction): seq<Event> {
    match action
    case DeliverResponse(resp) => [ResponseEvent(key, resp)]
    case DeliverRequest(req) => [IncomingRequest(key, req, peer)]
    case TimedOut => [TimedOutEvent(key)]
    case Terminated => [TerminatedEvent(key)]
    case _ => []
  }

  function EventsOf(key: TransactionKey, peer: Addr, actions: seq<TxAction>): seq<Event> {
    if actions == [] then [] else EventsOfOne(key, peer, actions[0]) + EventsOf(key, peer, actions[1..])
  }

  /** Termination comes last, if it comes. */
  predicate EndsLast(actions: seq<TxAction>) {
    forall j :: 0 <= j < |actions| && actions[j].Terminated? ==> j == |actions| - 1
  }

  lemma ApplyOnePublishes(e: State, key: TransactionKey, action: TxAction)
    requires key in e.txns
    ensures ApplyOne(e, key, action).published == e.published + EventsOfOne(key, e.txns[key].peer, action)
  {
  }

  lemma {:induction false} ApplyPublishes(e: State, key: TransactionKey, actions: seq<TxAction>)
    requires key in e.txns && EndsLast(actions)
    ensures Apply(e, key, actions).published == e.published + EventsOf(key, e.txns[key].peer, actions)
    decreases |actions|
  {
    if actions == [] {
    } else {
      hide ApplyOne, EventsOfOne;
      var e1 := ApplyOne(e, key, actions[0]);
      ApplyOnePublishes(e, key, actions[0]);
      if actions[0].Terminated? {
        assert actions[1..] == [];
        assert Apply(e1, key, actions[1..]) == e1;
        assert EventsOf(key, e.txns[key].peer, actions[1..]) == [];
      } else {
        ApplyOneExtends(e, key, actions[0]);
        hide Extends;
        ApplyPublishes(e1, key, actions[1..]);
      }
    }
  }

  function Items(events: seq<Event>): (r: seq<LogItem>)
    ensures |r| == |events| && forall i :: 0 <= i < |r| ==> r[i] == Published(events[i])
  {
    if events == [] then [] else [Published(events[0])] + Items(events[1..])
  }

  function HearOne(t: Trace, action: TxAction): Trace {
    match (t, action)
    case (ClientOpen, DeliverResponse(resp)) => if resp.status < 200 then ClientOpen else ClientDone
    case (ClientOpen, TimedOut) => ClientDone
    case (ClientDone, Terminated) => Over
    case (ServerNew, DeliverRequest(_)) => ServerOpen
    case (ServerOpen, TimedOut) => ServerTimedOut
    case (ServerOpen, Terminated) => Over
    case (ServerTimedOut, Terminated) => Over
    case (_, Send(_)) => t
    case (_, StartTimer(_, _)) => t
    case (_, StopTimer(_)) => t
    case _ => Garbled
  }

  // ---- What each machine's events do to its trace ----

  /** The trace of a transaction through the actions of one step. */
  function Hear(t: Trace, actions: seq<TxAction>): Trace
    decreases |actions|
  {
    if actions == [] then t else Hear(HearOne(t, actions[0]), actions[1..])
  }

  lemma ItemsConcat(a: seq<Event>, b: seq<Event>)
    ensures Items(a + b) == Items(a) + Items(b)
  {
  }

  lemma HearIsContinueOne(t: Trace, key: TransactionKey, peer: Addr, action: TxAction)
    ensures Continue(t, key, Items(EventsOfOne(key, peer, action))) == HearOne(t, action)
  {
    var items := Items(EventsOfOne(key, peer, action));
    if items != [] {
      assert items[1..] == [];
    }
  }

  lemma {:induction false} HearIsContinue(t: Trace, key: TransactionKey, peer: Addr, actions: seq<TxAction>)
    ensures Continue(t, key, Items(EventsOf(key, peer, actions))) == Hear(t, actions)
    decreases |actions|
  {
    if actions == [] {
    } else {
      var first := EventsOfOne(key, peer, actions[0]);
      var rest := EventsOf(key, peer, actions[1..]);
      assert EventsOf(key, peer, actions) == first + rest;
      assert Hear(t, actions) == Hear(HearOne(t, actions[0]), actions[1..]);
      hide Continue, HearOne, EventsOfOne, EventsOf, Hear, Items;
      HearIsContinueOne(t, key, peer, actions[0]);
      ItemsConcat(first, rest);
      ContinueConcat(t, key, Items(first), Items(rest));
      HearIsContinue(HearOne(t, actions[0]), key, peer, actions[1..]);
    }
  }

  function Standing(tx: TxState): Trace {
    match tx
    case ClientInvite(m) => if m.phase in {CI.Calling, CI.Proceeding} then ClientOpen else ClientDone
    case ClientNonInvite(m) => if m.phase in {CN.Trying, CN.Proceeding} then ClientOpen else ClientDone
    case ServerInvite(_) => ServerOpen
    case ServerNonInvite(_) => ServerOpen
  }

  /** The step's events take the trace where the machine goes. */
  ghost predicate Speaks(t: Trace, step: Step<TxState>) {
    && EndsLast(step.actions) && (HasEnded(step.next) <==> Transaction.Terminated in step.actions)
    && Hear(t, step.actions) == if HasEnded(step.next) then Over else Standing(step.next)
  }

  lemma HearFirst(t: Trace, actions: seq<TxAction>)
    requires actions != []
    ensures Hear(t, actions) == Hear(HearOne(t, actions[0]), actions[1..])
    ensures |actions| == 1 ==> Hear(t, actions) == HearOne(t, actions[0])
  {
  }

  /** What a step of at most four actions sounds like. */
  lemma Spell(t: Trace, actions: seq<TxAction>)
    ensures |actions| == 0 ==> Hear(t, actions) == t
    ensures |actions| == 1 ==> Hear(t, actions) == HearOne(t, actions[0])
    ensures |actions| == 2 ==> Hear(t, actions) == HearOne(HearOne(t, actions[0]), actions[1])
    ensures |actions| == 3 ==> Hear(t, actions) == HearOne(HearOne(HearOne(t, actions[0]), actions[1]), actions[2])
    ensures |actions| == 4 ==>
      Hear(t, actions) == HearOne(HearOne(HearOne(HearOne(t, actions[0]), actions[1]), actions[2]), actions[3])
  {
    if 0 < |actions| <= 4 {
      HearFirst(t, actions);
      if |actions| > 1 {
        var t1, rest := HearOne(t, actions[0]), actions[1..];
        HearFirst(t1, rest);
        if |rest| > 1 {
          var t2, rest2 := HearOne(t1, rest[0]), rest[1..];
          HearFirst(t2, rest2);
          if |rest2| > 1 {
            HearFirst(HearOne(t2, rest2[0]), rest2[1..]);
          }
        }
      }
    }
  }

  lemma InviteResponseSpeaks(m: CI.Machine, resp: Response)
    requires m.phase != CI.Ended
    ensures Speaks(Standing(ClientInvite(m)), ClientInvite(m).OnResponse(resp))
  {
    Spell(Standing(ClientInvite(m)), m.OnResponse(resp).actions);
    hide Hear;
  }

  lemma ResponseSpeaks(tx: TxState, resp: Response)
    requires !HasEnded(tx)
    ensures Speaks(Standing(tx), tx.OnResponse(resp))
  {
    Spell(Standing(tx), tx.OnResponse(resp).actions);
    hide Hear;
    match tx
    case ClientInvite(m) => InviteResponseSpeaks(m, resp);
    case _ =>
  }

  lemma RequestSpeaks(tx: TxState, req: Request)
    requires !HasEnded(tx)
    ensures Speaks(Standing(tx), tx.OnRequest(req))
  {
    Spell(Standing(tx), tx.OnRequest(req).actions);
    hide Hear;
  }

  lemma UserSpeaks(tx: TxState, resp: Response)
    requires !HasEnded(tx)
    ensures Speaks(Standing(tx), tx.OnUserResponse(resp))
  {
    Spell(Standing(tx), tx.OnUserResponse(resp).actions);
    hide Hear;
  }

  lemma InviteTimerSpeaks(m: CI.Machine, id: TimerId)
    requires m.phase != CI.Ended
    ensures Speaks(Standing(ClientInvite(m)), ClientInvite(m).OnTimer(id))
  {
    Spell(Standing(ClientInvite(m)), m.OnTimer(id).actions);
    hide Hear;
  }

  lemma ServerTimerSpeaks(m: SI.Machine, id: TimerId)
    requires m.phase != SI.Ended
    ensures Speaks(ServerOpen, ServerInvite(m).OnTimer(id))
  {
    Spell(ServerOpen, m.OnTimer(id).actions);
    hide Hear;
  }

  lemma TimerSpeaks(tx: TxState, id: TimerId)
    requires !HasEnded(tx)
    ensures Speaks(Standing(tx), tx.OnTimer(id))
  {
    Spell(Standing(tx), tx.OnTimer(id).actions);
    hide Hear;
    match tx
    case ClientInvite(m) => InviteTimerSpeaks(m, id);
    case ServerInvite(m) => ServerTimerSpeaks(m, id);
    case _ =>
  }

  lemma StartSpeaks(req: Request, timers: Timers, rel: Reliability)
    ensures Speaks(ClientOpen, StartClientTx(req, timers, rel)) && !HasEnded(StartClientTx(req, timers, rel).next)
    ensures Speaks(ServerNew, StartServerTx(req, timers, rel)) && !HasEnded(StartServerTx(req, timers, rel).next)
  {
    Spell(ClientOpen, StartClientTx(req, timers, rel).actions);
    Spell(ServerNew, StartServerTx(req, timers, rel).actions);
  }

  // ---- Whole runs ----

  function TraceOf(w: World, key: TransactionKey): Trace {
    Continue(Silent, key, w.log)
  }

  /** A key's trace stands where its transaction does; with no transaction it is silent or over. */
  ghost predicate InTune(w: World, key: TransactionKey) {
    if key in w.engine.txns
    then TraceOf(w, key) == Standing(w.engine.txns[key].tx) && !HasEnded(w.engine.txns[key].tx)
    else TraceOf(w, key) in {Silent, Over}
  }

  ghost predicate AllInTune(w: World) {
    forall key :: InTune(w, key)
  }

  lemma NewsOf(before: seq<Event>, after: seq<Event>, more: seq<Event>)
    requires after == before + more
    ensures News(|before|, after) == Items(more)
  {
  }

  lemma {:induction false} EventsAbout(key: TransactionKey, peer: Addr, actions: seq<TxAction>)
    ensures forall i :: 0 <= i < |EventsOf(key, peer, actions)| ==>
              var e := EventsOf(key, peer, actions)[i];
              !e.UnmatchedRequest? && e.key == key
  {
    if actions == [] {
    } else {
      EventsAbout(key, peer, actions[1..]);
    }
  }

  lemma OtherTraces(w: World, k: TransactionKey, key: TransactionKey, born: seq<LogItem>, peer: Addr,
          actions: seq<TxAction>)
    requires k != key && forall i :: 0 <= i < |born| ==> born[i].Born? && born[i].key == key
    ensures Continue(Silent, k, w.log + born + Items(EventsOf(key, peer, actions))) == TraceOf(w, k)
  {
    EventsAbout(key, peer, actions);
    var items := Items(EventsOf(key, peer, actions));
    ContinueConcat(Silent, k, w.log + born, items);
    ContinueConcat(Silent, k, w.log, born);
    ContinueElsewhere(TraceOf(w, k), k, born);
    ContinueElsewhere(TraceOf(w, k), k, items);
  }

  lemma MoveInTune(w: World, key: TransactionKey, step: Step<TxState>, w': World, k: TransactionKey)
    requires key in w.engine.txns && InTune(w, k) && InTune(w, key)
    requires Speaks(Standing(w.engine.txns[key].tx), step)
    requires w'.engine == Advance(w.engine, key, step)
    requires w'.log == w.log + News(|w.engine.published|, w'.engine.published)
    ensures InTune(w', k)
  {
    hide Continue, Hear, EventsOf, HasEnded, Standing, EngineRuns.News;
    var peer := w.engine.txns[key].peer;
    var e0 := w.engine.(txns := w.engine.txns[key := w.engine.txns[key].(tx := step.next)]);
    ApplyExtends(e0, key, step.actions);
    ApplyPublishes(e0, key, step.actions);
    hide EngineModel.Apply, Speaks, EngineRuns.Extends;
    var items := Items(EventsOf(key, peer, step.actions));
    NewsOf(w.engine.published, w'.engine.published, EventsOf(key, peer, step.actions));
    if k == key {
      ContinueConcat(Silent, key, w.log, items);
      HearIsContinue(TraceOf(w, key), key, peer, step.actions);
    } else {
      OtherTraces(w, k, key, [], peer, step.actions);
      assert w.log + [] + items == w.log + items;
    }
  }

  lemma StartInTune(w: World, key: TransactionKey, peer: Addr, step: Step<TxState>, client: bool, w': World,
          k: TransactionKey)
    requires InTune(w, k) && InTune(w, key) && (!client ==> key !in w.engine.txns)
    requires Speaks(if client then ClientOpen else ServerNew, step) && !HasEnded(step.next)
    requires w'.engine == Open(w.engine, key, peer, step)
    requires w'.log == w.log + [Born(key, client)] + News(|w.engine.published|, w'.engine.published)
    ensures InTune(w', k)
  {
    hide Hear, EventsOf, HasEnded, Standing, EngineRuns.News;
    var e0 := w.engine.(txns := w.engine.txns[key := EntryState(step.next, peer, map[])]);
    ApplyExtends(e0, key, step.actions);
    ApplyPublishes(e0, key, step.actions);
    var items := Items(EventsOf(key, peer, step.actions));
    NewsOf(w.engine.published, w'.engine.published, EventsOf(key, peer, step.actions));
    if k == key {
      var born := [Born(key, client)];
      ContinueConcat(Silent, key, w.log + born, items);
      ContinueConcat(Silent, key, w.log, born);
      assert born[1..] == [];
      HearIsContinue(TraceOf(w, key).After(Born(key, client)), key, peer, step.actions);
    } else {
      OtherTraces(w, k, key, [Born(key, client)], peer, step.actions);
    }
  }

  lemma IdleInTune(w: World, w': World, k: TransactionKey)
    requires InTune(w, k) && w'.engine.txns == w.engine.txns
    requires w'.log == w.log + News(|w.engine.published|, w'.engine.published)
    requires w'.engine.published == w.engine.published
             || exists req, src :: w'.engine.published == w.engine.published + [UnmatchedRequest(req, src)]
    ensures InTune(w', k)
  {
    ContinueConcat(Silent, k, w.log, News(|w.engine.published|, w'.engine.published));
    ContinueElsewhere(TraceOf(w, k), k, News(|w.engine.published|, w'.engine.published));
  }

  /** The step a transaction takes, whatever the input, is one its trace can follow. */
  lemma MoverSpeaks(w: World, input: Input, key: TransactionKey, step: Step<TxState>)
    requires EffectOf(w, input) == Moves(key, step) && key in w.engine.txns && !HasEnded(w.engine.txns[key].tx)
    ensures Speaks(Standing(w.engine.txns[key].tx), step)
  {
    var tx := w.engine.txns[key].tx;
    match input
    case Inbound(RequestMessage(req), _) => RequestSpeaks(tx, req);
    case Inbound(ResponseMessage(resp), _) => ResponseSpeaks(tx, resp);
    case Issue(SendResponse(_, resp)) => UserSpeaks(tx, resp);
    case Issue(_) =>
    case Fire(i) => TimerSpeaks(tx, w.engine.spawned[i].id);
    case Tick(_) =>
  }

  lemma StarterSpeaks(w: World, input: Input, key: TransactionKey, peer: Addr, step: Step<TxState>)
    requires EffectOf(w, input) == Starts(key, peer, step)
    ensures Speaks(if OpensClient(input) then ClientOpen else ServerNew, step) && !HasEnded(step.next)
  {
    match input
    case Inbound(RequestMessage(req), _) => StartSpeaks(req, w.engine.timers, w.engine.rel);
    case Issue(StartClient(req, _)) => StartSpeaks(req, w.engine.timers, w.engine.rel);
    case _ =>
  }

  lemma IdlePublishes(w: World, input: Input, after: State)
    requires EffectOf(w, input) == Idle(after)
    ensures after.published == w.engine.published
            || exists req, src :: after.published == w.engine.published + [UnmatchedRequest(req, src)]
  {
  }

  lemma StepInTune(w: World, input: Input)
    requires AllInTune(w)
    ensures AllInTune(Next(w, input))
  {
    StepByEffect(w, input);
    var w' := Next(w, input);
    match EffectOf(w, input)
    case Moves(key, step) =>
      assert w'.log == w.log + News(|w.engine.published|, w'.engine.published);
      assert InTune(w, key);
      MoverSpeaks(w, input, key, step);
      assert w'.engine == Advance(w.engine, key, step);
      hide EngineRuns.Next, EngineModel.Advance, Speaks, EngineRuns.EffectOf, EngineRuns.StepEngine, InTune;
      forall k ensures InTune(w', k) {
        assert InTune(w, k);
        MoveInTune(w, key, step, w', k);
      }
    case Starts(key, peer, step) =>
      assert w'.log == w.log + [Born(key, OpensClient(input))] + News(|w.engine.published|, w'.engine.published);
      StarterSpeaks(w, input, key, peer, step);
      assert w'.engine == Open(w.engine, key, peer, step);
      hide EngineRuns.Next, EngineModel.Open, Speaks, EngineRuns.EffectOf, EngineRuns.StepEngine, InTune;
      forall k ensures InTune(w', k) {
        assert InTune(w, k) && InTune(w, key);
        StartInTune(w, key, peer, step, OpensClient(input), w', k);
      }
    case Idle(after) =>
      assert w'.log == w.log + News(|w.engine.published|, w'.engine.published);
      IdlePublishes(w, input, after);
      hide EngineRuns.EffectOf, EngineRuns.StepEngine, InTune;
      forall k ensures InTune(w', k) {
        assert InTune(w, k);
        IdleInTune(w, w', k);
      }
  }

  lemma {:induction false} AlwaysInTune(w: World, inputs: seq<Input>)
    requires AllInTune(w)
    ensures AllInTune(Exec(w, inputs))
    decreases |inputs|
  {
    if inputs == [] {
    } else {
      StepInTune(w, inputs[0]);
      AlwaysInTune(Next(w, inputs[0]), inputs[1..]);
    }
  }

  /**
   Over every run and for every key, the events published are in order, and the key's
   transaction is in the table exactly between its opening and its termination.
   */
  lemma EventsInOrder(timers: Timers, rel: Reliability, inputs: seq<Input>, key: TransactionKey)
    ensures
      var w := Exec(Initially(timers, rel), inputs);
      && TraceOf(w, key) != Garbled
      && (key in w.engine.txns <==> TraceOf(w, key) !in {Silent, Over})
      && (key in w.engine.txns ==> TraceOf(w, key) == Standing(w.engine.txns[key].tx))
  {
    assert AllInTune(Initially(timers, rel));
    AlwaysInTune(Initially(timers, rel), inputs);
    assert InTune(Exec(Initially(timers, rel), inputs), key);
  }
}
