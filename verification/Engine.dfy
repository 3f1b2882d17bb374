/**
 The engine object: its table maps keys to entry objects, each holding a machine
 object that is updated in place. The fields `spawned`, `published` and `wire` record
 what the source hands to the runtime, the event channel and the transport.
 */
module TransactionEngine {
  import opened Wrappers
  import opened Sip
  import opened Transaction
  import opened EngineModel
  import CI = ClientInviteTransaction
  import CN = ClientNonInviteTransaction
  import SI = ServerInviteTransaction
  import SN = ServerNonInviteTransaction

  /** The machine object of an entry. */
  datatype Handle =
    | ClientInviteHandle(ci: CI.ClientInvite)
    | ClientNonInviteHandle(cn: CN.ClientNonInvite)
    | ServerInviteHandle(si: SI.ServerInvite)
    | ServerNonInviteHandle(sn: SN.ServerNonInvite)
  {
    ghost function Object(): object {
      match this
      case ClientInviteHandle(m) => m
      case ClientNonInviteHandle(m) => m
      case ServerInviteHandle(m) => m
      case ServerNonInviteHandle(m) => m
    }

    ghost function Value(): TxState
      reads Object()
    {
      match this
      case ClientInviteHandle(m) => ClientInvite(m.Value())
      case ClientNonInviteHandle(m) => ClientNonInvite(m.Value())
      case ServerInviteHandle(m) => ServerInvite(m.Value())
      case ServerNonInviteHandle(m) => ServerNonInvite(m.Value())
    }
  }

  class Entry {
    const tx: Handle
    const peer: Addr
    var generations: map<TimerId, nat>

    constructor (tx: Handle, peer: Addr)
      ensures this.tx == tx && this.peer == peer && generations == map[]
    {
      this.tx, this.peer, this.generations := tx, peer, map[];
    }

    ghost function Value(): EntryState
      reads this, tx.Object()
    {
      EntryState(tx.Value(), peer, generations)
    }

    /** Count one more arming of a timer and return its generation. */
    method Rearm(id: TimerId) returns (g: nat)
      modifies this
      ensures g == (if id in old(generations) then old(generations)[id] else 0) + 1
      ensures Value() == old(Value()).(generations := old(generations)[id := g])
    {
      g := (if id in generations then generations[id] else 0) + 1;
      generations := generations[id := g];
    }

    method OnResponse(resp: Response) returns (actions: seq<TxAction>)
      modifies tx.Object()
      ensures Step(tx.Value(), actions) == old(tx.Value()).OnResponse(resp)
    {
      match tx {
        case ClientInviteHandle(m) => actions := m.OnResponse(resp);
        case ClientNonInviteHandle(m) => actions := m.OnResponse(resp);
        case _ => actions := [];
      }
    }

    method OnRequest(req: Request) returns (actions: seq<TxAction>)
      modifies tx.Object()
      ensures Step(tx.Value(), actions) == old(tx.Value()).OnRequest(req)
    {
      match tx {
        case ServerInviteHandle(m) => actions := m.OnRequest(req);
        case ServerNonInviteHandle(m) => actions := m.OnRequest(req);
        case _ => actions := [];
      }
    }

    method OnTimer(id: TimerId) returns (actions: seq<TxAction>)
      modifies tx.Object()
      ensures Step(tx.Value(), actions) == old(tx.Value()).OnTimer(id)
    {
      match tx {
        case ClientInviteHandle(m) => actions := m.OnTimer(id);
        case ClientNonInviteHandle(m) => actions := m.OnTimer(id);
        case ServerInviteHandle(m) => actions := m.OnTimer(id);
        case ServerNonInviteHandle(m) => actions := m.OnTimer(id);
      }
    }

    method OnUserResponse(resp: Response) returns (actions: seq<TxAction>)
      modifies tx.Object()
      ensures Step(tx.Value(), actions) == old(tx.Value()).OnUserResponse(resp)
    {
      match tx {
        case ServerInviteHandle(m) => actions := m.SendResponse(resp);
        case ServerNonInviteHandle(m) => actions := m.SendResponse(resp);
        case _ => actions := [];
      }
    }
  }

  class Engine {
    const timers: Timers
    const rel: Reliability
    var txns: map<TransactionKey, Entry>
    var spawned: seq<Sleeper>
    var published: seq<Event>
    var wire: seq<Packet>

    ghost function Entries(): set<object>
      reads this
    {
      (set k | k in txns :: txns[k] as object) + (set k | k in txns :: txns[k].tx.Object())
    }

    /** Every entry owns its machine: no two keys share either object. */
    ghost predicate Valid()
      reads this
    {
      forall k, l {:trigger txns[k], txns[l]} :: k in txns && l in txns && k != l ==> Apart(txns[k], txns[l])
    }

    static ghost predicate Apart(a: Entry, b: Entry) {
      && a != b && a.tx.Object() != b.tx.Object()
      && a as object != b.tx.Object() && b as object != a.tx.Object()
    }

    ghost function Table(): map<TransactionKey, EntryState>
      reads this, Entries()
    {
      map k | k in txns :: txns[k].Value()
    }

    ghost function Value(): State
      reads this, Entries()
    {
      State(timers, rel, Table(), spawned, published, wire)
    }

    /** Changing one entry, or its machine, changes the table at its key only. */
    twostate lemma OnlyAt(key: TransactionKey)
      requires txns == old(txns) && key in txns
      requires forall k :: k in txns && k != key ==> txns[k].Value() == old(txns[k].Value())
      ensures Table() == old(Table())[key := txns[key].Value()]
    {
    }

    /** Removing an entry leaves the others in the table. */
    twostate lemma Without(key: TransactionKey)
      requires txns == old(txns) - {key}
      requires forall k :: k in txns ==> txns[k].Value() == old(txns[k].Value())
      ensures Table() == old(Table()) - {key}
    {
      assert forall k :: k in txns ==> k in old(txns) && txns[k] == old(txns)[k];
      hide Entry.Value;
    }

    constructor (timers: Timers, rel: Reliability)
      ensures Valid() && Entries() == {}
      ensures Value() == Empty(timers, rel)
    {
      this.timers, this.rel := timers, rel;
      txns, spawned, published, wire := map[], [], [], [];
    }

    method OnInbound(msg: SipMessage, src: Addr)
      requires Valid()
      modifies this, Entries()
      ensures Valid() && fresh(Entries() - old(Entries()))
      ensures Value() == EngineModel.OnInbound(old(Value()), msg, src)
    {
      match msg {
        case RequestMessage(req) => OnRequest(req, src);
        case ResponseMessage(resp) => OnResponse(resp);
      }
    }

    method OnResponse(resp: Response)
      requires Valid()
      modifies this, Entries()
      ensures Valid() && fresh(Entries() - old(Entries()))
      ensures Value() == EngineModel.OnResponse(old(Value()), resp)
    {
      hide Sip.ResponseKey, EngineModel.Apply;
      var key := ResponseKey(resp);
      if key.None? || key.value !in txns {
        // No transaction: a late or duplicate final.
        return;
      }
      ghost var e := Value();
      var actions := txns[key.value].OnResponse(resp);
      OnlyAt(key.value);
      Settle(key.value, e, actions);
    }

    method OnRequest(req: Request, src: Addr)
      requires Valid()
      modifies this, Entries()
      ensures Valid() && fresh(Entries() - old(Entries()))
      ensures Value() == EngineModel.OnRequest(old(Value()), req, src)
    {
      var key := RequestKey(req);
      if key.None? {
        return;
      }
      if key.value in txns {
        Retransmitted(key.value, req);
        return;
      }
      if req.verb == Ack {
        // The ACK for a 2xx belongs to the dialog layer.
        Announce(UnmatchedRequest(req, src));
        return;
      }
      OpenServer(key.value, req, src);
    }

    method OpenServer(key: TransactionKey, req: Request, src: Addr)
      requires Valid()
      modifies this, Entries()
      ensures Valid() && fresh(Entries() - old(Entries()))
      ensures Value() == Open(old(Value()), key, src, StartServerTx(req, timers, rel))
    {
      var entry, actions := BeginServer(req, src);
      Launch(key, entry, actions);
    }

    /** A retransmission, or the ACK for a non-2xx, for a live transaction. */
    method Retransmitted(key: TransactionKey, req: Request)
      requires Valid() && key in txns
      modifies this, Entries()
      ensures Valid() && Entries() <= old(Entries())
      ensures Value() == Advance(old(Value()), key, old(Value()).txns[key].tx.OnRequest(req))
    {
      ghost var e := Value();
      var actions := txns[key].OnRequest(req);
      OnlyAt(key);
      Settle(key, e, actions);
    }

    method OnTimerFire(fire: Sleeper)
      requires Valid()
      modifies this, Entries()
      ensures Valid() && fresh(Entries() - old(Entries()))
      ensures Value() == EngineModel.OnTimerFire(old(Value()), fire)
    {
      // Ignore a timer that was cancelled or re-armed, or whose transaction is gone.
      if fire.key !in txns || fire.id !in txns[fire.key].generations
         || txns[fire.key].generations[fire.id] != fire.generation {
        return;
      }
      Wake(fire.key, fire.id);
    }

    /** A fire that counts, for a live transaction. */
    method Wake(key: TransactionKey, id: TimerId)
      requires Valid() && key in txns
      modifies this, Entries()
      ensures Valid() && Entries() <= old(Entries())
      ensures Value() == Advance(old(Value()), key, old(Value()).txns[key].tx.OnTimer(id))
    {
      ghost var e := Value();
      var actions := txns[key].OnTimer(id);
      OnlyAt(key);
      Settle(key, e, actions);
    }

    method OnCommand(cmd: Command)
      requires Valid()
      modifies this, Entries()
      ensures Valid() && fresh(Entries() - old(Entries()))
      ensures Value() == EngineModel.OnCommand(old(Value()), cmd)
    {
      match cmd {
        case StartClient(req, peer) =>
          var key := RequestKey(req);
          if key.Some? {
            OpenClient(key.value, req, peer);
          }
        case SendResponse(key, resp) =>
          if key in txns {
            Answer(key, resp);
          }
        case SendOutOfDialog(msg, peer) =>
          Transmit(msg, peer);
      }
    }

    method OpenClient(key: TransactionKey, req: Request, peer: Addr)
      requires Valid()
      modifies this, Entries()
      ensures Valid() && fresh(Entries() - old(Entries()))
      ensures Value() == Open(old(Value()), key, peer, StartClientTx(req, timers, rel))
    {
      var entry, actions := BeginClient(req, peer);
      Launch(key, entry, actions);
    }

    /** The user's response for a live transaction. */
    method Answer(key: TransactionKey, resp: Response)
      requires Valid() && key in txns
      modifies this, Entries()
      ensures Valid() && Entries() <= old(Entries())
      ensures Value() == Advance(old(Value()), key, old(Value()).txns[key].tx.OnUserResponse(resp))
    {
      ghost var e := Value();
      var actions := txns[key].OnUserResponse(resp);
      OnlyAt(key);
      Settle(key, e, actions);
    }

    /** Enter a new transaction and apply its first actions. */
    method Launch(key: TransactionKey, entry: Entry, actions: seq<TxAction>)
      requires Valid()
      requires forall k :: k in txns ==> Apart(txns[k], entry)
      requires entry.generations == map[]
      modifies this, Entries(), entry, entry.tx.Object()
      ensures Valid() && Entries() <= old(Entries()) + {entry, entry.tx.Object()}
      ensures Value() == Open(old(Value()), key, entry.peer, Step(old(entry.tx.Value()), actions))
    {
      ghost var e := Value();
      ghost var added := EntryState(entry.tx.Value(), entry.peer, map[]);
      assert entry.Value() == added;
      Insert(key, entry);
      assert Value() == e.(txns := e.txns[key := added]);
      Apply(key, actions);
    }

    /** Apply the actions of a machine that has just moved on from the table `e`. */
    method Settle(key: TransactionKey, ghost e: State, actions: seq<TxAction>)
      requires Valid() && key in txns && key in e.txns
      requires Value() == e.(txns := e.txns[key := txns[key].Value()])
      requires e.txns[key].(tx := txns[key].tx.Value()) == txns[key].Value()
      modifies this, Entries()
      ensures Valid() && Entries() <= old(Entries())
      ensures Value() == Advance(e, key, Step(old(txns[key].tx.Value()), actions))
    {
      Apply(key, actions);
    }

    method BeginServer(req: Request, peer: Addr) returns (entry: Entry, actions: seq<TxAction>)
      ensures fresh(entry) && fresh(entry.tx.Object())
      ensures entry.peer == peer && entry.generations == map[]
      ensures Step(entry.tx.Value(), actions) == StartServerTx(req, timers, rel)
      ensures txns == old(txns) && Value() == old(Value())
      ensures forall k :: k in txns ==> Apart(txns[k], entry)
    {
      var handle;
      if req.verb == Invite {
        var t, a := SI.ServerInvite.Begin(req, timers, rel);
        handle, actions := ServerInviteHandle(t), a;
      } else {
        var t, a := SN.ServerNonInvite.Begin(req, timers, rel);
        handle, actions := ServerNonInviteHandle(t), a;
      }
      entry := new Entry(handle, peer);
      assert Table() == old(Table());
    }

    method BeginClient(req: Request, peer: Addr) returns (entry: Entry, actions: seq<TxAction>)
      ensures fresh(entry) && fresh(entry.tx.Object())
      ensures entry.peer == peer && entry.generations == map[]
      ensures Step(entry.tx.Value(), actions) == StartClientTx(req, timers, rel)
      ensures txns == old(txns) && Value() == old(Value())
      ensures forall k :: k in txns ==> Apart(txns[k], entry)
    {
      var handle;
      if req.verb == Invite {
        var t, a := CI.ClientInvite.Begin(req, timers, rel);
        handle, actions := ClientInviteHandle(t), a;
      } else {
        var t, a := CN.ClientNonInvite.Begin(req, timers, rel);
        handle, actions := ClientNonInviteHandle(t), a;
      }
      entry := new Entry(handle, peer);
      assert Table() == old(Table());
    }

    /** Put a new transaction in the table, replacing any entry with its key. */
    method Insert(key: TransactionKey, entry: Entry)
      requires Valid()
      requires forall k :: k in txns ==> Apart(txns[k], entry)
      modifies this`txns
      ensures Valid() && txns == old(txns)[key := entry]
      ensures Value() == old(Value()).(txns := old(Value()).txns[key := entry.Value()])
    {
      txns := txns[key := entry];
      assert forall k :: k in txns && k != key ==> txns[k].Value() == old(txns[k].Value());
      assert Table() == old(Table())[key := entry.Value()];
    }

    /** Apply the actions a machine returned, in order. */
    method Apply(key: TransactionKey, actions: seq<TxAction>)
      requires Valid()
      modifies this, Entries()
      ensures Valid() && Entries() <= old(Entries())
      ensures Value() == EngineModel.Apply(old(Value()), key, actions)
    {
      var i := 0;
      while i < |actions|
        invariant 0 <= i <= |actions|
        invariant Valid() && Entries() <= old(Entries())
        invariant EngineModel.Apply(Value(), key, actions[i..]) == EngineModel.Apply(old(Value()), key, actions)
      {
        assert actions[i..][1..] == actions[i + 1..];
        ApplyAction(key, actions[i]);
        i := i + 1;
      }
    }

    method ApplyAction(key: TransactionKey, action: TxAction)
      requires Valid()
      modifies this, Entries()
      ensures Valid() && Entries() <= old(Entries())
      ensures Value() == EngineModel.ApplyOne(old(Value()), key, action)
    {
      match action {
        case Send(msg) =>
          if key in txns {
            Transmit(msg, txns[key].peer);
          }
        case StartTimer(id, after) =>
          Arm(key, id, after);
        case StopTimer(id) =>
          Stop(key, id);
        case DeliverResponse(resp) =>
          Announce(ResponseEvent(key, resp));
        case DeliverRequest(req) =>
          if key in txns {
            Announce(IncomingRequest(key, req, txns[key].peer));
          }
        case TimedOut =>
          Announce(TimedOutEvent(key));
        case Terminated =>
          Remove(key);
          Announce(TerminatedEvent(key));
      }
    }

    method Transmit(msg: SipMessage, dst: Addr)
      modifies this`wire
      ensures txns == old(txns)
      ensures Value() == old(Value()).(wire := old(Value()).wire + [Packet(msg, dst)])
    {
      wire := wire + [Packet(msg, dst)];
      assert Table() == old(Table());
    }

    method Announce(event: Event)
      modifies this`published
      ensures txns == old(txns)
      ensures Value() == EngineModel.Publish(old(Value()), event)
    {
      published := published + [event];
      assert Table() == old(Table());
    }

    method Remove(key: TransactionKey)
      requires Valid()
      modifies this`txns
      ensures Valid() && txns == old(txns) - {key}
      ensures Value() == old(Value()).(txns := old(Value()).txns - {key})
    {
      hide Apart;
      txns := txns - {key};
      Without(key);
    }

    method Arm(key: TransactionKey, id: TimerId, after: nat)
      requires Valid()
      modifies this`spawned, Entries()
      ensures Valid() && txns == old(txns)
      ensures Value() == EngineModel.ArmTimer(old(Value()), key, id, after)
    {
      if key in txns {
        var g := txns[key].Rearm(id);
        OnlyAt(key);
        Spawn(Sleeper(key, id, g, after));
      }
    }

    method Spawn(sleeper: Sleeper)
      modifies this`spawned
      ensures txns == old(txns)
      ensures Value() == old(Value()).(spawned := old(Value()).spawned + [sleeper])
    {
      spawned := spawned + [sleeper];
      assert Table() == old(Table());
    }

    method Stop(key: TransactionKey, id: TimerId)
      requires Valid()
      modifies Entries()
      ensures Valid() && txns == old(txns)
      ensures Value() == EngineModel.StopTimerOf(old(Value()), key, id)
    {
      if key in txns && id in txns[key].generations {
        var g := txns[key].Rearm(id);
        OnlyAt(key);
      }
    }
  }
}
