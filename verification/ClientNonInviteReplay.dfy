/**
 When a client non-INVITE transaction sends its request over its whole life (section
 17.1.2 of RFC 3261), read off what has happened to it: at every firing of timer E until a
 final response or timer F, with the wait doubling up to T2 while nothing is heard, and T2
 itself once a provisional response is in.
 */
module ClientNonInviteReplay {
  import opened Wrappers
  import opened Sip
  import opened Transaction
  import opened Retransmission
  import CN = ClientNonInviteTransaction

  datatype Move = Hears(response: Response) | Fires(id: TimerId)

  function StepOf(m: CN.Machine, move: Move): Step<CN.Machine> {
    match move
    case Hears(response) => m.OnResponse(response)
    case Fires(id) => m.OnTimer(id)
  }

  predicate InRhythm(action: TxAction) { action.Send? || (action.StartTimer? && action.id == E) }

  /** The sendings and the waits for the next one. */
  function Rhythmic(actions: seq<TxAction>): seq<TxAction> {
    if actions == [] then [] else (if InRhythm(actions[0]) then [actions[0]] else []) + Rhythmic(actions[1..])
  }

  function MachineAfter(request: Request, timers: Timers, rel: Reliability, moves: seq<Move>): CN.Machine
    decreases |moves|
  {
    if moves == [] then CN.Start(request, timers, rel).next
    else StepOf(MachineAfter(request, timers, rel, moves[..|moves| - 1]), moves[|moves| - 1]).next
  }

  function Log(request: Request, timers: Timers, rel: Reliability, moves: seq<Move>): seq<TxAction>
    decreases |moves|
  {
    if moves == [] then Rhythmic(CN.Start(request, timers, rel).actions)
    else
      var before := moves[..|moves| - 1];
      Log(request, timers, rel, before)
      + Rhythmic(StepOf(MachineAfter(request, timers, rel, before), moves[|moves| - 1]).actions)
  }

  // ---- The life of the transaction, read off what happened to it ----

  predicate Closes(move: Move) {
    match move
    case Hears(response) => response.status >= 200
    case Fires(id) => id == F
  }

  predicate Pending(moves: seq<Move>) {
    forall i :: 0 <= i < |moves| ==> !Closes(moves[i])
  }

  predicate Progresses(move: Move) { move.Hears? && move.response.status < 200 }

  predicate Answered(moves: seq<Move>) {
    exists i :: 0 <= i < |moves| && Progresses(moves[i])
  }

  /** How often timer E has fired. */
  function Fired(moves: seq<Move>): nat
    decreases |moves|
  {
    if moves == [] then 0
    else Fired(moves[..|moves| - 1]) + if moves[|moves| - 1] == Fires(E) then 1 else 0
  }

  lemma HistoryGrows(moves: seq<Move>, move: Move)
    ensures Pending(moves + [move]) <==> Pending(moves) && !Closes(move)
    ensures Answered(moves + [move]) <==> Answered(moves) || Progresses(move)
    ensures Fired(moves + [move]) == Fired(moves) + if move == Fires(E) then 1 else 0
  {
    var longer := moves + [move];
    hide Closes, Progresses;
    assert longer[|moves|] == move && longer[..|moves|] == moves;
    assert forall i :: 0 <= i < |moves| ==> longer[i] == moves[i];
  }

  predicate Stands(m: CN.Machine, request: Request, timers: Timers, moves: seq<Move>) {
    && m.request == request && m.timers == timers
    && (Pending(moves) <==> m.phase in {CN.Trying, CN.Proceeding})
    && (Pending(moves) ==> (Answered(moves) <==> m.phase == CN.Proceeding))
    && (m.phase == CN.Trying ==>
        m.timerE == if Fired(moves) == 0 then timers.t1 else Min(Pow2(Fired(moves)) * timers.t1, timers.t2))
  }

  /** What one move has the transaction send, and how long it then waits. */
  function Said(request: Request, timers: Timers, moves: seq<Move>, move: Move): seq<TxAction> {
    if Pending(moves) && move == Fires(E) then
      [Send(RequestMessage(request)),
       StartTimer(E, if Answered(moves) then timers.t2 else Min(Pow2(Fired(moves) + 1) * timers.t1, timers.t2))]
    else []
  }

  lemma {:induction false} RhythmicSplit(kept: seq<TxAction>, dropped: seq<TxAction>)
    requires forall i :: 0 <= i < |kept| ==> InRhythm(kept[i])
    requires forall i :: 0 <= i < |dropped| ==> !InRhythm(dropped[i])
    ensures Rhythmic(kept + dropped) == kept
    decreases |kept| + |dropped|
  {
    if kept != [] {
      assert (kept + dropped)[1..] == kept[1..] + dropped;
      RhythmicSplit(kept[1..], dropped);
    } else if dropped != [] {
      assert kept + dropped == dropped && [] + dropped[1..] == dropped[1..];
      RhythmicSplit([], dropped[1..]);
    } else {
      assert kept + dropped == [];
    }
  }

  /** The wait doubles up to T2. */
  lemma Doubles(timers: Timers, n: nat, wait: nat)
    requires wait == if n == 0 then timers.t1 else Min(Pow2(n) * timers.t1, timers.t2)
    ensures Min(2 * wait, timers.t2) == Min(Pow2(n + 1) * timers.t1, timers.t2)
  {
    assert Pow2(n + 1) * timers.t1 == 2 * (Pow2(n) * timers.t1);
  }

  lemma StandsOn(m: CN.Machine, request: Request, timers: Timers, moves: seq<Move>, move: Move)
    requires Stands(m, request, timers, moves)
    ensures Stands(StepOf(m, move).next, request, timers, moves + [move])
  {
    HistoryGrows(moves, move);
    if m.phase == CN.Trying {
      Doubles(timers, Fired(moves), m.timerE);
    }
    hide Pending, Answered, Fired, Pow2;
  }

  lemma StepSays(m: CN.Machine, request: Request, timers: Timers, moves: seq<Move>, move: Move)
    requires Stands(m, request, timers, moves)
    ensures Rhythmic(StepOf(m, move).actions) == Said(request, timers, moves, move)
  {
    if m.phase == CN.Trying {
      Doubles(timers, Fired(moves), m.timerE);
    }
    hide Pending, Answered, Fired, Pow2, Rhythmic;
    var actions := StepOf(m, move).actions;
    if Said(request, timers, moves, move) != [] {
      RhythmicSplit(actions, []);
      assert actions + [] == actions;
    } else {
      RhythmicSplit([], actions);
      assert [] + actions == actions;
    }
  }

  lemma {:induction false} StandsAlways(request: Request, timers: Timers, rel: Reliability, moves: seq<Move>)
    ensures Stands(MachineAfter(request, timers, rel, moves), request, timers, moves)
    decreases |moves|
  {
    if moves == [] {
    } else {
      var before, move := moves[..|moves| - 1], moves[|moves| - 1];
      StandsAlways(request, timers, rel, before);
      StandsOn(MachineAfter(request, timers, rel, before), request, timers, before, move);
      assert before + [move] == moves;
    }
  }

  /**
   Over every run: each firing of timer E before a final response or timer F sends the
   request once more, and waits T2 if a provisional response is in, and twice the last wait
   up to T2 if not; nothing else sends anything.
   */
  lemma RequestIsRepeated(request: Request, timers: Timers, rel: Reliability, moves: seq<Move>, move: Move)
    ensures Log(request, timers, rel, moves + [move])
         == Log(request, timers, rel, moves) + Said(request, timers, moves, move)
    ensures Log(request, timers, rel, [])
         == [Send(RequestMessage(request))] + if rel.Reliable? then [] else [StartTimer(E, timers.t1)]
  {
    var m := MachineAfter(request, timers, rel, moves);
    StandsAlways(request, timers, rel, moves);
    StepSays(m, request, timers, moves, move);
    hide Said, Stands;
    assert (moves + [move])[..|moves|] == moves;
    RhythmicSplit([Send(RequestMessage(request))] + if rel.Reliable? then [] else [StartTimer(E, timers.t1)],
        [StartTimer(F, timers.Timeout())]);
    assert Log(request, timers, rel, moves + [move])
        == Log(request, timers, rel, moves) + Rhythmic(StepOf(m, move).actions);
  }
}
