/**
 REGISTER sequencing (section 10.2 of RFC 3261): one digest challenge answered a request,
 one longer interval tried after a 423, and a CSeq that never repeats under one Call-ID.
 The server is any function from the number of requests started so far to an answer.
 */
module Registration {
  import opened Wrappers
  import opened Bytes

  /** What comes of starting the n-th client transaction. */
  datatype Answer =
    | Final(status: nat, minExpires: Option<Word32>, granted: Option<Word32>, hasChallenge: bool)
    | Silence
    | EngineGone

  /** A REGISTER on the wire; a binding query asks for no lifetime. */
  datatype Sent = Sent(cseq: nat, expires: Option<nat>)

  datatype Outcome =
    | Registered(expires: nat)
    | IntervalTooBrief(minExpires: nat)
    | Unauthorized
    | Rejected(status: nat)
    | TimedOut
    | EngineStopped
    | NotBuilt

  datatype Probe = Answered(status: nat) | NoAnswer | Stopped | NoRequest

  function RequestedExpires(configured: nat, floor: Option<nat>): (r: nat)
    ensures r >= configured && (floor.Some? ==> r >= floor.value) && (r == configured || Some(r) == floor)
  {
    match floor case Some(f) => if f > configured then f else configured case None => configured
  }

  /** No retry twice, none of an unregister, none that would not ask for more. */
  function RetryExpires(requested: nat, minExpires: nat, retried: bool): (r: Option<nat>)
    ensures r.Some? <==> !retried && 0 < requested < minExpires
    ensures r.Some? ==> r.value == minExpires
  {
    if retried || requested == 0 || minExpires <= requested then None else Some(minExpires)
  }

  /** The CSeqs on the wire go up at every step and never pass the last one used. */
  predicate Ascending(wire: seq<Sent>, last: nat) {
    && (forall i, j :: 0 <= i < j < |wire| ==> wire[i].cseq < wire[j].cseq)
    && (forall i :: 0 <= i < |wire| ==> wire[i].cseq <= last)
  }

  lemma AscendingThen(wire: seq<Sent>, last: nat, sent: Sent)
    requires Ascending(wire, last) && sent.cseq > last
    ensures Ascending(wire + [sent], sent.cseq)
  {
  }

  lemma AscendingUp(wire: seq<Sent>, last: nat)
    requires Ascending(wire, last)
    ensures Ascending(wire, last + 1)
  {
  }

  /** The requests a step has added. */
  predicate Added(before: seq<Sent>, wire: seq<Sent>, most: nat) {
    && |before| <= |wire| <= |before| + most && wire[..|before|] == before
  }

  /** The requests from an index on ask for lifetimes in a range. */
  predicate Ask(wire: seq<Sent>, from: nat, low: nat, high: nat) {
    forall i :: from <= i < |wire| ==> wire[i].expires.Some? && low <= wire[i].expires.value <= high
  }

  /** An answer that asks for credentials in a way the client can answer. */
  predicate Challenges(a: Answer) {
    a.Final? && a.status in {401, 407} && a.hasChallenge
  }

  /** What the last answer of an exchange means to whoever registers. */
  function Meaning(a: Answer, expires: nat): Outcome {
    match a
    case EngineGone => EngineStopped
    case Silence => TimedOut
    case Final(status, minExpires, granted, _) =>
      if 200 <= status < 300 then Registered(if granted.Some? then granted.value else expires)
      else if status in {401, 407} then Unauthorized
      else if status == 423 && minExpires.Some? then IntervalTooBrief(minExpires.value)
      else Rejected(status)
  }

  /** How many transactions one exchange starts when the n-th is the next. */
  function Rounds(answer: nat -> Answer, n: nat): nat {
    if Challenges(answer(n)) then 2 else 1
  }

  function ResultOf(answer: nat -> Answer, n: nat, expires: nat): Outcome {
    Meaning(answer(n + Rounds(answer, n) - 1), expires)
  }

  /** The REGISTERs one exchange puts on the wire; none for a transaction the engine does not take. */
  function Tried(answer: nat -> Answer, n: nat, cseq: nat, expires: nat): seq<Sent> {
    var again := if Rounds(answer, n) == 2 && !answer(n + 1).EngineGone? then [Sent(cseq + 1, Some(expires))] else [];
    if answer(n).EngineGone? then [] else [Sent(cseq, Some(expires))] + again
  }

  /** The longer interval the second exchange asks for, if there is one. */
  function Longer(answer: nat -> Answer, n: nat, requested: nat): Option<nat> {
    match ResultOf(answer, n, requested)
    case IntervalTooBrief(floor) => RetryExpires(requested, floor, false)
    case _ => None
  }

  /** The outcome of registering, with the second exchange if there is one. */
  function LastResult(answer: nat -> Answer, n: nat, requested: nat): Outcome {
    match Longer(answer, n, requested)
    case Some(longer) => ResultOf(answer, n + Rounds(answer, n), longer)
    case None => ResultOf(answer, n, requested)
  }

  /** All the REGISTERs of registering. */
  function AllTried(answer: nat -> Answer, n: nat, cseq: nat, requested: nat): seq<Sent> {
    var again := match Longer(answer, n, requested)
      case Some(longer) => Tried(answer, n + Rounds(answer, n), cseq + Rounds(answer, n), longer)
      case None => [];
    Tried(answer, n, cseq, requested) + again
  }

  /** The minima registering learns. */
  function Floors(answer: nat -> Answer, n: nat, requested: nat): seq<nat> {
    var first, last := ResultOf(answer, n, requested), LastResult(answer, n, requested);
    (if Longer(answer, n, requested).Some? && first.IntervalTooBrief? then [first.minExpires] else [])
    + (if last.IntervalTooBrief? then [last.minExpires] else [])
  }

  /** Whether no other exchange follows the one that asked for this lifetime. */
  predicate LastOf(outcome: Outcome, asking: nat, retried: bool) {
    outcome.IntervalTooBrief? ==> RetryExpires(asking, outcome.minExpires, retried).None?
  }

  lemma LongerIs(answer: nat -> Answer, n: nat, requested: nat)
    ensures Longer(answer, n, requested).Some? <==> !LastOf(ResultOf(answer, n, requested), requested, false)
    ensures Longer(answer, n, requested).Some? ==>
      && Longer(answer, n, requested) == RetryExpires(requested, ResultOf(answer, n, requested).minExpires, false)
      && Longer(answer, n, requested).value == ResultOf(answer, n, requested).minExpires > requested > 0
  {
    hide ResultOf;
  }

  /** How many transactions registering starts. */
  function AllRounds(answer: nat -> Answer, n: nat, requested: nat): (r: nat)
    ensures r >= 1
  {
    Rounds(answer, n) + if Longer(answer, n, requested).Some? then Rounds(answer, n + Rounds(answer, n)) else 0
  }

  /** Registering by one exchange or by two. */
  lemma TakenApart(answer: nat -> Answer, n: nat, cseq: nat, requested: nat, wire: seq<Sent>, named: seq<nat>)
    ensures var longer, first := Longer(answer, n, requested), ResultOf(answer, n, requested);
            if LastOf(first, requested, false) then
              && longer == None && LastResult(answer, n, requested) == first
              && AllRounds(answer, n, requested) == Rounds(answer, n)
              && wire + AllTried(answer, n, cseq, requested) == wire + Tried(answer, n, cseq, requested)
              && named + Floors(answer, n, requested)
                  == named + (if first.IntervalTooBrief? then [first.minExpires] else [])
            else
              var m, last := n + Rounds(answer, n), ResultOf(answer, n + Rounds(answer, n), longer.value);
              && longer.Some? && LastResult(answer, n, requested) == last && LastOf(last, longer.value, true)
              && AllRounds(answer, n, requested) == Rounds(answer, n) + Rounds(answer, m)
              && wire + AllTried(answer, n, cseq, requested)
                 == wire + Tried(answer, n, cseq, requested) + Tried(answer, m, cseq + Rounds(answer, n), longer.value)
              && named + Floors(answer, n, requested)
                 == named + [longer.value] + (if last.IntervalTooBrief? then [last.minExpires] else [])
  {
    LongerIs(answer, n, requested);
    hide ResultOf, Tried, Rounds, Longer;
  }

  /** The last exchange settles what registering comes to. */
  lemma Concluded(answer: nat -> Answer, n: nat, cseq: nat, requested: nat, asking: nat, retried: bool,
          outcome: Outcome, wire: seq<Sent>, named: seq<nat>)
    requires if retried then Longer(answer, n, requested) == Some(asking) else asking == requested
    requires outcome == ResultOf(answer, if retried then n + Rounds(answer, n) else n, asking)
    requires LastOf(outcome, asking, retried)
    ensures outcome == LastResult(answer, n, requested)
    ensures AllRounds(answer, n, requested)
         == if retried then Rounds(answer, n) + Rounds(answer, n + Rounds(answer, n)) else Rounds(answer, n)
    ensures wire + AllTried(answer, n, cseq, requested)
         == if retried then wire + Tried(answer, n, cseq, requested)
                + Tried(answer, n + Rounds(answer, n), cseq + Rounds(answer, n), asking)
            else wire + Tried(answer, n, cseq, requested)
    ensures named + Floors(answer, n, requested)
         == (if retried then named + [asking] else named)
            + (if outcome.IntervalTooBrief? then [outcome.minExpires] else [])
  {
    TakenApart(answer, n, cseq, requested, wire, named);
    LongerIs(answer, n, requested);
    hide ResultOf, Tried, Rounds, Longer, AllTried, AllRounds, Floors, LastResult;
  }

  lemma GoneAsksNoMore(answer: nat -> Answer, n: nat, requested: nat)
    ensures answer(n).EngineGone? ==> Longer(answer, n, requested) == None
  {
  }

  /**
   Each of the at most four REGISTERs asks for what was requested, or, if that was not zero,
   for the longer interval that the first exchange ended with; the first asks for what was
   requested.
   */
  lemma AllTriedAsks(answer: nat -> Answer, n: nat, cseq: nat, requested: nat)
    ensures var sent, longer := AllTried(answer, n, cseq, requested), Longer(answer, n, requested);
            && |sent| <= 4 && (sent == [] <==> answer(n).EngineGone?)
            && (sent != [] && !answer(n).EngineGone? ==> sent[0] == Sent(cseq, Some(requested)))
            && (longer.Some? ==> longer.value > requested > 0)
            && forall i :: 0 <= i < |sent| ==>
                sent[i].expires == Some(requested) || (longer.Some? && sent[i].expires == longer)
  {
    LongerIs(answer, n, requested);
    GoneAsksNoMore(answer, n, requested);
    hide ResultOf, Longer;
  }

  predicate Succeeds(a: Answer) { a.Final? && 200 <= a.status < 300 }

  /** What the client holds after the answer to a request for a lifetime. */
  function Kept(a: Answer, asked: nat): Option<nat> {
    if !Succeeds(a) then None else if a.granted.Some? then Some(a.granted.value) else Some(asked)
  }

  /** What one exchange comes to, from its last answer and last request. */
  lemma ExchangeKeepsGrant(answer: nat -> Answer, n: nat, cseq: nat, expires: nat)
    ensures
      var last, sent := answer(n + Rounds(answer, n) - 1), Tried(answer, n, cseq, expires);
      && (ResultOf(answer, n, expires).Registered? <==> Succeeds(last))
      && (Succeeds(last) ==>
          && sent != [] && sent[|sent| - 1].expires == Some(expires)
          && Some(ResultOf(answer, n, expires).expires) == Kept(last, expires))
  {
  }

  /**
   Registering succeeds exactly if its very last answer is a 2xx, and what is kept then is
   the lifetime that answer grants, or the one the last request asked for if it grants none.
   */
  lemma GrantIsKept(answer: nat -> Answer, n: nat, cseq: nat, requested: nat)
    ensures
      var last, sent := answer(n + AllRounds(answer, n, requested) - 1), AllTried(answer, n, cseq, requested);
      && (LastResult(answer, n, requested).Registered? <==> Succeeds(last))
      && (Succeeds(last) ==>
          && sent != [] && sent[|sent| - 1].expires.Some?
          && Some(LastResult(answer, n, requested).expires) == Kept(last, sent[|sent| - 1].expires.value))
  {
    var m := n + Rounds(answer, n);
    ExchangeKeepsGrant(answer, n, cseq, requested);
    match Longer(answer, n, requested)
    case Some(longer) =>
      ExchangeKeepsGrant(answer, m, cseq + Rounds(answer, n), longer);
      hide ResultOf, Tried, Rounds, Longer, Kept, Succeeds;
    case None =>
      hide ResultOf, Tried, Rounds, Longer, Kept, Succeeds;
  }

  /** Requests that ask for at least a lifetime, after those already on the wire. */
  lemma AskFrom(before: seq<Sent>, sent: seq<Sent>, low: nat)
    requires |sent| <= 4 && forall i :: 0 <= i < |sent| ==> sent[i].expires.Some? && sent[i].expires.value >= low
    ensures Added(before, before + sent, 4) && (before + sent == before <==> sent == [])
    ensures forall i :: |before| <= i < |before + sent| ==>
      (before + sent)[i].expires.Some? && (before + sent)[i].expires.value >= low
          && (before + sent)[i] == sent[i - |before|]
  {
  }

  class Registrar {
    const configured: nat
    /** Whether the account's names make URIs, without which no REGISTER can be built. */
    const buildable: bool
    const answer: nat -> Answer
    var cseq: nat
    var minExpires: Option<nat>
    var negotiated: Option<nat>
    var lastStatus: Option<nat>
    var registerCount: nat
    var failureCount: nat
    /** Every REGISTER put on the wire, how many were started, and every minimum a 423 named. */
    var wire: seq<Sent>
    var started: nat
    var named: seq<nat>

    ghost predicate Valid()
      reads this
    {
      && Ascending(wire, cseq)
      && minExpires == if named == [] then None else Some(named[|named| - 1])
    }

    constructor (configured: nat, buildable: bool, answer: nat -> Answer)
      ensures Valid() && this.configured == configured && this.buildable == buildable && this.answer == answer
      ensures wire == [] && cseq == 0 && named == []
    {
      this.configured, this.buildable, this.answer := configured, buildable, answer;
      cseq, minExpires, negotiated, lastStatus, registerCount, failureCount := 0, None, None, None, 0, 0;
      wire, started, named := [], 0, [];
    }

    /** Starts a client transaction for one REGISTER and waits for its final response. */
    method Start(sent: Sent) returns (answered: Answer)
      modifies this`wire, this`started
      ensures started == old(started) + 1 && answered == answer(old(started))
      ensures wire == if answered.EngineGone? then old(wire) else old(wire) + [sent]
    {
      answered := answer(started);
      started := started + 1;
      if !answered.EngineGone? {
        wire := wire + [sent];
      }
    }

    /** One REGISTER, and one more if it is challenged. */
    method UaRegister(expires: nat, firstCseq: nat) returns (outcome: Outcome, lastCseq: nat)
      requires firstCseq > 0 && Ascending(wire, firstCseq - 1)
      modifies this`wire, this`started
      ensures Ascending(wire, lastCseq) && Added(old(wire), wire, 2) && Ask(wire, |old(wire)|, expires, expires)
      ensures lastCseq == firstCseq + Rounds(answer, old(started)) - 1
      ensures started == old(started) + match answer(old(started))
        case Final(status, _, _, hasChallenge) => if (status == 401 || status == 407) && hasChallenge then 2 else 1
        case _ => 1
      ensures started == old(started) + Rounds(answer, old(started))
          && outcome == ResultOf(answer, old(started), expires)
      ensures wire == old(wire) + Tried(answer, old(started), firstCseq, expires)
    {
      lastCseq := firstCseq;
      var challenged := false;
      while true
        invariant lastCseq == firstCseq + (if challenged then 1 else 0)
        invariant Ascending(wire, lastCseq - 1)
        invariant Added(old(wire), wire, if challenged then 1 else 0)
        invariant Ask(wire, |old(wire)|, expires, expires)
        invariant started == old(started) + (if challenged then 1 else 0)
        invariant challenged ==>
            Challenges(answer(old(started))) && wire == old(wire) + [Sent(firstCseq, Some(expires))]
        invariant !challenged ==> wire == old(wire)
        decreases !challenged
      {
        AscendingThen(wire, lastCseq - 1, Sent(lastCseq, Some(expires)));
        var answered := Start(Sent(lastCseq, Some(expires)));
        match answered {
          case EngineGone => return EngineStopped, lastCseq;
          case Silence => return TimedOut, lastCseq;
          case Final(status, minExpires, granted, hasChallenge) =>
            if 200 <= status < 300 {
              return Registered(if granted.Some? then granted.value else expires), lastCseq;
            }
            if status == 401 || status == 407 {
              if challenged || !hasChallenge {
                return Unauthorized, lastCseq;
              }
              // The retry is a new transaction at the next number.
              lastCseq := lastCseq + 1;
              challenged := true;
            } else {
              if status == 423 && minExpires.Some? {
                return IntervalTooBrief(minExpires.value), lastCseq;
              }
              return Rejected(status), lastCseq;
            }
        }
      }
    }

    /** A REGISTER that cannot be built uses its number up all the same. */
    method Attempt(expires: nat) returns (outcome: Outcome)
      requires Valid()
      modifies this`cseq, this`wire, this`started
      ensures Valid() && Added(old(wire), wire, 2) && Ask(wire, |old(wire)|, expires, expires)
      ensures buildable ==>
        && cseq == old(cseq) + Rounds(answer, old(started)) && started == old(started) + Rounds(answer, old(started))
        && outcome == ResultOf(answer, old(started), expires)
        && wire == old(wire) + Tried(answer, old(started), old(cseq) + 1, expires)
      ensures !buildable ==>
          outcome == NotBuilt && cseq == old(cseq) + 1 && started == old(started) && wire == old(wire)
    {
      cseq := cseq + 1;
      if !buildable {
        AscendingUp(wire, cseq - 1);
        return NotBuilt;
      }
      var lastCseq: nat;
      outcome, lastCseq := UaRegister(expires, cseq);
      // Carry the wire's number forward: a challenge used one more.
      if lastCseq > cseq {
        cseq := lastCseq;
      }
    }

    /** Registers for an interval, and once more for the registrar's own if that was too brief. */
    method RegisterWith(requested: nat) returns (ok: bool)
      requires Valid()
      modifies this
      ensures Valid()
      ensures wire == old(wire) + (if buildable then AllTried(answer, old(started), old(cseq) + 1, requested) else [])
      ensures named == old(named) + (if buildable then Floors(answer, old(started), requested) else [])
      ensures started == old(started) + (if buildable then AllRounds(answer, old(started), requested) else 0)
      ensures var last := if buildable then LastResult(answer, old(started), requested) else NotBuilt;
              && (ok <==> last.Registered?)
              && negotiated == (if ok then Some(last.expires) else old(negotiated))
              && registerCount == old(registerCount) + (if ok then 1 else 0)
              && failureCount == old(failureCount) + (if ok || last.EngineStopped? || last.NotBuilt? then 0 else 1)
    {
      hide Ascending, Rounds, AllRounds, ResultOf, Tried, LastResult, AllTried, Floors, Longer, RetryExpires, Added,
          Ask;
      var asking := requested;
      var retried := false;
      while true
        invariant Valid()
        invariant registerCount == old(registerCount) && failureCount == old(failureCount)
            && negotiated == old(negotiated)
        invariant !retried ==>
            asking == requested && started == old(started) && cseq == old(cseq) && wire == old(wire)
                && named == old(named)
        invariant retried ==>
          && buildable && Longer(answer, old(started), requested) == Some(asking)
              && started == old(started) + Rounds(answer, old(started))
          && cseq == old(cseq) + Rounds(answer, old(started))
              && wire == old(wire) + Tried(answer, old(started), old(cseq) + 1, requested)
          && named == old(named) + [asking]
        decreases !retried
      {
        var outcome := Attempt(asking);
        ghost var last := buildable && LastOf(outcome, asking, retried);
        if last {
          Concluded(answer, old(started), old(cseq) + 1, requested, asking, retried, outcome, old(wire), old(named));
        }
        match outcome {
          case Registered(expires) =>
            negotiated, lastStatus := Some(expires), Some(200);
            registerCount := registerCount + 1;
            return true;
          case IntervalTooBrief(floor) =>
            // The floor is learned even when this attempt is not retried.
            minExpires, lastStatus := Some(floor), Some(423);
            named := named + [floor];
            var retry := RetryExpires(asking, floor, retried);
            if retry.None? {
              failureCount := failureCount + 1;
              return false;
            }
            LongerIs(answer, old(started), requested);
            asking, retried := retry.value, true;
          case Unauthorized =>
            lastStatus, failureCount := Some(401), failureCount + 1;
            return false;
          case Rejected(status) =>
            lastStatus, failureCount := Some(status), failureCount + 1;
            return false;
          case TimedOut =>
            failureCount := failureCount + 1;
            return false;
          case EngineStopped => return false;
          case NotBuilt => return false;
        }
      }
    }

    /**
     Every REGISTER asks for at least the configured lifetime and the last minimum a 423
     named; there are at most four, and one at least unless the engine is gone. It succeeds
     exactly if the last answer is a 2xx, and then holds the lifetime that answer grants, or
     else the one asked for last.
     */
    method Register() returns (ok: bool)
      requires Valid()
      modifies this
      ensures ok <==> buildable && started > old(started) && Succeeds(answer(started - 1))
      ensures if ok then
                |wire| > |old(wire)| && wire[|wire| - 1].expires.Some?
                && negotiated == Kept(answer(started - 1), wire[|wire| - 1].expires.value)
              else negotiated == old(negotiated)
      ensures Valid() && Added(old(wire), wire, 4) && old(named) <= named
      ensures wire == old(wire) <==> !buildable || answer(old(started)).EngineGone?
      ensures ok <==>
        buildable && LastResult(answer, old(started), RequestedExpires(configured, old(minExpires))).Registered?
      ensures forall i :: |old(wire)| <= i < |wire| ==>
        && wire[i].expires.Some? && wire[i].expires.value >= configured
        && (old(named) != [] ==> wire[i].expires.value >= old(named)[|old(named)| - 1])
    {
      hide AllTried, AllRounds, Floors, Ascending, LastResult, Longer, Added, Kept, Succeeds, Rounds, ResultOf, Tried;
      ghost var before, sent := wire, if buildable
          then AllTried(answer, started, cseq + 1, RequestedExpires(configured, minExpires)) else [];
      AllTriedAsks(answer, started, cseq + 1, RequestedExpires(configured, minExpires));
      GrantIsKept(answer, started, cseq + 1, RequestedExpires(configured, minExpires));
      AskFrom(before, sent, RequestedExpires(configured, minExpires));
      ok := RegisterWith(RequestedExpires(configured, minExpires));
    }

    /** Every REGISTER of an unregister asks for zero, whatever minimum is answered. */
    method Unregister()
      requires Valid()
      modifies this
      ensures Valid() && Added(old(wire), wire, 4) && old(named) <= named
      ensures wire == old(wire) <==> !buildable || answer(old(started)).EngineGone?
      ensures forall i :: |old(wire)| <= i < |wire| ==> wire[i].expires == Some(0)
    {
      hide AllTried, Floors, Ascending, LastResult, Longer, Added;
      ghost var before, sent := wire, if buildable then AllTried(answer, started, cseq + 1, 0) else [];
      AllTriedAsks(answer, started, cseq + 1, 0);
      AskFrom(before, sent, 0);
      var ok := RegisterWith(0);
    }

    /** One binding query, at the next number, leaving the rest of the state alone. */
    method ProbeServer() returns (probe: Probe)
      requires Valid()
      modifies this`cseq, this`wire, this`started
      ensures Valid() && cseq == old(cseq) + 1 && started == old(started) + (if buildable then 1 else 0)
      ensures wire == old(wire) + (if !buildable || answer(old(started)).EngineGone? then [] else [Sent(cseq, None)])
      ensures !buildable ==> probe == NoRequest
      ensures buildable ==> match answer(old(started))
              case Final(status, _, _, _) => probe == Answered(status)
              case Silence => probe == NoAnswer
              case EngineGone => probe == Stopped
    {
      hide Ascending;
      cseq := cseq + 1;
      AscendingUp(wire, cseq - 1);
      if !buildable {
        return NoRequest;
      }
      AscendingThen(wire, cseq - 1, Sent(cseq, None));
      var answered := Start(Sent(cseq, None));
      match answered {
        case Final(status, _, _, _) => probe := Answered(status);
        case Silence => probe := NoAnswer;
        case EngineGone => probe := Stopped;
      }
    }
  }

  datatype Op = DoRegister | DoUnregister | DoProbe

  /** Any sequential use, against any server: the CSeqs on the wire only ever go up. */
  method UseRegistrar(configured: nat, buildable: bool, answer: nat -> Answer, ops: seq<Op>) returns (wire: seq<Sent>)
    ensures |wire| <= 4 * |ops|
    ensures forall i, j :: 0 <= i < j < |wire| ==> wire[i].cseq < wire[j].cseq
  {
    var registrar := new Registrar(configured, buildable, answer);
    var i := 0;
    while i < |ops|
      invariant i <= |ops| && registrar.Valid() && |registrar.wire| <= 4 * i
    {
      match ops[i] {
        case DoRegister => var ok := registrar.Register();
        case DoUnregister => registrar.Unregister();
        case DoProbe => var probe := registrar.ProbeServer();
      }
      i := i + 1;
    }
    wire := registrar.wire;
  }
}
