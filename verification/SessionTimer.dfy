/** Session timers (RFC 4028): header values, negotiation, and the loop that refreshes or watches. */
module SessionTimers {
  import opened Wrappers
  import opened Bytes
  import opened Text

  const MIN_SESSION_EXPIRES_SECS: nat := 90
  const MAX_EXPIRY_HEADROOM_SECS: nat := 32
  const SECOND: nat := 1_000_000_000

  datatype Refresher = Uac | Uas {
    function Name(): string { if Uac? then "uac" else "uas" }
  }

  function ReadRefresher(s: string): Option<Refresher> {
    if Lower(s) == "uac" then Some(Uac) else if Lower(s) == "uas" then Some(Uas) else None
  }

  datatype SessionExpires = SessionExpires(intervalSecs: Word32, refresher: Option<Refresher>) {
    function HeaderValue(): string {
      match refresher
      case Some(r) => Decimal(intervalSecs) + [';'] + ("refresher" + ['='] + r.Name())
      case None => Decimal(intervalSecs)
    }
  }

  /** The parts of a value between separators. */
  function SplitAll(s: string, at: char): (r: seq<string>)
    ensures r != []
    decreases |s|
  {
    match SplitOnce(s, at)
    case None => [s]
    case Some((before, after)) => [before] + SplitAll(after, at)
  }

  /** The refresher the parameters name: the last one counts, and a malformed one is an error. */
  function ReadParams(params: seq<string>, refresher: Option<Refresher>): Option<Option<Refresher>>
    decreases |params|
  {
    if params == [] then Some(refresher)
    else
      match SplitOnce(params[0], '=')
      case None => ReadParams(params[1..], refresher)
      case Some((name, val)) =>
        if Lower(Trim(name)) != "refresher" then ReadParams(params[1..], refresher)
        else
          match ReadRefresher(Trim(val))
          case None => None
          case Some(r) => ReadParams(params[1..], Some(r))
  }

  function Parse(value: string): Option<SessionExpires> {
    var parts := SplitAll(value, ';');
    match (ParseUnsigned(Trim(parts[0]), TWO_32 - 1), ReadParams(parts[1..], None))
    case (Some(n), Some(refresher)) => Some(SessionExpires(n, refresher))
    case _ => None
  }

  method ParseSessionExpires(value: string) returns (r: Option<SessionExpires>)
    ensures r == Parse(value)
  {
    hide Text.ParseUnsigned, Text.Trim, SplitAll, Text.SplitOnce, ReadRefresher, Text.Lower;
    var parts := SplitAll(value, ';');
    var interval := ParseUnsigned(Trim(parts[0]), TWO_32 - 1);
    if interval.None? {
      return None;
    }
    var refresher: Option<Refresher> := None;
    var i := 1;
    while i < |parts|
      invariant 1 <= i <= |parts|
      invariant ReadParams(parts[1..], None) == ReadParams(parts[i..], refresher)
    {
      var param := SplitOnce(parts[i], '=');
      assert parts[i..][1..] == parts[i + 1..];
      if param.Some? && Lower(Trim(param.value.0)) == "refresher" {
        var named := ReadRefresher(Trim(param.value.1));
        if named.None? {
          return None;
        }
        refresher := named;
      }
      i := i + 1;
    }
    r := Some(SessionExpires(interval.value, refresher));
  }

  lemma NamesRead(r: Refresher)
    ensures ReadRefresher(r.Name()) == Some(r) && Trim(r.Name()) == r.Name()
    ensures Lower("refresher") == "refresher" && Trim("refresher") == "refresher"
    ensures ';' !in "refresher" && '=' !in "refresher" && ';' !in r.Name()
  {
    TrimmedAlready(r.Name());
    TrimmedAlready("refresher");
    assert Lower("uac") == "uac" && Lower("uas") == "uas" && Lower("refresher") == "refresher";
    assert "uac"[2] == 'c' && "uas"[2] == 's';
  }

  lemma DigitsHaveNoSemicolon(digits: string)
    requires AllDigits(digits)
    ensures ';' !in digits
  {
    assert !IsDigit(';');
  }

  lemma OnePart(digits: string)
    requires ';' !in digits
    ensures SplitAll(digits, ';') == [digits] && ReadParams([digits][1..], None) == Some(None)
  {
  }

  lemma TwoParts(digits: string, name: string, value: string)
    requires ';' !in digits && ';' !in name && ';' !in value
    ensures SplitAll(digits + [';'] + (name + ['='] + value), ';') == [digits, name + ['='] + value]
  {
    var param := name + ['='] + value;
    assert ';' !in param;
    SplitAtFirst(digits, ';', param);
    hide Text.SplitOnce;
    assert SplitAll(param, ';') == [param];
  }

  lemma ParamRead(name: string, value: string, r: Refresher)
    requires '=' !in name && Lower(Trim(name)) == "refresher" && ReadRefresher(Trim(value)) == Some(r)
    ensures forall first: string :: ReadParams([first, name + ['='] + value][1..], None) == Some(Some(r))
  {
    SplitAtFirst(name, '=', value);
    hide Text.SplitOnce, ReadRefresher, Text.Lower, Text.Trim;
    forall first: string ensures ReadParams([first, name + ['='] + value][1..], None) == Some(Some(r)) {
      var params := [first, name + ['='] + value][1..];
      assert params == [name + ['='] + value] && params[1..] == [];
    }
  }

  /** What is printed reads back. */
  lemma HeaderValueReadsBack(se: SessionExpires)
    ensures Parse(se.HeaderValue()) == Some(se)
  {
    DecimalIsSolid(se.intervalSecs);
    DecimalParses(se.intervalSecs, TWO_32 - 1);
    DigitsHaveNoSemicolon(Decimal(se.intervalSecs));
    TrimmedAlready(Decimal(se.intervalSecs));
    hide Text.Decimal, Text.ParseUnsigned, Text.Trim, AllDigits;
    match se.refresher
    case None => OnePart(Decimal(se.intervalSecs));
    case Some(r) =>
      NamesRead(r);
      TwoParts(Decimal(se.intervalSecs), "refresher", r.Name());
      hide ReadRefresher, Text.Lower, SplitAll;
      ParamRead("refresher", r.Name(), r);
  }

  // ---- Headers ----

  /** The headers session timers read: `Supported` in its typed form, and untyped ones. */
  datatype Header = Supported(value: string) | Require(tags: string) | Other(name: string, text: string)

  predicate Named(h: Header, names: set<string>) {
    h.Other? && Lower(h.name) in names
  }

  function OtherValue(headers: seq<Header>, names: set<string>): Option<string> {
    if headers == [] then None
    else if Named(headers[0], names) then Some(headers[0].text)
    else OtherValue(headers[1..], names)
  }

  function SessionExpiresIn(headers: seq<Header>): Option<SessionExpires> {
    match OtherValue(headers, {"session-expires", "x"})
    case Some(value) => Parse(value)
    case None => None
  }

  function MinSeIn(headers: seq<Header>): Option<nat> {
    match OtherValue(headers, {"min-se"})
    case Some(value) => ParseUnsigned(Trim(SplitAll(value, ';')[0]), TWO_32 - 1)
    case None => None
  }

  predicate HasTimerToken(value: string) {
    var tags := SplitAll(value, ',');
    exists i :: 0 <= i < |tags| && Lower(Trim(tags[i])) == "timer"
  }

  predicate SupportsTimer(headers: seq<Header>) {
    exists i :: 0 <= i < |headers| &&
      match headers[i]
      case Supported(value) => HasTimerToken(value)
      case Other(name, value) => Lower(name) in {"supported", "k"} && HasTimerToken(value)
      case Require(_) => false
  }

  // ---- Negotiation ----

  datatype SessionTimer = SessionTimer(intervalSecs: nat, weAreRefresher: bool) {
    function RefreshAfter(): nat { intervalSecs / 2 * SECOND }

    function ExpiryAfter(): nat {
      var third := intervalSecs / 3;
      var headroom := if third < MAX_EXPIRY_HEADROOM_SECS then third else MAX_EXPIRY_HEADROOM_SECS;
      (intervalSecs - headroom) * SECOND
    }
  }

  function AtLeast(a: nat, b: nat): nat { if a >= b then a else b }

  function NegotiateUac(response: seq<Header>): Option<SessionTimer> {
    match SessionExpiresIn(response)
    case None => None
    case Some(se) => Some(SessionTimer(AtLeast(se.intervalSecs, MIN_SESSION_EXPIRES_SECS), se.refresher != Some(Uas)))
  }

  datatype UasSessionTimer = UasSessionTimer(timer: SessionTimer, echo: SessionExpires, requireTimer: bool) {
    /** The headers the callee adds to its 2xx, in order. */
    function Headers(): seq<Header> {
      [Supported("timer"), Other("Session-Expires", echo.HeaderValue())]
          + (if requireTimer then [Require("timer")] else [])
    }
  }

  function NegotiateUas(invite: seq<Header>): Option<UasSessionTimer> {
    match SessionExpiresIn(invite)
    case None => None
    case Some(se) =>
      var minSe: Word32 := match MinSeIn(invite) case Some(n) => n case None => 0;
      var interval := AtLeast(se.intervalSecs, AtLeast(minSe, MIN_SESSION_EXPIRES_SECS));
      var refresher := if !SupportsTimer(invite) then Uas else match se.refresher case Some(r) => r case None => Uac;
      Some(UasSessionTimer(SessionTimer(interval, refresher == Uas), SessionExpires(interval, Some(refresher)),
          SupportsTimer(invite)))
  }

  lemma {:induction false} EchoIsFound(base: seq<Header>, value: string, more: seq<Header>)
    requires forall i :: 0 <= i < |base| ==> !Named(base[i], {"session-expires", "x"})
    ensures OtherValue(base + ([Supported("timer"), Other("Session-Expires", value)] + more), {"session-expires", "x"})
        == Some(value)
  {
    var tail := [Supported("timer"), Other("Session-Expires", value)] + more;
    if base == [] {
      assert base + tail == tail;
      assert Lower("Session-Expires") == "session-expires";
      assert tail[1..][0] == Other("Session-Expires", value);
    } else {
      assert (base + tail)[1..] == base[1..] + tail;
      EchoIsFound(base[1..], value, more);
    }
  }

  /**
   Both sides agree: the caller that reads the callee's echo runs a timer of the same
   interval, the largest of 90 seconds, what was asked for and Min-SE, and exactly one of
   the two is the refresher: the callee if the caller named it or cannot refresh itself.
   */
  lemma SidesAgree(invite: seq<Header>, base: seq<Header>)
    requires NegotiateUas(invite).Some? && forall i :: 0 <= i < |base| ==> !Named(base[i], {"session-expires", "x"})
    ensures
      var uas := NegotiateUas(invite).value;
      var uac := NegotiateUac(base + uas.Headers());
      && uac.Some? && uac.value.intervalSecs == uas.timer.intervalSecs >= MIN_SESSION_EXPIRES_SECS
      && uac.value.weAreRefresher == !uas.timer.weAreRefresher
      && SessionExpiresIn(invite).value.intervalSecs <= uac.value.intervalSecs
      && (MinSeIn(invite).Some? ==> MinSeIn(invite).value <= uac.value.intervalSecs)
      && Some(uac.value.intervalSecs) in {Some(MIN_SESSION_EXPIRES_SECS),
          Some(SessionExpiresIn(invite).value.intervalSecs), MinSeIn(invite)}
      && (uas.timer.weAreRefresher <==> !SupportsTimer(invite) || SessionExpiresIn(invite).value.refresher == Some(Uas))
      && (Require("timer") in uas.Headers() <==> SupportsTimer(invite)) && Supported("timer") in uas.Headers()
  {
    var uas := NegotiateUas(invite).value;
    HeaderValueReadsBack(uas.echo);
    EchoIsFound(base, uas.echo.HeaderValue(), if uas.requireTimer then [Require("timer")] else []);
    hide Parse, OtherValue, SupportsTimer, MinSeIn, SessionExpires.HeaderValue, Text.Lower;
    assert base + uas.Headers()
        == base + ([Supported("timer"), Other("Session-Expires", uas.echo.HeaderValue())]
            + (if uas.requireTimer then [Require("timer")] else []));
  }

  /** The refresher has time to spare: at least a sixth of the interval. */
  lemma Headroom(timer: SessionTimer)
    ensures 6 * (timer.ExpiryAfter() - timer.RefreshAfter()) >= timer.intervalSecs * SECOND
  {
    var i := timer.intervalSecs;
    var third := i / 3;
    var headroom := if third < MAX_EXPIRY_HEADROOM_SECS then third else MAX_EXPIRY_HEADROOM_SECS;
    assert 6 * ((i - headroom) - i / 2) >= i;
  }

  // ---- The loop ----

  /** What the peer makes of one refresh. */
  datatype Reply = Accepted(granted: Option<SessionExpires>) | Rejected | Gone | Failed

  /** One refresh: how long it takes, and what comes of it. */
  datatype Exchange = Exchange(took: nat, reply: Reply)

  /** A moment; if it is the very end of a sleep, either may be seen first. */
  datatype Moment = Moment(at: nat, first: bool) {
    predicate Before(wake: nat) { at < wake || (at == wake && first) }
  }

  /** What the loop asks of its dialog, and when. */
  datatype Sent = Refresh(at: nat, interval: nat) | Bye(at: nat)

  datatype Outcome = Cancelled | Expired | RefreshFailed | DialogGone

  /** A run of the loop: its outcome, if it has ended, and what it sent. */
  datatype Run = Run(outcome: Option<Outcome>, sent: seq<Sent>)

  /** A re-granted interval is adopted, but never below the floor. */
  function NextInterval(interval: nat, granted: Option<SessionExpires>): nat {
    match granted
    case Some(se) => AtLeast(se.intervalSecs, MIN_SESSION_EXPIRES_SECS)
    case None => interval
  }

  predicate Stops(cancel: Option<Moment>, wake: nat) { cancel.Some? && cancel.value.Before(wake) }

  /** The refresher from the start of a sleep on, as far as the exchanges tell. */
  function RefresherRun(slept: nat, interval: nat, exchanges: seq<Exchange>, cancel: Option<Moment>): Run
    decreases |exchanges|
  {
    var wake := slept + SessionTimer(interval, true).RefreshAfter();
    if Stops(cancel, wake) then Run(Some(Cancelled), [])
    else if exchanges == [] then Run(None, [])
    else
      var refresh, done := Refresh(wake, interval), wake + exchanges[0].took;
      match exchanges[0].reply
      case Accepted(granted) =>
        var rest := RefresherRun(done, NextInterval(interval, granted), exchanges[1..], cancel);
        Run(rest.outcome, [refresh] + rest.sent)
      case Gone => Run(Some(DialogGone), [refresh])
      case _ => Run(Some(RefreshFailed), [refresh, Bye(done)])
  }

  /**
   The watchdog from a reset on, when the peer's refreshes arrive at these moments and the
   clock runs until `until`.
   */
  function WatchdogRun(reset: nat, expiry: nat, pings: seq<Moment>, cancel: Option<Moment>, until: nat): Run
    decreases |pings|
  {
    var lapse := reset + expiry;
    var pinged := pings != [] && pings[0].Before(lapse);
    var next := if pinged then AtLeast(reset, pings[0].at) else lapse;
    if Stops(cancel, next) then Run(Some(Cancelled), [])
    else if pinged then WatchdogRun(next, expiry, pings[1..], cancel, until)
    else if pings == [] && until < lapse then Run(None, [])
    else Run(Some(Expired), [Bye(lapse)])
  }

  /** The loop from its start on: a refresher or a watchdog. */
  function LoopRun(timer: SessionTimer, begun: nat, exchanges: seq<Exchange>, pings: seq<Moment>,
          cancel: Option<Moment>, until: nat): Run {
    var interval := AtLeast(timer.intervalSecs, MIN_SESSION_EXPIRES_SECS);
    if timer.weAreRefresher then RefresherRun(begun, interval, exchanges, cancel)
    else WatchdogRun(begun, SessionTimer(interval, false).ExpiryAfter(), pings, cancel, until)
  }

  lemma Appended(sent: seq<Sent>, next: Sent, rest: seq<Sent>)
    ensures sent + ([next] + rest) == sent + [next] + rest
  {
  }

  /** The refresher's loop. */
  method Refreshes(begun: nat, start: nat, exchanges: seq<Exchange>, cancel: Option<Moment>)
    returns (outcome: Option<Outcome>, sent: seq<Sent>)
    ensures Run(outcome, sent) == RefresherRun(begun, start, exchanges, cancel)
  {
    hide NextInterval, SessionTimer.RefreshAfter, Stops;
    var interval: nat, now: nat, i: nat := start, begun, 0;
    sent := [];
    assert exchanges[0..] == exchanges;
    while true
      invariant i <= |exchanges|
      invariant var rest := RefresherRun(now, interval, exchanges[i..], cancel);
                RefresherRun(begun, start, exchanges, cancel) == Run(rest.outcome, sent + rest.sent)
      decreases |exchanges| - i
    {
      var current := SessionTimer(interval, true);
      var wake := now + current.RefreshAfter();
      if Stops(cancel, wake) {
        return Some(Cancelled), sent;
      }
      if i == |exchanges| {
        return None, sent;
      }
      var exchange := exchanges[i];
      assert exchanges[i..][1..] == exchanges[i + 1..];
      ghost var before := sent;
      sent := sent + [Refresh(wake, interval)];
      now := wake + exchange.took;
      match exchange.reply {
        case Accepted(granted) =>
          interval := NextInterval(interval, granted);
          Appended(before, Refresh(wake, current.intervalSecs),
              RefresherRun(now, interval, exchanges[i + 1..], cancel).sent);
        case Gone => return Some(DialogGone), sent;
        case Rejected | Failed =>
          Appended(before, Refresh(wake, interval), [Bye(now)]);
          assert [Refresh(wake, interval)] + [Bye(now)] == [Refresh(wake, interval), Bye(now)];
          return Some(RefreshFailed), sent + [Bye(now)];
      }
      i := i + 1;
    }
  }

  /** The watchdog's loop. */
  method Watches(begun: nat, timer: SessionTimer, pings: seq<Moment>, cancel: Option<Moment>, until: nat)
    returns (outcome: Option<Outcome>, sent: seq<Sent>)
    ensures Run(outcome, sent) == WatchdogRun(begun, timer.ExpiryAfter(), pings, cancel, until)
  {
    hide SessionTimer.ExpiryAfter;
    var reset: nat, i: nat := begun, 0;
    assert pings[0..] == pings;
    while true
      invariant i <= |pings|
      invariant WatchdogRun(begun, timer.ExpiryAfter(), pings, cancel, until)
             == WatchdogRun(reset, timer.ExpiryAfter(), pings[i..], cancel, until)
      decreases |pings| - i
    {
      var lapse := reset + timer.ExpiryAfter();
      var pinged := i < |pings| && pings[i].Before(lapse);
      var next := if pinged then AtLeast(reset, pings[i].at) else lapse;
      if Stops(cancel, next) {
        return Some(Cancelled), [];
      }
      if !pinged {
        if i == |pings| && until < lapse {
          return None, [];
        }
        return Some(Expired), [Bye(lapse)];
      }
      assert pings[i..][1..] == pings[i + 1..];
      reset, i := next, i + 1;
    }
  }

  method SessionTimerLoop(timer: SessionTimer, begun: nat, exchanges: seq<Exchange>, pings: seq<Moment>,
          cancel: Option<Moment>, until: nat)
    returns (outcome: Option<Outcome>, sent: seq<Sent>)
    ensures Run(outcome, sent) == LoopRun(timer, begun, exchanges, pings, cancel, until)
  {
    var interval := AtLeast(timer.intervalSecs, MIN_SESSION_EXPIRES_SECS);
    if timer.weAreRefresher {
      outcome, sent := Refreshes(begun, interval, exchanges, cancel);
    } else {
      outcome, sent := Watches(begun, SessionTimer(interval, false), pings, cancel, until);
    }
  }

  // ---- What either loop sends ----

  /** Refreshes, and after them at most one BYE, exactly when the session expired or a refresh failed. */
  predicate WellSent(run: Run) {
    var tearsDown := run.outcome.Some? && run.outcome.value in {Expired, RefreshFailed};
    && (forall i :: 0 <= i < |run.sent| ==> (run.sent[i].Bye? <==> tearsDown && i == |run.sent| - 1))
    && (tearsDown ==> run.sent != [])
  }

  predicate RefreshFits(sent: seq<Sent>, slept: nat, interval: nat, exchanges: seq<Exchange>, i: nat)
    requires i < |sent| && sent[i].Refresh? && i < |exchanges|
  {
    var wait := SessionTimer(sent[i].interval, true).RefreshAfter();
    if i == 0 then sent[0] == Refresh(slept + wait, interval)
    else
      && sent[i - 1].Refresh? && exchanges[i - 1].reply.Accepted?
      && sent[i].interval == NextInterval(sent[i - 1].interval, exchanges[i - 1].reply.granted)
      && sent[i].at == sent[i - 1].at + exchanges[i - 1].took + wait
  }

  /** The i-th refresh asks for the interval the answers before it left, half of it after the last of them. */
  predicate FollowsGrants(sent: seq<Sent>, slept: nat, interval: nat, exchanges: seq<Exchange>) {
    forall i :: 0 <= i < |sent| && sent[i].Refresh? ==>
        i < |exchanges| && RefreshFits(sent, slept, interval, exchanges, i)
  }

  lemma LongerRun(first: Sent, run: Run, rest: Run)
    requires WellSent(rest) && run == Run(rest.outcome, [first] + rest.sent) && first.Refresh?
    ensures WellSent(run)
  {
    assert forall i :: 0 < i < |run.sent| ==> run.sent[i] == rest.sent[i - 1];
  }

  lemma LaterFit(sent: seq<Sent>, slept: nat, interval: nat, exchanges: seq<Exchange>, rest: seq<Sent>, done: nat,
          next: nat)
    requires exchanges != [] && exchanges[0].reply.Accepted? && FollowsGrants(rest, done, next, exchanges[1..])
    requires sent == [Refresh(slept + SessionTimer(interval, true).RefreshAfter(), interval)] + rest
    requires done == sent[0].at + exchanges[0].took && next == NextInterval(interval, exchanges[0].reply.granted)
    ensures FollowsGrants(sent, slept, interval, exchanges)
  {
    hide NextInterval, SessionTimer.RefreshAfter;
    forall i | 0 <= i < |sent| && sent[i].Refresh? ensures i < |exchanges|
        && RefreshFits(sent, slept, interval, exchanges, i) {
      if i > 0 {
        assert sent[i] == rest[i - 1] && exchanges[1..][i - 1] == exchanges[i];
        assert RefreshFits(rest, done, next, exchanges[1..], i - 1);
        assert i > 1 ==> sent[i - 1] == rest[i - 2] && exchanges[1..][i - 2] == exchanges[i - 1];
      }
    }
  }

  lemma {:induction false} RefresherSends(slept: nat, interval: nat, exchanges: seq<Exchange>, cancel: Option<Moment>)
    ensures
      var run := RefresherRun(slept, interval, exchanges, cancel);
      WellSent(run) && run.outcome != Some(Expired) && FollowsGrants(run.sent, slept, interval, exchanges)
    decreases |exchanges|
  {
    hide NextInterval, SessionTimer.RefreshAfter, Stops;
    var run := RefresherRun(slept, interval, exchanges, cancel);
    var wake := slept + SessionTimer(interval, true).RefreshAfter();
    if !Stops(cancel, wake) && exchanges != [] && exchanges[0].reply.Accepted? {
      var done, next := wake + exchanges[0].took, NextInterval(interval, exchanges[0].reply.granted);
      var rest := RefresherRun(done, next, exchanges[1..], cancel);
      RefresherSends(done, next, exchanges[1..], cancel);
      hide RefresherRun;
      LongerRun(Refresh(wake, interval), run, rest);
      LaterFit(run.sent, slept, interval, exchanges, rest.sent, done, next);
    }
  }

  /** One BYE, exactly on expiry, and no refresh. */
  lemma {:induction false} WatchdogSends(reset: nat, expiry: nat, pings: seq<Moment>, cancel: Option<Moment>,
          until: nat)
    ensures
      var run := WatchdogRun(reset, expiry, pings, cancel, until);
      WellSent(run) && run.outcome in {None, Some(Cancelled), Some(Expired)}
    decreases |pings|
  {
    var lapse := reset + expiry;
    if pings != [] && pings[0].Before(lapse) {
      WatchdogSends(AtLeast(reset, pings[0].at), expiry, pings[1..], cancel, until);
    }
  }

  function LastReset(reset: nat, pings: seq<Moment>, i: nat): nat
    requires i <= |pings|
  {
    if i == 0 then reset else pings[i - 1].at
  }

  /**
   From the reset to the first refresh, from each refresh to the next, and from the last to
   the end, less time passes than the expiry.
   */
  predicate Calm(reset: nat, expiry: nat, pings: seq<Moment>, until: nat) {
    && (forall i :: 0 <= i < |pings| ==> pings[i].at < LastReset(reset, pings, i) + expiry)
    && until < LastReset(reset, pings, |pings|) + expiry
  }

  /** Moments in order, each seen last if it is the very end of a sleep. */
  predicate InTurn(reset: nat, pings: seq<Moment>) {
    forall i :: 0 <= i < |pings| ==> !pings[i].first && LastReset(reset, pings, i) <= pings[i].at
  }

  lemma CalmStep(reset: nat, expiry: nat, pings: seq<Moment>, until: nat)
    requires pings != []
    ensures Calm(reset, expiry, pings, until)
        <==> pings[0].at < reset + expiry && Calm(pings[0].at, expiry, pings[1..], until)
  {
    var rest := pings[1..];
    assert forall i :: 0 <= i <= |rest| ==> LastReset(pings[0].at, rest, i) == LastReset(reset, pings, i + 1);
    if Calm(reset, expiry, pings, until) {
      forall i | 0 <= i < |rest| ensures rest[i].at < LastReset(pings[0].at, rest, i) + expiry {
        assert pings[i + 1].at < LastReset(reset, pings, i + 1) + expiry;
      }
    }
    if pings[0].at < reset + expiry && Calm(pings[0].at, expiry, rest, until) {
      forall i | 0 <= i < |pings| ensures pings[i].at < LastReset(reset, pings, i) + expiry {
        assert i > 0 ==> rest[i - 1].at < LastReset(pings[0].at, rest, i - 1) + expiry;
      }
    }
  }

  /** A watchdog that nobody cancels expires exactly if somewhere the peer is silent for the expiry. */
  lemma {:induction false} WatchdogExpiresIff(reset: nat, expiry: nat, pings: seq<Moment>, until: nat)
    requires InTurn(reset, pings)
    ensures WatchdogRun(reset, expiry, pings, None, until).outcome == if Calm(reset, expiry, pings, until) then None
        else Some(Expired)
    decreases |pings|
  {
    if pings == [] {
    } else {
      var rest := pings[1..];
      assert forall i :: 0 <= i < |rest| ==> rest[i] == pings[i + 1];
      CalmStep(reset, expiry, pings, until);
      hide Calm;
      if pings[0].Before(reset + expiry) {
        assert AtLeast(reset, pings[0].at) == pings[0].at;
        WatchdogExpiresIff(pings[0].at, expiry, rest, until);
      }
    }
  }

  // ---- On the clock ----

  /** How long a watchdog waits: its interval less 32 seconds, or less a third of it if that is shorter. */
  lemma Patience(interval: nat)
    ensures interval >= 96 ==> SessionTimer(interval, false).ExpiryAfter() == (interval - 32) * 1_000_000_000
    ensures interval < 96 ==> SessionTimer(interval, false).ExpiryAfter() == (interval - interval / 3) * 1_000_000_000
  {
  }

  lemma {:induction false} SilenceExpires(reset: nat, expiry: nat, pings: seq<Moment>, until: nat)
    requires InTurn(reset, pings) && LastReset(reset, pings, |pings|) + expiry <= until
    requires forall k :: 0 <= k < |pings| ==> pings[k].at < LastReset(reset, pings, k) + expiry
    ensures WatchdogRun(reset, expiry, pings, None, until)
         == Run(Some(Expired), [Bye(LastReset(reset, pings, |pings|) + expiry)])
    decreases |pings|
  {
    if pings == [] {
    } else {
      var rest := pings[1..];
      assert forall k :: 0 <= k < |rest| ==> rest[k] == pings[k + 1];
      assert forall k :: 0 <= k <= |rest| ==> LastReset(pings[0].at, rest, k) == LastReset(reset, pings, k + 1);
      assert pings[0].at < LastReset(reset, pings, 0) + expiry;
      assert AtLeast(reset, pings[0].at) == pings[0].at;
      SilenceExpires(pings[0].at, expiry, rest, until);
    }
  }

  /**
   The watchdog's one BYE, in nanoseconds: 32 seconds before the interval has passed since
   the last refresh of the peer, or since the start if there was none; a third of the
   interval before, if it is shorter than 96 seconds; never below the floor of 90 seconds.
   */
  lemma WatchdogByeAt(begun: nat, interval: nat, exchanges: seq<Exchange>, pings: seq<Moment>, until: nat)
    requires InTurn(begun, pings)
    requires
      var i := if interval < 90 then 90 else interval;
      var patience := (if i >= 96 then i - 32 else i - i / 3) * 1_000_000_000;
      && (forall k :: 0 <= k < |pings| ==> pings[k].at < LastReset(begun, pings, k) + patience)
      && LastReset(begun, pings, |pings|) + patience <= until
    ensures
      var i := if interval < 90 then 90 else interval;
      var last := if pings == [] then begun else pings[|pings| - 1].at;
      LoopRun(SessionTimer(interval, false), begun, exchanges, pings, None, until)
      == Run(Some(Expired), [Bye(last + (if i >= 96 then i - 32 else i - i / 3) * 1_000_000_000)])
  {
    var i := AtLeast(interval, MIN_SESSION_EXPIRES_SECS);
    Patience(i);
    SilenceExpires(begun, SessionTimer(i, false).ExpiryAfter(), pings, until);
  }

  /** What the refresher sends k-th, in nanoseconds from the exchange before. */
  predicate OnTheClock(sent: seq<Sent>, begun: nat, interval: nat, exchanges: seq<Exchange>, k: nat)
    requires k < |sent|
  {
    match sent[k]
    case Refresh(at, asked) =>
      if k == 0 then at == begun + interval / 2 * 1_000_000_000 && asked == interval
      else
        && k - 1 < |exchanges| && sent[k - 1].Refresh? && exchanges[k - 1].reply.Accepted?
        && at == sent[k - 1].at + exchanges[k - 1].took + asked / 2 * 1_000_000_000
        && asked == (match exchanges[k - 1].reply.granted
                     case Some(se) => if se.intervalSecs < 90 then 90 else se.intervalSecs
                     case None => sent[k - 1].interval)
    case Bye(at) =>
      && 0 < k <= |exchanges| && sent[k - 1].Refresh? && exchanges[k - 1].reply in {Rejected, Failed}
      && at == sent[k - 1].at + exchanges[k - 1].took
  }

  predicate AllAccepted(exchanges: seq<Exchange>, k: nat) {
    forall j :: 0 <= j < k && j < |exchanges| ==> exchanges[j].reply.Accepted?
  }

  /** How much an uncancelled refresher has sent after an exchange that ends it, if one does. */
  predicate SentEnough(run: Run, exchanges: seq<Exchange>, k: nat)
    requires k < |exchanges|
  {
    match exchanges[k].reply
    case Accepted(_) => k < |run.sent|
    case Gone => |run.sent| == k + 1 && run.outcome == Some(DialogGone)
    case _ => |run.sent| == k + 2 && run.outcome == Some(RefreshFailed)
  }

  /** Everything sent is on the clock, and nothing is left out of a run that is not cancelled. */
  predicate KeepsTime(run: Run, begun: nat, interval: nat, exchanges: seq<Exchange>, cancel: Option<Moment>) {
    && (forall k: nat :: k < |run.sent| ==> OnTheClock(run.sent, begun, interval, exchanges, k))
    && (cancel.None? ==>
        forall k: nat :: k < |exchanges| && AllAccepted(exchanges, k) ==> SentEnough(run, exchanges, k))
  }

  lemma ShiftClock(first: Sent, rest: seq<Sent>, begun: nat, done: nat, interval: nat, next: nat,
          exchanges: seq<Exchange>, k: nat)
    requires k < |rest| && exchanges != [] && exchanges[0].reply.Accepted?
    requires first == Refresh(begun + interval / 2 * 1_000_000_000, interval)
    requires done == first.at + exchanges[0].took && next == NextInterval(interval, exchanges[0].reply.granted)
    requires OnTheClock(rest, done, next, exchanges[1..], k)
    ensures OnTheClock([first] + rest, begun, interval, exchanges, k + 1)
  {
    var sent := [first] + rest;
    assert sent[k + 1] == rest[k] && (k > 0 ==> sent[k] == rest[k - 1] && exchanges[k] == exchanges[1..][k - 1]);
  }

  lemma LaterOnTheClock(first: Sent, run: Run, rest: Run, begun: nat, done: nat, interval: nat, next: nat,
          exchanges: seq<Exchange>, cancel: Option<Moment>)
    requires exchanges != [] && exchanges[0].reply.Accepted? && run == Run(rest.outcome, [first] + rest.sent)
    requires first == Refresh(begun + interval / 2 * 1_000_000_000, interval)
    requires done == first.at + exchanges[0].took && next == NextInterval(interval, exchanges[0].reply.granted)
    requires KeepsTime(rest, done, next, exchanges[1..], cancel)
    ensures KeepsTime(run, begun, interval, exchanges, cancel)
  {
    hide NextInterval;
    forall k: nat | k < |run.sent| ensures OnTheClock(run.sent, begun, interval, exchanges, k) {
      if k > 0 {
        assert OnTheClock(rest.sent, done, next, exchanges[1..], k - 1);
        ShiftClock(first, rest.sent, begun, done, interval, next, exchanges, k - 1);
      }
    }
    forall k: nat | k < |exchanges| && cancel.None? && AllAccepted(exchanges, k) ensures SentEnough(run, exchanges, k) {
      if k > 0 {
        assert AllAccepted(exchanges[1..], k - 1);
        assert SentEnough(rest, exchanges[1..], k - 1);
      }
    }
  }

  lemma {:induction false} RefresherOnTheClock(slept: nat, interval: nat, exchanges: seq<Exchange>,
          cancel: Option<Moment>)
    ensures KeepsTime(RefresherRun(slept, interval, exchanges, cancel), slept, interval, exchanges, cancel)
    decreases |exchanges|
  {
    var run := RefresherRun(slept, interval, exchanges, cancel);
    var wake := slept + SessionTimer(interval, true).RefreshAfter();
    if !Stops(cancel, wake) && exchanges != [] && exchanges[0].reply.Accepted? {
      var done, next := wake + exchanges[0].took, NextInterval(interval, exchanges[0].reply.granted);
      var rest := RefresherRun(done, next, exchanges[1..], cancel);
      RefresherOnTheClock(done, next, exchanges[1..], cancel);
      hide KeepsTime, NextInterval;
      LaterOnTheClock(Refresh(wake, interval), run, rest, slept, done, interval, next, exchanges, cancel);
    }
  }

  /**
   The refresher in nanoseconds: the first refresh half the interval after the start, each
   next one half the interval then in force after the answer, and after a refused or failed
   one a BYE at once. Nothing is left out of an uncancelled run.
   */
  lemma RefreshesAt(begun: nat, interval: nat, exchanges: seq<Exchange>, pings: seq<Moment>, cancel: Option<Moment>,
          until: nat)
    ensures KeepsTime(LoopRun(SessionTimer(interval, true), begun, exchanges, pings, cancel, until), begun,
        if interval < 90 then 90 else interval, exchanges, cancel)
  {
    var start := if interval < 90 then 90 else interval;
    assert start == AtLeast(interval, MIN_SESSION_EXPIRES_SECS);
    RefresherOnTheClock(begun, start, exchanges, cancel);
    hide KeepsTime;
  }

  // ---- The two loops against each other ----

  /** One refresh exchange: how long until the peer is pinged, until the answer is back, and what it grants. */
  datatype Round = Round(there: nat, back: nat, granted: Option<SessionExpires>)

  /** The rounds as the refresher meets them. */
  function Exchanges(rounds: seq<Round>): seq<Exchange> {
    seq(|rounds|, i requires 0 <= i < |rounds| =>
        Exchange(rounds[i].there + rounds[i].back, Accepted(rounds[i].granted)))
  }

  /**
   The rounds as the watchdog meets them, a moment after each refresh; at the very end of
   its sleep it may be too late.
   */
  function Pings(sent: seq<Sent>, rounds: seq<Round>): (pings: seq<Moment>)
    requires |sent| == |rounds|
    ensures |pings| == |sent| && forall i :: 0 <= i < |pings| ==>
        pings[i] == Moment(sent[i].at + rounds[i].there, false)
  {
    seq(|sent|, i requires 0 <= i < |sent| => Moment(sent[i].at + rounds[i].there, false))
  }

  /** The interval the refresher goes by in a round. */
  function IntervalAt(interval: nat, rounds: seq<Round>, i: nat): nat
    requires i <= |rounds|
  {
    if i == 0 then interval else NextInterval(IntervalAt(interval, rounds, i - 1), rounds[i - 1].granted)
  }

  /** The time between two pings that is not the refresher's sleep: one answer and one refresh on their way. */
  function LagAt(head: nat, rounds: seq<Round>, i: nat): nat
    requires i < |rounds|
  {
    (if i == 0 then head else rounds[i - 1].back) + rounds[i].there
  }

  /** How long the refresher sleeps in a round. */
  function SleepAt(interval: nat, rounds: seq<Round>, i: nat): nat
    requires i <= |rounds|
  {
    SessionTimer(IntervalAt(interval, rounds, i), true).RefreshAfter()
  }

  /** In every round the refresher's sleep and what is on its way are shorter than the watchdog's patience. */
  predicate InTime(head: nat, interval: nat, watchdog: SessionTimer, rounds: seq<Round>) {
    forall i :: 0 <= i < |rounds| ==> LagAt(head, rounds, i) + SleepAt(interval, rounds, i) < watchdog.ExpiryAfter()
  }

  lemma {:induction false} RoundsAllAccepted(slept: nat, interval: nat, rounds: seq<Round>)
    ensures
      var run := RefresherRun(slept, interval, Exchanges(rounds), None);
      run.outcome == None && |run.sent| == |rounds|
    decreases |rounds|
  {
    if rounds == [] {
    } else {
      hide NextInterval, SessionTimer.RefreshAfter;
      var done := slept + SessionTimer(interval, true).RefreshAfter() + rounds[0].there + rounds[0].back;
      assert Exchanges(rounds)[1..] == Exchanges(rounds[1..]);
      RoundsAllAccepted(done, NextInterval(interval, rounds[0].granted), rounds[1..]);
    }
  }

  /** When each refresh of the rounds goes out, and for which interval. */
  lemma {:induction false} RefreshAt(slept: nat, interval: nat, rounds: seq<Round>, sent: seq<Sent>, i: nat)
    requires |sent| == |rounds| && i < |sent| && (forall j :: 0 <= j < |sent| ==> sent[j].Refresh?)
    requires FollowsGrants(sent, slept, interval, Exchanges(rounds))
    ensures sent[i].interval == IntervalAt(interval, rounds, i)
    ensures sent[i].at == (if i == 0 then slept else sent[i - 1].at + rounds[i - 1].there + rounds[i - 1].back)
                          + SessionTimer(sent[i].interval, true).RefreshAfter()
  {
    hide NextInterval, SessionTimer.RefreshAfter;
    assert RefreshFits(sent, slept, interval, Exchanges(rounds), i);
    if i == 0 {
    } else {
      RefreshAt(slept, interval, rounds, sent, i - 1);
    }
  }

  /** The gaps between the pings are the lags and sleeps. */
  lemma GapIs(slept: nat, reset: nat, interval: nat, rounds: seq<Round>, sent: seq<Sent>, i: nat)
    requires reset <= slept && |sent| == |rounds| && i < |rounds| && (forall j :: 0 <= j < |sent| ==> sent[j].Refresh?)
    requires FollowsGrants(sent, slept, interval, Exchanges(rounds))
    ensures
      var pings := Pings(sent, rounds);
      pings[i].at == LastReset(reset, pings, i) + LagAt(slept - reset, rounds, i) + SleepAt(interval, rounds, i)
  {
    hide SessionTimer.RefreshAfter, FollowsGrants, IntervalAt, Pings;
    RefreshAt(slept, interval, rounds, sent, i);
  }

  lemma GapsAre(slept: nat, reset: nat, interval: nat, watchdog: SessionTimer, rounds: seq<Round>, sent: seq<Sent>,
          until: nat)
    requires reset <= slept && watchdog.ExpiryAfter() > 0
    requires |sent| == |rounds| && (forall j :: 0 <= j < |sent| ==> sent[j].Refresh?)
    requires FollowsGrants(sent, slept, interval, Exchanges(rounds))
    requires until == LastReset(reset, Pings(sent, rounds), |rounds|)
    ensures InTurn(reset, Pings(sent, rounds))
    ensures Calm(reset, watchdog.ExpiryAfter(), Pings(sent, rounds), until)
        <==> InTime(slept - reset, interval, watchdog, rounds)
  {
    hide SessionTimer.ExpiryAfter, FollowsGrants, Pings, LagAt, SleepAt, LastReset, Exchanges;
    var pings := Pings(sent, rounds);
    forall i | 0 <= i < |pings|
      ensures pings[i].at == LastReset(reset, pings, i) + LagAt(slept - reset, rounds, i) + SleepAt(interval, rounds, i)
    {
      GapIs(slept, reset, interval, rounds, sent, i);
    }
  }

  /** What the watchdog's loop comes to when it meets the refreshes of the refresher's loop. */
  lemma PlayedRounds(slept: nat, reset: nat, interval: nat, patience: nat, rounds: seq<Round>)
    requires reset <= slept && MIN_SESSION_EXPIRES_SECS <= patience
    ensures
      var run, watchdog := RefresherRun(slept, interval, Exchanges(rounds), None), SessionTimer(patience, false);
      && run.outcome == None && |run.sent| == |rounds|
      && var pings := Pings(run.sent, rounds);
      && WatchdogRun(reset, watchdog.ExpiryAfter(), pings, None, LastReset(reset, pings, |pings|)).outcome
         == if InTime(slept - reset, interval, watchdog, rounds) then None else Some(Expired)
  {
    var run, watchdog := RefresherRun(slept, interval, Exchanges(rounds), None), SessionTimer(patience, false);
    RoundsAllAccepted(slept, interval, rounds);
    RefresherSends(slept, interval, Exchanges(rounds), None);
    assert watchdog.ExpiryAfter() > 0;
    hide RefresherRun, WatchdogRun, InTime, Calm, FollowsGrants, InTurn, Exchanges, SessionTimer.ExpiryAfter, Pings,
        LastReset;
    var until := LastReset(reset, Pings(run.sent, rounds), |rounds|);
    GapsAre(slept, reset, interval, watchdog, rounds, run.sent, until);
    WatchdogExpiresIff(reset, watchdog.ExpiryAfter(), Pings(run.sent, rounds), until);
  }

  /**
   The two loops on one clock: the refresher began to sleep at `slept` and the watchdog was
   last reset at `reset`; each refresh pings the watchdog, and the clock stops at the last
   ping. The watchdog expires exactly if in some round the refresher's sleep and what is on
   its way take its whole patience.
   */
  method PlayRounds(slept: nat, reset: nat, interval: nat, patience: nat, rounds: seq<Round>)
    returns (outcome: Option<Outcome>)
    requires reset <= slept && MIN_SESSION_EXPIRES_SECS <= interval && MIN_SESSION_EXPIRES_SECS <= patience
    ensures outcome == if InTime(slept - reset, interval, SessionTimer(patience, false), rounds) then None
        else Some(Expired)
  {
    var ended, sent := SessionTimerLoop(SessionTimer(interval, true), slept, Exchanges(rounds), [], None, 0);
    PlayedRounds(slept, reset, interval, patience, rounds);
    hide RefresherRun, WatchdogRun, InTime;
    var pings, bye := Pings(sent, rounds), [];
    outcome, bye :=
        SessionTimerLoop(SessionTimer(patience, false), reset, [], pings, None, LastReset(reset, pings, |pings|));
  }

  // ---- When the watchdog never expires ----

  /** Each exchange, and what was on its way at the start, takes less than half of this. */
  predicate Quick(head: nat, rounds: seq<Round>, limit: int) {
    2 * head < limit && forall i :: 0 <= i < |rounds| ==> 2 * (rounds[i].there + rounds[i].back) < limit
  }

  lemma QuickLag(head: nat, rounds: seq<Round>, limit: int, i: nat)
    requires Quick(head, rounds, limit) && i < |rounds|
    ensures LagAt(head, rounds, i) < limit
  {
  }

  /** Both waits are whole seconds, so less than a second makes no difference between them. */
  lemma WholeSeconds(interval: nat, watchdog: SessionTimer, lag: nat)
    requires lag < SECOND
    ensures lag + SessionTimer(interval, true).RefreshAfter() < watchdog.ExpiryAfter()
            <==> SessionTimer(interval, true).RefreshAfter() < watchdog.ExpiryAfter()
  {
  }

  /**
   With exchanges shorter than half a second the grants alone decide: the watchdog never
   expires exactly if every interval that another refresh follows, the first and each
   adopted one, is refreshed before the watchdog's patience ends.
   */
  lemma GrantsDecide(head: nat, interval: nat, watchdog: SessionTimer, rounds: seq<Round>)
    requires Quick(head, rounds, SECOND)
    ensures InTime(head, interval, watchdog, rounds) <==>
      forall i :: 0 <= i < |rounds| ==> SleepAt(interval, rounds, i) < watchdog.ExpiryAfter()
  {
    forall i | 0 <= i < |rounds|
      ensures LagAt(head, rounds, i) + SleepAt(interval, rounds, i) < watchdog.ExpiryAfter()
              <==> SleepAt(interval, rounds, i) < watchdog.ExpiryAfter()
    {
      QuickLag(head, rounds, SECOND, i);
      WholeSeconds(IntervalAt(interval, rounds, i), watchdog, LagAt(head, rounds, i));
    }
  }

  /** A shorter interval is refreshed no later. */
  lemma RefreshMonotone(a: nat, b: nat)
    requires a <= b
    ensures SessionTimer(a, true).RefreshAfter() <= SessionTimer(b, true).RefreshAfter()
  {
  }

  /** No grant is longer than the interval agreed at the start. */
  predicate NoLonger(interval: nat, rounds: seq<Round>) {
    forall i :: 0 <= i < |rounds| && rounds[i].granted.Some? ==> rounds[i].granted.value.intervalSecs <= interval
  }

  lemma {:induction false} IntervalStays(interval: nat, agreed: nat, rounds: seq<Round>, i: nat)
    requires MIN_SESSION_EXPIRES_SECS <= interval <= agreed && NoLonger(agreed, rounds) && i <= |rounds|
    ensures IntervalAt(interval, rounds, i) <= agreed
  {
    if i == 0 {
    } else {
      IntervalStays(interval, agreed, rounds, i - 1);
    }
  }

  /**
   No false expiry: if no grant is longer than the agreed interval and every exchange takes
   less than half of what the watchdog waits longer than the refresher, the watchdog never
   expires, however many rounds there are.
   */
  lemma NoFalseExpiry(head: nat, interval: nat, watchdog: SessionTimer, rounds: seq<Round>)
    requires MIN_SESSION_EXPIRES_SECS <= interval <= watchdog.intervalSecs && NoLonger(watchdog.intervalSecs, rounds)
    requires Quick(head, rounds, watchdog.ExpiryAfter() - watchdog.RefreshAfter())
    ensures InTime(head, interval, watchdog, rounds)
  {
    forall i | 0 <= i < |rounds|
      ensures LagAt(head, rounds, i) + SleepAt(interval, rounds, i) < watchdog.ExpiryAfter()
    {
      QuickLag(head, rounds, watchdog.ExpiryAfter() - watchdog.RefreshAfter(), i);
      IntervalStays(interval, watchdog.intervalSecs, rounds, i);
      RefreshMonotone(IntervalAt(interval, rounds, i), watchdog.intervalSecs);
    }
  }

  /** A longer re-grant breaks it: the refresher adopts it, the watchdog does not. */
  lemma LongerGrantExpires()
    ensures
      var rounds := [Round(0, 0, Some(SessionExpires(1800, None))), Round(0, 0, None)];
      !InTime(0, 90, SessionTimer(90, false), rounds)
  {
    var rounds := [Round(0, 0, Some(SessionExpires(1800, None))), Round(0, 0, None)];
    assert IntervalAt(90, rounds, 0) == 90;
    assert IntervalAt(90, rounds, 1) == 1800;
    assert SessionTimer(1800, true).RefreshAfter() == 900 * SECOND
        && SessionTimer(90, false).ExpiryAfter() == 60 * SECOND;
    assert LagAt(0, rounds, 1) + SleepAt(90, rounds, 1) >= SessionTimer(90, false).ExpiryAfter();
  }

  /** Not every longer one: 3000 seconds against 1800 are refreshed in time. */
  lemma LongerGrantInTime()
    ensures
      var rounds := [Round(0, 0, Some(SessionExpires(3000, None))), Round(0, 0, None)];
      InTime(0, 1800, SessionTimer(1800, false), rounds) && !NoLonger(1800, rounds)
  {
    var rounds := [Round(0, 0, Some(SessionExpires(3000, None))), Round(0, 0, None)];
    assert IntervalAt(1800, rounds, 0) == 1800;
    assert IntervalAt(1800, rounds, 1) == 3000;
    assert rounds[0].granted.value.intervalSecs == 3000;
  }
}
