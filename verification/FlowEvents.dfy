/**
 The engine's events through the router to one flow: whoever subscribes for a key before its
 client transaction starts hears provisional responses, then one final response or one
 timeout, then the termination, and nothing after.
 */
module FlowEvents {
  import opened Wrappers
  import opened Sip
  import opened Transaction
  import opened EngineModel
  import opened EngineRuns
  import opened EventTraces
  import R = Routing

  predicate EndOfStory(events: seq<Event>) {
    events == [] || (|events| == 1 && events[0].TerminatedEvent?)
  }

  /** Provisional responses, then a final response or a timeout, then the termination; or a prefix of that. */
  predicate ClientStory(events: seq<Event>) {
    events == []
    || (events[0].ResponseEvent? && events[0].response.status < 200 && ClientStory(events[1..]))
    || ((events[0].TimedOutEvent? || (events[0].ResponseEvent? && events[0].response.status >= 200))
        && EndOfStory(events[1..]))
  }

  /** What may still be told of a client whose trace stands here. */
  predicate Story(t: Trace, events: seq<Event>) {
    match t
    case ClientOpen => ClientStory(events)
    case ClientDone => EndOfStory(events)
    case _ => events == []
  }

  /** The events among log items. */
  function EventsIn(items: seq<LogItem>): seq<Event> {
    if items == [] then []
    else (match items[0] case Published(event) => [event] case Born(_, _) => []) + EventsIn(items[1..])
  }

  /** The events among what reaches the router. */
  function Arriving(inputs: seq<R.Input>): seq<Event> {
    if inputs == [] then [] else (if inputs[0].Arrives? then [inputs[0].event] else []) + Arriving(inputs[1..])
  }

  /** No other client is started under the key. */
  predicate OneClient(items: seq<LogItem>, key: TransactionKey) {
    forall i :: 0 <= i < |items| ==> items[i] != Born(key, true)
  }

  lemma {:induction false} GarbledStays(key: TransactionKey, items: seq<LogItem>)
    requires OneClient(items, key)
    ensures Continue(Garbled, key, items) == Garbled
    decreases |items|
  {
    if items == [] {
    } else {
      assert items[0] != Born(key, true);
      assert forall i :: 0 <= i < |items[1..]| ==> items[1..][i] == items[i + 1];
      GarbledStays(key, items[1..]);
    }
  }

  /** What one event does to the trace of a client that is not over, and to the share of its flow. */
  lemma EventTold(t: Trace, key: TransactionKey, event: Event, rest: seq<Event>)
    requires t in {ClientOpen, ClientDone} && About(Published(event), key) && t.After(Published(event)) != Garbled
    requires Story(t.After(Published(event)), rest)
    ensures R.ClientKey(event) == Some(key) && Story(t, [event] + rest)
    ensures event.TerminatedEvent? <==> t.After(Published(event)) == Over
  {
    assert ([event] + rest)[1..] == rest;
  }

  lemma NothingTold(t: Trace)
    ensures Story(t, [])
  {
  }

  lemma OthersShare(event: Event, key: TransactionKey, inputs: seq<R.Input>)
    requires inputs != [] && inputs[0] == R.Arrives(event) && !About(Published(event), key)
    ensures R.Share(inputs, key) == R.Share(inputs[1..], key)
  {
    assert [] + R.Share(inputs[1..], key) == R.Share(inputs[1..], key);
  }

  lemma {:induction false} NextTold(t: Trace, key: TransactionKey, items: seq<LogItem>, inputs: seq<R.Input>)
    requires t in {ClientOpen, ClientDone} && OneClient(items, key) && Continue(t, key, items) != Garbled
    requires inputs != [] && inputs[0].Arrives? && Arriving(inputs) <= EventsIn(items)
    ensures Story(t, R.Share(inputs, key))
    decreases |items| + |inputs|, 0
  {
    hide Story, R.ClientKey;
    var event, more, later := inputs[0].event, inputs[1..], items[1..];
    assert Arriving(inputs) == [event] + Arriving(more);
    assert items[0] != Born(key, true);
    assert forall i :: 0 <= i < |later| ==> later[i] == items[i + 1];
    var t' := if About(items[0], key) then t.After(items[0]) else t;
    if t' == Garbled {
      GarbledStays(key, later);
    } else if items[0].Born? {
      assert EventsIn(items) == EventsIn(later);
      NextTold(t, key, later, inputs);
    } else {
      assert EventsIn(items) == [items[0].event] + EventsIn(later);
      assert event == EventsIn(items)[0];
      assert Arriving(more) == Arriving(inputs)[1..] && EventsIn(later) == EventsIn(items)[1..];
      if About(items[0], key) {
        OwnTold(t, key, event, later, more);
      } else {
        ShareIsTold(t, key, later, more);
        OthersShare(event, key, inputs);
      }
    }
  }

  lemma {:induction false} ShareIsTold(t: Trace, key: TransactionKey, items: seq<LogItem>, inputs: seq<R.Input>)
    requires t in {ClientOpen, ClientDone} && OneClient(items, key) && Continue(t, key, items) != Garbled
    requires Arriving(inputs) <= EventsIn(items)
    ensures Story(t, R.Share(inputs, key))
    decreases |items| + |inputs|, 1
  {
    hide Story, R.ClientKey;
    if inputs == [] {
      NothingTold(t);
    } else if inputs[0].Subscribe? {
      assert Arriving(inputs) == Arriving(inputs[1..]);
      NothingTold(t);
      if inputs[0].key != key {
        ShareIsTold(t, key, items, inputs[1..]);
        assert [] + R.Share(inputs[1..], key) == R.Share(inputs[1..], key);
      }
    } else {
      NextTold(t, key, items, inputs);
    }
  }

  lemma {:induction false} OwnTold(t: Trace, key: TransactionKey, event: Event, items: seq<LogItem>,
          inputs: seq<R.Input>)
    requires t in {ClientOpen, ClientDone} && OneClient(items, key) && About(Published(event), key)
    requires t.After(Published(event)) != Garbled && Continue(t.After(Published(event)), key, items) != Garbled
    requires Arriving(inputs) <= EventsIn(items)
    ensures Story(t, R.Share([R.Arrives(event)] + inputs, key))
    decreases |items| + |inputs|, 2
  {
    var t' := t.After(Published(event));
    var all := [R.Arrives(event)] + inputs;
    assert all[1..] == inputs;
    if t' == Over {
      EventTold(t, key, event, []);
      assert R.Share(all, key) == [event] + [];
    } else {
      ShareIsTold(t', key, items, inputs);
      EventTold(t, key, event, R.Share(inputs, key));
    }
  }

  /**
   A flow that has subscribed for a key when its client starts, and for nothing else, is
   handed the client's story: a prefix of 1xx*, a final response or a timeout, and the
   termination, whatever else the engine does and however late the router is.
   */
  lemma FlowHearsItsClient(timers: Timers, rel: Reliability, run: seq<EngineRuns.Input>, key: TransactionKey,
          before: seq<LogItem>, after: seq<LogItem>, s: R.RouterState, inputs: seq<R.Input>, flow: nat)
    requires Exec(Initially(timers, rel), run).log == before + [Born(key, true)] + after && OneClient(after, key)
    requires R.Subscribed(s, key, flow) && R.Exclusive(s, inputs, key, flow) && R.HandedTo(s.handed, flow) == []
    requires Arriving(inputs) <= EventsIn(after)
    ensures ClientStory(R.HandedTo(R.Run(s, inputs).handed, flow))
  {
    var log, born := Exec(Initially(timers, rel), run).log, [Born(key, true)];
    EventsInOrder(timers, rel, run, key);
    hide Exec, R.Run, R.Exclusive, R.Share;
    ContinueConcat(Silent, key, before + born, after);
    ContinueConcat(Silent, key, before, born);
    assert born[1..] == [];
    assert Continue(Continue(Silent, key, before), key, born) == ClientOpen;
    ShareIsTold(ClientOpen, key, after, inputs);
    R.EachFlowItsShare(s, inputs, key, flow);
    assert [] + R.Share(inputs, key) == R.Share(inputs, key);
  }
}
