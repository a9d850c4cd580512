/** In-process dispatch of integration events: typed handlers first, then catch-all handlers, one at a time. */
module EventBus {
  import opened Wrappers

  type Handler = nat

  datatype Event = Event(eventType: string, tenantId: Option<string>, payload: string)

  datatype Call = Call(handler: Handler, event: Event)

  datatype Bus = Bus(typed: map<string, seq<Handler>>, catchAll: seq<Handler>)

  function HandlersFor(bus: Bus, eventType: string): seq<Handler> {
    (if eventType in bus.typed then bus.typed[eventType] else []) + bus.catchAll
  }

  /** The handlers of the first event in their order, then those of the next one, and so on: `ran` is that and no more. */
  ghost predicate InOrder(bus: Bus, events: seq<Event>, ran: seq<Call>)
    decreases |events|
  {
    if events == [] then ran == []
    else
      var handlers := HandlersFor(bus, events[0].eventType);
      && |handlers| <= |ran|
      && (forall i :: 0 <= i < |handlers| ==> ran[i] == Call(handlers[i], events[0]))
      && InOrder(bus, events[1..], ran[|handlers|..])
  }

  /** All of the first `n` events were handled, and then the first few handlers of the next one, up to one that threw. */
  ghost predicate ThrewAt(bus: Bus, events: seq<Event>, throws: Call -> bool, ran: seq<Call>, n: nat, start: nat) {
    && n < |events| && start <= |ran| && InOrder(bus, events[..n], ran[..start])
    && var handlers := HandlersFor(bus, events[n].eventType);
    && |ran| - start < |handlers|
    && (forall i :: 0 <= i < |ran| - start ==> ran[start + i] == Call(handlers[i], events[n]))
    && throws(Call(handlers[|ran| - start], events[n]))
  }

  ghost predicate Threw(bus: Bus, events: seq<Event>, throws: Call -> bool, ran: seq<Call>) {
    exists n, start :: ThrewAt(bus, events, throws, ran, n, start)
  }

  lemma {:induction false} InOrderGrows(bus: Bus, events: seq<Event>, ran: seq<Call>, event: Event, more: seq<Call>)
    requires InOrder(bus, events, ran) && |more| == |HandlersFor(bus, event.eventType)|
    requires forall i :: 0 <= i < |more| ==> more[i] == Call(HandlersFor(bus, event.eventType)[i], event)
    ensures InOrder(bus, events + [event], ran + more)
    decreases |events|
  {
    if events == [] {
      assert [event][1..] == [] && ran + more == more && more[|more|..] == [];
      assert events + [event] == [event];
    } else {
      var n := |HandlersFor(bus, events[0].eventType)|;
      InOrderGrows(bus, events[1..], ran[n..], event, more);
      GoesOn(bus, events, ran, event, more, n);
    }
  }

  lemma GoesOn(bus: Bus, events: seq<Event>, ran: seq<Call>, event: Event, more: seq<Call>, n: nat)
    requires events != [] && InOrder(bus, events, ran) && n == |HandlersFor(bus, events[0].eventType)|
    requires InOrder(bus, events[1..] + [event], ran[n..] + more)
    ensures InOrder(bus, events + [event], ran + more)
  {
    assert (events + [event])[1..] == events[1..] + [event];
    assert (ran + more)[n..] == ran[n..] + more;
  }

  lemma StopsThere(bus: Bus, events: seq<Event>, throws: Call -> bool, ran: seq<Call>, n: nat, more: seq<Call>)
    requires n < |events| && InOrder(bus, events[..n], ran)
    requires
      var handlers := HandlersFor(bus, events[n].eventType);
      && |more| < |handlers| && throws(Call(handlers[|more|], events[n]))
      && forall i :: 0 <= i < |more| ==> more[i] == Call(handlers[i], events[n])
    ensures Threw(bus, events, throws, ran + more)
  {
    assert (ran + more)[..|ran|] == ran;
    assert ThrewAt(bus, events, throws, ran + more, n, |ran|);
  }

  class InProcessEventBus {
    var typed: map<string, seq<Handler>>
    var catchAll: seq<Handler>

    constructor ()
      ensures Registered() == Bus(map[], [])
    {
      typed, catchAll := map[], [];
    }

    function Registered(): Bus
      reads this
    {
      Bus(typed, catchAll)
    }

    method Register(eventType: string, handler: Handler)
      modifies this
      ensures HandlersFor(Registered(), eventType) ==
              (if eventType in old(typed) then old(typed[eventType]) else []) + [handler] + old(catchAll)
      ensures forall t :: t != eventType ==> HandlersFor(Registered(), t) == HandlersFor(old(Registered()), t)
    {
      var existing := if eventType in typed then typed[eventType] else [];
      typed := typed[eventType := existing + [handler]];
    }

    method RegisterAll(handler: Handler)
      modifies this
      ensures forall t :: HandlersFor(Registered(), t) == HandlersFor(old(Registered()), t) + [handler]
    {
      catchAll := catchAll + [handler];
    }

    /** The inner loop: one event, its handlers one after the other, stopping at the first one that throws. */
    method DispatchOne(event: Event, throws: Call -> bool) returns (ran: seq<Call>, ok: bool)
      ensures
        var handlers := HandlersFor(Registered(), event.eventType);
        && (if ok then |ran| == |handlers| else |ran| < |handlers| && throws(Call(handlers[|ran|], event)))
        && forall i :: 0 <= i < |ran| ==> ran[i] == Call(handlers[i], event) && !throws(ran[i])
    {
      var handlers := (if event.eventType in typed then typed[event.eventType] else []) + catchAll;
      ran := [];
      for h := 0 to |handlers|
        invariant |ran| == h
        invariant forall i :: 0 <= i < h ==> ran[i] == Call(handlers[i], event) && !throws(ran[i])
      {
        if throws(Call(handlers[h], event)) {
          return ran, false;
        }
        ran := ran + [Call(handlers[h], event)];
      }
      ok := true;
    }

    /** `ran` are the calls that returned. */
    method Dispatch(events: seq<Event>, throws: Call -> bool) returns (ran: seq<Call>, ok: bool)
      ensures forall c :: c in ran ==> !throws(c)
      ensures ok ==> InOrder(Registered(), events, ran)
      ensures !ok ==> Threw(Registered(), events, throws, ran)
    {
      ran := [];
      for i := 0 to |events|
        invariant InOrder(Registered(), events[..i], ran)
        invariant forall c :: c in ran ==> !throws(c)
      {
        var more, completed := DispatchOne(events[i], throws);
        if !completed {
          StopsThere(Registered(), events, throws, ran, i, more);
          return ran + more, false;
        }
        InOrderGrows(Registered(), events[..i], ran, events[i], more);
        assert events[..i] + [events[i]] == events[..i + 1];
        ran := ran + more;
      }
      assert events[..|events|] == events;
      ok := true;
    }
  }
}
