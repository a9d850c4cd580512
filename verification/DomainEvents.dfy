/** How domain events travel from aggregates, through the collector of a use case, into outbox drafts. */
module DomainEvents {
  import opened Wrappers
  import opened EventBus
  import opened Outbox

  class AggregateRoot {
    var events: seq<Event>

    constructor ()
      ensures events == []
    {
      events := [];
    }

    method Record(event: Event)
      modifies this
      ensures events == old(events) + [event]
    {
      events := events + [event];
    }

    method PullEvents() returns (pulled: seq<Event>)
      modifies this
      ensures pulled == old(events) && events == []
    {
      pulled := events;
      events := [];
    }
  }

  /** The buffered events of `aggregates` in order, each aggregate counted at its first occurrence only. */
  ghost function Buffered(aggregates: seq<AggregateRoot>): seq<Event>
    reads aggregates
  {
    if aggregates == [] then []
    else
      var init, last := aggregates[..|aggregates| - 1], aggregates[|aggregates| - 1];
      Buffered(init) + if last in init then [] else last.events
  }

  /** The events of one aggregate after the other. */
  ghost function Joined(aggregates: seq<AggregateRoot>): seq<Event>
    reads aggregates
  {
    if aggregates == [] then [] else aggregates[0].events + Joined(aggregates[1..])
  }

  lemma {:induction false} JoinedGrows(aggregates: seq<AggregateRoot>, last: AggregateRoot)
    ensures Joined(aggregates + [last]) == Joined(aggregates) + last.events
  {
    if aggregates == [] {
      assert [last][1..] == [] && aggregates + [last] == [last];
    } else {
      assert (aggregates + [last])[1..] == aggregates[1..] + [last];
      JoinedGrows(aggregates[1..], last);
    }
  }

  /** Without repeated aggregates the buffers are simply joined. */
  lemma {:induction false} DistinctAreJoined(aggregates: seq<AggregateRoot>)
    requires forall i, j :: 0 <= i < j < |aggregates| ==> aggregates[i] != aggregates[j]
    ensures Buffered(aggregates) == Joined(aggregates)
  {
    if aggregates != [] {
      var init, last := aggregates[..|aggregates| - 1], aggregates[|aggregates| - 1];
      DistinctAreJoined(init);
      JoinedGrows(init, last);
      assert init + [last] == aggregates;
    }
  }

  /** A repetition adds nothing. */
  lemma RepeatedAddsNothing(aggregates: seq<AggregateRoot>, again: AggregateRoot)
    requires again in aggregates
    ensures Buffered(aggregates + [again]) == Buffered(aggregates)
  {
    assert (aggregates + [again])[..|aggregates|] == aggregates;
  }

  datatype PublishError = OutsideTransaction

  /** Appends drafts to the ambient transaction, when there is one. */
  class PostgresEventPublisher {
    var ambient: Option<seq<Draft>>

    constructor (ambient: Option<seq<Draft>>)
      ensures this.ambient == ambient
    {
      this.ambient := ambient;
    }

    /** `firstId` and the ids after it stand for the generated row ids. */
    method Publish(events: seq<Event>, firstId: RowId, now: int) returns (r: Result<(), PublishError>)
      modifies this
      ensures events == [] ==> r == Ok(()) && ambient == old(ambient)
      ensures events != [] && old(ambient) == None ==> r == Err(OutsideTransaction) && ambient == None
      ensures events != [] && old(ambient).Some? ==>
                && r == Ok(())
                && ambient.Some? && |ambient.value| == |old(ambient).value| + |events|
                && ambient.value[..|old(ambient).value|] == old(ambient).value
                && forall i :: 0 <= i < |events| ==> ambient.value[|old(ambient).value| + i] == Draft(firstId + i, events[i], now)
    {
      if events == [] {
        return Ok(());
      }
      if ambient == None {
        return Err(OutsideTransaction);
      }
      var drafts := seq(|events|, i requires 0 <= i < |events| => Draft(firstId + i, events[i], now));
      ambient := Some(ambient.value + drafts);
      r := Ok(());
    }
  }

  class DomainEventCollector {
    var events: seq<Event>

    constructor ()
      ensures events == []
    {
      events := [];
    }

    /** Moves every buffered event exactly once: nothing is lost, nothing is doubled, the buffers end empty. */
    method Collect(aggregates: seq<AggregateRoot>)
      modifies this, aggregates
      ensures events == old(events) + old(Buffered(aggregates))
      ensures forall a :: a in aggregates ==> a.events == []
    {
      for i := 0 to |aggregates|
        invariant events == old(events) + old(Buffered(aggregates[..i]))
        invariant forall a :: a in aggregates[..i] ==> a.events == []
        invariant forall a :: a in aggregates && a !in aggregates[..i] ==> a.events == old(a.events)
      {
        ghost var before := aggregates[..i];
        assert aggregates[..i + 1] == before + [aggregates[i]];
        var pulled := aggregates[i].PullEvents();
        events := events + pulled;
        assert aggregates[..i + 1][..i] == before;
      }
      assert aggregates[..|aggregates|] == aggregates;
    }

    method Publish(publisher: PostgresEventPublisher, firstId: RowId, now: int) returns (r: Result<(), PublishError>)
      modifies publisher
      ensures r.Err? <==> events != [] && old(publisher.ambient) == None
      ensures r.Err? || events == [] ==> publisher.ambient == old(publisher.ambient)
      ensures r.Ok? && events != [] ==>
                && publisher.ambient.Some?
                && |publisher.ambient.value| == |old(publisher.ambient).value| + |events|
                && publisher.ambient.value[..|old(publisher.ambient).value|] == old(publisher.ambient).value
                && forall i :: 0 <= i < |events| ==> publisher.ambient.value[|old(publisher.ambient).value| + i] == Draft(firstId + i, events[i], now)
    {
      if |events| > 0 {
        r := publisher.Publish(events, firstId, now);
      } else {
        r := Ok(());
      }
    }
  }
}
