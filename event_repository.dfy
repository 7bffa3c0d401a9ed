/** The in-memory event repository: a public array of events that `create`
    appends to, `delete` filters and `update` overwrites at one index. */
module EventRepository {
  import opened Common
  import opened Seqs
  import opened Event

  const EventNotFound := "Event not found"

  /** `findById` on a sequence of events: the first with that id. */
  function FindEvent(events: seq<EventProps>, id: string): (r: Option<EventProps>)
    ensures r.None? <==> forall j :: 0 <= j < |events| ==> events[j].id != id
    ensures r.Some? ==> r.value.id == id && r.value in events
    ensures r.Some? ==> IndexOf(events, EventIdOf, id) >= 0 && r.value == events[IndexOf(events, EventIdOf, id)]
  {
    FindFirst(events, EventIdOf, id)
  }

  class InMemoryEventRepository {
    var events: seq<EventProps>

    constructor ()
      ensures events == []
    {
      events := [];
    }

    /** `create`: appends and returns the same event. */
    method Create(event: EventProps) returns (created: EventProps)
      modifies this
      ensures events == old(events) + [event]
      ensures created == event
    {
      events := events + [event];
      created := event;
    }

    /** `findAll`: the stored events, in order. */
    function FindAll(): (r: seq<EventProps>)
      reads this
      ensures r == events
    {
      events
    }

    /** `findById`. */
    function FindById(id: string): (r: Option<EventProps>)
      reads this
      ensures r == FindEvent(events, id)
    {
      FindEvent(events, id)
    }

    /** `delete`: keeps, in order, every event with another id. */
    method Delete(id: string)
      modifies this
      ensures events == RemoveAll(old(events), EventIdOf, id)
      ensures FindEvent(events, id).None?
      ensures forall other :: other != id ==> FindEvent(events, other) == FindEvent(old(events), other)
    {
      ghost var before := events;
      events := RemoveAll(events, EventIdOf, id);
      forall other | other != id
        ensures FindEvent(events, other) == FindEvent(before, other)
      {
        FindOtherAfterRemoveAll(before, EventIdOf, id, other);
      }
    }

    /** `update(id, event)`: the first event with that id is overwritten in
        place by `event`; 'Event not found' and no change when there is none. */
    method Update(id: string, event: EventProps) returns (r: Result<EventProps>)
      modifies this
      ensures IndexOf(old(events), EventIdOf, id) == -1 ==> r == Err(EventNotFound) && events == old(events)
      ensures IndexOf(old(events), EventIdOf, id) >= 0 ==>
        r == Ok(event) && events == old(events)[IndexOf(old(events), EventIdOf, id) := event]
    {
      var index := IndexOf(events, EventIdOf, id);
      if index == -1 {
        return Err(EventNotFound);
      }
      events := events[index := event];
      r := Ok(event);
    }
  }

  /** An update that keeps the id is seen by the next lookup of that id, and
      leaves every other id's lookup as it was. */
  lemma UpdateKeepingId(events: seq<EventProps>, event: EventProps, other: string)
    requires IndexOf(events, EventIdOf, event.id) >= 0
    ensures var after := events[IndexOf(events, EventIdOf, event.id) := event];
      && FindEvent(after, event.id) == Some(event)
      && (other != event.id ==> FindEvent(after, other) == FindEvent(events, other))
  {
    assert events[IndexOf(events, EventIdOf, event.id) := event] == ReplaceFirst(events, EventIdOf, event);
    FindAfterReplace(events, EventIdOf, event);
    if other != event.id {
      FindOtherAfterReplace(events, EventIdOf, event, other);
    }
  }
}
