/** Event update: two checks, then the store's in-place replacement. The new
    data is not validated. */
module UpdateEvent {
  import opened Common
  import opened Seqs
  import opened Event
  import opened EventRepository

  const EventIdRequired := "Event ID is required"

  /** `execute(eventId, eventData)`: `eventData` is stored as given (the
      source casts it to an event without constructing one). */
  method Execute(eventRepository: InMemoryEventRepository, eventId: string, eventData: EventProps)
    returns (r: Result<EventProps>)
    modifies eventRepository
    ensures eventId == "" ==> r == Err(EventIdRequired) && eventRepository.events == old(eventRepository.events)
    ensures eventId != "" && FindEvent(old(eventRepository.events), eventId).None? ==>
      r == Err(EventNotFound) && eventRepository.events == old(eventRepository.events)
    ensures eventId != "" && FindEvent(old(eventRepository.events), eventId).Some? ==>
      && r == Ok(eventData)
      && |eventRepository.events| == |old(eventRepository.events)|
      && eventRepository.events == old(eventRepository.events)[IndexOf(old(eventRepository.events), EventIdOf, eventId) := eventData]
  {
    if eventId == "" {
      return Err(EventIdRequired);
    }
    var existingEvent := eventRepository.FindById(eventId);
    if existingEvent.None? {
      return Err(EventNotFound);
    }
    r := eventRepository.Update(eventId, eventData);
  }

  /** What a lookup of the same id sees after an update: the new data when
      it keeps the id; nothing when it carries another id (or none) and the
      replaced event was the only one with that id. */
  lemma LookupAfterUpdate(events: seq<EventProps>, eventId: string, eventData: EventProps)
    requires IndexOf(events, EventIdOf, eventId) >= 0
    ensures var after := events[IndexOf(events, EventIdOf, eventId) := eventData];
      eventData.id == eventId ==> FindEvent(after, eventId) == Some(eventData)
    ensures var i := IndexOf(events, EventIdOf, eventId);
      (eventData.id != eventId && forall j :: 0 <= j < |events| && events[j].id == eventId ==> j == i)
        ==> FindEvent(events[i := eventData], eventId).None?
  {
    if eventData.id == eventId {
      UpdateKeepingId(events, eventData, eventId);
    }
  }
}
