/** Event deletion: two checks, then the store's filter. */
module DeleteEvent {
  import opened Common
  import opened Seqs
  import opened Event
  import opened EventRepository

  const EventIdRequired := "Event ID is required"

  method Execute(eventRepository: InMemoryEventRepository, eventId: string) returns (r: Result<()>)
    modifies eventRepository
    ensures eventId == "" ==> r == Err(EventIdRequired) && eventRepository.events == old(eventRepository.events)
    ensures eventId != "" && FindEvent(old(eventRepository.events), eventId).None? ==>
      r == Err(EventNotFound) && eventRepository.events == old(eventRepository.events)
    ensures eventId != "" && FindEvent(old(eventRepository.events), eventId).Some? ==>
      && r == Ok(())
      && eventRepository.events == RemoveAll(old(eventRepository.events), EventIdOf, eventId)
      && FindEvent(eventRepository.events, eventId).None?
      && (forall other :: other != eventId ==>
            FindEvent(eventRepository.events, other) == FindEvent(old(eventRepository.events), other))
  {
    if eventId == "" {
      return Err(EventIdRequired);
    }
    var existingEvent := eventRepository.FindById(eventId);
    if existingEvent.None? {
      return Err(EventNotFound);
    }
    eventRepository.Delete(eventId);
    r := Ok(());
  }
}
