/** Event lookup by id: one check, then the store's lookup. */
module GetEventById {
  import opened Common
  import opened Event
  import opened EventRepository

  const EventIdRequired := "Event ID is required"

  /** `execute(eventId)`: the store's answer, `None` standing for null. */
  function Execute(eventRepository: InMemoryEventRepository, eventId: string): (r: Result<Option<EventProps>>)
    reads eventRepository
    ensures eventId == "" <==> r == Err(EventIdRequired)
    ensures eventId != "" ==> r == Ok(eventRepository.FindById(eventId))
    ensures eventId != "" ==>
      (r.value.None? <==> forall j :: 0 <= j < |eventRepository.events| ==> eventRepository.events[j].id != eventId)
    ensures r.Ok? && r.value.Some? ==> r.value.value.id == eventId && r.value.value in eventRepository.events
  {
    if eventId == "" then Err(EventIdRequired)
    else Ok(eventRepository.FindById(eventId))
  }
}
