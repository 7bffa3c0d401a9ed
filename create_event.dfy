/** Event creation: the use case's own checks, then the entity's checks, then
    one append to the store. */
module CreateEvent {
  import opened Common
  import opened Event
  import opened EventRepository

  const StartDateInPast := "Start date must be in the future"
  const VenueRequired := "Venue ID is required"
  const PriceMustBeNonNegative := "Price must be non-negative"

  /** `CreateEventInput`. */
  datatype CreateEventInput = CreateEventInput(
    title: string,
    description: Option<string>,
    startDate: int,
    venueId: string,
    capacity: real,
    price: Option<real>,
    organizerId: string,
    categoryId: string,
    imageUrl: Option<string>)

  /** The use case's checks, in source order (title, start date, venue,
      capacity, price): the message of the first that fails. A start date
      equal to `now` passes. */
  function CheckInput(input: CreateEventInput, now: int): (error: Option<string>)
    ensures error.None? <==>
      && input.title != "" && input.startDate >= now && input.venueId != "" && input.capacity > 0.0
      && (input.price.Some? ==> input.price.value >= 0.0)
    ensures input.title == "" ==> error == Some(TitleRequired)
    ensures input.title != "" && input.startDate < now ==> error == Some(StartDateInPast)
    ensures input.title != "" && input.startDate >= now && input.venueId == "" ==> error == Some(VenueRequired)
    ensures (input.title != "" && input.startDate >= now && input.venueId != "" && input.capacity <= 0.0)
      ==> error == Some(CapacityMustBePositive)
    ensures (input.title != "" && input.startDate >= now && input.venueId != "" && input.capacity > 0.0
             && input.price.Some? && input.price.value < 0.0) ==> error == Some(PriceMustBeNonNegative)
  {
    if input.title == "" then Some(TitleRequired)
    else if input.startDate < now then Some(StartDateInPast)
    else if input.venueId == "" then Some(VenueRequired)
    else if input.capacity <= 0.0 then Some(CapacityMustBePositive)
    else if input.price.Some? && input.price.value < 0.0 then Some(PriceMustBeNonNegative)
    else None
  }

  /** `{ ...eventData, id: randomUUID(), createdAt: new Date(), updatedAt: new Date() }`. */
  function PropsOf(input: CreateEventInput, id: string, now: int): (p: EventProps)
    ensures p.id == id && p.createdAt == now && p.updatedAt == now
    ensures p.title == input.title && p.description == input.description && p.startDate == input.startDate
    ensures p.venueId == input.venueId && p.capacity == input.capacity && p.price == input.price
    ensures p.organizerId == input.organizerId && p.categoryId == input.categoryId && p.imageUrl == input.imageUrl
  {
    EventProps(id, input.title, input.description, input.startDate, input.venueId, input.capacity,
               input.price, input.organizerId, input.categoryId, input.imageUrl, now, now)
  }

  /** The use case on the event sequence: the outcome and the events after.
      `id` is the value `randomUUID()` returns and `now` the current time. */
  function Create(events: seq<EventProps>, input: CreateEventInput, id: string, now: int): (t: (Result<EventProps>, seq<EventProps>))
    ensures t.0.Err? ==> t.1 == events
    ensures CheckInput(input, now).Some? ==> t.0 == Err(CheckInput(input, now).value)
    ensures t.0.Ok? <==> CheckInput(input, now).None? && IsValid(PropsOf(input, id, now))
    ensures t.0.Ok? ==> t.1 == events + [t.0.value] && t.0.value == PropsOf(input, id, now) && IsValid(t.0.value)
  {
    match CheckInput(input, now)
    case Some(message) => (Err(message), events)
    case None =>
      match Construct(PropsOf(input, id, now))
      case Err(message) => (Err(message), events)
      case Ok(event) => (Ok(event), events + [event])
  }

  /** `execute` against the in-memory repository. */
  method Execute(eventRepository: InMemoryEventRepository, input: CreateEventInput, id: string, now: int)
    returns (r: Result<EventProps>)
    modifies eventRepository
    ensures var t := Create(old(eventRepository.events), input, id, now);
      r == t.0 && eventRepository.events == t.1
  {
    var check := CheckInput(input, now);
    if check.Some? {
      return Err(check.value);
    }
    var eventProps := PropsOf(input, id, now);
    var event := Construct(eventProps);
    if event.Err? {
      return Err(event.message);
    }
    var created := eventRepository.Create(event.value);
    r := Ok(created);
  }

  /** The two layers disagree on capacity: a fractional capacity below one
      passes the use case's check but not the entity's; and a description
      over 1000 characters is refused only by the entity. */
  lemma EntityChecksBehindUseCase(input: CreateEventInput, events: seq<EventProps>, id: string, now: int)
    requires CheckInput(input, now).None? && id != ""
    ensures input.capacity < 1.0 ==> Create(events, input, id, now).0 == Err(CapacityMustBePositive)
    ensures (input.capacity >= 1.0 && input.description.Some? && |input.description.value| > MaxDescriptionLength)
      ==> Create(events, input, id, now).0 == Err(DescriptionTooLong)
  {
    var p := PropsOf(input, id, now);
    assert p.title != "" && p.id != "" && (p.price.Some? ==> p.price.value >= 0.0);
  }
}
