/** The event entity and the checks its constructor runs. */
module Event {
  import opened Common

  /** `EventProps`. Dates are milliseconds since the epoch; `capacity` and
      `price` are JavaScript numbers, kept as reals so that fractions are
      not lost. */
  datatype EventProps = EventProps(
    id: string,
    title: string,
    description: Option<string>,
    startDate: int,
    venueId: string,
    capacity: real,
    price: Option<real>,
    organizerId: string,
    categoryId: string,
    imageUrl: Option<string>,
    createdAt: int,
    updatedAt: int)

  function EventIdOf(e: EventProps): string
  {
    e.id
  }

  const TitleRequired := "Title is required"
  const CapacityMustBePositive := "Capacity must be positive"
  const PriceNegative := "Price cannot be negative"
  const IdRequired := "Id is required"
  const DescriptionTooLong := "Description cannot be longer than 1000 characters"

  const MaxDescriptionLength := 1000

  /** What an event must satisfy to be constructed. */
  predicate IsValid(p: EventProps)
  {
    && p.title != ""
    && p.capacity >= 1.0
    && (p.price.Some? ==> p.price.value >= 0.0)
    && p.id != ""
    && (p.description.Some? ==> |p.description.value| <= MaxDescriptionLength)
  }

  /** `validate`: the message of the first check that fails, in source order
      (title, capacity, price, id, description). */
  function Validate(p: EventProps): (error: Option<string>)
    ensures error.None? <==> IsValid(p)
    ensures p.title == "" ==> error == Some(TitleRequired)
    ensures p.title != "" && p.capacity < 1.0 ==> error == Some(CapacityMustBePositive)
    ensures p.title != "" && p.capacity >= 1.0 && p.price.Some? && p.price.value < 0.0 ==> error == Some(PriceNegative)
    ensures (p.title != "" && p.capacity >= 1.0 && (p.price.Some? ==> p.price.value >= 0.0) && p.id == "")
      ==> error == Some(IdRequired)
    ensures error == Some(DescriptionTooLong) <==>
      (p.title != "" && p.capacity >= 1.0 && (p.price.Some? ==> p.price.value >= 0.0) && p.id != ""
       && p.description.Some? && |p.description.value| > MaxDescriptionLength)
  {
    if p.title == "" then Some(TitleRequired)
    else if p.capacity < 1.0 then Some(CapacityMustBePositive)
    else if p.price.Some? && p.price.value < 0.0 then Some(PriceNegative)
    else if p.id == "" then Some(IdRequired)
    else if p.description.Some? && |p.description.value| > MaxDescriptionLength then Some(DescriptionTooLong)
    else None
  }

  /** `new Event(props)`: the props unchanged, or the message `validate`
      throws. */
  function Construct(p: EventProps): (r: Result<EventProps>)
    ensures r.Ok? <==> IsValid(p)
    ensures r.Ok? ==> r.value == p
    ensures r.Err? ==> Validate(p) == Some(r.message)
  {
    match Validate(p)
    case Some(message) => Err(message)
    case None => Ok(p)
  }
}
