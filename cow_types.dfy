/** The catalogue's records: cows, their event histories and the list filters. */
module CowTypes {
  import opened Wrappers

  datatype Sex = Male | Female

  datatype CowStatus = Active | InTreatment | Deceased

  datatype EventType = WeightCheck | Treatment | PenMove | Death | Created

  /** One fact in a cow's history; `date` is a timestamp in milliseconds. */
  datatype CowEvent = CowEvent(
    id: string,
    kind: EventType,
    date: int,
    description: string,
    weight: Option<int>,
    fromPen: Option<string>,
    toPen: Option<string>)

  /** A catalogued cow; `weight` is in kilograms and `createdAt` a timestamp in milliseconds. */
  datatype Cow = Cow(
    id: string,
    earTag: string,
    sex: Sex,
    pen: string,
    status: CowStatus,
    weight: Option<int>,
    events: seq<CowEvent>,
    createdAt: int)

  /** A status filter: every status (`'all'`) or one of them. */
  datatype StatusFilter = All | Only(status: CowStatus)

  /** The list filters; an empty `searchQuery` or `penFilter` constrains nothing. */
  datatype CowFilters = CowFilters(searchQuery: string, statusFilter: StatusFilter, penFilter: string)

  /** The filters in force when none were ever saved. */
  const DefaultFilters := CowFilters("", All, "")

  /** Milliseconds in a day, `1000 * 60 * 60 * 24`. */
  const DayMs := 86400000

  /** A weight is truthy in JavaScript when present and not zero. */
  predicate IsTruthy(w: Option<int>)
  {
    w.Some? && w.value != 0
  }
}
