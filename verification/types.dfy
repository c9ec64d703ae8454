/** The records shared by the services and components (`src/types.ts`).
    Calendar dates are whole day numbers: the application only ever compares
    dates at local midnight, so a date is identified by its day. */
module Types {
  import opened Wrappers

  /** The structured form of one activity string: its display text and the
      values of its optional `[at: …]` and `[time: …]` tags. */
  datatype DayPlanActivity = DayPlanActivity(text: string, location: Option<string>, time: Option<string>)

  /** One numbered entry of a day's map. */
  datatype MapActivity = MapActivity(
    title: string,
    location: Option<string>,
    time: Option<string>,
    index: nat,
    isAutoDetected: bool)

  /** One calendar day of a trip. Activities are kept in their string form. */
  datatype DayPlan = DayPlan(
    id: string,
    date: int,
    activities: seq<string>,
    notes: string,
    icon: Option<string>)

  datatype TripDetails = TripDetails(destination: string, startDate: int, endDate: int)

  datatype Category = Sightseeing | FoodAndDrink | Culture | Adventure | Shopping

  /** A suggested activity of the activity catalogue. No catalogue entry
      carries `popular: false`, so `popular` is true exactly when the source
      sets it. */
  datatype Activity = Activity(
    title: string,
    description: string,
    category: Category,
    duration: string,
    popular: bool,
    location: Option<string>)
}
