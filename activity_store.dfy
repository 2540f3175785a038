/** `ActivityStore` (client/src/lib/stores/activityStore.ts): the list filter
    and the start date of the activity dashboard. */
module ActivityFilters {

  /** A JavaScript `Date`, as milliseconds since the epoch. */
  type Date = int

  const InitialFilter := "all"

  class ActivityStore {
    var filter: string
    /** `Date.toISOString()` of the chosen day. */
    var startDate: string

    /** The filter starts at 'all' and the start date at the clock's `now`;
        `toISOString` is the library's formatter. */
    constructor (now: Date, toISOString: Date -> string)
      ensures filter == InitialFilter
      ensures startDate == toISOString(now)
    {
      filter := InitialFilter;
      startDate := toISOString(now);
    }

    /** `setFilter`: replaces the filter and nothing else. */
    method SetFilter(f: string)
      modifies this
      ensures filter == f
      ensures startDate == old(startDate)
    {
      filter := f;
    }

    /** `setStartDate`: replaces the start date by the date's ISO text and nothing else. */
    method SetStartDate(date: Date, toISOString: Date -> string)
      modifies this
      ensures startDate == toISOString(date)
      ensures filter == old(filter)
    {
      startDate := toISOString(date);
    }
  }
}
