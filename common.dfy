// Types shared by the backend model: HTTP outcomes, the calendar date
// and identifiers.

module Common {

  /** The error statuses the handlers return (success carries a value). */
  datatype Status = BadRequest | Unauthorized | NotFound | Conflict | InternalServerError

  /** A handler's outcome: a value, or the status it fails with. */
  datatype Result<+T> = Ok(value: T) | Err(status: Status) {
    predicate IsFailure() { Err? }
    function PropagateFailure<U>(): Result<U>
      requires Err?
    {
      Err(status)
    }
    function Extract(): T
      requires Ok?
    {
      value
    }
  }

  datatype Option<+T> = None | Some(value: T)

  /** Opaque row identifiers (the `pillid` columns and user ids). */
  type Id = nat

  /** The clock, in seconds; it stands in for the database's `now()`. */
  type Time = int

  /** A calendar date (the `NaiveDate` / SQL `date` columns). */
  datatype Date = Date(year: int, month: int, day: int)

  /** `date_trunc('month', d)`: the first day of the month of `d`. */
  function MonthStart(d: Date): (r: Date)
    ensures r.year == d.year && r.month == d.month && r.day == 1
  {
    Date(d.year, d.month, 1)
  }

  /** Two dates truncate to the same month start exactly when they lie in the
      same month of the same year; truncating again changes nothing, and the
      month start never comes after a date of that month. */
  lemma MonthStartSameMonth(a: Date, b: Date)
    ensures MonthStart(a) == MonthStart(b) <==> a.year == b.year && a.month == b.month
    ensures MonthStart(MonthStart(a)) == MonthStart(a)
    ensures 1 <= a.day ==> !DateBefore(a, MonthStart(a))
  {
  }

  /** Strict chronological order on dates (year, then month, then day). */
  predicate DateBefore(a: Date, b: Date)
  {
    a.year < b.year
    || (a.year == b.year && a.month < b.month)
    || (a.year == b.year && a.month == b.month && a.day < b.day)
  }
}
