/** Values shared by every part of the model: optional document fields,
    document ids, calendar dates, and the outcome of a Mongoose write. */
module Common {

  /** A document field that may be undefined. */
  datatype Option<T> = None | Some(value: T)

  /** A Mongo ObjectId. Ids are only ever compared for equality. */
  type Id = nat

  /** A calendar date as the server reads it: `getFullYear()`, `getMonth()`
      (0-based, as in JavaScript) and the day of the month. Time of day is
      not part of the model. */
  datatype Date = Date(year: int, month: int, day: int)

  /** Chronological order on dates. */
  predicate DateLe(a: Date, b: Date)
  {
    a.year < b.year
    || (a.year == b.year && (a.month < b.month || (a.month == b.month && a.day <= b.day)))
  }

  /** The order Mongo sorts an optional date field in: a missing value comes
      before every date. */
  predicate KeyLe(a: Option<Date>, b: Option<Date>)
  {
    match a
    case None => true
    case Some(x) => b.Some? && DateLe(x, b.value)
  }

  /** Why a Mongoose `create` (or an insert) is refused: a validator or a
      cast failed on the named path, or a unique index already holds the key. */
  datatype Failure = Invalid(path: string) | DuplicateKey

  datatype Result<T> = Ok(value: T) | Err(failure: Failure)

  /** A string path that is set and not empty. This is what Mongoose's
      `required` validator demands of a String, and it is also JavaScript's
      truthiness test on a string that may be undefined. */
  predicate Filled(s: Option<string>)
  {
    s.Some? && s.value != ""
  }
}
