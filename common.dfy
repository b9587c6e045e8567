/** Types shared by every part of the finance backend model. */
module Common {

  datatype Option<T> = None | Some(value: T) {
    function GetOr(default: T): T {
      if Some? then value else default
    }
  }

  /** The outcome of a repository call: its value, or the message of the Error it throws. */
  datatype Result<T> = Ok(value: T) | Err(error: string)

  /** Money columns are decimal(10,2): an amount is a whole number of cents. */
  type Cents = int

  /** A point in time in milliseconds; the current time is always passed in. */
  type Instant = int

  const MsPerHour: int := 3_600_000

  /**
   * What `mapToEntity(result[0])` throws when an UPDATE matched no row:
   * the returned array is empty and reading `raw.id` of undefined fails.
   */
  const UndefinedRow: string := "TypeError: Cannot read properties of undefined (reading 'id')"

  /** The HTTP statuses the handlers answer with. */
  datatype Status = OK | Created | BadRequest | NotFound | InternalServerError

  /** What a request handler produces: a JSON response, or an exception that escapes it. */
  datatype Reply<T> =
    | Respond(status: Status, message: string, data: Option<T>)
    | Thrown(error: string)

  /** The `{ isValid, message? }` verdict of a validation helper. */
  datatype Check = Check(isValid: bool, message: Option<string>)

  /** JavaScript truthiness of an optional number: undefined, null and 0 are falsy. */
  predicate TruthyId(x: Option<int>) {
    x.Some? && x.value != 0
  }

  /** JavaScript truthiness of an optional string: undefined, null and "" are falsy. */
  predicate TruthyText(x: Option<string>) {
    x.Some? && x.value != ""
  }

  /** `x || null` on an optional number: a falsy id is stored as null. */
  function IdOrNull(x: Option<int>): (r: Option<int>)
    ensures r.Some? <==> TruthyId(x)
    ensures r.Some? ==> r == x
  {
    if TruthyId(x) then x else None
  }

  /** `x || null` on an optional string. */
  function TextOrNull(x: Option<string>): (r: Option<string>)
    ensures r.Some? <==> TruthyText(x)
    ensures r.Some? ==> r == x
  {
    if TruthyText(x) then x else None
  }

  /** `message || fallback`: the helper's message unless it is absent or empty. */
  function MessageOr(m: Option<string>, fallback: string): (r: string)
    ensures TruthyText(m) ==> r == m.value
    ensures !TruthyText(m) ==> r == fallback
  {
    if TruthyText(m) then m.value else fallback
  }
}
