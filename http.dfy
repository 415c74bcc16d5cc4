/** The JSON envelope every route answers with, reduced to what a caller can observe: the
    HTTP status, the data on success, and the error text (plus the underlying cause for 500s). */
module Http {

  /** Why a request failed inside the database work (the `message` field of a 500 answer). */
  datatype Cause =
    | MenuItemNotFound(menuItemId: int)      // "Menu item <id> not found"
    | ForeignKeyViolation(table: string)     // the database refused a row whose reference dangles
    | InvalidParameter(name: string)         // the database refused a bound parameter (NaN for an integer)

  datatype Response<+T> =
    | Ok(data: T)                            // 200
    | Created(data: T)                       // 201
    | BadRequest(error: string)              // 400
    | Conflict(error: string)                // 409
    | ServerError(error: string, cause: Cause) // 500
  {
    function Status(): int
    {
      match this
      case Ok(_) => 200
      case Created(_) => 201
      case BadRequest(_) => 400
      case Conflict(_) => 409
      case ServerError(_, _) => 500
    }

    /** The envelope's `success` field. */
    predicate Success()
    {
      Ok? || Created?
    }
  }
}
