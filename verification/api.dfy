/** The client errors of the booking API.

    Every check a route handler makes on its input ends, when it fails, in a
    400 response whose JSON body carries one fixed error message.
 */
module Api {

  /** One constructor per distinct 400 response of the server. */
  datatype ApiError =
    | InvalidOrderData   // POST /order: name, phone or lessons missing or malformed
    | InvalidName        // POST /order: name outside [A-Za-z\s]+
    | InvalidPhone       // POST /order: phone outside [0-9]+
    | InvalidLessonId    // GET and PUT /lessons/:id: id rejected by the id-format check
    | InvalidSpaces      // PUT /lessons/:id: spaces not a non-negative integer
    | MissingQuery       // GET /search: query parameter absent or empty
  {

    /** The `error` field of the response body. */
    function Message(): string {
      match this
      case InvalidOrderData => "Invalid order data. Required: name, phone, lessons (array)"
      case InvalidName => "Name must contain only letters and spaces"
      case InvalidPhone => "Phone must contain only digits"
      case InvalidLessonId => "Invalid lesson ID format"
      case InvalidSpaces => "Spaces must be a non-negative number"
      case MissingQuery => "Search query is required"
    }
  }

  /** A client can tell from the message alone which check rejected its request. */
  lemma MessagesIdentifyErrors(a: ApiError, b: ApiError)
    ensures a.Message() == b.Message() <==> a == b
  {
  }
}
