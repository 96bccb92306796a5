/** The decision each route handler makes before it touches the database.

    A handler either rejects its request with a client error (400), or
    fails with a server error (500) while preparing its query, or issues
    exactly one database operation; in the first two cases no database
    operation is issued at all. The database itself, and the 404 and 500
    responses that depend on what it answers, lie outside this model. The
    id-format check the driver provides is a parameter, `isValidId`, and so
    is the check that a search query compiles as a regular expression,
    `isValidPattern`.
 */
module Routes {
  import opened Results
  import opened JsText
  import opened Api
  import opened Lessons
  import opened Orders

  /** The single database operation a handler issues. */
  datatype DbRequest =
    | FindLessonById(id: string)
    | InsertOrder(order: Order)
    | UpdateLessonById(id: string, fields: UpdateBody)
    | SearchLessons(query: string)

  /** What a handler does with a request: answer 400 with an error and
      nothing else, answer 500 because preparing the query threw, or issue
      one database operation. */
  datatype Plan = Reject(error: ApiError) | ServerError | Issue(request: DbRequest)

  /** `GET /lessons/:id`: a malformed id is answered with 400 before any
      lookup; a well-formed one is looked up, and only that one. */
  function PlanGetLesson(id: string, isValidId: string -> bool): (p: Plan)
    ensures !p.ServerError?
    ensures p.Reject? <==> !isValidId(id)
    ensures p.Reject? ==> p.error == InvalidLessonId
    ensures p.Issue? ==> p.request == FindLessonById(id)
  {
    if !isValidId(id) then Reject(InvalidLessonId) else Issue(FindLessonById(id))
  }

  /** `PUT /lessons/:id`: the id is checked first, so a malformed id is
      answered with the id error whatever the body holds; then the spaces
      check runs; only an update that passes both is sent, with its spaces
      normalised and every other field as received. */
  function PlanUpdateLesson(id: string, body: UpdateBody, isValidId: string -> bool): (p: Plan)
    ensures !p.ServerError?
    ensures !isValidId(id) ==> p == Reject(InvalidLessonId)
    ensures isValidId(id) && CheckSpacesUpdate(body).Err? ==> p == Reject(InvalidSpaces)
    ensures p.Issue? <==> isValidId(id) && CheckSpacesUpdate(body).Ok?
    ensures p.Issue? ==>
              && p.request.UpdateLessonById?
              && p.request.id == id
              && p.request.fields.Keys == body.Keys
              && (SpacesField !in body ==> p.request.fields == body)
              && (forall k :: k in body && k != SpacesField ==> p.request.fields[k] == body[k])
    ensures p.Issue? && SpacesField in body ==>
              && p.request.fields[SpacesField].Num?
              && p.request.fields[SpacesField].n >= 0
              && ParseIntValue(body[SpacesField]) == Some(p.request.fields[SpacesField].n)
  {
    if !isValidId(id) then Reject(InvalidLessonId)
    else
      match CheckSpacesUpdate(body)
      case Err(e) => Reject(e)
      case Ok(fields) => Issue(UpdateLessonById(id, fields))
  }

  /** `POST /order`: a request failing a check is answered with that
      check's error and nothing is inserted; an accepted one inserts the
      pending order built from it. */
  function PlanCreateOrder(req: OrderRequest, orderDate: int): (p: Plan)
    ensures !p.ServerError?
    ensures p.Reject? <==> !(HasOrderShape(req) && AllChars(IsNameChar, req.name.value)
                             && AllChars(IsAsciiDigit, req.phone.value))
    ensures p.Reject? ==> p.error in {InvalidOrderData, InvalidName, InvalidPhone}
    ensures p.Reject? ==> CreateOrder(req, orderDate) == Err(p.error)
    ensures p.Issue? ==>
              && p.request.InsertOrder?
              && p.request.order.name == req.name.value
              && p.request.order.phone == req.phone.value
              && p.request.order.lessons == req.lessons.items
              && p.request.order.status == PendingStatus
              && p.request.order.orderDate == orderDate
              && p.request.order.totalPrice == OrderTotal(req.totalPrice, req.lessons.items)
  {
    match CreateOrder(req, orderDate)
    case Err(e) => Reject(e)
    case Ok(order) => Issue(InsertOrder(order))
  }

  /** `GET /search`: a missing or empty query is answered with 400 before
      any search; a query that is not a valid regular expression makes
      `new RegExp` throw, which is answered with 500, again before any
      search; otherwise the query is searched for as given. */
  function PlanSearch(query: Option<string>, isValidPattern: string -> bool): (p: Plan)
    ensures p.Reject? <==> query.None? || query.value == ""
    ensures p.Reject? ==> p.error == MissingQuery
    ensures p.ServerError? <==> !p.Reject? && !isValidPattern(query.value)
    ensures p.Issue? ==> p.request == SearchLessons(query.value) && isValidPattern(query.value)
  {
    if !IsTruthyText(query) then Reject(MissingQuery)
    else if !isValidPattern(query.value) then ServerError
    else Issue(SearchLessons(query.value))
  }

  /** The two id-based routes agree on ids: one route rejects an id exactly
      when the other does, with the same error and before any database
      operation. */
  lemma IdRoutesAgree(id: string, body: UpdateBody, isValidId: string -> bool)
    ensures PlanGetLesson(id, isValidId).Reject? ==> PlanUpdateLesson(id, body, isValidId) == PlanGetLesson(id, isValidId)
    ensures PlanUpdateLesson(id, body, isValidId) == Reject(InvalidLessonId) ==> PlanGetLesson(id, isValidId).Reject?
  {
  }

  /** A negative number of spaces on a well-formed id never reaches the
      database. */
  lemma NegativeSpacesNeverStored(id: string, body: UpdateBody, isValidId: string -> bool, n: int)
    requires isValidId(id)
    requires n < 0 && SpacesField in body && body[SpacesField] == Num(n)
    ensures PlanUpdateLesson(id, body, isValidId) == Reject(InvalidSpaces)
  {
    NegativeSpacesRejected(body, n);
  }

  /** Every update that reaches the database stores a non-negative integer
      of spaces, if it stores spaces at all. */
  lemma StoredSpacesNonNegative(id: string, body: UpdateBody, isValidId: string -> bool)
    requires PlanUpdateLesson(id, body, isValidId).Issue?
    requires SpacesField in body
    ensures PlanUpdateLesson(id, body, isValidId).request.fields[SpacesField].Num?
    ensures PlanUpdateLesson(id, body, isValidId).request.fields[SpacesField].n >= 0
  {
  }
}
