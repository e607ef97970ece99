/**
 * `TodoManagerTool.forward` from AgentAI/Tools/todo.py (Tools/todo.py holds
 * an identical copy): check the operation name, validate the fields that
 * operation needs in a fixed order, build exactly one HTTP request against
 * the todo API, and turn the reply, or the exception raised while getting
 * it, into the string handed back to the agent.
 *
 * `forward` is split into `Plan` (validation and request construction, no
 * effects) and `Finish` (reply and exception mapping). What the network and
 * the `requests` library do is a `Reply` parameter; how `json.dumps(...,
 * indent=2)` prints a value is the `render` parameter.
 */
module TodoTool {
  import opened Wrappers
  import opened TextStrip
  import opened Decimal
  import opened Json

  /* ---------------- Inputs ---------------- */

  datatype Operation = Create | Retrieve | Update | Delete

  /** The name a caller passes for each operation. */
  function Name(op: Operation): string {
    match op
    case Create => "create"
    case Retrieve => "retrieve"
    case Update => "update"
    case Delete => "delete"
  }

  /** The names `forward` accepts (`valid_operations`). */
  const OperationNames: set<string> := {"create", "retrieve", "update", "delete"}

  /** Recognise an operation name; any other string is rejected. */
  function ParseOperation(s: string): (r: Option<Operation>)
    ensures r.Some? <==> s in OperationNames
    ensures r.Some? ==> Name(r.value) == s
  {
    if s == "create" then Some(Create)
    else if s == "retrieve" then Some(Retrieve)
    else if s == "update" then Some(Update)
    else if s == "delete" then Some(Delete)
    else None
  }

  /**
   * The arguments of one `forward` call, with the same defaults. `None`
   * stands for Python's `None`.
   */
  datatype Request = Request(
    op: string,
    title: Option<string> := None,
    description: Option<string> := None,
    completed: bool := false,
    id: Option<int> := None,
    skip: int := 0,
    limit: int := 100)

  /** Python truthiness of an optional string: present and not empty. */
  predicate NonEmpty(s: Option<string>) {
    s.Some? && s.value != []
  }

  /** An id that passes the update and delete checks. */
  predicate PositiveId(id: Option<int>) {
    id.Some? && id.value >= 1
  }

  /* ---------------- Validation errors ---------------- */

  datatype ValidationError =
    | InvalidOperation
    | TitleInvalid(op: Operation)
    | DescriptionInvalid(op: Operation)
    | SkipInvalid
    | LimitInvalid
    | IdInvalid(op: Operation)

  /** The pieces the validation messages are made of; every one starts with `ErrorTag`. */
  const ErrorTag: string := "Error: "
  const InvalidOperationPrefix: string := ErrorTag + "Invalid operation. Must be one of "
  const TitlePrefix: string := ErrorTag + "Title must be a non-empty string for "
  const DescriptionPrefix: string := ErrorTag + "Description must be a non-empty string for "
  const IdPrefix: string := ErrorTag + "ID must be a positive integer for "
  const OperationSuffix: string := " operation."
  const SkipMessage: string := ErrorTag + "Skip must be a non-negative integer" + " for retrieve operation."
  const LimitMessage: string := ErrorTag + "Limit must be a positive integer" + " for retrieve operation."

  /**
   * The string `forward` returns for each failed check. The invalid-operation
   * message prints the Python set of valid names, whose order depends on
   * string hashing; `shownOperations` is that printed set.
   */
  function ErrorMessage(e: ValidationError, shownOperations: string): string {
    match e
    case InvalidOperation => InvalidOperationPrefix + shownOperations + "."
    case TitleInvalid(op) => TitlePrefix + Name(op) + OperationSuffix
    case DescriptionInvalid(op) => DescriptionPrefix + Name(op) + OperationSuffix
    case SkipInvalid => SkipMessage
    case LimitInvalid => LimitMessage
    case IdInvalid(op) => IdPrefix + Name(op) + OperationSuffix
  }

  /* ---------------- Requests ---------------- */

  /** `self.base_url`, set once by the constructor. */
  const BaseUrl: string := "https://aiexecutiveassistantagent-production.up.railway.app/todos/"

  /** `self.headers`, used for POST, GET and PUT. */
  const JsonHeaders: seq<(string, string)> :=
    [("accept", "application/json"), ("Content-Type", "application/json")]

  /** `self.delete_headers`, used for DELETE. */
  const DeleteHeaders: seq<(string, string)> := [("accept", "*/*")]

  datatype HttpMethod = POST | GET | PUT | DELETE

  datatype Payload =
    | JsonBody(body: Json)                          // `json=payload`
    | QueryParams(params: seq<(string, string)>)    // `params=querystring`
    | NoPayload

  datatype HttpCall = HttpCall(verb: HttpMethod, url: string, headers: seq<(string, string)>, payload: Payload)

  /**
   * A Python exception, by the two classes the handlers test for and its
   * `str(e)` text. Python tries the `except` clauses in order, so an
   * exception that belongs to both classes goes to the first that matches.
   */
  datatype Exc = Exc(isRequestException: bool, isJsonDecodeError: bool, text: string)

  /**
   * What `forward` decides before any I/O: a validation error, an exception
   * raised while building the request (so nothing is sent), or the one
   * request to send.
   */
  datatype Dispatch =
    | Reject(error: ValidationError)
    | Fail(op: Operation, exc: Exc)
    | Send(op: Operation, call: HttpCall)

  /** The body sent by create and update: trimmed title and description, `completed` as given. */
  function TodoBody(title: string, description: string, completed: bool): Json {
    JObject([("title", JString(Strip(title))),
             ("description", JString(Strip(description))),
             ("completed", JBool(completed))])
  }

  /** `f"{self.base_url}{id}"`. */
  function ItemUrl(id: int): string {
    BaseUrl + IntToDecimal(id)
  }

  /**
   * The `ValueError` that `str` or an f-string raises for an integer past
   * the digit limit; it is neither a `requests` nor a JSON decoding error.
   */
  const DigitLimitError: Exc := Exc(false, false, DigitLimitText)

  /**
   * The operation's checks in source order, then the request it sends. An
   * integer written into the query or the URL that is past the digit limit
   * raises before the request is made.
   */
  function Plan(req: Request): (r: Dispatch)
    ensures r == Reject(InvalidOperation) <==> req.op !in OperationNames
    ensures !r.Reject? ==> ParseOperation(req.op) == Some(r.op)
    ensures r.Fail? ==> r.exc == DigitLimitError
  {
    match ParseOperation(req.op)
    case None => Reject(InvalidOperation)
    case Some(Create) =>
      if !NonEmpty(req.title) then Reject(TitleInvalid(Create))
      else if !NonEmpty(req.description) then Reject(DescriptionInvalid(Create))
      else Send(Create, HttpCall(POST, BaseUrl, JsonHeaders,
        JsonBody(TodoBody(req.title.value, req.description.value, req.completed))))
    case Some(Retrieve) =>
      if req.skip < 0 then Reject(SkipInvalid)
      else if req.limit < 1 then Reject(LimitInvalid)
      else if !WithinDigitLimit(req.skip) || !WithinDigitLimit(req.limit) then Fail(Retrieve, DigitLimitError)
      else Send(Retrieve, HttpCall(GET, BaseUrl, JsonHeaders,
        QueryParams([("skip", IntToDecimal(req.skip)), ("limit", IntToDecimal(req.limit))])))
    case Some(Update) =>
      if !PositiveId(req.id) then Reject(IdInvalid(Update))
      else if !NonEmpty(req.title) then Reject(TitleInvalid(Update))
      else if !NonEmpty(req.description) then Reject(DescriptionInvalid(Update))
      else if !WithinDigitLimit(req.id.value) then Fail(Update, DigitLimitError)
      else Send(Update, HttpCall(PUT, ItemUrl(req.id.value), JsonHeaders,
        JsonBody(TodoBody(req.title.value, req.description.value, req.completed))))
    case Some(Delete) =>
      if !PositiveId(req.id) then Reject(IdInvalid(Delete))
      else if !WithinDigitLimit(req.id.value) then Fail(Delete, DigitLimitError)
      else Send(Delete, HttpCall(DELETE, ItemUrl(req.id.value), DeleteHeaders, NoPayload))
  }

  /* ---------------- Replies and exceptions ---------------- */

  /** What `response.json()` gives: the parsed value, or the exception it raises. */
  datatype Body = Decoded(json: Json) | Undecodable(error: Exc)

  /**
   * What performing the planned request gives: either `requests` raised, or
   * the server answered with a status, the text `raise_for_status` would use
   * for an `HTTPError`, and the body.
   */
  datatype Reply =
    | Raised(error: Exc)
    | Answered(status: int, httpErrorText: string, body: Body)

  /** `raise_for_status` raises for client (4xx) and server (5xx) errors only. */
  predicate ErrorStatus(status: int) {
    400 <= status < 600
  }

  /** Python's f-string text of an optional integer. */
  function ShowId(id: Option<int>): string {
    match id
    case None => "None"
    case Some(n) => IntToDecimal(n)
  }

  /** The object a delete answered with 204 (no content) is reported as. */
  function DeletedMessage(id: Option<int>): Json {
    JObject([("message", JString("Todo item with ID " + ShowId(id) + " deleted successfully"))])
  }

  const InvalidJsonMessage: string := ErrorTag + "Invalid JSON response from the API."

  /** The three `except` clauses of `forward`, in their order. */
  function Handle(op: Operation, e: Exc): string {
    if e.isRequestException then "Error performing " + Name(op) + " operation: " + e.text
    else if e.isJsonDecodeError then InvalidJsonMessage
    else "Error processing request: " + e.text
  }

  /** Everything after the request is sent: status check, 204 on delete, body decoding, handlers. */
  function Finish(op: Operation, id: Option<int>, reply: Reply, render: Json -> string): string {
    match reply
    case Raised(e) => Handle(op, e)
    case Answered(status, httpErrorText, body) =>
      if ErrorStatus(status) then Handle(op, Exc(true, false, httpErrorText))
      else if op == Delete && status == 204 then render(DeletedMessage(id))
      else match body
        case Decoded(j) => render(j)
        case Undecodable(e) => Handle(op, e)
  }

  /** `TodoManagerTool.forward`. */
  function Forward(req: Request, reply: Reply, render: Json -> string, shownOperations: string): string {
    match Plan(req)
    case Reject(e) => ErrorMessage(e, shownOperations)
    case Fail(op, e) => Handle(op, e)
    case Send(op, _) => Finish(op, req.id, reply, render)
  }
}
