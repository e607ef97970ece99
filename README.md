# Todo manager tool: validation and dispatch

This project models `TodoManagerTool.forward`, the one tool the todo agent
calls. It takes an operation name (`create`, `retrieve`, `update` or
`delete`) and optional fields (`title`, `description`, `completed`, `id`,
`skip`, `limit`). For any call it does one of three things. It returns a
validation-error string at the first check that fails. It raises while writing
an integer too long for Python's `str`, before any request is made. Or it sends
exactly one HTTP request to the todo API. It then turns the reply, or the
exception raised, into the string it returns. The same code is in `AgentAI/Tools/todo.py` and
`Tools/todo.py`; the two files are identical, so this one model covers both.

`forward` is pure apart from its HTTP call, so the model is written as
functions plus lemmas:

- `wrappers.dfy`: `Option`, which stands for Python's `None`.
- `text_strip.dfy`: Python's `str.strip()`. It strips exactly the code points
  for which Python's `str.isspace()` holds. `StripUnique` is a reference
  characterisation that the lemmas use.
- `decimal.dfy`: Python's `str(int)`, and a parser `ParseInt` that inverts it.
  It also has the limit on the number of digits that `str` will write
  (`MaxStrDigits`, Python's default of 4300), with the bound it implies.
- `json.dfy`: the shape of JSON values.
- `todo_tool.dfy`: the tool itself.
  - `Plan(req)` runs the checks in the source's order. It returns
    `Reject(error)`, `Fail(op, exc)` or `Send(op, call)`. `Fail` is the
    `ValueError` raised while writing an over-long integer. `call` holds the
    method, URL, headers and body or query.
  - `Finish(op, id, reply, render)` maps what happened to the output string.
    This covers `raise_for_status`, the 204 case of delete, the decoding of
    the body, and the three `except` clauses in their order.
  - `Forward` composes `Plan` and `Finish`.
- `todo_properties.dfy`: the lemmas.
  - the order of the checks and when each one fails;
  - the exact request each valid call sends, including its trimmed body;
  - query values and item URLs read back as the integers they were built from;
  - how replies are mapped, including the delete/204 case;
  - a classifier that recovers which check failed from the message text;
  - two worked examples.

Effects are parameters, not modelled behaviour:

- `Reply` says what the `requests` call gave. Either it raised an
  exception, or the server answered with a status, the text an `HTTPError`
  would carry, and a body that decodes or raises.
- `render` is what `json.dumps(value, indent=2)` prints for a value.
- `shownOperations` is how Python prints the set of valid operation names
  in the invalid-operation message. That order depends on string hashing.

An exception is modelled by the two classes the handlers test for,
`requests.RequestException` and `json.JSONDecodeError`, plus its `str(e)` text.
Python tries the `except` clauses in order. So an exception that belongs to
both classes gets the transport message, not the invalid-JSON one
(`HandlerOrder`). Newer versions of `requests` raise such an exception from
`response.json()`. With those versions, a body that is not JSON is reported as
`Error performing {operation} operation: …`.

Behaviour that follows from the code:

- `raise_for_status` raises only for statuses 400–599. So a failed delete
  (4xx or 5xx) never reaches the 204 test and is reported as an error
  (`ErrorStatusReported`). Any other status that is not 204 on a delete has
  its decoded body rendered as the result (`SuccessRendersBody`).
- The title and description checks run before trimming. A title made only of
  whitespace therefore passes and is sent as `""`
  (`WhitespaceTitlePassesAndIsSentEmpty`).
- The `completed` checks (todo.py lines 98-99 and 136-137) cannot fail once
  `completed` is typed `bool`, so the model has no such error.
- Since Python 3.10.7, `str(n)` and `f"{n}"` raise `ValueError` when
  `n` has more than 4300 digits. So a retrieve whose `skip` or `limit` is that
  long, or an update or delete whose `id` is, sends nothing. It returns the
  catch-all `Error processing request: …` (`DigitLimitReported`,
  `DeleteHugeId`). This is the only way the inputs alone reach that message.
- `forward` is a function of its inputs here. So a repeated retrieve with the
  same `skip`, `limit` and reply gives the same output, by construction.

## Model

| member | source | states |
|---|---|---|
| `TextStrip.Strip` | AgentAI/Tools/todo.py:103-104 | `str.strip()` as the trailing strip of the leading strip; what it returns is stated by `StripShape` and `StripUnique` |
| `TextStrip.StripLeading` | AgentAI/Tools/todo.py:103-104 | the leading part of `strip`: the result is a suffix of the input, everything cut off is whitespace, and the result does not start with whitespace |
| `TextStrip.StripTrailing` | AgentAI/Tools/todo.py:103-104 | the trailing part of `strip`: the result is a prefix of the input, everything cut off is whitespace, and the result does not end with whitespace |
| `TextStrip.StripShape` | AgentAI/Tools/todo.py:103-104 | `strip(s)` is a contiguous slice of `s`, only whitespace is cut off either side, and neither end of the result is whitespace |
| `TextStrip.StripUnique` | AgentAI/Tools/todo.py:103-104 | reference definition: any slice with only whitespace outside it and no whitespace at its ends is `strip(s)`; an all-whitespace string strips to empty |
| `TextStrip.StripIdempotent` | Tools/todo.py:141-142 | trimming an already trimmed title or description changes nothing |
| `TextStrip.StripEmptyIff` | Tools/todo.py:103 | `strip(s)` is empty if and only if `s` is all whitespace |
| `Decimal.NatToDecimal` | AgentAI/Tools/todo.py:121 | `str(n)` of a non-negative integer is one or more digits, with no leading zero unless `n` is 0 |
| `Decimal.IntToDecimal` | AgentAI/Tools/todo.py:121 | the text of `n`: the digits of `n` for `n >= 0`, otherwise `-` followed by the digits of `-n` |
| `Decimal.DecimalLength` | AgentAI/Tools/todo.py:121 | a natural number has at most `k` digits exactly when it is below `10^k`, by induction on the number |
| `Decimal.DigitLimitBound` | AgentAI/Tools/todo.py:147 | `str` can write `n` (`WithinDigitLimit`) exactly when `-10^4300 < n < 10^4300` |
| `Decimal.NatToDecimalValue` | AgentAI/Tools/todo.py:121 | the digits `str(n)` writes denote `n` |
| `Decimal.IntToDecimalRoundTrip` | AgentAI/Tools/todo.py:121 | parsing `str(n)` gives back `n`, for every integer |
| `Decimal.IntToDecimalInjective` | AgentAI/Tools/todo.py:147 | different integers have different `str` texts |
| `Decimal.NonNegativeIsDigits` | AgentAI/Tools/todo.py:121 | a non-negative integer is written with digits only and no sign |
| `TodoTool.ParseOperation` | AgentAI/Tools/todo.py:87-88 | a name is recognised if and only if it is one of the four valid names, and it maps back to that name |
| `TodoTool.ErrorMessage` | AgentAI/Tools/todo.py:89-157 | the text returned for each failed check; `ClassifyErrorMessage` proves every failed check has its own text |
| `TodoTool.TodoBody` | AgentAI/Tools/todo.py:102-106 | the create and update payload; `BodyFieldsTrimmed` states what it holds |
| `TodoTool.ItemUrl` | AgentAI/Tools/todo.py:147 | `f"{self.base_url}{id}"`; `ItemUrlRoundTrip` proves the id reads back from it |
| `TodoTool.Plan` | AgentAI/Tools/todo.py:86-163 | the invalid-operation error comes exactly for names outside `valid_operations`; any other outcome belongs to the named operation; an exception raised before sending is the digit-limit `ValueError` |
| `TodoTool.ErrorStatus` | AgentAI/Tools/todo.py:110 | the statuses for which `raise_for_status` raises: 400 to 599 |
| `TodoTool.DeletedMessage` | AgentAI/Tools/todo.py:167 | the object reported for a delete answered 204; `DeleteNoContent` and `DeleteFive` state when and what |
| `TodoTool.Handle` | AgentAI/Tools/todo.py:170-175 | the three `except` clauses; `HandlerOrder` states which message each exception gets |
| `TodoTool.Finish` | AgentAI/Tools/todo.py:109-111 | from the reply to the returned string; `ExceptionReported`, `ErrorStatusReported`, `DeleteNoContent` and `SuccessRendersBody` state each case |
| `TodoTool.Forward` | AgentAI/Tools/todo.py:69-175 | `forward` as `Plan` followed by `Finish`; `ForwardOutcome` states what it can return |
| `TodoProperties.OperationNameRoundTrip` | AgentAI/Tools/todo.py:87 | operation names and operations correspond one to one |
| `TodoProperties.UnknownOperationRejected` | AgentAI/Tools/todo.py:87-89 | the invalid-operation error comes exactly for unknown names, depends on no other field, and is the output whatever the network would do (no request is made) |
| `TodoProperties.CreateValidationOrder` | AgentAI/Tools/todo.py:94-97 | create fails on the title first, whatever description and completed hold, then on the description; it plans a request if and only if both are non-empty |
| `TodoProperties.CreateRequest` | AgentAI/Tools/todo.py:101-109 | a valid create plans one POST to the base URL with JSON headers and the body {trimmed title, trimmed description, completed} |
| `TodoProperties.BodyFieldsTrimmed` | Tools/todo.py:102-106 | the body's title and description are slices of the inputs with only surrounding whitespace removed and none left at their ends; `completed` is sent unchanged |
| `TodoProperties.WhitespaceTitlePassesAndIsSentEmpty` | AgentAI/Tools/todo.py:94-103 | validation runs before trimming: a whitespace-only title passes and is sent as the empty string |
| `TodoProperties.RetrieveValidation` | AgentAI/Tools/todo.py:115-124 | retrieve fails on skip if and only if skip < 0, then on limit if and only if limit < 1, then raises if and only if either is past the digit limit; otherwise one GET to the base URL with the JSON headers and the query `str(skip)`, `str(limit)`, which are digits that parse back to skip and limit |
| `TodoProperties.RetrieveIgnoresItemFields` | Tools/todo.py:113-126 | title, description, completed and id change neither the plan nor the output of a retrieve |
| `TodoProperties.ItemUrlRoundTrip` | AgentAI/Tools/todo.py:147 | the id can be read back from `base_url + str(id)`, so distinct ids give distinct item URLs |
| `TodoProperties.UpdateValidation` | AgentAI/Tools/todo.py:130-150 | update checks the id (missing or < 1) before title and description, each failure regardless of later fields, then raises if and only if the id is past the digit limit; otherwise one PUT to exactly `base_url + str(id)`, with the JSON headers and the create body |
| `TodoProperties.DeleteValidation` | AgentAI/Tools/todo.py:156-163 | delete fails if and only if the id is missing or < 1, then raises if and only if it is past the digit limit; only the id affects the plan; otherwise one DELETE with the delete headers and no body to exactly `base_url + str(id)` |
| `TodoProperties.DigitLimitReported` | AgentAI/Tools/todo.py:174-175 | when writing `skip`, `limit` or `id` raises, the operation is not create, and the output is the catch-all message with the `ValueError` text, whatever the network would have done |
| `TodoProperties.DeleteHugeId` | AgentAI/Tools/todo.py:160 | deleting id `10^4300` returns the digit-limit message |
| `TodoProperties.DeleteNoContent` | AgentAI/Tools/todo.py:165-167 | a delete answered 204 returns the rendered message naming the id, whatever the body |
| `TodoProperties.SuccessRendersBody` | AgentAI/Tools/todo.py:109-111 | an answer whose status is not 4xx/5xx (and not 204 to a delete) returns the rendered decoded body |
| `TodoProperties.ErrorStatusReported` | AgentAI/Tools/todo.py:170-171 | a 4xx/5xx answer returns "Error performing {operation} operation: …" whatever the body, so a failed delete is never reported as a success |
| `TodoProperties.ExceptionReported` | AgentAI/Tools/todo.py:109-111 | an exception raised by the `requests` call, or by `response.json()` after a passing status check, goes to the handlers as that same exception |
| `TodoProperties.HandlerOrder` | AgentAI/Tools/todo.py:170-175 | request exceptions, then JSON decoding errors, then anything else map to their three messages in that order; an exception of both kinds is never reported as invalid JSON |
| `TodoProperties.ForwardOutcome` | Tools/todo.py:86-175 | every outcome is a returned string: the failed check's message; the handler text of the exception actually raised (the digit-limit error, the reply's own exception, the `HTTPError` of a 4xx/5xx, or the body's decoding error); or the rendering of the delete message or of the body actually received |
| `TodoProperties.ClassifyErrorMessage` | AgentAI/Tools/todo.py:89-157 | every validation message tells which check failed (read back by `Classify`), so different failed checks never return the same text |
| `TodoProperties.ClassifyHandlerText` | AgentAI/Tools/todo.py:170-175 | no exception-handler message can be mistaken for a validation message |
| `TodoProperties.CreateBuyMilk` | AgentAI/Tools/todo.py:92-109 | creating " Buy milk " / " 2% " plans one POST of "Buy milk" / "2%" with `completed` false |
| `TodoProperties.CreateBuyMilkEcho` | AgentAI/Tools/todo.py:109-111 | when the API answers that create with 201 and echoes the item back, the echoed item is rendered as the result |
| `TodoProperties.DeleteFive` | Tools/todo.py:154-167 | deleting id 5 with a 204 answer returns the rendered `{"message": "Todo item with ID 5 deleted successfully"}` |

## Left out

- HTTP I/O (`requests.post/get/put/delete`): what each call gives is the `Reply` parameter, and the planned `HttpCall` records what would be sent.
- The text of the `HTTPError` that `raise_for_status` raises is library code, so it is a field of the reply.
- `json.dumps(..., indent=2)` formatting is the `render` parameter; `response.json()` parsing is the reply's `Body`. A JSON printer or parser is not part of this model.
- The digit limit is Python's default. It can be changed with
  `sys.set_int_max_str_digits` or `PYTHONINTMAXSTRDIGITS`, and Python 3.10
  releases before 3.10.7 have none. The wording of its `ValueError` text differs slightly
  between Python versions; `DigitLimitText` is one of them.
- The exact invalid-operation text: Python prints the set `valid_operations` in an order that depends on string hashing, so the printed set is the `shownOperations` parameter.
- The `isinstance` checks (todo.py lines 94-137), `bool` passing as `int` for `id`, `skip` and `limit`, and non-string truthy titles: the model types the fields (`Option<string>`, `Option<int>`, `bool`, `int`).
- The `completed` checks (lines 98-99 and 136-137) can never fail with a typed `bool` and are not modelled.
- The `name`, `description`, `inputs` and `output_type` class attributes (lines 7-56): metadata for the agent runtime.
- Agents/agent_todo.py: agent and language-model configuration over a third-party runtime.
- Routers/todo_router.py: a FastAPI route that forwards to the agent and turns exceptions into HTTP 500.
- main.py and AgentAI/main.py: application construction and server startup.
- `forward` as a method of an object: `base_url`, `headers` and `delete_headers` are set once in `__init__` and only read, so they are constants here.
