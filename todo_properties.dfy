/**
 * What `TodoManagerTool.forward` promises, stated about the model in
 * todo_tool.dfy: the order of its checks, the one request each valid call
 * sends, and how replies and exceptions become the returned string.
 */
module TodoProperties {
  import opened Wrappers
  import opened TextStrip
  import opened Decimal
  import opened Json
  import opened TodoTool

  /* ---------------- Operation dispatch ---------------- */

  /** Operation names and operations correspond one to one. */
  lemma OperationNameRoundTrip(op: Operation, s: string)
    ensures ParseOperation(Name(op)) == Some(op)
    ensures ParseOperation(s) == Some(op) ==> s == Name(op)
  {
  }

  /**
   * The invalid-operation error is returned exactly for names outside the
   * four, before any other field is looked at, and whatever the network
   * would have done.
   */
  lemma UnknownOperationRejected(req: Request, reply: Reply, render: Json -> string, shown: string)
    ensures Plan(req) == Reject(InvalidOperation) <==> req.op !in OperationNames
    ensures req.op !in OperationNames ==>
      Plan(req) == Plan(Request(req.op)) &&
      Forward(req, reply, render, shown) == ErrorMessage(InvalidOperation, shown)
  {
  }

  /* ---------------- Create ---------------- */

  /**
   * Create checks the title, then the description; the first failure is
   * returned whatever the later fields hold, and a request is planned
   * exactly when both are non-empty.
   */
  lemma CreateValidationOrder(req: Request, description: Option<string>, completed: bool)
    requires req.op == "create"
    ensures !NonEmpty(req.title) ==>
      Plan(req) == Plan(req.(description := description, completed := completed)) == Reject(TitleInvalid(Create))
    ensures NonEmpty(req.title) && !NonEmpty(req.description) ==>
      Plan(req) == Plan(req.(completed := completed)) == Reject(DescriptionInvalid(Create))
    ensures Plan(req).Send? <==> NonEmpty(req.title) && NonEmpty(req.description)
  {
  }

  /** A valid create sends one POST of the todo body to the collection URL. */
  lemma CreateRequest(req: Request)
    requires req.op == "create" && NonEmpty(req.title) && NonEmpty(req.description)
    ensures Plan(req) == Send(Create, HttpCall(POST, BaseUrl, JsonHeaders,
      JsonBody(TodoBody(req.title.value, req.description.value, req.completed))))
  {
  }

  /**
   * The strings in a create or update body are the given ones with only
   * surrounding whitespace removed: each is a slice of the input, neither
   * starts nor ends with whitespace, and trimming it again changes nothing.
   * `completed` is sent unchanged.
   */
  lemma BodyFieldsTrimmed(title: string, description: string, completed: bool)
    ensures TodoBody(title, description, completed).members[2] == ("completed", JBool(completed))
    ensures var t := TodoBody(title, description, completed).members[0].1.s;
      TrimmedSliceOf(t, title) && Strip(t) == t
    ensures var d := TodoBody(title, description, completed).members[1].1.s;
      TrimmedSliceOf(d, description) && Strip(d) == d
  {
    StripTrimmedSlice(title);
    StripTrimmedSlice(description);
    StripIdempotent(title);
    StripIdempotent(description);
  }

  lemma StripTrimmedSlice(s: string)
    ensures TrimmedSliceOf(Strip(s), s)
  {
    var r := Strip(s);
    var i := StripShape(s);
    assert 0 <= i && i + |r| <= |s| && r == s[i..i + |r|] && AllSpace(s[..i]) && AllSpace(s[i + |r|..]);
  }

  /** `r` is `s` with whitespace cut off both ends and none left at either end. */
  ghost predicate TrimmedSliceOf(r: string, s: string) {
    (exists i :: 0 <= i && i + |r| <= |s| && r == s[i..i + |r|] && AllSpace(s[..i]) && AllSpace(s[i + |r|..]))
    && (r == [] || (!IsSpace(r[0]) && !IsSpace(r[|r| - 1])))
  }

  /**
   * Validation runs before trimming: a title made only of whitespace is not
   * empty, so it passes, and it is sent as the empty string.
   */
  lemma WhitespaceTitlePassesAndIsSentEmpty(req: Request)
    requires req.op == "create" && NonEmpty(req.title) && AllSpace(req.title.value)
    requires NonEmpty(req.description)
    ensures Plan(req).Send? && Plan(req).call.payload.body.members[0] == ("title", JString(""))
  {
    StripEmptyIff(req.title.value);
  }

  /* ---------------- Retrieve ---------------- */

  /**
   * Retrieve fails on `skip` exactly when it is negative, otherwise on
   * `limit` exactly when it is below one; past those checks, writing either
   * number raises when it is over the digit limit, and otherwise a GET is
   * sent whose query strings are `str(skip)` and `str(limit)`: digits with
   * no sign that read back as `skip` and `limit`.
   */
  lemma RetrieveValidation(req: Request)
    requires req.op == "retrieve"
    ensures Plan(req) == Reject(SkipInvalid) <==> req.skip < 0
    ensures Plan(req) == Reject(LimitInvalid) <==> req.skip >= 0 && req.limit < 1
    ensures Plan(req).Fail? <==>
      req.skip >= 0 && req.limit >= 1 && !(WithinDigitLimit(req.skip) && WithinDigitLimit(req.limit))
    ensures Plan(req).Send? <==>
      req.skip >= 0 && req.limit >= 1 && WithinDigitLimit(req.skip) && WithinDigitLimit(req.limit)
    ensures Plan(req).Send? ==>
      var call := Plan(req).call;
      call.verb == GET && call.url == BaseUrl && call.headers == JsonHeaders &&
      call.payload == QueryParams([("skip", IntToDecimal(req.skip)), ("limit", IntToDecimal(req.limit))]) &&
      AllDigits(call.payload.params[0].1) && ParseInt(call.payload.params[0].1) == Some(req.skip) &&
      AllDigits(call.payload.params[1].1) && ParseInt(call.payload.params[1].1) == Some(req.limit)
  {
    if Plan(req).Send? {
      IntToDecimalRoundTrip(req.skip);
      IntToDecimalRoundTrip(req.limit);
    }
  }

  /** Retrieve ignores title, description, completed and id, in the plan and in the output. */
  lemma RetrieveIgnoresItemFields(req: Request, title: Option<string>, description: Option<string>,
                                  completed: bool, id: Option<int>, reply: Reply, render: Json -> string, shown: string)
    requires req.op == "retrieve"
    ensures var other := req.(title := title, description := description, completed := completed, id := id);
      Plan(other) == Plan(req) && Forward(other, reply, render, shown) == Forward(req, reply, render, shown)
  {
  }

  /* ---------------- Item URLs ---------------- */

  /** Reads the id back out of an item URL, the inverse of ItemUrl. */
  function ItemIdOf(url: string): Option<int> {
    if |BaseUrl| <= |url| && url[..|BaseUrl|] == BaseUrl then ParseInt(url[|BaseUrl|..]) else None
  }

  /** The id can be recovered from the URL built for it, so distinct ids give distinct URLs. */
  lemma ItemUrlRoundTrip(id: int, other: int)
    ensures ItemIdOf(ItemUrl(id)) == Some(id)
    ensures ItemUrl(id) == ItemUrl(other) ==> id == other
  {
    var u := ItemUrl(id);
    assert u[..|BaseUrl|] == BaseUrl;
    assert u[|BaseUrl|..] == IntToDecimal(id);
    IntToDecimalRoundTrip(id);
    if ItemUrl(id) == ItemUrl(other) {
      assert ItemUrl(other)[|BaseUrl|..] == IntToDecimal(other);
      IntToDecimalInjective(id, other);
    }
  }

  /* ---------------- Update ---------------- */

  /**
   * Update checks the id before title and description; past those checks,
   * writing an id over the digit limit into the URL raises, and otherwise
   * one PUT is sent, to the URL of that id, with the JSON headers and the
   * same body create sends.
   */
  lemma UpdateValidation(req: Request, title: Option<string>, description: Option<string>, completed: bool)
    requires req.op == "update"
    ensures !PositiveId(req.id) ==>
      Plan(req) == Plan(req.(title := title, description := description, completed := completed)) == Reject(IdInvalid(Update))
    ensures PositiveId(req.id) && !NonEmpty(req.title) ==>
      Plan(req) == Plan(req.(description := description, completed := completed)) == Reject(TitleInvalid(Update))
    ensures PositiveId(req.id) && NonEmpty(req.title) && !NonEmpty(req.description) ==>
      Plan(req) == Reject(DescriptionInvalid(Update))
    ensures Plan(req).Fail? <==>
      PositiveId(req.id) && NonEmpty(req.title) && NonEmpty(req.description) && !WithinDigitLimit(req.id.value)
    ensures Plan(req).Send? <==>
      PositiveId(req.id) && NonEmpty(req.title) && NonEmpty(req.description) && WithinDigitLimit(req.id.value)
    ensures Plan(req).Send? ==>
      var call := Plan(req).call;
      call.verb == PUT && call.url == ItemUrl(req.id.value) && ItemIdOf(call.url) == req.id &&
      call.headers == JsonHeaders &&
      call.payload == JsonBody(TodoBody(req.title.value, req.description.value, req.completed))
  {
    if Plan(req).Send? {
      ItemUrlRoundTrip(req.id.value, req.id.value);
    }
  }

  /* ---------------- Delete ---------------- */

  /**
   * Delete fails exactly when the id is missing or below one; past that
   * check, writing an id over the digit limit into the URL raises, and
   * otherwise one DELETE is sent, with the delete headers and no body, to
   * the URL of that id. No other field changes the plan.
   */
  lemma DeleteValidation(req: Request)
    requires req.op == "delete"
    ensures Plan(req) == Plan(Request("delete", id := req.id))
    ensures Plan(req) == Reject(IdInvalid(Delete)) <==> !PositiveId(req.id)
    ensures Plan(req).Fail? <==> PositiveId(req.id) && !WithinDigitLimit(req.id.value)
    ensures Plan(req).Send? <==> PositiveId(req.id) && WithinDigitLimit(req.id.value)
    ensures Plan(req).Send? ==>
      var call := Plan(req).call;
      call.verb == DELETE && call.headers == DeleteHeaders && call.payload == NoPayload &&
      call.url == ItemUrl(req.id.value) && ItemIdOf(call.url) == req.id
  {
    if Plan(req).Send? {
      ItemUrlRoundTrip(req.id.value, req.id.value);
    }
  }

  /* ---------------- Integers past the digit limit ---------------- */

  /**
   * When an integer that `forward` writes into the query or the URL is past
   * the digit limit, no request is made: whatever the network would have
   * done, the catch-all handler reports the `ValueError`. Create writes no
   * integer and never gets here.
   */
  lemma DigitLimitReported(req: Request, reply: Reply, reply': Reply, render: Json -> string, shown: string)
    requires Plan(req).Fail?
    ensures Plan(req).op != Create
    ensures Forward(req, reply, render, shown) == "Error processing request: " + DigitLimitText
    ensures Forward(req, reply, render, shown) == Forward(req, reply', render, shown)
  {
  }

  /** A delete of `10^4300`, a 4301-digit id, is answered with the digit-limit error. */
  lemma DeleteHugeId(id: int, reply: Reply, render: Json -> string, shown: string)
    requires id == Pow10(MaxStrDigits)
    ensures Forward(Request("delete", id := Some(id)), reply, render, shown)
      == "Error processing request: " + DigitLimitText
  {
    DigitLimitBound(id);
    DeleteValidation(Request("delete", id := Some(id)));
  }

  /* ---------------- Replies ---------------- */

  /**
   * A delete answered with 204 reports the success message naming the id,
   * without looking at the body.
   */
  lemma DeleteNoContent(id: Option<int>, text: string, body: Body, other: Body, render: Json -> string)
    ensures Finish(Delete, id, Answered(204, text, body), render) == render(DeletedMessage(id))
    ensures Finish(Delete, id, Answered(204, text, body), render) == Finish(Delete, id, Answered(204, text, other), render)
  {
  }

  /** Any answer with a status below 400 or from 600 up, other than 204 to a delete, reports its decoded body. */
  lemma SuccessRendersBody(op: Operation, id: Option<int>, status: int, text: string, j: Json, render: Json -> string)
    requires !ErrorStatus(status) && !(op == Delete && status == 204)
    ensures Finish(op, id, Answered(status, text, Decoded(j)), render) == render(j)
  {
  }

  /**
   * A 4xx or 5xx answer is reported as a failed request of that operation,
   * whatever the body, so a failed delete is never reported as a success.
   */
  lemma ErrorStatusReported(op: Operation, id: Option<int>, status: int, text: string, body: Body, render: Json -> string)
    requires ErrorStatus(status)
    ensures Finish(op, id, Answered(status, text, body), render) == "Error performing " + Name(op) + " operation: " + text
  {
  }

  /**
   * The handlers, in order: a `requests` exception names the operation, a
   * JSON decoding error that is not also a `requests` exception gives the
   * fixed message, and anything else the catch-all message.
   */
  lemma HandlerOrder(op: Operation, e: Exc)
    ensures e.isRequestException ==> Handle(op, e) == "Error performing " + Name(op) + " operation: " + e.text
    ensures !e.isRequestException && e.isJsonDecodeError ==> Handle(op, e) == InvalidJsonMessage
    ensures !e.isRequestException && !e.isJsonDecodeError ==> Handle(op, e) == "Error processing request: " + e.text
    ensures e.isRequestException ==> Handle(op, e) != InvalidJsonMessage
  {
    if e.isRequestException {
      assert Handle(op, e)[5] == ' ' && InvalidJsonMessage[5] == ':';
    }
  }

  /**
   * An exception raised by the `requests` call, or by `response.json()` on
   * an answer that passed the status check, is reported by the handlers
   * as that very exception.
   */
  lemma ExceptionReported(op: Operation, id: Option<int>, e: Exc, status: int, text: string, render: Json -> string)
    ensures Finish(op, id, Raised(e), render) == Handle(op, e)
    ensures !ErrorStatus(status) && !(op == Delete && status == 204) ==>
      Finish(op, id, Answered(status, text, Undecodable(e)), render) == Handle(op, e)
  {
  }

  /**
   * `forward` always returns a string of one of three kinds: the message of
   * the failed check; the handler text of the exception actually raised
   * (while building the request, by the `requests` call, by
   * `raise_for_status`, or by `response.json()`); or the rendering of the
   * delete message or of the decoded body actually received.
   */
  lemma ForwardOutcome(req: Request, reply: Reply, render: Json -> string, shown: string)
    ensures Plan(req).Reject? ==> Forward(req, reply, render, shown) == ErrorMessage(Plan(req).error, shown)
    ensures Plan(req).Fail? ==> Forward(req, reply, render, shown) == Handle(Plan(req).op, Plan(req).exc)
    ensures Plan(req).Send? && reply.Raised? ==>
      Forward(req, reply, render, shown) == Handle(Plan(req).op, reply.error)
    ensures Plan(req).Send? && reply.Answered? ==>
      var r := Forward(req, reply, render, shown);
      r == Handle(Plan(req).op, Exc(true, false, reply.httpErrorText)) ||
      r == render(DeletedMessage(req.id)) ||
      (reply.body.Decoded? && r == render(reply.body.json)) ||
      (reply.body.Undecodable? && r == Handle(Plan(req).op, reply.body.error))
  {
    if Plan(req).Send? {
      var op := Plan(req).op;
      match reply
      case Raised(e) =>
        ExceptionReported(op, req.id, e, 0, "", render);
      case Answered(status, text, body) =>
        if ErrorStatus(status) {
          ErrorStatusReported(op, req.id, status, text, body, render);
        } else if op == Delete && status == 204 {
          DeleteNoContent(req.id, text, body, body, render);
        } else if body.Decoded? {
          SuccessRendersBody(op, req.id, status, text, body.json, render);
        } else {
          ExceptionReported(op, req.id, body.error, status, text, render);
        }
    }
  }

  /* ---------------- Reading error messages back ---------------- */

  predicate StartsWith(s: string, prefix: string) {
    |prefix| <= |s| && s[..|prefix|] == prefix
  }

  /** The operation named between `prefix` and " operation." in `m`. */
  function OperationBetween(m: string, prefix: string): Option<Operation> {
    if |prefix| + |OperationSuffix| <= |m| && m[|m| - |OperationSuffix|..] == OperationSuffix
    then ParseOperation(m[|prefix|..|m| - |OperationSuffix|])
    else None
  }

  function MapOp(o: Option<Operation>, k: Operation -> ValidationError): Option<ValidationError> {
    match o
    case None => None
    case Some(op) => Some(k(op))
  }

  /** Which check failed, read from a returned message; None for any other text. */
  function Classify(m: string): Option<ValidationError> {
    if StartsWith(m, InvalidOperationPrefix) then Some(InvalidOperation)
    else if StartsWith(m, TitlePrefix) then MapOp(OperationBetween(m, TitlePrefix), op => TitleInvalid(op))
    else if StartsWith(m, DescriptionPrefix) then MapOp(OperationBetween(m, DescriptionPrefix), op => DescriptionInvalid(op))
    else if StartsWith(m, IdPrefix) then MapOp(OperationBetween(m, IdPrefix), op => IdInvalid(op))
    else if m == SkipMessage then Some(SkipInvalid)
    else if m == LimitMessage then Some(LimitInvalid)
    else None
  }

  /** A string that differs from `p` at position `k` does not start with `p`. */
  lemma DiffersAt(m: string, p: string, k: nat)
    requires k < |p| && k < |m| && m[k] != p[k]
    ensures !StartsWith(m, p)
  {
  }

  /** The text of a message built as `prefix + Name(op) + OperationSuffix` gives back `op`. */
  lemma OperationBetweenName(prefix: string, op: Operation)
    ensures OperationBetween(prefix + Name(op) + OperationSuffix, prefix) == Some(op)
  {
    var m := prefix + Name(op) + OperationSuffix;
    assert m[|m| - |OperationSuffix|..] == OperationSuffix;
    assert m[|prefix|..|m| - |OperationSuffix|] == Name(op);
  }

  /**
   * Every validation message names its check: Classify reads back the
   * error it was made from, so different failed checks never return the
   * same string.
   */
  lemma ClassifyErrorMessage(e: ValidationError, shown: string, e': ValidationError, shown': string)
    ensures Classify(ErrorMessage(e, shown)) == Some(e)
    ensures ErrorMessage(e, shown) == ErrorMessage(e', shown') ==> e == e'
  {
    ClassifyOne(e, shown);
    ClassifyOne(e', shown');
  }

  /** The characters that tell the messages apart. */
  lemma MessageChars()
    ensures InvalidOperationPrefix[5] == ':' && InvalidOperationPrefix[7] == 'I' && InvalidOperationPrefix[8] == 'n'
    ensures InvalidOperationPrefix[15] == 'o'
    ensures TitlePrefix[5] == ':' && TitlePrefix[7] == 'T'
    ensures DescriptionPrefix[5] == ':' && DescriptionPrefix[7] == 'D'
    ensures IdPrefix[5] == ':' && IdPrefix[7] == 'I' && IdPrefix[8] == 'D'
    ensures SkipMessage[5] == ':' && SkipMessage[7] == 'S'
    ensures LimitMessage[5] == ':' && LimitMessage[7] == 'L'
    ensures InvalidJsonMessage[7] == 'I' && InvalidJsonMessage[8] == 'n' && InvalidJsonMessage[15] == 'J'
  {
  }

  lemma ClassifyOne(e: ValidationError, shown: string)
    ensures Classify(ErrorMessage(e, shown)) == Some(e)
  {
    match e
    case InvalidOperation =>
      var m := ErrorMessage(e, shown);
      assert m[..|InvalidOperationPrefix|] == InvalidOperationPrefix;
    case TitleInvalid(op) => ClassifyTitle(op);
    case DescriptionInvalid(op) => ClassifyDescription(op);
    case IdInvalid(op) => ClassifyId(op);
    case SkipInvalid => ClassifyRetrieve();
    case LimitInvalid => ClassifyRetrieve();
  }

  lemma ClassifyTitle(op: Operation)
    ensures Classify(TitlePrefix + Name(op) + OperationSuffix) == Some(TitleInvalid(op))
  {
    MessageChars();
    var m := TitlePrefix + Name(op) + OperationSuffix;
    assert m[..|TitlePrefix|] == TitlePrefix;
    assert m[7] == TitlePrefix[7];
    DiffersAt(m, InvalidOperationPrefix, 7);
    OperationBetweenName(TitlePrefix, op);
  }

  lemma ClassifyDescription(op: Operation)
    ensures Classify(DescriptionPrefix + Name(op) + OperationSuffix) == Some(DescriptionInvalid(op))
  {
    MessageChars();
    var m := DescriptionPrefix + Name(op) + OperationSuffix;
    assert m[..|DescriptionPrefix|] == DescriptionPrefix;
    assert m[7] == DescriptionPrefix[7];
    DiffersAt(m, InvalidOperationPrefix, 7);
    DiffersAt(m, TitlePrefix, 7);
    OperationBetweenName(DescriptionPrefix, op);
  }

  lemma ClassifyId(op: Operation)
    ensures Classify(IdPrefix + Name(op) + OperationSuffix) == Some(IdInvalid(op))
  {
    MessageChars();
    var m := IdPrefix + Name(op) + OperationSuffix;
    assert m[..|IdPrefix|] == IdPrefix;
    assert m[7] == IdPrefix[7] && m[8] == IdPrefix[8];
    DiffersAt(m, InvalidOperationPrefix, 8);
    DiffersAt(m, TitlePrefix, 7);
    DiffersAt(m, DescriptionPrefix, 7);
    OperationBetweenName(IdPrefix, op);
  }

  lemma ClassifyRetrieve()
    ensures Classify(SkipMessage) == Some(SkipInvalid)
    ensures Classify(LimitMessage) == Some(LimitInvalid)
  {
    MessageChars();
    DiffersAt(SkipMessage, InvalidOperationPrefix, 7);
    DiffersAt(SkipMessage, TitlePrefix, 7);
    DiffersAt(SkipMessage, DescriptionPrefix, 7);
    DiffersAt(SkipMessage, IdPrefix, 7);
    DiffersAt(LimitMessage, InvalidOperationPrefix, 7);
    DiffersAt(LimitMessage, TitlePrefix, 7);
    DiffersAt(LimitMessage, DescriptionPrefix, 7);
    DiffersAt(LimitMessage, IdPrefix, 7);
    assert LimitMessage[7] != SkipMessage[7];
  }

  /** Exception-handler text is never mistaken for a validation message. */
  lemma ClassifyHandlerText(op: Operation, e: Exc)
    ensures Classify(Handle(op, e)) == None
  {
    MessageChars();
    var m := Handle(op, e);
    if e.isRequestException || !e.isJsonDecodeError {
      assert m[5] == ' ';
      DiffersAt(m, InvalidOperationPrefix, 5);
      DiffersAt(m, TitlePrefix, 5);
      DiffersAt(m, DescriptionPrefix, 5);
      DiffersAt(m, IdPrefix, 5);
      assert m[5] != SkipMessage[5];
      assert m[5] != LimitMessage[5];
    } else {
      assert m == InvalidJsonMessage;
      DiffersAt(m, InvalidOperationPrefix, 15);
      DiffersAt(m, TitlePrefix, 7);
      DiffersAt(m, DescriptionPrefix, 7);
      DiffersAt(m, IdPrefix, 8);
      assert m[7] != SkipMessage[7];
      assert m[7] != LimitMessage[7];
    }
  }

  /* ---------------- Worked examples ---------------- */

  /** Creating " Buy milk " / " 2% " sends the trimmed strings. */
  lemma CreateBuyMilk(title: string, description: string)
    requires title == " Buy milk " && description == " 2% "
    ensures Plan(Request("create", Some(title), Some(description), false)) ==
      Send(Create, HttpCall(POST, BaseUrl, JsonHeaders, JsonBody(
        JObject([("title", JString("Buy milk")), ("description", JString("2%")), ("completed", JBool(false))]))))
  {
    StripBuyMilk();
    CreateRequest(Request("create", Some(title), Some(description), false));
  }

  /** An API that echoes the created item back has that item rendered as the result. */
  lemma CreateBuyMilkEcho(title: string, description: string, echo: Json, text: string,
                          render: Json -> string, shown: string)
    requires title == " Buy milk " && description == " 2% "
    requires echo == JObject([("id", JNumber("1")), ("title", JString("Buy milk")),
                              ("description", JString("2%")), ("completed", JBool(false))])
    ensures Forward(Request("create", Some(title), Some(description), false),
                    Answered(201, text, Decoded(echo)), render, shown) == render(echo)
  {
    var req := Request("create", Some(title), Some(description), false);
    CreateBuyMilk(title, description);
    SendForward(req, Answered(201, text, Decoded(echo)), render, shown);
    SuccessRendersBody(Create, req.id, 201, text, echo, render);
  }

  /** Once a request is planned, the output is what its reply maps to. */
  lemma SendForward(req: Request, reply: Reply, render: Json -> string, shown: string)
    requires Plan(req).Send?
    ensures Forward(req, reply, render, shown) == Finish(Plan(req).op, req.id, reply, render)
  {
  }

  lemma StripBuyMilk()
    ensures Strip(" Buy milk ") == "Buy milk" && Strip(" 2% ") == "2%"
  {
    assert " " + "Buy milk" + " " == " Buy milk ";
    assert !IsSpace('B') && !IsSpace('k');
    StripPadded("Buy milk");
    assert " " + "2%" + " " == " 2% ";
    StripPadded("2%");
  }

  /** One space on each side of a word is exactly what strip removes. */
  lemma StripPadded(w: string)
    requires |w| >= 1 && !IsSpace(w[0]) && !IsSpace(w[|w| - 1])
    ensures Strip(" " + w + " ") == w
  {
    var t := " " + w + " ";
    assert t[..1] == " " && t[|w| + 1..] == " " && t[1..|w| + 1] == w;
    StripUnique(t, 1, |w| + 1);
  }

  /** Deleting id 5 with a 204 answer yields the success message for id 5. */
  lemma DeleteFive(id: int, text: string, body: Body, render: Json -> string, shown: string)
    requires id == 5
    ensures Forward(Request("delete", id := Some(id)), Answered(204, text, body), render, shown)
      == render(JObject([("message", JString("Todo item with ID 5 deleted successfully"))]))
  {
    var req := Request("delete", id := Some(id));
    DeleteValidation(req);
    SendForward(req, Answered(204, text, body), render, shown);
    DeleteNoContent(req.id, text, body, body, render);
    assert ShowId(Some(id)) == "5";
    DeleteFiveText();
  }

  /** The message text for id 5, as the f-string spells it. */
  lemma DeleteFiveText()
    ensures "Todo item with ID " + "5" + " deleted successfully" == "Todo item with ID 5 deleted successfully"
  {
  }
}
