/**
 * The global error-handling middleware: fills in a default status code and status,
 * then answers with full detail in development, or, in production, first turns database
 * errors into operational errors and hides everything non-operational; its token
 * branches throw instead of answering, since the token handlers return nothing.
 */
module ErrorController {
  import opened Wrappers
  import opened Text
  import opened Js
  import opened Http
  import opened AppErrors
  import opened QuotedMatch
  import Mongoose

  const GenericMessage := "Something terrible happened, No worries, We've got this"

  /** What the middleware does: respond, do nothing, or throw out of the handler. */
  datatype Outcome = Respond(response: Response) | NoResponse | Throws(error: TypeError)

  /** The message for a duplicate key, quoting the offending value. */
  function DuplicateMessage(value: string): string {
    "Duplicate field value: " + value + ". Please use another value"
  }

  /** Facts about a 400 AppError: "fail", operational, with the given message. */
  lemma BadRequest(message: string, trace: string)
    ensures var e := NewAppError(message, Num(400), trace);
      && e.Get("statusCode") == Num(400) && e.Get("status") == Str("fail")
      && e.Get("isOperational") == Bool(true) && e.Get("message") == Str(message)
  {
    StatusOfHttpCode(message, 400, trace);
  }

  /**
   * `handleDuplicateFieldsErrorDB`: a 400 error quoting the first quoted substring of
   * `errmsg`. Calling `match` on a non-string and indexing the null that `match`
   * returns when nothing is quoted both throw.
   */
  function HandleDuplicateFieldsErrorDB(err: ErrObj, trace: string): (r: Result<ErrObj, TypeError>)
    ensures r.Success? <==> err.Get("errmsg").Str? && FirstQuoted(err.Get("errmsg").s).Some?
    ensures r.Success? ==>
      && r.value.Get("statusCode") == Num(400) && r.value.Get("status") == Str("fail")
      && r.value.Get("isOperational") == Bool(true) && r.value.Get("name") == Str("Error")
      && r.value.Get("message") == Str(DuplicateMessage(FirstQuoted(err.Get("errmsg").s).value))
  {
    match err.Get("errmsg")
    case Str(s) =>
      (match FirstQuoted(s)
       case Some(value) =>
         BadRequest(DuplicateMessage(value), trace);
         Success(NewAppError(DuplicateMessage(value), Num(400), trace))
       case None => Failure(TypeError("Cannot read properties of null (reading '0')")))
    case _ => Failure(TypeError("err.errmsg.match is not a function"))
  }

  /** `handleCastErrorDB`: a 400 error naming the error's `name` and offending `value`. */
  function HandleCastErrorDB(err: ErrObj, trace: string): (r: ErrObj)
    ensures r.Get("statusCode") == Num(400) && r.Get("status") == Str("fail")
    ensures r.Get("isOperational") == Bool(true)
    ensures r.Get("name") == Str("Error") && r.Get("code") == Undefined
    ensures r.Get("message") == Str("Invalid " + ToText(err.Get("name")) + ": " + ToText(err.Get("value")))
  {
    var message := "Invalid " + ToText(err.Get("name")) + ": " + ToText(err.Get("value"));
    BadRequest(message, trace);
    NewAppError(message, Num(400), trace)
  }

  /** `Object.values(v)`: property values in key order, the characters of a string,
      nothing for other primitives; `undefined` and `null` throw. */
  function ObjectValues(v: JsValue): (r: Result<seq<JsValue>, TypeError>)
    ensures r.Failure? <==> v == Undefined || v == Null
    ensures v.Obj? ==> r == Success(v.o.Values())
    ensures v.Str? ==> r.Success? && |r.value| == |v.s|
  {
    match v
    case Undefined => Failure(TypeError("Cannot convert undefined or null to object"))
    case Null => Failure(TypeError("Cannot convert undefined or null to object"))
    case Obj(o) => Success(o.Values())
    case Str(s) => Success(seq(|s|, i requires 0 <= i < |s| => Str([s[i]])))
    case _ => Success([])
  }

  /** `element.message`: reading it from `undefined` or `null` throws. */
  function MessageOf(v: JsValue): Result<JsValue, TypeError> {
    match v
    case Undefined => Failure(TypeError("Cannot read properties of undefined (reading 'message')"))
    case Null => Failure(TypeError("Cannot read properties of null (reading 'message')"))
    case Obj(o) => Success(o.Get("message"))
    case _ => Success(Undefined)
  }

  /** `values.map((element) => element.message)`: fails on the first element that throws. */
  function MessagesOf(vs: seq<JsValue>): (r: Result<seq<JsValue>, TypeError>)
    ensures r.Success? <==> forall i :: 0 <= i < |vs| ==> MessageOf(vs[i]).Success?
    ensures r.Success? ==> |r.value| == |vs| && forall i :: 0 <= i < |vs| ==> r.value[i] == MessageOf(vs[i]).value
  {
    if |vs| == 0 then Success([])
    else
      match MessageOf(vs[0])
      case Failure(t) => Failure(t)
      case Success(m) =>
        match MessagesOf(vs[1..])
        case Failure(t) => Failure(t)
        case Success(ms) => Success([m] + ms)
  }

  /** How `Array.prototype.join` writes one element: `undefined` and `null` as "". */
  function JoinText(v: JsValue): string {
    if v == Undefined || v == Null then "" else ToText(v)
  }

  function JoinTexts(vs: seq<JsValue>): (r: seq<string>)
    ensures |r| == |vs| && forall i :: 0 <= i < |vs| ==> r[i] == JoinText(vs[i])
  {
    seq(|vs|, i requires 0 <= i < |vs| => JoinText(vs[i]))
  }

  /** `handleValidationErrorDB`: a 400 error listing the messages of `err.errors`,
      in property order, joined by ". ". */
  function HandleValidationErrorDB(err: ErrObj, trace: string): (r: Result<ErrObj, TypeError>)
    ensures r.Success? <==>
      && err.Get("errors") != Undefined && err.Get("errors") != Null
      && (err.Get("errors").Obj? ==>
            forall i :: 0 <= i < |err.Get("errors").o.keys| ==>
              var e := err.Get("errors").o.Get(err.Get("errors").o.keys[i]); e != Undefined && e != Null)
    ensures r.Success? ==>
      && ObjectValues(err.Get("errors")).Success?
      && MessagesOf(ObjectValues(err.Get("errors")).value).Success?
      && r.value.Get("statusCode") == Num(400) && r.value.Get("status") == Str("fail")
      && r.value.Get("isOperational") == Bool(true) && r.value.Get("name") == Str("Error")
      && r.value.Get("message") ==
         Str("Invalid input data. " + Join(JoinTexts(MessagesOf(ObjectValues(err.Get("errors")).value).value), ". "))
  {
    match ObjectValues(err.Get("errors"))
    case Failure(t) => Failure(t)
    case Success(vs) =>
      match MessagesOf(vs)
      case Failure(t) => Failure(t)
      case Success(ms) =>
        var message := "Invalid input data. " + Join(JoinTexts(ms), ". ");
        BadRequest(message, trace);
        Success(NewAppError(message, Num(400), trace))
  }

  /** `handleJWTError`: builds an AppError and discards it, so the call yields `undefined`. */
  function HandleJWTError(): Option<ErrObj> {
    None
  }

  /** `handleJWTExpiredError`: likewise yields `undefined`. */
  function HandleJWTExpiredError(): Option<ErrObj> {
    None
  }

  /** The development answer: status, message, the error as JSON (its own enumerable
      properties) and the stack. */
  function SendDevError(err: ErrObj): (res: Response)
    ensures res.statusCode == err.Get("statusCode")
    ensures res.body.Obj? && res.body.o.keys == ["status", "message", "error", "stack"]
    ensures res.body.o.Get("status") == err.Get("status")
    ensures res.body.o.Get("message") == err.Get("message")
    ensures res.body.o.Get("stack") == err.Get("stack")
    ensures res.body.o.Get("error") == Obj(err.own)
  {
    Response(err.Get("statusCode"),
             Obj(JsObject(["status", "message", "error", "stack"],
                          map["status" := err.Get("status"), "message" := err.Get("message"),
                              "error" := Obj(err.own), "stack" := err.Get("stack")])))
  }

  /** The production answer body: exactly a status and a message (a message that is
      `undefined` is left out when the body is written as JSON). */
  function StatusAndMessage(status: JsValue, message: JsValue): (body: JsValue)
    ensures body.Obj? && body.o.keys == ["status", "message"] && body.o.Valid()
    ensures body.o.Get("status") == status && body.o.Get("message") == message
  {
    Obj(JsObject(["status", "message"], map["status" := status, "message" := message]))
  }

  /**
   * `sendProdError`: an operational error is answered with its own status code, status
   * and message; anything else with a 500 and the generic message. Reading
   * `isOperational` of `undefined` throws.
   */
  function SendProdError(error: Option<ErrObj>): (o: Outcome)
    ensures error.None? <==> o.Throws?
    ensures error.Some? && Truthy(error.value.Get("isOperational")) ==>
      o == Respond(Response(error.value.Get("statusCode"),
                            StatusAndMessage(error.value.Get("status"), error.value.Get("message"))))
    ensures error.Some? && !Truthy(error.value.Get("isOperational")) ==>
      o == Respond(Response(Num(500), StatusAndMessage(Str("error"), Str(GenericMessage))))
  {
    match error
    case None => Throws(TypeError("Cannot read properties of undefined (reading 'isOperational')"))
    case Some(e) =>
      if Truthy(e.Get("isOperational")) then
        Respond(Response(e.Get("statusCode"), StatusAndMessage(e.Get("status"), e.Get("message"))))
      else
        Respond(Response(Num(500), StatusAndMessage(Str("error"), Str(GenericMessage))))
  }

  /** `err.statusCode = err.statusCode || 500; err.status = err.status || "error"`. */
  function FillDefaults(err: ErrObj): (r: ErrObj)
    ensures Truthy(err.Get("statusCode")) ==> r.Get("statusCode") == err.Get("statusCode")
    ensures !Truthy(err.Get("statusCode")) ==> r.Get("statusCode") == Num(500)
    ensures Truthy(err.Get("status")) ==> r.Get("status") == err.Get("status")
    ensures !Truthy(err.Get("status")) ==> r.Get("status") == Str("error")
    ensures forall k :: k != "statusCode" && k != "status" ==> r.Get(k) == err.Get(k)
    ensures r.own.Has("statusCode") && r.own.Has("status") && r.hidden == err.hidden
  {
    var e1 := err.Set("statusCode", Or(err.Get("statusCode"), Num(500)));
    e1.Set("status", Or(e1.Get("status"), Str("error")))
  }

  /** Filling in defaults twice changes nothing more. */
  lemma FillDefaultsIdempotent(err: ErrObj)
    ensures forall k :: FillDefaults(FillDefaults(err)).Get(k) == FillDefaults(err).Get(k)
  {
    var once := FillDefaults(err);
    assert Truthy(once.Get("statusCode")) && Truthy(once.Get("status"));
  }

  /** Line 95: a "CastError" becomes a 400 AppError. */
  function CastStep(e: ErrObj, trace: string): (r: ErrObj)
    ensures e.Get("name") != Str("CastError") ==> r == e
  {
    if e.Get("name") == Str("CastError") then HandleCastErrorDB(e, trace) else e
  }

  /** Line 96: code 11000 becomes a 400 AppError, or throws. */
  function DuplicateStep(e: ErrObj, trace: string): (r: Result<ErrObj, TypeError>)
    ensures e.Get("code") != Num(11000) ==> r == Success(e)
  {
    if e.Get("code") == Num(11000) then HandleDuplicateFieldsErrorDB(e, trace) else Success(e)
  }

  /** Lines 97-98: a "ValidationError" becomes a 400 AppError, or throws. */
  function ValidationStep(e: ErrObj, trace: string): (r: Result<ErrObj, TypeError>)
    ensures e.Get("name") != Str("ValidationError") ==> r == Success(e)
  {
    if e.Get("name") == Str("ValidationError") then HandleValidationErrorDB(e, trace) else Success(e)
  }

  /** Lines 99-102: the token checks, then `sendProdError`. After the first check has
      replaced the error by `undefined`, the second check's `error.name` throws. */
  function TokenStepsAndSend(e: ErrObj): (o: Outcome)
    ensures e.Get("name") == Str("JsonWebTokenError") || e.Get("name") == Str("TokenExpiredError") ==> o.Throws?
    ensures e.Get("name") != Str("JsonWebTokenError") && e.Get("name") != Str("TokenExpiredError") ==>
      o == SendProdError(Some(e))
  {
    var e4 := if e.Get("name") == Str("JsonWebTokenError") then HandleJWTError() else Some(e);
    match e4
    case None => Throws(TypeError("Cannot read properties of undefined (reading 'name')"))
    case Some(x) =>
      SendProdError(if x.Get("name") == Str("TokenExpiredError") then HandleJWTExpiredError() else e4)
  }

  /** The production branch from line 93 on: the copy `{ ...err }` passes through the
      cast, duplicate-key, validation and token checks in the order the source writes them. */
  function ProductionChain(copy: ErrObj, trace: string): Outcome {
    AfterCastStep(CastStep(copy, trace), trace)
  }

  /** Lines 96-102, after the cast check. */
  function AfterCastStep(e1: ErrObj, trace: string): Outcome {
    match DuplicateStep(e1, trace)
    case Failure(t) => Throws(t)
    case Success(e2) =>
      match ValidationStep(e2, trace)
      case Failure(t) => Throws(t)
      case Success(e3) => TokenStepsAndSend(e3)
  }

  /** The exported middleware, with `NODE_ENV` as `nodeEnv` and `trace` standing for the
      stack frames of the AppErrors the handlers build. */
  function GlobalErrorHandler(err: ErrObj, nodeEnv: Option<string>, trace: string): (o: Outcome)
    ensures nodeEnv != Some("development") && nodeEnv != Some("production") ==> o == NoResponse
    ensures nodeEnv == Some("development") ==> o == Respond(SendDevError(FillDefaults(err)))
  {
    var e := FillDefaults(err);
    if nodeEnv == Some("development") then Respond(SendDevError(e))
    else if nodeEnv == Some("production") then ProductionChain(e.Spread(), trace)
    else NoResponse
  }
}

/** Properties of the error middleware, and the corrected production path. */
module ErrorControllerProperties {
  import opened Wrappers
  import opened Text
  import opened Js
  import opened Http
  import opened AppErrors
  import opened QuotedMatch
  import Mongoose
  import opened ErrorController

  /** The names the production chain converts. */
  predicate ConvertedName(v: JsValue) {
    v in {Str("CastError"), Str("ValidationError"), Str("JsonWebTokenError"), Str("TokenExpiredError")}
  }

  /** An error whose own enumerable properties trigger none of the production conversions. */
  predicate Unconverted(err: ErrObj) {
    !ConvertedName(err.own.Get("name")) && err.own.Get("code") != Num(11000)
  }

  /** The copy the production branch works on, after the defaults are filled in. */
  lemma CopyAfterDefaults(err: ErrObj)
    ensures var c := FillDefaults(err).Spread();
      && (forall k :: k != "statusCode" && k != "status" ==> c.Get(k) == err.own.Get(k))
      && c.Get("statusCode") == FillDefaults(err).Get("statusCode")
      && c.Get("status") == FillDefaults(err).Get("status")
  {
    var f := FillDefaults(err);
    forall k | k != "statusCode" && k != "status"
      ensures f.Spread().Get(k) == err.own.Get(k)
    {
      assert f.own.Has(k) <==> err.own.Has(k);
      if err.own.Has(k) {
        assert f.Get(k) == err.Get(k);
      }
    }
  }

  /** The production branch works on the copy of the error with defaults filled in. */
  lemma ProductionBranch(err: ErrObj, trace: string)
    ensures GlobalErrorHandler(err, Some("production"), trace) == ProductionChain(FillDefaults(err).Spread(), trace)
    ensures GlobalErrorHandlerFixed(err, Some("production"), trace) == ProductionChainFixed(CopyWithMessage(FillDefaults(err)), trace)
  {
  }

  /** An AppError built by one of the conversions passes the remaining checks and is
      answered with its own status code, status and message. */
  lemma ConvertedAnswer(x: ErrObj, trace: string)
    requires x.Get("name") == Str("Error") && x.Get("isOperational") == Bool(true)
    ensures ValidationStep(x, trace) == Success(x)
    ensures TokenStepsAndSend(x) == Respond(Response(x.Get("statusCode"), StatusAndMessage(x.Get("status"), x.Get("message"))))
    ensures TokenStepsAndSendFixed(x, trace) == TokenStepsAndSend(x)
  {
  }

  /** An error none of the conversions applies to goes on to `sendProdError` unchanged, on
      the path as written and on the corrected one. */
  lemma PassesThrough(e: ErrObj, trace: string)
    requires !ConvertedName(e.Get("name")) && e.Get("code") != Num(11000)
    ensures CastStep(e, trace) == e
    ensures AfterCastStep(e, trace) == SendProdError(Some(e))
    ensures AfterCastStepFixed(e, trace) == SendProdError(Some(e))
  {
    assert DuplicateStep(e, trace) == Success(e);
    assert ValidationStep(e, trace) == Success(e);
  }

  /**
   * In production an operational error that no conversion applies to is answered with
   * its status code (500 when it had none) and a body of exactly its status and its own
   * enumerable `message`: the stack is never sent.
   */
  lemma ProductionOperational(err: ErrObj, trace: string)
    requires Unconverted(err) && Truthy(err.own.Get("isOperational"))
    ensures var o := GlobalErrorHandler(err, Some("production"), trace);
      && o.Respond?
      && o.response.statusCode == FillDefaults(err).Get("statusCode")
      && o.response.body == StatusAndMessage(FillDefaults(err).Get("status"), err.own.Get("message"))
      && Truthy(o.response.statusCode)
  {
    ProductionBranch(err, trace);
    CopyAfterDefaults(err);
    PassesThrough(FillDefaults(err).Spread(), trace);
  }

  /** In production a non-operational error that no conversion applies to gets the same
      500 answer with the generic message, whatever it holds. */
  lemma ProductionNonOperational(err: ErrObj, trace: string)
    requires Unconverted(err) && !Truthy(err.own.Get("isOperational"))
    ensures GlobalErrorHandler(err, Some("production"), trace)
         == Respond(Response(Num(500), StatusAndMessage(Str("error"), Str(GenericMessage))))
  {
    ProductionBranch(err, trace);
    CopyAfterDefaults(err);
    PassesThrough(FillDefaults(err).Spread(), trace);
  }

  /**
   * An AppError with a three-digit status code reaches the production client without
   * its message: the object spread does not copy the non-enumerable `message`, so the
   * body is the status and `undefined` (omitted from the JSON). In development the
   * message is sent.
   */
  lemma AppErrorLosesMessageInProduction(message: string, code: int, trace: string, trace': string)
    requires 100 <= code <= 999
    ensures GlobalErrorHandler(NewAppError(message, Num(code), trace), Some("production"), trace')
         == Respond(Response(Num(code), StatusAndMessage(Str(StatusWord(Num(code))), Undefined)))
    ensures var o := GlobalErrorHandler(NewAppError(message, Num(code), trace), Some("development"), trace');
      o.Respond? && o.response.body.o.Get("message") == Str(message)
  {
    var e := NewAppError(message, Num(code), trace);
    assert e.own.Get("name") == Undefined && e.own.Get("code") == Undefined;
    ProductionOperational(e, trace');
  }

  /** Token errors reach production as `undefined` and the middleware throws instead of
      answering 401: for "JsonWebTokenError" when reading `error.name` of `undefined`,
      for "TokenExpiredError" when `sendProdError` reads `isOperational`. */
  lemma TokenErrorsThrowInProduction(err: ErrObj, trace: string)
    requires err.own.Get("name") in {Str("JsonWebTokenError"), Str("TokenExpiredError")}
    requires err.own.Get("code") != Num(11000)
    ensures GlobalErrorHandler(err, Some("production"), trace).Throws?
  {
    ProductionBranch(err, trace);
    CopyAfterDefaults(err);
    var c := FillDefaults(err).Spread();
    assert CastStep(c, trace) == c;
    assert DuplicateStep(c, trace) == Success(c);
    assert ValidationStep(c, trace) == Success(c);
  }

  /** A duplicate-key error answers 400 quoting the first quoted value of the server
      message, or throws when the message quotes nothing. */
  lemma DuplicateKeyInProduction(errmsg: string, trace: string, trace': string)
    ensures var o := GlobalErrorHandler(Mongoose.DuplicateKeyError(errmsg, trace), Some("production"), trace');
      && (FirstQuoted(errmsg).None? ==> o.Throws?)
      && (FirstQuoted(errmsg).Some? ==>
            o == Respond(Response(Num(400), StatusAndMessage(Str("fail"), Str(DuplicateMessage(FirstQuoted(errmsg).value))))))
  {
    var err := Mongoose.DuplicateKeyError(errmsg, trace);
    ProductionBranch(err, trace');
    CopyAfterDefaults(err);
    var c := FillDefaults(err).Spread();
    assert c.Get("name") == Str("MongoError") && c.Get("code") == Num(11000);
    assert CastStep(c, trace') == c;
    var r := HandleDuplicateFieldsErrorDB(c, trace');
    assert DuplicateStep(c, trace') == r;
    if r.Success? {
      ConvertedAnswer(r.value, trace');
    }
  }

  /** The messages of failed validators, in order. */
  function FieldMessages(errs: seq<Mongoose.FieldError>): (ms: seq<string>)
    ensures |ms| == |errs| && forall i :: 0 <= i < |errs| ==> ms[i] == errs[i].message
  {
    seq(|errs|, i requires 0 <= i < |errs| => errs[i].message)
  }

  /** `message` read off each entry of the `errors` object, in order. */
  lemma {:induction false} EntryMessages(errs: seq<Mongoose.FieldError>, vs: seq<JsValue>)
    requires |vs| == |errs| && forall i :: 0 <= i < |errs| ==> vs[i] == Mongoose.ErrorEntry(errs[i])
    ensures MessagesOf(vs).Success? && JoinTexts(MessagesOf(vs).value) == FieldMessages(errs)
  {
    if |errs| > 0 {
      EntryMessages(errs[1..], vs[1..]);
      assert MessageOf(vs[0]) == Success(Str(errs[0].message));
      assert FieldMessages(errs) == [errs[0].message] + FieldMessages(errs[1..]);
    }
  }

  /** Reading `message` off every entry of a ValidationError's `errors` gives the
      validators' messages in order. */
  lemma ErrorsObjectMessages(errs: seq<Mongoose.FieldError>)
    requires Mongoose.DistinctPaths(errs)
    ensures ObjectValues(Obj(Mongoose.ErrorsObject(errs))).Success?
    ensures MessagesOf(ObjectValues(Obj(Mongoose.ErrorsObject(errs))).value).Success?
    ensures JoinTexts(MessagesOf(ObjectValues(Obj(Mongoose.ErrorsObject(errs))).value).value) == FieldMessages(errs)
  {
    var o := Mongoose.ErrorsObject(errs);
    Mongoose.ErrorsObjectInOrder(errs);
    var vs := o.Values();
    assert forall i :: 0 <= i < |errs| ==> vs[i] == Mongoose.ErrorEntry(errs[i]);
    EntryMessages(errs, vs);
  }

  /** A schema validation failure answers 400 with "Invalid input data. " and the
      validators' messages joined by ". ". */
  lemma ValidationErrorInProduction(modelName: string, errs: seq<Mongoose.FieldError>, trace: string, trace': string)
    requires Mongoose.DistinctPaths(errs)
    ensures GlobalErrorHandler(Mongoose.ValidationError(modelName, errs, trace), Some("production"), trace')
         == Respond(Response(Num(400), StatusAndMessage(Str("fail"),
              Str("Invalid input data. " + Join(FieldMessages(errs), ". ")))))
  {
    var err := Mongoose.ValidationError(modelName, errs, trace);
    ProductionBranch(err, trace');
    CopyAfterDefaults(err);
    var c := FillDefaults(err).Spread();
    assert c.Get("name") == Str("ValidationError") && c.Get("code") == Undefined;
    assert c.Get("errors") == Obj(Mongoose.ErrorsObject(errs));
    ErrorsObjectMessages(errs);
    assert CastStep(c, trace') == c;
    assert DuplicateStep(c, trace') == Success(c);
    var r := HandleValidationErrorDB(c, trace');
    assert ValidationStep(c, trace') == r;
    assert r.Success? && r.value.Get("message") == Str("Invalid input data. " + Join(FieldMessages(errs), ". "));
    ConvertedAnswer(r.value, trace');
  }

  /** The message of a converted cast error: its name is "CastError". */
  lemma CastErrorMessageText(value: JsValue)
    ensures "Invalid " + ToText(Str("CastError")) + ": " + ToText(value) == "Invalid CastError: " + ToText(value)
  {
    assert "Invalid " + "CastError" + ": " == "Invalid CastError: ";
  }

  /** A cast error answers 400 with "Invalid " followed by its name, which is always
      "CastError" here, and its value. */
  lemma CastErrorInProduction(err: ErrObj, trace: string)
    requires err.own.Get("name") == Str("CastError")
    ensures GlobalErrorHandler(err, Some("production"), trace)
         == Respond(Response(Num(400), StatusAndMessage(Str("fail"),
              Str("Invalid CastError: " + ToText(err.own.Get("value"))))))
  {
    ProductionBranch(err, trace);
    CopyAfterDefaults(err);
    var c := FillDefaults(err).Spread();
    assert c.Get("name") == Str("CastError") && c.Get("value") == err.own.Get("value");
    var e1 := HandleCastErrorDB(c, trace);
    assert CastStep(c, trace) == e1;
    assert DuplicateStep(e1, trace) == Success(e1);
    ConvertedAnswer(e1, trace);
    CastErrorMessageText(err.own.Get("value"));
  }

  // The corrected production path: the token handlers return the AppError they build,
  // and the copy keeps the message.

  const InvalidTokenMessage := "Invalid token, Please log in again"
  const ExpiredTokenMessage := "Your token has expired, Please log in again"

  /** The AppError a corrected token handler returns: 401, "fail", operational. */
  function TokenError(message: string, trace: string): (e: ErrObj)
    ensures e.Get("statusCode") == Num(401) && e.Get("status") == Str("fail")
    ensures e.Get("message") == Str(message)
    ensures e.Get("isOperational") == Bool(true)
  {
    StatusOfHttpCode(message, 401, trace);
    NewAppError(message, Num(401), trace)
  }

  /** `handleJWTError` returning its AppError. */
  function HandleJWTErrorFixed(trace: string): ErrObj {
    TokenError(InvalidTokenMessage, trace)
  }

  /** `handleJWTExpiredError` returning its AppError. */
  function HandleJWTExpiredErrorFixed(trace: string): ErrObj {
    TokenError(ExpiredTokenMessage, trace)
  }

  /** The copy with the message carried over: `{ ...err, message: err.message }`. */
  function CopyWithMessage(err: ErrObj): (c: ErrObj)
    ensures c.Get("message") == err.Get("message")
    ensures forall k :: k != "message" ==> c.Get(k) == err.Spread().Get(k)
  {
    err.Spread().Set("message", err.Get("message"))
  }

  /** Lines 99-102 with handlers that return their AppError. */
  function TokenStepsAndSendFixed(e: ErrObj, trace: string): (o: Outcome)
    ensures e.Get("name") == Str("JsonWebTokenError") ==> o == SendProdError(Some(HandleJWTErrorFixed(trace)))
    ensures e.Get("name") == Str("TokenExpiredError") ==> o == SendProdError(Some(HandleJWTExpiredErrorFixed(trace)))
    ensures e.Get("name") != Str("JsonWebTokenError") && e.Get("name") != Str("TokenExpiredError") ==>
      o == SendProdError(Some(e))
  {
    var e4 := if e.Get("name") == Str("JsonWebTokenError") then HandleJWTErrorFixed(trace) else e;
    assert e.Get("name") == Str("JsonWebTokenError") ==> e4.Get("name") == Str("Error") by {
      if e.Get("name") == Str("JsonWebTokenError") {
        assert e4 == NewAppError(InvalidTokenMessage, Num(401), trace);
      }
    }
    SendProdError(Some(if e4.Get("name") == Str("TokenExpiredError") then HandleJWTExpiredErrorFixed(trace) else e4))
  }

  /** The production branch from the copy on, with the corrected token handlers. */
  function ProductionChainFixed(copy: ErrObj, trace: string): Outcome {
    AfterCastStepFixed(CastStep(copy, trace), trace)
  }

  function AfterCastStepFixed(e1: ErrObj, trace: string): Outcome {
    match DuplicateStep(e1, trace)
    case Failure(t) => Throws(t)
    case Success(e2) =>
      match ValidationStep(e2, trace)
      case Failure(t) => Throws(t)
      case Success(e3) => TokenStepsAndSendFixed(e3, trace)
  }

  /** The middleware with the corrected production branch. */
  function GlobalErrorHandlerFixed(err: ErrObj, nodeEnv: Option<string>, trace: string): (o: Outcome)
    ensures nodeEnv != Some("production") ==> o == GlobalErrorHandler(err, nodeEnv, trace)
  {
    if nodeEnv == Some("production") then ProductionChainFixed(CopyWithMessage(FillDefaults(err)), trace)
    else GlobalErrorHandler(err, nodeEnv, trace)
  }

  /** The message each token error is answered with on the corrected path. */
  function TokenMessage(name: JsValue): string {
    if name == Str("JsonWebTokenError") then InvalidTokenMessage else ExpiredTokenMessage
  }

  /** The corrected token checks answer 401 with the handler's message. */
  lemma FixedTokenAnswer(e: ErrObj, trace: string)
    requires e.Get("name") in {Str("JsonWebTokenError"), Str("TokenExpiredError")}
    ensures TokenStepsAndSendFixed(e, trace)
         == Respond(Response(Num(401), StatusAndMessage(Str("fail"), Str(TokenMessage(e.Get("name"))))))
  {
    if e.Get("name") == Str("JsonWebTokenError") {
      var x := HandleJWTErrorFixed(trace);
      assert TokenStepsAndSendFixed(e, trace) == SendProdError(Some(x));
    } else {
      var x := HandleJWTExpiredErrorFixed(trace);
      assert TokenStepsAndSendFixed(e, trace) == SendProdError(Some(x));
    }
  }

  /** Corrected: token errors are answered 401 with their own messages. */
  lemma FixedTokenErrorsAre401(err: ErrObj, trace: string)
    requires err.own.Get("name") in {Str("JsonWebTokenError"), Str("TokenExpiredError")}
    requires err.own.Get("code") != Num(11000)
    ensures GlobalErrorHandlerFixed(err, Some("production"), trace)
         == Respond(Response(Num(401), StatusAndMessage(Str("fail"), Str(TokenMessage(err.own.Get("name"))))))
  {
    ProductionBranch(err, trace);
    CopyAfterDefaults(err);
    var c := CopyWithMessage(FillDefaults(err));
    assert c.Get("name") == err.own.Get("name") && c.Get("code") == err.own.Get("code");
    assert CastStep(c, trace) == c;
    assert DuplicateStep(c, trace) == Success(c);
    assert ValidationStep(c, trace) == Success(c);
    FixedTokenAnswer(c, trace);
  }

  /** Corrected: an operational error no conversion applies to is answered with its own
      status code and status and its message, enumerable or not. */
  lemma FixedOperationalAnswer(f: ErrObj, trace: string)
    requires f.own.Get("name") == Undefined && f.own.Get("code") == Undefined
    requires f.own.Get("isOperational") == Bool(true)
    ensures ProductionChainFixed(CopyWithMessage(f), trace)
         == Respond(Response(f.own.Get("statusCode"), StatusAndMessage(f.own.Get("status"), f.Get("message"))))
  {
    var c := CopyWithMessage(f);
    assert c.Get("name") == Undefined && c.Get("code") == Undefined;
    PassesThrough(c, trace);
  }

  /** Corrected: an AppError reaches the production client with its message. */
  lemma FixedAppErrorKeepsMessage(message: string, code: int, trace: string, trace': string)
    requires 100 <= code <= 999
    ensures GlobalErrorHandlerFixed(NewAppError(message, Num(code), trace), Some("production"), trace')
         == Respond(Response(Num(code), StatusAndMessage(Str(StatusWord(Num(code))), Str(message))))
  {
    var e := NewAppError(message, Num(code), trace);
    ProductionBranch(e, trace');
    CopyAfterDefaults(e);
    var f := FillDefaults(e);
    assert f.own.Get("statusCode") == Num(code) && f.own.Get("isOperational") == Bool(true);
    assert f.own.Get("status") == Str(StatusWord(Num(code)));
    FixedOperationalAnswer(f, trace');
  }
}
