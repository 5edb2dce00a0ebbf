/**
 * Signup and login. The JWT signer (`jwt.sign` with the secret fixed) and the token
 * lifetime, the database's verdict on an insert, the login lookup `User.findOne({ email })`
 * and the clock are parameters.
 */
module AuthController {
  import opened Wrappers
  import opened Text
  import opened Js
  import opened Http
  import opened AppErrors
  import opened Mongoose
  import opened UserModel
  import opened UserJson

  /** `jwt.sign(claims, JWT_SECRET)` with the secret fixed: the token for a claim set. */
  type Signer = JsValue -> string

  /** What `signToken` takes from `jsonwebtoken` and the environment: the signer, and
      `JWT_EXPIRES_IN` as a number of seconds. */
  datatype Jwt = Jwt(sign: Signer, expiresIn: int)

  /** What the handlers ask of the database: whether inserting a user fails (with the
      driver's error), and what `User.findOne({ email })` settles to for an email value:
      the user found, none, or the error the query rejects with (a CastError when the
      value cannot be cast to a string). */
  datatype Database = Database(insert: User -> Option<ErrObj>,
                               findOneByEmail: JsValue -> Result<Option<User>, ErrObj>)

  /** The token payload `{ id }`. */
  function TokenPayload(id: string): (p: JsValue)
    ensures p.Obj? && p.o.keys == ["id"] && p.o.Valid() && p.o.Get("id") == Str(id)
  {
    Obj(JsObject(["id"], map["id" := Str(id)]))
  }

  /**
   * The claims `jwt.sign` signs at `now` milliseconds: the payload's `id`, then `iat`,
   * the whole second `Math.floor(now / 1000)`, then `exp`, `iat` plus the lifetime.
   */
  function TokenClaims(id: string, now: int, expiresIn: int): (c: JsValue)
    ensures c.Obj? && c.o.Valid() && c.o.keys == TokenPayload(id).o.keys + ["iat", "exp"]
    ensures c.o.Get("id") == TokenPayload(id).o.Get("id")
    ensures c.o.Get("iat").Num? && c.o.Get("iat").n * 1000 <= now < (c.o.Get("iat").n + 1) * 1000
    ensures c.o.Get("exp") == Num(c.o.Get("iat").n + expiresIn)
  {
    var iat := now / 1000;
    Obj(JsObject(["id", "iat", "exp"], map["id" := Str(id), "iat" := Num(iat), "exp" := Num(iat + expiresIn)]))
  }

  /** `signToken(id)` at `now`. */
  function SignToken(jwt: Jwt, id: string, now: int): string {
    jwt.sign(TokenClaims(id, now, jwt.expiresIn))
  }

  /**
   * A token issued at `now` is stale for `changedPasswordAfterTokenIssued` exactly when
   * the password changed in a later whole second; in particular a change at or before
   * `now` never makes it stale, and the lifetime plays no part.
   */
  lemma IssuedTokenStaleIff(u: User, now: int, expiresIn: int)
    requires u.passwordChangedAt.Some? && u.passwordChangedAt.value >= 0 && now >= 0
    ensures var iat := TokenClaims(u.id, now, expiresIn).o.Get("iat").n;
      ChangedPasswordAfterTokenIssued(u, iat) <==> now / 1000 < u.passwordChangedAt.value / 1000
    ensures u.passwordChangedAt.value <= now ==>
      !ChangedPasswordAfterTokenIssued(u, TokenClaims(u.id, now, expiresIn).o.Get("iat").n)
  {
    StaleIff(u, now / 1000);
  }

  /** The `data` part of a token response: `{ user }`. */
  function UserData(u: User): (d: JsValue)
    ensures d.Obj? && d.o.keys == ["user"] && d.o.Get("user") == ToJson(u)
  {
    Obj(JsObject(["user"], map["user" := ToJson(u)]))
  }

  /** `createAndSendToken(user, statusCode, res)` */
  function CreateAndSendToken(u: User, statusCode: int, jwt: Jwt, now: int): (res: Response)
    ensures res.statusCode == Num(statusCode)
    ensures res.body.Obj? && res.body.o.keys == ["status", "token", "data"]
    ensures res.body.o.Get("status") == Str("success")
    ensures res.body.o.Get("token") == Str(jwt.sign(TokenClaims(u.id, now, jwt.expiresIn)))
    ensures res.body.o.Get("data") == UserData(u)
  {
    Response(Num(statusCode),
             Obj(JsObject(["status", "token", "data"],
                          map["status" := Str("success"), "token" := Str(SignToken(jwt, u.id, now)),
                              "data" := UserData(u)])))
  }

  /** The five values signup takes from the request body. */
  function SignupFields(body: JsObject): NewUserFields {
    NewUserFields(body.Get("role"), body.Get("name"), body.Get("email"), body.Get("password"),
                  body.Get("passwordConfirm"))
  }

  /** `signup`: create the user from five body fields; answer 201 with a token, or pass
      the validation or database error on. */
  function Signup(body: JsObject, id: string, lib: Libraries, db: Database, jwt: Jwt, now: int, trace: string): (r: HandlerResult)
  {
    match Create(SignupFields(body), id, lib, now, trace)
    case Failure(e) => Next(e)
    case Success(u) =>
      match db.insert(u)
      case Some(e) => Next(e)
      case None => Sent(CreateAndSendToken(u, 201, jwt, now))
  }

  /** The five fields signup reads. */
  const SignupKeys: seq<string> := ["role", "name", "email", "password", "passwordConfirm"]

  /** Only the five fields reach the store: bodies that agree on them give the same result. */
  lemma SignupReadsFiveFields(b1: JsObject, b2: JsObject, id: string, lib: Libraries, db: Database, jwt: Jwt,
                              now: int, trace: string)
    requires forall k :: k in SignupKeys ==> b1.Get(k) == b2.Get(k)
    ensures Signup(b1, id, lib, db, jwt, now, trace) == Signup(b2, id, lib, db, jwt, now, trace)
  {
    assert SignupFields(b1) == SignupFields(b2) by {
      assert "role" in SignupKeys && "name" in SignupKeys && "email" in SignupKeys;
      assert "password" in SignupKeys && "passwordConfirm" in SignupKeys;
    }
  }

  /**
   * A signup answers 201 with a token for the new user's id, exactly when validation
   * and the insert succeed; otherwise the ValidationError or the database error is
   * passed on.
   */
  lemma SignupOutcome(body: JsObject, id: string, lib: Libraries, db: Database, jwt: Jwt, now: int, trace: string)
    ensures var r := Signup(body, id, lib, db, jwt, now, trace);
      var c := Create(SignupFields(body), id, lib, now, trace);
      && (r.Sent? <==> c.Success? && db.insert(c.value).None?)
      && (r.Sent? ==> r.response == CreateAndSendToken(c.value, 201, jwt, now) && r.response.statusCode == Num(201))
      && (c.Failure? ==> r == Next(ValidationError("User", Validate(NewDocument(SignupFields(body), id), lib.isEmail), trace)))
      && (c.Success? && db.insert(c.value).Some? ==> r == Next(db.insert(c.value).value))
  {
  }

  /** JavaScript `typeof`, as bcryptjs reports it for illegal arguments. */
  function TypeOf(v: JsValue): string {
    match v
    case Undefined => "undefined"
    case Null => "object"
    case Bool(_) => "boolean"
    case Num(_) => "number"
    case Str(_) => "string"
    case Obj(_) => "object"
  }

  /** The error `bcrypt.compare` rejects with when an argument is not a string: a plain
      `Error`, not operational. */
  function IllegalArguments(candidate: JsValue, hash: JsValue, trace: string): (e: ErrObj)
    ensures e.Get("isOperational") == Undefined && e.Get("name") == Str("Error")
    ensures e.Get("statusCode") == Undefined && e.Get("code") == Undefined
    ensures e.own.keys == []
  {
    var message := "Illegal arguments: " + TypeOf(candidate) + ", " + TypeOf(hash);
    ErrObj(EmptyObject, map["message" := Str(message), "stack" := Str("Error: " + message + trace),
                            "name" := Str("Error")])
  }

  /** `user.comparePasswords(candidate, stored)`: bcrypt's verdict for two strings, its
      rejection when either is not one. */
  function ComparePasswords(candidate: JsValue, stored: JsValue, bcryptCompare: (string, string) -> bool, trace: string)
    : (r: Result<bool, ErrObj>)
    ensures r.Success? <==> candidate.Str? && stored.Str?
    ensures r.Success? ==> r.value == bcryptCompare(candidate.s, stored.s)
    ensures r.Failure? ==> !Truthy(r.error.Get("isOperational")) && r.error.Get("statusCode") == Undefined
  {
    if candidate.Str? && stored.Str? then Success(bcryptCompare(candidate.s, stored.s))
    else Failure(IllegalArguments(candidate, stored, trace))
  }

  const LoginFailure := "Incorrect email or password"

  /** `login` at `now`: the input checks in order, then the lookup and the password
      compare; a rejected lookup or compare reaches `next` through `catchAsync`.
      `stackAt(n)` is the stack of an error built at line `n` of
      controller/authController.js. */
  function Login(body: JsObject, lib: Libraries, db: Database, jwt: Jwt, now: int, stackAt: int -> string): (r: HandlerResult)
  {
    var email := body.Get("email");
    var password := body.Get("password");
    if !Truthy(email) then Next(NewAppError("Please provide email", Num(400), stackAt(72)))
    else if !Truthy(password) then Next(NewAppError("Please provide password", Num(400), stackAt(73)))
    else
      match db.findOneByEmail(email)
      case Failure(e) => Next(e)
      case Success(None) => Next(NewAppError(LoginFailure, Undefined, stackAt(80)))
      case Success(Some(u)) =>
        match ComparePasswords(password, OptText(u.password), lib.bcryptCompare, stackAt(83))
        case Failure(e) => Next(e)
        case Success(correct) =>
          if !correct then Next(NewAppError(LoginFailure, Undefined, stackAt(87)))
          else Sent(CreateAndSendToken(u, 200, jwt, now))
  }

  /** A missing email is reported first, as a 400, whatever the password. */
  lemma LoginWithoutEmail(body: JsObject, lib: Libraries, db: Database, jwt: Jwt, now: int, stackAt: int -> string)
    requires !Truthy(body.Get("email"))
    ensures var r := Login(body, lib, db, jwt, now, stackAt);
      && r.Next? && r.error.Get("message") == Str("Please provide email")
      && r.error.Get("statusCode") == Num(400) && r.error.Get("status") == Str("fail")
  {
    StatusOfHttpCode("Please provide email", 400, stackAt(72));
  }

  /** With an email but no password the request fails 400 before any lookup. */
  lemma LoginWithoutPassword(body: JsObject, lib: Libraries, db: Database, db': Database, jwt: Jwt, now: int,
                             stackAt: int -> string)
    requires Truthy(body.Get("email")) && !Truthy(body.Get("password"))
    ensures var r := Login(body, lib, db, jwt, now, stackAt);
      && r.Next? && r.error.Get("message") == Str("Please provide password")
      && r.error.Get("statusCode") == Num(400) && r.error.Get("status") == Str("fail")
      && r == Login(body, lib, db', jwt, now, stackAt)
  {
    StatusOfHttpCode("Please provide password", 400, stackAt(73));
  }

  /** A lookup that rejects (a CastError for an email value Mongoose cannot cast) is
      passed to `next` unchanged. */
  lemma LoginLookupRejected(body: JsObject, lib: Libraries, db: Database, jwt: Jwt, now: int, stackAt: int -> string)
    requires Truthy(body.Get("email")) && Truthy(body.Get("password"))
    requires db.findOneByEmail(body.Get("email")).Failure?
    ensures Login(body, lib, db, jwt, now, stackAt) == Next(db.findOneByEmail(body.Get("email")).error)
  {
  }

  /**
   * An unknown email and a wrong password give errors that agree on everything but the
   * stack: the same message, no status code, status "error", and the same own
   * properties, so a production answer cannot tell them apart. Only the stack, which
   * records the line that built the error (80 or 87) and which development answers
   * include, differs; the two results are equal exactly when those stacks are.
   */
  lemma LoginFailuresIndistinguishable(body: JsObject, lib: Libraries, unknown: Database, known: Database,
                                       jwt: Jwt, now: int, stackAt: int -> string)
    requires Truthy(body.Get("email")) && body.Get("password").Str? && |body.Get("password").s| > 0
    requires unknown.findOneByEmail(body.Get("email")) == Success(None)
    requires known.findOneByEmail(body.Get("email")).Success? && known.findOneByEmail(body.Get("email")).value.Some?
    requires var u := known.findOneByEmail(body.Get("email")).value.value;
      u.password.Some? && !lib.bcryptCompare(body.Get("password").s, u.password.value)
    ensures var a := Login(body, lib, unknown, jwt, now, stackAt);
      var b := Login(body, lib, known, jwt, now, stackAt);
      && a == Next(NewAppError(LoginFailure, Undefined, stackAt(80)))
      && b == Next(NewAppError(LoginFailure, Undefined, stackAt(87)))
      && a.error.own == b.error.own
      && (forall k :: k != "stack" ==> a.error.Get(k) == b.error.Get(k))
      && (a == b <==> stackAt(80) == stackAt(87))
    ensures NewAppError(LoginFailure, Undefined, stackAt(80)).Get("statusCode") == Undefined
    ensures NewAppError(LoginFailure, Undefined, stackAt(80)).Get("status") == Str("error")
  {
    StatusWithoutCode(LoginFailure, stackAt(80));
    var a := NewAppError(LoginFailure, Undefined, stackAt(80));
    var b := NewAppError(LoginFailure, Undefined, stackAt(87));
    var prefix := "Error: " + LoginFailure;
    if a == b {
      assert a.Get("stack") == b.Get("stack");
      assert stackAt(80) == (prefix + stackAt(80))[|prefix|..];
      assert stackAt(87) == (prefix + stackAt(87))[|prefix|..];
    }
  }

  /** A login answers 200 only for a found user whose stored hash matches the password,
      with a token issued at the time of the request. */
  lemma LoginSucceedsOnlyOnMatch(body: JsObject, lib: Libraries, db: Database, jwt: Jwt, now: int, stackAt: int -> string)
    ensures var r := Login(body, lib, db, jwt, now, stackAt);
      var found := db.findOneByEmail(body.Get("email"));
      r.Sent? <==>
        && Truthy(body.Get("email")) && body.Get("password").Str? && |body.Get("password").s| > 0
        && found.Success? && found.value.Some? && found.value.value.password.Some?
        && lib.bcryptCompare(body.Get("password").s, found.value.value.password.value)
    ensures var r := Login(body, lib, db, jwt, now, stackAt);
      r.Sent? ==> r.response == CreateAndSendToken(db.findOneByEmail(body.Get("email")).value.value, 200, jwt, now)
  {
  }
}

/** How the login errors reach the client, and the corrected handlers. */
module AuthControllerProperties {
  import opened Wrappers
  import opened Js
  import opened Http
  import opened AppErrors
  import opened ErrorController
  import opened ErrorControllerProperties
  import opened UserModel
  import opened UserJson
  import opened AuthController

  /** The failed-login error ends as a 500 "error" in production: it was built without
      a status code, and the spread drops its message as well. */
  lemma LoginFailureIs500(trace: string, trace': string)
    ensures GlobalErrorHandler(NewAppError(LoginFailure, Undefined, trace), Some("production"), trace')
         == Respond(Response(Num(500), StatusAndMessage(Str("error"), Undefined)))
  {
    var e := NewAppError(LoginFailure, Undefined, trace);
    assert e.own.Get("name") == Undefined && e.own.Get("code") == Undefined;
    StatusWithoutCode(LoginFailure, trace);
    ProductionOperational(e, trace');
  }

  /** A non-string password for a found user is bcrypt's illegal-argument error, which
      production answers with the generic 500. */
  lemma LoginNonStringPassword(body: JsObject, lib: Libraries, db: Database, jwt: Jwt, now: int, stackAt: int -> string,
                               trace': string)
    requires Truthy(body.Get("email")) && Truthy(body.Get("password")) && !body.Get("password").Str?
    requires db.findOneByEmail(body.Get("email")).Success? && db.findOneByEmail(body.Get("email")).value.Some?
    ensures var r := Login(body, lib, db, jwt, now, stackAt);
      && r.Next?
      && GlobalErrorHandler(r.error, Some("production"), trace')
         == Respond(Response(Num(500), StatusAndMessage(Str("error"), Str(GenericMessage))))
  {
    var u := db.findOneByEmail(body.Get("email")).value.value;
    var e := IllegalArguments(body.Get("password"), OptText(u.password), stackAt(83));
    assert e.own.Get("name") == Undefined && e.own.Get("code") == Undefined;
    ProductionNonOperational(e, trace');
  }

  /** The JSON of a user that a token response carries holds the stored password hash. */
  lemma TokenResponseHoldsHash(u: User, statusCode: int, jwt: Jwt, now: int)
    requires u.password.Some?
    ensures CreateAndSendToken(u, statusCode, jwt, now).body.o.Get("data").o.Get("user").o.Get("password")
         == Str(u.password.value)
  {
  }

  /** Corrected: the user is sent without the password. */
  function CreateAndSendTokenFixed(u: User, statusCode: int, jwt: Jwt, now: int): (res: Response)
    ensures res.body.Obj? && res.body.o.Get("data").Obj? && res.body.o.Get("data").o.Get("user").Obj?
    ensures var user := res.body.o.Get("data").o.Get("user");
      && user.o.Get("password") == Undefined
      && user == ToJson(u.(password := None))
    ensures res.statusCode == Num(statusCode)
    ensures res.body.o.Get("token") == Str(jwt.sign(TokenClaims(u.id, now, jwt.expiresIn)))
  {
    CreateAndSendToken(u.(password := None), statusCode, jwt, now)
  }

  /** The user's JSON without the password differs from the full one in that path only. */
  lemma JsonWithoutPassword(u: User)
    ensures var full := ToJson(u).o;
      var stripped := ToJson(u.(password := None)).o;
      && stripped.keys == full.keys && stripped.Get("password") == Undefined
      && forall k :: k != "password" ==> stripped.Get(k) == full.Get(k)
  {
  }

  /** Corrected signup: the response leaves the hash out. */
  function SignupFixed(body: JsObject, id: string, lib: Libraries, db: Database, jwt: Jwt, now: int, trace: string)
    : (r: HandlerResult)
  {
    match Create(SignupFields(body), id, lib, now, trace)
    case Failure(e) => Next(e)
    case Success(u) =>
      match db.insert(u)
      case Some(e) => Next(e)
      case None => Sent(CreateAndSendTokenFixed(u, 201, jwt, now))
  }

  /** Corrected signup decides exactly as the original and answers without the hash. */
  lemma SignupFixedHidesHash(body: JsObject, id: string, lib: Libraries, db: Database, jwt: Jwt, now: int, trace: string)
    ensures var r := Signup(body, id, lib, db, jwt, now, trace);
      var r' := SignupFixed(body, id, lib, db, jwt, now, trace);
      && (r.Sent? <==> r'.Sent?)
      && (r.Next? ==> r' == r)
      && (r'.Sent? ==> r'.response.statusCode == Num(201)
                       && r'.response.body.o.Get("data").o.Get("user").o.Get("password") == Undefined
                       && r'.response.body.o.Get("token") == r.response.body.o.Get("token"))
  {
  }

  /** Corrected login: failures are 401s, a deactivated user is treated as unknown, and
      the response leaves the hash out. */
  function LoginFixed(body: JsObject, lib: Libraries, db: Database, jwt: Jwt, now: int, stackAt: int -> string): (r: HandlerResult)
  {
    var email := body.Get("email");
    var password := body.Get("password");
    if !Truthy(email) then Next(NewAppError("Please provide email", Num(400), stackAt(72)))
    else if !Truthy(password) then Next(NewAppError("Please provide password", Num(400), stackAt(73)))
    else
      match db.findOneByEmail(email)
      case Failure(e) => Next(e)
      case Success(None) => Next(NewAppError(LoginFailure, Num(401), stackAt(80)))
      case Success(Some(u)) =>
        if !u.active then Next(NewAppError(LoginFailure, Num(401), stackAt(80)))
        else
          match ComparePasswords(password, OptText(u.password), lib.bcryptCompare, stackAt(83))
          case Failure(e) => Next(e)
          case Success(correct) =>
            if !correct then Next(NewAppError(LoginFailure, Num(401), stackAt(87)))
            else Sent(CreateAndSendTokenFixed(u, 200, jwt, now))
  }

  /** Corrected: the failed-login error reaches the production client as a 401 "fail"
      with its message. */
  lemma LoginFixedFailureIs401(trace: string, trace': string)
    ensures GlobalErrorHandlerFixed(NewAppError(LoginFailure, Num(401), trace), Some("production"), trace')
         == Respond(Response(Num(401), StatusAndMessage(Str("fail"), Str(LoginFailure))))
  {
    StatusOfHttpCode(LoginFailure, 401, trace);
    FixedAppErrorKeepsMessage(LoginFailure, 401, trace, trace');
  }

  /** Corrected: a deactivated account cannot log in, whatever the password; an active
      one logs in exactly as before, without the hash in the answer. */
  lemma LoginFixedActiveOnly(body: JsObject, lib: Libraries, db: Database, jwt: Jwt, now: int, stackAt: int -> string)
    requires Truthy(body.Get("email")) && Truthy(body.Get("password"))
    requires db.findOneByEmail(body.Get("email")).Success? && db.findOneByEmail(body.Get("email")).value.Some?
    ensures var u := db.findOneByEmail(body.Get("email")).value.value;
      var r := LoginFixed(body, lib, db, jwt, now, stackAt);
      && (!u.active ==> r == Next(NewAppError(LoginFailure, Num(401), stackAt(80))))
      && (r.Sent? <==> u.active && Login(body, lib, db, jwt, now, stackAt).Sent?)
      && (r.Sent? ==> r.response == CreateAndSendTokenFixed(u, 200, jwt, now))
  {
  }
}
