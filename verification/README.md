# MERN-ECOMMERCE credential and error-shaping core, in Dafny

This project models the request-handling core of a small Express/Mongoose e-commerce
backend. It covers five pieces:

- **The user schema** (`models/userModel.js`). This covers:
  - validation of name, email, role, password and confirmation;
  - the two pre-save hooks that hash a modified password and record when it changed;
  - the stale-token check `changedPasswordAfterTokenIssued`;
  - the password-reset token.
- **The `AppError` constructor** (`utils/appError.js`).
- **The global error middleware** (`controller/errorController.js`). It:
  - fills in a default status code and status;
  - answers in full detail in development;
  - in production, converts database errors into operational errors and hides anything non-operational; its token branches throw instead of answering (finding 1).
- **Signup and login** (`controller/authController.js`).
- **The profile handlers** (`controller/userController.js`): the key whitelist `filterObj`, `updateMe` and the soft delete `deleteMe`.

It also models the product schema (`models/productModel.js`).

Every operation is a pure function over immutable records:

- **JavaScript values** are the `Js.JsValue` datatype.
- **Plain objects** are a key list plus a map, so property order (`Object.keys`, `Object.values`) is modelled.
- **Error objects** keep their own enumerable properties apart from the non-enumerable and inherited ones. Only the enumerable ones survive an object spread `{...err}`.
- **Handlers** return either a response or the error they pass to `next`.
- **The error middleware** returns a response, no response, or the `TypeError` it throws.

The libraries and the environment become parameters:

- bcrypt hashing (its random salt is folded into the oracle, so the hash is a function of password and cost) and comparison, `validator.isEmail`, SHA-256 in hex, and `jwt.sign` over the claims `{ id, iat, exp }`;
- `JWT_EXPIRES_IN`, as a number of seconds;
- the database's verdict on an insert, and what `findOne({ email })` settles to: the user, none, or the error it rejects with;
- `Date.now()`, as `now` in milliseconds;
- `crypto.randomBytes(32)`, as a 32-byte sequence;
- `NODE_ENV`;
- the stack frames of a new error, as `trace`; in `login`, as `stackAt(n)` for an error built at line `n`, so each construction site has its own stack.

Files, one module or two per file:

| file | modules |
|---|---|
| `wrappers.dfy` | `Option`, `Result` |
| `text.dfy` | `Text` |
| `hex.dfy` | `Hex` |
| `js.dfy` | `Js` |
| `http.dfy` | `Http` |
| `mongoose.dfy` | `Mongoose` |
| `quoted.dfy` | `QuotedMatch` |
| `app_error.dfy` | `AppErrors` |
| `error_controller.dfy` | `ErrorController`, `ErrorControllerProperties` |
| `user_model.dfy` | `UserModel`, `UserJson` |
| `auth_controller.dfy` | `AuthController`, `AuthControllerProperties` |
| `user_controller.dfy` | `UserController`, `UserControllerProperties` |
| `product_model.dfy` | `ProductModel`, `ProductModelProperties` |

The file contents:

- `text.dfy`: string helpers (`trim`, ASCII `toLowerCase`, decimal text, `join`).
- `hex.dfy`: hex encoding.
- `js.dfy`: JavaScript values.
- `http.dfy`: responses.
- `mongoose.dfy`: the Mongoose pieces the schemas use (string casting, the `required` check, the ValidationError and duplicate-key error objects).
- `quoted.dfy`: the regular expression `/(["'])(\\?.)*?\1/` used on duplicate-key messages.
- Each `…Properties` module holds the cross-operation lemmas and the corrected definitions of the findings below.

In several places the source's own comments, messages and field names promise more than
the code does. The model follows the code, and each gap is a finding below:

- **Login failures.** "Incorrect email or password" (controller/authController.js:80, 86-87) reports bad credentials, a client error. The `AppError` is built without a status code, so it ends as 500 (finding 3).
- **Deactivated accounts.** `deleteMe` (controller/userController.js:75-82) only sets `active` to false, a soft delete. `login` (controller/authController.js:77-90) never looks at `active`, so a deleted account still logs in (finding 6).
- **The signup and login responses.** The schema comment at models/userModel.js:28 says the password is removed from any response. `createAndSendToken` (controller/authController.js:29-38) sends the created or explicitly selected document, hash included (finding 5).
- **`updateMe`.** The comment at controller/userController.js:33 promises to refuse a password or password confirmation. The schema calls the confirmation `passwordConfirm` (models/userModel.js:30), but the guard checks `confirmPassword` (finding 4). A body with a password field is refused outright: nothing is applied.

## Model

| member | source | states |
|---|---|---|
| AppErrors.NewAppError | utils/appError.js:8-16 | the message and stack are readable but not enumerable; the status code is stored unchanged; `isOperational` is always true; the status is "fail" or "error" by the status code's text; `name` is "Error" and there is no `code` |
| AppErrors.StatusOfHttpCode | utils/appError.js:12 | for a three-digit status code the status is "fail" exactly for 400-499, and "error" otherwise (so 500 gives "error") |
| AppErrors.StatusOfNumber | utils/appError.js:12 | for any number the status is "fail" exactly when its leading decimal digit is 4 (40 and 4000 as well); negative codes give "error" |
| AppErrors.StatusWithoutCode | utils/appError.js:12 | an AppError without a status code has status "error", because its text is "undefined" |
| Mongoose.CastString | models/userModel.js:8 | casting to a String path keeps strings, turns numbers and booleans into their text, leaves `undefined`/`null` unset, turns an object with a non-empty string `_id` into that id, and refuses any other object |
| Mongoose.ErrorsObjectInOrder | models/userModel.js:6-49 | the `errors` object of a ValidationError holds one entry per reported error, keyed by its path, in the order the errors are given, each with its message and path |
| Mongoose.ValidationError | models/userModel.js:6-49 | a schema ValidationError is named "ValidationError", carries the `errors` object, and has no status code and no `isOperational` |
| UserModel.NewDocument | models/userModel.js:11-23 | a new user document holds the email lower-cased, the role "user" when none is given, is active, and has no change, reset or photo fields |
| UserModel.CollectSound | models/userModel.js:6-49 | every reported validation error belongs to a validated path and is that path's error |
| UserModel.CollectComplete | models/userModel.js:6-49 | every failing validated path is reported |
| UserModel.ValidateIff | models/userModel.js:7-40 | validation reports nothing exactly when no value failed to cast and all hold: name present, email present and an email, role unset or one of the four, password at least 8 UTF-16 code units, confirmation present and equal to the password |
| UserModel.ValidateDistinct | models/userModel.js:6-49 | each path is reported at most once |
| UserModel.ShortPasswordRejected | models/userModel.js:27 | a password shorter than 8 is reported with the `minlength` message, whatever else fails |
| UserModel.MismatchRejected | models/userModel.js:35-38 | a confirmation different from the password is reported as "Passwords do not match" |
| UserModel.BadRoleRejected | models/userModel.js:22 | a role outside user, shop-admin, seller and staff is reported with the enum message |
| UserModel.HashPassword | models/userModel.js:52-66 | an unmodified password leaves the document untouched; a modified one is replaced by its cost-12 bcrypt hash and the confirmation is cleared, and nothing else changes |
| UserModel.StampPasswordChange | models/userModel.js:69-73 | the change time becomes now − 1000 exactly for a modified password on a stored document; otherwise nothing changes |
| UserModel.PreSaveUnmodified | models/userModel.js:55 | saving a document whose password was not touched changes nothing |
| UserModel.PreSaveModified | models/userModel.js:55-72 | a modified password is stored hashed, the confirmation dropped, the change time recorded only for a stored document, and the rest kept |
| UserModel.Save | models/userModel.js:6-73 | saving succeeds exactly when validation reports nothing; a failure is the "User" ValidationError with the reported errors |
| UserModel.CreatedUser | models/userModel.js:11-72 | a created user holds the lower-cased email, a role among the four (or none, for a `null` role), the hash of the given password and no confirmation, is active, and never has a change time |
| UserModel.CreateRejects | models/userModel.js:6-49 | a document that fails validation is not created: the failure is the "User" ValidationError listing the failing paths once each, with their messages, in the model's fixed path order |
| UserModel.EpochSeconds | models/userModel.js:89-92 | `parseInt(ms / 1000, 10)` gives the whole seconds truncated toward zero |
| UserModel.NeverChangedNeverStale | models/userModel.js:88-98 | without a recorded change no token is reported stale |
| UserModel.StaleIff | models/userModel.js:89-94 | with a change time c ≥ 0, a token issued at t seconds is stale exactly when (t + 1)·1000 ≤ c, that is, when t < ⌊c / 1000⌋ |
| UserModel.StaleMonotone | models/userModel.js:94 | staleness is monotone: a token issued before a stale one is stale |
| UserModel.StampAcceptsFreshToken | models/userModel.js:72 | after a password change saved at `now`, a token issued in the same second is accepted and one issued two seconds earlier is stale |
| UserModel.CreatePasswordResetToken | models/userModel.js:105-116 | the raw token is 64 hex characters; only its SHA-256 hex digest is stored; the expiry is now + 3 600 000 ms; nothing else changes |
| UserModel.ResetTokenRoundTrip | models/userModel.js:106 | the raw token decodes back to the 32 random bytes, and the stored digest is the digest of the raw token |
| UserJson.ToJson | controller/authController.js:32-38 | a user's JSON holds `_id` and the schema paths, including the stored password hash, listed in the model's key order |
| ErrorController.HandleDuplicateFieldsErrorDB | controller/errorController.js:8-13 | a duplicate-key error becomes a 400 "fail" AppError quoting the first quoted substring of `errmsg`; if `errmsg` is not a string or quotes nothing, the call throws |
| ErrorController.HandleCastErrorDB | controller/errorController.js:20-23 | a cast error becomes a 400 "fail" AppError "Invalid <name>: <value>" |
| ErrorController.HandleValidationErrorDB | controller/errorController.js:30-37 | the handler succeeds exactly when `errors` is neither `undefined` nor `null` and none of its values is; it then gives a 400 AppError: "Invalid input data. " and the `errors` messages joined by ". " |
| ErrorController.MessagesOf | controller/errorController.js:32 | mapping to `.message` succeeds exactly when no element is `undefined`/`null`, and gives each element's message in order |
| ErrorController.SendDevError | controller/errorController.js:60-67 | the development answer carries the status code, status, message, the error's enumerable properties and the stack |
| ErrorController.SendProdError | controller/errorController.js:69-84 | an operational error is answered with its own status code, status and message only; any other with 500, "error" and the generic message; `undefined` throws |
| ErrorController.FillDefaults | controller/errorController.js:87-88 | the status code defaults to 500 and the status to "error" only when falsy; existing values and every other property are kept |
| ErrorController.FillDefaultsIdempotent | controller/errorController.js:87-88 | filling in the defaults twice changes nothing more |
| ErrorController.TokenStepsAndSend | controller/errorController.js:99-102 | either token error name makes the production branch throw; any other error goes to `sendProdError` unchanged |
| ErrorController.GlobalErrorHandler | controller/errorController.js:86-104 | an environment other than development or production gives no response; development answers the defaulted error in full |
| ErrorControllerProperties.ProductionOperational | controller/errorController.js:71-75 | in production an unconverted operational error is answered with its status code and a body of only its status and its enumerable message; there is never a stack |
| ErrorControllerProperties.ProductionNonOperational | controller/errorController.js:76-82 | in production an unconverted non-operational error always gets 500, "error" and the generic message, whatever it holds |
| ErrorControllerProperties.AppErrorLosesMessageInProduction | controller/errorController.js:93 | an AppError reaches the production client without its message, while development sends it |
| ErrorControllerProperties.TokenErrorsThrowInProduction | controller/errorController.js:99-100 | an error named JsonWebTokenError or TokenExpiredError makes the production middleware throw instead of answering |
| ErrorControllerProperties.DuplicateKeyInProduction | controller/errorController.js:9-12 | a duplicate-key error answers 400 quoting the first quoted value, or throws when nothing is quoted |
| ErrorControllerProperties.ValidationErrorInProduction | controller/errorController.js:32-36 | a schema validation failure answers 400 "Invalid input data. " and the field messages joined by ". ", in the order of the `errors` object |
| ErrorControllerProperties.CastErrorInProduction | controller/errorController.js:21-22 | a cast error answers 400 "Invalid CastError: <value>" |
| ErrorControllerProperties.TokenError | controller/errorController.js:43-53 | the AppError each token handler builds, once returned, is operational and carries 401, "fail" and the handler's own message |
| ErrorControllerProperties.FixedTokenErrorsAre401 | controller/errorController.js:39-53 | on the corrected path both token errors answer 401 "fail" with the handler's message |
| ErrorControllerProperties.FixedAppErrorKeepsMessage | controller/errorController.js:93 | on the corrected path an AppError reaches the production client with its message |
| QuotedMatch.FirstQuotedNoneIff | controller/errorController.js:9 | the regular expression finds no match (so `match` returns null) exactly when no quote has the same quote after it on its line |
| QuotedMatch.MatchIsLeftmost | controller/errorController.js:9 | the match starts at the leftmost quote that has the same quote after it on its line |
| AuthController.TokenPayload | controller/authController.js:16-19 | the token payload holds the user's id and nothing else |
| AuthController.TokenClaims | controller/authController.js:16-19 | the signed claims are the payload's `id`, then `iat`, the whole second of the issue time, then `exp`, `iat` plus `JWT_EXPIRES_IN` |
| AuthController.IssuedTokenStaleIff | controller/authController.js:16-19 | a token issued at a given time is stale for `changedPasswordAfterTokenIssued` exactly when the password changed in a later second, so a change at or before issue never invalidates it |
| AuthController.CreateAndSendToken | controller/authController.js:29-39 | the answer has the given status code, status "success", the token signed over the user's id and the request time's claims, and the user |
| AuthController.SignupReadsFiveFields | controller/authController.js:49-58 | two bodies that agree on role, name, email, password and passwordConfirm give the same signup result; no other field reaches the store |
| AuthController.SignupOutcome | controller/authController.js:47-61 | signup answers 201 with a token exactly when validation and the insert succeed; otherwise it passes on the ValidationError or the database error |
| AuthController.ComparePasswords | models/userModel.js:79-84 | the comparison is bcrypt's verdict for two strings; it rejects with a non-operational error when either is not a string |
| AuthController.LoginWithoutEmail | controller/authController.js:72 | a missing email fails 400 "Please provide email" before the password is looked at |
| AuthController.LoginWithoutPassword | controller/authController.js:73 | an email without a password fails 400 "Please provide password" before any lookup |
| AuthController.LoginFailuresIndistinguishable | controller/authController.js:80-87 | an unknown email and a wrong password give errors that agree on every property but the stack: "Incorrect email or password", no status code, status "error", the same own properties; the results are equal exactly when the stacks of lines 80 and 87 are |
| AuthController.LoginLookupRejected | controller/authController.js:77 | a lookup that rejects (a CastError for an email Mongoose cannot cast) reaches `next` unchanged |
| AuthController.LoginSucceedsOnlyOnMatch | controller/authController.js:77-90 | login answers 200 exactly when the lookup succeeds and finds the user and bcrypt accepts the password, with a token issued at the request time |
| AuthControllerProperties.LoginFailureIs500 | controller/authController.js:80 | in production a failed login is answered 500 "error" without a message |
| AuthControllerProperties.LoginNonStringPassword | controller/authController.js:83 | a non-string password for a known user becomes bcrypt's illegal-argument error, answered with the generic 500 |
| AuthControllerProperties.TokenResponseHoldsHash | controller/authController.js:32-38 | the user in a token response carries the stored password hash |
| AuthControllerProperties.CreateAndSendTokenFixed | controller/authController.js:29-39 | corrected: the user is sent without the password, with the same token and status code |
| AuthControllerProperties.SignupFixedHidesHash | controller/authController.js:47-61 | corrected signup decides as the original and answers 201 without the hash |
| AuthControllerProperties.LoginFixedFailureIs401 | controller/authController.js:80-87 | corrected: a failed login reaches the production client as 401 "fail" with its message |
| AuthControllerProperties.LoginFixedActiveOnly | controller/authController.js:77-90 | corrected: a deactivated account cannot log in; an active one logs in exactly as before |
| UserController.FilterKeys | controller/userController.js:14-16 | the result holds exactly the keys both in the input and allowed, each with the input's value |
| UserController.FilterObj | controller/userController.js:11-19 | the output keys are all allowed, and every allowed key of the input appears with its value unchanged |
| UserController.FilterKeysOrder | controller/userController.js:14-16 | the output lists the allowed keys in the input's order |
| UserController.FilterObjIdempotent | controller/userController.js:11-19 | filtering the output again with the same fields returns it unchanged |
| UserController.UpdateMeRefuses | controller/userController.js:34-41 | `updateMe` refuses with 400 "fail" and the fixed message exactly when `password` or `confirmPassword` is truthy |
| UserController.UpdateMeUpdates | controller/userController.js:44-60 | otherwise the update touches the caller's own record, only name and email, each as given, and the handler sets status 200 |
| UserController.DeleteMe | controller/userController.js:75-82 | `deleteMe` sets `active` to false on the caller's record, changes nothing else, and answers 204 with data null |
| UserController.DeleteMeIdempotent | controller/userController.js:76 | deleting twice leaves the store as deleting once |
| UserControllerProperties.PasswordConfirmNotRefused | controller/userController.js:34 | a body carrying only `passwordConfirm` is not refused |
| UserControllerProperties.UpdateMeFixedRefusesPasswordFields | controller/userController.js:34-41 | corrected: a body with `password`, `passwordConfirm` or `confirmPassword` is refused, and every other body is handled as before |
| UserControllerProperties.DeletedUserCanLogIn | controller/userController.js:76 | after `deleteMe` the account still logs in with its password; the corrected login refuses it with 401 |
| ProductModel.TrimmedString | models/productModel.js:10 | a trimmed String path holds the cast text without surrounding whitespace |
| ProductModel.NewProduct | models/productModel.js:5-34 | a new product holds the trimmed name and description, the price when given, the cover image, and the schema-time default date when none is given |
| ProductModel.NameErrorIff | models/productModel.js:9-13 | the name passes exactly when present and 5 to 100 UTF-16 code units long; shorter or longer names get the matching message |
| ProductModel.ValidateIff | models/productModel.js:5-34 | validation reports nothing exactly for a valid product, and each path at most once |
| ProductModel.Save | models/productModel.js:5-34 | saving succeeds exactly for a valid product; a failure is the "Product" ValidationError |
| ProductModel.CreateIff | models/productModel.js:7-28 | a product is created exactly when the trimmed name has 5 to 100 code units, price and cover image are given and nothing fails to cast; name and description are stored trimmed |
| ProductModel.NameTrimmedFirst | models/productModel.js:10-13 | a name and its trimmed form are stored and judged alike: length is checked after trimming |
| ProductModel.NameLengthEdges | models/productModel.js:12-13 | length 5 passes despite the "more than 5" message; 4 fails; 100 passes; 101 fails |
| ProductModelProperties.CreatedAtFixedAtDefinition | models/productModel.js:32 | every product created without a date gets the same time: the one at which the schema was defined |
| ProductModelProperties.CreatedAtIsCreationTime | models/productModel.js:30-34 | corrected: a product created without a date gets its creation time, and is otherwise unchanged |

## Left out

- I/O is not modelled. This covers responses being written, `console.log`, and `utils/email.js` (SMTP).
- Process wiring is not modelled: `server.js`, `app.js`, `routes/userRoutes.js` and `utils/catchAsync.js`. `catchAsync` turns a rejected promise into `next(err)`, and the handlers model that directly as `Next`.
- Cryptographic primitives are parameters:
  - bcrypt hashing and comparison;
  - SHA-256;
  - `crypto.randomBytes`;
  - `jsonwebtoken` signing, with the secret fixed inside the signer.

  The claims it signs are modelled. `JWT_EXPIRES_IN` is taken as a number of seconds: its parsing as a duration string, and the error a missing or malformed value raises, are not modelled.
- `validator.isEmail` is a parameter.
- The database is an oracle:
  - the insert's outcome, which stands in for the unique email index and the duplicate-key error;
  - what `findOne({ email })` settles to: the user, none, or its rejection. Any query-operator meaning of an object-valued email, and the exact CastError it rejects with, are left to the oracle;
  - `select: false` and `select("+password")` projections. The user returned is the whole record.
- The second pre-save hook at models/userModel.js:69-73 never calls `next()` after it stamps the change time. As written, saving a changed password on a stored user never completes. The model runs both hooks to completion, because it does not model asynchronous scheduling.
- `UserController.UpdateMeUpdates`: its 200 is the status the handler sets, not the status the client receives. Because of the missing `await` at controller/userController.js:50, `res.json` is given the unexecuted Query, whose references are circular. Serialising it throws a TypeError, `catchAsync` passes that to `next`, and the client gets the error middleware's 500.
- The missing `await` at controller/userController.js:50 is not modelled. As written, the update query is never executed, and the response's `data.user` is the unexecuted query object. `UserController.UpdateMe` models the decision and the update the handler asks for. It does not model the response's `user` field or whether the query runs.
- `getAllUsers` (controller/userController.js:64-73) is not modelled: it is a plain `find()` with no logic of its own.
- `protect`, `restrictTo`, `forgotPassword`, `resetPassword` and `updateMyPassword` are not part of this model. They are not in the modelled files.
- `Text.ToLower` lowers ASCII letters only, while the `lowercase` setter uses JavaScript's full Unicode `toLowerCase`.
- Dates are kept as time values in milliseconds. The JSON form of a date (an ISO string) and the document's `__v` are not modelled.
- An `undefined` property is kept in a modelled response body. The JSON text leaves it out. The 204 body of `deleteMe` is dropped by HTTP itself.
- Numbers are integers. A fractional or non-finite status code, price or timestamp is not modelled.
- `Mongoose.CastString` simplifies casting:
  - `null` leaves a path unset, so a `null` role is neither defaulted nor checked against the enum;
  - the cast-failure message is `Mongoose.CastMessage`, Mongoose's message without the value and type details;
  - arrays cast as objects;
  - an object's own `toString` method is not modelled, because a request body parsed from JSON cannot carry one.
- `Mongoose.ValidationError` assumes the Mongoose releases that set `name` as an own property in the constructor. Releases that define it on the prototype lose it in `{...err}`, so the production `ValidationError` branch would not fire. No package manifest is part of this model to pin the version.
- `ErrorControllerProperties.CastErrorInProduction` makes the same assumption for a CastError: it requires `name` "CastError" as an own property. Where `name` sits on the prototype, `{...err}` loses it and the production `CastError` branch would not fire.
- `Mongoose.DuplicateKeyError` assumes a MongoDB driver that copies `errmsg` onto the error as an own property. In driver releases where `errmsg` is a getter, `{...err}` loses it and the duplicate-key handler throws. No package manifest is part of this model to pin the version.
- Validation reports only the first failing validator of each path.
- `UserModel.Validate` and `ProductModel.Validate` list the failing paths in a fixed schema order: name, email, role, password, passwordConfirm for a user; name, price, description, imageCover for a product. Mongoose 5 orders the `errors` object by when each error is recorded. Cast failures come first, in the order the creation object assigns its keys; signup assigns role, name, email, password, passwordConfirm (controller/authController.js:52-58). Validator failures follow, in the order Mongoose collects paths to validate: required paths still unset, then modified paths, then paths holding a default. That order depends on which values were given. The set of entries and each entry's message are the same in both orders.
- `UserModel.CreateRejects`: its ValidationError lists the failing paths in the model's fixed order, not Mongoose's recording order described above.
- `ErrorControllerProperties.ValidationErrorInProduction`: it joins the messages in the order of the `errors` object it is given. For an error built by `UserModel.CreateRejects` or `ProductModel.Create`, that is the model's fixed order, so the joined message can list the same messages in a different order than production.
- The product price is checked for presence only. Its Number cast is not modelled. The `images` array is taken as a list of strings, without casting its elements.
- `UserModel.CreatedUser`: weaker than "role is one of the four". A `null` role leaves the path unset, so the contract allows no role.
- `UserJson.ToJson`: its contract states the id, email, password, confirmation and `active` entries, and lists the keys as `_id` followed by the schema paths in declaration order. That order is the model's. For a user built by `User.create`, Mongoose's `toJSON` lists the paths holding defaults first (role, active), then `_id`, then the given fields in assignment order, then `__v`. The other entries are stated only by its definition.
- `ErrorController.HandleJWTError`, `ErrorController.HandleJWTExpiredError`, `AuthController.Signup`, `AuthController.Login`, `UserController.UpdateMe`, `UserModel.ChangedPasswordAfterTokenIssued` and `AuthController.SignToken` carry no contract of their own. Their lemmas state what they do: `UserModel.StaleIff` and `UserModel.NeverChangedNeverStale` for the stale-token check; `AuthController.TokenClaims` and `AuthController.IssuedTokenStaleIff` for the token `signToken` signs.
- Property order of integer-like keys is not modelled. JavaScript lists those keys first in `Object.keys`, whereas `filterObj` and `Object.values` are modelled in insertion order.

## Findings

| source | as written | input that shows it | evidently intended | confidence | as-written member | corrected member |
|---|---|---|---|---|---|---|
| controller/errorController.js:43-53 | the JWT handlers build an AppError and discard it, returning `undefined` | in production, an error named "JsonWebTokenError" or "TokenExpiredError" | a 401 answer with the handler's message | not executed; high | ErrorControllerProperties.TokenErrorsThrowInProduction | ErrorControllerProperties.FixedTokenErrorsAre401 |
| controller/errorController.js:93 | `{ ...err }` copies only own enumerable properties, so an AppError's `message` is lost | `new AppError("Please provide email", 400)` in production answers `{ status: "fail" }` | the operational message is sent | not executed; high | ErrorControllerProperties.AppErrorLosesMessageInProduction | ErrorControllerProperties.FixedAppErrorKeepsMessage |
| controller/authController.js:80, 86-87 | the login failures are built without a status code | login with an unknown email, or with a wrong password | 401 "fail" with "Incorrect email or password" | not executed; high | AuthControllerProperties.LoginFailureIs500 | AuthControllerProperties.LoginFixedFailureIs401 |
| controller/userController.js:34 | the guard reads `confirmPassword`, which is not a schema path | body `{ passwordConfirm: "x" }` is not refused | refuse the schema's `passwordConfirm` | not executed; medium | UserControllerProperties.PasswordConfirmNotRefused | UserControllerProperties.UpdateMeFixedRefusesPasswordFields |
| controller/authController.js:29-38 | the token response sends the whole user, including the password hash | any successful signup, or a login with the password selected | the user without the password | not executed; medium | AuthControllerProperties.TokenResponseHoldsHash | AuthControllerProperties.SignupFixedHidesHash |
| controller/authController.js:77-90 | login never consults `active`, which `deleteMe` clears | login with the former credentials after `deleteMe` | a deactivated account is treated as unknown | not executed; medium | UserControllerProperties.DeletedUserCanLogIn | AuthControllerProperties.LoginFixedActiveOnly |
| models/productModel.js:32 | `default: Date.now()` is evaluated once, when the schema is defined | two products created an hour apart without a date | each product gets its own creation time (`default: Date.now`) | not executed; high | ProductModelProperties.CreatedAtFixedAtDefinition | ProductModelProperties.CreatedAtIsCreationTime |
