/**
 * The User model: the schema's casting, defaults and validators, the two pre-save
 * hooks, and the instance methods on password change and password reset. The
 * libraries the model calls (`validator.isEmail`, bcrypt, SHA-256, random bytes) and the
 * clock are parameters.
 */
module UserModel {
  import opened Wrappers
  import opened Text
  import opened Js
  import Hex
  import opened Mongoose

  const Roles: seq<string> := ["user", "shop-admin", "seller", "staff"]
  const DefaultRole := "user"
  const MinPasswordLength := 8
  /** The bcrypt cost factor the first hook hashes with. */
  const SaltRounds := 12
  const ResetTokenBytes := 32
  /** One hour, in milliseconds. */
  const ResetTokenLifetime := 60 * 60 * 1000

  /** The schema paths, in the order the schema declares the validated ones. */
  const ValidatedPaths: seq<string> := ["name", "email", "role", "password", "passwordConfirm"]

  /** A user document. An unset path is `None`; dates are milliseconds since the epoch. */
  datatype User = User(
    id: string,
    name: Option<string>,
    email: Option<string>,
    photo: Option<string>,
    role: Option<string>,
    password: Option<string>,
    passwordConfirm: Option<string>,
    passwordChangedAt: Option<int>,
    passwordResetToken: Option<string>,
    passwordResetExpires: Option<int>,
    active: bool)

  /**
   * A document on its way to `save`: whether it was never stored, whether `password`
   * was assigned since it was loaded, and the paths whose assigned value could not be
   * cast to a string.
   */
  datatype Doc = Doc(user: User, isNew: bool, passwordModified: bool, castFailed: set<string>)

  /** `validator.isEmail`, `bcrypt.hash(plain, rounds)` and `bcrypt.compare(plain, hash)`. */
  datatype Libraries = Libraries(
    isEmail: string -> bool,
    bcryptHash: (string, nat) -> string,
    bcryptCompare: (string, string) -> bool)

  /** The five values signup passes to `User.create`. */
  datatype NewUserFields = NewUserFields(role: JsValue, name: JsValue, email: JsValue, password: JsValue,
                                         passwordConfirm: JsValue)

  /** The paths among `paths` whose value cannot be cast. */
  function CastFailures(f: NewUserFields): (s: set<string>)
    ensures "name" in s <==> CastFails(f.name)
    ensures "email" in s <==> CastFails(f.email)
    ensures "role" in s <==> CastFails(f.role)
    ensures "password" in s <==> CastFails(f.password)
    ensures "passwordConfirm" in s <==> CastFails(f.passwordConfirm)
  {
    (if CastFails(f.name) then {"name"} else {}) + (if CastFails(f.email) then {"email"} else {})
    + (if CastFails(f.role) then {"role"} else {}) + (if CastFails(f.password) then {"password"} else {})
    + (if CastFails(f.passwordConfirm) then {"passwordConfirm"} else {})
  }

  /**
   * `new User(fields)`: each value is cast to a string; the `lowercase` setter lowers
   * the email; `role` takes its default "user" when the value is `undefined`; `active`
   * takes its default `true`. A new document whose password was given counts the
   * password as modified.
   */
  function NewDocument(f: NewUserFields, id: string): (d: Doc)
    ensures d.isNew && d.user.active && d.user.id == id
    ensures f.role == Undefined ==> d.user.role == Some(DefaultRole)
    ensures f.role.Str? ==> d.user.role == Some(f.role.s)
    ensures f.email.Str? ==> d.user.email == Some(ToLower(f.email.s))
    ensures f.password.Str? ==> d.user.password == Some(f.password.s)
    ensures d.passwordModified <==> d.user.password.Some?
    ensures d.user.passwordChangedAt.None? && d.user.passwordResetToken.None? && d.user.passwordResetExpires.None?
    ensures d.user.photo.None?
  {
    var email := Assigned(f.email);
    var role := if f.role == Undefined then Some(DefaultRole) else Assigned(f.role);
    var password := Assigned(f.password);
    var user := User(id, Assigned(f.name), if email.Some? then Some(ToLower(email.value)) else None,
                     None, role, password, Assigned(f.passwordConfirm), None, None, None, true);
    Doc(user, true, password.Some?, CastFailures(f))
  }

  /** The first failing validator of `name`: required. */
  function NameError(u: User): Option<string> {
    if !PresentString(u.name) then Some("Name field is required") else None
  }

  /** The first failing validator of `email`: required, then `validator.isEmail`. */
  function EmailError(u: User, isEmail: string -> bool): Option<string> {
    if !PresentString(u.email) then Some("Email field is required")
    else if !isEmail(u.email.value) then Some("Please provide a valid email address")
    else None
  }

  /** The enum validator of `role`, which an unset role passes. */
  function RoleError(u: User): Option<string> {
    if u.role.Some? && u.role.value !in Roles then
      Some("`" + u.role.value + "` is not a valid enum value for path `role`.")
    else None
  }

  /** The first failing validator of `password`: required, then `minlength` 8 counted in
      UTF-16 code units. */
  function PasswordError(u: User): Option<string> {
    if !PresentString(u.password) then Some("Please provide a password")
    else if Utf16Length(u.password.value) < MinPasswordLength then
      Some("Path `password` (`" + u.password.value + "`) is shorter than the minimum allowed length (8).")
    else None
  }

  /** The first failing validator of `passwordConfirm`: required, then equality with the
      document's password. */
  function ConfirmError(u: User): Option<string> {
    if !PresentString(u.passwordConfirm) then Some("Please provide confirm password")
    else if u.passwordConfirm != u.password then Some("Passwords do not match")
    else None
  }

  /** The error reported for one path: its cast failure, else its first failing validator. */
  function PathError(d: Doc, isEmail: string -> bool, path: string): Option<string> {
    if path in d.castFailed then Some(CastMessage(path))
    else if path == "name" then NameError(d.user)
    else if path == "email" then EmailError(d.user, isEmail)
    else if path == "role" then RoleError(d.user)
    else if path == "password" then PasswordError(d.user)
    else if path == "passwordConfirm" then ConfirmError(d.user)
    else None
  }

  /** The errors of the paths in `paths`, in that order. */
  function Collect(d: Doc, isEmail: string -> bool, paths: seq<string>): (errs: seq<FieldError>)
    ensures |errs| <= |paths|
  {
    if |paths| == 0 then []
    else
      (match PathError(d, isEmail, paths[0])
       case Some(m) => [FieldError(paths[0], m)]
       case None => [])
      + Collect(d, isEmail, paths[1..])
  }

  /** `doc.validate()`: one error per failing path. The model lists the paths in schema
      order; Mongoose orders them by when each error is recorded. */
  function Validate(d: Doc, isEmail: string -> bool): seq<FieldError> {
    Collect(d, isEmail, ValidatedPaths)
  }

  /** Every reported error belongs to one of the paths and is that path's error. */
  lemma {:induction false} CollectSound(d: Doc, isEmail: string -> bool, paths: seq<string>)
    ensures forall e :: e in Collect(d, isEmail, paths) ==> e.path in paths && PathError(d, isEmail, e.path) == Some(e.message)
  {
    if |paths| > 0 {
      CollectSound(d, isEmail, paths[1..]);
    }
  }

  /** Every failing path is reported. */
  lemma {:induction false} CollectComplete(d: Doc, isEmail: string -> bool, paths: seq<string>, p: string)
    requires p in paths && PathError(d, isEmail, p).Some?
    ensures FieldError(p, PathError(d, isEmail, p).value) in Collect(d, isEmail, paths)
  {
    if p != paths[0] {
      CollectComplete(d, isEmail, paths[1..], p);
    }
  }

  /** Nothing is reported exactly when every path passes. */
  lemma {:induction false} CollectEmpty(d: Doc, isEmail: string -> bool, paths: seq<string>)
    ensures Collect(d, isEmail, paths) == [] <==> forall i :: 0 <= i < |paths| ==> PathError(d, isEmail, paths[i]).None?
  {
    if |paths| > 0 {
      CollectEmpty(d, isEmail, paths[1..]);
      assert forall i :: 1 <= i < |paths| ==> paths[i] == paths[1..][i - 1];
    }
  }

  /** With distinct paths, each path is reported at most once. */
  lemma {:induction false} CollectDistinct(d: Doc, isEmail: string -> bool, paths: seq<string>)
    requires forall i, j :: 0 <= i < j < |paths| ==> paths[i] != paths[j]
    ensures DistinctPaths(Collect(d, isEmail, paths))
  {
    if |paths| > 0 {
      var rest := Collect(d, isEmail, paths[1..]);
      CollectDistinct(d, isEmail, paths[1..]);
      CollectSound(d, isEmail, paths[1..]);
      assert paths[0] !in paths[1..] by {
        forall k | 0 <= k < |paths| - 1 ensures paths[1..][k] != paths[0] {
          assert paths[1..][k] == paths[k + 1];
        }
      }
      forall e | e in rest ensures e.path != paths[0] {
      }
    }
  }

  /** A user the schema accepts, stated rule by rule. */
  predicate ValidUser(u: User, isEmail: string -> bool) {
    && PresentString(u.name)
    && PresentString(u.email) && isEmail(u.email.value)
    && (u.role.None? || u.role.value in Roles)
    && PresentString(u.password) && Utf16Length(u.password.value) >= MinPasswordLength
    && PresentString(u.passwordConfirm) && u.passwordConfirm == u.password
  }

  /** Validation passes exactly for a document with no cast failure on a validated path
      whose user meets every rule. */
  lemma ValidateIff(d: Doc, isEmail: string -> bool)
    ensures Validate(d, isEmail) == [] <==>
      (forall p :: p in ValidatedPaths ==> p !in d.castFailed) && ValidUser(d.user, isEmail)
  {
    CollectEmpty(d, isEmail, ValidatedPaths);
    assert ValidatedPaths[0] == "name" && ValidatedPaths[1] == "email" && ValidatedPaths[2] == "role";
    assert ValidatedPaths[3] == "password" && ValidatedPaths[4] == "passwordConfirm";
  }

  /** Each path is reported at most once. */
  lemma ValidateDistinct(d: Doc, isEmail: string -> bool)
    ensures DistinctPaths(Validate(d, isEmail))
  {
    CollectDistinct(d, isEmail, ValidatedPaths);
  }

  /** A short password is reported with the `minlength` message, whatever else fails. */
  lemma ShortPasswordRejected(d: Doc, isEmail: string -> bool)
    requires "password" !in d.castFailed
    requires PresentString(d.user.password) && Utf16Length(d.user.password.value) < MinPasswordLength
    ensures FieldError("password", "Path `password` (`" + d.user.password.value
                                   + "`) is shorter than the minimum allowed length (8).") in Validate(d, isEmail)
  {
    assert "password" in ValidatedPaths;
    CollectComplete(d, isEmail, ValidatedPaths, "password");
  }

  /** A confirmation that differs from the password is reported. */
  lemma MismatchRejected(d: Doc, isEmail: string -> bool)
    requires "passwordConfirm" !in d.castFailed
    requires PresentString(d.user.passwordConfirm) && d.user.passwordConfirm != d.user.password
    ensures FieldError("passwordConfirm", "Passwords do not match") in Validate(d, isEmail)
  {
    assert "passwordConfirm" in ValidatedPaths;
    CollectComplete(d, isEmail, ValidatedPaths, "passwordConfirm");
  }

  /** A role outside the four allowed values is reported. */
  lemma BadRoleRejected(d: Doc, isEmail: string -> bool)
    requires "role" !in d.castFailed
    requires d.user.role.Some? && d.user.role.value !in Roles
    ensures FieldError("role", "`" + d.user.role.value + "` is not a valid enum value for path `role`.")
            in Validate(d, isEmail)
  {
    assert "role" in ValidatedPaths;
    CollectComplete(d, isEmail, ValidatedPaths, "role");
  }

  /**
   * The first pre-save hook: when the password was modified it is replaced by its bcrypt
   * hash with cost 12 and the confirmation is cleared; otherwise the document is left
   * alone. Validation has run first, so a modified password is set.
   */
  function HashPassword(d: Doc, bcryptHash: (string, nat) -> string): (r: Doc)
    requires d.passwordModified ==> d.user.password.Some?
    ensures !d.passwordModified ==> r == d
    ensures d.passwordModified ==>
      && r.user.password == Some(bcryptHash(d.user.password.value, SaltRounds))
      && r.user.passwordConfirm.None?
      && r.user.(password := d.user.password, passwordConfirm := d.user.passwordConfirm) == d.user
    ensures r.isNew == d.isNew && r.passwordModified == d.passwordModified && r.castFailed == d.castFailed
  {
    if !d.passwordModified then d
    else d.(user := d.user.(password := Some(bcryptHash(d.user.password.value, SaltRounds)), passwordConfirm := None))
  }

  /** The second pre-save hook: a modified password on a stored document records the
      change one second before `now`. */
  function StampPasswordChange(d: Doc, now: int): (r: Doc)
    ensures d.passwordModified && !d.isNew ==> r.user == d.user.(passwordChangedAt := Some(now - 1000))
    ensures !d.passwordModified || d.isNew ==> r == d
    ensures r.isNew == d.isNew && r.passwordModified == d.passwordModified && r.castFailed == d.castFailed
  {
    if !d.passwordModified || d.isNew then d
    else d.(user := d.user.(passwordChangedAt := Some(now - 1000)))
  }

  /** Both hooks in order. */
  function PreSave(d: Doc, bcryptHash: (string, nat) -> string, now: int): Doc
    requires d.passwordModified ==> d.user.password.Some?
  {
    StampPasswordChange(HashPassword(d, bcryptHash), now)
  }

  /** Saving a document whose password was not touched changes nothing. */
  lemma PreSaveUnmodified(d: Doc, bcryptHash: (string, nat) -> string, now: int)
    requires !d.passwordModified
    ensures PreSave(d, bcryptHash, now) == d
  {
  }

  /** A modified password is stored hashed, the confirmation is dropped, and the change
      time is recorded exactly when the document was already stored. */
  lemma PreSaveModified(d: Doc, bcryptHash: (string, nat) -> string, now: int)
    requires d.passwordModified && d.user.password.Some?
    ensures var u := PreSave(d, bcryptHash, now).user;
      && u.password == Some(bcryptHash(d.user.password.value, SaltRounds))
      && u.passwordConfirm.None?
      && u.passwordChangedAt == (if d.isNew then d.user.passwordChangedAt else Some(now - 1000))
      && u.(password := d.user.password, passwordConfirm := d.user.passwordConfirm,
            passwordChangedAt := d.user.passwordChangedAt) == d.user
  {
  }

  /** `save()`: validation, then the hooks. A failure is the ValidationError. */
  function Save(d: Doc, lib: Libraries, now: int, trace: string): (r: Result<Doc, ErrObj>)
    ensures r.Success? <==> Validate(d, lib.isEmail) == []
    ensures r.Failure? ==> r.error == ValidationError("User", Validate(d, lib.isEmail), trace)
  {
    var errs := Validate(d, lib.isEmail);
    if |errs| > 0 then Failure(ValidationError("User", errs, trace))
    else
      ValidateIff(d, lib.isEmail);
      Success(PreSave(d, lib.bcryptHash, now))
  }

  /** `User.create(fields)`: a new document, saved. */
  function Create(f: NewUserFields, id: string, lib: Libraries, now: int, trace: string): (r: Result<User, ErrObj>)
  {
    match Save(NewDocument(f, id), lib, now, trace)
    case Success(d) => Success(d.user)
    case Failure(e) => Failure(e)
  }

  /**
   * A created user meets the schema, holds the lower-cased email, a role of the four
   * ("user" when none was given) or none (for a `null` role), the hash of the given password and no confirmation,
   * is active, and has no password-change time: the stamp is never set on creation.
   */
  lemma CreatedUser(f: NewUserFields, id: string, lib: Libraries, now: int, trace: string)
    requires Create(f, id, lib, now, trace).Success?
    ensures var u := Create(f, id, lib, now, trace).value;
      && Castable(f.email) && u.email == Some(ToLower(CastText(f.email)))
      && Castable(f.password) && u.password == Some(lib.bcryptHash(CastText(f.password), SaltRounds))
      && u.passwordConfirm.None? && u.passwordChangedAt.None? && u.active && u.id == id
      && (u.role.None? || u.role.value in Roles)
      && (f.role == Undefined ==> u.role == Some(DefaultRole))
  {
    var d := NewDocument(f, id);
    ValidateIff(d, lib.isEmail);
    assert "email" in ValidatedPaths && "password" in ValidatedPaths;
  }

  /** A document that fails validation is not created: the failure is the
      ValidationError listing the failing paths once each, in the model's schema order. */
  lemma CreateRejects(f: NewUserFields, id: string, lib: Libraries, now: int, trace: string)
    requires Validate(NewDocument(f, id), lib.isEmail) != []
    ensures var errs := Validate(NewDocument(f, id), lib.isEmail);
      && DistinctPaths(errs)
      && Create(f, id, lib, now, trace) == Failure(ValidationError("User", errs, trace))
  {
    ValidateDistinct(NewDocument(f, id), lib.isEmail);
  }

  /** `parseInt(ms / 1000, 10)`: whole seconds, truncated toward zero (exact for every
      time a Date can hold). */
  function EpochSeconds(ms: int): (s: int)
    ensures ms >= 0 ==> s * 1000 <= ms < (s + 1) * 1000
    ensures ms < 0 ==> (s - 1) * 1000 < ms <= s * 1000
  {
    if ms >= 0 then ms / 1000 else -((-ms) / 1000)
  }

  /** `changedPasswordAfterTokenIssued(JWTTimestamp)`: whether the token's issue time in
      seconds is before the password change, in whole seconds. */
  function ChangedPasswordAfterTokenIssued(u: User, jwtTimestamp: int): bool {
    if u.passwordChangedAt.Some? then jwtTimestamp < EpochSeconds(u.passwordChangedAt.value) else false
  }

  /** No recorded change: no token is stale. */
  lemma NeverChangedNeverStale(u: User, jwtTimestamp: int)
    requires u.passwordChangedAt.None?
    ensures !ChangedPasswordAfterTokenIssued(u, jwtTimestamp)
  {
  }

  /** With a change at `c` ms after the epoch, a token is stale exactly when the second
      after the one it was issued in had not ended before the change: (t + 1) * 1000 <= c. */
  lemma StaleIff(u: User, t: int)
    requires u.passwordChangedAt.Some? && u.passwordChangedAt.value >= 0
    ensures ChangedPasswordAfterTokenIssued(u, t) <==> (t + 1) * 1000 <= u.passwordChangedAt.value
  {
    var c := u.passwordChangedAt.value;
    var s := EpochSeconds(c);
    if t < s {
      assert (t + 1) * 1000 <= s * 1000;
    } else {
      assert (s + 1) * 1000 <= (t + 1) * 1000;
    }
  }

  /** Staleness is monotone: a token issued earlier than a stale one is stale too. */
  lemma StaleMonotone(u: User, t: int, t': int)
    requires t' <= t && ChangedPasswordAfterTokenIssued(u, t)
    ensures ChangedPasswordAfterTokenIssued(u, t')
  {
  }

  /**
   * Why the hook subtracts a second: after a password change saved at `now`, a token
   * issued in the same second (`iat` is `now` in whole seconds, as section 4.1.6 of
   * RFC 7519 has it) is accepted, and one issued two seconds earlier is stale.
   */
  lemma StampAcceptsFreshToken(d: Doc, bcryptHash: (string, nat) -> string, now: int)
    requires d.passwordModified && !d.isNew && d.user.password.Some? && now >= 1000
    ensures !ChangedPasswordAfterTokenIssued(PreSave(d, bcryptHash, now).user, now / 1000)
    ensures ChangedPasswordAfterTokenIssued(PreSave(d, bcryptHash, now).user, now / 1000 - 2)
  {
    PreSaveModified(d, bcryptHash, now);
    assert EpochSeconds(now - 1000) == now / 1000 - 1;
  }

  /** The result of `createPasswordResetToken`: the raw token and the updated user. */
  datatype ResetToken = ResetToken(raw: string, user: User)

  /**
   * `createPasswordResetToken()`: the raw token is the 32 random bytes as 64 hex
   * characters; the user keeps only its SHA-256 hex digest and an expiry one hour after
   * `now`, and nothing else changes.
   */
  function CreatePasswordResetToken(u: User, randomBytes: seq<Hex.byte>, sha256Hex: string -> string, now: int): (r: ResetToken)
    requires |randomBytes| == ResetTokenBytes
    ensures |r.raw| == 64 && Hex.IsHexText(r.raw)
    ensures r.user.passwordResetToken == Some(sha256Hex(r.raw))
    ensures r.user.passwordResetExpires == Some(now + 3_600_000)
    ensures r.user.(passwordResetToken := u.passwordResetToken, passwordResetExpires := u.passwordResetExpires) == u
  {
    var raw := Hex.Encode(randomBytes);
    ResetToken(raw, u.(passwordResetToken := Some(sha256Hex(raw)), passwordResetExpires := Some(now + ResetTokenLifetime)))
  }

  /** The raw token carries the random bytes, and presenting it matches the stored digest. */
  lemma ResetTokenRoundTrip(u: User, randomBytes: seq<Hex.byte>, sha256Hex: string -> string, now: int)
    requires |randomBytes| == ResetTokenBytes
    ensures var r := CreatePasswordResetToken(u, randomBytes, sha256Hex, now);
      && Hex.Decode(r.raw) == randomBytes
      && r.user.passwordResetToken == Some(sha256Hex(r.raw))
  {
    Hex.RoundTrip(randomBytes);
  }
}

/** How a user document is written into a JSON response. */
module UserJson {
  import opened Wrappers
  import opened Js
  import opened UserModel

  function OptText(v: Option<string>): JsValue {
    if v.Some? then Str(v.value) else Undefined
  }

  function OptTime(v: Option<int>): JsValue {
    if v.Some? then Num(v.value) else Undefined
  }

  /** The paths of the document's JSON form, in the model's order: `_id`, then the schema's
      paths as declared. Mongoose lists a created user's defaulted paths first. */
  const JsonKeys: seq<string> := ["_id", "name", "email", "photo", "role", "password", "passwordConfirm",
                                   "passwordChangedAt", "passwordResetToken", "passwordResetExpires", "active"]

  /**
   * The document's JSON form: each path with its value (a date as its time value); an
   * unset path holds `undefined`, which the JSON text leaves out.
   */
  function ToJson(u: User): (j: JsValue)
    ensures j.Obj? && j.o.keys == JsonKeys
    ensures j.o.Get("_id") == Str(u.id)
    ensures j.o.Get("email") == OptText(u.email)
    ensures j.o.Get("password") == OptText(u.password)
    ensures j.o.Get("passwordConfirm") == OptText(u.passwordConfirm)
    ensures j.o.Get("active") == Bool(u.active)
  {
    Obj(JsObject(JsonKeys,
                 map["_id" := Str(u.id), "name" := OptText(u.name), "email" := OptText(u.email),
                     "photo" := OptText(u.photo), "role" := OptText(u.role), "password" := OptText(u.password),
                     "passwordConfirm" := OptText(u.passwordConfirm),
                     "passwordChangedAt" := OptTime(u.passwordChangedAt),
                     "passwordResetToken" := OptText(u.passwordResetToken),
                     "passwordResetExpires" := OptTime(u.passwordResetExpires), "active" := Bool(u.active)]))
  }
}
