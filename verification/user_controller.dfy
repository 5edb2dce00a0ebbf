/**
 * The profile handlers: the key whitelist `filterObj`, the `updateMe` decision, and the
 * soft delete `deleteMe` over a store of users keyed by id.
 */
module UserController {
  import opened Js
  import opened Http
  import opened AppErrors
  import opened UserModel

  /** The keys of `ks` that are in `allowed`, in order. */
  function KeepAllowed(ks: seq<string>, allowed: seq<string>): (r: seq<string>)
    ensures forall k :: k in r <==> k in ks && k in allowed
  {
    if |ks| == 0 then []
    else
      var rest := KeepAllowed(ks[..|ks| - 1], allowed);
      assert ks == ks[..|ks| - 1] + [ks[|ks| - 1]];
      if ks[|ks| - 1] in allowed then rest + [ks[|ks| - 1]] else rest
  }

  /** The `forEach` of `filterObj` over the first keys `ks`: each allowed key is copied
      with its value into the new object, in order. */
  function FilterKeys(obj: JsObject, ks: seq<string>, allowed: seq<string>): (r: JsObject)
    ensures r.Valid()
    ensures forall k :: r.Has(k) <==> k in ks && k in allowed
    ensures forall k :: r.Has(k) ==> r.Get(k) == obj.Get(k)
  {
    if |ks| == 0 then EmptyObject
    else
      var acc := FilterKeys(obj, ks[..|ks| - 1], allowed);
      var k := ks[|ks| - 1];
      assert ks == ks[..|ks| - 1] + [k];
      if k in allowed then acc.Put(k, obj.Get(k)) else acc
  }

  /** `filterObj(obj, ...allowedFields)`: a new object with only the allowed keys. */
  function FilterObj(obj: JsObject, allowed: seq<string>): (r: JsObject)
    ensures r.Valid()
    ensures forall k :: r.Has(k) ==> k in allowed
    ensures forall k :: k in allowed && obj.Has(k) && obj.Valid() ==> r.Has(k) && r.Get(k) == obj.Get(k)
    ensures forall k :: r.Has(k) ==> obj.Get(k) == r.Get(k)
  {
    FilterKeys(obj, obj.keys, allowed)
  }

  /** For an object whose keys are listed once, the result lists the allowed ones in
      the input's order. */
  lemma {:induction false} FilterKeysOrder(obj: JsObject, ks: seq<string>, allowed: seq<string>)
    requires forall i, j :: 0 <= i < j < |ks| ==> ks[i] != ks[j]
    ensures FilterKeys(obj, ks, allowed).keys == KeepAllowed(ks, allowed)
  {
    if |ks| > 0 {
      var init := ks[..|ks| - 1];
      var k := ks[|ks| - 1];
      assert ks == init + [k];
      FilterKeysOrder(obj, init, allowed);
    }
  }

  /** Keeping the allowed keys of a list that holds only allowed keys keeps them all. */
  lemma {:induction false} KeepAllAllowed(ks: seq<string>, allowed: seq<string>)
    requires forall k :: k in ks ==> k in allowed
    ensures KeepAllowed(ks, allowed) == ks
  {
    if |ks| > 0 {
      var init := ks[..|ks| - 1];
      assert ks == init + [ks[|ks| - 1]];
      KeepAllAllowed(init, allowed);
    }
  }

  /** Two well-formed objects with the same keys and the same values are equal. */
  lemma SameObject(a: JsObject, b: JsObject)
    requires a.Valid() && b.Valid() && a.keys == b.keys
    requires forall k :: a.Get(k) == b.Get(k)
    ensures a == b
  {
    forall k | k in a.fields
      ensures k in b.fields && a.fields[k] == b.fields[k]
    {
      assert a.Get(k) == b.Get(k);
    }
    assert a.fields == b.fields;
  }

  /** For a well-formed object the output keys are exactly the allowed input keys, in
      the input's order. */
  lemma FilterObjKeys(obj: JsObject, allowed: seq<string>)
    requires obj.Valid()
    ensures FilterObj(obj, allowed).keys == KeepAllowed(obj.keys, allowed)
  {
    FilterKeysOrder(obj, obj.keys, allowed);
  }

  /** Filtering twice with the same fields gives the same object as filtering once. */
  lemma FilterObjIdempotent(obj: JsObject, allowed: seq<string>)
    ensures FilterObj(FilterObj(obj, allowed), allowed) == FilterObj(obj, allowed)
  {
    var once := FilterObj(obj, allowed);
    var twice := FilterObj(once, allowed);
    FilterKeysOrder(once, once.keys, allowed);
    KeepAllAllowed(once.keys, allowed);
    forall k
      ensures twice.Get(k) == once.Get(k)
    {
      if once.Has(k) {
        assert k in once.keys && k in allowed;
      }
    }
    SameObject(twice, once);
  }

  /** The fields a profile update may change. */
  const ProfileFields: seq<string> := ["name", "email"]

  const NotForPasswords := "This route is not for password updates, Please user /updateMyPassword"

  /** What `updateMe` does: refuse, or ask the store to apply `changes` to the
      logged-in user and set status 200. */
  datatype UpdateMeResult = Refused(error: ErrObj) | Update(id: string, changes: JsObject, response: Response)

  /** The answer `updateMe` builds: status 200 and "success"; its `data.user` is left out. */
  function UpdatedResponse(): (res: Response)
    ensures res.statusCode == Num(200) && res.body.Obj? && res.body.o.Get("status") == Str("success")
  {
    Response(Num(200), Obj(JsObject(["status"], map["status" := Str("success")])))
  }

  /** `updateMe` for the logged-in user `id`: refuse a body carrying `password` or
      `confirmPassword`, otherwise update name and email only. */
  function UpdateMe(body: JsObject, id: string, trace: string): (r: UpdateMeResult)
  {
    if Truthy(body.Get("password")) || Truthy(body.Get("confirmPassword")) then
      Refused(NewAppError(NotForPasswords, Num(400), trace))
    else Update(id, FilterObj(body, ProfileFields), UpdatedResponse())
  }

  /** A body with a password field is refused with a 400 "fail" and the fixed message. */
  lemma UpdateMeRefuses(body: JsObject, id: string, trace: string)
    ensures var r := UpdateMe(body, id, trace);
      && (r.Refused? <==> Truthy(body.Get("password")) || Truthy(body.Get("confirmPassword")))
      && (r.Refused? ==> r.error.Get("statusCode") == Num(400) && r.error.Get("status") == Str("fail")
                         && r.error.Get("message") == Str(NotForPasswords))
  {
    StatusOfHttpCode(NotForPasswords, 400, trace);
  }

  /** Any other body becomes an update of the caller's own record that touches at most
      name and email, each as given, with the handler setting status 200. Serialising the
      unexecuted query then throws, so the client is answered by the error middleware. */
  lemma UpdateMeUpdates(body: JsObject, id: string, trace: string)
    requires !Truthy(body.Get("password")) && !Truthy(body.Get("confirmPassword"))
    ensures var r := UpdateMe(body, id, trace);
      && r.Update? && r.id == id && r.response.statusCode == Num(200)
      && (forall k :: r.changes.Has(k) ==> k == "name" || k == "email")
      && (forall k :: r.changes.Has(k) ==> r.changes.Get(k) == body.Get(k))
      && (body.Valid() ==> r.changes.keys == KeepAllowed(body.keys, ProfileFields))
  {
    var r := UpdateMe(body, id, trace);
    forall k | r.changes.Has(k)
      ensures k == "name" || k == "email"
    {
      assert k in ProfileFields;
    }
    if body.Valid() {
      FilterObjKeys(body, ProfileFields);
    }
  }

  /** `deleteMe`: `active` becomes false on the caller's record; the answer is 204
      whether or not the record exists. */
  function DeleteMe(store: map<string, User>, id: string): (r: (map<string, User>, Response))
    ensures r.1.statusCode == Num(204)
    ensures r.1.body.Obj? && r.1.body.o.Get("status") == Str("success") && r.1.body.o.Get("data") == Null
    ensures r.0.Keys == store.Keys
    ensures id in store ==> !r.0[id].active && r.0[id].(active := store[id].active) == store[id]
    ensures forall other :: other in store && other != id ==> r.0[other] == store[other]
  {
    var store' := if id in store then store[id := store[id].(active := false)] else store;
    (store', Response(Num(204), Obj(JsObject(["status", "data"], map["status" := Str("success"), "data" := Null]))))
  }

  /** Deleting twice leaves the store as deleting once. */
  lemma DeleteMeIdempotent(store: map<string, User>, id: string)
    ensures DeleteMe(DeleteMe(store, id).0, id) == DeleteMe(store, id)
  {
    var once := DeleteMe(store, id).0;
    var twice := DeleteMe(once, id).0;
    if id in store {
      assert twice[id] == once[id];
    }
    assert twice == once;
  }
}

/** The `confirmPassword` check, logging in after `deleteMe`, and their corrections. */
module UserControllerProperties {
  import opened Wrappers
  import opened Js
  import opened Http
  import opened AppErrors
  import opened UserModel
  import opened UserJson
  import opened UserController
  import opened AuthController
  import opened AuthControllerProperties

  /** The guard reads `confirmPassword`, a name the schema does not use: a body that
      carries only the schema's `passwordConfirm` is not refused. */
  lemma PasswordConfirmNotRefused(body: JsObject, id: string, trace: string)
    requires !Truthy(body.Get("password")) && !Truthy(body.Get("confirmPassword"))
    requires Truthy(body.Get("passwordConfirm"))
    ensures UpdateMe(body, id, trace).Update?
    ensures !UpdateMe(body, id, trace).changes.Has("passwordConfirm")
  {
  }

  /** Corrected: refuse the schema's `passwordConfirm` as well. */
  function UpdateMeFixed(body: JsObject, id: string, trace: string): (r: UpdateMeResult)
  {
    if Truthy(body.Get("password")) || Truthy(body.Get("passwordConfirm")) || Truthy(body.Get("confirmPassword")) then
      Refused(NewAppError(NotForPasswords, Num(400), trace))
    else Update(id, FilterObj(body, ProfileFields), UpdatedResponse())
  }

  /** Corrected: any body carrying a password field is refused, and every other body is
      handled as before. */
  lemma UpdateMeFixedRefusesPasswordFields(body: JsObject, id: string, trace: string)
    ensures var r := UpdateMeFixed(body, id, trace);
      && (r.Refused? <==> Truthy(body.Get("password")) || Truthy(body.Get("passwordConfirm"))
                          || Truthy(body.Get("confirmPassword")))
      && (r.Update? ==> r == UpdateMe(body, id, trace))
      && (UpdateMe(body, id, trace).Refused? ==> r == UpdateMe(body, id, trace))
  {
  }

  /** A deleted account still logs in with its password: `login` looks the user up by
      email and never reads `active`. The corrected login refuses it with a 401. */
  lemma DeletedUserCanLogIn(store: map<string, User>, id: string, body: JsObject, lib: Libraries, db: Database,
                            jwt: Jwt, now: int, stackAt: int -> string)
    requires id in store && store[id].password.Some?
    requires db.findOneByEmail(body.Get("email")) == Success(Some(DeleteMe(store, id).0[id]))
    requires Truthy(body.Get("email")) && body.Get("password").Str? && |body.Get("password").s| > 0
    requires lib.bcryptCompare(body.Get("password").s, store[id].password.value)
    ensures Login(body, lib, db, jwt, now, stackAt).Sent?
    ensures LoginFixed(body, lib, db, jwt, now, stackAt) == Next(NewAppError(LoginFailure, Num(401), stackAt(80)))
  {
    var deleted := DeleteMe(store, id).0[id];
    assert deleted.password == store[id].password && !deleted.active;
  }
}
