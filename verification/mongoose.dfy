/**
 * The parts of Mongoose's document machinery the schemas rely on: casting request
 * values to String paths, the `required` check on strings, the failed-validator record,
 * and the error objects Mongoose and the MongoDB driver hand to the error middleware.
 */
module Mongoose {
  import opened Wrappers
  import opened Text
  import opened Js

  /** One failed validator: the path and the message it reports. */
  datatype FieldError = FieldError(path: string, message: string)

  /** The `required` validator of a String path: the value is set and not empty. */
  predicate PresentString(v: Option<string>) {
    v.Some? && |v.value| > 0
  }

  /** A string, number or boolean: a value that casts to its text. */
  predicate Primitive(v: JsValue) {
    v.Str? || v.Num? || v.Bool?
  }

  /** An object whose `_id` is a non-empty string, which Mongoose casts to that id. */
  predicate HasStringId(v: JsValue) {
    v.Obj? && v.o.Get("_id").Str? && |v.o.Get("_id").s| > 0
  }

  /** A value that casts to a string: a primitive, or an object with a string `_id`. */
  predicate Castable(v: JsValue) {
    Primitive(v) || HasStringId(v)
  }

  /** A value a String path refuses: an object without a string `_id`. */
  predicate CastFails(v: JsValue) {
    v.Obj? && !HasStringId(v)
  }

  /** The string a castable value becomes. */
  function CastText(v: JsValue): string {
    if HasStringId(v) then v.o.Get("_id").s else ToText(v)
  }

  /**
   * Casting a request value to a String path: a string is kept, a number or boolean
   * becomes its text, `undefined` and `null` leave the path unset, an object with a
   * string `_id` becomes that id, and any other object cannot be cast (the value is
   * reported back).
   */
  function CastString(v: JsValue): (r: Result<Option<string>, JsValue>)
    ensures r.Failure? <==> CastFails(v)
    ensures v.Str? ==> r == Success(Some(v.s))
    ensures r == Success(None) <==> v == Undefined || v == Null
    ensures Primitive(v) ==> r == Success(Some(ToText(v)))
    ensures HasStringId(v) ==> r == Success(Some(v.o.Get("_id").s))
  {
    match v
    case Undefined => Success(None)
    case Null => Success(None)
    case Obj(o) => if HasStringId(v) then Success(Some(o.Get("_id").s)) else Failure(v)
    case _ => Success(Some(ToText(v)))
  }

  /** The value a String path holds after assignment: the cast value, or unset when the
      cast fails. */
  function Assigned(v: JsValue): (r: Option<string>)
    ensures Castable(v) ==> r == Some(CastText(v))
    ensures Primitive(v) ==> r == Some(ToText(v))
    ensures !Castable(v) ==> r == None
  {
    match CastString(v)
    case Success(o) => o
    case Failure(_) => None
  }

  /** The message reported for a value that cannot be cast to a String path. */
  function CastMessage(path: string): string {
    "Cast to String failed for value at path \"" + path + "\""
  }

  /** "path: message" for each failed validator, as the ValidationError message lists them. */
  function Summaries(errs: seq<FieldError>): (r: seq<string>)
    ensures |r| == |errs|
  {
    seq(|errs|, i requires 0 <= i < |errs| => errs[i].path + ": " + errs[i].message)
  }

  /** The paths of the failed validators, in order. */
  function Paths(errs: seq<FieldError>): (ps: seq<string>)
    ensures |ps| == |errs| && forall i :: 0 <= i < |errs| ==> ps[i] == errs[i].path
  {
    seq(|errs|, i requires 0 <= i < |errs| => errs[i].path)
  }

  /** Each path reports at most one failed validator. */
  predicate DistinctPaths(errs: seq<FieldError>) {
    forall i, j :: 0 <= i < j < |errs| ==> errs[i].path != errs[j].path
  }

  /** The entry for one failed validator in `errors`: its message and path. */
  function ErrorEntry(e: FieldError): (v: JsValue)
    ensures v.Obj? && v.o.Get("message") == Str(e.message) && v.o.Get("path") == Str(e.path)
  {
    Obj(JsObject(["message", "path"], map["message" := Str(e.message), "path" := Str(e.path)]))
  }

  /** The `errors` object of a ValidationError: `errors[path] = entry` for each failed
      validator in turn. */
  function ErrorsObject(errs: seq<FieldError>): (o: JsObject)
    ensures o.Valid()
    ensures forall k :: o.Has(k) <==> k in Paths(errs)
  {
    if |errs| == 0 then EmptyObject
    else
      var front := errs[..|errs| - 1];
      assert forall k :: k in Paths(errs) <==> k in Paths(front) || k == errs[|errs| - 1].path by {
        assert Paths(errs) == Paths(front) + [errs[|errs| - 1].path];
      }
      ErrorsObject(front).Put(errs[|errs| - 1].path, ErrorEntry(errs[|errs| - 1]))
  }

  /** With one failed validator per path, the `errors` object lists the paths in the
      order the validators failed, each with its own entry. */
  lemma {:induction false} ErrorsObjectInOrder(errs: seq<FieldError>)
    requires DistinctPaths(errs)
    ensures ErrorsObject(errs).keys == Paths(errs)
    ensures forall i :: 0 <= i < |errs| ==> ErrorsObject(errs).Get(errs[i].path) == ErrorEntry(errs[i])
  {
    if |errs| > 0 {
      var front := errs[..|errs| - 1];
      var last := errs[|errs| - 1];
      ErrorsObjectInOrder(front);
      assert last.path !in Paths(front);
      assert Paths(errs) == Paths(front) + [last.path];
      forall i | 0 <= i < |errs| ensures ErrorsObject(errs).Get(errs[i].path) == ErrorEntry(errs[i]) {
        if i < |errs| - 1 {
          assert front[i] == errs[i];
        }
      }
    }
  }

  /**
   * The ValidationError `save` rejects with: own `errors`, `_message` and `name`
   * properties, and the inherited `message` "<Model> validation failed: path: message, ...".
   * An own `name` is assumed, as in the Mongoose releases that assign it in the
   * constructor; releases that define it on the prototype are not modelled.
   */
  function ValidationError(modelName: string, errs: seq<FieldError>, trace: string): (e: ErrObj)
    ensures e.Get("name") == Str("ValidationError")
    ensures e.Get("errors") == Obj(ErrorsObject(errs))
    ensures e.Get("message") == Str(modelName + " validation failed: " + Join(Summaries(errs), ", "))
    ensures e.Get("isOperational") == Undefined && e.Get("statusCode") == Undefined
    ensures e.Get("code") == Undefined
  {
    var message := modelName + " validation failed: " + Join(Summaries(errs), ", ");
    var own := JsObject(["errors", "_message", "name"],
                        map["errors" := Obj(ErrorsObject(errs)),
                            "_message" := Str(modelName + " validation failed"),
                            "name" := Str("ValidationError")]);
    ErrObj(own, map["message" := Str(message), "stack" := Str("ValidationError: " + message + trace)])
  }

  /**
   * The error the MongoDB driver reports for a unique-index violation: own `name`,
   * `code` 11000 and `errmsg` properties, with the server's text also as the message.
   * An own `errmsg` is assumed, as in the driver releases that copy the server reply
   * onto the error; releases that expose it through a getter are not modelled.
   */
  function DuplicateKeyError(errmsg: string, trace: string): (e: ErrObj)
    ensures e.Get("code") == Num(11000)
    ensures e.Get("errmsg") == Str(errmsg)
    ensures e.Get("name") == Str("MongoError")
    ensures e.Get("isOperational") == Undefined
  {
    var own := JsObject(["name", "code", "errmsg"],
                        map["name" := Str("MongoError"), "code" := Num(11000), "errmsg" := Str(errmsg)]);
    ErrObj(own, map["message" := Str(errmsg), "stack" := Str("MongoError: " + errmsg + trace)])
  }
}
