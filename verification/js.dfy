/**
 * JavaScript values as the request handlers see them: JSON-like values, objects as
 * ordered property lists (property order is insertion order, as `Object.keys` and
 * `Object.values` report it), truthiness, `String(v)` and `a || b`; and error objects,
 * whose properties split into own enumerable ones and the rest.
 */
module Js {
  import opened Text

  datatype JsValue =
    | Undefined
    | Null
    | Bool(b: bool)
    | Num(n: int)
    | Str(s: string)
    | Obj(o: JsObject)

  /**
   * A plain object: its property names in insertion order, which is the order
   * `Object.keys` and `Object.values` report, and the value of each property.
   */
  datatype JsObject = JsObject(keys: seq<string>, fields: map<string, JsValue>) {
    /** Every name is listed once, and exactly the names that have a value are listed. */
    ghost predicate Valid() {
      && (forall i, j :: 0 <= i < j < |keys| ==> keys[i] != keys[j])
      && (forall k :: k in fields <==> k in keys)
    }

    /** `k in o` */
    predicate Has(k: string) {
      k in fields
    }

    /** `o[k]`, `undefined` when there is no such property. */
    function Get(k: string): (v: JsValue)
      ensures !Has(k) ==> v == Undefined
    {
      if k in fields then fields[k] else Undefined
    }

    /** `o[k] = v`: replaces the value of property `k`, or appends `k` when it is new. */
    function Put(k: string, v: JsValue): (r: JsObject)
      ensures r.Get(k) == v
      ensures forall k' :: k' != k ==> r.Get(k') == Get(k')
      ensures forall k' :: r.Has(k') <==> Has(k') || k' == k
      ensures k in keys ==> r.keys == keys
      ensures k !in keys ==> r.keys == keys + [k]
      ensures Valid() ==> r.Valid()
    {
      JsObject(if k in keys then keys else keys + [k], fields[k := v])
    }

    /** `Object.values(o)`: the values in key order. */
    function Values(): (vs: seq<JsValue>)
      ensures |vs| == |keys|
      ensures forall i :: 0 <= i < |keys| ==> vs[i] == Get(keys[i])
    {
      seq(|keys|, i requires 0 <= i < |keys| => Get(keys[i]))
    }
  }

  /** `{}` */
  const EmptyObject := JsObject([], map[])

  /** A TypeError a handler raises, with what caused it. */
  datatype TypeError = TypeError(cause: string)

  /** JavaScript truthiness: `undefined`, `null`, `false`, `0` and `""` are falsy. */
  predicate Truthy(v: JsValue) {
    match v
    case Undefined => false
    case Null => false
    case Bool(b) => b
    case Num(n) => n != 0
    case Str(s) => |s| > 0
    case Obj(_) => true
  }

  /** `String(v)`, as a template literal `${v}` converts its operand. */
  function ToText(v: JsValue): string {
    match v
    case Undefined => "undefined"
    case Null => "null"
    case Bool(b) => if b then "true" else "false"
    case Num(n) => IntText(n)
    case Str(s) => s
    case Obj(_) => "[object Object]"
  }

  /** `a || b` */
  function Or(a: JsValue, b: JsValue): (r: JsValue)
    ensures Truthy(a) ==> r == a
    ensures !Truthy(a) ==> r == b
  {
    if Truthy(a) then a else b
  }

  /**
   * An error object. `own` holds its own enumerable properties, the ones an object
   * spread `{...err}` and `JSON.stringify` copy; `hidden` holds the properties that are
   * readable but not copied: the non-enumerable `message` and `stack` an `Error`
   * constructor installs, and properties inherited from the prototype, such as `name`.
   */
  datatype ErrObj = ErrObj(own: JsObject, hidden: map<string, JsValue>) {
    /** `err[k]`: an own enumerable property shadows a hidden one. */
    function Get(k: string): (v: JsValue)
      ensures own.Has(k) ==> v == own.Get(k)
      ensures !own.Has(k) && k !in hidden ==> v == Undefined
    {
      if k in own.fields then own.fields[k] else if k in hidden then hidden[k] else Undefined
    }

    /** `err[k] = v` on a property that is not a non-enumerable own one: the property
        becomes (or stays) own and enumerable. */
    function Set(k: string, v: JsValue): (r: ErrObj)
      ensures r.Get(k) == v && r.own.Has(k)
      ensures forall k' :: k' != k ==> r.Get(k') == Get(k')
      ensures r.hidden == hidden
    {
      ErrObj(own.Put(k, v), hidden)
    }

    /** `{ ...err }`: a plain object holding only the own enumerable properties. */
    function Spread(): (r: ErrObj)
      ensures forall k :: r.Get(k) == own.Get(k)
    {
      ErrObj(own, map[])
    }
  }
}
