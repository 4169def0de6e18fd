/**
 * The slice of JavaScript's value model that the action depends on: the values a
 * decoded JSON payload and a template argument can take, strict equality (`===`),
 * and the two property reads `content.products` and `products[0]`.
 */
module JsValues {

  datatype Option<+T> = None | Some(value: T)

  /**
   * A JavaScript value. Arrays and objects are heap objects: `ref` is the identity
   * of the object, which is what `===` compares; two distinct objects never share it.
   * Numbers are modelled by their integer values, with `NaN` kept apart because it
   * is the one value that is not strictly equal to itself.
   */
  datatype Value =
    | Undefined
    | Null
    | Bool(b: bool)
    | Num(n: int)
    | NaN
    | Str(s: string)
    | Arr(ref: nat, items: seq<Value>)
    | Obj(ref: nat, fields: map<string, Value>)

  /** A plain object, seen as its own enumerable properties. */
  type Record = map<string, Value>

  /** `item[key]`: a missing property reads as `undefined`. */
  function Get(item: Record, key: string): Value
  {
    if key in item then item[key] else Undefined
  }

  /** `a === b`: primitives by value (except `NaN`), objects and arrays by identity. */
  predicate StrictEquals(a: Value, b: Value)
    ensures !a.NaN? && !a.Arr? && !a.Obj? ==> (StrictEquals(a, b) <==> a == b)
    ensures a.NaN? ==> !StrictEquals(a, b)
    ensures (a.Arr? && b.Arr?) || (a.Obj? && b.Obj?) ==> (StrictEquals(a, b) <==> a.ref == b.ref)
    ensures a.Arr? && !b.Arr? ==> !StrictEquals(a, b)
    ensures a.Obj? && !b.Obj? ==> !StrictEquals(a, b)
  {
    match (a, b)
    case (NaN, _) => false
    case (Arr(r1, _), Arr(r2, _)) => r1 == r2
    case (Obj(r1, _), Obj(r2, _)) => r1 == r2
    case _ => a == b
  }

  /** `===` is symmetric. */
  lemma StrictEqualsSymmetric(a: Value, b: Value)
    ensures StrictEquals(a, b) <==> StrictEquals(b, a)
  {
  }

  /**
   * `v.products`. No built-in prototype defines `products`, so only an object's own
   * field is found. `None` stands for the TypeError thrown when `v` is `undefined` or `null`.
   */
  function GetProducts(v: Value): (r: Option<Value>)
    ensures r.None? <==> v.Undefined? || v.Null?
    ensures v.Obj? && "products" in v.fields ==> r == Some(v.fields["products"])
    ensures (!v.Obj? || "products" !in v.fields) && r.Some? ==> r.value == Undefined
  {
    match v
    case Undefined => None
    case Null => None
    case Obj(_, fields) => Some(if "products" in fields then fields["products"] else Undefined)
    case _ => Some(Undefined)
  }

  /**
   * `v[0]`. `None` stands for the TypeError thrown when `v` is `undefined` or `null`;
   * an empty array or string gives `undefined`.
   */
  function GetFirst(v: Value): (r: Option<Value>)
    ensures r.None? <==> v.Undefined? || v.Null?
    ensures v.Arr? && v.items != [] ==> r == Some(v.items[0])
    ensures v.Arr? && v.items == [] ==> r == Some(Undefined)
  {
    match v
    case Undefined => None
    case Null => None
    case Arr(_, items) => Some(if items != [] then items[0] else Undefined)
    case Str(s) => Some(if s != "" then Str([s[0]]) else Undefined)
    case Obj(_, fields) => Some(if "0" in fields then fields["0"] else Undefined)
    case _ => Some(Undefined)
  }

  /** JavaScript truthiness of a value that is either a string or absent (`null`/`undefined`). */
  predicate Truthy(s: Option<string>)
  {
    s.Some? && s.value != ""
  }
}
