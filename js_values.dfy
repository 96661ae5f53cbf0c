/** Runtime JavaScript values, for the places where the core inspects a
    value typed `unknown`: errors caught from the store or the RPC client,
    and request header values. Only the operations the core applies are
    modelled: property reads with optional chaining, truthiness, `??`,
    `typeof … === "string"` and the `in` operator. */
module JsValues {
  import opened Wrappers

  datatype JsValue =
    | Undefined
    | Null
    | Bool(b: bool)
    | Num(n: real)
    | Str(s: string)
    | Arr(items: seq<JsValue>)
    | Obj(props: map<string, JsValue>)

  /** Exceptions the JavaScript engine itself raises. */
  datatype JsError = TypeError

  predicate IsNullish(v: JsValue)
  {
    v.Undefined? || v.Null?
  }

  predicate Truthy(v: JsValue)
  {
    match v
    case Undefined => false
    case Null => false
    case Bool(b) => b
    case Num(n) => n != 0.0
    case Str(s) => s != []
    case Arr(_) => true
    case Obj(_) => true
  }

  /** A property read: a missing own property reads as `undefined`, and so
      does any property of a primitive or an array (none of the names the
      core reads exist on them). On `null` and `undefined` this is the
      reading of `v?.key`; where the source reads with a plain `.`, which
      throws a TypeError on them, the caller tests for that case first. */
  function Get(v: JsValue, key: string): JsValue
  {
    if v.Obj? && key in v.props then v.props[key] else Undefined
  }

  /** `a ?? b` */
  function Coalesce(a: JsValue, b: JsValue): JsValue
  {
    if IsNullish(a) then b else a
  }

  /** `typeof v === "string" ? v : undefined` */
  function AsString(v: JsValue): (r: Option<string>)
    ensures r.Some? <==> v.Str?
  {
    if v.Str? then Some(v.s) else None
  }

  /** A value on which the `in` operator throws. */
  predicate IsPrimitive(v: JsValue)
  {
    !v.Obj? && !v.Arr?
  }

  /** `key in v`: own keys of an object, never a named key of an array, and a
      TypeError for every primitive. */
  function HasProperty(key: string, v: JsValue): (r: Result<bool, JsError>)
    ensures r.Err? <==> IsPrimitive(v)
    ensures r == Ok(true) <==> v.Obj? && key in v.props
  {
    match v
    case Obj(props) => Ok(key in props)
    case Arr(_) => Ok(false)
    case _ => Err(TypeError)
  }
}
