/** The JavaScript values a facet holds, as far as the facet and its
    equality checks can tell them apart. */
module Values {

  /** A JavaScript value. Numbers are modelled as integers (no NaN, no
      floating point); objects and functions are known only by reference,
      so two of them are `===` exactly when their references agree. */
  datatype JsValue =
    | Num(n: int)
    | Str(s: string)
    | Bool(b: bool)
    | Null
    | Undefined
    | Obj(ref: nat)
    | Fn(ref: nat)

  /** The library's `Option<V>`: either the `NO_VALUE` sentinel or a value.
      `NO_VALUE` is distinct from every value, `null` and `undefined` included. */
  datatype Option<+T> = NoValue | Some(value: T)

  /** `typeof v` is 'number', 'string' or 'boolean'. */
  predicate IsNumberStringOrBoolean(v: JsValue): (r: bool)
    ensures r <==> !(v.Null? || v.Undefined? || v.Obj? || v.Fn?)
  {
    v.Num? || v.Str? || v.Bool?
  }

  /** The values `defaultEqualityCheck` is willing to compare: the numbers,
      strings and booleans, `null` and `undefined`. */
  predicate IsImmutable(v: JsValue): (r: bool)
    ensures r <==> !(v.Obj? || v.Fn?)
  {
    IsNumberStringOrBoolean(v) || v.Null? || v.Undefined?
  }
}
