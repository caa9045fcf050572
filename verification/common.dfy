/** Values as JavaScript hands them to the handlers: optional values, and
    request-body fields that may be undefined, null or set. */
module Common {

  datatype Option<+T> = None | Some(value: T)

  /** A field of a parsed JSON request body: absent (`undefined`), an
      explicit `null`, or a value. */
  datatype Field<+T> = Undefined | Null | Value(value: T)

  /** JavaScript truthiness of an optional string: absent and "" are falsy. */
  predicate Truthy(s: Option<string>)
  {
    s.Some? && s.value != ""
  }

  /** Truthiness of a string field of a request body. */
  predicate FieldTruthy(f: Field<string>)
  {
    f.Value? && f.value != ""
  }

  /** A body field as an optional value: `undefined` and `null` both lose the value. */
  function FieldToOption<T>(f: Field<T>): (r: Option<T>)
    ensures r.Some? <==> f.Value?
    ensures r.Some? ==> r.value == f.value
  {
    match f
    case Value(v) => Some(v)
    case _ => None
  }
}
