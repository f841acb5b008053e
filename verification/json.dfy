/** The loosely typed values a user may put in the `command` option. The
    program inspects them with `typeof`, truthiness and property reads; this
    module gives those three operations a precise meaning. */
module Json {

  datatype Value =
    | Missing                          // `undefined`, or a property that is not there
    | Null
    | Bool(b: bool)
    | Num(n: int)
    | Str(s: string)
    | Arr(items: seq<Value>)
    | Obj(fields: map<string, Value>)

  /** JavaScript truthiness: `undefined`, `null`, `false`, `0` and `''` are falsy. */
  predicate Truthy(v: Value) {
    match v
    case Missing => false
    case Null => false
    case Bool(b) => b
    case Num(n) => n != 0
    case Str(s) => s != ""
    case Arr(_) => true
    case Obj(_) => true
  }

  /** `typeof v === 'object'`: arrays and `null` included. */
  predicate IsObjectType(v: Value) {
    v.Null? || v.Arr? || v.Obj?
  }

  /** Reading property `key` of a non-null value: an object's own field, or
      `undefined` when the field is absent or the value is not an object.
      Reading a property of `null` or `undefined` throws; callers handle that. */
  function Field(v: Value, key: string): (r: Value)
    ensures v.Obj? && key in v.fields ==> r == v.fields[key]
    ensures !(v.Obj? && key in v.fields) ==> r == Missing
  {
    if v.Obj? && key in v.fields then v.fields[key] else Missing
  }
}
