/** Request bodies as JavaScript sees them after `request.json()`, and the
    two operations the handlers apply to them: reading a property after
    `body ?? {}`, and truthiness. */
module Json {

  /** A JavaScript value that can arise from a parsed JSON body or from
      reading a property that is not there (`Undefined`). Numbers are
      integers here. */
  datatype Value =
    | Undefined
    | Null
    | Bool(b: bool)
    | Num(n: int)
    | Str(s: string)
    | Arr(items: seq<Value>)
    | Obj(fields: map<string, Value>)

  /** JavaScript truthiness: `undefined`, `null`, `false`, `0` and `""` are
      falsy; every other value, empty arrays and objects included, is
      truthy. */
  predicate Truthy(v: Value)
  {
    match v
    case Undefined => false
    case Null => false
    case Bool(b) => b
    case Num(n) => n != 0
    case Str(s) => s != ""
    case Arr(_) => true
    case Obj(_) => true
  }

  /** The value that `const { name } = body ?? {}` binds to `name`: a null
      or absent body reads as `{}`, a property an object lacks reads as
      `undefined`, and so does every property of a string, number,
      boolean or array, since none of the names the handlers read
      (title, content, name, color) is a property of those. */
  function Field(body: Value, name: string): (v: Value)
    ensures body.Obj? && name in body.fields ==> v == body.fields[name]
    ensures !(body.Obj? && name in body.fields) ==> v == Undefined
  {
    match body
    case Obj(fields) => if name in fields then fields[name] else Undefined
    case _ => Undefined
  }

  /** A body without the property, a null body and an empty object all
      give a falsy field. */
  lemma MissingFieldIsFalsy(body: Value, name: string)
    requires body == Null || body == Undefined || body == Obj(map[]) || (body.Obj? && name !in body.fields)
    ensures !Truthy(Field(body, name))
  {
  }
}
