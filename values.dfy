/**
 * JSON-like values as the gamebot handles them: action parameters,
 * action arguments and the variables a program action binds.
 */
module Values {

  /**
   * A JavaScript value as it appears in a program or an argument list.
   * Numbers are reals. `Undefined` is what reading a property nobody set
   * gives, such as `value` on a method inherited from `Object.prototype`.
   */
  datatype Value =
    | Undefined
    | Null
    | Boolean(b: bool)
    | Number(x: real)
    | Str(s: string)
    | List(items: seq<Value>)
    | Object(fields: map<string, Value>)

  /** The string JavaScript's `typeof` gives for a value (`null` and arrays are objects). */
  function TypeOf(v: Value): (t: string)
    ensures t in {"undefined", "boolean", "number", "string", "object"}
    ensures t == "undefined" <==> v.Undefined?
    ensures t == "number" <==> v.Number?
    ensures t == "string" <==> v.Str?
  {
    match v
    case Undefined => "undefined"
    case Boolean(_) => "boolean"
    case Number(_) => "number"
    case Str(_) => "string"
    case _ => "object"
  }

  /** `s.startsWith('$')`: the mark of a program variable. */
  predicate IsVariableName(s: string)
  {
    |s| > 0 && s[0] == '$'
  }

  /** A named argument `{name, value}`. */
  datatype Arg = Arg(name: string, value: Value)
}
