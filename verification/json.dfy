/** The JSON values a request body can carry, and JavaScript's truthiness of them. */
module Json {

  /** Arrays and objects are not looked into anywhere in the model, so they share one case. */
  datatype JsonValue = JNull | JBool(b: bool) | JNumber(n: int) | JString(s: string) | JComposite

  /** `if (v)` in JavaScript: null, false, 0 and "" are falsy, everything else is truthy. */
  predicate Truthy(v: JsonValue)
  {
    match v
    case JNull => false
    case JBool(b) => b
    case JNumber(n) => n != 0
    case JString(s) => s != []
    case JComposite => true
  }
}
