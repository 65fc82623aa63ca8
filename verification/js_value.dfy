/** The scalar JSON values a request body field can hold once parsed, with
    JavaScript's truthiness and string conversion. */
module JsValues {
  import opened Digits

  /** The integers a JSON number holds in this model: below 10^21 in
      magnitude, where JavaScript prints them in plain decimal rather than in
      exponent form. */
  type JsInteger = n: int | -1_000_000_000_000_000_000_000 < n < 1_000_000_000_000_000_000_000

  datatype Value =
    | Undefined        // the field is absent from the body
    | Null
    | Bool(b: bool)
    | Number(n: JsInteger)
    | Str(s: string)

  /** Whether `!v` is false in JavaScript: every scalar except the five
      falsy ones. */
  predicate Truthy(v: Value)
    ensures !Truthy(v) <==> v in {Undefined, Null, Bool(false), Number(0), Str("")}
  {
    match v
    case Undefined => false
    case Null => false
    case Bool(b) => b
    case Number(n) => n != 0
    case Str(s) => |s| > 0
  }

  /** The text a template literal `${v}` inserts for `v`. */
  function ToText(v: Value): (t: string)
    ensures v.Str? ==> t == v.s
    ensures Truthy(v) ==> |t| > 0
  {
    match v
    case Undefined => "undefined"
    case Null => "null"
    case Bool(b) => if b then "true" else "false"
    case Number(n) => IntToText(n)
    case Str(s) => s
  }
}
