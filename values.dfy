/** The dynamically typed Python values that flow through the AI client's
    configuration and request parameters, with Python's truthiness and the
    two outcome wrappers the model uses. */
module Values {

  datatype Option<T> = None | Some(value: T) {
    function GetOr(default: T): T {
      match this
      case Some(v) => v
      case None => default
    }
  }

  datatype Result<T, E> = Success(value: T) | Failure(error: E)

  /** A Python value as far as the client looks into it. A float is carried
      as a `real`: the client only passes it on or compares it with 0. */
  datatype Value =
    | Null
    | Bool(b: bool)
    | Int(i: int)
    | Float(f: real)
    | Str(s: string)
    | List(items: seq<Value>)
    | Dict(entries: map<string, Value>)

  /** Python's truth value (`if v:`): false exactly for `None`, `False`,
      zero and the empty string, list and dictionary. */
  predicate Truthy(v: Value): (r: bool)
    ensures !r <==> v in {Null, Bool(false), Int(0), Float(0.0), Str([]), List([]), Dict(map[])}
  {
    match v
    case Null => false
    case Bool(b) => b
    case Int(i) => i != 0
    case Float(f) => f != 0.0
    case Str(s) => s != []
    case List(items) => items != []
    case Dict(entries) => entries != map[]
  }

  /** Values that Python can order against the integer 0 (`v > 0`);
      comparing any other value with 0 raises `TypeError`. */
  predicate IsNumber(v: Value) {
    v.Bool? || v.Int? || v.Float?
  }

  /** `v > 0` for a value that can be compared with 0 (`True` counts as 1). */
  predicate Positive(v: Value)
    requires IsNumber(v)
  {
    match v
    case Bool(b) => b
    case Int(i) => i > 0
    case Float(f) => f > 0.0
  }
}
