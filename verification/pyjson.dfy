/** Decoded provider answers as Python sees them after `res.json()`, and the
    handful of Python operations the providers' parsers apply to them. */
module PyJson {
  import opened Wrappers

  datatype Json =
    | Null
    | Bool(b: bool)
    | Num(x: real)
    | Str(s: string)
    | Arr(items: seq<Json>)
    | Obj(fields: map<string, Json>)

  /** The exceptions a parser can raise on a malformed answer. */
  datatype Exc = ValueError | TypeError | KeyError | AttributeError | IndexError

  /** Python truthiness: None, False, 0, "", [] and {} are false. */
  predicate Truthy(v: Json) {
    match v
    case Null => false
    case Bool(b) => b
    case Num(x) => x != 0.0
    case Str(s) => s != ""
    case Arr(a) => a != []
    case Obj(m) => m != map[]
  }

  /** Python's `a or b`. */
  function Or(a: Json, b: Json): Json {
    if Truthy(a) then a else b
  }

  /** Python's `a and b`. */
  function And(a: Json, b: Json): Json {
    if Truthy(a) then b else a
  }

  /** `d.get(k)` on a value already known to be a dict. */
  function Field(m: map<string, Json>, k: string): Json {
    if k in m then m[k] else Null
  }

  /** `d.get(k, default)` on a value already known to be a dict. */
  function FieldOr(m: map<string, Json>, k: string, default: Json): Json {
    if k in m then m[k] else default
  }

  /** `v.get(k)`: only dicts have `.get`. */
  function Get(v: Json, k: string): Result<Json, Exc> {
    if v.Obj? then Ok(Field(v.fields, k)) else Err(AttributeError)
  }

  /** `v[k]` with a string key. */
  function Index(v: Json, k: string): Result<Json, Exc> {
    match v
    case Obj(m) => if k in m then Ok(m[k]) else Err(KeyError)
    case _ => Err(TypeError)
  }

  /** `float(v)`; parsing the text of a string is the oracle `parse`. */
  function ToFloat(v: Json, parse: string -> Option<real>): Result<real, Exc> {
    match v
    case Num(x) => Ok(x)
    case Bool(b) => Ok(if b then 1.0 else 0.0)
    case Str(s) => if parse(s).Some? then Ok(parse(s).value) else Err(ValueError)
    case _ => Err(TypeError)
  }
}
