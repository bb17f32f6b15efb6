/**
 * Book records as the page sees them: plain JavaScript objects decoded from
 * the server's JSON. A record is a map from field name to a JSON-like value,
 * because the page reads and writes its fields by name (`book.id`,
 * `{ ...f, [name]: value }`) and never checks their types.
 */
module Records {

  datatype Option<+T> = None | Some(value: T)

  /** The field values that occur: JSON scalars, and the text an input yields. */
  datatype Value = Null | Bool(b: bool) | Num(n: int) | Str(s: string)

  type Record = map<string, Value>

  /** JavaScript truthiness of a value (`!!v`). */
  predicate Truthy(v: Value)
  {
    match v
    case Null => false
    case Bool(b) => b
    case Num(n) => n != 0
    case Str(s) => s != ""
  }

  /** `r[k]`, with `undefined` for a missing field. */
  function Lookup(r: Record, k: string): Option<Value>
  {
    if k in r then Some(r[k]) else None
  }

  /** `r[k]` is truthy, so `r[k] || ""` is the field's own value and not the blank fallback. */
  predicate Filled(r: Record, k: string)
  {
    k in r && Truthy(r[k])
  }
}
