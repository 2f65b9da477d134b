/**
 * JSON values as they travel over the chat socket, in both directions.
 *
 * An object is a map from keys to values; a key that is absent is different
 * from a key that holds JSON `null` (Python's `dict.get(k, default)` and
 * JavaScript's template strings tell the two apart). Negotiation payloads
 * (session descriptions, ICE candidates) and any other non-empty object or
 * array are opaque `Payload`s.
 */
module Wire {

  datatype Option<+T> = None | Some(value: T)

  datatype Value =
    | Null
    | Bool(b: bool)
    | Num(n: int)
    | Str(s: string)
    | Payload(id: nat)

  type Object = map<string, Value>

  /** Truthiness, which JavaScript and Python agree on for these values. */
  predicate Truthy(v: Value) {
    match v
    case Null => false
    case Bool(b) => b
    case Num(n) => n != 0
    case Str(s) => s != ""
    case Payload(_) => true
  }

  /** Python's `d.get(k, default)`. */
  function GetOr(o: Object, k: string, default: Value): (v: Value)
    ensures k in o ==> v == o[k]
    ensures k !in o ==> v == default
  {
    if k in o then o[k] else default
  }

  /** Reading a property in JavaScript, or `d.get(k)` in Python: a missing key reads as null. */
  function Get(o: Object, k: string): (v: Value)
    ensures v != Null ==> k in o && o[k] == v
  {
    GetOr(o, k, Null)
  }

  predicate StartsWith(s: string, prefix: string) {
    |prefix| <= |s| && s[..|prefix|] == prefix
  }

  lemma StartsWithAppend(p: string, rest: string)
    ensures StartsWith(p + rest, p)
  {
    assert (p + rest)[..|p|] == p;
  }
}
