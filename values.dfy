/**
 * The loosely typed values that travel in request bodies, tool keyword arguments and
 * stored-object dictionaries, with Python's truthiness and `dict.get`.
 */
module Values {
  datatype Value = VNone | VBool(b: bool) | VInt(i: int) | VStr(s: string) | VList(items: seq<string>)

  type Dict = map<string, Value>

  /** `d.get(k)`: a missing key reads as None. */
  function Get(d: Dict, k: string): Value {
    if k in d then d[k] else VNone
  }

  /** `d.get(k, default)`: the default applies only when the key is missing, not when it holds None. */
  function GetOr(d: Dict, k: string, default: Value): Value {
    if k in d then d[k] else default
  }

  /** Python truthiness: None, False, 0, "" and [] are false. */
  predicate Truthy(v: Value) {
    match v
    case VNone => false
    case VBool(b) => b
    case VInt(i) => i != 0
    case VStr(s) => s != ""
    case VList(xs) => xs != []
  }

  /** `v in (None, "")`. */
  predicate NoneOrEmpty(v: Value) {
    v == VNone || v == VStr("")
  }
}
