/** The dynamically typed values that reach the handlers: JSON scalars in a
    request body and the values found in a document's metadata dictionary. */
module Values {

  /** A Python scalar: None, a bool, an int or a str. */
  datatype Value = VNull | VBool(b: bool) | VInt(i: int) | VStr(s: string)

  /** Python truthiness, as used by `if x:` and `not x`: None, False, 0 and ""
      are the falsy scalars, every other scalar is truthy. */
  function Truthy(v: Value): (t: bool)
    ensures !t <==> v in {VNull, VBool(false), VInt(0), VStr("")}
  {
    match v
    case VNull => false
    case VBool(b) => b
    case VInt(i) => i != 0
    case VStr(s) => s != ""
  }

  /** `d.get(key, default)` on a dictionary. */
  function Get(d: map<string, Value>, key: string, default: Value): (v: Value)
    ensures key in d ==> v == d[key]
    ensures key !in d ==> v == default
    ensures v in d.Values || v == default
  {
    if key in d then d[key] else default
  }
}
