/** The dynamically typed values that flow through the client: the payloads
    of XML-RPC calls, record fields and DataFrame cells. */
module PyValues {

  /** A Python value as the client sees it. Floats are opaque: a decimal
      literal `mantissa * 10^exponent` on which the client does no arithmetic.
      Dictionaries have string keys, as XML-RPC structs do. */
  datatype Value =
    | VNone
    | VBool(b: bool)
    | VInt(i: int)
    | VFloat(mantissa: int, exponent: int)
    | VStr(s: string)
    | VList(items: seq<Value>)
    | VTuple(elems: seq<Value>)
    | VDict(entries: map<string, Value>)

  /** Python's truth test (`if value:`): None, False, zero and empty
      containers are false, everything else is true. */
  predicate Truthy(v: Value) {
    match v
    case VNone => false
    case VBool(b) => b
    case VInt(i) => i != 0
    case VFloat(m, _) => m != 0
    case VStr(s) => |s| > 0
    case VList(xs) => |xs| > 0
    case VTuple(xs) => |xs| > 0
    case VDict(m) => |m| > 0
  }

  /** The exceptions the modelled code can raise. */
  datatype PyException =
    | IndexError                     // subscript past the end of a list
    | KeyError(key: string)          // missing dictionary key
    | TypeError(reason: string)      // wrong type or wrong call arity
    | ValueError(reason: string)     // unpacking or conversion failure
    | NotImplementedError            // `execute` met an interactive wizard
    | DatabaseNotDefinedError        // alternate database not configured

  /** Strings as Python values. */
  function Strs(xs: seq<string>): (r: seq<Value>)
    ensures |r| == |xs|
    ensures forall i :: 0 <= i < |xs| ==> r[i] == VStr(xs[i])
  {
    if xs == [] then [] else [VStr(xs[0])] + Strs(xs[1..])
  }
}
