// Run-time values and the operators on them (include/value.h and
// runtime/sage_runtime.h), as far as the code generator and the optimisation
// passes depend on them.
module Values {
  import opened Common
  import opened Ast

  datatype Value =
    | NilV
    | BoolV(b: bool)
    | NumV(d: Double)
    | IntV(i: int)
    | StrV(s: string)
    | ArrV(elems: seq<Value>)
    | FunV(proc: string, sig: Signature, body: seq<Stmt>)
    | NativeV(builtin: string)

  /** Everything the passes treat as given: double arithmetic, which doubles are
      finite, truncation to an index, and every operator on operand kinds the
      passes never look at (None is a run-time error). */
  datatype Host = Host(
    zero: Double,
    one: Double,
    add: (Double, Double) -> Double,
    sub: (Double, Double) -> Double,
    mul: (Double, Double) -> Double,
    div: (Double, Double) -> Double,
    fmod: (Double, Double) -> Double,
    less: (Double, Double) -> bool,
    equal: (Double, Double) -> bool,
    finite: Double -> bool,
    toInt: Double -> int,
    numTruthy: Double -> bool,
    binary: (Op, Value, Value) -> Option<Value>)

  function Truthy(h: Host, v: Value): bool {
    match v
    case NilV => false
    case BoolV(b) => b
    case NumV(d) => h.numTruthy(d)
    case IntV(i) => i != 0
    case StrV(s) => s != ""
    case _ => true
  }

  /** The strict binary operators.  Division and remainder by a zero double, and
      every operand pair not listed, are the host's. */
  function BinaryValue(h: Host, op: Op, a: Value, b: Value): Option<Value> {
    match (op, a, b)
    case (Add, NumV(l), NumV(r)) => Some(NumV(h.add(l, r)))
    case (Sub, NumV(l), NumV(r)) => Some(NumV(h.sub(l, r)))
    case (Mul, NumV(l), NumV(r)) => Some(NumV(h.mul(l, r)))
    case (Div, NumV(l), NumV(r)) => if h.equal(r, h.zero) then h.binary(op, a, b) else Some(NumV(h.div(l, r)))
    case (Mod, NumV(l), NumV(r)) => if h.equal(r, h.zero) then h.binary(op, a, b) else Some(NumV(h.fmod(l, r)))
    case (Lt, NumV(l), NumV(r)) => Some(BoolV(h.less(l, r)))
    case (Gt, NumV(l), NumV(r)) => Some(BoolV(h.less(r, l)))
    case (Le, NumV(l), NumV(r)) => Some(BoolV(h.less(l, r) || h.equal(l, r)))
    case (Ge, NumV(l), NumV(r)) => Some(BoolV(h.less(r, l) || h.equal(l, r)))
    case (Eq, NumV(l), NumV(r)) => Some(BoolV(h.equal(l, r)))
    case (Ne, NumV(l), NumV(r)) => Some(BoolV(!h.equal(l, r)))
    case (Add, StrV(s), StrV(t)) => Some(StrV(s + t))
    case _ => h.binary(op, a, b)
  }

  /** Operators as the native code generator sees them: `and` and `or` combine two
      values already computed. */
  function Operate(h: Host, op: Op, a: Value, b: Value): Option<Value> {
    match op
    case And => Some(BoolV(Truthy(h, a) && Truthy(h, b)))
    case Or => Some(BoolV(Truthy(h, a) || Truthy(h, b)))
    case _ => BinaryValue(h, op, a, b)
  }

  const INT_MAX: int := 0x7fff_ffff

  /** The builtin `len`; C counts are ints. */
  function LenValue(v: Value): Option<nat> {
    match v
    case ArrV(es) => if |es| <= INT_MAX then Some(|es|) else None
    case StrV(s) => if |s| <= INT_MAX then Some(|s|) else None
    case _ => None
  }

  /** What a loop over the value meets at the index. */
  function ElementAt(v: Value, i: nat): Value
    requires LenValue(v).Some? && i < LenValue(v).value
  {
    match v
    case ArrV(es) => es[i]
    case StrV(s) => StrV([s[i]])
  }

  /** `array[i]`: negative indices count from the end, an array index out of
      range is fatal and a string index out of range gives nil. */
  function IndexValue(h: Host, v: Value, i: Value): Option<Value> {
    match (v, i)
    case (ArrV(es), NumV(d)) => ArrayAt(es, h.toInt(d))
    case (ArrV(es), IntV(k)) => ArrayAt(es, k)
    case (StrV(s), NumV(d)) => Some(StringAt(s, h.toInt(d)))
    case (StrV(s), IntV(k)) => Some(StringAt(s, k))
    case _ => None
  }

  function ArrayAt(es: seq<Value>, i: int): Option<Value> {
    var k := if i < 0 then |es| + i else i;
    if 0 <= k < |es| then Some(es[k]) else None
  }

  function StringAt(s: string, i: int): Value {
    var k := if i < 0 then |s| + i else i;
    if 0 <= k < |s| then StrV([s[k]]) else NilV
  }
}
