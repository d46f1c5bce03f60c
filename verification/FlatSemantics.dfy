// What a program in the native code generator's fragment means: every `let` and
// loop variable is a global, and expressions have no effects.
module FlatSemantics {
  import opened Common
  import opened Ast
  import opened Values

  type Globals = map<string, Value>

  datatype Store = Store(globals: Globals, out: seq<Value>)

  /** How a statement ends.  TimedOut means the loop budget ran out. */
  datatype Outcome =
    | Normal(st: Store)
    | Broke(st: Store)
    | Continued(st: Store)
    | Returned(v: Value, st: Store)
    | Failed
    | TimedOut

  /** Both operands of every operator, `and` and `or` included, are evaluated. */
  function Eval(h: Host, g: Globals, e: Expr): Option<Value>
    decreases e
  {
    match e
    case Absent => Some(NilV)
    case Nil => Some(NilV)
    case Number(n) => Some(NumV(n))
    case Str(t) => Some(StrV(t))
    case Bool(b) => Some(BoolV(b))
    case Variable(x) => if x in g then Some(g[x]) else None
    case Binary(op, left, right) =>
      var a := Eval(h, g, left);
      if a.None? then None
      else
        var b := Eval(h, g, right);
        if b.None? then None else Operate(h, op, a.value, b.value)
    case Index(base, index) =>
      var a := Eval(h, g, base);
      if a.None? then None
      else
        var b := Eval(h, g, index);
        if b.None? then None else IndexValue(h, a.value, b.value)
    case Array(es) => var vs := EvalAll(h, g, es); if vs.None? then None else Some(ArrV(vs.value))
    case Tuple(es) => var vs := EvalAll(h, g, es); if vs.None? then None else Some(ArrV(vs.value))
    case _ => None
  }

  function EvalAll(h: Host, g: Globals, es: seq<Expr>): (r: Option<seq<Value>>)
    ensures r.Some? ==> |r.value| == |es|
    decreases es
  {
    if es == [] then Some([])
    else
      var v := Eval(h, g, es[0]);
      if v.None? then None
      else
        var vs := EvalAll(h, g, es[1..]);
        if vs.None? then None else Some([v.value] + vs.value)
  }

  /** Run one statement with a budget of `fuel` iterations for each `while`. */
  function Exec(h: Host, fuel: nat, s: Stmt, st: Store): Outcome
    decreases fuel, s, 0
  {
    match s
    case Print(e) =>
      var v := Eval(h, st.globals, e);
      if v.None? then Failed else Normal(st.(out := st.out + [v.value]))
    case ExprStmt(e) => if Eval(h, st.globals, e).None? then Failed else Normal(st)
    case Let(x, e) =>
      var v := Eval(h, st.globals, e);
      if v.None? then Failed else Normal(st.(globals := st.globals[x := v.value]))
    case Return(e) =>
      var v := Eval(h, st.globals, e);
      if v.None? then Failed else Returned(v.value, st)
    case Block(body) => ExecAll(h, fuel, body, st)
    case If(e, thn, els) =>
      var v := Eval(h, st.globals, e);
      if v.None? then Failed
      else if Truthy(h, v.value) then ExecAll(h, fuel, thn, st)
      else ExecAll(h, fuel, els, st)
    case While(e, body) =>
      if fuel == 0 then TimedOut
      else
        var v := Eval(h, st.globals, e);
        if v.None? then Failed
        else if !Truthy(h, v.value) then Normal(st)
        else
          var o := ExecAll(h, fuel - 1, body, st);
          (match o
           case Normal(st') => Exec(h, fuel - 1, s, st')
           case Continued(st') => Exec(h, fuel - 1, s, st')
           case Broke(st') => Normal(st')
           case _ => o)
    case For(x, e, body) =>
      var v := Eval(h, st.globals, e);
      if v.None? || LenValue(v.value).None? then Failed
      else ExecEach(h, fuel, x, v.value, 0, body, st)
    case Break => Broke(st)
    case Continue => Continued(st)
    case _ => Failed
  }

  function ExecAll(h: Host, fuel: nat, ss: seq<Stmt>, st: Store): Outcome
    decreases fuel, ss, 0
  {
    if ss == [] then Normal(st)
    else
      var o := Exec(h, fuel, ss[0], st);
      if o.Normal? then ExecAll(h, fuel, ss[1..], o.st) else o
  }

  /** The elements of a sequence or the characters of a string, in order. */
  function ExecEach(h: Host, fuel: nat, x: string, v: Value, i: nat, body: seq<Stmt>, st: Store): Outcome
    requires LenValue(v).Some? && i <= LenValue(v).value
    decreases fuel, body, 1 + LenValue(v).value - i
  {
    if i == LenValue(v).value then Normal(st)
    else
      var o := ExecAll(h, fuel, body, st.(globals := st.globals[x := ElementAt(v, i)]));
      match o
      case Normal(st') => ExecEach(h, fuel, x, v, i + 1, body, st')
      case Continued(st') => ExecEach(h, fuel, x, v, i + 1, body, st')
      case Broke(st') => Normal(st')
      case _ => o
  }
}
