// What the interpreter does with a program, as far as the optimisation passes are
// concerned: scopes, calls, loops and the events the outside world sees
// (src/interpreter.c).
module Semantics {
  import opened Common
  import opened Ast
  import opened Values

  /** A variable; procs, parameters and loop variables cannot be assigned. */
  datatype Binding = Binding(value: Value, fixed: bool)

  type Scope = map<string, Binding>

  /** Something the outside world notices: output, a native call, a change to an
      object. */
  datatype Event = Event(what: string, args: seq<Value>)

  /** The scopes from the global one inwards, and everything that has happened. */
  datatype State = State(scopes: seq<Scope>, trace: seq<Event>)

  /** The outside world: reading it and acting on it depend on what has happened. */
  datatype World = World(
    host: Host,
    look: (seq<Event>, string, seq<Value>) -> Option<Value>,
    act: (seq<Event>, string, seq<Value>) -> Option<Value>)

  /** Threw: a raised exception is on its way to a handler.  Error: what the interpreter
      does is not modelled. */
  datatype Result<T> = Got(value: T, st: State) | Threw(exc: Value, st: State) | Error | OutOfFuel

  datatype Outcome =
    | Normal(st: State)
    | Broke(st: State)
    | Continued(st: State)
    | Returned(v: Value, st: State)
    | Raised(exc: Value, st: State)
    | Failed
    | TimedOut

  // ---------- scopes ----------

  function Lookup(scopes: seq<Scope>, x: string): Option<Value> {
    if scopes == [] then None
    else
      var inner := scopes[|scopes| - 1];
      if x in inner then Some(inner[x].value) else Lookup(scopes[..|scopes| - 1], x)
  }

  /** Bind in the innermost scope; an existing binding keeps its mutability. */
  function Define(scopes: seq<Scope>, x: string, v: Value, fixed: bool): (r: seq<Scope>)
    ensures |r| == |scopes|
  {
    if scopes == [] then []
    else
      var inner := scopes[|scopes| - 1];
      scopes[|scopes| - 1 := inner[x := Binding(v, if x in inner then inner[x].fixed else fixed)]]
  }

  /** Assign to the innermost binding of the name, unless it is constant. */
  function Assign(scopes: seq<Scope>, x: string, v: Value): (r: Option<seq<Scope>>)
    ensures r.Some? ==> |r.value| == |scopes|
  {
    if scopes == [] then None
    else
      var outer, inner := scopes[..|scopes| - 1], scopes[|scopes| - 1];
      if x in inner then
        if inner[x].fixed then None else Some(outer + [inner[x := Binding(v, false)]])
      else
        var r := Assign(outer, x, v);
        if r.None? then None else Some(r.value + [inner])
  }

  function Bind(params: seq<string>, args: seq<Value>): Scope
    requires |params| == |args|
  {
    if params == [] then map[]
    else Bind(params[..|params| - 1], args[..|args| - 1])[params[|params| - 1] := Binding(args[|args| - 1], true)]
  }

  // ---------- outside operations ----------

  function Look(w: World, what: string, args: seq<Value>, st: State): Result<Value> {
    var r := w.look(st.trace, what, args);
    if r.None? then Error else Got(r.value, st)
  }

  function Act(w: World, what: string, args: seq<Value>, st: State): Result<Value> {
    var r := w.act(st.trace, what, args);
    if r.None? then Error else Got(r.value, st.(trace := st.trace + [Event(what, args)]))
  }

  function Pure(r: Option<Value>, st: State): Result<Value> {
    if r.None? then Error else Got(r.value, st)
  }

  /** Both operands are known; unary operators come with a nil right one. */
  function Operated(w: World, op: Op, a: Value, b: Value): Option<Value> {
    match op
    case Not => Some(BoolV(!Truthy(w.host, a)))
    case _ => BinaryValue(w.host, op, a, b)
  }

  // ---------- expressions ----------

  /** The operands of the kinds of node that evaluate them all, from left to right,
      before they do anything else. */
  function Operands(e: Expr): seq<Expr> {
    match e
    case Array(es) => es
    case Tuple(es) => es
    case Dict(_, values) => values
    case Index(base, index) => [base, index]
    case IndexSet(base, index, value) => [base, index, value]
    case Slice(base, start, end) => [base, start, end]
    case Get(obj, _) => [obj]
    case Set(obj, _, value) => [obj, value]
    case Await(operand) => [operand]
    case Unwrap(operand) => [operand]
    case Comptime(operand) => [operand]
    case Range(low, high, _) => [low, high]
    case Interp(_, parts) => parts
    case _ => []
  }

  /** Is this one of those kinds?  Assignment to a variable is not. */
  predicate Plain(e: Expr) {
    !e.Binary? && !e.NullCoal? && !e.OptChain? && !e.Call? && !(e.Set? && e.receiver.Absent?)
  }

  /** The same node with other operands. */
  function Rebuild(e: Expr, es: seq<Expr>): (r: Expr)
    requires |es| == |Operands(e)|
    ensures Plain(e) ==> Operands(r) == es
  {
    match e
    case Array(_) => Array(es)
    case Tuple(_) => Tuple(es)
    case Dict(keys, _) => Dict(keys, es)
    case Index(_, _) => Index(es[0], es[1])
    case IndexSet(_, _, _) => IndexSet(es[0], es[1], es[2])
    case Slice(_, _, _) => Slice(es[0], es[1], es[2])
    case Get(_, property) => Get(es[0], property)
    case Set(_, property, _) => Set(es[0], property, es[1])
    case Await(_) => Await(es[0])
    case Unwrap(_) => Unwrap(es[0])
    case Comptime(_) => Comptime(es[0])
    case Interp(template, _) => Interp(template, es)
    case Range(_, _, inclusive) => Range(es[0], es[1], inclusive)
    case _ => e
  }

  /** What such a node does with the values of its operands. */
  function Finish(w: World, e: Expr, vs: seq<Value>, st: State): Result<Value>
    requires |vs| == |Operands(e)|
  {
    match e
    case Absent => Got(NilV, st)
    case Nil => Got(NilV, st)
    case Number(n) => Got(NumV(n), st)
    case Int(i) => Got(IntV(i), st)
    case Str(s) => Got(StrV(s), st)
    case Bool(b) => Got(BoolV(b), st)
    case Variable(x) => Pure(Lookup(st.scopes, x), st)
    case Array(_) => Got(ArrV(vs), st)
    case Index(_, _) => Pure(IndexValue(w.host, vs[0], vs[1]), st)
    case IndexSet(_, _, _) => Act(w, "[]=", vs, st)
    case Dict(keys, _) => Look(w, "{}", [KeyList(keys)] + vs, st)
    case Tuple(_) => Look(w, "()", vs, st)
    case Slice(_, _, _) => Look(w, "[:]", vs, st)
    case Get(_, property) => Look(w, "." + property, vs, st)
    case Set(_, property, _) => Act(w, "." + property + "=", vs, st)
    case Await(_) => Act(w, "await", vs, st)
    case Range(_, _, inclusive) => Look(w, if inclusive then "..=" else "..", vs, st)
    case Unwrap(_) => Look(w, "unwrap", vs, st)
    case Comptime(_) => Got(vs[0], st)
    case Interp(template, _) => Look(w, "text " + template, vs, st)
    case Super(m) => Act(w, "super." + m, vs, st)
    case _ => Error
  }

  function Eval(w: World, fuel: nat, e: Expr, st: State): Result<Value>
    decreases fuel, 0, Size(e), 0
  {
    if e.Binary? then
      var a := Eval(w, fuel, e.left, st);
      if !a.Got? then a
      else if (e.op == Or && Truthy(w.host, a.value)) || (e.op == And && !Truthy(w.host, a.value)) then
        Got(BoolV(e.op == Or), a.st)
      else
        var b := Eval(w, fuel, e.right, a.st);
        if !b.Got? then b
        else if e.op == Or || e.op == And then Got(BoolV(Truthy(w.host, b.value)), b.st)
        else Pure(Operated(w, e.op, a.value, b.value), b.st)
    else if e.NullCoal? then
      var v := Eval(w, fuel, e.left, st);
      if !v.Got? || v.value != NilV then v else Eval(w, fuel, e.right, v.st)
    else if e.OptChain? then
      var v := Eval(w, fuel, e.receiver, st);
      if !v.Got? || v.value == NilV then v else Look(w, "." + e.member, [v.value], v.st)
    else if e.Call? then
      var f := Eval(w, fuel, Called(e.callee), st);
      if !f.Got? then f
      else if !e.callee.Get? && f.value.FunV? && !Takes(f.value.sig, |e.args|) then Error
      else
        var vs := EvalAll(w, fuel, e.args, f.st);
        if !vs.Got? then Fail(vs)
        else if e.callee.Get? then Act(w, "call ." + e.callee.property, [f.value] + vs.value, vs.st)
        else if f.value.FunV? then
          if fuel == 0 then OutOfFuel else CallProc(w, fuel - 1, f.value, vs.value, vs.st)
        else Act(w, "call", [f.value] + vs.value, vs.st)
    else if e.Set? && e.receiver.Absent? then
      var v := Eval(w, fuel, e.value, st);
      if !v.Got? then v
      else
        var scopes := Assign(v.st.scopes, e.property, v.value);
        if scopes.None? then Error else Got(v.value, v.st.(scopes := scopes.value))
    else
      OperandsSmaller(e);
      var vs := EvalAll(w, fuel, Operands(e), st);
      if vs.Threw? && e.Interp? then Error
      else if !vs.Got? then Fail(vs)
      else Finish(w, e, vs.value, vs.st)
  }

  /** What a call evaluates first: the receiver of a method, or the callee. */
  function Called(callee: Expr): (e: Expr)
    ensures Size(e) <= Size(callee)
  {
    if callee.Get? then callee.receiver else callee
  }

  function KeyList(keys: seq<string>): Value {
    ArrV(seq(|keys|, i requires 0 <= i < |keys| => StrV(keys[i])))
  }

  /** A measure for recursion over operands. */
  function Size(e: Expr): nat
    decreases e, 1
  {
    match e
    case Binary(_, left, right) => 1 + Size(left) + Size(right)
    case NullCoal(left, right) => 1 + Size(left) + Size(right)
    case OptChain(obj, _) => 1 + Size(obj)
    case Call(callee, args) => 1 + Size(callee) + SizeAll(args)
    case Array(es) => 1 + SizeAll(es)
    case Tuple(es) => 1 + SizeAll(es)
    case Dict(_, values) => 1 + SizeAll(values)
    case Index(base, index) => 1 + Size(base) + Size(index)
    case IndexSet(base, index, value) => 1 + Size(base) + Size(index) + Size(value)
    case Slice(base, start, end) => 1 + Size(base) + Size(start) + Size(end)
    case Get(obj, _) => 1 + Size(obj)
    case Set(obj, _, value) => 1 + Size(obj) + Size(value)
    case Await(operand) => 1 + Size(operand)
    case Unwrap(operand) => 1 + Size(operand)
    case Comptime(operand) => 1 + Size(operand)
    case Interp(_, parts) => 1 + SizeAll(parts)
    case Range(low, high, _) => 1 + Size(low) + Size(high)
    case _ => 1
  }

  function SizeAll(es: seq<Expr>): nat
    decreases es, 0
  {
    if es == [] then 0 else Size(es[0]) + SizeAll(es[1..])
  }

  lemma OperandsSmaller(e: Expr)
    ensures SizeAll(Operands(e)) < Size(e)
  {
    ThreeSizes(e, e, e);
    if |Operands(e)| == 1 {
      ThreeSizes(Operands(e)[0], e, e);
    } else if |Operands(e)| == 2 {
      ThreeSizes(Operands(e)[0], Operands(e)[1], e);
    } else if |Operands(e)| == 3 {
      ThreeSizes(Operands(e)[0], Operands(e)[1], Operands(e)[2]);
    }
  }

  lemma ThreeSizes(a: Expr, b: Expr, c: Expr)
    ensures SizeAll([]) == 0 && SizeAll([a]) == Size(a) && SizeAll([a, b]) == Size(a) + Size(b)
    ensures SizeAll([a, b, c]) == Size(a) + Size(b) + Size(c)
  {
    hide Size;
    assert [a, b, c][1..] == [b, c] && [b, c][1..] == [c] && [a, b][1..] == [b];
    assert [c][1..] == [] && [b][1..] == [] && [a][1..] == [];
    assert SizeAll([c]) == Size(c) && SizeAll([b]) == Size(b);
    assert SizeAll([b, c]) == Size(b) + Size(c);
  }

  function Fail<T, U>(r: Result<T>): Result<U> {
    match r
    case Threw(v, st) => Threw(v, st)
    case OutOfFuel => OutOfFuel
    case _ => Error
  }

  function EvalAll(w: World, fuel: nat, es: seq<Expr>, st: State): (r: Result<seq<Value>>)
    ensures r.Got? ==> |r.value| == |es|
    decreases fuel, 0, SizeAll(es), 1 + |es|
  {
    if es == [] then Got([], st)
    else
      var v := Eval(w, fuel, es[0], st);
      if !v.Got? then Fail(v)
      else
        var vs := EvalAll(w, fuel, es[1..], v.st);
        if !vs.Got? then vs else Got([v.value] + vs.value, vs.st)
  }

  /** Evaluate the defaults of missing arguments where the call is, and run the proc. */
  function CallProc(w: World, fuel: nat, f: Value, args: seq<Value>, st: State): Result<Value>
    requires f.FunV? && Takes(f.sig, |args|)
    decreases fuel, 3
  {
    var ds := EvalAll(w, fuel, Missing(f.sig, |args|), st);
    if !ds.Got? then Fail(ds) else RunProc(w, fuel, f, args + ds.value, ds.st)
  }

  /** Run a proc in a fresh scope inside the global one. */
  function RunProc(w: World, fuel: nat, f: Value, args: seq<Value>, st: State): Result<Value>
    requires f.FunV? && |args| == |f.sig.params|
    decreases fuel, 2
  {
    if st.scopes == [] then Error
    else
      match ExecAll(w, fuel, f.body, st.(scopes := [st.scopes[0], Bind(f.sig.params, args)]))
      case Returned(v, st') => Got(v, Back(st, st'))
      case Normal(st') => Got(NilV, Back(st, st'))
      case Broke(st') => Got(NilV, Back(st, st'))
      case Continued(st') => Got(NilV, Back(st, st'))
      case Raised(v, st') => Threw(v, Back(st, st'))
      case Failed => Error
      case TimedOut => OutOfFuel
  }

  /** A call with all its arguments needs no defaults. */
  lemma FullCall(w: World, fuel: nat, f: Value, args: seq<Value>, st: State)
    requires f.FunV? && Takes(f.sig, |args|) && |args| == |f.sig.params|
    ensures CallProc(w, fuel, f, args, st) == RunProc(w, fuel, f, args, st)
  {
    hide RunProc;
    assert Missing(f.sig, |args|) == [] && args + [] == args;
    assert EvalAll(w, fuel, [], st) == Got([], st);
  }

  /** Back in the caller's scopes; the global one may have changed. */
  function Back(caller: State, callee: State): State {
    if callee.scopes == [] || caller.scopes == [] then caller.(trace := callee.trace)
    else State([callee.scopes[0]] + caller.scopes[1..], callee.trace)
  }

  // ---------- statements ----------

  function Exec(w: World, fuel: nat, s: Stmt, st: State): Outcome
    decreases fuel, 1, s, if s.Match? then 1 + 2 * |s.cases| else 0
  {
    match s
    case Print(e) =>
      var v := Eval(w, fuel, e, st);
      if !v.Got? then Stop(v) else Normal(v.st.(trace := v.st.trace + [Event("print", [v.value])]))
    case ExprStmt(e) =>
      var v := Eval(w, fuel, e, st);
      if !v.Got? then Stop(v) else Normal(v.st)
    case Let(x, e) =>
      var v := Eval(w, fuel, e, st);
      if !v.Got? then Stop(v) else Normal(v.st.(scopes := Define(v.st.scopes, x, v.value, false)))
    case Return(e) =>
      var v := Eval(w, fuel, e, st);
      if !v.Got? then Stop(v) else Returned(v.value, v.st)
    case If(e, thn, els) =>
      var v := Eval(w, fuel, e, st);
      if !v.Got? then Stop(v)
      else if Truthy(w.host, v.value) then ExecAll(w, fuel, thn, v.st)
      else ExecAll(w, fuel, els, v.st)
    case Block(body) => ExecAll(w, fuel, body, st)
    case While(e, body) =>
      var v := Eval(w, fuel, e, st);
      if !v.Got? then Stop(v)
      else if !Truthy(w.host, v.value) then Normal(v.st)
      else if fuel == 0 then TimedOut
      else
        var o := ExecAll(w, fuel - 1, body, v.st);
        (match o
         case Normal(st') => Exec(w, fuel - 1, s, st')
         case Continued(st') => Exec(w, fuel - 1, s, st')
         case Broke(st') => Normal(st')
         case _ => o)
    case For(x, e, body) =>
      var v := Eval(w, fuel, e, st);
      if !v.Got? then Stop(v)
      else if LenValue(v.value).None? then Failed
      else
        Unscoped(ExecEach(w, fuel, x, v.value, 0, body, v.st.(scopes := v.st.scopes + [map[]])))
    case Proc(name, sig, body) =>
      if |st.scopes| == 1 then Normal(st.(scopes := Define(st.scopes, name, FunV(name, sig, body), true)))
      else Failed
    case Break => Broke(st)
    case Continue => Continued(st)
    case Class(name, parent, methods) => DefineClass(w, name, parent, methods, st)
    case Raise(e) =>
      var v := Eval(w, fuel, e, st);
      if !v.Got? then Stop(v) else RaiseValue(w, v.value, v.st)
    case Try(block, handlers, final) =>
      AndFinally(w, fuel, final, ExecHandlers(w, fuel, handlers, ExecAll(w, fuel, block, st)))
    case Match(e, _, _) =>
      var v := Eval(w, fuel, e, st);
      if !v.Got? then Stop(v) else ExecCases(w, fuel, s, 0, v.value, v.st)
    case _ => Failed
  }

  function Stop<T>(r: Result<T>): Outcome {
    match r
    case Threw(v, st) => Raised(v, st)
    case OutOfFuel => TimedOut
    case _ => Failed
  }

  /** Did the run come to an end that the model knows? */
  predicate Finished(o: Outcome) { !o.Failed? && !o.TimedOut? }

  // ---------- classes ----------

  /** The methods of a class; other statements in its body are passed over. */
  function MethodsOf(ss: seq<Stmt>): seq<Value> {
    if ss == [] then []
    else
      var s, rest := ss[0], MethodsOf(ss[1..]);
      if s.Proc? then [FunV(s.name, s.sig, s.body)] + rest else rest
  }

  /** The outside makes a class of its parent and its methods. */
  function DefineClass(w: World, name: string, parent: Option<string>, methods: seq<Stmt>, st: State): Outcome {
    var p := if parent.Some? then Lookup(st.scopes, parent.value) else None;
    if (parent.Some? && p.None?) || exists m :: m in methods && m.AsyncProc? then Failed
    else
      var c := Look(w, "class " + name, (if p.Some? then [p.value] else []) + MethodsOf(methods), st);
      if !c.Got? then Failed else Normal(st.(scopes := Define(st.scopes, name, c.value, true)))
  }

  // ---------- exceptions ----------

  /** Strings, numbers and so on are wrapped; what the handler sees is unwrapped again. */
  function RaiseValue(w: World, v: Value, st: State): Outcome {
    var x := Look(w, "exception", [v], st);
    if x.Got? then Raised(x.value, st) else Failed
  }

  /** The handlers in order; one that raises in its turn hands over to the next. */
  function ExecHandlers(w: World, fuel: nat, hs: seq<Handler>, o: Outcome): Outcome
    decreases fuel, 1, hs, 0
  {
    if hs == [] || !o.Raised? then o
    else
      var x := Look(w, "caught", [o.exc], o.st);
      if !x.Got? then Failed
      else
        var st := o.st.(scopes := o.st.scopes + [map[hs[0].variable := Binding(x.value, true)]]);
        ExecHandlers(w, fuel, hs[1..], Unscoped(ExecAll(w, fuel, hs[0].body, st)))
  }

  /** The final block runs however the rest ended, and wins if it jumps itself. */
  function AndFinally(w: World, fuel: nat, final: seq<Stmt>, o: Outcome): Outcome
    decreases fuel, 1, final, 1
  {
    if !Finished(o) then o
    else
      var f := ExecAll(w, fuel, final, o.st);
      if f.Normal? then o.(st := f.st) else f
  }

  // ---------- patterns ----------

  /** What a pattern has evaluated before it is compared. */
  function PatternOperands(pat: Expr): seq<Expr> {
    if pat.Variable? || (pat.Call? && pat.callee.Variable?) then []
    else if pat.Call? && pat.callee.Get? then [pat.callee.receiver]
    else if pat.Get? then [pat.receiver]
    else if pat.Range? then [pat.low, pat.high]
    else [pat]
  }

  datatype PatternKind =
    | Capture(name: string)
    | Tag(name: string)
    | Variant(name: string)
    | Member(name: string)
    | Within(inclusive: bool)
    | Literal

  /** How a pattern is compared: a plain name takes every value, and what is none of the
      special forms is compared with its value. */
  function KindOf(pat: Expr): PatternKind {
    if pat.Variable? then Capture(pat.name)
    else if pat.Call? && pat.callee.Variable? then Tag(pat.callee.name)
    else if pat.Call? && pat.callee.Get? then Variant(pat.callee.property)
    else if pat.Get? then Member(pat.property)
    else if pat.Range? then Within(pat.inclusive)
    else Literal
  }

  function TestName(k: PatternKind): string {
    match k
    case Capture(_) => ""
    case Tag(name) => "tag " + name
    case Variant(name) => "variant " + name
    case Member(name) => "member " + name
    case Within(inclusive) => if inclusive then "..=" else ".."
    case Literal => "equal"
  }

  /** A constructor that is not one of the four built in never matches. */
  predicate NeverMatches(k: PatternKind) { k.Tag? && k.name !in {"Some", "Ok", "Err", "None"} }

  function NameOf(e: Expr): Option<string> { if e.Variable? then Some(e.name) else None }

  function NamesOf(es: seq<Expr>): (r: seq<Option<string>>)
    ensures |r| == |es|
  {
    if es == [] then [] else [NameOf(es[0])] + NamesOf(es[1..])
  }

  /** The names that a match binds, by position. */
  function PatternNames(pat: Expr): seq<Option<string>> {
    if pat.Variable? then if pat.name == "_" then [] else [Some(pat.name)]
    else if pat.Call? && pat.callee.Variable? then
      if |pat.args| == 1 && pat.callee.name != "None" then NamesOf(pat.args) else []
    else if pat.Call? && pat.callee.Get? then NamesOf(pat.args)
    else []
  }

  /** The `n` values to bind, if the pattern matches. */
  function Compare(w: World, k: PatternKind, n: nat, v: Value, vs: seq<Value>, st: State): Result<Option<seq<Value>>> {
    if k.Capture? then Got(Some(if k.name == "_" then [] else [v]), st)
    else if NeverMatches(k) then Got(None, st)
    else
      var r := w.look(st.trace, "match " + TestName(k), [v] + vs);
      if r.None? then Error
      else if r.value.ArrV? && |r.value.elems| == n then Got(Some(r.value.elems), st)
      else Got(None, st)
  }

  function BindNames(names: seq<Option<string>>, vs: seq<Value>): Scope
    requires |names| == |vs|
  {
    if names == [] then map[]
    else
      var n := |names| - 1;
      var s := BindNames(names[..n], vs[..n]);
      if names[n].Some? then s[names[n].value := Binding(vs[n], false)] else s
  }

  function BindMatch(names: seq<Option<string>>, r: Result<Option<seq<Value>>>): Result<Option<Scope>> {
    if !r.Got? then Error
    else if r.value.None? || |r.value.value| != |names| then Got(None, r.st)
    else Got(Some(BindNames(names, r.value.value)), r.st)
  }

  /** The scope of a case that matches.  An exception on the way is modelled only where it
      is passed on. */
  function TryPattern(w: World, fuel: nat, pat: Expr, v: Value, st: State): Result<Option<Scope>>
    decreases fuel, 0, SizeAll(PatternOperands(pat)), 2 + |PatternOperands(pat)|
  {
    var vs := EvalAll(w, fuel, PatternOperands(pat), st);
    if vs.Threw? && KindOf(pat) != Literal then Error
    else if !vs.Got? then Fail(vs)
    else BindMatch(PatternNames(pat), Compare(w, KindOf(pat), |PatternNames(pat)|, v, vs.value, vs.st))
  }

  /** The cases from the `k`-th on, and the default. */
  function ExecCases(w: World, fuel: nat, s: Stmt, k: nat, v: Value, st: State): Outcome
    requires s.Match? && k <= |s.cases|
    decreases fuel, 1, s, 2 * (|s.cases| - k)
  {
    if k == |s.cases| then ExecAll(w, fuel, s.default, st)
    else
      var m := TryPattern(w, fuel, s.cases[k].pattern, v, st);
      if !m.Got? then Stop(m)
      else if m.value.None? then ExecCases(w, fuel, s, k + 1, v, m.st)
      else ExecCase(w, fuel, s, k, v, Push(m.st, m.value.value))
  }

  /** A case whose pattern matches; the guard may still send the value on. */
  function ExecCase(w: World, fuel: nat, s: Stmt, k: nat, v: Value, st: State): Outcome
    requires s.Match? && k < |s.cases|
    decreases fuel, 1, s, 2 * (|s.cases| - k) - 1
  {
    var c := s.cases[k];
    if c.guard.Absent? then Unscoped(ExecAll(w, fuel, c.body, st))
    else
      var g := Eval(w, fuel, c.guard, st);
      if !g.Got? then Unscoped(Stop(g))
      else if !Truthy(w.host, g.value) then ExecCases(w, fuel, s, k + 1, v, DropScope(g.st))
      else Unscoped(ExecAll(w, fuel, c.body, g.st))
  }

  function Push(st: State, s: Scope): State { st.(scopes := st.scopes + [s]) }

  function DropScope(st: State): State {
    if st.scopes == [] then st else st.(scopes := st.scopes[..|st.scopes| - 1])
  }

  function Unscoped(o: Outcome): Outcome {
    if Finished(o) then o.(st := DropScope(o.st)) else o
  }

  function ExecAll(w: World, fuel: nat, ss: seq<Stmt>, st: State): Outcome
    decreases fuel, 1, ss, 0
  {
    if ss == [] then Normal(st)
    else
      var o := Exec(w, fuel, ss[0], st);
      if o.Normal? then ExecAll(w, fuel, ss[1..], o.st) else o
  }

  /** The iterations of a `for` from element `i` on, in the loop's own scope. */
  function ExecEach(w: World, fuel: nat, x: string, v: Value, i: nat, body: seq<Stmt>, st: State): Outcome
    requires LenValue(v).Some? && i <= LenValue(v).value
    decreases fuel, 1, body, 1 + LenValue(v).value - i
  {
    if i == LenValue(v).value then Normal(st)
    else
      match ExecAll(w, fuel, body, st.(scopes := Define(st.scopes, x, ElementAt(v, i), true)))
      case Normal(st') => ExecEach(w, fuel, x, v, i + 1, body, st')
      case Continued(st') => ExecEach(w, fuel, x, v, i + 1, body, st')
      case Broke(st') => Normal(st')
      case Returned(r, st') => Returned(r, st')
      case Raised(r, st') => Raised(r, st')
      case Failed => Failed
      case TimedOut => TimedOut
  }
}
