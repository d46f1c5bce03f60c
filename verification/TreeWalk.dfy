// Everything that is in a tree, without regard to which stage looks at it.
module TreeWalk {
  import opened Common
  import opened Ast

  /** An expression and all expressions inside it. */
  function Nodes(e: Expr): set<Expr>
    decreases e, 1
  {
    {e} +
    match e
    case Binary(_, left, right) => Nodes(left) + Nodes(right)
    case NullCoal(left, right) => Nodes(left) + Nodes(right)
    case Call(callee, args) => Nodes(callee) + NodesOf(args)
    case Array(es) => NodesOf(es)
    case Tuple(es) => NodesOf(es)
    case Dict(_, values) => NodesOf(values)
    case Index(base, index) => Nodes(base) + Nodes(index)
    case IndexSet(base, index, value) => Nodes(base) + Nodes(index) + Nodes(value)
    case Slice(base, start, end) => Nodes(base) + Nodes(start) + Nodes(end)
    case Get(obj, _) => Nodes(obj)
    case Set(obj, _, value) => Nodes(obj) + Nodes(value)
    case OptChain(obj, _) => Nodes(obj)
    case Await(operand) => Nodes(operand)
    case Unwrap(operand) => Nodes(operand)
    case Comptime(operand) => Nodes(operand)
    case Range(low, high, _) => Nodes(low) + Nodes(high)
    case Interp(_, parts) => NodesOf(parts)
    case _ => {}
  }

  function NodesOf(es: seq<Expr>): set<Expr>
    decreases es, 0
  {
    if es == [] then {} else Nodes(es[0]) + NodesOf(es[1..])
  }

  /** The expressions of a statement and of all statements inside it. */
  function ExprsOf(s: Stmt): set<Expr>
    decreases s, 1
  {
    match s
    case Print(e) => {e}
    case ExprStmt(e) => {e}
    case Let(_, e) => {e}
    case Return(e) => {e}
    case Raise(e) => {e}
    case Yield(e) => {e}
    case If(e, thn, els) => {e} + ExprsIn(thn) + ExprsIn(els)
    case While(e, body) => {e} + ExprsIn(body)
    case For(_, e, body) => {e} + ExprsIn(body)
    case Match(e, cases, default) => {e} + ExprsInCases(cases) + ExprsIn(default)
    case Try(block, handlers, final) => ExprsIn(block) + ExprsInHandlers(handlers) + ExprsIn(final)
    case Proc(_, sig, body) => (set e | e in sig.defaults) + ExprsIn(body)
    case AsyncProc(_, sig, body) => (set e | e in sig.defaults) + ExprsIn(body)
    case Class(_, _, methods) => ExprsIn(methods)
    case Impl(methods) => ExprsIn(methods)
    case Block(body) => ExprsIn(body)
    case Defer(body) => ExprsIn(body)
    case Annotated(body) => ExprsIn(body)
    case ComptimeBlock(body) => ExprsIn(body)
    case Spawn(body) => ExprsIn(body)
    case _ => {}
  }

  function ExprsIn(ss: seq<Stmt>): set<Expr>
    decreases ss, 0
  {
    if ss == [] then {} else ExprsOf(ss[0]) + ExprsIn(ss[1..])
  }

  function ExprsInCases(cs: seq<Case>): set<Expr>
    decreases cs, 0
  {
    if cs == [] then {} else {cs[0].pattern, cs[0].guard} + ExprsIn(cs[0].body) + ExprsInCases(cs[1..])
  }

  function ExprsInHandlers(hs: seq<Handler>): set<Expr>
    decreases hs, 0
  {
    if hs == [] then {} else ExprsIn(hs[0].body) + ExprsInHandlers(hs[1..])
  }

  /** A statement and all statements inside it. */
  function StmtsOf(s: Stmt): set<Stmt>
    decreases s, 1
  {
    {s} +
    match s
    case If(_, thn, els) => StmtsIn(thn) + StmtsIn(els)
    case While(_, body) => StmtsIn(body)
    case For(_, _, body) => StmtsIn(body)
    case Match(_, cases, default) => StmtsInCases(cases) + StmtsIn(default)
    case Try(block, handlers, final) => StmtsIn(block) + StmtsInHandlers(handlers) + StmtsIn(final)
    case Proc(_, _, body) => StmtsIn(body)
    case AsyncProc(_, _, body) => StmtsIn(body)
    case Class(_, _, methods) => StmtsIn(methods)
    case Impl(methods) => StmtsIn(methods)
    case Block(body) => StmtsIn(body)
    case Defer(body) => StmtsIn(body)
    case Annotated(body) => StmtsIn(body)
    case ComptimeBlock(body) => StmtsIn(body)
    case Spawn(body) => StmtsIn(body)
    case _ => {}
  }

  function StmtsIn(ss: seq<Stmt>): set<Stmt>
    decreases ss, 0
  {
    if ss == [] then {} else StmtsOf(ss[0]) + StmtsIn(ss[1..])
  }

  function StmtsInCases(cs: seq<Case>): set<Stmt>
    decreases cs, 0
  {
    if cs == [] then {} else StmtsIn(cs[0].body) + StmtsInCases(cs[1..])
  }

  function StmtsInHandlers(hs: seq<Handler>): set<Stmt>
    decreases hs, 0
  {
    if hs == [] then {} else StmtsIn(hs[0].body) + StmtsInHandlers(hs[1..])
  }

  /** All expressions of a program, at any depth. */
  function NodesIn(program: seq<Stmt>): set<Expr> {
    set e, n | e in ExprsIn(program) && n in Nodes(e) :: n
  }

  /** The variables that a program reads anywhere. */
  function Reads(program: seq<Stmt>): set<string> {
    set n | n in NodesIn(program) && n.Variable? :: n.name
  }

  /** The variables that it assigns. */
  function Assigns(program: seq<Stmt>): set<string> {
    set n | n in NodesIn(program) && n.Set? && n.receiver.Absent? :: n.property
  }

  lemma {:induction false} StmtInList(ss: seq<Stmt>, s: Stmt)
    requires s in ss
    ensures StmtsOf(s) <= StmtsIn(ss) && ExprsOf(s) <= ExprsIn(ss) && s in StmtsOf(s)
  {
    if s != ss[0] { StmtInList(ss[1..], s); }
  }
}
