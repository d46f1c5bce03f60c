// Constant folding (src/constfold.c).
module ConstFold {
  import opened Common
  import opened Ast
  import opened Values

  const FOLD_MAX: nat := 65536

  /** The literal that replaces an operator on two number literals, if any. */
  function FoldNumbers(h: Host, op: Op, l: Double, r: Double): Option<Expr> {
    match op
    case Add => Finite(h, h.add(l, r))
    case Sub => Finite(h, h.sub(l, r))
    case Mul => Finite(h, h.mul(l, r))
    case Div => if h.equal(r, h.zero) then None else Finite(h, h.div(l, r))
    case Mod => if h.equal(r, h.zero) then None else Finite(h, h.fmod(l, r))
    case Lt => Some(Bool(h.less(l, r)))
    case Gt => Some(Bool(h.less(r, l)))
    case Le => Some(Bool(h.less(l, r) || h.equal(l, r)))
    case Ge => Some(Bool(h.less(r, l) || h.equal(l, r)))
    case Eq => Some(Bool(h.equal(l, r)))
    case Ne => Some(Bool(!h.equal(l, r)))
    case _ => None
  }

  /** Infinities and NaN are left to the run time. */
  function Finite(h: Host, d: Double): Option<Expr> {
    if h.finite(d) then Some(Number(d)) else None
  }

  /** The literal that replaces an operator on two folded operands, if any. */
  function FoldLiterals(h: Host, op: Op, l: Expr, r: Expr): Option<Expr> {
    match (l, r)
    case (Number(a), Number(b)) => FoldNumbers(h, op, a, b)
    case (Str(a), Str(b)) => if op == Add && |a| + |b| <= FOLD_MAX then Some(Str(a + b)) else None
    case (Bool(a), Bool(b)) =>
      if op == And then Some(Bool(a && b)) else if op == Or then Some(Bool(a || b)) else None
    case _ => None
  }

  function FoldBinary(h: Host, op: Op, l: Expr, r: Expr): Expr {
    var lit := FoldLiterals(h, op, l, r);
    if lit.Some? then lit.value else Binary(op, l, r)
  }

  function FoldExpr(h: Host, e: Expr): Expr
    decreases e, 1
  {
    match e
    case Binary(op, left, right) => FoldBinary(h, op, FoldExpr(h, left), FoldExpr(h, right))
    case Call(callee, args) => Call(FoldExpr(h, callee), FoldExprs(h, args))
    case Array(es) => Array(FoldExprs(h, es))
    case Index(base, index) => Index(FoldExpr(h, base), FoldExpr(h, index))
    case IndexSet(base, index, value) => IndexSet(FoldExpr(h, base), FoldExpr(h, index), FoldExpr(h, value))
    case Dict(keys, values) => Dict(keys, FoldExprs(h, values))
    case Tuple(es) => Tuple(FoldExprs(h, es))
    case Slice(base, start, end) => Slice(FoldExpr(h, base), FoldExpr(h, start), FoldExpr(h, end))
    case Get(obj, property) => Get(FoldExpr(h, obj), property)
    case Set(obj, property, value) => Set(FoldExpr(h, obj), property, FoldExpr(h, value))
    case _ => e
  }

  function FoldExprs(h: Host, es: seq<Expr>): (r: seq<Expr>)
    ensures |r| == |es|
    decreases es, 0
  {
    if es == [] then [] else [FoldExpr(h, es[0])] + FoldExprs(h, es[1..])
  }

  /** An `if` on a literal becomes a block, a loop on `false` an empty expression. */
  function FoldStmt(h: Host, s: Stmt): Stmt
    decreases s, 1
  {
    match s
    case Print(e) => Print(FoldExpr(h, e))
    case ExprStmt(e) => ExprStmt(FoldExpr(h, e))
    case Let(x, e) => Let(x, FoldExpr(h, e))
    case If(e, thn, els) =>
      var cond := FoldExpr(h, e);
      if cond == Bool(true) then Block(FoldStmts(h, thn))
      else if cond == Bool(false) then
        if els == [] then ExprStmt(Nil) else Block(FoldStmts(h, els))
      else If(cond, FoldStmts(h, thn), FoldStmts(h, els))
    case Block(body) => Block(FoldStmts(h, body))
    case While(e, body) =>
      var cond := FoldExpr(h, e);
      if cond == Bool(false) then ExprStmt(Nil) else While(cond, FoldStmts(h, body))
    case Proc(name, sig, body) => Proc(name, sig, FoldStmts(h, body))
    case For(x, e, body) => For(x, FoldExpr(h, e), FoldStmts(h, body))
    case Return(e) => Return(FoldExpr(h, e))
    case Class(name, parent, methods) => Class(name, parent, FoldStmts(h, methods))
    case Match(e, cases, default) => Match(FoldExpr(h, e), FoldCases(h, cases), FoldStmts(h, default))
    case Try(block, handlers, final) =>
      Try(FoldStmts(h, block), FoldHandlers(h, handlers), FoldStmts(h, final))
    case Raise(e) => Raise(FoldExpr(h, e))
    case Yield(e) => Yield(FoldExpr(h, e))
    case _ => s
  }

  function FoldStmts(h: Host, ss: seq<Stmt>): (r: seq<Stmt>)
    ensures |r| == |ss|
    decreases ss, 0
  {
    if ss == [] then [] else [FoldStmt(h, ss[0])] + FoldStmts(h, ss[1..])
  }

  function FoldCases(h: Host, cs: seq<Case>): (r: seq<Case>)
    ensures |r| == |cs|
    decreases cs, 0
  {
    if cs == [] then []
    else [Case(FoldExpr(h, cs[0].pattern), cs[0].guard, FoldStmts(h, cs[0].body))] + FoldCases(h, cs[1..])
  }

  function FoldHandlers(h: Host, hs: seq<Handler>): (r: seq<Handler>)
    ensures |r| == |hs|
    decreases hs, 0
  {
    if hs == [] then []
    else [Handler(hs[0].variable, FoldStmts(h, hs[0].body))] + FoldHandlers(h, hs[1..])
  }

  // ---------- folding twice ----------

  lemma FoldBinaryTwice(h: Host, op: Op, l: Expr, r: Expr)
    requires FoldExpr(h, l) == l && FoldExpr(h, r) == r
    ensures FoldExpr(h, FoldBinary(h, op, l, r)) == FoldBinary(h, op, l, r)
  {
  }

  /** Folding a folded expression changes nothing. */
  lemma {:induction false} FoldExprTwice(h: Host, e: Expr)
    ensures FoldExpr(h, FoldExpr(h, e)) == FoldExpr(h, e)
    decreases e, 1
  {
    match e
    case Binary(op, left, right) =>
      FoldExprTwice(h, left);
      FoldExprTwice(h, right);
      FoldBinaryTwice(h, op, FoldExpr(h, left), FoldExpr(h, right));
    case Call(callee, args) =>
      FoldExprTwice(h, callee);
      FoldExprsTwice(h, args);
    case Array(es) => FoldExprsTwice(h, es);
    case Index(base, index) =>
      FoldExprTwice(h, base);
      FoldExprTwice(h, index);
    case IndexSet(base, index, value) =>
      FoldExprTwice(h, base);
      FoldExprTwice(h, index);
      FoldExprTwice(h, value);
    case Dict(keys, values) => FoldExprsTwice(h, values);
    case Tuple(es) => FoldExprsTwice(h, es);
    case Slice(base, start, end) =>
      FoldExprTwice(h, base);
      FoldExprTwice(h, start);
      FoldExprTwice(h, end);
    case Get(obj, property) => FoldExprTwice(h, obj);
    case Set(obj, property, value) =>
      FoldExprTwice(h, obj);
      FoldExprTwice(h, value);
    case _ =>
  }

  lemma {:induction false} FoldExprsTwice(h: Host, es: seq<Expr>)
    ensures FoldExprs(h, FoldExprs(h, es)) == FoldExprs(h, es)
    decreases es, 0
  {
    if es != [] {
      FoldExprTwice(h, es[0]);
      FoldExprsTwice(h, es[1..]);
      assert FoldExprs(h, es)[1..] == FoldExprs(h, es[1..]);
    }
  }

  lemma FoldNil(h: Host)
    ensures FoldExpr(h, Nil) == Nil
  {
  }

  lemma FoldIfTwice(h: Host, e: Expr, thn: seq<Stmt>, els: seq<Stmt>)
    requires FoldExpr(h, FoldExpr(h, e)) == FoldExpr(h, e)
    requires FoldStmts(h, FoldStmts(h, thn)) == FoldStmts(h, thn)
    requires FoldStmts(h, FoldStmts(h, els)) == FoldStmts(h, els)
    ensures FoldStmt(h, FoldStmt(h, If(e, thn, els))) == FoldStmt(h, If(e, thn, els))
  {
    assert FoldExpr(h, Nil) == Nil;
    hide FoldExpr, FoldStmts;
  }

  /** Folding a folded program changes nothing. */
  lemma {:induction false} FoldStmtTwice(h: Host, s: Stmt)
    ensures FoldStmt(h, FoldStmt(h, s)) == FoldStmt(h, s)
    decreases s, 1
  {
    hide FoldExpr, FoldStmts, FoldCases, FoldHandlers;
    match s
    case Print(e) => FoldExprTwice(h, e);
    case ExprStmt(e) => FoldExprTwice(h, e);
    case Let(x, e) => FoldExprTwice(h, e);
    case If(e, thn, els) =>
      FoldExprTwice(h, e);
      FoldStmtsTwice(h, thn);
      FoldStmtsTwice(h, els);
      FoldIfTwice(h, e, thn, els);
    case Block(body) => FoldStmtsTwice(h, body);
    case While(e, body) =>
      FoldExprTwice(h, e);
      FoldStmtsTwice(h, body);
      FoldNil(h);
    case Proc(name, sig, body) => FoldStmtsTwice(h, body);
    case For(x, e, body) =>
      FoldExprTwice(h, e);
      FoldStmtsTwice(h, body);
    case Return(e) => FoldExprTwice(h, e);
    case Class(_, _, methods) => FoldStmtsTwice(h, methods);
    case Match(e, cases, default) =>
      FoldExprTwice(h, e);
      FoldCasesTwice(h, cases);
      FoldStmtsTwice(h, default);
    case Try(block, handlers, final) =>
      FoldStmtsTwice(h, block);
      FoldHandlersTwice(h, handlers);
      FoldStmtsTwice(h, final);
    case Raise(e) => FoldExprTwice(h, e);
    case Yield(e) => FoldExprTwice(h, e);
    case _ =>
  }

  lemma {:induction false} FoldStmtsTwice(h: Host, ss: seq<Stmt>)
    ensures FoldStmts(h, FoldStmts(h, ss)) == FoldStmts(h, ss)
    decreases ss, 0
  {
    if ss != [] {
      FoldStmtTwice(h, ss[0]);
      FoldStmtsTwice(h, ss[1..]);
      assert FoldStmts(h, ss)[1..] == FoldStmts(h, ss[1..]);
    }
  }

  lemma {:induction false} FoldCasesTwice(h: Host, cs: seq<Case>)
    ensures FoldCases(h, FoldCases(h, cs)) == FoldCases(h, cs)
    decreases cs, 0
  {
    if cs != [] {
      FoldExprTwice(h, cs[0].pattern);
      FoldStmtsTwice(h, cs[0].body);
      FoldCasesTwice(h, cs[1..]);
      assert FoldCases(h, cs)[1..] == FoldCases(h, cs[1..]);
    }
  }

  lemma {:induction false} FoldHandlersTwice(h: Host, hs: seq<Handler>)
    ensures FoldHandlers(h, FoldHandlers(h, hs)) == FoldHandlers(h, hs)
    decreases hs, 0
  {
    if hs != [] {
      FoldStmtsTwice(h, hs[0].body);
      FoldHandlersTwice(h, hs[1..]);
      assert FoldHandlers(h, hs)[1..] == FoldHandlers(h, hs[1..]);
    }
  }

  // ---------- the pass itself ----------

  /** fold_binary, on operands already folded. */
  method FoldOperator(h: Host, op: Op, left: Expr, right: Expr) returns (r: Expr)
    ensures r == FoldBinary(h, op, left, right)
  {
    r := Binary(op, left, right);
    if left.Number? && right.Number? {
      var a, b := left.n, right.n;
      var result: Option<Double> := None;
      match op {
        case Add => result := Some(h.add(a, b));
        case Sub => result := Some(h.sub(a, b));
        case Mul => result := Some(h.mul(a, b));
        case Div =>
          if h.equal(b, h.zero) { return; }
          result := Some(h.div(a, b));
        case Mod =>
          if h.equal(b, h.zero) { return; }
          result := Some(h.fmod(a, b));
        case Lt => return Bool(h.less(a, b));
        case Gt => return Bool(h.less(b, a));
        case Le => return Bool(h.less(a, b) || h.equal(a, b));
        case Ge => return Bool(h.less(b, a) || h.equal(a, b));
        case Eq => return Bool(h.equal(a, b));
        case Ne => return Bool(!h.equal(a, b));
        case _ => return;
      }
      if h.finite(result.value) { r := Number(result.value); }
    } else if left.Str? && right.Str? {
      if op == Add && |left.s| + |right.s| <= FOLD_MAX { r := Str(left.s + right.s); }
    } else if left.Bool? && right.Bool? {
      if op == And { r := Bool(left.b && right.b); }
      else if op == Or { r := Bool(left.b || right.b); }
    }
  }

  /** fold_expr. */
  method FoldNode(h: Host, e: Expr) returns (r: Expr)
    ensures r == FoldExpr(h, e)
    decreases e, 1
  {
    hide FoldExprs, FoldBinary;
    r := e;
    match e
    case Binary(op, left, right) =>
      var a := FoldNode(h, left);
      var b := FoldNode(h, right);
      r := FoldOperator(h, op, a, b);
    case Call(callee, args) =>
      var es := FoldNodes(h, args);
      var c := FoldNode(h, callee);
      r := Call(c, es);
    case Array(elems) =>
      var es := FoldNodes(h, elems);
      r := Array(es);
    case Index(base, index) =>
      var a := FoldNode(h, base);
      var b := FoldNode(h, index);
      r := Index(a, b);
    case IndexSet(base, index, value) =>
      var a := FoldNode(h, base);
      var b := FoldNode(h, index);
      var c := FoldNode(h, value);
      r := IndexSet(a, b, c);
    case Dict(keys, values) =>
      var es := FoldNodes(h, values);
      r := Dict(keys, es);
    case Tuple(elems) =>
      var es := FoldNodes(h, elems);
      r := Tuple(es);
    case Slice(base, start, end) =>
      var a := FoldNode(h, base);
      var b := FoldNode(h, start);
      var c := FoldNode(h, end);
      r := Slice(a, b, c);
    case Get(obj, property) =>
      var a := FoldNode(h, obj);
      r := Get(a, property);
    case Set(obj, property, value) =>
      var a := FoldNode(h, obj);
      var b := FoldNode(h, value);
      r := Set(a, property, b);
    case _ =>
  }

  /** Children are folded in place, one after the other. */
  method FoldNodes(h: Host, xs: seq<Expr>) returns (r: seq<Expr>)
    ensures r == FoldExprs(h, xs)
    decreases xs, 0
  {
    hide FoldExpr, FoldStmt;
    r := xs;
    for i := 0 to |xs|
      invariant |r| == |xs| && r[i..] == xs[i..]
      invariant forall k | 0 <= k < i :: r[k] == FoldExprs(h, xs)[k]
    {
      FoldExprsAt(h, xs, i);
      var x := FoldNode(h, xs[i]);
      r := r[i := x];
    }
  }

  lemma {:induction false} FoldExprsAt(h: Host, xs: seq<Expr>, i: nat)
    requires i < |xs|
    ensures FoldExprs(h, xs)[i] == FoldExpr(h, xs[i])
  {
    if i > 0 {
      FoldExprsAt(h, xs[1..], i - 1);
    }
  }

  /** fold_stmt. */
  method FoldStatement(h: Host, s: Stmt) returns (r: Stmt)
    ensures r == FoldStmt(h, s)
    decreases s, 1
  {
    hide FoldExpr, FoldStmts, FoldCases, FoldHandlers;
    r := s;
    if s.Print? || s.ExprStmt? || s.Return? || s.Raise? || s.Yield? {
      var c := FoldNode(h, s.e);
      r := s.(e := c);
    } else if s.Let? {
      var c := FoldNode(h, s.init);
      r := Let(s.name, c);
    } else if s.If? {
      var c := FoldNode(h, s.cond);
      var t := FoldStatements(h, s.thn);
      var f := FoldStatements(h, s.els);
      r := If(c, t, f);
      if c.Bool? {
        if c.b {
          r := Block(t);
        } else if f != [] {
          r := Block(f);
        } else {
          r := ExprStmt(Nil);
        }
      }
    } else if s.Block? {
      var b := FoldStatements(h, s.body);
      r := Block(b);
    } else if s.While? {
      var c := FoldNode(h, s.cond);
      var b := FoldStatements(h, s.body);
      r := if c == Bool(false) then ExprStmt(Nil) else While(c, b);
    } else if s.Proc? {
      var b := FoldStatements(h, s.body);
      r := Proc(s.name, s.sig, b);
    } else if s.For? {
      var c := FoldNode(h, s.iterable);
      var b := FoldStatements(h, s.body);
      r := For(s.variable, c, b);
    } else if s.Class? {
      var b := FoldStatements(h, s.methods);
      r := Class(s.name, s.parent, b);
    } else if s.Match? {
      var c := FoldNode(h, s.value);
      var cs := FoldCaseList(h, s.cases);
      var d := FoldStatements(h, s.default);
      r := Match(c, cs, d);
    } else if s.Try? {
      var b := FoldStatements(h, s.block);
      var hs := FoldHandlerList(h, s.handlers);
      var f := FoldStatements(h, s.final);
      r := Try(b, hs, f);
    }
  }

  /** fold_stmt_list. */
  method FoldStatements(h: Host, xs: seq<Stmt>) returns (r: seq<Stmt>)
    ensures r == FoldStmts(h, xs)
    decreases xs, 0
  {
    hide FoldExpr, FoldStmt;
    r := xs;
    for i := 0 to |xs|
      invariant |r| == |xs| && r[i..] == xs[i..]
      invariant forall k | 0 <= k < i :: r[k] == FoldStmts(h, xs)[k]
    {
      FoldStmtsAt(h, xs, i);
      var x := FoldStatement(h, xs[i]);
      r := r[i := x];
    }
  }

  lemma {:induction false} FoldStmtsAt(h: Host, xs: seq<Stmt>, i: nat)
    requires i < |xs|
    ensures FoldStmts(h, xs)[i] == FoldStmt(h, xs[i])
  {
    if i > 0 {
      FoldStmtsAt(h, xs[1..], i - 1);
    }
  }

  /** The cases of a match. */
  method FoldCaseList(h: Host, xs: seq<Case>) returns (r: seq<Case>)
    ensures r == FoldCases(h, xs)
    decreases xs, 0
  {
    hide FoldExpr, FoldStmt;
    r := xs;
    for i := 0 to |xs|
      invariant |r| == |xs| && r[i..] == xs[i..]
      invariant forall k | 0 <= k < i :: r[k] == FoldCases(h, xs)[k]
    {
      FoldCasesAt(h, xs, i);
      var c := FoldNode(h, xs[i].pattern);
      var b := FoldStatements(h, xs[i].body);
      r := r[i := Case(c, xs[i].guard, b)];
    }
  }

  lemma {:induction false} FoldCasesAt(h: Host, xs: seq<Case>, i: nat)
    requires i < |xs|
    ensures FoldCases(h, xs)[i] == Case(FoldExpr(h, xs[i].pattern), xs[i].guard, FoldStmts(h, xs[i].body))
  {
    if i > 0 {
      FoldCasesAt(h, xs[1..], i - 1);
    }
  }

  /** The handlers of a try. */
  method FoldHandlerList(h: Host, xs: seq<Handler>) returns (r: seq<Handler>)
    ensures r == FoldHandlers(h, xs)
    decreases xs, 0
  {
    hide FoldExpr, FoldStmt;
    r := xs;
    for i := 0 to |xs|
      invariant |r| == |xs| && r[i..] == xs[i..]
      invariant forall k | 0 <= k < i :: r[k] == FoldHandlers(h, xs)[k]
    {
      FoldHandlersAt(h, xs, i);
      var b := FoldStatements(h, xs[i].body);
      r := r[i := Handler(xs[i].variable, b)];
    }
  }

  lemma {:induction false} FoldHandlersAt(h: Host, xs: seq<Handler>, i: nat)
    requires i < |xs|
    ensures FoldHandlers(h, xs)[i] == Handler(xs[i].variable, FoldStmts(h, xs[i].body))
  {
    if i > 0 {
      FoldHandlersAt(h, xs[1..], i - 1);
    }
  }
}
