// What constant folding leaves: no operator that could have been computed.
module Folded {
  import opened Common
  import opened Ast
  import opened Values
  import opened ConstFold

  // ---------- constants ----------

  /** Operators on literals are computed, except `and` and `or` of numbers, results that are
      no finite number, and strings that would get longer than 65536. */
  predicate IsComputed(h: Host, op: Op, a: Value, b: Value) {
    match (a, b)
    case (NumV(l), NumV(r)) =>
      || op in {Lt, Gt, Le, Ge, Eq, Ne}
      || (op in {Add, Sub, Mul} && IsFinite(h, BinaryValue(h, op, a, b)))
      || (op in {Div, Mod} && !h.equal(r, h.zero) && IsFinite(h, BinaryValue(h, op, a, b)))
    case (StrV(s), StrV(t)) => op == Add && |s| + |t| <= 65536
    case (BoolV(_), BoolV(_)) => op == And || op == Or
    case _ => false
  }

  predicate IsFinite(h: Host, v: Option<Value>) { v.Some? && v.value.NumV? && h.finite(v.value.d) }

  /** The run-time value of an expression made of literals only. */
  function ConstValue(h: Host, e: Expr): Option<Value> {
    match e
    case Number(n) => Some(NumV(n))
    case Str(s) => Some(StrV(s))
    case Bool(b) => Some(BoolV(b))
    case Binary(op, left, right) =>
      var a, b := ConstValue(h, left), ConstValue(h, right);
      if a.Some? && b.Some? && IsComputed(h, op, a.value, b.value) then Operate(h, op, a.value, b.value) else None
    case _ => None
  }

  function LiteralOf(v: Value): Option<Expr> {
    match v
    case NumV(d) => Some(Number(d))
    case StrV(s) => Some(Str(s))
    case BoolV(b) => Some(Bool(b))
    case _ => None
  }

  predicate IsLiteral(e: Expr) { e.Number? || e.Str? || e.Bool? }

  /** Folding turns exactly the constant expressions into literals: those of their values. */
  lemma {:induction false} ConstantIff(h: Host, e: Expr)
    ensures var c := ConstValue(h, e);
            && (IsLiteral(FoldExpr(h, e)) <==> c.Some?)
            && (c.Some? ==> LiteralOf(c.value) == Some(FoldExpr(h, e)))
  {
    if e.Binary? {
      ConstantIff(h, e.left);
      ConstantIff(h, e.right);
      var a, b := ConstValue(h, e.left), ConstValue(h, e.right);
      var l, r := FoldExpr(h, e.left), FoldExpr(h, e.right);
      if a.Some? && b.Some? {
        LiteralsIff(h, e.op, a.value, b.value, l, r);
        hide IsComputed, Operate, FoldLiterals, LiteralOf;
      } else {
        assert FoldLiterals(h, e.op, l, r).None?;
        hide IsComputed, Operate, FoldLiterals, LiteralOf;
      }
    }
  }

  lemma LiteralsIff(h: Host, op: Op, a: Value, b: Value, l: Expr, r: Expr)
    requires LiteralOf(a) == Some(l) && LiteralOf(b) == Some(r)
    ensures var lit := FoldLiterals(h, op, l, r);
            && (lit.Some? <==> IsComputed(h, op, a, b))
            && (lit.Some? ==> Operate(h, op, a, b).Some? && LiteralOf(Operate(h, op, a, b).value) == lit
                              && IsLiteral(lit.value))
  {
  }

  // ---------- nothing is left to compute ----------

  /** No operator in the places that folding looks at has a constant value. */
  predicate Reduced(h: Host, e: Expr)
    decreases e, 1
  {
    match e
    case Binary(_, left, right) => ConstValue(h, e).None? && Reduced(h, left) && Reduced(h, right)
    case Call(callee, args) => Reduced(h, callee) && AllReduced(h, args)
    case Array(es) => AllReduced(h, es)
    case Tuple(es) => AllReduced(h, es)
    case Dict(_, values) => AllReduced(h, values)
    case Index(base, index) => Reduced(h, base) && Reduced(h, index)
    case IndexSet(base, index, value) => Reduced(h, base) && Reduced(h, index) && Reduced(h, value)
    case Slice(base, start, end) => Reduced(h, base) && Reduced(h, start) && Reduced(h, end)
    case Get(obj, _) => Reduced(h, obj)
    case Set(obj, _, value) => Reduced(h, obj) && Reduced(h, value)
    case _ => true
  }

  predicate AllReduced(h: Host, es: seq<Expr>)
    decreases es, 0
  {
    es == [] || (Reduced(h, es[0]) && AllReduced(h, es[1..]))
  }

  lemma {:induction false} FoldReduces(h: Host, e: Expr)
    ensures Reduced(h, FoldExpr(h, e))
    decreases e, 1
  {
    if e.Binary? {
      FoldReduces(h, e.left);
      FoldReduces(h, e.right);
      BinaryReduced(h, e.op, e.left, e.right);
    } else if e.Call? {
      FoldReduces(h, e.callee);
      FoldsReduce(h, e.args);
    } else if e.Array? || e.Tuple? {
      FoldsReduce(h, e.elems);
    } else if e.Dict? {
      FoldsReduce(h, e.values);
    } else if e.Index? {
      FoldReduces(h, e.base);
      FoldReduces(h, e.index);
    } else if e.IndexSet? {
      FoldReduces(h, e.base);
      FoldReduces(h, e.index);
      FoldReduces(h, e.value);
    } else if e.Slice? {
      FoldReduces(h, e.base);
      FoldReduces(h, e.start);
      FoldReduces(h, e.end);
    } else if e.Get? {
      FoldReduces(h, e.receiver);
    } else if e.Set? {
      FoldReduces(h, e.receiver);
      FoldReduces(h, e.value);
    }
  }

  lemma BinaryReduced(h: Host, op: Op, left: Expr, right: Expr)
    requires Reduced(h, FoldExpr(h, left)) && Reduced(h, FoldExpr(h, right))
    ensures Reduced(h, FoldExpr(h, Binary(op, left, right)))
  {
    var e, l, r := Binary(op, left, right), FoldExpr(h, left), FoldExpr(h, right);
    FoldExprTwice(h, left);
    FoldExprTwice(h, right);
    ConstantIff(h, l);
    ConstantIff(h, r);
    ConstantIff(h, Binary(op, l, r));
    assert FoldExpr(h, e) == FoldBinary(h, op, l, r) == FoldExpr(h, Binary(op, l, r));
  }

  lemma {:induction false} FoldsReduce(h: Host, es: seq<Expr>)
    ensures AllReduced(h, FoldExprs(h, es))
    decreases es, 0
  {
    hide FoldExpr, Reduced;
    if es != [] {
      FoldReduces(h, es[0]);
      FoldsReduce(h, es[1..]);
      assert FoldExprs(h, es)[1..] == FoldExprs(h, es[1..]);
    }
  }

  /** The same for statements; besides, no branch is on a constant, and no loop on `false`. */
  predicate StmtReduced(h: Host, s: Stmt)
    decreases s, 1
  {
    match s
    case Print(e) => Reduced(h, e)
    case ExprStmt(e) => Reduced(h, e)
    case Let(_, e) => Reduced(h, e)
    case Return(e) => Reduced(h, e)
    case Raise(e) => Reduced(h, e)
    case Yield(e) => Reduced(h, e)
    case If(e, thn, els) => !e.Bool? && Reduced(h, e) && ListReduced(h, thn) && ListReduced(h, els)
    case While(e, body) => e != Bool(false) && Reduced(h, e) && ListReduced(h, body)
    case For(_, e, body) => Reduced(h, e) && ListReduced(h, body)
    case Match(e, cases, default) => Reduced(h, e) && CasesReduced(h, cases) && ListReduced(h, default)
    case Try(block, handlers, final) => ListReduced(h, block) && HandlersReduced(h, handlers) && ListReduced(h, final)
    case Block(body) => ListReduced(h, body)
    case Proc(_, _, body) => ListReduced(h, body)
    case Class(_, _, methods) => ListReduced(h, methods)
    case _ => true
  }

  predicate ListReduced(h: Host, ss: seq<Stmt>)
    decreases ss, 0
  {
    ss == [] || (StmtReduced(h, ss[0]) && ListReduced(h, ss[1..]))
  }

  predicate CasesReduced(h: Host, cs: seq<Case>)
    decreases cs, 0
  {
    cs == [] || (Reduced(h, cs[0].pattern) && ListReduced(h, cs[0].body) && CasesReduced(h, cs[1..]))
  }

  predicate HandlersReduced(h: Host, hs: seq<Handler>)
    decreases hs, 0
  {
    hs == [] || (ListReduced(h, hs[0].body) && HandlersReduced(h, hs[1..]))
  }

  lemma {:induction false} FoldStmtReduces(h: Host, s: Stmt)
    ensures StmtReduced(h, FoldStmt(h, s))
    decreases s, 1
  {
    hide FoldExpr, Reduced, FoldStmts, ListReduced;
    if s.Print? || s.ExprStmt? || s.Return? || s.Raise? || s.Yield? {
      FoldReduces(h, s.e);
    } else if s.Let? {
      FoldReduces(h, s.init);
    } else if s.If? {
      FoldReduces(h, s.cond);
      FoldListReduces(h, s.thn);
      FoldListReduces(h, s.els);
      NilReduced(h);
    } else if s.While? {
      FoldReduces(h, s.cond);
      FoldListReduces(h, s.body);
      NilReduced(h);
    } else if s.For? {
      FoldReduces(h, s.iterable);
      FoldListReduces(h, s.body);
    } else if s.Match? {
      FoldReduces(h, s.value);
      FoldCasesReduce(h, s.cases);
      FoldListReduces(h, s.default);
    } else if s.Try? {
      FoldListReduces(h, s.block);
      FoldHandlersReduce(h, s.handlers);
      FoldListReduces(h, s.final);
    } else if s.Block? || s.Proc? {
      FoldListReduces(h, s.body);
    } else if s.Class? {
      FoldListReduces(h, s.methods);
    }
  }

  lemma NilReduced(h: Host)
    ensures Reduced(h, Nil)
  {
  }

  lemma {:induction false} FoldListReduces(h: Host, ss: seq<Stmt>)
    ensures ListReduced(h, FoldStmts(h, ss))
    decreases ss, 0
  {
    hide FoldStmt, StmtReduced;
    if ss != [] {
      FoldStmtReduces(h, ss[0]);
      FoldListReduces(h, ss[1..]);
      assert FoldStmts(h, ss)[1..] == FoldStmts(h, ss[1..]);
    }
  }

  lemma {:induction false} FoldCasesReduce(h: Host, cs: seq<Case>)
    ensures CasesReduced(h, FoldCases(h, cs))
    decreases cs, 0
  {
    hide FoldExpr, Reduced, FoldStmts, ListReduced;
    if cs != [] {
      FoldReduces(h, cs[0].pattern);
      FoldListReduces(h, cs[0].body);
      FoldCasesReduce(h, cs[1..]);
      assert FoldCases(h, cs)[1..] == FoldCases(h, cs[1..]);
    }
  }

  lemma {:induction false} FoldHandlersReduce(h: Host, hs: seq<Handler>)
    ensures HandlersReduced(h, FoldHandlers(h, hs))
    decreases hs, 0
  {
    hide FoldStmts, ListReduced;
    if hs != [] {
      FoldListReduces(h, hs[0].body);
      FoldHandlersReduce(h, hs[1..]);
      assert FoldHandlers(h, hs)[1..] == FoldHandlers(h, hs[1..]);
    }
  }
}
