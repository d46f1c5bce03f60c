// Which procs can reach themselves: the call scan, the in-place transitive closure
// and the recorded names (src/aot.c).
module CallGraph {
  import opened Common
  import opened Ast

  // ---------- direct calls ----------

  /** Does the expression contain a call of the bare name?  Braces in strings and
      compile-time expressions are not looked into. */
  predicate ExprCalls(e: Expr, name: string)
    decreases e
  {
    match e
    case Call(callee, args) =>
      || (callee.Variable? && callee.name == name)
      || ExprCalls(callee, name)
      || exists i | 0 <= i < |args| :: ExprCalls(args[i], name)
    case Binary(_, left, right) => ExprCalls(left, name) || ExprCalls(right, name)
    case Get(obj, _) => ExprCalls(obj, name)
    case Set(obj, _, value) => ExprCalls(obj, name) || ExprCalls(value, name)
    case Index(base, index) => ExprCalls(base, name) || ExprCalls(index, name)
    case IndexSet(base, index, value) => ExprCalls(base, name) || ExprCalls(index, name) || ExprCalls(value, name)
    case Slice(base, start, end) => ExprCalls(base, name) || ExprCalls(start, name) || ExprCalls(end, name)
    case Array(elems) => exists i | 0 <= i < |elems| :: ExprCalls(elems[i], name)
    case Tuple(elems) => exists i | 0 <= i < |elems| :: ExprCalls(elems[i], name)
    case Dict(_, values) => exists i | 0 <= i < |values| :: ExprCalls(values[i], name)
    case Range(low, high, _) => ExprCalls(low, name) || ExprCalls(high, name)
    case Await(operand) => ExprCalls(operand, name)
    case Unwrap(operand) => ExprCalls(operand, name)
    case NullCoal(left, right) => ExprCalls(left, name) || ExprCalls(right, name)
    case OptChain(obj, _) => ExprCalls(obj, name)
    case _ => false
  }

  /** Nested procs, classes and implementations, the patterns and guards of a match,
      yields, and annotated, compile-time and spawned blocks are not scanned. */
  predicate StmtCalls(s: Stmt, name: string)
    decreases s
  {
    match s
    case ExprStmt(e) => ExprCalls(e, name)
    case Let(_, e) => ExprCalls(e, name)
    case Return(e) => ExprCalls(e, name)
    case Print(e) => ExprCalls(e, name)
    case Raise(e) => ExprCalls(e, name)
    case If(e, thn, els) => ExprCalls(e, name) || StmtsCall(thn, name) || StmtsCall(els, name)
    case While(e, body) => ExprCalls(e, name) || StmtsCall(body, name)
    case For(_, e, body) => ExprCalls(e, name) || StmtsCall(body, name)
    case Block(body) => StmtsCall(body, name)
    case Defer(body) => StmtsCall(body, name)
    case Match(e, cases, default) =>
      || ExprCalls(e, name)
      || (exists i | 0 <= i < |cases| :: StmtsCall(cases[i].body, name))
      || StmtsCall(default, name)
    case Try(block, handlers, final) =>
      || StmtsCall(block, name)
      || (exists i | 0 <= i < |handlers| :: StmtsCall(handlers[i].body, name))
      || StmtsCall(final, name)
    case _ => false
  }

  predicate StmtsCall(ss: seq<Stmt>, name: string)
    decreases ss
  {
    exists i | 0 <= i < |ss| :: StmtCalls(ss[i], name)
  }

  // ---------- every call there is ----------

  /** The bare names called anywhere in the tree. */
  function CalledExpr(e: Expr): set<string>
    decreases e, 1
  {
    match e
    case Call(callee, args) =>
      (if callee.Variable? then {callee.name} else {}) + CalledExpr(callee) + CalledExprs(args)
    case Binary(_, left, right) => CalledExpr(left) + CalledExpr(right)
    case Get(obj, _) => CalledExpr(obj)
    case Set(obj, _, value) => CalledExpr(obj) + CalledExpr(value)
    case Index(base, index) => CalledExpr(base) + CalledExpr(index)
    case IndexSet(base, index, value) => CalledExpr(base) + CalledExpr(index) + CalledExpr(value)
    case Slice(base, start, end) => CalledExpr(base) + CalledExpr(start) + CalledExpr(end)
    case Array(elems) => CalledExprs(elems)
    case Tuple(elems) => CalledExprs(elems)
    case Dict(_, values) => CalledExprs(values)
    case Range(low, high, _) => CalledExpr(low) + CalledExpr(high)
    case Await(operand) => CalledExpr(operand)
    case Unwrap(operand) => CalledExpr(operand)
    case NullCoal(left, right) => CalledExpr(left) + CalledExpr(right)
    case OptChain(obj, _) => CalledExpr(obj)
    case Comptime(operand) => CalledExpr(operand)
    case Interp(_, parts) => CalledExprs(parts)
    case _ => {}
  }

  function CalledExprs(es: seq<Expr>): set<string>
    decreases es, 0
  {
    if es == [] then {} else CalledExpr(es[0]) + CalledExprs(es[1..])
  }

  function CalledStmt(s: Stmt): set<string>
    decreases s, 1
  {
    match s
    case ExprStmt(e) => CalledExpr(e)
    case Let(_, e) => CalledExpr(e)
    case Return(e) => CalledExpr(e)
    case Print(e) => CalledExpr(e)
    case Raise(e) => CalledExpr(e)
    case Yield(e) => CalledExpr(e)
    case If(e, thn, els) => CalledExpr(e) + CalledList(thn) + CalledList(els)
    case While(e, body) => CalledExpr(e) + CalledList(body)
    case For(_, e, body) => CalledExpr(e) + CalledList(body)
    case Block(body) => CalledList(body)
    case Defer(body) => CalledList(body)
    case Proc(_, sig, body) => CalledExprs(sig.defaults) + CalledList(body)
    case AsyncProc(_, sig, body) => CalledExprs(sig.defaults) + CalledList(body)
    case Class(_, _, methods) => CalledList(methods)
    case Impl(methods) => CalledList(methods)
    case Annotated(body) => CalledList(body)
    case ComptimeBlock(body) => CalledList(body)
    case Spawn(body) => CalledList(body)
    case Match(e, cases, default) => CalledExpr(e) + CalledCases(cases) + CalledList(default)
    case Try(block, handlers, final) => CalledList(block) + CalledHandlers(handlers) + CalledList(final)
    case _ => {}
  }

  function CalledList(ss: seq<Stmt>): set<string>
    decreases ss, 0
  {
    if ss == [] then {} else CalledStmt(ss[0]) + CalledList(ss[1..])
  }

  function CalledCases(cs: seq<Case>): set<string>
    decreases cs, 0
  {
    if cs == [] then {}
    else CalledExpr(cs[0].pattern) + CalledExpr(cs[0].guard) + CalledList(cs[0].body) + CalledCases(cs[1..])
  }

  function CalledHandlers(hs: seq<Handler>): set<string>
    decreases hs, 0
  {
    if hs == [] then {} else CalledList(hs[0].body) + CalledHandlers(hs[1..])
  }

  /** The names called where the scan does not look: in expressions, between the braces of
      strings and in compile-time expressions. */
  function SkippedExpr(e: Expr): set<string>
    decreases e, 1
  {
    match e
    case Comptime(operand) => CalledExpr(operand)
    case Interp(_, parts) => CalledExprs(parts)
    case Call(callee, args) => SkippedExpr(callee) + SkippedExprs(args)
    case Binary(_, left, right) => SkippedExpr(left) + SkippedExpr(right)
    case Get(obj, _) => SkippedExpr(obj)
    case Set(obj, _, value) => SkippedExpr(obj) + SkippedExpr(value)
    case Index(base, index) => SkippedExpr(base) + SkippedExpr(index)
    case IndexSet(base, index, value) => SkippedExpr(base) + SkippedExpr(index) + SkippedExpr(value)
    case Slice(base, start, end) => SkippedExpr(base) + SkippedExpr(start) + SkippedExpr(end)
    case Array(elems) => SkippedExprs(elems)
    case Tuple(elems) => SkippedExprs(elems)
    case Dict(_, values) => SkippedExprs(values)
    case Range(low, high, _) => SkippedExpr(low) + SkippedExpr(high)
    case Await(operand) => SkippedExpr(operand)
    case Unwrap(operand) => SkippedExpr(operand)
    case NullCoal(left, right) => SkippedExpr(left) + SkippedExpr(right)
    case OptChain(obj, _) => SkippedExpr(obj)
    case _ => {}
  }

  function SkippedExprs(es: seq<Expr>): set<string>
    decreases es, 0
  {
    if es == [] then {} else SkippedExpr(es[0]) + SkippedExprs(es[1..])
  }

  /** In statements, a whole statement of a kind the scan does not enter, the pattern and
      the guard of a case, and what is skipped inside the rest. */
  function SkippedStmt(s: Stmt): set<string>
    decreases s, 1
  {
    match s
    case ExprStmt(e) => SkippedExpr(e)
    case Let(_, e) => SkippedExpr(e)
    case Return(e) => SkippedExpr(e)
    case Print(e) => SkippedExpr(e)
    case Raise(e) => SkippedExpr(e)
    case If(e, thn, els) => SkippedExpr(e) + SkippedList(thn) + SkippedList(els)
    case While(e, body) => SkippedExpr(e) + SkippedList(body)
    case For(_, e, body) => SkippedExpr(e) + SkippedList(body)
    case Block(body) => SkippedList(body)
    case Defer(body) => SkippedList(body)
    case Match(e, cases, default) => SkippedExpr(e) + SkippedCases(cases) + SkippedList(default)
    case Try(block, handlers, final) => SkippedList(block) + SkippedHandlers(handlers) + SkippedList(final)
    case _ => CalledStmt(s)
  }

  function SkippedList(ss: seq<Stmt>): set<string>
    decreases ss, 0
  {
    if ss == [] then {} else SkippedStmt(ss[0]) + SkippedList(ss[1..])
  }

  function SkippedCases(cs: seq<Case>): set<string>
    decreases cs, 0
  {
    if cs == [] then {}
    else CalledExpr(cs[0].pattern) + CalledExpr(cs[0].guard) + SkippedList(cs[0].body) + SkippedCases(cs[1..])
  }

  function SkippedHandlers(hs: seq<Handler>): set<string>
    decreases hs, 0
  {
    if hs == [] then {} else SkippedList(hs[0].body) + SkippedHandlers(hs[1..])
  }

  /** The scan of an expression finds exactly the calls that are not skipped. */
  lemma {:induction false} ExprScanned(e: Expr, n: string)
    ensures n in CalledExpr(e) <==> ExprCalls(e, n) || n in SkippedExpr(e)
    decreases e, 1
  {
    hide CalledExprs, SkippedExprs;
    if e.Call? {
      ExprScanned(e.callee, n);
      ExprsScanned(e.args, n);
    } else if e.Binary? || e.NullCoal? {
      ExprScanned(e.left, n);
      ExprScanned(e.right, n);
    } else if e.Range? {
      ExprScanned(e.low, n);
      ExprScanned(e.high, n);
    } else if e.Index? || e.IndexSet? {
      ExprScanned(e.base, n);
      ExprScanned(e.index, n);
      if e.IndexSet? { ExprScanned(e.value, n); }
    } else if e.Slice? {
      ExprScanned(e.base, n);
      ExprScanned(e.start, n);
      ExprScanned(e.end, n);
    } else if e.Get? || e.OptChain? || e.Set? {
      ExprScanned(e.receiver, n);
      if e.Set? { ExprScanned(e.value, n); }
    } else if e.Await? || e.Unwrap? {
      ExprScanned(e.operand, n);
    } else if e.Array? || e.Tuple? {
      ExprsScanned(e.elems, n);
    } else if e.Dict? {
      ExprsScanned(e.values, n);
    }
  }

  lemma {:induction false} ExprsScanned(es: seq<Expr>, n: string)
    ensures n in CalledExprs(es) <==> (exists i | 0 <= i < |es| :: ExprCalls(es[i], n)) || n in SkippedExprs(es)
    decreases es, 0
  {
    hide ExprCalls, CalledExpr, SkippedExpr;
    if es != [] {
      var rest := es[1..];
      ExprScanned(es[0], n);
      ExprsScanned(rest, n);
      if i :| 0 <= i < |rest| && ExprCalls(rest[i], n) {
        assert ExprCalls(es[i + 1], n);
      }
      if i :| 0 <= i < |es| && ExprCalls(es[i], n) {
        assert i > 0 ==> ExprCalls(rest[i - 1], n);
      }
    }
  }

  /** The scan finds exactly the calls that are not skipped. */
  lemma {:induction false} StmtScanned(s: Stmt, n: string)
    ensures n in CalledStmt(s) <==> StmtCalls(s, n) || n in SkippedStmt(s)
    decreases s, 1
  {
    hide ExprCalls, CalledExpr, SkippedExpr, StmtsCall, CalledList, SkippedList;
    match s
    case ExprStmt(e) => ExprScanned(e, n);
    case Let(_, e) => ExprScanned(e, n);
    case Return(e) => ExprScanned(e, n);
    case Print(e) => ExprScanned(e, n);
    case Raise(e) => ExprScanned(e, n);
    case If(e, thn, els) =>
      ExprScanned(e, n);
      ListScanned(thn, n);
      ListScanned(els, n);
    case While(e, body) =>
      ExprScanned(e, n);
      ListScanned(body, n);
    case For(_, e, body) =>
      ExprScanned(e, n);
      ListScanned(body, n);
    case Block(body) => ListScanned(body, n);
    case Defer(body) => ListScanned(body, n);
    case Match(e, cases, default) =>
      ExprScanned(e, n);
      CasesScanned(cases, n);
      ListScanned(default, n);
    case Try(block, handlers, final) =>
      ListScanned(block, n);
      HandlersScanned(handlers, n);
      ListScanned(final, n);
    case _ =>
  }

  lemma {:induction false} ListScanned(ss: seq<Stmt>, n: string)
    ensures n in CalledList(ss) <==> StmtsCall(ss, n) || n in SkippedList(ss)
    decreases ss, 0
  {
    hide StmtCalls, CalledStmt, SkippedStmt;
    if ss != [] {
      StmtScanned(ss[0], n);
      ListScanned(ss[1..], n);
      CallsCons(ss, n);
      hide StmtsCall;
    }
  }

  lemma CallsCons(ss: seq<Stmt>, n: string)
    requires ss != []
    ensures StmtsCall(ss, n) <==> StmtCalls(ss[0], n) || StmtsCall(ss[1..], n)
  {
    hide StmtCalls;
    var rest := ss[1..];
    if i :| 0 <= i < |ss| && StmtCalls(ss[i], n) {
      assert i > 0 ==> StmtCalls(rest[i - 1], n);
    }
    if i :| 0 <= i < |rest| && StmtCalls(rest[i], n) {
      assert StmtCalls(ss[i + 1], n);
    }
  }

  lemma {:induction false} CasesScanned(cs: seq<Case>, n: string)
    ensures n in CalledCases(cs) <==>
            (exists i | 0 <= i < |cs| :: StmtsCall(cs[i].body, n)) || n in SkippedCases(cs)
    decreases cs, 0
  {
    hide StmtsCall, CalledList, SkippedList, CalledExpr;
    if cs != [] {
      var rest := cs[1..];
      ListScanned(cs[0].body, n);
      CasesScanned(rest, n);
      if i :| 0 <= i < |cs| && StmtsCall(cs[i].body, n) {
        assert i > 0 ==> StmtsCall(rest[i - 1].body, n);
      }
      if i :| 0 <= i < |rest| && StmtsCall(rest[i].body, n) {
        assert StmtsCall(cs[i + 1].body, n);
      }
    }
  }

  lemma {:induction false} HandlersScanned(hs: seq<Handler>, n: string)
    ensures n in CalledHandlers(hs) <==>
            (exists i | 0 <= i < |hs| :: StmtsCall(hs[i].body, n)) || n in SkippedHandlers(hs)
    decreases hs, 0
  {
    hide StmtsCall, CalledList, SkippedList;
    if hs != [] {
      var rest := hs[1..];
      ListScanned(hs[0].body, n);
      HandlersScanned(rest, n);
      if i :| 0 <= i < |hs| && StmtsCall(hs[i].body, n) {
        assert i > 0 ==> StmtsCall(rest[i - 1].body, n);
      }
      if i :| 0 <= i < |rest| && StmtsCall(rest[i].body, n) {
        assert StmtsCall(hs[i + 1].body, n);
      }
    }
  }

  // ---------- paths and the closure ----------

  type Matrix = seq<seq<bool>>

  predicate Square(adj: Matrix) { forall i | 0 <= i < |adj| :: |adj[i]| == |adj| }

  predicate Edge(adj: Matrix, i: nat, j: nat) {
    i < |adj| && j < |adj[i]| && adj[i][j]
  }

  /** A walk along at least one edge. */
  predicate IsWalk(adj: Matrix, p: seq<nat>) {
    && |p| >= 2
    && (forall m | 0 <= m < |p| :: p[m] < |adj|)
    && (forall m | 0 <= m < |p| - 1 :: Edge(adj, p[m], p[m + 1]))
  }

  /** A walk from `i` to `j` whose nodes in between are all below `k`. */
  predicate WalkBelow(adj: Matrix, p: seq<nat>, k: nat, i: nat, j: nat) {
    && IsWalk(adj, p) && p[0] == i && p[|p| - 1] == j
    && (forall m | 0 < m < |p| - 1 :: p[m] < k)
  }

  ghost predicate Connected(adj: Matrix, i: nat, j: nat) {
    exists p :: IsWalk(adj, p) && p[0] == i && p[|p| - 1] == j
  }

  /** The closure after rounds 0 .. k-1. */
  function Closure(adj: Matrix, k: nat, i: nat, j: nat): bool
    requires Square(adj) && k <= |adj| && i < |adj| && j < |adj|
    decreases k
  {
    if k == 0 then adj[i][j]
    else
      Closure(adj, k - 1, i, j)
      || (Closure(adj, k - 1, i, k - 1) && Closure(adj, k - 1, k - 1, j))
  }

  /** A round does not change its own pivot's row, so working in place is safe. */
  lemma PivotRow(adj: Matrix, k: nat, j: nat)
    requires Square(adj) && k < |adj| && j < |adj|
    ensures Closure(adj, k + 1, k, j) == Closure(adj, k, k, j)
  {
  }

  lemma JoinWalks(adj: Matrix, p: seq<nat>, q: seq<nat>, k: nat, i: nat, m: nat, j: nat)
    requires WalkBelow(adj, p, k, i, m) && WalkBelow(adj, q, k, m, j) && m < k
    ensures WalkBelow(adj, p + q[1..], k, i, j)
  {
    var w := p + q[1..];
    forall x | 0 <= x < |w| - 1
      ensures Edge(adj, w[x], w[x + 1])
    {
      if x >= |p| - 1 {
        var y := x - (|p| - 1);
        assert w[x] == q[y] && w[x + 1] == q[y + 1];
        assert Edge(adj, q[y], q[y + 1]);
      } else {
        assert Edge(adj, p[x], p[x + 1]);
      }
    }
    forall x | 0 < x < |w| - 1
      ensures w[x] < k
    {
      if x >= |p| - 1 {
        assert w[x] == q[x - (|p| - 1)];
      }
    }
  }

  lemma MoreBelow(adj: Matrix, p: seq<nat>, k: nat, i: nat, j: nat)
    requires WalkBelow(adj, p, k, i, j)
    ensures WalkBelow(adj, p, k + 1, i, j)
  {
  }

  lemma {:induction false} ClosureIsWalk(adj: Matrix, k: nat, i: nat, j: nat)
    requires Square(adj) && k <= |adj| && i < |adj| && j < |adj| && Closure(adj, k, i, j)
    ensures exists p :: WalkBelow(adj, p, k, i, j)
    decreases k
  {
    if k == 0 {
      assert WalkBelow(adj, [i, j], 0, i, j);
    } else if Closure(adj, k - 1, i, j) {
      ClosureIsWalk(adj, k - 1, i, j);
      var p :| WalkBelow(adj, p, k - 1, i, j);
      MoreBelow(adj, p, k - 1, i, j);
    } else {
      ClosureIsWalk(adj, k - 1, i, k - 1);
      ClosureIsWalk(adj, k - 1, k - 1, j);
      var p :| WalkBelow(adj, p, k - 1, i, k - 1);
      var q :| WalkBelow(adj, q, k - 1, k - 1, j);
      MoreBelow(adj, p, k - 1, i, k - 1);
      MoreBelow(adj, q, k - 1, k - 1, j);
      JoinWalks(adj, p, q, k, i, k - 1, j);
    }
  }

  lemma SplitWalk(adj: Matrix, p: seq<nat>, k: nat, i: nat, j: nat, m: nat)
    requires WalkBelow(adj, p, k, i, j) && 0 < m < |p| - 1
    ensures WalkBelow(adj, p[..m + 1], k, i, p[m]) && WalkBelow(adj, p[m..], k, p[m], j)
  {
    var q := p[m..];
    forall x | 0 <= x < |q| - 1
      ensures Edge(adj, q[x], q[x + 1])
    {
      assert Edge(adj, p[m + x], p[m + x + 1]);
    }
  }

  lemma {:induction false} WalkInClosure(adj: Matrix, k: nat, i: nat, j: nat, p: seq<nat>)
    requires Square(adj) && k <= |adj| && i < |adj| && j < |adj| && WalkBelow(adj, p, k, i, j)
    ensures Closure(adj, k, i, j)
    decreases k, |p|
  {
    if m :| 0 < m < |p| - 1 && k > 0 && p[m] == k - 1 {
      SplitWalk(adj, p, k, i, j, m);
      WalkInClosure(adj, k, i, k - 1, p[..m + 1]);
      WalkInClosure(adj, k, k - 1, j, p[m..]);
    } else if k > 0 {
      assert WalkBelow(adj, p, k - 1, i, j);
      WalkInClosure(adj, k - 1, i, j, p);
    } else {
      ghost var before := p[|p| - 2];
      assert |p| == 2;
      assert Edge(adj, p[0], p[1]);
    }
  }

  /** The full closure is exactly the existence of a walk. */
  lemma ClosureIsConnected(adj: Matrix, i: nat, j: nat)
    requires Square(adj) && i < |adj| && j < |adj|
    ensures Closure(adj, |adj|, i, j) <==> Connected(adj, i, j)
  {
    if Closure(adj, |adj|, i, j) {
      ClosureIsWalk(adj, |adj|, i, j);
    }
    if Connected(adj, i, j) {
      var p :| IsWalk(adj, p) && p[0] == i && p[|p| - 1] == j;
      assert WalkBelow(adj, p, |adj|, i, j);
      WalkInClosure(adj, |adj|, i, j, p);
    }
  }

  /** Close the relation in place. */
  method Warshall(reach: array2<bool>, ghost adj: Matrix)
    requires Square(adj) && reach.Length0 == reach.Length1 == |adj|
    requires forall i, j | 0 <= i < |adj| && 0 <= j < |adj| :: reach[i, j] == adj[i][j]
    modifies reach
    ensures forall i, j | 0 <= i < |adj| && 0 <= j < |adj| :: reach[i, j] <==> Connected(adj, i, j)
  {
    var np := reach.Length0;
    for k := 0 to np
      invariant forall i, j | 0 <= i < np && 0 <= j < np :: reach[i, j] == Closure(adj, k, i, j)
    {
      for i := 0 to np
        invariant forall x, j | 0 <= x < i && 0 <= j < np :: reach[x, j] == Closure(adj, k + 1, x, j)
        invariant forall x, j | i <= x < np && 0 <= j < np :: reach[x, j] == Closure(adj, k, x, j)
      {
        if reach[i, k] {
          for j := 0 to np
            invariant forall x, y | 0 <= x < i && 0 <= y < np :: reach[x, y] == Closure(adj, k + 1, x, y)
            invariant forall x, y | i < x < np && 0 <= y < np :: reach[x, y] == Closure(adj, k, x, y)
            invariant forall y | 0 <= y < j :: reach[i, y] == Closure(adj, k + 1, i, y)
            invariant forall y | j <= y < np :: reach[i, y] == Closure(adj, k, i, y)
          {
            PivotRow(adj, k, j);
            if reach[k, j] { reach[i, j] := true; }
          }
        }
      }
    }
    forall i, j | 0 <= i < np && 0 <= j < np
      ensures reach[i, j] <==> Connected(adj, i, j)
    {
      ClosureIsConnected(adj, i, j);
    }
  }

  // ---------- recursion detection ----------

  const MAX_PROCS: nat := 256
  const NAME_MAX: nat := 63
  const MAX_RECORDED: nat := 256

  datatype ProcDef = ProcDef(name: string, defaults: seq<Expr>, body: seq<Stmt>)

  function ProcOf(s: Stmt): Option<ProcDef> {
    match s
    case Proc(name, sig, body) => Some(ProcDef(name, sig.defaults, body))
    case AsyncProc(name, sig, body) => Some(ProcDef(name, sig.defaults, body))
    case _ => None
  }

  function TopProcs(program: seq<Stmt>): seq<ProcDef> {
    if program == [] then []
    else
      var pre, p := TopProcs(program[..|program| - 1]), ProcOf(program[|program| - 1]);
      if p.Some? then pre + [p.value] else pre
  }

  /** Names are copied into a buffer of 64 characters. */
  function Short(name: string): string {
    if |name| < NAME_MAX then name else name[..NAME_MAX]
  }

  function Shortened(ps: seq<ProcDef>): (r: seq<ProcDef>)
    ensures |r| == |ps|
    ensures forall i | 0 <= i < |ps| :: r[i] == ps[i].(name := Short(ps[i].name))
  {
    if ps == [] then []
    else Shortened(ps[..|ps| - 1]) + [ps[|ps| - 1].(name := Short(ps[|ps| - 1].name))]
  }

  /** The procs the analysis looks at. */
  function Collected(program: seq<Stmt>): seq<ProcDef> {
    var ps := TopProcs(program);
    Shortened(if |ps| <= MAX_PROCS then ps else ps[..MAX_PROCS])
  }

  /** They are the first 256 procs of the program, known by the first 63 characters of their
      names. */
  lemma CollectedAre(program: seq<Stmt>, i: nat)
    requires i < |Collected(program)|
    ensures |Collected(program)| == Min(|TopProcs(program)|, 256)
    ensures var p, c := TopProcs(program)[i], Collected(program)[i];
            && c.defaults == p.defaults && c.body == p.body
            && c.name <= p.name && |c.name| == Min(|p.name|, 63)
  {
    hide TopProcs;
  }

  function CallMatrix(ps: seq<ProcDef>): (adj: Matrix)
    ensures Square(adj) && |adj| == |ps|
    ensures forall i, j | 0 <= i < |ps| && 0 <= j < |ps| :: adj[i][j] <==> StmtsCall(ps[i].body, ps[j].name)
  {
    seq(|ps|, i requires 0 <= i < |ps| =>
      seq(|ps|, j requires 0 <= j < |ps| => StmtsCall(ps[i].body, ps[j].name)))
  }

  /** The names of the first `n` procs that reach themselves. */
  ghost function Recorded(ps: seq<ProcDef>, n: nat): (r: seq<string>)
    requires n <= |ps|
    ensures |r| <= n
  {
    if n == 0 then []
    else
      var r := Recorded(ps, n - 1);
      if Connected(CallMatrix(ps), n - 1, n - 1) then r + [ps[n - 1].name] else r
  }

  lemma {:induction false} RecordedMeans(ps: seq<ProcDef>, n: nat, x: string)
    requires n <= |ps|
    ensures x in Recorded(ps, n) <==> exists i | 0 <= i < n :: ps[i].name == x && Connected(CallMatrix(ps), i, i)
  {
    hide Connected, CallMatrix;
    if n > 0 {
      RecordedMeans(ps, n - 1, x);
    }
  }

  /** Gather the first 256 procs, their names cut to 63 characters. */
  method CollectProcs(program: seq<Stmt>) returns (ps: seq<ProcDef>)
    ensures ps == Collected(program) && |ps| <= MAX_PROCS
  {
    ps := [];
    var i := 0;
    assert program[..0] == [];
    while i < |program| && |ps| < MAX_PROCS
      invariant i <= |program| && |ps| <= MAX_PROCS && ps == Shortened(TopProcs(program[..i]))
    {
      NextProc(program, i);
      var p := ProcOf(program[i]);
      if p.Some? {
        ps := ps + [p.value.(name := Short(p.value.name))];
      }
      i := i + 1;
    }
    LaterProcs(program, i);
    hide TopProcs;
    ghost var all, some := TopProcs(program), TopProcs(program[..i]);
    if i == |program| {
      assert program[..i] == program;
      assert some == all;
    }
    assert some == if |all| <= MAX_PROCS then all else all[..MAX_PROCS];
  }

  lemma NextProc(program: seq<Stmt>, i: nat)
    requires i < |program|
    ensures var pre, p := TopProcs(program[..i]), ProcOf(program[i]);
            && TopProcs(program[..i + 1]) == (if p.Some? then pre + [p.value] else pre)
            && (p.Some? ==> Shortened(pre + [p.value]) == Shortened(pre) + [p.value.(name := Short(p.value.name))])
  {
    assert program[..i + 1][..i] == program[..i];
    var pre, p := TopProcs(program[..i]), ProcOf(program[i]);
    if p.Some? {
      assert (pre + [p.value])[..|pre|] == pre;
    }
  }

  lemma {:induction false} LaterProcs(program: seq<Stmt>, i: nat)
    requires i <= |program|
    ensures |TopProcs(program[..i])| <= |TopProcs(program)|
    ensures TopProcs(program[..i]) == TopProcs(program)[..|TopProcs(program[..i])|]
    decreases |program| - i
  {
    if i < |program| {
      NextProc(program, i);
      LaterProcs(program, i + 1);
    } else {
      assert program[..i] == program;
    }
  }

  /** Record every proc that can reach itself. */
  method DetectRecursion(program: seq<Stmt>) returns (recorded: seq<string>)
    ensures recorded == Recorded(Collected(program), |Collected(program)|)
  {
    hide StmtsCall, Connected, Collected;
    var ps := CollectProcs(program);
    var np := |ps|;
    recorded := [];
    if np == 0 { return; }
    var reach := new bool[np, np];
    FillCalls(reach, ps);
    Warshall(reach, CallMatrix(ps));
    for i := 0 to np
      invariant recorded == Recorded(ps, i)
    {
      if reach[i, i] && |recorded| < MAX_RECORDED {
        recorded := recorded + [ps[i].name];
      }
    }
  }

  method FillCalls(reach: array2<bool>, ps: seq<ProcDef>)
    requires reach.Length0 == reach.Length1 == |ps|
    modifies reach
    ensures forall i, j | 0 <= i < |ps| && 0 <= j < |ps| :: reach[i, j] == CallMatrix(ps)[i][j]
  {
    hide StmtsCall;
    var np := |ps|;
    for i := 0 to np
      invariant forall x, y | 0 <= x < i && 0 <= y < np :: reach[x, y] == CallMatrix(ps)[x][y]
    {
      for j := 0 to np
        invariant forall x, y | 0 <= x < i && 0 <= y < np :: reach[x, y] == CallMatrix(ps)[x][y]
        invariant forall y | 0 <= y < j :: reach[i, y] == CallMatrix(ps)[i][y]
      {
        reach[i, j] := StmtsCall(ps[i].body, ps[j].name);
      }
    }
  }

  // ---------- what is recorded, in terms of the program ----------

  type Relation = set<(string, string)>

  /** Which procs call which by name, as far as the scan sees. */
  function ScannedCalls(ps: seq<ProcDef>): Relation {
    set i, j | 0 <= i < |ps| && 0 <= j < |ps| && StmtsCall(ps[i].body, ps[j].name) :: (ps[i].name, ps[j].name)
  }

  /** Which procs call which by name, anywhere in their bodies. */
  function BodyCalls(ps: seq<ProcDef>): Relation {
    set i, j | 0 <= i < |ps| && 0 <= j < |ps| && ps[j].name in CalledList(ps[i].body) :: (ps[i].name, ps[j].name)
  }

  /** Which procs are called by the default values of which: a caller that leaves the
      argument out evaluates them. */
  function DefaultCalls(ps: seq<ProcDef>): Relation {
    set i, j | 0 <= i < |ps| && 0 <= j < |ps| && ps[j].name in CalledExprs(ps[i].defaults) ::
      (ps[i].name, ps[j].name)
  }

  /** A call in the body, or in a default that such a call evaluates, and so on. */
  ghost predicate MayCall(ps: seq<ProcDef>, a: string, b: string) {
    || (a, b) in BodyCalls(ps)
    || exists c :: CallChain(DefaultCalls(ps), c) && (a, c[0]) in BodyCalls(ps) && c[|c| - 1] == b
  }

  /** Which procs call which by name while they are active. */
  ghost function ActualCalls(ps: seq<ProcDef>): Relation {
    set i, j | 0 <= i < |ps| && 0 <= j < |ps| && MayCall(ps, ps[i].name, ps[j].name) :: (ps[i].name, ps[j].name)
  }

  predicate CallChain(r: Relation, c: seq<string>) {
    |c| >= 2 && forall m | 0 <= m < |c| - 1 :: (c[m], c[m + 1]) in r
  }

  ghost predicate OnCycle(r: Relation, name: string) {
    exists c :: CallChain(r, c) && c[0] == name && c[|c| - 1] == name
  }

  /** What the fixed-size tables can hold. */
  predicate FitsTables(program: seq<Stmt>) {
    var ps := TopProcs(program);
    |ps| <= 256 && forall i | 0 <= i < |ps| :: |ps[i].name| <= 63
  }

  /** No proc is called in a default value, and what a proc calls in a place the scan skips
      it also calls where the scan looks. */
  predicate FullyScanned(ps: seq<ProcDef>) {
    && DefaultCalls(ps) == {}
    && forall i, j | 0 <= i < |ps| && 0 <= j < |ps| && ps[j].name in SkippedList(ps[i].body) ::
         StmtsCall(ps[i].body, ps[j].name)
  }

  ghost predicate IsRecorded(program: seq<Stmt>, name: string) {
    name in Recorded(Collected(program), |Collected(program)|)
  }

  lemma FittingCollected(program: seq<Stmt>)
    requires FitsTables(program)
    ensures Collected(program) == TopProcs(program)
  {
    var ps := TopProcs(program);
    assert forall i | 0 <= i < |ps| :: Short(ps[i].name) == ps[i].name;
  }

  lemma ScanIsSound(ps: seq<ProcDef>)
    ensures ScannedCalls(ps) <= BodyCalls(ps) <= ActualCalls(ps)
    ensures FullyScanned(ps) ==> ScannedCalls(ps) == ActualCalls(ps)
  {
    hide StmtsCall, CalledList, SkippedList;
    forall i, j | 0 <= i < |ps| && 0 <= j < |ps|
      ensures StmtsCall(ps[i].body, ps[j].name) ==> ps[j].name in CalledList(ps[i].body)
      ensures FullyScanned(ps) && ps[j].name in CalledList(ps[i].body) ==> StmtsCall(ps[i].body, ps[j].name)
    {
      ListScanned(ps[i].body, ps[j].name);
    }
    if FullyScanned(ps) {
      forall a, b | MayCall(ps, a, b)
        ensures (a, b) in BodyCalls(ps)
      {
        if c: seq<string> :| CallChain(DefaultCalls(ps), c) && (a, c[0]) in BodyCalls(ps) && c[|c| - 1] == b {
          NoChain(DefaultCalls(ps), c);
          assert false;
        }
      }
    }
  }

  lemma NoChain(r: Relation, c: seq<string>)
    requires r == {}
    ensures !CallChain(r, c)
  {
    if |c| >= 2 {
      assert (c[0], c[0 + 1]) !in r;
    }
  }

  /** A name is recorded exactly if it is on a cycle of the scanned calls between the
      procs that were collected. */
  lemma RecordedExactly(ps: seq<ProcDef>, name: string)
    ensures name in Recorded(ps, |ps|) <==> OnCycle(ScannedCalls(ps), name)
  {
    hide StmtsCall, CallMatrix, Edge, Recorded, ScannedCalls;
    var adj := CallMatrix(ps);
    RecordedMeans(ps, |ps|, name);
    if i :| 0 <= i < |ps| && ps[i].name == name && Connected(adj, i, i) {
      var p :| IsWalk(adj, p) && p[0] == i && p[|p| - 1] == i;
      var c := NamesOnWalk(ps, p);
    }
    if OnCycle(ScannedCalls(ps), name) {
      var c :| CallChain(ScannedCalls(ps), c) && c[0] == name && c[|c| - 1] == name;
      var p := WalkOfNames(ps, c);
      CloseWalk(ps, c, p);
    }
  }

  lemma NamesOnWalk(ps: seq<ProcDef>, p: seq<nat>) returns (c: seq<string>)
    requires IsWalk(CallMatrix(ps), p)
    ensures CallChain(ScannedCalls(ps), c) && |c| == |p|
    ensures c[0] == ps[p[0]].name && c[|c| - 1] == ps[p[|p| - 1]].name
  {
    hide StmtsCall;
    c := seq(|p|, m requires 0 <= m < |p| => ps[p[m]].name);
    forall m | 0 <= m < |c| - 1
      ensures (c[m], c[m + 1]) in ScannedCalls(ps)
    {
      assert Edge(CallMatrix(ps), p[m], p[m + 1]);
    }
  }

  /** Callers along a chain, one proc for each name but the last. */
  ghost predicate AreCallers(ps: seq<ProcDef>, c: seq<string>, p: seq<nat>) {
    && |p| + 1 == |c|
    && forall m | 0 <= m < |p| :: p[m] < |ps| && ps[p[m]].name == c[m] && StmtsCall(ps[p[m]].body, c[m + 1])
  }

  lemma {:induction false} WalkOfNames(ps: seq<ProcDef>, c: seq<string>) returns (p: seq<nat>)
    requires CallChain(ScannedCalls(ps), c)
    ensures AreCallers(ps, c, p)
    decreases |c|
  {
    var i := Caller(ps, c[0], c[1]);
    if |c| == 2 {
      p := [i];
    } else {
      hide StmtsCall, ScannedCalls;
      var d := c[1..];
      ChainTail(ScannedCalls(ps), c);
      var q := WalkOfNames(ps, d);
      p := [i] + q;
      forall m | 0 <= m < |p|
        ensures p[m] < |ps| && ps[p[m]].name == c[m] && StmtsCall(ps[p[m]].body, c[m + 1])
      {
        if m > 0 {
          assert p[m] == q[m - 1] && d[m - 1] == c[m] && d[m - 1 + 1] == c[m + 1];
        }
      }
    }
  }

  lemma ChainTail(r: Relation, c: seq<string>)
    requires CallChain(r, c) && |c| > 2
    ensures CallChain(r, c[1..])
  {
    var d := c[1..];
    forall m | 0 <= m < |d| - 1
      ensures (d[m], d[m + 1]) in r
    {
      assert (c[m + 1], c[m + 1 + 1]) in r;
    }
  }

  lemma Caller(ps: seq<ProcDef>, a: string, b: string) returns (i: nat)
    requires (a, b) in ScannedCalls(ps)
    ensures i < |ps| && ps[i].name == a && StmtsCall(ps[i].body, b)
  {
    hide StmtsCall;
    var i', j :| && 0 <= i' < |ps| && 0 <= j < |ps| && StmtsCall(ps[i'].body, ps[j].name)
                 && ps[i'].name == a && ps[j].name == b;
    i := i';
  }

  /** The callers along a closed chain form a closed walk: a call goes to every proc of
      the name, the first one among them. */
  lemma CloseWalk(ps: seq<ProcDef>, c: seq<string>, p: seq<nat>)
    requires AreCallers(ps, c, p) && |c| >= 2 && c[0] == c[|c| - 1]
    ensures p[0] < |ps| && ps[p[0]].name == c[0] && Connected(CallMatrix(ps), p[0], p[0])
  {
    hide StmtsCall;
    var q := p + [p[0]];
    forall m | 0 <= m < |q| - 1
      ensures Edge(CallMatrix(ps), q[m], q[m + 1])
    {
      assert q[m] == p[m];
      assert ps[q[m + 1]].name == c[m + 1];
    }
    assert IsWalk(CallMatrix(ps), q) && q[|q| - 1] == p[0];
  }

  /** In terms of the program: only procs on a cycle of direct calls are recorded, and
      all of them if no call between procs is out of the scan's sight. */
  lemma RecordedIffOnCycle(program: seq<Stmt>, name: string)
    requires FitsTables(program)
    ensures IsRecorded(program, name) ==> OnCycle(ActualCalls(TopProcs(program)), name)
    ensures FullyScanned(TopProcs(program)) ==>
              (IsRecorded(program, name) <==> OnCycle(ActualCalls(TopProcs(program)), name))
  {
    hide TopProcs, Collected, FitsTables, Recorded, ScannedCalls, ActualCalls, FullyScanned;
    var ps := TopProcs(program);
    FittingCollected(program);
    RecordedExactly(ps, name);
    ScanIsSound(ps);
  }

  /** So a proc whose name is longer than the table's entries is never recorded, even
      when it calls itself. */
  lemma LongNameNotRecorded(program: seq<Stmt>, name: string)
    requires |name| > 63
    ensures !IsRecorded(program, name)
  {
    var cs := Collected(program);
    hide Recorded, TopProcs, Connected;
    RecordedMeans(cs, |cs|, name);
  }

  /** A proc that contains one statement. */
  function OneProc(name: string, s: Stmt): seq<Stmt> { [Proc(name, Bare([]), [s])] }

  lemma OneProcCalls(name: string, s: Stmt)
    ensures TopProcs(OneProc(name, s)) == [ProcDef(name, [], [s])]
    ensures name in CalledStmt(s) ==> (name, name) in ActualCalls(TopProcs(OneProc(name, s)))
    ensures !StmtCalls(s, name) ==> ScannedCalls(TopProcs(OneProc(name, s))) == {}
  {
    hide StmtCalls, CalledStmt;
    var program := OneProc(name, s);
    assert program[..|program| - 1] == [] && [s][1..] == [];
    assert TopProcs(program[..|program| - 1]) == [];
    assert CalledList([s]) == CalledStmt(s) + CalledList([]);
    var ps := TopProcs(program);
    assert ps == [ProcDef(name, [], [s])];
    if name in CalledStmt(s) {
      assert ps[0].name in CalledList(ps[0].body);
      assert (name, name) in BodyCalls(ps);
      hide BodyCalls, DefaultCalls;
      assert MayCall(ps, ps[0].name, ps[0].name);
    }
  }

  lemma SelfCall(r: Relation, name: string)
    requires (name, name) in r
    ensures OnCycle(r, name)
  {
    var c := [name, name];
    assert CallChain(r, c) && c[0] == name && c[|c| - 1] == name;
  }

  lemma LongNameOnCycle(name: string)
    ensures OnCycle(ActualCalls(TopProcs(OneProc(name, ExprStmt(Call(Variable(name), []))))), name)
  {
    var s := ExprStmt(Call(Variable(name), []));
    OneProcCalls(name, s);
    hide OnCycle, TopProcs, ActualCalls;
    assert name in CalledExpr(Call(Variable(name), []));
    SelfCall(ActualCalls(TopProcs(OneProc(name, s))), name);
  }

  /** A proc that calls itself only where the scan does not look is on a cycle, fits the
      tables, and is not recorded. */
  lemma SkippedCallNotRecorded(name: string, s: Stmt)
    requires |name| <= 63 && name in CalledStmt(s) && !StmtCalls(s, name)
    ensures var program := OneProc(name, s);
            && FitsTables(program) && OnCycle(ActualCalls(TopProcs(program)), name)
            && !IsRecorded(program, name) && !FullyScanned(TopProcs(program))
  {
    var program := OneProc(name, s);
    OneProcCalls(name, s);
    assert FitsTables(program);
    FittingCollected(program);
    hide StmtCalls, CalledStmt, FitsTables, Recorded, Collected, ScannedCalls, ActualCalls, FullyScanned;
    SelfCall(ActualCalls(TopProcs(program)), name);
    RecordedExactly(TopProcs(program), name);
    RecordedIffOnCycle(program, name);
    NoCycle({}, name);
  }

  /** Such places: between the braces of a string, in a compile-time expression, in the
      pattern or the guard of a case, in a yield, and in the blocks that are not entered. */
  function HiddenCalls(call: Expr): seq<Stmt> {
    var run := [ExprStmt(call)];
    [Print(Interp("{}", [call])), Print(Comptime(call)), Yield(call),
     Match(Nil, [Case(call, Absent, [])], []), Match(Nil, [Case(Nil, call, [])], []),
     Annotated(run), ComptimeBlock(run), Spawn(run)]
  }

  lemma AllHidden(name: string, k: nat)
    requires k < |HiddenCalls(Call(Variable(name), []))|
    ensures var s := HiddenCalls(Call(Variable(name), []))[k]; name in CalledStmt(s) && !StmtCalls(s, name)
  {
    var call := Call(Variable(name), []);
    var s := HiddenCalls(call)[k];
    assert name in CalledExpr(call);
    assert name in CalledExprs([call]);
    assert name in CalledStmt(ExprStmt(call));
    assert CalledList([ExprStmt(call)]) == CalledStmt(ExprStmt(call)) + CalledList([ExprStmt(call)][1..]);
    if s.Match? { HiddenInCase(name, s.cases[0]); }
  }

  lemma HiddenInCase(name: string, c: Case)
    requires c.body == [] && (name in CalledExpr(c.pattern) || name in CalledExpr(c.guard))
    ensures name in CalledCases([c]) && !StmtCalls(Match(Nil, [c], []), name)
  {
    assert !StmtsCall([], name);
    assert [c][0] == c;
  }

  /** Two procs: `f` calls `g`, which has a default that calls `f`. */
  const DEFAULTING: seq<Stmt> :=
    [Proc("g", Signature(["a"], [Call(Variable("f"), [])], []), [Return(Variable("a"))]),
     Proc("f", Bare([]), [Return(Call(Variable("g"), []))])]

  /** The default is evaluated by `f` itself, which is not recorded. */
  lemma DefaultCallNotRecorded()
    ensures FitsTables(DEFAULTING) && ("f", "f") in ActualCalls(TopProcs(DEFAULTING))
    ensures !IsRecorded(DEFAULTING, "f") && !FullyScanned(TopProcs(DEFAULTING))
  {
    var ps := TopProcs(DEFAULTING);
    DefaultingProcs();
    assert FitsTables(DEFAULTING);
    FittingCollected(DEFAULTING);
    DefaultingCalls(ps);
    hide TopProcs, FitsTables, Recorded, Collected, ScannedCalls, BodyCalls, DefaultCalls, ActualCalls, OnCycle;
    ThroughDefault(ps, 1, "g", 1);
    RecordedExactly(ps, "f");
    NotCalled(ScannedCalls(ps), "f");
  }

  lemma ThroughDefault(ps: seq<ProcDef>, i: nat, g: string, j: nat)
    requires i < |ps| && j < |ps| && (ps[i].name, g) in BodyCalls(ps) && (g, ps[j].name) in DefaultCalls(ps)
    ensures (ps[i].name, ps[j].name) in ActualCalls(ps)
  {
    hide BodyCalls, DefaultCalls;
    var c := [g, ps[j].name];
    assert CallChain(DefaultCalls(ps), c) && (ps[i].name, c[0]) in BodyCalls(ps) && c[|c| - 1] == ps[j].name;
    assert MayCall(ps, ps[i].name, ps[j].name);
  }

  lemma NotCalled(r: Relation, name: string)
    requires forall c | c in r :: c.1 != name
    ensures !OnCycle(r, name)
  {
    forall c | CallChain(r, c)
      ensures !(c[0] == name && c[|c| - 1] == name)
    {
      assert (c[|c| - 2], c[|c| - 2 + 1]) in r;
    }
  }

  lemma DefaultingProcs()
    ensures TopProcs(DEFAULTING) == [ProcDef("g", [Call(Variable("f"), [])], [Return(Variable("a"))]),
                                     ProcDef("f", [], [Return(Call(Variable("g"), []))])]
  {
    var p := DEFAULTING;
    assert p[..2] == p && p[..1] == [p[0]] && [p[0]][..0] == [];
    assert TopProcs([]) == [];
    assert TopProcs([p[0]]) == [ProcDef("g", [Call(Variable("f"), [])], [Return(Variable("a"))])];
  }

  lemma DefaultingCalls(ps: seq<ProcDef>)
    requires ps == [ProcDef("g", [Call(Variable("f"), [])], [Return(Variable("a"))]),
                    ProcDef("f", [], [Return(Call(Variable("g"), []))])]
    ensures ("g", "f") in DefaultCalls(ps) && ("f", "g") in BodyCalls(ps)
    ensures forall c | c in ScannedCalls(ps) :: c.1 == "g"
  {
    hide CalledExprs, CalledList, DefaultCalls, BodyCalls, StmtsCall;
    OneCall("f");
    OneCall("g");
    CallPairs(ps, 0, 1);
    CallPairs(ps, 1, 0);
    NotScanned(ps[0].body, "f");
    NotScanned(ps[1].body, "f");
  }

  lemma CallPairs(ps: seq<ProcDef>, i: nat, j: nat)
    requires i < |ps| && j < |ps|
    ensures ps[j].name in CalledExprs(ps[i].defaults) ==> (ps[i].name, ps[j].name) in DefaultCalls(ps)
    ensures ps[j].name in CalledList(ps[i].body) ==> (ps[i].name, ps[j].name) in BodyCalls(ps)
  {
    hide CalledExprs, CalledList;
  }

  lemma NotScanned(body: seq<Stmt>, name: string)
    requires |body| == 1 && body[0].Return? && !ExprCalls(body[0].e, name)
    ensures !StmtsCall(body, name)
  {
    hide ExprCalls;
  }

  lemma OneCall(name: string)
    ensures name in CalledExprs([Call(Variable(name), [])]) && name in CalledList([Return(Call(Variable(name), []))])
  {
    var call := Call(Variable(name), []);
    assert name in CalledExpr(call) && name in CalledStmt(Return(call));
    assert CalledList([Return(call)]) == CalledStmt(Return(call)) + CalledList([Return(call)][1..]);
  }

  lemma NoCycle(r: Relation, name: string)
    requires r == {}
    ensures !OnCycle(r, name)
  {
    forall c: seq<string>
      ensures !CallChain(r, c)
    {
      NoChain(r, c);
    }
  }
}
