// Inlining of procs that only return an expression (src/inline.c).
module Inline {
  import opened Common
  import opened Ast
  import opened Values
  import opened Semantics
  import opened Effects

  datatype Candidate = Candidate(name: string, params: seq<string>, result: Expr)

  // ---------- candidates ----------

  /** The expression a body consists in returning, if it does only that.  Only the
      first statement is looked at when it is a block. */
  function SingleReturn(body: seq<Stmt>): Option<Expr> {
    if body == [] then None
    else
      var list := if body[0].Block? then body[0].body else body;
      if |list| == 1 && list[0].Return? && !list[0].e.Absent? then Some(list[0].e) else None
  }

  predicate References(e: Expr, name: string)
    decreases e
  {
    match e
    case Variable(x) => x == name
    case Binary(_, left, right) => References(left, name) || References(right, name)
    case Call(callee, args) =>
      References(callee, name) || exists i | 0 <= i < |args| :: References(args[i], name)
    case Array(es) => exists i | 0 <= i < |es| :: References(es[i], name)
    case Index(base, index) => References(base, name) || References(index, name)
    case IndexSet(base, index, value) => References(base, name) || References(index, name) || References(value, name)
    case Dict(_, values) => exists i | 0 <= i < |values| :: References(values[i], name)
    case Tuple(es) => exists i | 0 <= i < |es| :: References(es[i], name)
    case Slice(base, start, end) => References(base, name) || References(start, name) || References(end, name)
    case Get(obj, _) => References(obj, name)
    case Set(obj, _, value) => References(obj, name) || References(value, name)
    case _ => false
  }

  function CandidateOf(s: Stmt): Option<Candidate> {
    if !s.Proc? then None
    else
      var r := SingleReturn(s.body);
      if r.None? || References(r.value, s.name) then None else Some(Candidate(s.name, s.sig.params, r.value))
  }

  /** The list is built by prepending, so later procs come first. */
  function Candidates(program: seq<Stmt>): seq<Candidate> {
    if program == [] then []
    else
      var rest, c := Candidates(program[..|program| - 1]), CandidateOf(program[|program| - 1]);
      if c.Some? then [c.value] + rest else rest
  }

  method CollectCandidates(program: seq<Stmt>) returns (list: seq<Candidate>)
    ensures list == Candidates(program)
  {
    list := [];
    for i := 0 to |program|
      invariant list == Candidates(program[..i])
    {
      assert program[..i + 1][..i] == program[..i];
      var c := CandidateOf(program[i]);
      if c.Some? { list := [c.value] + list; }
    }
    assert program[..|program|] == program;
  }

  function FindCandidate(cs: seq<Candidate>, name: string): (r: Option<Candidate>)
    ensures r.Some? ==> r.value in cs && r.value.name == name
  {
    if cs == [] then None else if cs[0].name == name then Some(cs[0]) else FindCandidate(cs[1..], name)
  }

  // ---------- the transformation ----------

  function ParamIndex(params: seq<string>, x: string): (r: Option<nat>)
    ensures r.Some? ==> r.value < |params| && params[r.value] == x
    ensures r.None? ==> x !in params
  {
    if params == [] then None
    else if params[0] == x then Some(0)
    else
      var r := ParamIndex(params[1..], x);
      if r.None? then None else Some(r.value + 1)
  }

  function Substitute(e: Expr, params: seq<string>, args: seq<Expr>): Expr
    requires |params| == |args|
    decreases e, 1
  {
    match e
    case Variable(x) =>
      var i := ParamIndex(params, x);
      if i.Some? then args[i.value] else e
    case Binary(op, left, right) => Binary(op, Substitute(left, params, args), Substitute(right, params, args))
    case Call(callee, es) => Call(Substitute(callee, params, args), SubstituteAll(es, params, args))
    case Index(base, index) => Index(Substitute(base, params, args), Substitute(index, params, args))
    case IndexSet(base, index, value) =>
      IndexSet(Substitute(base, params, args), Substitute(index, params, args), Substitute(value, params, args))
    case Array(es) => Array(SubstituteAll(es, params, args))
    case Dict(keys, values) => Dict(keys, SubstituteAll(values, params, args))
    case Tuple(es) => Tuple(SubstituteAll(es, params, args))
    case Slice(base, start, end) =>
      Slice(Substitute(base, params, args), Substitute(start, params, args), Substitute(end, params, args))
    case Get(obj, property) => Get(Substitute(obj, params, args), property)
    case Set(obj, property, value) => Set(Substitute(obj, params, args), property, Substitute(value, params, args))
    case _ => e
  }

  function SubstituteAll(es: seq<Expr>, params: seq<string>, args: seq<Expr>): (r: seq<Expr>)
    requires |params| == |args|
    ensures |r| == |es|
    decreases es, 0
  {
    if es == [] then [] else [Substitute(es[0], params, args)] + SubstituteAll(es[1..], params, args)
  }

  /** The result of an inlining is not inlined again. */
  function InlineExpr(cs: seq<Candidate>, e: Expr): Expr
    decreases e, 1
  {
    match e
    case Call(callee, args) =>
      var f, es := InlineExpr(cs, callee), InlineAll(cs, args);
      var c := if f.Variable? then FindCandidate(cs, f.name) else None;
      if c.Some? && |es| == |c.value.params| then Substitute(c.value.result, c.value.params, es)
      else Call(f, es)
    case Binary(op, left, right) => Binary(op, InlineExpr(cs, left), InlineExpr(cs, right))
    case Array(es) => Array(InlineAll(cs, es))
    case Index(base, index) => Index(InlineExpr(cs, base), InlineExpr(cs, index))
    case IndexSet(base, index, value) =>
      IndexSet(InlineExpr(cs, base), InlineExpr(cs, index), InlineExpr(cs, value))
    case Dict(keys, values) => Dict(keys, InlineAll(cs, values))
    case Tuple(es) => Tuple(InlineAll(cs, es))
    case Slice(base, start, end) => Slice(InlineExpr(cs, base), InlineExpr(cs, start), InlineExpr(cs, end))
    case Get(obj, property) => Get(InlineExpr(cs, obj), property)
    case Set(obj, property, value) => Set(InlineExpr(cs, obj), property, InlineExpr(cs, value))
    case _ => e
  }

  function InlineAll(cs: seq<Candidate>, es: seq<Expr>): (r: seq<Expr>)
    ensures |r| == |es|
    decreases es, 0
  {
    if es == [] then [] else [InlineExpr(cs, es[0])] + InlineAll(cs, es[1..])
  }

  /** Statements: procs, classes, matches and tries are entered, defers and async procs
      are not. */
  function InlineStmt(cs: seq<Candidate>, s: Stmt): Stmt
    decreases s, 1
  {
    match s
    case Print(e) => Print(InlineExpr(cs, e))
    case ExprStmt(e) => ExprStmt(InlineExpr(cs, e))
    case Let(x, e) => Let(x, InlineExpr(cs, e))
    case If(e, thn, els) => If(InlineExpr(cs, e), InlineStmts(cs, thn), InlineStmts(cs, els))
    case Block(body) => Block(InlineStmts(cs, body))
    case While(e, body) => While(InlineExpr(cs, e), InlineStmts(cs, body))
    case Proc(name, sig, body) => Proc(name, sig, InlineStmts(cs, body))
    case For(x, e, body) => For(x, InlineExpr(cs, e), InlineStmts(cs, body))
    case Return(e) => Return(InlineExpr(cs, e))
    case Class(name, parent, methods) => Class(name, parent, InlineStmts(cs, methods))
    case Match(e, cases, default) => Match(InlineExpr(cs, e), InlineCases(cs, cases), InlineStmts(cs, default))
    case Try(block, handlers, final) =>
      Try(InlineStmts(cs, block), InlineHandlers(cs, handlers), InlineStmts(cs, final))
    case Raise(e) => Raise(InlineExpr(cs, e))
    case Yield(e) => Yield(InlineExpr(cs, e))
    case _ => s
  }

  function InlineStmts(cs: seq<Candidate>, ss: seq<Stmt>): (r: seq<Stmt>)
    ensures |r| == |ss|
    decreases ss, 0
  {
    if ss == [] then [] else [InlineStmt(cs, ss[0])] + InlineStmts(cs, ss[1..])
  }

  function InlineCases(cs: seq<Candidate>, xs: seq<Case>): (r: seq<Case>)
    ensures |r| == |xs|
    decreases xs, 0
  {
    if xs == [] then []
    else [Case(InlineExpr(cs, xs[0].pattern), xs[0].guard, InlineStmts(cs, xs[0].body))] + InlineCases(cs, xs[1..])
  }

  function InlineHandlers(cs: seq<Candidate>, xs: seq<Handler>): (r: seq<Handler>)
    ensures |r| == |xs|
    decreases xs, 0
  {
    if xs == [] then []
    else [Handler(xs[0].variable, InlineStmts(cs, xs[0].body))] + InlineHandlers(cs, xs[1..])
  }

  /** The pass: nothing happens without candidates. */
  function PassInline(program: seq<Stmt>): seq<Stmt> {
    var cs := Candidates(program);
    if cs == [] then program else InlineStmts(cs, program)
  }

  // ---------- when it is right ----------

  /** Only the kinds of node that substitution handles, without calls or effects,
      and only the parameters as variables. */
  predicate Closed(params: seq<string>, e: Expr)
    decreases Size(e), 0
  {
    if e.Variable? then e.name in params
    else if e.Binary? then Closed(params, e.left) && Closed(params, e.right)
    else if !Plain(e) || e.Set? || e.IndexSet? || e.Await? || e.Unwrap? || e.Range? || e.Super? || e.Comptime?
            || e.Interp?
    then false
    else
      OperandsSmaller(e);
      AllClosed(params, Operands(e))
  }

  predicate AllClosed(params: seq<string>, es: seq<Expr>)
    decreases SizeAll(es), 1 + |es|
  {
    es == [] || (Closed(params, es[0]) && AllClosed(params, es[1..]))
  }

  predicate DistinctParams(params: seq<string>) {
    forall i, j | 0 <= i < j < |params| :: params[i] != params[j]
  }

  predicate Good(c: Candidate) { DistinctParams(c.params) && Closed(c.params, c.result) }

  /** An expression without effects, whose calls are all calls of candidates with the
      right number of arguments; what inlining does not enter has no calls. */
  predicate Pure(cs: seq<Candidate>, e: Expr)
    decreases Size(e), 0
  {
    if e.Call? then
      && e.callee.Variable? && FindCandidate(cs, e.callee.name).Some?
      && |e.args| == |FindCandidate(cs, e.callee.name).value.params|
      && AllPure(cs, e.args)
    else if e.Binary? then Pure(cs, e.left) && Pure(cs, e.right)
    else if Entered(e) then OperandsSmaller(e); AllPure(cs, Operands(e))
    else Quiet(e)
  }

  /** The effect-free kinds that inlining enters. */
  predicate Entered(e: Expr) {
    e.Array? || e.Index? || e.Dict? || e.Tuple? || e.Slice? || e.Get?
  }

  predicate AllPure(cs: seq<Candidate>, es: seq<Expr>)
    decreases SizeAll(es), 1 + |es|
  {
    es == [] || (Pure(cs, es[0]) && AllPure(cs, es[1..]))
  }

  /** The candidates' names are bound to the procs they were taken from. */
  ghost predicate Bound(cs: seq<Candidate>, st: State) {
    && st.scopes != []
    && forall x | FindCandidate(cs, x).Some? ::
         var c, v := FindCandidate(cs, x).value, Lookup(st.scopes, x);
         && v.Some? && v.value.FunV? && v.value.sig.params == c.params
         && SingleReturn(v.value.body) == Some(c.result) && Good(c)
  }

  // ---------- when a whole program is safe ----------

  /** Is a call of `f` with `n` arguments replaced? */
  predicate Inlined(cs: seq<Candidate>, f: Expr, n: nat) {
    f.Variable? && FindCandidate(cs, f.name).Some? && n == |FindCandidate(cs, f.name).value.params|
  }

  /** No assignment to a candidate's name, no effects in the arguments of a call that is
      replaced, and no call of a value turned into a call of a method or an object whose
      property is set turned into none. */
  predicate SafeExpr(cs: seq<Candidate>, e: Expr)
    decreases Size(e), 0
  {
    if e.Binary? || e.NullCoal? then SafeExpr(cs, e.left) && SafeExpr(cs, e.right)
    else if e.OptChain? then SafeExpr(cs, e.receiver)
    else if e.Call? then
      && SafeExpr(cs, e.callee) && SafeExprs(cs, e.args)
      && (InlineExpr(cs, e.callee).Get? ==> e.callee.Get?)
      && (Inlined(cs, InlineExpr(cs, e.callee), |e.args|) ==> AllPure(cs, e.args))
    else if e.Set? && e.receiver.Absent? then FindCandidate(cs, e.property).None? && SafeExpr(cs, e.value)
    else
      OperandsSmaller(e);
      SafeExprs(cs, Operands(e)) && (e.Set? ==> !InlineExpr(cs, e.receiver).Absent?)
  }

  predicate SafeExprs(cs: seq<Candidate>, es: seq<Expr>)
    decreases SizeAll(es), 1 + |es|
  {
    es == [] || (SafeExpr(cs, es[0]) && SafeExprs(cs, es[1..]))
  }

  /** A proc that has a candidate's name is that candidate. */
  predicate IsItself(cs: seq<Candidate>, name: string, params: seq<string>, body: seq<Stmt>) {
    var c := FindCandidate(cs, name);
    c.Some? ==> params == c.value.params && SingleReturn(body) == Some(c.value.result)
  }

  predicate NoneNamed(cs: seq<Candidate>, names: seq<string>) {
    forall i | 0 <= i < |names| :: FindCandidate(cs, names[i]).None?
  }

  /** No variable, loop variable or parameter takes a candidate's name, and no other proc
      does. */
  predicate SafeStmt(cs: seq<Candidate>, s: Stmt)
    decreases s, 1
  {
    match s
    case Print(e) => SafeExpr(cs, e)
    case ExprStmt(e) => SafeExpr(cs, e)
    case Return(e) => SafeExpr(cs, e)
    case Let(x, e) => NoneNamed(cs, [x]) && SafeExpr(cs, e)
    case If(e, thn, els) => SafeExpr(cs, e) && SafeList(cs, thn) && SafeList(cs, els)
    case Block(body) => SafeList(cs, body)
    case While(e, body) => SafeExpr(cs, e) && SafeList(cs, body)
    case For(x, e, body) => NoneNamed(cs, [x]) && SafeExpr(cs, e) && SafeList(cs, body)
    case Proc(name, sig, body) =>
      && IsItself(cs, name, sig.params, body) && NoneNamed(cs, sig.params)
      && SafeExprs(cs, sig.defaults) && SafeList(cs, body)
    case Raise(e) => SafeExpr(cs, e)
    case Class(name, _, methods) => NoneNamed(cs, [name]) && SafeMethods(cs, methods)
    case Try(block, handlers, final) => SafeList(cs, block) && SafeHandlers(cs, handlers) && SafeList(cs, final)
    case Match(e, cases, default) => SafeExpr(cs, e) && SafeCases(cs, cases) && SafeList(cs, default)
    case _ => true
  }

  /** Methods are not in scope, so their own names do not matter. */
  predicate SafeMethods(cs: seq<Candidate>, ss: seq<Stmt>)
    decreases ss, 0
  {
    ss == []
    || ((ss[0].Proc? ==>
           NoneNamed(cs, ss[0].sig.params) && SafeExprs(cs, ss[0].sig.defaults) && SafeList(cs, ss[0].body))
        && SafeMethods(cs, ss[1..]))
  }

  predicate SafeHandlers(cs: seq<Candidate>, hs: seq<Handler>)
    decreases hs, 0
  {
    hs == [] || (NoneNamed(cs, [hs[0].variable]) && SafeList(cs, hs[0].body) && SafeHandlers(cs, hs[1..]))
  }

  /** Is a pattern still of the same kind, with the same names, after the pass?  A call of a
      candidate in its place would not be. */
  predicate SamePattern(a: Expr, b: Expr) { KindOf(a) == KindOf(b) && PatternNames(a) == PatternNames(b) }

  predicate NoneBound(cs: seq<Candidate>, names: seq<Option<string>>) {
    forall i | 0 <= i < |names| && names[i].Some? :: FindCandidate(cs, names[i].value).None?
  }

  predicate SafeCases(cs: seq<Candidate>, xs: seq<Case>)
    decreases xs, 0
  {
    xs == []
    || (SafeExpr(cs, xs[0].pattern) && SamePattern(xs[0].pattern, InlineExpr(cs, xs[0].pattern))
        && NoneBound(cs, PatternNames(xs[0].pattern)) && SafeExpr(cs, xs[0].guard) && SafeList(cs, xs[0].body)
        && SafeCases(cs, xs[1..]))
  }

  predicate SafeList(cs: seq<Candidate>, ss: seq<Stmt>)
    decreases ss, 0
  {
    ss == [] || (SafeStmt(cs, ss[0]) && SafeList(cs, ss[1..]))
  }

  predicate AllGood(cs: seq<Candidate>) { forall c | c in cs :: Good(c) }

  /** What can be checked before the pass. */
  predicate SafeToInline(program: seq<Stmt>) {
    AllGood(Candidates(program)) && SafeList(Candidates(program), program)
  }

  // ---------- substitution ----------

  /** The frame of a call. */
  function Frame(st: State, params: seq<string>, vs: seq<Value>): State
    requires st.scopes != [] && |params| == |vs|
  {
    st.(scopes := [st.scopes[0], Bind(params, vs)])
  }

  lemma {:induction false} BindAt(params: seq<string>, vs: seq<Value>, i: nat)
    requires |params| == |vs| && DistinctParams(params) && i < |params|
    ensures params[i] in Bind(params, vs) && Bind(params, vs)[params[i]].value == vs[i]
  {
    if i < |params| - 1 {
      BindAt(params[..|params| - 1], vs[..|vs| - 1], i);
    }
  }

  /** What the arguments stand for. */
  predicate Stand(w: World, fuel: nat, st: State, args: seq<Expr>, vs: seq<Value>) {
    |args| == |vs| && forall i | 0 <= i < |args| :: Eval(w, fuel, args[i], st) == Got(vs[i], st)
  }

  lemma LookupParam(st: State, params: seq<string>, vs: seq<Value>, x: string)
    requires st.scopes != [] && |params| == |vs| && DistinctParams(params) && x in params
    ensures ParamIndex(params, x).Some?
    ensures Lookup(Frame(st, params, vs).scopes, x) == Some(vs[ParamIndex(params, x).value])
  {
    BindAt(params, vs, ParamIndex(params, x).value);
  }

  /** The same value in the frame of the call as with the arguments in place of the
      parameters. */
  predicate Fits(w: World, k: nat, fuel: nat, e: Expr, params: seq<string>, args: seq<Expr>, vs: seq<Value>, st: State)
    requires st.scopes != [] && |params| == |args| == |vs|
  {
    var r := Eval(w, k, e, Frame(st, params, vs));
    r.Got? ==> r.st == Frame(st, params, vs) && Eval(w, fuel, Substitute(e, params, args), st) == Got(r.value, st)
  }

  predicate AllFit(w: World, k: nat, fuel: nat, es: seq<Expr>, params: seq<string>, args: seq<Expr>, vs: seq<Value>,
                   st: State)
    requires st.scopes != [] && |params| == |args| == |vs|
  {
    var r := EvalAll(w, k, es, Frame(st, params, vs));
    r.Got? ==>
      && r.st == Frame(st, params, vs)
      && EvalAll(w, fuel, SubstituteAll(es, params, args), st) == Got(r.value, st)
  }

  lemma BinaryFits(w: World, k: nat, fuel: nat, op: Op, l: Expr, r: Expr, params: seq<string>, args: seq<Expr>,
                   vs: seq<Value>, st: State)
    requires st.scopes != [] && |params| == |args| == |vs|
    requires Fits(w, k, fuel, l, params, args, vs, st) && Fits(w, k, fuel, r, params, args, vs, st)
    ensures Fits(w, k, fuel, Binary(op, l, r), params, args, vs, st)
  {
    hide EvalAll, Finish, Operated, Truthy, Frame;
  }

  /** Substitution keeps the node and works on the operands. */
  lemma SubstituteRebuilds(e: Expr, params: seq<string>, args: seq<Expr>)
    requires |params| == |args| && Closed(params, e) && !e.Variable? && !e.Binary?
    ensures Substitute(e, params, args) == Rebuild(e, SubstituteAll(Operands(e), params, args))
    ensures Plain(e) && Plain(Rebuild(e, SubstituteAll(Operands(e), params, args))) && AllClosed(params, Operands(e))
  {
    var es := Operands(e);
    if |es| == 1 { SubstituteThree(es[0], e, e, params, args); }
    if |es| == 2 { SubstituteThree(es[0], es[1], e, params, args); }
    if |es| == 3 { SubstituteThree(es[0], es[1], es[2], params, args); }
  }

  lemma SubstituteThree(a: Expr, b: Expr, c: Expr, params: seq<string>, args: seq<Expr>)
    requires |params| == |args|
    ensures SubstituteAll([a], params, args) == [Substitute(a, params, args)]
    ensures SubstituteAll([a, b], params, args) == [Substitute(a, params, args), Substitute(b, params, args)]
    ensures SubstituteAll([a, b, c], params, args)
            == [Substitute(a, params, args), Substitute(b, params, args), Substitute(c, params, args)]
  {
    hide Substitute;
    assert [a, b, c][1..] == [b, c] && [b, c][1..] == [c] && [a, b][1..] == [b];
    assert [c][1..] == [] && [b][1..] == [] && [a][1..] == [];
    assert SubstituteAll([c], params, args) == [Substitute(c, params, args)];
    assert SubstituteAll([b], params, args) == [Substitute(b, params, args)];
  }

  lemma PlainFits(w: World, k: nat, fuel: nat, e: Expr, params: seq<string>, args: seq<Expr>, vs: seq<Value>, st: State)
    requires st.scopes != [] && |params| == |args| == |vs| && Closed(params, e) && !e.Variable? && !e.Binary?
    requires AllFit(w, k, fuel, Operands(e), params, args, vs, st)
    ensures Fits(w, k, fuel, e, params, args, vs, st)
  {
    SubstituteRebuilds(e, params, args);
    var es := SubstituteAll(Operands(e), params, args);
    var r := EvalAll(w, k, Operands(e), Frame(st, params, vs));
    if r.Got? {
      SameFinish(w, e, es, r.value, Frame(st, params, vs), st);
    }
    hide EvalAll, Operands, Rebuild, Substitute, SubstituteAll, Bind, Closed, Finish;
  }

  /** What closed nodes do with operand values depends on the trace only. */
  lemma SameFinish(w: World, e: Expr, es: seq<Expr>, vs: seq<Value>, a: State, b: State)
    requires Plain(e) && |vs| == |es| == |Operands(e)| && a.trace == b.trace
    requires !e.Variable? && !e.Set? && !e.IndexSet? && !e.Await? && !e.Super?
    ensures var r, r' := Finish(w, e, vs, a), Finish(w, Rebuild(e, es), vs, b);
            (r.Got? ==> r.st == a) && r' == (if r.Got? then Got(r.value, b) else r)
  {
  }

  /** The substitution lemma, for closed expressions. */
  lemma {:induction false} SubstitutionLemma(w: World, k: nat, fuel: nat, e: Expr, params: seq<string>,
                                             args: seq<Expr>, vs: seq<Value>, st: State)
    requires st.scopes != [] && |params| == |args| && DistinctParams(params) && Closed(params, e)
    requires Stand(w, fuel, st, args, vs)
    ensures Fits(w, k, fuel, e, params, args, vs, st)
    decreases Size(e), 0
  {
    if e.Variable? {
      VariableFits(w, k, fuel, e.name, params, args, vs, st);
    } else if e.Binary? {
      SubstitutionLemma(w, k, fuel, e.left, params, args, vs, st);
      SubstitutionLemma(w, k, fuel, e.right, params, args, vs, st);
      BinaryFits(w, k, fuel, e.op, e.left, e.right, params, args, vs, st);
    } else {
      OperandsSmaller(e);
      SubstitutionAll(w, k, fuel, Operands(e), params, args, vs, st);
      PlainFits(w, k, fuel, e, params, args, vs, st);
    }
    hide *;
  }

  lemma VariableFits(w: World, k: nat, fuel: nat, x: string, params: seq<string>, args: seq<Expr>, vs: seq<Value>,
                     st: State)
    requires st.scopes != [] && |params| == |args| && DistinctParams(params) && x in params
    requires Stand(w, fuel, st, args, vs)
    ensures Fits(w, k, fuel, Variable(x), params, args, vs, st)
  {
    LookupParam(st, params, vs, x);
    hide Lookup, Frame;
    var fr := Frame(st, params, vs);
    assert EvalAll(w, k, [], fr) == Got([], fr);
  }

  lemma {:induction false} SubstitutionAll(w: World, k: nat, fuel: nat, es: seq<Expr>, params: seq<string>,
                                           args: seq<Expr>, vs: seq<Value>, st: State)
    requires st.scopes != [] && |params| == |args| && DistinctParams(params) && Stand(w, fuel, st, args, vs)
    requires AllClosed(params, es)
    ensures AllFit(w, k, fuel, es, params, args, vs, st)
    decreases SizeAll(es), 1 + |es|
  {
    hide Eval, Substitute, Closed;
    if es != [] {
      SubstitutionLemma(w, k, fuel, es[0], params, args, vs, st);
      SubstitutionAll(w, k, fuel, es[1..], params, args, vs, st);
      assert SubstituteAll(es, params, args)[1..] == SubstituteAll(es[1..], params, args);
    }
  }

  // ---------- inlining keeps values ----------

  /** A call of a candidate is the value of its result in the frame. */
  lemma CandidateCall(w: World, fuel: nat, c: Candidate, f: Value, vs: seq<Value>, st: State)
    requires st.scopes != [] && f.FunV? && f.sig.params == c.params && |vs| == |c.params| && Takes(f.sig, |vs|)
    requires SingleReturn(f.body) == Some(c.result) && Closed(c.params, c.result) && DistinctParams(c.params)
    ensures var r := CallProc(w, fuel, f, vs, st);
            r.Got? ==>
              var r' := Eval(w, fuel, c.result, Frame(st, c.params, vs));
              r'.Got? && r'.value == r.value && r.st == st
  {
    FullCall(w, fuel, f, vs, st);
    hide CallProc;
    var fr := Frame(st, c.params, vs);
    var r' := Eval(w, fuel, c.result, fr);
    var body := f.body;
    ClosedKeeps(w, fuel, c.params, c.result, fr);
    hide Eval;
    if body[0].Block? {
      ReturnRuns(w, fuel, body[0].body, fr);
      ReturnFirst(w, fuel, body, fr);
    } else {
      ReturnRuns(w, fuel, body, fr);
    }
  }

  lemma ClosedKeeps(w: World, fuel: nat, params: seq<string>, e: Expr, st: State)
    requires Closed(params, e)
    ensures Eval(w, fuel, e, st).Got? ==> Eval(w, fuel, e, st).st == st
  {
    ClosedQuiet(params, e);
    QuietKeeps(w, fuel, e, st);
  }

  lemma {:induction false} ClosedQuiet(params: seq<string>, e: Expr)
    requires Closed(params, e)
    ensures Quiet(e)
    decreases Size(e), 0
  {
    if e.Binary? {
      ClosedQuiet(params, e.left);
      ClosedQuiet(params, e.right);
    } else {
      OperandsSmaller(e);
      if !e.Variable? { AllClosedQuiet(params, Operands(e)); }
    }
  }

  lemma {:induction false} AllClosedQuiet(params: seq<string>, es: seq<Expr>)
    requires AllClosed(params, es)
    ensures AllQuiet(es)
    decreases SizeAll(es), 1 + |es|
  {
    if es != [] {
      ClosedQuiet(params, es[0]);
      AllClosedQuiet(params, es[1..]);
    }
  }

  lemma ReturnRuns(w: World, fuel: nat, list: seq<Stmt>, st: State)
    requires |list| == 1 && list[0].Return?
    ensures var v := Eval(w, fuel, list[0].e, st);
            ExecAll(w, fuel, list, st) == if v.Got? then Returned(v.value, v.st) else Stop(v)
  {
    hide Eval;
  }

  lemma ReturnFirst(w: World, fuel: nat, body: seq<Stmt>, st: State)
    requires body != [] && body[0].Block? && !ExecAll(w, fuel, body[0].body, st).Normal?
    ensures ExecAll(w, fuel, body, st) == ExecAll(w, fuel, body[0].body, st)
  {
    assert Exec(w, fuel, body[0], st) == ExecAll(w, fuel, body[0].body, st);
  }

  /** If the evaluation comes to an end, inlining has kept its value. */
  ghost predicate Kept(w: World, fuel: nat, cs: seq<Candidate>, e: Expr, st: State) {
    var r := Eval(w, fuel, e, st);
    r.Got? ==> r.st == st && Eval(w, fuel, InlineExpr(cs, e), st) == Got(r.value, st)
  }

  ghost predicate AllKept(w: World, fuel: nat, cs: seq<Candidate>, es: seq<Expr>, st: State) {
    var r := EvalAll(w, fuel, es, st);
    r.Got? ==>
      && r.st == st && EvalAll(w, fuel, InlineAll(cs, es), st) == Got(r.value, st)
      && Stand(w, fuel, st, InlineAll(cs, es), r.value)
  }

  lemma BinaryKept(w: World, fuel: nat, cs: seq<Candidate>, op: Op, l: Expr, r: Expr, st: State)
    requires Kept(w, fuel, cs, l, st) && Kept(w, fuel, cs, r, st)
    ensures Kept(w, fuel, cs, Binary(op, l, r), st)
  {
    hide Operated, Truthy, EvalAll, Finish;
  }

  /** Inlining keeps the node and works on the operands. */
  lemma InlineRebuilds(cs: seq<Candidate>, e: Expr)
    requires Entered(e)
    ensures InlineExpr(cs, e) == Rebuild(e, InlineAll(cs, Operands(e)))
  {
    var es := Operands(e);
    if |es| == 1 { InlineThree(cs, es[0], e, e); }
    if |es| == 2 { InlineThree(cs, es[0], es[1], e); }
    if |es| == 3 { InlineThree(cs, es[0], es[1], es[2]); }
  }

  lemma InlineThree(cs: seq<Candidate>, a: Expr, b: Expr, c: Expr)
    ensures InlineAll(cs, [a]) == [InlineExpr(cs, a)]
    ensures InlineAll(cs, [a, b]) == [InlineExpr(cs, a), InlineExpr(cs, b)]
    ensures InlineAll(cs, [a, b, c]) == [InlineExpr(cs, a), InlineExpr(cs, b), InlineExpr(cs, c)]
  {
    hide InlineExpr;
    assert [a, b, c][1..] == [b, c] && [b, c][1..] == [c] && [a, b][1..] == [b];
    assert [c][1..] == [] && [b][1..] == [] && [a][1..] == [];
    assert InlineAll(cs, [c]) == [InlineExpr(cs, c)] && InlineAll(cs, [b]) == [InlineExpr(cs, b)];
  }

  lemma PlainKept(w: World, fuel: nat, cs: seq<Candidate>, e: Expr, st: State)
    requires Entered(e) && AllKept(w, fuel, cs, Operands(e), st)
    ensures Kept(w, fuel, cs, e, st)
  {
    InlineRebuilds(cs, e);
    var r := EvalAll(w, fuel, Operands(e), st);
    if r.Got? {
      SameFinish(w, e, InlineAll(cs, Operands(e)), r.value, st, st);
    }
    hide EvalAll, InlineAll, Stand, InlineExpr, Finish;
  }

  lemma LeafKept(w: World, fuel: nat, cs: seq<Candidate>, e: Expr, st: State)
    requires Quiet(e) && InlineExpr(cs, e) == e
    ensures Kept(w, fuel, cs, e, st)
  {
    hide Eval, InlineExpr;
    QuietKeeps(w, fuel, e, st);
  }

  lemma LeafPure(cs: seq<Candidate>, e: Expr)
    requires Quiet(e) && !e.Call? && !e.Binary? && !Entered(e)
    ensures InlineExpr(cs, e) == e
  {
  }

  lemma ConsKept(w: World, fuel: nat, cs: seq<Candidate>, es: seq<Expr>, st: State)
    requires es != [] && Kept(w, fuel, cs, es[0], st) && AllKept(w, fuel, cs, es[1..], st)
    ensures AllKept(w, fuel, cs, es, st)
  {
    hide Eval, InlineExpr;
    assert InlineAll(cs, es)[1..] == InlineAll(cs, es[1..]);
  }

  lemma {:induction false} InliningKept(w: World, fuel: nat, cs: seq<Candidate>, e: Expr, st: State)
    requires Bound(cs, st) && Pure(cs, e)
    ensures Kept(w, fuel, cs, e, st)
    decreases Size(e), 0
  {
    hide Bound, Kept, AllKept, Quiet, InlineExpr, AllPure;
    OperandsSmaller(e);
    if e.Call? {
      InliningAll(w, fuel, cs, e.args, st);
      InliningCall(w, fuel, cs, e.callee, e.args, st);
    } else if e.Binary? {
      InliningKept(w, fuel, cs, e.left, st);
      InliningKept(w, fuel, cs, e.right, st);
      BinaryKept(w, fuel, cs, e.op, e.left, e.right, st);
    } else if Entered(e) {
      InliningAll(w, fuel, cs, Operands(e), st);
      PlainKept(w, fuel, cs, e, st);
    } else {
      LeafPure(cs, e);
      LeafKept(w, fuel, cs, e, st);
    }
  }

  lemma {:induction false} InliningAll(w: World, fuel: nat, cs: seq<Candidate>, es: seq<Expr>, st: State)
    requires Bound(cs, st) && AllPure(cs, es)
    ensures AllKept(w, fuel, cs, es, st)
    decreases SizeAll(es), 1 + |es|
  {
    hide Bound, Kept, Pure;
    if es != [] {
      InliningKept(w, fuel, cs, es[0], st);
      InliningAll(w, fuel, cs, es[1..], st);
      ConsKept(w, fuel, cs, es, st);
    }
  }

  lemma InliningCall(w: World, fuel: nat, cs: seq<Candidate>, callee: Expr, es: seq<Expr>, st: State)
    requires Bound(cs, st) && Pure(cs, Call(callee, es))
    requires AllKept(w, fuel, cs, es, st)
    ensures Kept(w, fuel, cs, Call(callee, es), st)
  {
    hide Eval, EvalAll, CallProc, InlineExpr, InlineAll, SingleReturn, Substitute, Closed, Quiet;
    var c := FindCandidate(cs, callee.name).value;
    var f := Lookup(st.scopes, callee.name).value;
    var vs := EvalAll(w, fuel, es, st);
    CallRuns(w, fuel, callee.name, es, st);
    if vs.Got? && fuel > 0 && Takes(f.sig, |es|) {
      CandidateCall(w, fuel - 1, c, f, vs.value, st);
      SubstitutionLemma(w, fuel - 1, fuel, c.result, c.params, InlineAll(cs, es), vs.value, st);
    }
    InlinedCall(cs, callee.name, es);
  }

  lemma CallRuns(w: World, fuel: nat, x: string, es: seq<Expr>, st: State)
    requires Lookup(st.scopes, x).Some? && Lookup(st.scopes, x).value.FunV?
    requires |es| == |Lookup(st.scopes, x).value.sig.params|
    ensures var r, vs := Eval(w, fuel, Call(Variable(x), es), st), EvalAll(w, fuel, es, st);
            r.Got? ==>
              var f := Lookup(st.scopes, x).value;
              vs.Got? && fuel > 0 && Takes(f.sig, |es|) && r == CallProc(w, fuel - 1, f, vs.value, vs.st)
  {
    assert EvalAll(w, fuel, [], st) == Got([], st);
    hide EvalAll, CallProc;
    assert Eval(w, fuel, Variable(x), st) == Got(Lookup(st.scopes, x).value, st);
  }

  lemma InlinedCall(cs: seq<Candidate>, x: string, es: seq<Expr>)
    requires FindCandidate(cs, x).Some? && |es| == |FindCandidate(cs, x).value.params|
    ensures var c := FindCandidate(cs, x).value;
            InlineExpr(cs, Call(Variable(x), es)) == Substitute(c.result, c.params, InlineAll(cs, es))
  {
    assert InlineExpr(cs, Variable(x)) == Variable(x);
  }

  /** Inlining preserves the value of every evaluation that comes to an end. */
  lemma InliningPreserves(w: World, fuel: nat, cs: seq<Candidate>, e: Expr, st: State)
    requires Bound(cs, st) && Pure(cs, e) && Eval(w, fuel, e, st).Got?
    ensures Eval(w, fuel, InlineExpr(cs, e), st) == Eval(w, fuel, e, st)
    ensures Eval(w, fuel, e, st).st == st
  {
    InliningKept(w, fuel, cs, e, st);
  }

  // ---------- replacing one call ----------

  /** Such a call raises nothing. */
  lemma CallRaisesNothing(w: World, fuel: nat, c: Candidate, x: string, es: seq<Expr>, st: State)
    requires st.scopes != [] && Lookup(st.scopes, x).Some? && AllQuiet(es) && Good(c)
    requires var f := Lookup(st.scopes, x).value;
             f.FunV? && f.sig.params == c.params && |es| == |c.params| && SingleReturn(f.body) == Some(c.result)
    ensures !Eval(w, fuel, Call(Variable(x), es), st).Threw?
  {
    var f := Lookup(st.scopes, x).value;
    AllQuietKeeps(w, fuel, es, st);
    assert EvalAll(w, fuel, [], st) == Got([], st);
    assert Eval(w, fuel, Variable(x), st) == Got(f, st);
    var vs := EvalAll(w, fuel, es, st);
    if vs.Got? && fuel > 0 && Takes(f.sig, |es|) {
      CandidateRaisesNothing(w, fuel - 1, c, f, vs.value, st);
    }
    hide EvalAll, CallProc, SingleReturn, Lookup, Closed, Quiet;
  }

  lemma CandidateRaisesNothing(w: World, fuel: nat, c: Candidate, f: Value, vs: seq<Value>, st: State)
    requires st.scopes != [] && f.FunV? && f.sig.params == c.params && |vs| == |c.params| && Takes(f.sig, |vs|)
    requires SingleReturn(f.body) == Some(c.result) && Closed(c.params, c.result)
    ensures !CallProc(w, fuel, f, vs, st).Threw?
  {
    FullCall(w, fuel, f, vs, st);
    hide CallProc;
    var fr := Frame(st, c.params, vs);
    var body := f.body;
    ClosedQuiet(c.params, c.result);
    QuietKeeps(w, fuel, c.result, fr);
    hide Eval;
    if body[0].Block? {
      ReturnRuns(w, fuel, body[0].body, fr);
      ReturnFirst(w, fuel, body, fr);
    } else {
      ReturnRuns(w, fuel, body, fr);
    }
  }

  /** Quiet arguments stand for their values. */
  lemma {:induction false} QuietStand(w: World, fuel: nat, es: seq<Expr>, st: State)
    requires AllQuiet(es)
    ensures var vs := EvalAll(w, fuel, es, st); vs.Got? ==> vs.st == st && Stand(w, fuel, st, es, vs.value)
    decreases |es|
  {
    hide Eval, Quiet;
    if es != [] {
      QuietKeeps(w, fuel, es[0], st);
      QuietStand(w, fuel, es[1..], st);
    }
  }

  /** A call whose arguments have no effects is its substituted result. */
  lemma CallReplaced(w: World, fuel: nat, c: Candidate, x: string, es: seq<Expr>, st: State)
    requires st.scopes != [] && Lookup(st.scopes, x).Some? && AllQuiet(es) && Good(c)
    requires var f := Lookup(st.scopes, x).value;
             f.FunV? && f.sig.params == c.params && |es| == |c.params| && SingleReturn(f.body) == Some(c.result)
    ensures var r := Eval(w, fuel, Call(Variable(x), es), st);
            r.Got? ==> Eval(w, fuel, Substitute(c.result, c.params, es), st) == r
  {
    hide Eval, EvalAll, CallProc, SingleReturn, Substitute, Closed, Quiet, AllQuiet, Lookup, DistinctParams;
    var f := Lookup(st.scopes, x).value;
    var vs := EvalAll(w, fuel, es, st);
    CallRuns(w, fuel, x, es, st);
    QuietStand(w, fuel, es, st);
    if vs.Got? && fuel > 0 && Takes(f.sig, |es|) {
      CandidateCall(w, fuel - 1, c, f, vs.value, st);
      SubstitutionLemma(w, fuel - 1, fuel, c.result, c.params, es, vs.value, st);
    }
  }

  /** Inlining leaves nothing but quiet code of pure expressions. */
  lemma {:induction false} PureInlinesQuiet(cs: seq<Candidate>, e: Expr)
    requires AllGood(cs) && Pure(cs, e)
    ensures Quiet(InlineExpr(cs, e))
    decreases Size(e), 0
  {
    OperandsSmaller(e);
    if e.Call? {
      AllInlineQuiet(cs, e.args);
      var c := FindCandidate(cs, e.callee.name).value;
      InlinedCall(cs, e.callee.name, e.args);
      SubstituteQuiet(c.result, c.params, InlineAll(cs, e.args));
    } else if e.Binary? {
      PureInlinesQuiet(cs, e.left);
      PureInlinesQuiet(cs, e.right);
    } else if Entered(e) {
      AllInlineQuiet(cs, Operands(e));
      InlineRebuilds(cs, e);
      RebuildQuiet(e, InlineAll(cs, Operands(e)));
    } else {
      LeafPure(cs, e);
    }
  }

  lemma {:induction false} AllInlineQuiet(cs: seq<Candidate>, es: seq<Expr>)
    requires AllGood(cs) && AllPure(cs, es)
    ensures AllQuiet(InlineAll(cs, es))
    decreases SizeAll(es), 1 + |es|
  {
    hide Quiet, InlineExpr, Pure;
    if es != [] {
      PureInlinesQuiet(cs, es[0]);
      AllInlineQuiet(cs, es[1..]);
      assert InlineAll(cs, es)[1..] == InlineAll(cs, es[1..]);
    }
  }

  lemma RebuildQuiet(e: Expr, es: seq<Expr>)
    requires |es| == |Operands(e)| && AllQuiet(es)
    requires Plain(e) && !e.Set? && !e.IndexSet? && !e.Await? && !e.Super?
    ensures Quiet(Rebuild(e, es))
  {
  }

  lemma {:induction false} SubstituteQuiet(e: Expr, params: seq<string>, args: seq<Expr>)
    requires |params| == |args| && Closed(params, e) && AllQuiet(args)
    ensures Quiet(Substitute(e, params, args))
    decreases Size(e), 0
  {
    OperandsSmaller(e);
    if e.Variable? {
      QuietAt(args, ParamIndex(params, e.name).value);
    } else if e.Binary? {
      SubstituteQuiet(e.left, params, args);
      SubstituteQuiet(e.right, params, args);
    } else {
      SubstituteRebuilds(e, params, args);
      SubstituteAllQuiet(Operands(e), params, args);
      RebuildQuiet(e, SubstituteAll(Operands(e), params, args));
    }
  }

  lemma {:induction false} SubstituteAllQuiet(es: seq<Expr>, params: seq<string>, args: seq<Expr>)
    requires |params| == |args| && AllClosed(params, es) && AllQuiet(args)
    ensures AllQuiet(SubstituteAll(es, params, args))
    decreases SizeAll(es), 1 + |es|
  {
    hide Quiet, Substitute, Closed;
    if es != [] {
      SubstituteQuiet(es[0], params, args);
      SubstituteAllQuiet(es[1..], params, args);
      assert SubstituteAll(es, params, args)[1..] == SubstituteAll(es[1..], params, args);
    }
  }

  lemma {:induction false} QuietAt(es: seq<Expr>, i: nat)
    requires AllQuiet(es) && i < |es|
    ensures Quiet(es[i])
  {
    if i > 0 {
      QuietAt(es[1..], i - 1);
    }
  }

  /** The body of a candidate is not changed by the pass. */
  lemma {:induction false} ClosedUnchanged(cs: seq<Candidate>, params: seq<string>, e: Expr)
    requires Closed(params, e)
    ensures InlineExpr(cs, e) == e
    decreases Size(e), 0
  {
    OperandsSmaller(e);
    if e.Binary? {
      ClosedUnchanged(cs, params, e.left);
      ClosedUnchanged(cs, params, e.right);
    } else if Entered(e) {
      AllClosedUnchanged(cs, params, Operands(e));
      InlineRebuilds(cs, e);
    }
  }

  lemma {:induction false} AllClosedUnchanged(cs: seq<Candidate>, params: seq<string>, es: seq<Expr>)
    requires AllClosed(params, es)
    ensures InlineAll(cs, es) == es
    decreases SizeAll(es), 1 + |es|
  {
    hide Closed, InlineExpr;
    if es != [] {
      ClosedUnchanged(cs, params, es[0]);
      AllClosedUnchanged(cs, params, es[1..]);
    }
  }

  lemma CandidateUnchanged(cs: seq<Candidate>, c: Candidate, body: seq<Stmt>)
    requires SingleReturn(body) == Some(c.result) && Good(c)
    ensures SingleReturn(InlineStmts(cs, body)) == Some(c.result)
  {
    ClosedUnchanged(cs, c.params, c.result);
    var list := if body[0].Block? then body[0].body else body;
    assert InlineStmts(cs, body)[0] == InlineStmt(cs, body[0]);
    assert InlineStmts(cs, list) == [InlineStmt(cs, list[0])] + InlineStmts(cs, list[1..]);
    hide InlineExpr, Closed;
  }

  // ---------- where it goes wrong ----------

  /** Two parameters of one name: the call binds the last argument, substitution
      takes the first. */
  lemma DuplicateParams(w: World, fuel: nat)
    requires fuel > 0
    ensures var c := Candidate("f", ["a", "a"], Variable("a"));
            var st := State([map["f" := Binding(FunV("f", Bare(["a", "a"]), [Return(Variable("a"))]), true)]], []);
            var e := Call(Variable("f"), [Int(1), Int(2)]);
            && CandidateOf(Proc("f", Bare(["a", "a"]), [Return(Variable("a"))])) == Some(c)
            && Eval(w, fuel, e, st) == Got(IntV(2), st)
            && Eval(w, fuel, InlineExpr([c], e), st) == Got(IntV(1), st)
  {
    TwiceCalled(w, fuel);
    hide Eval;
    var c := Candidate("f", ["a", "a"], Variable("a"));
    var es := [Int(1), Int(2)];
    assert InlineAll([c], es) == es by {
      assert es[1..] == [Int(2)] && [Int(2)][1..] == [];
      assert InlineAll([c], [Int(2)]) == [Int(2)];
    }
    InlinedCall([c], "f", es);
    assert ParamIndex(["a", "a"], "a") == Some(0);
    OneInt(w, fuel, State([map["f" := Binding(FunV("f", Bare(["a", "a"]), [Return(Variable("a"))]), true)]], []));
  }

  lemma OneInt(w: World, fuel: nat, st: State)
    ensures Eval(w, fuel, Int(1), st) == Got(IntV(1), st)
  {
    assert EvalAll(w, fuel, [], st) == Got([], st);
  }

  lemma TwiceCalled(w: World, fuel: nat)
    requires fuel > 0
    ensures var st := State([map["f" := Binding(FunV("f", Bare(["a", "a"]), [Return(Variable("a"))]), true)]], []);
            Eval(w, fuel, Call(Variable("f"), [Int(1), Int(2)]), st) == Got(IntV(2), st)
  {
    var f := FunV("f", Bare(["a", "a"]), [Return(Variable("a"))]);
    var st := State([map["f" := Binding(f, true)]], []);
    TwoInts(w, fuel, st);
    BindTwo();
    var fr := st.(scopes := [st.scopes[0], Bind(["a", "a"], [IntV(1), IntV(2)])]);
    assert Lookup(fr.scopes, "a") == Some(IntV(2));
    ReturnRuns(w, fuel - 1, f.body, fr);
    FullCall(w, fuel - 1, f, [IntV(1), IntV(2)], st);
    assert RunProc(w, fuel - 1, f, [IntV(1), IntV(2)], st) == Got(IntV(2), st);
    assert Lookup(st.scopes, "f") == Some(f);
    assert Eval(w, fuel, Variable("f"), st) == Got(f, st);
    hide RunProc, CallProc, EvalAll, Lookup;
  }

  lemma TwoInts(w: World, fuel: nat, st: State)
    ensures EvalAll(w, fuel, [Int(1), Int(2)], st) == Got([IntV(1), IntV(2)], st)
  {
    assert [Int(1), Int(2)][1..] == [Int(2)] && [Int(2)][1..] == [];
    assert EvalAll(w, fuel, [], st) == Got([], st);
    assert Eval(w, fuel, Int(1), st) == Got(IntV(1), st) && Eval(w, fuel, Int(2), st) == Got(IntV(2), st);
    assert EvalAll(w, fuel, [], st) == Got([], st);
    assert [IntV(2)] + [] == [IntV(2)];
    assert EvalAll(w, fuel, [Int(2)], st) == Got([IntV(2)], st);
    assert [IntV(1)] + [IntV(2)] == [IntV(1), IntV(2)];
  }

  lemma BindTwo()
    ensures Bind(["a", "a"], [IntV(1), IntV(2)]) == map["a" := Binding(IntV(2), true)]
  {
    assert ["a", "a"][..1] == ["a"] && [IntV(1), IntV(2)][..1] == [IntV(1)];
    assert ["a"][..0] == [] && [IntV(1)][..0] == [];
    assert Bind(["a"], [IntV(1)]) == map["a" := Binding(IntV(1), true)];
  }

  /** A later proc of the same name that is no candidate does not hide the earlier
      one. */
  lemma StaleCandidate(x: string, params: seq<string>, body: seq<Stmt>, e: Expr)
    requires SingleReturn(body).None? && !e.Absent? && !References(e, x)
    ensures var program := [Proc(x, Bare(params), [Return(e)]), Proc(x, Bare(params), body)];
            FindCandidate(Candidates(program), x) == Some(Candidate(x, params, e))
  {
    var p, q := Proc(x, Bare(params), [Return(e)]), Proc(x, Bare(params), body);
    assert [p, q][..1] == [p] && [p][..0] == [];
    assert Candidates([p]) == [Candidate(x, params, e)];
    assert CandidateOf(q).None?;
  }

  // ---------- the traversal ----------

  /** inline_expr. */
  method InlineNode(cs: seq<Candidate>, e: Expr) returns (r: Expr)
    ensures r == InlineExpr(cs, e)
    decreases e, 1
  {
    hide InlineAll, Substitute, FindCandidate;
    r := e;
    if e.Call? {
      var f := InlineNode(cs, e.callee);
      var es := InlineNodes(cs, e.args);
      r := Call(f, es);
      if f.Variable? {
        var c := FindCandidate(cs, f.name);
        if c.Some? && |es| == |c.value.params| {
          r := Substitute(c.value.result, c.value.params, es);
        }
      }
    } else if e.Binary? {
      var a := InlineNode(cs, e.left);
      var b := InlineNode(cs, e.right);
      r := Binary(e.op, a, b);
    } else if e.Array? {
      var es := InlineNodes(cs, e.elems);
      r := Array(es);
    } else if e.Index? {
      var a := InlineNode(cs, e.base);
      var b := InlineNode(cs, e.index);
      r := Index(a, b);
    } else if e.IndexSet? {
      var a := InlineNode(cs, e.base);
      var b := InlineNode(cs, e.index);
      var c := InlineNode(cs, e.value);
      r := IndexSet(a, b, c);
    } else if e.Dict? {
      var es := InlineNodes(cs, e.values);
      r := Dict(e.keys, es);
    } else if e.Tuple? {
      var es := InlineNodes(cs, e.elems);
      r := Tuple(es);
    } else if e.Slice? {
      var a := InlineNode(cs, e.base);
      var b := InlineNode(cs, e.start);
      var c := InlineNode(cs, e.end);
      r := Slice(a, b, c);
    } else if e.Get? {
      var a := InlineNode(cs, e.receiver);
      r := Get(a, e.property);
    } else if e.Set? {
      var a := InlineNode(cs, e.receiver);
      var b := InlineNode(cs, e.value);
      r := Set(a, e.property, b);
    }
  }

  /** Children are replaced one after the other. */
  method InlineNodes(cs: seq<Candidate>, es: seq<Expr>) returns (r: seq<Expr>)
    ensures r == InlineAll(cs, es)
    decreases es, 0
  {
    hide InlineExpr;
    r := es;
    for i := 0 to |es|
      invariant |r| == |es| && r[i..] == es[i..]
      invariant forall k | 0 <= k < i :: r[k] == InlineAll(cs, es)[k]
    {
      InlineAllAt(cs, es, i);
      var x := InlineNode(cs, es[i]);
      r := r[i := x];
    }
  }

  lemma {:induction false} InlineAllAt(cs: seq<Candidate>, es: seq<Expr>, i: nat)
    requires i < |es|
    ensures InlineAll(cs, es)[i] == InlineExpr(cs, es[i])
  {
    if i > 0 {
      InlineAllAt(cs, es[1..], i - 1);
    }
  }

  /** inline_stmt. */
  method InlineStatement(cs: seq<Candidate>, s: Stmt) returns (r: Stmt)
    ensures r == InlineStmt(cs, s)
    decreases s, 1
  {
    hide InlineExpr, InlineStmts, InlineCases, InlineHandlers;
    r := s;
    match s
    case Print(e) =>
      var c := InlineNode(cs, e);
      r := Print(c);
    case ExprStmt(e) =>
      var c := InlineNode(cs, e);
      r := ExprStmt(c);
    case Let(x, e) =>
      var c := InlineNode(cs, e);
      r := Let(x, c);
    case If(e, thn, els) =>
      var c := InlineNode(cs, e);
      var t := InlineStatements(cs, thn);
      var f := InlineStatements(cs, els);
      r := If(c, t, f);
    case Block(body) =>
      var b := InlineStatements(cs, body);
      r := Block(b);
    case While(e, body) =>
      var c := InlineNode(cs, e);
      var b := InlineStatements(cs, body);
      r := While(c, b);
    case Proc(name, sig, body) =>
      var b := InlineStatements(cs, body);
      r := Proc(name, sig, b);
    case For(x, e, body) =>
      var c := InlineNode(cs, e);
      var b := InlineStatements(cs, body);
      r := For(x, c, b);
    case Return(e) =>
      var c := InlineNode(cs, e);
      r := Return(c);
    case Class(name, parent, methods) =>
      var b := InlineStatements(cs, methods);
      r := Class(name, parent, b);
    case Match(e, cases, default) =>
      var c := InlineNode(cs, e);
      var xs := InlineCaseList(cs, cases);
      var d := InlineStatements(cs, default);
      r := Match(c, xs, d);
    case Try(block, handlers, final) =>
      var b := InlineStatements(cs, block);
      var hs := InlineHandlerList(cs, handlers);
      var f := InlineStatements(cs, final);
      r := Try(b, hs, f);
    case Raise(e) =>
      var c := InlineNode(cs, e);
      r := Raise(c);
    case Yield(e) =>
      var c := InlineNode(cs, e);
      r := Yield(c);
    case _ =>
  }

  /** inline_stmt_list. */
  method InlineStatements(cs: seq<Candidate>, ss: seq<Stmt>) returns (r: seq<Stmt>)
    ensures r == InlineStmts(cs, ss)
    decreases ss, 0
  {
    hide InlineStmt;
    r := ss;
    for i := 0 to |ss|
      invariant |r| == |ss| && r[i..] == ss[i..]
      invariant forall k | 0 <= k < i :: r[k] == InlineStmts(cs, ss)[k]
    {
      InlineStmtsAt(cs, ss, i);
      var x := InlineStatement(cs, ss[i]);
      r := r[i := x];
    }
  }

  lemma {:induction false} InlineStmtsAt(cs: seq<Candidate>, ss: seq<Stmt>, i: nat)
    requires i < |ss|
    ensures InlineStmts(cs, ss)[i] == InlineStmt(cs, ss[i])
  {
    if i > 0 {
      InlineStmtsAt(cs, ss[1..], i - 1);
    }
  }

  /** The cases of a match. */
  method InlineCaseList(cs: seq<Candidate>, xs: seq<Case>) returns (r: seq<Case>)
    ensures r == InlineCases(cs, xs)
    decreases xs, 0
  {
    hide InlineExpr, InlineStmts;
    r := xs;
    for i := 0 to |xs|
      invariant |r| == |xs| && r[i..] == xs[i..]
      invariant forall k | 0 <= k < i :: r[k] == InlineCases(cs, xs)[k]
    {
      InlineCasesAt(cs, xs, i);
      var c := InlineNode(cs, xs[i].pattern);
      var b := InlineStatements(cs, xs[i].body);
      r := r[i := Case(c, xs[i].guard, b)];
    }
  }

  lemma {:induction false} InlineCasesAt(cs: seq<Candidate>, xs: seq<Case>, i: nat)
    requires i < |xs|
    ensures InlineCases(cs, xs)[i] == Case(InlineExpr(cs, xs[i].pattern), xs[i].guard, InlineStmts(cs, xs[i].body))
  {
    if i > 0 {
      InlineCasesAt(cs, xs[1..], i - 1);
    }
  }

  /** The handlers of a try. */
  method InlineHandlerList(cs: seq<Candidate>, xs: seq<Handler>) returns (r: seq<Handler>)
    ensures r == InlineHandlers(cs, xs)
    decreases xs, 0
  {
    hide InlineStmts;
    r := xs;
    for i := 0 to |xs|
      invariant |r| == |xs| && r[i..] == xs[i..]
      invariant forall k | 0 <= k < i :: r[k] == InlineHandlers(cs, xs)[k]
    {
      InlineHandlersAt(cs, xs, i);
      var b := InlineStatements(cs, xs[i].body);
      r := r[i := Handler(xs[i].variable, b)];
    }
  }

  lemma {:induction false} InlineHandlersAt(cs: seq<Candidate>, xs: seq<Handler>, i: nat)
    requires i < |xs|
    ensures InlineHandlers(cs, xs)[i] == Handler(xs[i].variable, InlineStmts(cs, xs[i].body))
  {
    if i > 0 {
      InlineHandlersAt(cs, xs[1..], i - 1);
    }
  }

  /** pass_inline. */
  method InlineProgram(program: seq<Stmt>) returns (r: seq<Stmt>)
    ensures r == PassInline(program)
  {
    r := program;
    var cs := CollectCandidates(program);
    if cs != [] {
      r := InlineStatements(cs, program);
    }
  }
}
