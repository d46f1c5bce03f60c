// What the inferred types are true of: runs in which operators and builtins yield what
// compiled code makes of them (src/aot.c).
module TypeSoundness {
  import opened Common
  import opened Ast
  import opened Values
  import opened Semantics
  import opened Effects
  import opened TreeWalk
  import opened ParamTypes

  // ---------- what is taken as given ----------

  /** `kind` is the tag that a value has at run time. */
  ghost predicate TypedValues(kind: Value -> Tag) {
    forall v ::
      && (kind(v) == IntT <==> v.IntV?)
      && (kind(v) == FloatT <==> v.NumV?)
      && (v.NilV? ==> kind(v) == NilT)
      && (v.BoolV? ==> kind(v) == BoolT)
      && (v.StrV? ==> kind(v) == StringT)
      && (v.ArrV? ==> kind(v) == ArrayT)
  }

  /** What an operator that compiled code leaves to the host gives: ints for ints, doubles as
      soon as one operand is a double, truth values for comparisons, and ints for `~`. */
  ghost predicate TypedOperators(h: Host, kind: Value -> Tag) {
    forall op, a, b | h.binary(op, a, b).Some? ::
      var t := kind(h.binary(op, a, b).value);
      && (op in {Eq, Ne, Lt, Le, Gt, Ge} ==> t == BoolT)
      && (op == OtherOp("~") ==> t == IntT)
      && (a.IntV? && b.IntV? && op in {Add, Sub, Mul, Div, Mod} ==> t == IntT)
      && (a.IntV? && b.IntV? && op.OtherOp? && op.text in {"&", "|", "^", "<<", ">>"} ==> t == IntT)
      && (a.NumV? && (b.IntV? || b.NumV?) && op in {Add, Sub, Mul, Div} ==> t == FloatT)
      && (a.IntV? && b.NumV? && op in {Add, Sub, Mul, Div} ==> t == FloatT)
  }

  const BUILTINS: set<string> := {"len", "int", "float", "str", "typeof", "bool", "range", "range_inc"}

  ghost predicate TypedBuiltins(w: World, kind: Value -> Tag) {
    forall past, n, vs | n in BUILTINS && w.act(past, "call", [NativeV(n)] + vs).Some? ::
      var t := kind(w.act(past, "call", [NativeV(n)] + vs).value);
      && (n in {"len", "int"} ==> t == IntT)
      && (n == "float" ==> t == FloatT)
      && (n in {"str", "typeof"} ==> t == StringT)
      && (n == "bool" ==> t == BoolT)
      && (n in {"range", "range_inc"} ==> t == ArrayT)
  }

  ghost predicate TypedLiterals(w: World, kind: Value -> Tag) {
    forall past, vs ::
      && (w.look(past, "{}", vs).Some? ==> kind(w.look(past, "{}", vs).value) == DictT)
      && (w.look(past, "()", vs).Some? ==> kind(w.look(past, "()", vs).value) == TupleT)
  }

  ghost predicate Typed(w: World, kind: Value -> Tag) {
    TypedValues(kind) && TypedOperators(w.host, kind) && TypedBuiltins(w, kind) && TypedLiterals(w, kind)
  }

  /** Calling the value makes a struct. */
  ghost predicate Constructs(w: World, kind: Value -> Tag, f: Value) {
    !f.FunV? && forall past, vs | w.act(past, "call", [f] + vs).Some? ::
      kind(w.act(past, "call", [f] + vs).value) == StructT
  }

  /** Variables have the kinds that are recorded for them, and the names of builtins and of
      struct constructors still mean them. */
  ghost predicate Fits(w: World, kind: Value -> Tag, types: Types, structs: set<string>, st: State) {
    forall x | Lookup(st.scopes, x).Some? ::
      var v := Lookup(st.scopes, x).value;
      && (TypeOf(types, Var(x)) != Unknown ==> kind(v) == TypeOf(types, Var(x)))
      && (x in BUILTINS ==> v == NativeV(x))
      && (x in structs && x !in BUILTINS ==> Constructs(w, kind, v))
  }

  /** The left operands of an expression leave it that way. */
  ghost predicate Steady(w: World, kind: Value -> Tag, types: Types, structs: set<string>, fuel: nat, e: Expr,
                         st: State)
    decreases e
  {
    && Fits(w, kind, types, structs, st)
    && (e.Binary? ==>
          var a := Eval(w, fuel, e.left, st);
          && Steady(w, kind, types, structs, fuel, e.left, st)
          && (a.Got? ==> Steady(w, kind, types, structs, fuel, e.right, a.st)))
  }

  /** Which they always do if they act on nothing. */
  lemma {:induction false} QuietSteady(w: World, kind: Value -> Tag, types: Types, structs: set<string>, fuel: nat,
                                       e: Expr, st: State)
    requires Fits(w, kind, types, structs, st) && Quiet(e)
    ensures Steady(w, kind, types, structs, fuel, e, st)
    decreases e
  {
    hide Fits;
    if e.Binary? {
      QuietKeeps(w, fuel, e.left, st);
      hide Eval;
      QuietSteady(w, kind, types, structs, fuel, e.left, st);
      QuietSteady(w, kind, types, structs, fuel, e.right, st);
    }
  }

  // ---------- the rules of inference ----------

  predicate IsCallTo(e: Expr, names: set<string>) { e.Call? && e.callee.Variable? && e.callee.name in names }

  predicate BothHave(types: Types, structs: set<string>, e: Expr, l: Tag, r: Tag)
    requires e.Binary?
    decreases e, 0
  {
    !e.right.Absent? && HasType(types, structs, e.left, l) && HasType(types, structs, e.right, r)
  }

  /** The expression has the type by one of the rules for that type. */
  predicate HasType(types: Types, structs: set<string>, e: Expr, t: Tag)
    decreases e, 1
  {
    || (e.Variable? && Var(e.name) in types && types[Var(e.name)] == t)
    || match t
       case Unknown => false
       case NilT => e.Nil? || e.Absent?
       case StringT => e.Str? || IsCallTo(e, {"str", "typeof"})
       case ArrayT => e.Array? || IsCallTo(e, {"range", "range_inc"})
       case DictT => e.Dict?
       case TupleT => e.Tuple?
       case StructT => IsCallTo(e, structs - BUILTINS)
       case BoolT =>
         || e.Bool? || IsCallTo(e, {"bool"})
         || (e.Binary? && (e.op == Not || e.op == OtherOp("~")))
         || (e.Binary? && e.op in {Eq, Ne, Lt, Le, Gt, Ge} && !e.right.Absent?)
       case IntT =>
         || e.Int? || IsCallTo(e, {"len", "int"})
         || (e.Binary? && (e.op in {Add, Sub, Mul, Div, Mod} || IsBitwise(e.op))
             && BothHave(types, structs, e, IntT, IntT))
       case FloatT =>
         || e.Number? || IsCallTo(e, {"float"})
         || (e.Binary? && e.op in {Add, Sub, Mul, Div}
             && (|| BothHave(types, structs, e, FloatT, FloatT)
                 || BothHave(types, structs, e, IntT, FloatT)
                 || BothHave(types, structs, e, FloatT, IntT)))
  }

  predicate IsBitwise(op: Op) { op.OtherOp? && op.text in {"&", "|", "^", "<<", ">>"} }

  /** Inference finds the type that the rules give, and none where they give none. */
  lemma {:induction false} InferIff(types: Types, structs: set<string>, e: Expr, t: Tag)
    requires t != Unknown
    ensures Infer(types, structs, e) == t <==> HasType(types, structs, e, t)
    decreases e
  {
    if e.Binary? && e.op != Not && e.op != OtherOp("~") && !e.right.Absent? && e.op !in {Eq, Ne, Lt, Le, Gt, Ge} {
      InferIff(types, structs, e.left, IntT);
      InferIff(types, structs, e.left, FloatT);
      InferIff(types, structs, e.right, IntT);
      InferIff(types, structs, e.right, FloatT);
      ArithmeticIff(types, structs, e, t);
    }
  }

  lemma ArithmeticIff(types: Types, structs: set<string>, e: Expr, t: Tag)
    requires e.Binary? && e.op != Not && e.op != OtherOp("~") && !e.right.Absent? && e.op !in {Eq, Ne, Lt, Le, Gt, Ge}
    requires forall u | u in {IntT, FloatT} ::
      && (Infer(types, structs, e.left) == u <==> HasType(types, structs, e.left, u))
      && (Infer(types, structs, e.right) == u <==> HasType(types, structs, e.right, u))
    requires t != Unknown
    ensures Infer(types, structs, e) == t <==> HasType(types, structs, e, t)
  {
    var l, r := Infer(types, structs, e.left), Infer(types, structs, e.right);
    assert forall u, v | u in {IntT, FloatT} && v in {IntT, FloatT} ::
      BothHave(types, structs, e, u, v) <==> l == u && r == v;
  }

  // ---------- soundness of inference ----------

  predicate IsTilde(e: Expr) { e.Binary? && e.op == OtherOp("~") }

  predicate AnyDouble(a: Tag, b: Tag) {
    a in {IntT, FloatT} && b in {IntT, FloatT} && (a == FloatT || b == FloatT)
  }

  lemma OperatorTyped(h: Host, kind: Value -> Tag, op: Op, a: Value, b: Value)
    requires TypedValues(kind) && TypedOperators(h, kind) && BinaryValue(h, op, a, b).Some?
    ensures var t := kind(BinaryValue(h, op, a, b).value);
            && (op in {Eq, Ne, Lt, Le, Gt, Ge} ==> t == BoolT)
            && (op == OtherOp("~") ==> t == IntT)
            && (kind(a) == IntT && kind(b) == IntT && IsIntOp(op) ==> t == IntT)
            && (AnyDouble(kind(a), kind(b)) && op in {Add, Sub, Mul, Div} ==> t == FloatT)
  {
    assert kind(a) == IntT <==> a.IntV?;
    assert kind(b) == IntT <==> b.IntV?;
    assert kind(a) == FloatT <==> a.NumV?;
    assert kind(b) == FloatT <==> b.NumV?;
    var v := BinaryValue(h, op, a, b).value;
    assert v.BoolV? ==> kind(v) == BoolT;
    assert v.NumV? ==> kind(v) == FloatT;
    assert v.StrV? ==> kind(v) == StringT;
  }

  /** The two values of an operator's operands, and the result. */
  lemma OperatorRuns(w: World, fuel: nat, e: Expr, st: State)
    requires e.Binary? && e.op != And && e.op != Or && Eval(w, fuel, e, st).Got?
    ensures var a := Eval(w, fuel, e.left, st);
            && a.Got?
            && var b := Eval(w, fuel, e.right, a.st);
            && b.Got?
            && Operated(w, e.op, a.value, b.value).Some?
            && Eval(w, fuel, e, st).value == Operated(w, e.op, a.value, b.value).value
  {
    hide BinaryValue;
  }

  lemma CallRuns(w: World, kind: Value -> Tag, types: Types, structs: set<string>, fuel: nat, e: Expr, st: State)
    requires Fits(w, kind, types, structs, st)
    requires e.Call? && e.callee.Variable? && e.callee.name in BUILTINS + structs && Eval(w, fuel, e, st).Got?
    ensures Lookup(st.scopes, e.callee.name).Some?
    ensures var f := Lookup(st.scopes, e.callee.name).value;
            !f.FunV? ==> exists past, vs :: var r := w.act(past, "call", [f] + vs);
              r.Some? && Eval(w, fuel, e, st).value == r.value
  {
    hide Fits, EvalAll, CallProc, BinaryValue;
    var x := e.callee.name;
    NamedValue(w, fuel, x, st);
    hide Lookup;
    var f := Eval(w, fuel, e.callee, st);
    assert f.Got?;
    var vs := EvalAll(w, fuel, e.args, f.st);
    assert vs.Got?;
    if !f.value.FunV? {
      var r := w.act(vs.st.trace, "call", [f.value] + vs.value);
      assert r.Some? && Eval(w, fuel, e, st).value == r.value;
    }
  }

  lemma NamedValue(w: World, fuel: nat, x: string, st: State)
    ensures var r, v := Eval(w, fuel, Variable(x), st), Lookup(st.scopes, x);
            if v.Some? then r == Got(v.value, st) else r == Error
  {
    assert EvalAll(w, fuel, [], st) == Got([], st);
  }

  /** What inference says of an expression is true of its value, except that `~` is not a
      truth value. */
  lemma {:induction false} InferSoundIff(w: World, kind: Value -> Tag, types: Types, structs: set<string>, fuel: nat,
                                         e: Expr, st: State)
    requires Typed(w, kind) && Steady(w, kind, types, structs, fuel, e, st)
    requires Infer(types, structs, e) != Unknown && Eval(w, fuel, e, st).Got?
    ensures kind(Eval(w, fuel, e, st).value) == Infer(types, structs, e) <==> !IsTilde(e)
    decreases e
  {
    if e.Binary? {
      BinarySound(w, kind, types, structs, fuel, e, st);
    } else if e.Call? {
      CallSound(w, kind, types, structs, fuel, e, st);
    } else if e.Variable? {
      NamedValue(w, fuel, e.name, st);
      hide Eval, Typed;
    } else {
      LiteralSound(w, kind, types, structs, fuel, e, st);
    }
  }

  lemma {:induction false} BinarySound(w: World, kind: Value -> Tag, types: Types, structs: set<string>, fuel: nat,
                                       e: Expr, st: State)
    requires e.Binary? && Typed(w, kind) && Steady(w, kind, types, structs, fuel, e, st)
    requires Infer(types, structs, e) != Unknown && Eval(w, fuel, e, st).Got?
    ensures kind(Eval(w, fuel, e, st).value) == Infer(types, structs, e) <==> !IsTilde(e)
    decreases e, 0
  {
    OperatorRuns(w, fuel, e, st);
    hide Eval, TypedOperators, TypedBuiltins, TypedLiterals, Fits, BinaryValue;
    var a := Eval(w, fuel, e.left, st);
    var b := Eval(w, fuel, e.right, a.st);
    var l, r := Infer(types, structs, e.left), Infer(types, structs, e.right);
    if e.op != Not {
      OperatorTyped(w.host, kind, e.op, a.value, b.value);
      if !IsTilde(e) && e.right != Absent && !IsComparison(e.op) {
        InferSoundIff(w, kind, types, structs, fuel, e.left, st);
        InferSoundIff(w, kind, types, structs, fuel, e.right, a.st);
      }
    }
  }

  lemma CallSound(w: World, kind: Value -> Tag, types: Types, structs: set<string>, fuel: nat, e: Expr, st: State)
    requires e.Call? && Typed(w, kind) && Fits(w, kind, types, structs, st)
    requires Infer(types, structs, e) != Unknown && Eval(w, fuel, e, st).Got?
    ensures kind(Eval(w, fuel, e, st).value) == Infer(types, structs, e)
  {
    var x := e.callee.name;
    CallRuns(w, kind, types, structs, fuel, e, st);
    hide Eval, TypedOperators, TypedValues, TypedLiterals, Lookup;
    var f := Lookup(st.scopes, x).value;
    if x in BUILTINS { assert f == NativeV(x); } else { assert Constructs(w, kind, f); }
    var past, vs :| var r := w.act(past, "call", [f] + vs); r.Some? && Eval(w, fuel, e, st).value == r.value;
  }

  lemma LiteralSound(w: World, kind: Value -> Tag, types: Types, structs: set<string>, fuel: nat, e: Expr, st: State)
    requires !e.Binary? && !e.Call? && !e.Variable? && Typed(w, kind)
    requires Infer(types, structs, e) != Unknown && Eval(w, fuel, e, st).Got?
    ensures kind(Eval(w, fuel, e, st).value) == Infer(types, structs, e)
  {
    hide TypedOperators, TypedBuiltins, EvalAll, Lookup;
    OperandsSmaller(e);
    hide Size, SizeAll;
    var vs := EvalAll(w, fuel, Operands(e), st);
    assert vs.Got? && Eval(w, fuel, e, st) == Finish(w, e, vs.value, vs.st);
    hide Eval;
  }

  /** Every expression of the list is evaluated in a state that fits. */
  ghost predicate SteadyAll(w: World, kind: Value -> Tag, types: Types, structs: set<string>, fuel: nat, es: seq<Expr>,
                            st: State)
  {
    es == [] ||
    var v := Eval(w, fuel, es[0], st);
    Steady(w, kind, types, structs, fuel, es[0], st)
    && (v.Got? ==> SteadyAll(w, kind, types, structs, fuel, es[1..], v.st))
  }

  lemma {:induction false} ArgumentsSound(w: World, kind: Value -> Tag, types: Types, structs: set<string>, fuel: nat,
                                          es: seq<Expr>, st: State, i: nat)
    requires Typed(w, kind) && SteadyAll(w, kind, types, structs, fuel, es, st)
    requires i < |es| && Infer(types, structs, es[i]) != Unknown && EvalAll(w, fuel, es, st).Got?
    ensures kind(EvalAll(w, fuel, es, st).value[i]) == Infer(types, structs, es[i]) <==> !IsTilde(es[i])
    decreases |es|
  {
    hide Typed, Eval, Infer, Steady;
    if i == 0 {
      InferSoundIff(w, kind, types, structs, fuel, es[0], st);
    } else {
      ArgumentsSound(w, kind, types, structs, fuel, es[1..], Eval(w, fuel, es[0], st).st, i - 1);
    }
  }

  // ---------- what the scan sees ----------

  predicate IsCallOf(f: string, e: Expr) { e.Call? && e.callee == Variable(f) }

  predicate HasCall(f: string, e: Expr) { exists c :: c in Nodes(e) && IsCallOf(f, c) }

  /** The kinds of expression whose operands the scan passes over. */
  predicate IsPassedOver(e: Expr) {
    || e.Array? || e.Tuple? || e.Dict? || e.Slice? || e.IndexSet? || e.Range? || e.Interp?
    || e.Await? || e.Unwrap? || e.NullCoal? || e.OptChain? || e.Comptime?
  }

  predicate ClearExpr(f: string, e: Expr) { forall n | n in Nodes(e) && IsPassedOver(n) :: !HasCall(f, n) }

  /** The kinds of statement that it passes over altogether. */
  predicate IsPassedOverStmt(s: Stmt) {
    || s.Raise? || s.Yield? || s.Match? || s.Try? || s.Class? || s.Impl? || s.Defer? || s.Annotated?
    || s.ComptimeBlock? || s.Spawn?
  }

  /** What a `for` iterates and default values are passed over as well. */
  predicate ClearStmt(f: string, s: Stmt) {
    && (IsPassedOverStmt(s) ==> forall e | e in ExprsOf(s) :: !HasCall(f, e))
    && (s.For? ==> !HasCall(f, s.iterable))
    && (s.Proc? || s.AsyncProc? ==> forall e | e in s.sig.defaults :: !HasCall(f, e))
  }

  /** No call of `f` is where the scan does not look. */
  predicate InSight(f: string, program: seq<Stmt>) {
    && (forall e | e in ExprsIn(program) :: ClearExpr(f, e))
    && (forall s | s in StmtsIn(program) :: ClearStmt(f, s))
  }

  /** Some call passes such an argument. */
  predicate Passed(types: Types, structs: set<string>, f: string, e: Expr, o: Obs) {
    exists c :: c in Nodes(e) && IsCallOf(f, c) && o.i < |c.args| && Infer(types, structs, c.args[o.i]) == o.t
  }

  lemma PassedInside(types: Types, structs: set<string>, f: string, e: Expr, e': Expr, o: Obs)
    requires Passed(types, structs, f, e, o) && Nodes(e) <= Nodes(e')
    ensures Passed(types, structs, f, e', o)
  {
    hide Infer, Nodes;
    var c :| c in Nodes(e) && IsCallOf(f, c) && o.i < |c.args| && Infer(types, structs, c.args[o.i]) == o.t;
    assert c in Nodes(e');
  }

  // What the scan records, some call passes.

  lemma {:induction false} SitesPassed(types: Types, structs: set<string>, f: string, e: Expr, o: Obs)
    requires o in SitesExpr(types, structs, f, e)
    ensures Passed(types, structs, f, e, o)
    decreases e, 1
  {
    hide Passed, Infer;
    if e.Call? {
      if IsCallOf(f, e) && o in ArgsSeen(types, structs, e.args) {
        OwnArgument(types, structs, f, e, o);
      } else if o in SitesExprs(types, structs, f, e.args) {
        var k := SitesPassedAll(types, structs, f, e.args, o);
        InnerNodes(e.args, k);
        PassedInside(types, structs, f, e.args[k], e, o);
      } else {
        SitesPassed(types, structs, f, e.callee, o);
        PassedInside(types, structs, f, e.callee, e, o);
      }
    } else if e.Binary? {
      if o in SitesExpr(types, structs, f, e.left) { SitesPassedIn(types, structs, f, e, e.left, o); }
      else { SitesPassedIn(types, structs, f, e, e.right, o); }
    } else if e.Get? {
      SitesPassedIn(types, structs, f, e, e.receiver, o);
    } else if e.Set? {
      if o in SitesExpr(types, structs, f, e.receiver) { SitesPassedIn(types, structs, f, e, e.receiver, o); }
      else { SitesPassedIn(types, structs, f, e, e.value, o); }
    } else if e.Index? {
      if o in SitesExpr(types, structs, f, e.base) { SitesPassedIn(types, structs, f, e, e.base, o); }
      else { SitesPassedIn(types, structs, f, e, e.index, o); }
    }
  }

  lemma {:induction false} SitesPassedIn(types: Types, structs: set<string>, f: string, e: Expr, part: Expr, o: Obs)
    requires o in SitesExpr(types, structs, f, part) && part < e && Nodes(part) <= Nodes(e)
    ensures Passed(types, structs, f, e, o)
    decreases e, 0
  {
    hide SitesExpr, Nodes, Passed;
    SitesPassed(types, structs, f, part, o);
    PassedInside(types, structs, f, part, e, o);
  }

  lemma OwnArgument(types: Types, structs: set<string>, f: string, e: Expr, o: Obs)
    requires IsCallOf(f, e) && o in ArgsSeen(types, structs, e.args)
    ensures Passed(types, structs, f, e, o)
  {
    hide Infer;
    assert e in Nodes(e);
  }

  lemma InnerNodes(es: seq<Expr>, k: nat)
    requires k < |es|
    ensures Nodes(es[k]) <= NodesOf(es)
  {
    hide Nodes;
    if k > 0 { InnerNodes(es[1..], k - 1); }
  }

  lemma {:induction false} SitesPassedAll(types: Types, structs: set<string>, f: string, es: seq<Expr>, o: Obs)
    returns (k: nat)
    requires o in SitesExprs(types, structs, f, es)
    ensures k < |es| && Passed(types, structs, f, es[k], o)
    decreases es, 0
  {
    hide SitesExpr, Passed;
    if o in SitesExpr(types, structs, f, es[0]) {
      SitesPassed(types, structs, f, es[0], o);
      k := 0;
    } else {
      k := SitesPassedAll(types, structs, f, es[1..], o);
      k := k + 1;
    }
  }

  lemma {:induction false} StmtPassed(types: Types, structs: set<string>, f: string, s: Stmt, o: Obs)
    returns (e: Expr)
    requires o in SitesStmt(types, structs, f, s)
    ensures e in ExprsOf(s) && Passed(types, structs, f, e, o)
    decreases s, 1
  {
    hide SitesExpr, SitesList, Passed, ExprsIn;
    if s.ExprStmt? || s.Print? || s.Return? {
      e := s.e;
      SitesPassed(types, structs, f, e, o);
    } else if s.Let? {
      e := s.init;
      SitesPassed(types, structs, f, e, o);
    } else if s.If? {
      if o in SitesList(types, structs, f, s.thn) { e := ListPassed(types, structs, f, s.thn, o); }
      else if o in SitesList(types, structs, f, s.els) { e := ListPassed(types, structs, f, s.els, o); }
      else {
        e := s.cond;
        SitesPassed(types, structs, f, e, o);
      }
    } else if s.While? && o in SitesExpr(types, structs, f, s.cond) {
      e := s.cond;
      SitesPassed(types, structs, f, e, o);
    } else {
      e := ListPassed(types, structs, f, s.body, o);
    }
  }

  lemma {:induction false} ListPassed(types: Types, structs: set<string>, f: string, ss: seq<Stmt>, o: Obs)
    returns (e: Expr)
    requires o in SitesList(types, structs, f, ss)
    ensures e in ExprsIn(ss) && Passed(types, structs, f, e, o)
    decreases ss, 0
  {
    hide SitesStmt, Passed, ExprsOf;
    if o in SitesStmt(types, structs, f, ss[0]) {
      e := StmtPassed(types, structs, f, ss[0], o);
    } else {
      e := ListPassed(types, structs, f, ss[1..], o);
    }
  }

  // What a call in sight passes, the scan records.

  lemma {:induction false} CallRecorded(types: Types, structs: set<string>, f: string, e: Expr, c: Expr, i: nat)
    requires ClearExpr(f, e) && c in Nodes(e) && IsCallOf(f, c) && i < |c.args|
    ensures Obs(i, Infer(types, structs, c.args[i])) in SitesExpr(types, structs, f, e)
    decreases e, 1
  {
    hide Infer;
    assert e in Nodes(e) && HasCall(f, e);
    assert !IsPassedOver(e);
    if c == e {
      assert ArgsSeen(types, structs, c.args)[i] == Obs(i, Infer(types, structs, c.args[i]));
    } else if e.Call? {
      if c in Nodes(e.callee) { CallRecorded(types, structs, f, e.callee, c, i); }
      else { CallRecordedAll(types, structs, f, e.args, c, i); }
    } else if e.Binary? {
      if c in Nodes(e.left) { CallRecorded(types, structs, f, e.left, c, i); }
      else { CallRecorded(types, structs, f, e.right, c, i); }
    } else if e.Get? {
      CallRecorded(types, structs, f, e.receiver, c, i);
    } else if e.Set? {
      if c in Nodes(e.receiver) { CallRecorded(types, structs, f, e.receiver, c, i); }
      else { CallRecorded(types, structs, f, e.value, c, i); }
    } else if e.Index? {
      if c in Nodes(e.base) { CallRecorded(types, structs, f, e.base, c, i); }
      else { CallRecorded(types, structs, f, e.index, c, i); }
    }
  }

  lemma {:induction false} CallRecordedAll(types: Types, structs: set<string>, f: string, es: seq<Expr>, c: Expr,
                                           i: nat)
    requires (forall n | n in NodesOf(es) && IsPassedOver(n) :: !HasCall(f, n))
    requires c in NodesOf(es) && IsCallOf(f, c) && i < |c.args|
    ensures Obs(i, Infer(types, structs, c.args[i])) in SitesExprs(types, structs, f, es)
    decreases es, 0
  {
    hide SitesExpr, Infer, HasCall, IsPassedOver;
    if c in Nodes(es[0]) { CallRecorded(types, structs, f, es[0], c, i); }
    else { CallRecordedAll(types, structs, f, es[1..], c, i); }
  }

  lemma {:induction false} StmtRecorded(types: Types, structs: set<string>, f: string, s: Stmt, e: Expr, c: Expr,
                                        i: nat)
    requires (forall t | t in StmtsOf(s) :: ClearStmt(f, t)) && e in ExprsOf(s)
    requires ClearExpr(f, e) && c in Nodes(e) && IsCallOf(f, c) && i < |c.args|
    ensures Obs(i, Infer(types, structs, c.args[i])) in SitesStmt(types, structs, f, s)
    decreases s, 1
  {
    CallRecorded(types, structs, f, e, c, i);
    hide Infer, SitesExpr, SitesList, ExprsIn, StmtsIn, ClearExpr, Nodes;
    assert ClearStmt(f, s) && HasCall(f, e);
    hide HasCall;
    if s.If? {
      if e in ExprsIn(s.thn) { ListRecorded(types, structs, f, s.thn, e, c, i); }
      else if e in ExprsIn(s.els) { ListRecorded(types, structs, f, s.els, e, c, i); }
    } else if s.While? || s.For? || s.Block? || s.Proc? || s.AsyncProc? {
      if e in ExprsIn(s.body) { ListRecorded(types, structs, f, s.body, e, c, i); }
    }
  }

  lemma {:induction false} ListRecorded(types: Types, structs: set<string>, f: string, ss: seq<Stmt>, e: Expr, c: Expr,
                                        i: nat)
    requires (forall t | t in StmtsIn(ss) :: ClearStmt(f, t)) && e in ExprsIn(ss)
    requires ClearExpr(f, e) && c in Nodes(e) && IsCallOf(f, c) && i < |c.args|
    ensures Obs(i, Infer(types, structs, c.args[i])) in SitesList(types, structs, f, ss)
    decreases ss, 0
  {
    hide Infer, SitesStmt, ExprsOf, StmtsOf, ClearExpr, ClearStmt, Nodes;
    if e in ExprsOf(ss[0]) { StmtRecorded(types, structs, f, ss[0], e, c, i); }
    else { ListRecorded(types, structs, f, ss[1..], e, c, i); }
  }

  // ---------- parameters that keep their types ----------

  /** The types of the `i`-th arguments of all calls of the proc in the program. */
  ghost predicate AllPass(types: Types, structs: set<string>, f: string, program: seq<Stmt>, i: nat, t: Tag) {
    forall c | c in NodesIn(program) && IsCallOf(f, c) && i < |c.args| :: Infer(types, structs, c.args[i]) == t
  }

  ghost predicate SomePass(f: string, program: seq<Stmt>, i: nat) {
    exists c :: c in NodesIn(program) && IsCallOf(f, c) && i < |c.args|
  }

  /** With all calls in sight, a parameter keeps a type exactly if the annotation, where there
      is one, and the arguments of all calls anywhere in the program agree on it. */
  lemma KeptIff(types: Types, structs: set<string>, f: string, program: seq<Stmt>, i: nat, t: Tag)
    requires Unseen(types, f) && t != Unknown && Declared(program, f, |program|) && InSight(f, program)
    ensures TypeOf(ScanProcs(types, structs, program, |program|), Param(f, i)) == t
            <==> (if Param(f, i) in types then types[Param(f, i)] == t else SomePass(f, program, i))
                 && AllPass(types, structs, f, program, i, t)
  {
    var os := SitesList(types, structs, f, program);
    ProgramParamIff(types, structs, f, program, i, t);
    hide ScanProcs, SitesList, Declared, Unseen;
    forall c | c in NodesIn(program) && IsCallOf(f, c) && i < |c.args|
      ensures Obs(i, Infer(types, structs, c.args[i])) in os
    {
      Recorded(types, structs, f, program, c, i);
    }
    forall o | o in os
      ensures exists c :: c in NodesIn(program) && IsCallOf(f, c) && o.i < |c.args|
                          && Infer(types, structs, c.args[o.i]) == o.t
    {
      var e := ListPassed(types, structs, f, program, o);
      var c :| c in Nodes(e) && IsCallOf(f, c) && o.i < |c.args| && Infer(types, structs, c.args[o.i]) == o.t;
      assert c in NodesIn(program);
    }
    hide NodesIn, Infer;
  }

  lemma Recorded(types: Types, structs: set<string>, f: string, program: seq<Stmt>, c: Expr, i: nat)
    requires InSight(f, program) && c in NodesIn(program) && IsCallOf(f, c) && i < |c.args|
    ensures Obs(i, Infer(types, structs, c.args[i])) in SitesList(types, structs, f, program)
  {
    hide Infer, SitesList, ExprsIn, StmtsIn, ClearExpr, ClearStmt, Nodes;
    var e :| e in ExprsIn(program) && c in Nodes(e);
    ListRecorded(types, structs, f, program, e, c, i);
  }

  /** And then it gets values of that kind only: whenever the arguments of a call are
      evaluated, the one in its place is of the kind, unless it is written with `~`. */
  lemma KeptParamSound(w: World, kind: Value -> Tag, types: Types, structs: set<string>, f: string, program: seq<Stmt>,
                       i: nat, t: Tag, args: seq<Expr>, fuel: nat, st: State)
    requires Unseen(types, f) && t != Unknown && Declared(program, f, |program|) && InSight(f, program)
    requires TypeOf(ScanProcs(types, structs, program, |program|), Param(f, i)) == t
    requires Call(Variable(f), args) in NodesIn(program) && i < |args|
    requires Typed(w, kind) && SteadyAll(w, kind, types, structs, fuel, args, st)
    requires EvalAll(w, fuel, args, st).Got?
    ensures kind(EvalAll(w, fuel, args, st).value[i]) == t <==> !IsTilde(args[i])
  {
    hide ScanProcs, Typed, EvalAll, SteadyAll, NodesIn, InSight;
    KeptIff(types, structs, f, program, i, t);
    assert IsCallOf(f, Call(Variable(f), args));
    ArgumentsSound(w, kind, types, structs, fuel, args, st, i);
  }

  const FLIP: Expr := Binary(OtherOp("~"), Int(1), Absent)

  function Tilded(sig: Signature): seq<Stmt> { [Proc("f", sig, []), ExprStmt(Call(Variable("f"), [FLIP]))] }

  /** The parameter below keeps the type of truth values, and gets an int. */
  lemma TildeArgument(w: World, kind: Value -> Tag, fuel: nat, sig: Signature, st: State)
    requires Typed(w, kind)
    requires sig.defaults == [] && sig.typeParams == [] && w.host.binary(OtherOp("~"), IntV(1), NilV).Some?
    ensures TypeOf(ScanProcs(map[], {}, Tilded(sig), 2), Param("f", 0)) == BoolT
    ensures EvalAll(w, fuel, [FLIP], st).Got? && kind(EvalAll(w, fuel, [FLIP], st).value[0]) == IntT
  {
    TildeKept(sig);
    TildeRuns(w, fuel, st);
    hide ScanProcs, EvalAll;
  }

  lemma TildeRuns(w: World, fuel: nat, st: State)
    requires w.host.binary(OtherOp("~"), IntV(1), NilV).Some?
    ensures EvalAll(w, fuel, [FLIP], st).Got?
    ensures EvalAll(w, fuel, [FLIP], st).value == [w.host.binary(OtherOp("~"), IntV(1), NilV).value]
  {
    assert EvalAll(w, fuel, [], st) == Got([], st);
    assert Eval(w, fuel, Int(1), st) == Got(IntV(1), st);
    assert Eval(w, fuel, Absent, st) == Got(NilV, st);
    var v := w.host.binary(OtherOp("~"), IntV(1), NilV).value;
    assert Eval(w, fuel, FLIP, st) == Got(v, st);
    hide Eval;
    assert [FLIP][1..] == [];
    assert [v] + [] == [v];
  }

  lemma TildeKept(sig: Signature)
    requires sig.defaults == [] && sig.typeParams == []
    ensures TypeOf(ScanProcs(map[], {}, Tilded(sig), 2), Param("f", 0)) == BoolT
  {
    assert Declared(Tilded(sig), "f", 1) && Declared(Tilded(sig), "f", 2);
    TildeInSight(sig);
    TildePasses(sig);
    assert |Tilded(sig)| == 2;
    hide Tilded, Declared, InSight, SomePass, AllPass, ScanProcs, TypeOf;
    KeptIff(map[], {}, "f", Tilded(sig), 0, BoolT);
  }

  lemma TildePasses(sig: Signature)
    requires sig.defaults == []
    ensures SomePass("f", Tilded(sig), 0) && AllPass(map[], {}, "f", Tilded(sig), 0, BoolT)
  {
    var call := Call(Variable("f"), [FLIP]);
    TildeNodes();
    TildeTree(sig);
    assert Infer(map[], {}, FLIP) == BoolT;
    hide ExprsIn, Nodes, Infer, Tilded;
    assert call in NodesIn(Tilded(sig)) && IsCallOf("f", call);
    forall c | c in NodesIn(Tilded(sig)) && IsCallOf("f", c)
      ensures c == call
    {
      var e :| e in ExprsIn(Tilded(sig)) && c in Nodes(e);
    }
  }

  lemma TildeInSight(sig: Signature)
    requires sig.defaults == []
    ensures InSight("f", Tilded(sig))
  {
    hide ExprsIn, StmtsIn, Nodes, HasCall;
    TildeNodes();
    assert ClearExpr("f", Call(Variable("f"), [FLIP]));
    hide ClearExpr;
    assert ClearStmt("f", Tilded(sig)[0]) && ClearStmt("f", Tilded(sig)[1]);
    hide ClearStmt, Tilded;
    TildeTree(sig);
  }

  lemma TildeTree(sig: Signature)
    requires sig.defaults == []
    ensures ExprsIn(Tilded(sig)) == {Call(Variable("f"), [FLIP])}
    ensures StmtsIn(Tilded(sig)) == {Tilded(sig)[0], Tilded(sig)[1]}
  {
    var call := Call(Variable("f"), [FLIP]);
    var a, b := Proc("f", sig, []), ExprStmt(call);
    assert ExprsIn([]) == {} && StmtsIn([]) == {};
    assert ExprsOf(a) == {} && ExprsOf(b) == {call} && StmtsOf(a) == {a} && StmtsOf(b) == {b};
    hide ExprsOf, StmtsOf;
    assert [a, b][1..] == [b] && [b][1..] == [];
    assert ExprsIn([b]) == {call} + {} && StmtsIn([b]) == {b} + {};
  }

  lemma TildeNodes()
    ensures var call := Call(Variable("f"), [FLIP]);
            Nodes(call) == {call, Variable("f"), FLIP, Int(1), Absent}
  {
    assert Nodes(Int(1)) == {Int(1)} && Nodes(Absent) == {Absent} && Nodes(Variable("f")) == {Variable("f")};
    assert Nodes(FLIP) == {FLIP, Int(1), Absent};
    assert [FLIP][1..] == [] && NodesOf([]) == {};
    assert NodesOf([FLIP]) == Nodes(FLIP);
  }
}
