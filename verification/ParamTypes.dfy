// Which parameters the AOT compiler keeps unboxed: the type environment and the scan
// of call sites (src/aot.c).
module ParamTypes {
  import opened Common
  import opened Ast

  datatype Tag = Unknown | IntT | FloatT | StringT | BoolT | ArrayT | DictT | NilT | TupleT | StructT

  /** The environment's keys: "x", "f#i" and "f#i$seen". */
  datatype Key = Var(name: string) | Param(proc: string, i: nat) | Seen(proc: string, i: nat)

  type Types = map<Key, Tag>

  function TypeOf(types: Types, k: Key): Tag { if k in types then types[k] else Unknown }

  /** aot_set_var_type: a second, different type demotes the entry. */
  function SetType(types: Types, k: Key, t: Tag): Types {
    types[k := if k !in types || types[k] == t then t else Unknown]
  }

  // ---------- inference ----------

  predicate IsComparison(op: Op) { op == Eq || op == Ne || op == Gt || op == Lt || op == Ge || op == Le }

  predicate IsIntOp(op: Op) {
    op == Add || op == Sub || op == Mul || op == Mod || op == Div
    || op in {OtherOp("&"), OtherOp("|"), OtherOp("^"), OtherOp("<<"), OtherOp(">>")}
  }

  predicate IsNumeric(t: Tag) { t == IntT || t == FloatT }

  /** aot_infer_expr; `structs` are the known struct constructors. */
  function Infer(types: Types, structs: set<string>, e: Expr): Tag
    decreases e
  {
    match e
    case Absent => NilT
    case Nil => NilT
    case Int(_) => IntT
    case Number(_) => FloatT
    case Str(_) => StringT
    case Bool(_) => BoolT
    case Array(_) => ArrayT
    case Dict(_, _) => DictT
    case Tuple(_) => TupleT
    case Variable(x) => TypeOf(types, Var(x))
    case Binary(op, left, right) =>
      if op == Not || op == OtherOp("~") then BoolT
      else if right.Absent? then Unknown
      else
        var l, r := Infer(types, structs, left), Infer(types, structs, right);
        if IsComparison(op) then BoolT
        else if l == IntT && r == IntT && IsIntOp(op) then IntT
        else if IsNumeric(l) && IsNumeric(r) && (op == Add || op == Sub || op == Mul || op == Div) then FloatT
        else Unknown
    case Call(callee, _) =>
      if !callee.Variable? then Unknown
      else
        var n := callee.name;
        if n == "len" || n == "int" then IntT
        else if n == "float" then FloatT
        else if n == "str" || n == "typeof" then StringT
        else if n == "bool" then BoolT
        else if n == "range" || n == "range_inc" then ArrayT
        else if n in structs then StructT
        else Unknown
    case _ => Unknown
  }

  // ---------- observations ----------

  /** One argument seen at a call: its position and its type. */
  datatype Obs = Obs(i: nat, t: Tag)

  /** The first observation of a parameter sets its type, a later one can only agree
      or demote. */
  function Observe(types: Types, f: string, o: Obs): Types {
    if TypeOf(types, Seen(f, o.i)) == Unknown then
      SetType(SetType(types, Seen(f, o.i), BoolT), Param(f, o.i), o.t)
    else if TypeOf(types, Param(f, o.i)) != o.t then SetType(types, Param(f, o.i), Unknown)
    else types
  }

  function ObserveAll(types: Types, f: string, os: seq<Obs>): Types {
    if os == [] then types else Observe(ObserveAll(types, f, os[..|os| - 1]), f, os[|os| - 1])
  }

  function ArgsSeen(types: Types, structs: set<string>, args: seq<Expr>): seq<Obs> {
    seq(|args|, i requires 0 <= i < |args| => Obs(i, Infer(types, structs, args[i])))
  }

  /** The observations of a scan, in the order in which it makes them.  Calls inside
      arrays, dicts, tuples, slices and other kinds are not scanned. */
  function SitesExpr(types: Types, structs: set<string>, f: string, e: Expr): seq<Obs>
    decreases e, 1
  {
    match e
    case Call(callee, args) =>
      (if callee.Variable? && callee.name == f then ArgsSeen(types, structs, args) else [])
      + SitesExprs(types, structs, f, args) + SitesExpr(types, structs, f, callee)
    case Binary(_, left, right) => SitesExpr(types, structs, f, left) + SitesExpr(types, structs, f, right)
    case Get(obj, _) => SitesExpr(types, structs, f, obj)
    case Set(obj, _, value) => SitesExpr(types, structs, f, obj) + SitesExpr(types, structs, f, value)
    case Index(base, index) => SitesExpr(types, structs, f, base) + SitesExpr(types, structs, f, index)
    case _ => []
  }

  function SitesExprs(types: Types, structs: set<string>, f: string, es: seq<Expr>): seq<Obs>
    decreases es, 0
  {
    if es == [] then [] else SitesExpr(types, structs, f, es[0]) + SitesExprs(types, structs, f, es[1..])
  }

  function SitesStmt(types: Types, structs: set<string>, f: string, s: Stmt): seq<Obs>
    decreases s, 1
  {
    match s
    case ExprStmt(e) => SitesExpr(types, structs, f, e)
    case Let(_, e) => SitesExpr(types, structs, f, e)
    case Print(e) => SitesExpr(types, structs, f, e)
    case Return(e) => SitesExpr(types, structs, f, e)
    case If(e, thn, els) =>
      SitesExpr(types, structs, f, e) + SitesList(types, structs, f, thn) + SitesList(types, structs, f, els)
    case While(e, body) => SitesExpr(types, structs, f, e) + SitesList(types, structs, f, body)
    case For(_, _, body) => SitesList(types, structs, f, body)
    case Block(body) => SitesList(types, structs, f, body)
    case Proc(_, _, body) => SitesList(types, structs, f, body)
    case AsyncProc(_, _, body) => SitesList(types, structs, f, body)
    case _ => []
  }

  function SitesList(types: Types, structs: set<string>, f: string, ss: seq<Stmt>): seq<Obs>
    decreases ss, 0
  {
    if ss == [] then [] else SitesStmt(types, structs, f, ss[0]) + SitesList(types, structs, f, ss[1..])
  }

  // ---------- what remains of a parameter's type ----------

  ghost predicate Unseen(types: Types, f: string) {
    forall i: nat :: Seen(f, i) !in types
  }

  predicate AnySeen(os: seq<Obs>, i: nat) { exists o :: o in os && o.i == i }

  predicate AllAgree(os: seq<Obs>, i: nat, t: Tag) { forall o | o in os && o.i == i :: o.t == t }

  /** The parameter has type `t` exactly if the annotation, when there is one, and
      every observed argument say so. */
  predicate Agreed(types: Types, f: string, os: seq<Obs>, i: nat, t: Tag) {
    && (if Param(f, i) in types then types[Param(f, i)] == t else AnySeen(os, i))
    && AllAgree(os, i, t)
  }

  lemma SnocSeen(pre: seq<Obs>, o: Obs, i: nat, t: Tag)
    ensures AnySeen(pre + [o], i) <==> AnySeen(pre, i) || o.i == i
    ensures AllAgree(pre + [o], i, t) <==> AllAgree(pre, i, t) && (o.i == i ==> o.t == t)
  {
    var os := pre + [o];
    if AnySeen(pre, i) { var x :| x in pre && x.i == i; assert x in os; }
    if o.i == i { assert o in os; }
    assert forall x :: x in os <==> x in pre || x == o;
  }

  lemma {:induction false} SeenAfter(types: Types, f: string, os: seq<Obs>, i: nat)
    requires Unseen(types, f)
    ensures var r := ObserveAll(types, f, os);
            && (TypeOf(r, Seen(f, i)) != Unknown <==> AnySeen(os, i))
            && (Seen(f, i) in r ==> r[Seen(f, i)] == BoolT)
            && (Param(f, i) in r <==> Param(f, i) in types || AnySeen(os, i))
            && (!AnySeen(os, i) && Param(f, i) in types ==> r[Param(f, i)] == types[Param(f, i)])
  {
    if os != [] {
      var pre, o := os[..|os| - 1], os[|os| - 1];
      assert os == pre + [o];
      SeenAfter(types, f, pre, i);
      SeenAfter(types, f, pre, o.i);
      SnocSeen(pre, o, i, Unknown);
      hide AnySeen;
    }
  }

  /** A concrete type survives the scan exactly when everything agrees on it. */
  lemma {:induction false} ParamTypeIff(types: Types, f: string, os: seq<Obs>, i: nat, t: Tag)
    requires Unseen(types, f) && t != Unknown
    ensures TypeOf(ObserveAll(types, f, os), Param(f, i)) == t <==> Agreed(types, f, os, i, t)
  {
    if os != [] {
      var pre, o := os[..|os| - 1], os[|os| - 1];
      assert os == pre + [o];
      ParamTypeIff(types, f, pre, i, t);
      SeenAfter(types, f, pre, i);
      SnocSeen(pre, o, i, t);
      if o.i == i {
        NoneAgree(pre, i, t);
        hide AnySeen, AllAgree, Unseen;
      } else {
        OtherParam(ObserveAll(types, f, pre), f, o, i);
        hide AnySeen, AllAgree, Unseen, Observe;
      }
    }
  }

  lemma NoneAgree(os: seq<Obs>, i: nat, t: Tag)
    ensures !AnySeen(os, i) ==> AllAgree(os, i, t)
  {
  }

  lemma OtherParam(types: Types, f: string, o: Obs, i: nat)
    requires o.i != i
    ensures TypeOf(Observe(types, f, o), Param(f, i)) == TypeOf(types, Param(f, i))
  {
  }

  /** So the order of the call sites does not matter. */
  lemma OrderIrrelevant(types: Types, f: string, os: seq<Obs>, os': seq<Obs>, i: nat)
    requires Unseen(types, f) && forall o :: o in os <==> o in os'
    ensures TypeOf(ObserveAll(types, f, os), Param(f, i)) == TypeOf(ObserveAll(types, f, os'), Param(f, i))
  {
    var t, t' := TypeOf(ObserveAll(types, f, os), Param(f, i)), TypeOf(ObserveAll(types, f, os'), Param(f, i));
    if t != Unknown {
      ParamTypeIff(types, f, os, i, t);
      ParamTypeIff(types, f, os', i, t);
      SameAgreed(types, f, os, os', i, t);
    }
    if t' != Unknown {
      ParamTypeIff(types, f, os, i, t');
      ParamTypeIff(types, f, os', i, t');
      SameAgreed(types, f, os, os', i, t');
    }
  }

  lemma SameAgreed(types: Types, f: string, os: seq<Obs>, os': seq<Obs>, i: nat, t: Tag)
    requires forall o :: o in os <==> o in os'
    ensures Agreed(types, f, os, i, t) <==> Agreed(types, f, os', i, t)
  {
    if AnySeen(os, i) { var x :| x in os && x.i == i; assert x in os'; }
    if AnySeen(os', i) { var x :| x in os' && x.i == i; assert x in os; }
  }

  // ---------- every call there is ----------

  function ArgSet(types: Types, structs: set<string>, args: seq<Expr>): set<Obs> {
    set o | o in ArgsSeen(types, structs, args)
  }

  /** The arguments of every call of `f` in the tree, and the defaults such a call may
      pass. */
  function AllExpr(types: Types, structs: set<string>, f: string, e: Expr): set<Obs>
    decreases e, 1
  {
    match e
    case Call(callee, args) =>
      (if callee.Variable? && callee.name == f then ArgSet(types, structs, args) else {})
      + AllExprs(types, structs, f, args) + AllExpr(types, structs, f, callee)
    case Binary(_, left, right) => AllExpr(types, structs, f, left) + AllExpr(types, structs, f, right)
    case NullCoal(left, right) => AllExpr(types, structs, f, left) + AllExpr(types, structs, f, right)
    case Range(low, high, _) => AllExpr(types, structs, f, low) + AllExpr(types, structs, f, high)
    case Index(base, index) => AllExpr(types, structs, f, base) + AllExpr(types, structs, f, index)
    case IndexSet(base, index, value) =>
      AllExpr(types, structs, f, base) + AllExpr(types, structs, f, index) + AllExpr(types, structs, f, value)
    case Slice(base, start, end) =>
      AllExpr(types, structs, f, base) + AllExpr(types, structs, f, start) + AllExpr(types, structs, f, end)
    case Get(obj, _) => AllExpr(types, structs, f, obj)
    case OptChain(obj, _) => AllExpr(types, structs, f, obj)
    case Await(operand) => AllExpr(types, structs, f, operand)
    case Unwrap(operand) => AllExpr(types, structs, f, operand)
    case Set(obj, _, value) => AllExpr(types, structs, f, obj) + AllExpr(types, structs, f, value)
    case Array(es) => AllExprs(types, structs, f, es)
    case Tuple(es) => AllExprs(types, structs, f, es)
    case Dict(_, values) => AllExprs(types, structs, f, values)
    case Comptime(operand) => AllExpr(types, structs, f, operand)
    case Interp(_, parts) => AllExprs(types, structs, f, parts)
    case _ => {}
  }

  function AllExprs(types: Types, structs: set<string>, f: string, es: seq<Expr>): set<Obs>
    decreases es, 0
  {
    if es == [] then {} else AllExpr(types, structs, f, es[0]) + AllExprs(types, structs, f, es[1..])
  }

  /** A call that leaves arguments out passes the defaults, which are never scanned. */
  function DefaultArgs(types: Types, structs: set<string>, sig: Signature): set<Obs> {
    var first := if |sig.defaults| <= |sig.params| then |sig.params| - |sig.defaults| else 0;
    set j | 0 <= j < |sig.defaults| :: Obs(first + j, Infer(types, structs, sig.defaults[j]))
  }

  /** What the defaults of a proc contribute: the calls in them and, if the proc is `f`
      itself, the values. */
  function OfDefaults(types: Types, structs: set<string>, f: string, name: string, sig: Signature): set<Obs> {
    AllExprs(types, structs, f, sig.defaults) + if name == f then DefaultArgs(types, structs, sig) else {}
  }

  function AllStmt(types: Types, structs: set<string>, f: string, s: Stmt): set<Obs>
    decreases s, 1
  {
    match s
    case ExprStmt(e) => AllExpr(types, structs, f, e)
    case Let(_, e) => AllExpr(types, structs, f, e)
    case Print(e) => AllExpr(types, structs, f, e)
    case Return(e) => AllExpr(types, structs, f, e)
    case Raise(e) => AllExpr(types, structs, f, e)
    case Yield(e) => AllExpr(types, structs, f, e)
    case If(e, thn, els) =>
      AllExpr(types, structs, f, e) + AllList(types, structs, f, thn) + AllList(types, structs, f, els)
    case While(e, body) => AllExpr(types, structs, f, e) + AllList(types, structs, f, body)
    case For(_, e, body) => AllExpr(types, structs, f, e) + AllList(types, structs, f, body)
    case Block(body) => AllList(types, structs, f, body)
    case Defer(body) => AllList(types, structs, f, body)
    case Proc(name, sig, body) => OfDefaults(types, structs, f, name, sig) + AllList(types, structs, f, body)
    case AsyncProc(name, sig, body) => OfDefaults(types, structs, f, name, sig) + AllList(types, structs, f, body)
    case Class(_, _, methods) => AllList(types, structs, f, methods)
    case Impl(methods) => AllList(types, structs, f, methods)
    case Annotated(body) => AllList(types, structs, f, body)
    case ComptimeBlock(body) => AllList(types, structs, f, body)
    case Spawn(body) => AllList(types, structs, f, body)
    case Match(e, cases, default) =>
      AllExpr(types, structs, f, e) + AllCases(types, structs, f, cases) + AllList(types, structs, f, default)
    case Try(block, handlers, final) =>
      AllList(types, structs, f, block) + AllHandlers(types, structs, f, handlers) + AllList(types, structs, f, final)
    case _ => {}
  }

  function AllList(types: Types, structs: set<string>, f: string, ss: seq<Stmt>): set<Obs>
    decreases ss, 0
  {
    if ss == [] then {} else AllStmt(types, structs, f, ss[0]) + AllList(types, structs, f, ss[1..])
  }

  function AllCases(types: Types, structs: set<string>, f: string, cs: seq<Case>): set<Obs>
    decreases cs, 0
  {
    if cs == [] then {}
    else
      AllExpr(types, structs, f, cs[0].pattern) + AllExpr(types, structs, f, cs[0].guard)
      + AllList(types, structs, f, cs[0].body) + AllCases(types, structs, f, cs[1..])
  }

  function AllHandlers(types: Types, structs: set<string>, f: string, hs: seq<Handler>): set<Obs>
    decreases hs, 0
  {
    if hs == [] then {} else AllList(types, structs, f, hs[0].body) + AllHandlers(types, structs, f, hs[1..])
  }

  /** The arguments of the calls that the scan does not reach. */
  function MissedExpr(types: Types, structs: set<string>, f: string, e: Expr): set<Obs>
    decreases e, 1
  {
    match e
    case Call(callee, args) => MissedExprs(types, structs, f, args) + MissedExpr(types, structs, f, callee)
    case Binary(_, left, right) => MissedExpr(types, structs, f, left) + MissedExpr(types, structs, f, right)
    case Get(obj, _) => MissedExpr(types, structs, f, obj)
    case Set(obj, _, value) => MissedExpr(types, structs, f, obj) + MissedExpr(types, structs, f, value)
    case Index(base, index) => MissedExpr(types, structs, f, base) + MissedExpr(types, structs, f, index)
    case _ => AllExpr(types, structs, f, e)
  }

  function MissedExprs(types: Types, structs: set<string>, f: string, es: seq<Expr>): set<Obs>
    decreases es, 0
  {
    if es == [] then {} else MissedExpr(types, structs, f, es[0]) + MissedExprs(types, structs, f, es[1..])
  }

  function MissedStmt(types: Types, structs: set<string>, f: string, s: Stmt): set<Obs>
    decreases s, 1
  {
    match s
    case ExprStmt(e) => MissedExpr(types, structs, f, e)
    case Let(_, e) => MissedExpr(types, structs, f, e)
    case Print(e) => MissedExpr(types, structs, f, e)
    case Return(e) => MissedExpr(types, structs, f, e)
    case If(e, thn, els) =>
      MissedExpr(types, structs, f, e) + MissedList(types, structs, f, thn) + MissedList(types, structs, f, els)
    case While(e, body) => MissedExpr(types, structs, f, e) + MissedList(types, structs, f, body)
    case For(_, e, body) => AllExpr(types, structs, f, e) + MissedList(types, structs, f, body)
    case Block(body) => MissedList(types, structs, f, body)
    case Proc(name, sig, body) => OfDefaults(types, structs, f, name, sig) + MissedList(types, structs, f, body)
    case AsyncProc(name, sig, body) => OfDefaults(types, structs, f, name, sig) + MissedList(types, structs, f, body)
    case _ => AllStmt(types, structs, f, s)
  }

  function MissedList(types: Types, structs: set<string>, f: string, ss: seq<Stmt>): set<Obs>
    decreases ss, 0
  {
    if ss == [] then {} else MissedStmt(types, structs, f, ss[0]) + MissedList(types, structs, f, ss[1..])
  }

  /** Every call is either scanned or missed. */
  lemma {:induction false} ExprCovered(types: Types, structs: set<string>, f: string, e: Expr, o: Obs)
    ensures o in AllExpr(types, structs, f, e) <==>
            o in SitesExpr(types, structs, f, e) || o in MissedExpr(types, structs, f, e)
    decreases e, 1
  {
    hide ArgsSeen;
    if e.Call? {
      ExprCovered(types, structs, f, e.callee, o);
      ExprsCovered(types, structs, f, e.args, o);
    } else if e.Binary? {
      ExprCovered(types, structs, f, e.left, o);
      ExprCovered(types, structs, f, e.right, o);
    } else if e.Get? {
      ExprCovered(types, structs, f, e.receiver, o);
    } else if e.Set? {
      ExprCovered(types, structs, f, e.receiver, o);
      ExprCovered(types, structs, f, e.value, o);
    } else if e.Index? {
      ExprCovered(types, structs, f, e.base, o);
      ExprCovered(types, structs, f, e.index, o);
    }
  }

  lemma {:induction false} ExprsCovered(types: Types, structs: set<string>, f: string, es: seq<Expr>, o: Obs)
    ensures o in AllExprs(types, structs, f, es) <==>
            o in SitesExprs(types, structs, f, es) || o in MissedExprs(types, structs, f, es)
    decreases es, 0
  {
    hide SitesExpr, AllExpr, MissedExpr;
    if es != [] {
      ExprCovered(types, structs, f, es[0], o);
      ExprsCovered(types, structs, f, es[1..], o);
    }
  }

  lemma {:induction false} StmtCovered(types: Types, structs: set<string>, f: string, s: Stmt, o: Obs)
    ensures o in AllStmt(types, structs, f, s) <==>
            o in SitesStmt(types, structs, f, s) || o in MissedStmt(types, structs, f, s)
    decreases s, 1
  {
    hide SitesExpr, AllExpr, MissedExpr, SitesList, AllList, MissedList, OfDefaults;
    if s.ExprStmt? || s.Print? || s.Return? {
      ExprCovered(types, structs, f, s.e, o);
    } else if s.Let? {
      ExprCovered(types, structs, f, s.init, o);
    } else if s.If? {
      ExprCovered(types, structs, f, s.cond, o);
      ListCovered(types, structs, f, s.thn, o);
      ListCovered(types, structs, f, s.els, o);
    } else if s.While? {
      ExprCovered(types, structs, f, s.cond, o);
      ListCovered(types, structs, f, s.body, o);
    } else if s.For? || s.Block? || s.Proc? || s.AsyncProc? {
      ListCovered(types, structs, f, s.body, o);
    }
  }

  lemma {:induction false} ListCovered(types: Types, structs: set<string>, f: string, ss: seq<Stmt>, o: Obs)
    ensures o in AllList(types, structs, f, ss) <==>
            o in SitesList(types, structs, f, ss) || o in MissedList(types, structs, f, ss)
    decreases ss, 0
  {
    hide SitesStmt, AllStmt, MissedStmt;
    if ss != [] {
      StmtCovered(types, structs, f, ss[0], o);
      ListCovered(types, structs, f, ss[1..], o);
    }
  }

  predicate Agree(os: set<Obs>, i: nat, t: Tag) { forall o | o in os && o.i == i :: o.t == t }

  predicate Mentioned(os: set<Obs>, i: nat) { exists o :: o in os && o.i == i }

  // ---------- all scans of a program ----------

  /** Which calls a statement of the program has scanned: those of a proc that is not
      generic, and those of a constructor. */
  function ScanName(s: Stmt): Option<string> {
    match s
    case Proc(name, sig, _) => if sig.typeParams == [] then Some(name) else None
    case AsyncProc(name, sig, _) => if sig.typeParams == [] then Some(name) else None
    case Class(name, _, _) => Some(name)
    case Struct(name) => Some(name)
    case _ => None
  }

  /** The scans for the first `n` statements. */
  function ScanProcs(types: Types, structs: set<string>, program: seq<Stmt>, n: nat): Types
    requires n <= |program|
  {
    if n == 0 then types
    else
      var pre, f := ScanProcs(types, structs, program, n - 1), ScanName(program[n - 1]);
      if f.None? then pre else ObserveAll(pre, f.value, SitesList(pre, structs, f.value, program))
  }

  /** The two environments agree on a proc's entries. */
  ghost predicate SameEntries(f: string, a: Types, b: Types) {
    forall i: nat ::
      && (Seen(f, i) in a <==> Seen(f, i) in b) && (Seen(f, i) in a ==> a[Seen(f, i)] == b[Seen(f, i)])
      && (Param(f, i) in a <==> Param(f, i) in b) && (Param(f, i) in a ==> a[Param(f, i)] == b[Param(f, i)])
  }

  lemma {:induction false} ObserveSame(f: string, a: Types, b: Types, os: seq<Obs>)
    requires SameEntries(f, a, b)
    ensures SameEntries(f, ObserveAll(a, f, os), ObserveAll(b, f, os))
  {
    if os != [] {
      ObserveSame(f, a, b, os[..|os| - 1]);
    }
  }

  lemma {:induction false} ObserveOther(f: string, g: string, a: Types, os: seq<Obs>)
    requires f != g
    ensures SameEntries(f, a, ObserveAll(a, g, os))
  {
    if os != [] {
      ObserveOther(f, g, a, os[..|os| - 1]);
    }
  }

  function Repeat(os: seq<Obs>, n: nat): seq<Obs> { if n == 0 then [] else Repeat(os, n - 1) + os }

  lemma {:induction false} RepeatSame(os: seq<Obs>, n: nat)
    ensures n > 0 ==> forall o :: o in Repeat(os, n) <==> o in os
  {
    if n > 0 {
      RepeatSame(os, n - 1);
      assert n == 1 ==> Repeat(os, 0) == [];
    }
  }

  /** Does one of the first `n` statements have the calls of this name scanned? */
  predicate Declared(program: seq<Stmt>, f: string, n: nat)
    requires n <= |program|
  {
    n > 0 && (ScanName(program[n - 1]) == Some(f) || Declared(program, f, n - 1))
  }

  /** What the scans do to one proc's entries: nothing, or its own scan once or more. */
  lemma {:induction false} ScanProcsFor(types: Types, structs: set<string>, f: string, program: seq<Stmt>, n: nat)
    returns (k: nat)
    requires n <= |program|
    ensures var r := ScanProcs(types, structs, program, n);
            SameVars(types, r)
            && SameEntries(f, r, ObserveAll(types, f, Repeat(SitesList(types, structs, f, program), k)))
    ensures k > 0 <==> Declared(program, f, n)
  {
    if n == 0 {
      k := 0;
      NothingScanned(types, structs, f, program);
    } else {
      k := ScanProcsFor(types, structs, f, program, n - 1);
      hide SitesList, ObserveAll, Repeat, SameEntries, SameVars, ScanName;
      var g := ScanName(program[n - 1]);
      if g.Some? {
        ScanStep(types, structs, f, g.value, program, ScanProcs(types, structs, program, n - 1), k);
        if g.value == f { k := k + 1; }
      }
    }
  }

  lemma ScanStep(types: Types, structs: set<string>, f: string, g: string, program: seq<Stmt>, pre: Types, k: nat)
    requires SameVars(types, pre)
    requires SameEntries(f, pre, ObserveAll(types, f, Repeat(SitesList(types, structs, f, program), k)))
    ensures var r := ObserveAll(pre, g, SitesList(pre, structs, g, program));
            var n := if g == f then k + 1 else k;
            && SameVars(types, r)
            && SameEntries(f, r, ObserveAll(types, f, Repeat(SitesList(types, structs, f, program), n)))
  {
    hide *;
    var os := SitesList(types, structs, g, program);
    var r := ObserveAll(pre, g, os);
    SameSitesList(types, pre, structs, g, program);
    ObserveKeepsVars(pre, g, os);
    VarsThrough(types, pre, r);
    if g == f {
      OnceMore(types, f, pre, os, k);
    } else {
      ObserveOther(f, g, pre, os);
      EntriesThrough(f, pre, r, ObserveAll(types, f, Repeat(SitesList(types, structs, f, program), k)));
    }
  }

  lemma NothingScanned(types: Types, structs: set<string>, f: string, program: seq<Stmt>)
    ensures var r := ScanProcs(types, structs, program, 0);
            SameVars(types, r)
            && SameEntries(f, r, ObserveAll(types, f, Repeat(SitesList(types, structs, f, program), 0)))
  {
    hide SitesList;
  }

  lemma EntriesThrough(f: string, a: Types, b: Types, c: Types)
    requires SameEntries(f, a, b) && SameEntries(f, a, c)
    ensures SameEntries(f, b, c)
  {
  }

  lemma VarsThrough(a: Types, b: Types, c: Types)
    requires SameVars(a, b) && SameVars(b, c)
    ensures SameVars(a, c)
  {
  }

  lemma OnceMore(types: Types, f: string, pre: Types, os: seq<Obs>, k: nat)
    requires SameEntries(f, pre, ObserveAll(types, f, Repeat(os, k)))
    ensures SameEntries(f, ObserveAll(pre, f, os), ObserveAll(types, f, Repeat(os, k + 1)))
  {
    hide SameEntries, ObserveAll;
    ObserveSame(f, pre, ObserveAll(types, f, Repeat(os, k)), os);
    ObserveConcat(types, f, Repeat(os, k), os);
  }

  /** The compiler's decision about one parameter: it keeps the type `t` exactly if the
      annotation, where there is one, and all scanned calls agree on it; and then it
      suits every call of the program exactly if the missed calls agree too. */
  lemma ProgramParamIff(types: Types, structs: set<string>, f: string, program: seq<Stmt>, i: nat, t: Tag)
    requires Unseen(types, f) && t != Unknown && Declared(program, f, |program|)
    ensures var all, missed := AllList(types, structs, f, program), MissedList(types, structs, f, program);
            var kept := TypeOf(ScanProcs(types, structs, program, |program|), Param(f, i)) == t;
            && (kept <==> Agreed(types, f, SitesList(types, structs, f, program), i, t))
            && (kept ==> (Agree(all, i, t) <==> Agree(missed, i, t)))
            && (!Mentioned(missed, i) ==>
                  (kept <==> (if Param(f, i) in types then types[Param(f, i)] == t else Mentioned(all, i))
                             && Agree(all, i, t)))
  {
    var os := SitesList(types, structs, f, program);
    var k := ScanProcsFor(types, structs, f, program, |program|);
    forall o
      ensures o in AllList(types, structs, f, program) <==>
              o in os || o in MissedList(types, structs, f, program)
    {
      ListCovered(types, structs, f, program, o);
    }
    RepeatSame(os, k);
    hide ObserveAll, SitesList, AllList, MissedList, ScanProcs, Repeat;
    ParamTypeIff(types, f, Repeat(os, k), i, t);
    SameAgreed(types, f, Repeat(os, k), os, i, t);
    AsSets(types, f, os, AllList(types, structs, f, program), MissedList(types, structs, f, program), i, t);
  }

  lemma AsSets(types: Types, f: string, os: seq<Obs>, all: set<Obs>, missed: set<Obs>, i: nat, t: Tag)
    requires forall o :: o in all <==> o in os || o in missed
    ensures Agree(all, i, t) <==> AllAgree(os, i, t) && Agree(missed, i, t)
    ensures !Mentioned(missed, i) ==> Agree(missed, i, t) && (Mentioned(all, i) <==> AnySeen(os, i))
  {
    if !Mentioned(missed, i) {
      if AnySeen(os, i) { var o :| o in os && o.i == i; assert o in all; }
    }
  }

  // ---------- the scan does not disturb its own inference ----------

  ghost predicate SameVars(a: Types, b: Types) {
    forall x :: TypeOf(a, Var(x)) == TypeOf(b, Var(x))
  }

  lemma {:induction false} SameInfer(a: Types, b: Types, structs: set<string>, e: Expr)
    requires SameVars(a, b)
    ensures Infer(a, structs, e) == Infer(b, structs, e)
    decreases e
  {
    if e.Binary? {
      SameInfer(a, b, structs, e.left);
      SameInfer(a, b, structs, e.right);
    }
  }

  lemma SameArgs(a: Types, b: Types, structs: set<string>, args: seq<Expr>)
    requires SameVars(a, b)
    ensures ArgsSeen(a, structs, args) == ArgsSeen(b, structs, args)
  {
    forall i | 0 <= i < |args|
      ensures Infer(a, structs, args[i]) == Infer(b, structs, args[i])
    {
      SameInfer(a, b, structs, args[i]);
    }
  }

  lemma {:induction false} SameSites(a: Types, b: Types, structs: set<string>, f: string, e: Expr)
    requires SameVars(a, b)
    ensures SitesExpr(a, structs, f, e) == SitesExpr(b, structs, f, e)
    decreases e, 1
  {
    hide SameVars, ArgsSeen;
    if e.Call? {
      SameArgs(a, b, structs, e.args);
      SameSitesAll(a, b, structs, f, e.args);
      SameSites(a, b, structs, f, e.callee);
    } else if e.Binary? {
      SameSites(a, b, structs, f, e.left);
      SameSites(a, b, structs, f, e.right);
    } else if e.Get? {
      SameSites(a, b, structs, f, e.receiver);
    } else if e.Set? {
      SameSites(a, b, structs, f, e.receiver);
      SameSites(a, b, structs, f, e.value);
    } else if e.Index? {
      SameSites(a, b, structs, f, e.base);
      SameSites(a, b, structs, f, e.index);
    }
  }

  lemma {:induction false} SameSitesAll(a: Types, b: Types, structs: set<string>, f: string, es: seq<Expr>)
    requires SameVars(a, b)
    ensures SitesExprs(a, structs, f, es) == SitesExprs(b, structs, f, es)
    decreases es, 0
  {
    hide SameVars;
    if es != [] {
      SameSites(a, b, structs, f, es[0]);
      SameSitesAll(a, b, structs, f, es[1..]);
    }
  }

  lemma {:induction false} SameSitesStmt(a: Types, b: Types, structs: set<string>, f: string, s: Stmt)
    requires SameVars(a, b)
    ensures SitesStmt(a, structs, f, s) == SitesStmt(b, structs, f, s)
    decreases s, 1
  {
    hide SameVars, SitesExpr;
    match s
    case ExprStmt(e) => SameSites(a, b, structs, f, e);
    case Let(_, e) => SameSites(a, b, structs, f, e);
    case Print(e) => SameSites(a, b, structs, f, e);
    case Return(e) => SameSites(a, b, structs, f, e);
    case If(e, thn, els) =>
      SameSites(a, b, structs, f, e);
      SameSitesList(a, b, structs, f, thn);
      SameSitesList(a, b, structs, f, els);
    case While(e, body) =>
      SameSites(a, b, structs, f, e);
      SameSitesList(a, b, structs, f, body);
    case For(_, _, body) => SameSitesList(a, b, structs, f, body);
    case Block(body) => SameSitesList(a, b, structs, f, body);
    case Proc(_, _, body) => SameSitesList(a, b, structs, f, body);
    case AsyncProc(_, _, body) => SameSitesList(a, b, structs, f, body);
    case _ =>
  }

  lemma {:induction false} SameSitesList(a: Types, b: Types, structs: set<string>, f: string, ss: seq<Stmt>)
    requires SameVars(a, b)
    ensures SitesList(a, structs, f, ss) == SitesList(b, structs, f, ss)
    decreases ss, 0
  {
    hide SameVars;
    if ss != [] {
      SameSitesStmt(a, b, structs, f, ss[0]);
      SameSitesList(a, b, structs, f, ss[1..]);
    }
  }

  lemma {:induction false} ObserveKeepsVars(types: Types, f: string, os: seq<Obs>)
    ensures SameVars(types, ObserveAll(types, f, os))
  {
    if os != [] {
      ObserveKeepsVars(types, f, os[..|os| - 1]);
    }
  }

  lemma {:induction false} ObserveConcat(types: Types, f: string, a: seq<Obs>, b: seq<Obs>)
    ensures ObserveAll(types, f, a + b) == ObserveAll(ObserveAll(types, f, a), f, b)
    decreases |b|
  {
    if b == [] {
      assert a + b == a;
    } else {
      assert (a + b)[..|a + b| - 1] == a + b[..|b| - 1];
      ObserveConcat(types, f, a, b[..|b| - 1]);
    }
  }

  /** Two scans in a row, as one. */
  lemma ThenExpr(types: Types, structs: set<string>, f: string, a: seq<Obs>, e: Expr)
    ensures var mid := ObserveAll(types, f, a);
            ObserveAll(mid, f, SitesExpr(mid, structs, f, e))
            == ObserveAll(types, f, a + SitesExpr(types, structs, f, e))
  {
    ObserveKeepsVars(types, f, a);
    SameSites(types, ObserveAll(types, f, a), structs, f, e);
    ObserveConcat(types, f, a, SitesExpr(types, structs, f, e));
  }

  lemma ThenStmt(types: Types, structs: set<string>, f: string, a: seq<Obs>, s: Stmt)
    ensures var mid := ObserveAll(types, f, a);
            ObserveAll(mid, f, SitesStmt(mid, structs, f, s))
            == ObserveAll(types, f, a + SitesStmt(types, structs, f, s))
  {
    ObserveKeepsVars(types, f, a);
    SameSitesStmt(types, ObserveAll(types, f, a), structs, f, s);
    ObserveConcat(types, f, a, SitesStmt(types, structs, f, s));
  }

  lemma ThenExprs(types: Types, structs: set<string>, f: string, a: seq<Obs>, es: seq<Expr>)
    ensures var mid := ObserveAll(types, f, a);
            ObserveAll(mid, f, SitesExprs(mid, structs, f, es))
            == ObserveAll(types, f, a + SitesExprs(types, structs, f, es))
  {
    ObserveKeepsVars(types, f, a);
    SameSitesAll(types, ObserveAll(types, f, a), structs, f, es);
    ObserveConcat(types, f, a, SitesExprs(types, structs, f, es));
  }

  lemma ThenList(types: Types, structs: set<string>, f: string, a: seq<Obs>, ss: seq<Stmt>)
    ensures var mid := ObserveAll(types, f, a);
            ObserveAll(mid, f, SitesList(mid, structs, f, ss))
            == ObserveAll(types, f, a + SitesList(types, structs, f, ss))
  {
    ObserveKeepsVars(types, f, a);
    SameSitesList(types, ObserveAll(types, f, a), structs, f, ss);
    ObserveConcat(types, f, a, SitesList(types, structs, f, ss));
  }

  // ---------- the compiler's environment ----------

  class TypeEnv {
    var vars: seq<(Key, Tag)>

    ghost predicate Valid()
      reads this
    {
      forall i, j | 0 <= i < j < |vars| :: vars[i].0 != vars[j].0
    }

    ghost function View(): (m: Types)
      reads this
    {
      ViewOf(vars)
    }

    constructor ()
      ensures Valid() && View() == map[]
    {
      vars := [];
    }

    /** aot_get_var_type. */
    method GetVarType(k: Key) returns (t: Tag)
      requires Valid()
      ensures t == TypeOf(View(), k)
    {
      for i := 0 to |vars|
        invariant forall j | 0 <= j < i :: vars[j].0 != k
      {
        if vars[i].0 == k {
          ViewAt(vars, i);
          return vars[i].1;
        }
      }
      ViewKeys(vars, k);
      return Unknown;
    }

    /** aot_set_var_type. */
    method SetVarType(k: Key, t: Tag)
      requires Valid()
      modifies this
      ensures Valid() && View() == SetType(old(View()), k, t)
    {
      for i := 0 to |vars|
        invariant vars == old(vars) && forall j | 0 <= j < i :: vars[j].0 != k
      {
        if vars[i].0 == k {
          ViewAt(vars, i);
          var now := if t == Unknown || vars[i].1 != t then Unknown else vars[i].1;
          ViewUpdate(vars, i, now);
          vars := vars[i := (k, now)];
          return;
        }
      }
      ViewKeys(vars, k);
      vars := vars + [(k, t)];
      assert vars[..|vars| - 1] == old(vars);
    }

    method Record(f: string, o: Obs)
      requires Valid()
      modifies this
      ensures Valid() && View() == Observe(old(View()), f, o)
    {
      var seen := GetVarType(Seen(f, o.i));
      if seen == Unknown {
        SetVarType(Seen(f, o.i), BoolT);
        SetVarType(Param(f, o.i), o.t);
      } else {
        var prev := GetVarType(Param(f, o.i));
        if prev != o.t { SetVarType(Param(f, o.i), Unknown); }
      }
    }

    /** The arguments of one call. */
    method ScanArgs(structs: set<string>, f: string, args: seq<Expr>)
      requires Valid()
      modifies this
      ensures Valid() && View() == ObserveAll(old(View()), f, ArgsSeen(old(View()), structs, args))
    {
      ghost var types, os := View(), ArgsSeen(View(), structs, args);
      for i := 0 to |args|
        invariant Valid() && View() == ObserveAll(types, f, os[..i])
      {
        ObserveKeepsVars(types, f, os[..i]);
        SameInfer(types, View(), structs, args[i]);
        var t := InferType(structs, args[i]);
        Record(f, Obs(i, t));
        assert os[..i + 1][..i] == os[..i];
      }
      assert os[..|args|] == os;
    }

    /** aot_infer_expr reads the types of variables from the environment. */
    method InferType(structs: set<string>, e: Expr) returns (t: Tag)
      requires Valid()
      ensures t == Infer(View(), structs, e)
      decreases e
    {
      if e.Variable? {
        t := GetVarType(Var(e.name));
      } else if e.Binary? {
        if e.op == Not || e.op == OtherOp("~") { return BoolT; }
        if e.right.Absent? { return Unknown; }
        var l := InferType(structs, e.left);
        var r := InferType(structs, e.right);
        if IsComparison(e.op) { return BoolT; }
        if l == IntT && r == IntT && IsIntOp(e.op) { return IntT; }
        if IsNumeric(l) && IsNumeric(r) && (e.op == Add || e.op == Sub || e.op == Mul || e.op == Div) { return FloatT; }
        return Unknown;
      } else {
        t := Infer(map[], structs, e);
      }
    }

    /** aot_scan_expr_calls. */
    method ScanExpr(structs: set<string>, f: string, e: Expr)
      requires Valid()
      modifies this
      ensures Valid() && View() == ObserveAll(old(View()), f, SitesExpr(old(View()), structs, f, e))
      decreases e, 1
    {
      hide ObserveAll, Infer, ViewOf;
      ghost var types := View();
      ObserveNone(types, f);
      if e.Call? {
        ghost var a: seq<Obs> := [];
        if e.callee.Variable? && e.callee.name == f {
          a := ArgsSeen(types, structs, e.args);
          ScanArgs(structs, f, e.args);
        }
        ThenExprs(types, structs, f, a, e.args);
        ScanExprs(structs, f, e.args);
        ThenExpr(types, structs, f, a + SitesExprs(types, structs, f, e.args), e.callee);
        ScanExpr(structs, f, e.callee);
      } else if e.Binary? {
        ScanExpr(structs, f, e.left);
        ThenExpr(types, structs, f, SitesExpr(types, structs, f, e.left), e.right);
        ScanExpr(structs, f, e.right);
      } else if e.Get? {
        ScanExpr(structs, f, e.receiver);
      } else if e.Set? {
        ScanExpr(structs, f, e.receiver);
        ThenExpr(types, structs, f, SitesExpr(types, structs, f, e.receiver), e.value);
        ScanExpr(structs, f, e.value);
      } else if e.Index? {
        ScanExpr(structs, f, e.base);
        ThenExpr(types, structs, f, SitesExpr(types, structs, f, e.base), e.index);
        ScanExpr(structs, f, e.index);
      }
    }

    method ScanExprs(structs: set<string>, f: string, es: seq<Expr>)
      requires Valid()
      modifies this
      ensures Valid() && View() == ObserveAll(old(View()), f, SitesExprs(old(View()), structs, f, es))
      decreases es, 0
    {
      hide SitesExpr, Infer, ViewOf, ObserveAll;
      ghost var types := View();
      ObserveNone(types, f);
      ghost var done: seq<Obs> := [];
      assert es[0..] == es;
      for i := 0 to |es|
        invariant Valid() && View() == ObserveAll(types, f, done)
        invariant done + SitesExprs(types, structs, f, es[i..]) == SitesExprs(types, structs, f, es)
      {
        assert es[i..][0] == es[i] && es[i..][1..] == es[i + 1..];
        ThenExpr(types, structs, f, done, es[i]);
        ScanExpr(structs, f, es[i]);
        done := done + SitesExpr(types, structs, f, es[i]);
      }
      assert es[|es|..] == [] && done == done + [];
    }

    method ScanStmt(structs: set<string>, f: string, s: Stmt)
      requires Valid()
      modifies this
      ensures Valid() && View() == ObserveAll(old(View()), f, SitesStmt(old(View()), structs, f, s))
      decreases s, 1
    {
      hide ObserveAll, SitesExpr, SitesList, Infer, ViewOf;
      ghost var types := View();
      ObserveNone(types, f);
      match s
      case ExprStmt(e) => ScanExpr(structs, f, e);
      case Let(_, e) => ScanExpr(structs, f, e);
      case Print(e) => ScanExpr(structs, f, e);
      case Return(e) => ScanExpr(structs, f, e);
      case If(e, thn, els) =>
        ScanExpr(structs, f, e);
        ghost var a := SitesExpr(types, structs, f, e);
        ThenList(types, structs, f, a, thn);
        ScanList(structs, f, thn);
        ThenList(types, structs, f, a + SitesList(types, structs, f, thn), els);
        ScanList(structs, f, els);
      case While(e, body) =>
        ScanExpr(structs, f, e);
        ThenList(types, structs, f, SitesExpr(types, structs, f, e), body);
        ScanList(structs, f, body);
      case For(_, _, body) => ScanList(structs, f, body);
      case Block(body) => ScanList(structs, f, body);
      case Proc(_, _, body) => ScanList(structs, f, body);
      case AsyncProc(_, _, body) => ScanList(structs, f, body);
      case _ =>
    }

    /** aot_scan_stmt_calls. */
    method ScanList(structs: set<string>, f: string, ss: seq<Stmt>)
      requires Valid()
      modifies this
      ensures Valid() && View() == ObserveAll(old(View()), f, SitesList(old(View()), structs, f, ss))
      decreases ss, 0
    {
      hide SitesStmt, Infer, ViewOf, ObserveAll;
      ghost var types := View();
      ObserveNone(types, f);
      ghost var done: seq<Obs> := [];
      assert ss[0..] == ss;
      for i := 0 to |ss|
        invariant Valid() && View() == ObserveAll(types, f, done)
        invariant done + SitesList(types, structs, f, ss[i..]) == SitesList(types, structs, f, ss)
      {
        assert ss[i..][0] == ss[i] && ss[i..][1..] == ss[i + 1..];
        ThenStmt(types, structs, f, done, ss[i]);
        ScanStmt(structs, f, ss[i]);
        done := done + SitesStmt(types, structs, f, ss[i]);
      }
      assert ss[|ss|..] == [] && done == done + [];
    }
  }

  /** The scans for all procs and constructors of a program. */
  method CollectAll(env: TypeEnv, structs: set<string>, program: seq<Stmt>)
    requires env.Valid()
    modifies env
    ensures env.Valid() && env.View() == ScanProcs(old(env.View()), structs, program, |program|)
  {
    hide ViewOf, ObserveAll, SitesList;
    for n := 0 to |program|
      invariant env.Valid() && env.View() == ScanProcs(old(env.View()), structs, program, n)
    {
      var f := ScanName(program[n]);
      if f.Some? { env.ScanList(structs, f.value, program); }
    }
  }

  function ViewOf(vars: seq<(Key, Tag)>): Types {
    if vars == [] then map[] else ViewOf(vars[..|vars| - 1])[vars[|vars| - 1].0 := vars[|vars| - 1].1]
  }

  lemma {:induction false} ViewKeys(vars: seq<(Key, Tag)>, k: Key)
    ensures k in ViewOf(vars) <==> exists j | 0 <= j < |vars| :: vars[j].0 == k
  {
    if vars != [] {
      ViewKeys(vars[..|vars| - 1], k);
    }
  }

  lemma {:induction false} ViewAt(vars: seq<(Key, Tag)>, i: nat)
    requires i < |vars| && forall j, k | 0 <= j < k < |vars| :: vars[j].0 != vars[k].0
    ensures vars[i].0 in ViewOf(vars) && ViewOf(vars)[vars[i].0] == vars[i].1
  {
    if i < |vars| - 1 {
      ViewAt(vars[..|vars| - 1], i);
    }
  }

  lemma {:induction false} ViewUpdate(vars: seq<(Key, Tag)>, i: nat, t: Tag)
    requires i < |vars| && forall j, k | 0 <= j < k < |vars| :: vars[j].0 != vars[k].0
    ensures ViewOf(vars[i := (vars[i].0, t)]) == ViewOf(vars)[vars[i].0 := t]
  {
    var vars' := vars[i := (vars[i].0, t)];
    if i < |vars| - 1 {
      ViewUpdate(vars[..|vars| - 1], i, t);
      assert vars'[..|vars| - 1] == vars[..|vars| - 1][i := (vars[i].0, t)];
    } else {
      assert vars'[..|vars| - 1] == vars[..|vars| - 1];
    }
  }

  lemma ObserveNone(types: Types, f: string)
    ensures ObserveAll(types, f, []) == types
  {
  }

  /** A call inside an array is missed: the parameter below keeps the type of the only
      scanned argument, although another call passes a string. */
  lemma UnscannedSite()
    ensures var program := [ExprStmt(Call(Variable("f"), [Int(1)])), Print(Array([Call(Variable("f"), [Str("x")])]))];
            && TypeOf(ObserveAll(map[], "f", SitesList(map[], {}, "f", program)), Param("f", 0)) == IntT
            && MissedList(map[], {}, "f", program) == {Obs(0, StringT)}
  {
    var a, b := ExprStmt(Call(Variable("f"), [Int(1)])), Print(Array([Call(Variable("f"), [Str("x")])]));
    var o := Obs(0, IntT);
    SeenAndMissed("f", a, b);
    assert o in [o];
    hide SitesList, MissedList;
    ParamTypeIff(map[], "f", [o], 0, IntT);
  }

  /** Nor are defaults: the parameter below keeps the type of the scanned argument, although
      a call without an argument passes a string. */
  lemma UnscannedDefault(body: seq<Stmt>)
    requires SitesList(map[], {}, "f", body) == []
    ensures var program := [Proc("f", Signature(["a"], [Str("x")], []), body), ExprStmt(Call(Variable("f"), [Int(1)]))];
            && TypeOf(ScanProcs(map[], {}, program, 2), Param("f", 0)) == IntT
            && Obs(0, StringT) in MissedList(map[], {}, "f", program)
  {
    var a, b := Proc("f", Signature(["a"], [Str("x")], []), body), ExprStmt(Call(Variable("f"), [Int(1)]));
    OneArgument("f", Int(1));
    DefaultMissed("f", body);
    hide SitesExpr, SitesList, MissedList, MissedStmt;
    assert SitesStmt(map[], {}, "f", b) == [Obs(0, IntT)];
    hide SitesStmt;
    OnlySecond("f", a, b, Obs(0, IntT), Obs(0, StringT));
    hide ScanProcs;
    assert Declared([a, b], "f", 1) && Declared([a, b], "f", 2);
    assert Obs(0, IntT) in [Obs(0, IntT)];
    assert Agreed(map[], "f", [Obs(0, IntT)], 0, IntT);
    hide Agreed, Agree, Mentioned, TypeOf, Declared;
    ProgramParamIff(map[], {}, "f", [a, b], 0, IntT);
  }

  lemma DefaultMissed(f: string, body: seq<Stmt>)
    ensures var a := Proc(f, Signature(["a"], [Str("x")], []), body);
            && SitesStmt(map[], {}, f, a) == SitesList(map[], {}, f, body)
            && Obs(0, StringT) in MissedStmt(map[], {}, f, a)
  {
    hide SitesList, MissedList, AllExprs;
    var sig := Signature(["a"], [Str("x")], []);
    assert Obs(0 + 0, Infer(map[], {}, sig.defaults[0])) in DefaultArgs(map[], {}, sig);
  }

  lemma OnlySecond(f: string, a: Stmt, b: Stmt, seen: Obs, missed: Obs)
    requires SitesStmt(map[], {}, f, a) == [] && SitesStmt(map[], {}, f, b) == [seen]
    requires missed in MissedStmt(map[], {}, f, a)
    ensures SitesList(map[], {}, f, [a, b]) == [seen] && missed in MissedList(map[], {}, f, [a, b])
  {
    hide SitesStmt, MissedStmt;
    assert [a, b][1..] == [b] && [b][1..] == [];
    assert SitesList(map[], {}, f, [b]) == [seen] + [];
  }

  lemma SeenAndMissed(f: string, a: Stmt, b: Stmt)
    requires a == ExprStmt(Call(Variable(f), [Int(1)])) && b == Print(Array([Call(Variable(f), [Str("x")])]))
    ensures SitesList(map[], {}, f, [a, b]) == [Obs(0, IntT)]
    ensures MissedList(map[], {}, f, [a, b]) == {Obs(0, StringT)}
  {
    OneArgument(f, Int(1));
    OneArgument(f, Str("x"));
    var call := Call(Variable(f), [Str("x")]);
    hide SitesExpr, AllExpr, MissedExpr;
    ArrayMissed(f, call);
    assert [a, b][1..] == [b] && [b][1..] == [];
    assert SitesStmt(map[], {}, f, a) == [Obs(0, IntT)] && MissedStmt(map[], {}, f, a) == {};
    assert SitesStmt(map[], {}, f, b) == [] && MissedStmt(map[], {}, f, b) == {Obs(0, StringT)};
    hide SitesStmt, MissedStmt;
    assert SitesList(map[], {}, f, []) == [] && MissedList(map[], {}, f, []) == {};
    assert SitesList(map[], {}, f, [b]) == [] + [] == [];
    assert MissedList(map[], {}, f, [b]) == {Obs(0, StringT)} + {} == {Obs(0, StringT)};
    assert SitesList(map[], {}, f, [a, b]) == [Obs(0, IntT)] + [] == [Obs(0, IntT)];
  }

  lemma ArrayMissed(f: string, e: Expr)
    ensures SitesExpr(map[], {}, f, Array([e])) == []
    ensures MissedExpr(map[], {}, f, Array([e])) == AllExpr(map[], {}, f, e)
  {
    assert [e][1..] == [] && AllExprs(map[], {}, f, []) == {};
    assert AllExprs(map[], {}, f, [e]) == AllExpr(map[], {}, f, e);
  }

  lemma OneArgument(f: string, e: Expr)
    requires e.Int? || e.Str?
    ensures var t := Infer(map[], {}, e);
            && SitesExpr(map[], {}, f, Call(Variable(f), [e])) == [Obs(0, t)]
            && AllExpr(map[], {}, f, Call(Variable(f), [e])) == {Obs(0, t)}
            && MissedExpr(map[], {}, f, Call(Variable(f), [e])) == {}
  {
    assert [e][1..] == [];
    assert AllExpr(map[], {}, f, e) == {} && MissedExpr(map[], {}, f, e) == {};
    assert AllExprs(map[], {}, f, []) == {} && MissedExprs(map[], {}, f, []) == {};
    assert SitesExprs(map[], {}, f, [e]) == [] && AllExprs(map[], {}, f, [e]) == {};
    assert MissedExprs(map[], {}, f, [e]) == {} && MissedExpr(map[], {}, f, Variable(f)) == {};
    assert ArgsSeen(map[], {}, [e]) == [Obs(0, Infer(map[], {}, e))];
  }
}
