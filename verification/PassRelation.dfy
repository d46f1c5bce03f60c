// Two runs side by side, of a program and of what a pass made of it: values differ
// in the bodies of procs only, and names the pass found dead are not compared.
module PassRelation {
  import opened Common
  import opened Ast
  import opened Values
  import opened Semantics
  import opened ConstFold
  import opened Dce
  import Inline

  datatype Pass =
    | Fold(h: Host)
    | Drop(used: set<string>)
    | Inlining(cs: seq<Inline.Candidate>)

  predicate Live(p: Pass, x: string) { p.Drop? ==> x in p.used }

  function NewExpr(p: Pass, e: Expr): Expr {
    match p
    case Fold(h) => FoldExpr(h, e)
    case Drop(_) => e
    case Inlining(cs) => Inline.InlineExpr(cs, e)
  }

  function NewStmt(p: Pass, s: Stmt): Stmt {
    match p
    case Fold(h) => FoldStmt(h, s)
    case Drop(used) => DceStmt(used, s)
    case Inlining(cs) => Inline.InlineStmt(cs, s)
  }

  function NewList(p: Pass, ss: seq<Stmt>): seq<Stmt> {
    match p
    case Fold(h) => FoldStmts(h, ss)
    case Drop(used) => DceList(used, ss)
    case Inlining(cs) => Inline.InlineStmts(cs, ss)
  }

  function NewHandlers(p: Pass, hs: seq<Handler>): (r: seq<Handler>)
    ensures |r| == |hs|
  {
    match p
    case Fold(h) => FoldHandlers(h, hs)
    case Drop(used) => DceHandlers(used, hs)
    case Inlining(cs) => Inline.InlineHandlers(cs, hs)
  }

  function NewCases(p: Pass, xs: seq<Case>): (r: seq<Case>)
    ensures |r| == |xs|
  {
    match p
    case Fold(h) => FoldCases(h, xs)
    case Drop(used) => DceCases(used, xs)
    case Inlining(cs) => Inline.InlineCases(cs, xs)
  }

  predicate SafeHs(p: Pass, hs: seq<Handler>) {
    match p
    case Fold(_) => true
    case Drop(used) => SafeHandlers(used, hs)
    case Inlining(cs) => Inline.SafeHandlers(cs, hs)
  }

  predicate SafeCs(p: Pass, xs: seq<Case>) {
    match p
    case Fold(_) => true
    case Drop(used) => SafeCases(used, xs)
    case Inlining(cs) => Inline.SafeCases(cs, xs)
  }

  predicate SafeMs(p: Pass, ms: seq<Stmt>) {
    match p
    case Fold(_) => true
    case Drop(used) => SafeMethods(used, ms)
    case Inlining(cs) => Inline.SafeMethods(cs, ms)
  }

  /** Folding does not enter every kind of node; below those, an expression stays as
      it is. */
  function MaybeNew(p: Pass, d: bool, e: Expr): Expr { if d then NewExpr(p, e) else e }

  function MaybeNewAll(p: Pass, d: bool, es: seq<Expr>): (r: seq<Expr>)
    ensures |r| == |es|
  {
    if !d then es
    else
      match p
      case Fold(h) => FoldExprs(h, es)
      case Drop(_) => es
      case Inlining(cs) => Inline.InlineAll(cs, es)
  }

  predicate SafeE(p: Pass, e: Expr) {
    match p
    case Fold(_) => true
    case Drop(used) => NamesExpr(e) <= used
    case Inlining(cs) => Inline.SafeExpr(cs, e)
  }

  predicate SafeEs(p: Pass, es: seq<Expr>) {
    match p
    case Fold(_) => true
    case Drop(used) => NamesExprs(es) <= used
    case Inlining(cs) => Inline.SafeExprs(cs, es)
  }

  predicate SafeS(p: Pass, s: Stmt) {
    match p
    case Fold(_) => true
    case Drop(used) => SafeStmt(used, s)
    case Inlining(cs) => Inline.SafeStmt(cs, s)
  }

  predicate SafeL(p: Pass, ss: seq<Stmt>) {
    match p
    case Fold(_) => true
    case Drop(used) => SafeList(used, ss)
    case Inlining(cs) => Inline.SafeList(cs, ss)
  }

  predicate SafeBound(p: Pass, names: seq<Option<string>>) { p.Inlining? ==> Inline.NoneBound(p.cs, names) }

  predicate SafeNames(p: Pass, names: seq<string>) { p.Inlining? ==> Inline.NoneNamed(p.cs, names) }

  /** Under inlining, a candidate's name is bound to the candidate only. */
  predicate KeepsName(p: Pass, x: string, v: Value) {
    p.Inlining? && Inline.FindCandidate(p.cs, x).Some? ==> v.FunV? && Inline.IsItself(p.cs, x, v.sig.params, v.body)
  }

  // ---------- values ----------

  function NewValue(p: Pass, v: Value): Value
    decreases v
  {
    match v
    case ArrV(es) => ArrV(NewValues(p, es))
    case FunV(name, sig, body) => FunV(name, sig, NewList(p, body))
    case _ => v
  }

  function NewValues(p: Pass, vs: seq<Value>): (r: seq<Value>)
    ensures |r| == |vs|
    ensures forall i | 0 <= i < |vs| :: r[i] == NewValue(p, vs[i])
    decreases vs
  {
    if vs == [] then [] else [NewValue(p, vs[0])] + NewValues(p, vs[1..])
  }

  /** All procs in the value have safe bodies. */
  predicate SafeV(p: Pass, v: Value)
    decreases v
  {
    match v
    case ArrV(es) => forall i | 0 <= i < |es| :: SafeV(p, es[i])
    case FunV(_, sig, body) => SafeNames(p, sig.params) && SafeEs(p, sig.defaults) && SafeL(p, body)
    case _ => true
  }

  predicate SafeVs(p: Pass, vs: seq<Value>) { forall i | 0 <= i < |vs| :: SafeV(p, vs[i]) }

  function NewTrace(p: Pass, t: seq<Event>): (r: seq<Event>)
    ensures |r| == |t|
    ensures forall i | 0 <= i < |t| :: r[i] == Event(t[i].what, NewValues(p, t[i].args))
  {
    if t == [] then [] else NewTrace(p, t[..|t| - 1]) + [Event(t[|t| - 1].what, NewValues(p, t[|t| - 1].args))]
  }

  predicate SafeTrace(p: Pass, t: seq<Event>) { forall i | 0 <= i < |t| :: SafeVs(p, t[i].args) }

  // ---------- the outside world ----------

  function NewOption(p: Pass, o: Option<Value>): Option<Value> {
    if o.None? then None else Some(NewValue(p, o.value))
  }

  predicate SafeOption(p: Pass, o: Option<Value>) { o.Some? ==> SafeV(p, o.value) }

  /** A value with other bodies in its procs. */
  function MapValue(tr: seq<Stmt> -> seq<Stmt>, v: Value): Value
    decreases v
  {
    match v
    case ArrV(es) => ArrV(MapValues(tr, es))
    case FunV(name, sig, body) => FunV(name, sig, tr(body))
    case _ => v
  }

  function MapValues(tr: seq<Stmt> -> seq<Stmt>, vs: seq<Value>): (r: seq<Value>)
    ensures |r| == |vs|
    decreases vs
  {
    if vs == [] then [] else [MapValue(tr, vs[0])] + MapValues(tr, vs[1..])
  }

  function MapTrace(tr: seq<Stmt> -> seq<Stmt>, t: seq<Event>): seq<Event> {
    if t == [] then []
    else MapTrace(tr, t[..|t| - 1]) + [Event(t[|t| - 1].what, MapValues(tr, t[|t| - 1].args))]
  }

  function MapOption(tr: seq<Stmt> -> seq<Stmt>, o: Option<Value>): Option<Value> {
    if o.None? then None else Some(MapValue(tr, o.value))
  }

  /** Is `f` a proc in the value? */
  predicate IsIn(f: Value, v: Value)
    decreases v
  {
    f.FunV? && (f == v || (v.ArrV? && exists i | 0 <= i < |v.elems| :: IsIn(f, v.elems[i])))
  }

  predicate IsInSome(f: Value, vs: seq<Value>) { exists i | 0 <= i < |vs| :: IsIn(f, vs[i]) }

  predicate IsInTrace(f: Value, t: seq<Event>) { exists i | 0 <= i < |t| :: IsInSome(f, t[i].args) }

  /** The outside does not look into the bodies of procs: with other bodies it does the same.
      And it makes no procs: those in what it gives were in what it was given. */
  ghost predicate Natural(w: World) {
    && (forall tr: seq<Stmt> -> seq<Stmt>, op, a, b ::
          w.host.binary(op, MapValue(tr, a), MapValue(tr, b)) == MapOption(tr, w.host.binary(op, a, b)))
    && (forall tr: seq<Stmt> -> seq<Stmt>, t, what, vs ::
          w.look(MapTrace(tr, t), what, MapValues(tr, vs)) == MapOption(tr, w.look(t, what, vs)))
    && (forall tr: seq<Stmt> -> seq<Stmt>, t, what, vs ::
          w.act(MapTrace(tr, t), what, MapValues(tr, vs)) == MapOption(tr, w.act(t, what, vs)))
    && (forall op, a, b, f | w.host.binary(op, a, b).Some? && IsIn(f, w.host.binary(op, a, b).value) ::
          IsIn(f, a) || IsIn(f, b))
    && (forall t, what, vs, f | w.look(t, what, vs).Some? && IsIn(f, w.look(t, what, vs).value) ::
          IsInSome(f, vs) || IsInTrace(f, t))
    && (forall t, what, vs, f | w.act(t, what, vs).Some? && IsIn(f, w.act(t, what, vs).value) ::
          IsInSome(f, vs) || IsInTrace(f, t))
  }

  /** The same, as far as one pass is concerned. */
  ghost predicate Blind(p: Pass, w: World) {
    && (forall op, a, b | SafeV(p, a) && SafeV(p, b) ::
          && w.host.binary(op, NewValue(p, a), NewValue(p, b)) == NewOption(p, w.host.binary(op, a, b))
          && SafeOption(p, w.host.binary(op, a, b)))
    && (forall t, what, vs | SafeTrace(p, t) && SafeVs(p, vs) ::
          && w.look(NewTrace(p, t), what, NewValues(p, vs)) == NewOption(p, w.look(t, what, vs))
          && SafeOption(p, w.look(t, what, vs)))
    && (forall t, what, vs | SafeTrace(p, t) && SafeVs(p, vs) ::
          && w.act(NewTrace(p, t), what, NewValues(p, vs)) == NewOption(p, w.act(t, what, vs))
          && SafeOption(p, w.act(t, what, vs)))
  }

  /** Moreover, folding computes as the run time does, and all candidates are closed. */
  ghost predicate Ready(p: Pass, w: World) {
    && (p.Fold? ==> p.h == w.host)
    && (p.Inlining? ==> Inline.AllGood(p.cs))
    && Blind(p, w)
  }

  function Bodies(p: Pass): seq<Stmt> -> seq<Stmt> { body => NewList(p, body) }

  lemma {:induction false} NewIsMap(p: Pass, v: Value)
    ensures NewValue(p, v) == MapValue(Bodies(p), v)
    decreases v
  {
    if v.ArrV? { NewIsMapAll(p, v.elems); }
  }

  lemma {:induction false} NewIsMapAll(p: Pass, vs: seq<Value>)
    ensures NewValues(p, vs) == MapValues(Bodies(p), vs)
    decreases vs
  {
    if vs != [] {
      NewIsMap(p, vs[0]);
      NewIsMapAll(p, vs[1..]);
    }
  }

  lemma {:induction false} NewIsMapTrace(p: Pass, t: seq<Event>)
    ensures NewTrace(p, t) == MapTrace(Bodies(p), t)
  {
    if t != [] {
      NewIsMapTrace(p, t[..|t| - 1]);
      NewIsMapAll(p, t[|t| - 1].args);
    }
  }

  ghost predicate ProcsSafe(p: Pass, v: Value) { forall f | IsIn(f, v) :: SafeV(p, f) }

  /** A value is safe if and only if the procs in it are. */
  lemma SafeByProcs(p: Pass, v: Value)
    ensures SafeV(p, v) <==> ProcsSafe(p, v)
  {
    hide SafeV, IsIn;
    if SafeV(p, v) {
      forall f | IsIn(f, v)
        ensures SafeV(p, f)
      {
        SafeInside(p, v, f);
      }
    }
    if ProcsSafe(p, v) { SafeOutside(p, v); }
  }

  lemma {:induction false} SafeInside(p: Pass, v: Value, f: Value)
    requires SafeV(p, v) && IsIn(f, v)
    ensures SafeV(p, f)
    decreases v
  {
    if v.ArrV? {
      var i :| 0 <= i < |v.elems| && IsIn(f, v.elems[i]);
      SafeInside(p, v.elems[i], f);
    }
  }

  lemma {:induction false} SafeOutside(p: Pass, v: Value)
    requires ProcsSafe(p, v)
    ensures SafeV(p, v)
    decreases v
  {
    if v.ArrV? {
      forall i | 0 <= i < |v.elems|
        ensures SafeV(p, v.elems[i])
      {
        forall f | IsIn(f, v.elems[i])
          ensures SafeV(p, f)
        {
          ProcIsFun(f, v.elems[i]);
          assert IsIn(f, v);
        }
        SafeOutside(p, v.elems[i]);
      }
    } else if v.FunV? {
      assert IsIn(v, v);
    }
  }

  lemma ProcIsFun(f: Value, v: Value)
    requires IsIn(f, v)
    ensures f.FunV?
  {
  }

  lemma SafeProc(p: Pass, f: Value, t: seq<Event>, vs: seq<Value>)
    requires SafeTrace(p, t) && SafeVs(p, vs) && (IsInSome(f, vs) || IsInTrace(f, t))
    ensures SafeV(p, f)
  {
    hide SafeV, IsIn;
    if IsInSome(f, vs) {
      var i :| 0 <= i < |vs| && IsIn(f, vs[i]);
      SafeByProcs(p, vs[i]);
    } else {
      var k :| 0 <= k < |t| && IsInSome(f, t[k].args);
      var i :| 0 <= i < |t[k].args| && IsIn(f, t[k].args[i]);
      assert SafeV(p, t[k].args[i]);
      SafeByProcs(p, t[k].args[i]);
    }
  }

  lemma NaturalBinary(p: Pass, w: World, op: Op, a: Value, b: Value)
    requires Natural(w) && SafeV(p, a) && SafeV(p, b)
    ensures w.host.binary(op, NewValue(p, a), NewValue(p, b)) == NewOption(p, w.host.binary(op, a, b))
    ensures SafeOption(p, w.host.binary(op, a, b))
  {
    hide SafeV, IsIn, NewValue, MapValue;
    NewIsMap(p, a);
    NewIsMap(p, b);
    SafeByProcs(p, a);
    SafeByProcs(p, b);
    var r := w.host.binary(op, a, b);
    if r.Some? {
      NewIsMap(p, r.value);
      SafeByProcs(p, r.value);
    }
  }

  lemma NaturalLook(p: Pass, w: World, t: seq<Event>, what: string, vs: seq<Value>)
    requires Natural(w) && SafeTrace(p, t) && SafeVs(p, vs)
    ensures w.look(NewTrace(p, t), what, NewValues(p, vs)) == NewOption(p, w.look(t, what, vs))
    ensures SafeOption(p, w.look(t, what, vs))
  {
    hide SafeV, IsIn, NewValue, MapValue, NewValues, MapValues, NewTrace, MapTrace, IsInSome, IsInTrace, SafeTrace,
         SafeVs;
    NewIsMapTrace(p, t);
    NewIsMapAll(p, vs);
    var r := w.look(t, what, vs);
    if r.Some? {
      NewIsMap(p, r.value);
      forall f | IsIn(f, r.value)
        ensures SafeV(p, f)
      {
        SafeProc(p, f, t, vs);
      }
      SafeByProcs(p, r.value);
    }
  }

  lemma NaturalAct(p: Pass, w: World, t: seq<Event>, what: string, vs: seq<Value>)
    requires Natural(w) && SafeTrace(p, t) && SafeVs(p, vs)
    ensures w.act(NewTrace(p, t), what, NewValues(p, vs)) == NewOption(p, w.act(t, what, vs))
    ensures SafeOption(p, w.act(t, what, vs))
  {
    hide SafeV, IsIn, NewValue, MapValue, NewValues, MapValues, NewTrace, MapTrace, IsInSome, IsInTrace, SafeTrace,
         SafeVs;
    NewIsMapTrace(p, t);
    NewIsMapAll(p, vs);
    var r := w.act(t, what, vs);
    if r.Some? {
      NewIsMap(p, r.value);
      forall f | IsIn(f, r.value)
        ensures SafeV(p, f)
      {
        SafeProc(p, f, t, vs);
      }
      SafeByProcs(p, r.value);
    }
  }

  lemma NaturalBlind(p: Pass, w: World)
    requires Natural(w)
    ensures Blind(p, w)
  {
    hide Natural, SafeV, NewValue, NewValues, NewTrace, SafeTrace, SafeVs, NewOption, SafeOption;
    forall op, a, b | SafeV(p, a) && SafeV(p, b)
      ensures w.host.binary(op, NewValue(p, a), NewValue(p, b)) == NewOption(p, w.host.binary(op, a, b))
      ensures SafeOption(p, w.host.binary(op, a, b))
    {
      NaturalBinary(p, w, op, a, b);
    }
    forall t, what, vs | SafeTrace(p, t) && SafeVs(p, vs)
      ensures w.look(NewTrace(p, t), what, NewValues(p, vs)) == NewOption(p, w.look(t, what, vs))
      ensures SafeOption(p, w.look(t, what, vs))
    {
      NaturalLook(p, w, t, what, vs);
    }
    forall t, what, vs | SafeTrace(p, t) && SafeVs(p, vs)
      ensures w.act(NewTrace(p, t), what, NewValues(p, vs)) == NewOption(p, w.act(t, what, vs))
      ensures SafeOption(p, w.act(t, what, vs))
    {
      NaturalAct(p, w, t, what, vs);
    }
  }

  // ---------- states ----------

  /** Equal on the live names. */
  ghost predicate SameScope(p: Pass, s: Scope, s': Scope) {
    forall x | Live(p, x) ::
      && (x in s <==> x in s')
      && (x in s ==>
            && s'[x] == Binding(NewValue(p, s[x].value), s[x].fixed)
            && SafeV(p, s[x].value) && KeepsName(p, x, s[x].value))
  }

  ghost predicate SameScopes(p: Pass, ss: seq<Scope>, ss': seq<Scope>) {
    |ss| == |ss'| && forall i | 0 <= i < |ss| :: SameScope(p, ss[i], ss'[i])
  }

  ghost predicate SameState(p: Pass, st: State, st': State) {
    SameScopes(p, st.scopes, st'.scopes) && st'.trace == NewTrace(p, st.trace) && SafeTrace(p, st.trace)
  }

  /** Dead code may have been all that failed. */
  ghost predicate SameResult(p: Pass, r: Result<Value>, r': Result<Value>) {
    match r
    case Got(v, st) => r'.Got? && r'.value == NewValue(p, v) && SafeV(p, v) && SameState(p, st, r'.st)
    case Threw(v, st) => r'.Threw? && r'.exc == NewValue(p, v) && SafeV(p, v) && SameState(p, st, r'.st)
    case Error => p.Fold? ==> r'.Error?
    case OutOfFuel => p.Fold? ==> r'.OutOfFuel?
  }

  ghost predicate SameResults(p: Pass, r: Result<seq<Value>>, r': Result<seq<Value>>) {
    match r
    case Got(vs, st) => r'.Got? && r'.value == NewValues(p, vs) && SafeVs(p, vs) && SameState(p, st, r'.st)
    case Threw(v, st) => r'.Threw? && r'.exc == NewValue(p, v) && SafeV(p, v) && SameState(p, st, r'.st)
    case Error => p.Fold? ==> r'.Error?
    case OutOfFuel => p.Fold? ==> r'.OutOfFuel?
  }

  ghost predicate SameOutcome(p: Pass, o: Outcome, o': Outcome) {
    match o
    case Normal(st) => o'.Normal? && SameState(p, st, o'.st)
    case Broke(st) => o'.Broke? && SameState(p, st, o'.st)
    case Continued(st) => o'.Continued? && SameState(p, st, o'.st)
    case Returned(v, st) => o'.Returned? && o'.v == NewValue(p, v) && SafeV(p, v) && SameState(p, st, o'.st)
    case Raised(v, st) => o'.Raised? && o'.exc == NewValue(p, v) && SafeV(p, v) && SameState(p, st, o'.st)
    case Failed => p.Fold? ==> o'.Failed?
    case TimedOut => p.Fold? ==> o'.TimedOut?
  }

  // ---------- operations on related states ----------

  lemma {:induction false} LookupSame(p: Pass, ss: seq<Scope>, ss': seq<Scope>, x: string)
    requires SameScopes(p, ss, ss') && Live(p, x)
    ensures Lookup(ss', x) == NewOption(p, Lookup(ss, x)) && SafeOption(p, Lookup(ss, x))
    ensures Lookup(ss, x).Some? ==> KeepsName(p, x, Lookup(ss, x).value)
  {
    if ss != [] {
      assert SameScope(p, ss[|ss| - 1], ss'[|ss| - 1]);
      LookupSame(p, ss[..|ss| - 1], ss'[..|ss| - 1], x);
    }
  }

  lemma DefineSame(p: Pass, ss: seq<Scope>, ss': seq<Scope>, x: string, v: Value, fixed: bool)
    requires SameScopes(p, ss, ss') && SafeV(p, v) && KeepsName(p, x, v)
    ensures SameScopes(p, Define(ss, x, v, fixed), Define(ss', x, NewValue(p, v), fixed))
  {
    hide NewValue, SafeV, KeepsName;
    if ss != [] {
      assert SameScope(p, ss[|ss| - 1], ss'[|ss| - 1]);
    }
  }

  /** A definition of a dead name need not be matched. */
  lemma DefineDead(p: Pass, ss: seq<Scope>, ss': seq<Scope>, x: string, v: Value, fixed: bool)
    requires SameScopes(p, ss, ss') && !Live(p, x)
    ensures SameScopes(p, Define(ss, x, v, fixed), ss')
  {
    if ss != [] {
      assert SameScope(p, ss[|ss| - 1], ss'[|ss| - 1]);
    }
  }

  lemma {:induction false} AssignSame(p: Pass, ss: seq<Scope>, ss': seq<Scope>, x: string, v: Value)
    requires SameScopes(p, ss, ss') && Live(p, x) && SafeV(p, v) && KeepsName(p, x, v)
    ensures var a, a' := Assign(ss, x, v), Assign(ss', x, NewValue(p, v));
            (a.Some? <==> a'.Some?) && (a.Some? ==> SameScopes(p, a.value, a'.value))
  {
    hide NewValue, SafeV, KeepsName;
    if ss != [] {
      assert SameScope(p, ss[|ss| - 1], ss'[|ss| - 1]);
      AssignSame(p, ss[..|ss| - 1], ss'[..|ss| - 1], x, v);
    }
  }

  lemma {:induction false} BindSame(p: Pass, params: seq<string>, args: seq<Value>)
    requires |params| == |args| && SafeVs(p, args) && SafeNames(p, params)
    ensures SameScope(p, Bind(params, args), Bind(params, NewValues(p, args)))
  {
    hide SameScope, NewValue, SafeV, NewValues;
    if params == [] {
      NothingSame(p);
    } else {
      var n := |params| - 1;
      NewValuesPrefix(p, args, n);
      BindSame(p, params[..n], args[..n]);
      ScopeAdd(p, Bind(params[..n], args[..n]), Bind(params[..n], NewValues(p, args)[..n]), params[n], args[n], true);
    }
  }

  lemma NothingSame(p: Pass)
    ensures SameScope(p, map[], map[])
  {
  }

  lemma ScopeAdd(p: Pass, s: Scope, s': Scope, x: string, v: Value, fixed: bool)
    requires SameScope(p, s, s') && SafeV(p, v) && KeepsName(p, x, v)
    ensures SameScope(p, s[x := Binding(v, fixed)], s'[x := Binding(NewValue(p, v), fixed)])
  {
    hide NewValue, SafeV, KeepsName;
  }

  lemma NewValuesPrefix(p: Pass, vs: seq<Value>, n: nat)
    requires n <= |vs|
    ensures NewValues(p, vs[..n]) == NewValues(p, vs)[..n]
  {
  }

  lemma NewValuesAre(p: Pass, vs: seq<Value>, vs': seq<Value>)
    requires |vs| == |vs'| && forall i | 0 <= i < |vs| :: vs'[i] == NewValue(p, vs[i])
    ensures vs' == NewValues(p, vs)
  {
  }

  lemma NewTraceSnoc(p: Pass, t: seq<Event>, e: Event)
    ensures NewTrace(p, t + [e]) == NewTrace(p, t) + [Event(e.what, NewValues(p, e.args))]
  {
    assert (t + [e])[..|t|] == t;
  }

  lemma TraceSame(p: Pass, st: State, st': State, e: Event)
    requires SameState(p, st, st') && SafeVs(p, e.args)
    ensures SameState(p, st.(trace := st.trace + [e]),
                      st'.(trace := st'.trace + [Event(e.what, NewValues(p, e.args))]))
  {
    hide SameScopes, NewTrace, NewValues, SafeVs;
    NewTraceSnoc(p, st.trace, e);
  }

  lemma LookSame(p: Pass, w: World, what: string, vs: seq<Value>, st: State, st': State)
    requires Ready(p, w) && SameState(p, st, st') && SafeVs(p, vs)
    ensures SameResult(p, Look(w, what, vs, st), Look(w, what, NewValues(p, vs), st'))
  {
  }

  lemma ActSame(p: Pass, w: World, what: string, vs: seq<Value>, st: State, st': State)
    requires Ready(p, w) && SameState(p, st, st') && SafeVs(p, vs)
    ensures SameResult(p, Act(w, what, vs, st), Act(w, what, NewValues(p, vs), st'))
  {
    TraceSame(p, st, st', Event(what, vs));
  }

  // ---------- operators on related values ----------

  lemma TruthySame(p: Pass, h: Host, v: Value)
    ensures Truthy(h, NewValue(p, v)) == Truthy(h, v)
  {
  }

  lemma OperatedSame(p: Pass, w: World, op: Op, a: Value, b: Value)
    requires Ready(p, w) && SafeV(p, a) && SafeV(p, b)
    ensures Operated(w, op, NewValue(p, a), NewValue(p, b)) == NewOption(p, Operated(w, op, a, b))
    ensures SafeOption(p, Operated(w, op, a, b))
  {
    hide Ready, NewValue, SafeV, BinaryValue;
    TruthySame(p, w.host, a);
    ReadyBinary(p, w, op, a, b);
    PlainValues(p);
    if (a.NumV? && b.NumV?) || (a.StrV? && b.StrV?) {
      PlainOperands(w.host, op, a, b);
    } else {
      SameKind(p, a);
      SameKind(p, b);
      OtherOperands(w.host, op, a, b);
      OtherOperands(w.host, op, NewValue(p, a), NewValue(p, b));
    }
  }

  predicate IsData(v: Value) { v.NumV? || v.StrV? || v.BoolV? }

  lemma PlainValues(p: Pass)
    ensures forall v | IsData(v) :: NewValue(p, v) == v && SafeV(p, v)
  {
  }

  lemma SameKind(p: Pass, v: Value)
    ensures (NewValue(p, v).NumV? <==> v.NumV?) && (NewValue(p, v).StrV? <==> v.StrV?)
  {
  }

  lemma PlainOperands(h: Host, op: Op, a: Value, b: Value)
    requires (a.NumV? && b.NumV?) || (a.StrV? && b.StrV?)
    ensures var r := BinaryValue(h, op, a, b); r == h.binary(op, a, b) || (r.Some? && IsData(r.value))
  {
  }

  lemma OtherOperands(h: Host, op: Op, a: Value, b: Value)
    requires !(a.NumV? && b.NumV?) && !(a.StrV? && b.StrV?)
    ensures BinaryValue(h, op, a, b) == h.binary(op, a, b)
  {
  }

  lemma ReadyBinary(p: Pass, w: World, op: Op, a: Value, b: Value)
    requires Ready(p, w) && SafeV(p, a) && SafeV(p, b)
    ensures w.host.binary(op, NewValue(p, a), NewValue(p, b)) == NewOption(p, w.host.binary(op, a, b))
    ensures SafeOption(p, w.host.binary(op, a, b))
  {
  }

  lemma IndexSame(p: Pass, h: Host, a: Value, b: Value)
    requires SafeV(p, a) && SafeV(p, b)
    ensures IndexValue(h, NewValue(p, a), NewValue(p, b)) == NewOption(p, IndexValue(h, a, b))
    ensures SafeOption(p, IndexValue(h, a, b))
  {
  }

  lemma ElementSame(p: Pass, v: Value, i: nat)
    requires SafeV(p, v)
    ensures LenValue(NewValue(p, v)) == LenValue(v)
    ensures LenValue(v).Some? && i < LenValue(v).value ==>
              ElementAt(NewValue(p, v), i) == NewValue(p, ElementAt(v, i)) && SafeV(p, ElementAt(v, i))
  {
  }
}
