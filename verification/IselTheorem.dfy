// Correctness of the native code generator's lowering, and the programs on which
// it fails.
module IselTheorem {
  import opened Common
  import opened Ast
  import opened Values
  import opened VirtualMachine
  import opened Isel
  import opened FlatSemantics
  import opened IselExpr
  import opened IselStmt
  import opened IselLoops
  import opened IselLabels

  /** What an observer sees of a finished run. */
  datatype Behaviour = Ends(st: Store) | Returns(v: Value, st: Store) | Fails

  function SourceBehaviour(o: Outcome): Option<Behaviour> {
    match o
    case Normal(st) => Some(Ends(st))
    case Returned(v, st) => Some(Returns(v, st))
    case Failed => Some(Fails)
    case _ => None
  }

  function MachineBehaviour(p: seq<VInst>, m: Machine): Option<Behaviour> {
    match m
    case At(pc, _, g, out) => if pc >= |p| then Some(Ends(Store(Hide(g), out))) else None
    case Halted(v, g, out) => Some(Returns(v, Store(Hide(g), out)))
    case Stuck => Some(Fails)
  }

  /** Some budget lets the source program finish with behaviour `b`. */
  ghost predicate SourceRuns(h: Host, prog: seq<Stmt>, st: Store, b: Behaviour) {
    exists fuel: nat :: SourceBehaviour(ExecAll(h, fuel, prog, st)) == Some(b)
  }

  /** The compiled program, started at its first instruction, finishes with `b`. */
  ghost predicate MachineRuns(h: Host, p: seq<VInst>, m: Machine, b: Behaviour) {
    exists n: nat :: MachineBehaviour(p, Steps(h, p, n, m)) == Some(b)
  }

  function Start(g: Globals, out: seq<Value>): Machine { At(0, map[], g, out) }

  lemma ProgramCorrect(h: Host, prog: seq<Stmt>, fuel: nat, g: Globals, out: seq<Value>) returns (n: nat)
    requires CountsExactly(h) && FitAll(prog, 0, false)
    ensures var p := Compiled(prog);
            var o := ExecAll(h, fuel, prog, Store(Hide(g), out));
            var m := Steps(h, p, n, Start(g, out));
            && (o.TimedOut? ==> n >= fuel && !Final(p, m))
            && (!o.TimedOut? ==> SourceBehaviour(o).Some? && MachineBehaviour(p, m) == SourceBehaviour(o))
  {
    hide Steps, ExecAll, FitAll, CountsExactly, StmtsCode;
    var p := Compiled(prog);
    var c := Ctx(0, 0, []);
    CompiledLabels(prog);
    StmtsConfined(h, fuel, prog, Store(Hide(g), out), 0, false);
    assert p[0..|p|] == p;
    n := StmtsCorrect(h, p, prog, c, fuel, Start(g, out), false);
  }

  // ---------- the fragment, in terms of the program ----------

  /** How deep the loops of a statement are nested. */
  function LoopDepthOf(s: Stmt): nat
    decreases s
  {
    match s
    case If(_, thn, els) => Max(LoopDepth(thn), LoopDepth(els))
    case Block(body) => LoopDepth(body)
    case While(_, body) => 1 + LoopDepth(body)
    case For(_, _, body) => 1 + LoopDepth(body)
    case _ => 0
  }

  function LoopDepth(ss: seq<Stmt>): nat
    decreases ss
  {
    if ss == [] then 0 else Max(LoopDepthOf(ss[0]), LoopDepth(ss[1..]))
  }

  /** The statements that are compiled completely; `loop` says whether there is a loop
      around them, `cont` whether the innermost one is a `while`. */
  predicate IsCompiled(s: Stmt, loop: bool, cont: bool)
    decreases s
  {
    match s
    case Print(e) => Supported(e)
    case ExprStmt(e) => Supported(e)
    case Return(e) => Supported(e)
    case Let(x, e) => x != "__for_idx__" && Supported(e)
    case Block(body) => AllCompiled(body, loop, cont)
    case If(e, thn, els) => Supported(e) && AllCompiled(thn, loop, cont) && AllCompiled(els, loop, cont)
    case While(e, body) => Supported(e) && AllCompiled(body, true, true)
    case For(x, e, body) => x != "__for_idx__" && Supported(e) && AllCompiled(body, true, false)
    case Break => loop
    case Continue => loop && cont
    case _ => false
  }

  predicate AllCompiled(ss: seq<Stmt>, loop: bool, cont: bool)
    decreases ss
  {
    ss == [] || (IsCompiled(ss[0], loop, cont) && AllCompiled(ss[1..], loop, cont))
  }

  /** Up to 64 nested loops there is a place for each on the selector's stack. */
  lemma {:induction false} FitsIff(s: Stmt, d: nat, cont: bool)
    ensures Fits(s, d, cont) <==>
            IsCompiled(s, d > 0, cont) && (LoopDepthOf(s) == 0 || d + LoopDepthOf(s) <= 64)
    decreases s
  {
    hide Supported;
    if s.If? {
      FitAllIff(s.thn, d, cont);
      FitAllIff(s.els, d, cont);
    } else if s.Block? {
      FitAllIff(s.body, d, cont);
    } else if s.While? {
      FitAllIff(s.body, d + 1, true);
    } else if s.For? {
      FitAllIff(s.body, d + 1, false);
    }
  }

  lemma {:induction false} FitAllIff(ss: seq<Stmt>, d: nat, cont: bool)
    ensures FitAll(ss, d, cont) <==>
            AllCompiled(ss, d > 0, cont) && (LoopDepth(ss) == 0 || d + LoopDepth(ss) <= 64)
    decreases ss
  {
    hide Fits, IsCompiled, LoopDepthOf;
    if ss != [] {
      FitsIff(ss[0], d, cont);
      FitAllIff(ss[1..], d, cont);
    }
  }

  /** For every program of the fragment whose loops are nested at most 64 deep: the
      compiled program finishes exactly when the source program does, and with the same
      globals, output and returned value. */
  lemma CompilerCorrect(h: Host, prog: seq<Stmt>, g: Globals, out: seq<Value>, b: Behaviour)
    requires CountsExactly(h) && AllCompiled(prog, false, false) && LoopDepth(prog) <= 64
    ensures SourceRuns(h, prog, Store(Hide(g), out), b) <==> MachineRuns(h, Compiled(prog), Start(g, out), b)
  {
    FitAllIff(prog, 0, false);
    hide *;
    FittingCorrect(h, prog, g, out, b);
  }

  lemma FittingCorrect(h: Host, prog: seq<Stmt>, g: Globals, out: seq<Value>, b: Behaviour)
    requires CountsExactly(h) && FitAll(prog, 0, false)
    ensures SourceRuns(h, prog, Store(Hide(g), out), b) <==> MachineRuns(h, Compiled(prog), Start(g, out), b)
  {
    hide Steps, ExecAll, FitAll, CountsExactly, Compiled;
    var p, m0, st := Compiled(prog), Start(g, out), Store(Hide(g), out);
    if SourceRuns(h, prog, st, b) {
      var fuel: nat :| SourceBehaviour(ExecAll(h, fuel, prog, st)) == Some(b);
      var n := ProgramCorrect(h, prog, fuel, g, out);
      assert MachineBehaviour(p, Steps(h, p, n, m0)) == Some(b);
    }
    if MachineRuns(h, p, m0, b) {
      var n: nat :| MachineBehaviour(p, Steps(h, p, n, m0)) == Some(b);
      var k := ProgramCorrect(h, prog, n + 1, g, out);
      FinalUnique(h, p, n, k, m0);
      assert SourceBehaviour(ExecAll(h, n + 1, prog, st)) == Some(b);
    }
  }

  /** A machine that is final after `n` steps is in the same state at every later
      step and at every other final step. */
  lemma FinalUnique(h: Host, p: seq<VInst>, n: nat, k: nat, m: Machine)
    requires Final(p, Steps(h, p, n, m))
    ensures k >= n || Final(p, Steps(h, p, k, m)) ==> Steps(h, p, k, m) == Steps(h, p, n, m)
  {
    hide Steps;
    if k >= n {
      StepsAdd(h, p, n, k - n, m);
      FinalStays(h, p, k - n, Steps(h, p, n, m));
    } else if Final(p, Steps(h, p, k, m)) {
      StepsAdd(h, p, k, n - k, m);
      FinalStays(h, p, n - k, Steps(h, p, k, m));
    }
  }

  // ---------- `continue` in a `for` ----------

  /** for x in [nil]: continue */
  const SKIPPING: Stmt := For("x", Array([Nil]), [Continue])

  lemma SkippingEnds(h: Host, fuel: nat, st: Store)
    ensures ExecAll(h, fuel, [SKIPPING], st) == Normal(st.(globals := st.globals["x" := NilV]))
  {
    var v := ArrV([NilV]);
    var st1 := st.(globals := st.globals["x" := NilV]);
    assert EvalAll(h, st.globals, [Nil][1..]) == Some([]);
    assert EvalAll(h, st.globals, [Nil]) == Some([NilV]) by {
      assert Eval(h, st.globals, [Nil][0]) == Some(NilV);
      assert [NilV] + [] == [NilV];
    }
    assert Eval(h, st.globals, Array([Nil])) == Some(v);
    assert ExecAll(h, fuel, [Continue], st1) == Continued(st1);
    assert ExecEach(h, fuel, "x", v, 1, [Continue], st1) == Normal(st1);
    assert ExecEach(h, fuel, "x", v, 0, [Continue], st) == Normal(st1);
    assert Exec(h, fuel, SKIPPING, st) == Normal(st1);
  }

  /** One turn of the compiled loop: the jump goes to the test without advancing
      the index, so the machine is back where it was. */
  lemma SkippingTurn(h: Host, p: seq<VInst>, m: Machine, v: Value)
    requires CountsExactly(h) && p == Compiled([SKIPPING]) && |ExprCode(Array([Nil]), 0).code| == 3
    requires m.At? && m.pc == 8 && ForReady(h, m, 2, 0, v, 0) && LenValue(v).value > 0
    ensures var m' := Steps(h, p, 8, m); m'.At? && m'.pc == 8 && ForReady(h, m', 2, 0, v, 0)
  {
    hide Steps, StmtCode, CountsExactly, LenValue, Counter;
    SkippingLayout();
    CompiledLabels([SKIPPING]);
    TestSteps(h, p, m, 6, 19, 2, 0, v, 0, 0);
    var m1 := Steps(h, p, 4, m);
    FetchSteps(h, p, m1, 2, 0, v, 0, "x");
    StepsAdd(h, p, 4, 2, m);
    var m2 := Steps(h, p, 6, m);
    JumpLand(h, p, m2, 0, 7);
    StepsAdd(h, p, 6, 2, m);
  }

  lemma SkippingLayout()
    ensures var p := Compiled([SKIPPING]);
            && ExprCode(Array([Nil]), 0) == Sel([ArrayNew(0, 1), LoadNil(1), ArraySet(0, 1, 0)], 0, 2)
            && |p| == 20 && Embedded(p, 3, ForHead(2, 0)) && Embedded(p, 6, ForTest(2, 0))
            && Embedded(p, 12, ForFetch(2, 0, "x")) && Embedded(p, 14, [Jump(0)]) && Embedded(p, 7, [Label(0)])
            && Embedded(p, 19, [Label(2)]) && Embedded(p, 0, ExprCode(Array([Nil]), 0).code)
            && Embedded(p, 6, [Jump(0)])
  {
    assert ElemsCode([Nil][1..], 0, 1, 2) == Sel([], 0, 2);
    assert ElemsCode([Nil], 0, 0, 1) == Sel([LoadNil(1), ArraySet(0, 1, 0)], 0, 2);
    var c := Ctx(0, 0, []);
    var c2 := Ctx(7, 3, [Loop(0, 2)]);
    assert StmtsCode([Continue], c2).code == [Jump(0)] by {
      assert StmtsCode([Continue][1..], c2).code == [];
      assert StmtCode(Continue, c2).code == [Jump(0)];
    }
    var p := Compiled([SKIPPING]);
    var o := StmtCode(SKIPPING, c);
    assert StmtsCode([SKIPPING][1..], c.(reg := o.reg, lab := o.lab)).code == [];
    assert p == StmtCode(SKIPPING, c).code;
    assert c.loops + [Loop(0, 2)] == [Loop(0, 2)];
    ForCode(SKIPPING, c);
  }

  lemma SkippingEnters(h: Host, g: Globals, out: seq<Value>)
    requires CountsExactly(h)
    ensures var m := Steps(h, Compiled([SKIPPING]), 8, Start(g, out));
            m.At? && m.pc == 8 && ForReady(h, m, 2, 0, ArrV([NilV]), 0)
  {
    hide Steps, Compiled, CountsExactly;
    var p, m := Compiled([SKIPPING]), Start(g, out);
    SkippingLayout();
    CompiledLabels([SKIPPING]);
    assert Eval(h, Hide(g), Array([Nil])) == Some(ArrV([NilV])) by { SkippingValue(h, Hide(g)); }
    ExprCorrect(h, p, Array([Nil]), 0, m);
    HeadSteps(h, p, Steps(h, p, 3, m), 2, 0);
    StepsAdd(h, p, 3, 3, m);
    JumpLand(h, p, Steps(h, p, 6, m), 0, 7);
    StepsAdd(h, p, 6, 2, m);
  }

  lemma SkippingValue(h: Host, g: Globals)
    ensures Eval(h, g, Array([Nil])) == Some(ArrV([NilV]))
  {
    assert EvalAll(h, g, [Nil][1..]) == Some([]);
    assert Eval(h, g, [Nil][0]) == Some(NilV);
    assert [NilV] + [] == [NilV];
    assert EvalAll(h, g, [Nil]) == Some([NilV]);
  }

  lemma {:induction false} SkippingAgain(h: Host, k: nat, g: Globals, out: seq<Value>)
    requires CountsExactly(h)
    ensures var m := Steps(h, Compiled([SKIPPING]), 8 + 8 * k, Start(g, out));
            m.At? && m.pc == 8 && ForReady(h, m, 2, 0, ArrV([NilV]), 0)
  {
    hide Steps, Compiled, CountsExactly;
    if k == 0 {
      SkippingEnters(h, g, out);
    } else {
      SkippingAgain(h, k - 1, g, out);
      SkippingLayout();
      var p, n := Compiled([SKIPPING]), 8 + 8 * (k - 1);
      SkippingTurn(h, p, Steps(h, p, n, Start(g, out)), ArrV([NilV]));
      StepsAdd(h, p, n, 8, Start(g, out));
    }
  }

  /** A `for` that continues its own loop is miscompiled: the source program ends,
      the compiled one never does. */
  lemma ForContinueDiverges(h: Host, g: Globals, out: seq<Value>)
    requires CountsExactly(h)
    ensures exists b :: SourceRuns(h, [SKIPPING], Store(Hide(g), out), b)
    ensures forall b :: !MachineRuns(h, Compiled([SKIPPING]), Start(g, out), b)
  {
    hide Steps, Compiled, CountsExactly;
    var p, m, st := Compiled([SKIPPING]), Start(g, out), Store(Hide(g), out);
    SkippingEnds(h, 0, st);
    assert SourceRuns(h, [SKIPPING], st, Ends(st.(globals := st.globals["x" := NilV])));
    SkippingLayout();
    forall n: nat
      ensures MachineBehaviour(p, Steps(h, p, n, m)).None?
    {
      if Final(p, Steps(h, p, n, m)) {
        SkippingAgain(h, n, g, out);
        FinalUnique(h, p, n, 8 + 8 * n, m);
      }
    }
  }

  // ---------- loops nested too deeply ----------

  /** `k` loops around `ss`, each left after its first turn. */
  function Nest(k: nat, ss: seq<Stmt>): seq<Stmt> {
    if k == 0 then ss else [While(Bool(true), Nest(k - 1, ss) + [Break])]
  }

  lemma Assoc(a: seq<VInst>, b: seq<VInst>, c: seq<VInst>)
    ensures (a + b) + c == a + (b + c)
  {
  }

  lemma {:induction false} ListCode(ss: seq<Stmt>, tt: seq<Stmt>, c: Ctx)
    ensures var a := StmtsCode(ss, c); var b := StmtsCode(tt, c.(reg := a.reg, lab := a.lab));
            StmtsCode(ss + tt, c) == Out(a.code + b.code, b.reg, b.lab)
    decreases ss
  {
    hide StmtCode;
    if ss == [] {
      assert ss + tt == tt;
    } else {
      var a := StmtCode(ss[0], c);
      var c2 := c.(reg := a.reg, lab := a.lab);
      ListCode(ss[1..], tt, c2);
      assert (ss + tt)[1..] == ss[1..] + tt;
      var b := StmtsCode(ss[1..], c2);
      Assoc(a.code, b.code, StmtsCode(tt, c.(reg := b.reg, lab := b.lab)).code);
    }
  }

  /** Inside `k` more loops, what is lowered to the same code stays so. */
  lemma {:induction false} NestCode(k: nat, ss: seq<Stmt>, tt: seq<Stmt>, c: Ctx)
    requires forall c': Ctx {:trigger StmtsCode(ss, c')} ::
             |c'.loops| == |c.loops| + k ==> StmtsCode(ss, c') == StmtsCode(tt, c')
    requires |c.loops| + k <= 64
    ensures StmtsCode(Nest(k, ss), c) == StmtsCode(Nest(k, tt), c)
    decreases k
  {
    hide ExprCode, StmtsCode;
    if k > 0 {
      var e := ExprCode(Bool(true), c.reg);
      var c2 := Ctx(e.next, c.lab + 3, c.loops + [Loop(c.lab, c.lab + 2)]);
      NestCode(k - 1, ss, tt, c2);
      ListCode(Nest(k - 1, ss), [Break], c2);
      ListCode(Nest(k - 1, tt), [Break], c2);
      OneCode(While(Bool(true), Nest(k - 1, ss) + [Break]), c);
      OneCode(While(Bool(true), Nest(k - 1, tt) + [Break]), c);
    }
  }

  lemma OneCode(s: Stmt, c: Ctx)
    ensures StmtsCode([s], c) == StmtCode(s, c)
  {
    hide StmtCode;
    var a := StmtCode(s, c);
    assert [s][1..] == [];
    assert StmtsCode([], c.(reg := a.reg, lab := a.lab)) == Out([], a.reg, a.lab);
    assert a.code + [] == a.code;
  }

  lemma {:induction false} NestFits(k: nat, ss: seq<Stmt>, depth: nat, cont: bool)
    requires depth + k <= 64 && FitAll(ss, depth + k, if k == 0 then cont else true)
    ensures FitAll(Nest(k, ss), depth, cont)
    decreases k
  {
    if k > 0 {
      NestFits(k - 1, ss, depth + 1, true);
      assert FitAll([Break], depth + 1, true) by { assert Fits(Break, depth + 1, true) && [Break][1..] == []; }
      FitsAppend(Nest(k - 1, ss), [Break], depth + 1, true);
      var w := While(Bool(true), Nest(k - 1, ss) + [Break]);
      assert Fits(w, depth, cont);
      assert Nest(k, ss) == [w] && [w][1..] == [] && [w][0] == w;
    }
  }

  lemma {:induction false} FitsAppend(ss: seq<Stmt>, tt: seq<Stmt>, depth: nat, cont: bool)
    requires FitAll(ss, depth, cont) && FitAll(tt, depth, cont)
    ensures FitAll(ss + tt, depth, cont)
  {
    hide Fits;
    if ss == [] {
      assert ss + tt == tt;
    } else {
      FitsAppend(ss[1..], tt, depth, cont);
      assert (ss + tt)[1..] == ss[1..] + tt;
    }
  }

  lemma {:induction false} ListRuns(h: Host, fuel: nat, ss: seq<Stmt>, tt: seq<Stmt>, st: Store)
    ensures var o := ExecAll(h, fuel, ss, st);
            ExecAll(h, fuel, ss + tt, st) == if o.Normal? then ExecAll(h, fuel, tt, o.st) else o
    decreases ss
  {
    hide Exec;
    if ss == [] {
      assert ss + tt == tt;
    } else {
      var o := Exec(h, fuel, ss[0], st);
      if o.Normal? {
        ListRuns(h, fuel, ss[1..], tt, o.st);
      }
      assert (ss + tt)[1..] == ss[1..] + tt;
    }
  }

  lemma OneRuns(h: Host, fuel: nat, s: Stmt, st: Store)
    ensures ExecAll(h, fuel, [s], st) == Exec(h, fuel, s, st)
  {
    hide Exec;
    var o := Exec(h, fuel, s, st);
    assert [s][1..] == [];
    if o.Normal? {
      assert ExecAll(h, fuel, [], o.st) == o;
    }
  }

  lemma {:induction false} NestRuns(h: Host, k: nat, fuel: nat, ss: seq<Stmt>, st: Store, st': Store)
    requires ExecAll(h, fuel, ss, st) == Normal(st')
    ensures ExecAll(h, fuel + k, Nest(k, ss), st) == Normal(st')
    decreases k
  {
    if k > 0 {
      var body := Nest(k - 1, ss) + [Break];
      NestRuns(h, k - 1, fuel, ss, st, st');
      ListRuns(h, fuel + k - 1, Nest(k - 1, ss), [Break], st);
      OneRuns(h, fuel + k - 1, Break, st');
      OneRuns(h, fuel + k, While(Bool(true), body), st);
    }
  }

  /** while true: print true; break */
  const ONCE: Stmt := While(Bool(true), [Print(Bool(true)), Break])

  lemma OnceRuns(h: Host, st: Store)
    ensures ExecAll(h, 1, [ONCE], st) == Normal(st.(out := st.out + [BoolV(true)]))
  {
    var st1 := st.(out := st.out + [BoolV(true)]);
    ListRuns(h, 0, [Print(Bool(true))], [Break], st);
    OneRuns(h, 0, Print(Bool(true)), st);
    OneRuns(h, 0, Break, st1);
    assert [Print(Bool(true))] + [Break] == [Print(Bool(true)), Break];
    OneRuns(h, 1, ONCE, st);
  }

  /** The selector emits nothing for a loop at depth 64 and goes on: a program with
      65 nested loops compiles, but its innermost loop never runs. */
  lemma DeepLoopDropped(h: Host, g: Globals, out: seq<Value>)
    requires CountsExactly(h)
    ensures var prog := Nest(64, [ONCE]);
            var st := Store(Hide(g), out);
            && SourceRuns(h, prog, st, Ends(st.(out := out + [BoolV(true)])))
            && MachineRuns(h, Compiled(prog), Start(g, out), Ends(st))
            && !MachineRuns(h, Compiled(prog), Start(g, out), Ends(st.(out := out + [BoolV(true)])))
  {
    hide CountsExactly, Nest;
    var prog, empty := Nest(64, [ONCE]), Nest(64, []);
    var st := Store(Hide(g), out);
    OnceRuns(h, st);
    NestRuns(h, 64, 1, [ONCE], st, st.(out := out + [BoolV(true)]));
    assert SourceBehaviour(ExecAll(h, 1 + 64, prog, st)) == Some(Ends(st.(out := out + [BoolV(true)])));
    forall c: Ctx | |c.loops| == 64
      ensures StmtsCode([ONCE], c) == StmtsCode([], c)
    {
      OneCode(ONCE, c);
    }
    NestCode(64, [ONCE], [], Ctx(0, 0, []));
    NestFits(64, [], 0, false);
    NestRuns(h, 64, 1, [], st, st);
    assert SourceBehaviour(ExecAll(h, 1 + 64, empty, st)) == Some(Ends(st));
    FittingCorrect(h, empty, g, out, Ends(st));
    if MachineRuns(h, Compiled(empty), Start(g, out), Ends(st.(out := out + [BoolV(true)]))) {
      MachineDeterministic(h, Compiled(empty), Start(g, out), Ends(st), Ends(st.(out := out + [BoolV(true)])));
    }
  }

  lemma MachineDeterministic(h: Host, p: seq<VInst>, m: Machine, b: Behaviour, b': Behaviour)
    requires MachineRuns(h, p, m, b) && MachineRuns(h, p, m, b')
    ensures b == b'
  {
    hide Steps;
    var n: nat :| MachineBehaviour(p, Steps(h, p, n, m)) == Some(b);
    var k: nat :| MachineBehaviour(p, Steps(h, p, k, m)) == Some(b');
    FinalUnique(h, p, n, k, m);
  }
}
