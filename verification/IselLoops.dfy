// Simulation of statement lists, conditionals and loops.
module IselLoops {
  import opened Common
  import opened Ast
  import opened Values
  import opened VirtualMachine
  import opened Isel
  import opened FlatSemantics
  import opened IselExpr
  import opened IselStmt

  // ---------- what a fitting statement cannot do ----------

  /** A fitting statement outside any loop neither breaks nor continues, and one
      directly inside a `for` never continues. */
  ghost predicate Confined(o: Outcome, depth: nat, cont: bool) {
    && (o.Continued? ==> depth > 0 && cont)
    && (o.Broke? ==> depth > 0)
  }

  lemma {:induction false} StmtConfined(h: Host, fuel: nat, s: Stmt, st: Store, depth: nat, cont: bool)
    requires Fits(s, depth, cont)
    ensures Confined(Exec(h, fuel, s, st), depth, cont)
    decreases fuel, s, 0
  {
    hide Eval;
    match s
    case Block(body) => StmtsConfined(h, fuel, body, st, depth, cont);
    case If(e, thn, els) =>
      StmtsConfined(h, fuel, thn, st, depth, cont);
      StmtsConfined(h, fuel, els, st, depth, cont);
    case While(e, body) =>
      if fuel > 0 {
        var o := ExecAll(h, fuel - 1, body, st);
        if o.Normal? || o.Continued? {
          StmtConfined(h, fuel - 1, s, o.st, depth, cont);
        }
      }
    case For(x, e, body) =>
      var v := Eval(h, st.globals, e);
      if v.Some? && LenValue(v.value).Some? {
        EachConfined(h, fuel, x, v.value, 0, body, st);
      }
    case _ =>
  }

  lemma {:induction false} StmtsConfined(h: Host, fuel: nat, ss: seq<Stmt>, st: Store, depth: nat, cont: bool)
    requires FitAll(ss, depth, cont)
    ensures Confined(ExecAll(h, fuel, ss, st), depth, cont)
    decreases fuel, ss, 0
  {
    hide Fits;
    if ss != [] {
      StmtConfined(h, fuel, ss[0], st, depth, cont);
      var o := Exec(h, fuel, ss[0], st);
      if o.Normal? {
        StmtsConfined(h, fuel, ss[1..], o.st, depth, cont);
      }
    }
  }

  lemma {:induction false} EachConfined(h: Host, fuel: nat, x: string, v: Value, i: nat, body: seq<Stmt>, st: Store)
    requires LenValue(v).Some? && i <= LenValue(v).value
    ensures var o := ExecEach(h, fuel, x, v, i, body, st); !o.Continued? && !o.Broke?
    decreases fuel, body, 1 + LenValue(v).value - i
  {
    hide ExecAll;
    if i < LenValue(v).value {
      var o := ExecAll(h, fuel, body, st.(globals := st.globals[x := ElementAt(v, i)]));
      if o.Normal? || o.Continued? {
        EachConfined(h, fuel, x, v, i + 1, body, o.st);
      }
    }
  }

  // ---------- lists ----------

  lemma {:induction false} StmtsCorrect(h: Host, p: seq<VInst>, ss: seq<Stmt>, c: Ctx, fuel: nat, m: Machine,
                                        cont: bool)
    returns (n: nat)
    requires UniqueLabels(p) && CountsExactly(h) && Targets(p, c.loops)
    requires FitAll(ss, |c.loops|, cont) && m.At? && Embedded(p, m.pc, StmtsCode(ss, c).code)
    ensures Simulates(h, p, m, n, m.pc + |StmtsCode(ss, c).code|, c.reg, c.loops,
                      ExecAll(h, fuel, ss, StoreOf(m)), fuel)
    decreases fuel, ss, 0
  {
    hide Fits, StmtCode, Exec, Steps, CountsExactly;
    if ss == [] {
      n := 0;
      assert Steps(h, p, n, m) == m by { StepsAdd(h, p, 0, 0, m); StepsZero(h, p, m); }
    } else {
      var a := StmtCode(ss[0], c);
      var c2 := c.(reg := a.reg, lab := a.lab);
      var b := StmtsCode(ss[1..], c2);
      EmbeddedSplit(p, m.pc, a.code, b.code);
      n := StmtCorrect(h, p, ss[0], c, fuel, m, cont);
      var o := Exec(h, fuel, ss[0], StoreOf(m));
      if o.Normal? {
        var m1 := Steps(h, p, n, m);
        var n2 := StmtsCorrect(h, p, ss[1..], c2, fuel, m1, cont);
        Chain(h, p, m, n, c.reg, n2, fuel, m.pc + |StmtsCode(ss, c).code|, c2.reg, c.loops,
              ExecAll(h, fuel, ss[1..], StoreOf(m1)), fuel);
        n := n + n2;
      }
    }
  }

  lemma StepsZero(h: Host, p: seq<VInst>, m: Machine)
    ensures Steps(h, p, 0, m) == m
  {
  }

  lemma {:induction false} StmtCorrect(h: Host, p: seq<VInst>, s: Stmt, c: Ctx, fuel: nat, m: Machine, cont: bool)
    returns (n: nat)
    requires UniqueLabels(p) && CountsExactly(h) && Targets(p, c.loops)
    requires Fits(s, |c.loops|, cont) && m.At? && Embedded(p, m.pc, StmtCode(s, c).code)
    ensures Simulates(h, p, m, n, m.pc + |StmtCode(s, c).code|, c.reg, c.loops, Exec(h, fuel, s, StoreOf(m)), fuel)
    decreases fuel, s, 3
  {
    hide Steps, CountsExactly, Eval, ExprCode, Supported;
    match s
    case Block(body) => n := StmtsCorrect(h, p, body, c, fuel, m, cont);
    case If(_, _, _) => n := IfCorrect(h, p, s, c, fuel, m, cont);
    case While(_, _) => n := WhileCorrect(h, p, s, c, fuel, m, cont);
    case For(_, _, _) => n := ForCorrect(h, p, s, c, fuel, m, cont);
    case ExprStmt(_) => n := ExprStmtCorrect(h, p, s, c, fuel, m);
    case Break => n := EscapeCorrect(h, p, s, c, fuel, m);
    case Continue => n := EscapeCorrect(h, p, s, c, fuel, m);
    case _ => n := SimpleCorrect(h, p, s, c, fuel, m, cont);
  }

  // ---------- if ----------

  /** The addresses inside the code of an `if`. */
  lemma IfLayout(p: seq<VInst>, a: nat, s: Stmt, c: Ctx)
    requires s.If? && Embedded(p, a, StmtCode(s, c).code)
    ensures var e := ExprCode(s.cond, c.reg);
            var t := StmtsCode(s.thn, Ctx(e.next, c.lab + 3, c.loops));
            var f := StmtsCode(s.els, Ctx(t.reg, t.lab, c.loops));
            var b := a + |e.code|; var j := b + 2 + |t.code|;
            var z := if s.els == [] then j + 1 else j + 3 + |f.code|;
            && Embedded(p, a, e.code + [Branch(e.reg, c.lab, if s.els == [] then c.lab + 2 else c.lab + 1)])
            && Embedded(p, b + 1, [Label(c.lab)]) && Embedded(p, b + 2, t.code)
            && Embedded(p, j, [Jump(c.lab + 2)])
            && (s.els != [] ==> Embedded(p, j + 1, [Label(c.lab + 1)]) && Embedded(p, j + 2, f.code)
                                && Embedded(p, j + 2 + |f.code|, [Jump(c.lab + 2)]))
            && Embedded(p, z, [Label(c.lab + 2)]) && z + 1 == a + |StmtCode(s, c).code|
  {
    hide ExprCode, StmtsCode, StmtCode, Embedded;
    IfCode(s, c);
    var e := ExprCode(s.cond, c.reg);
    var t := StmtsCode(s.thn, Ctx(e.next, c.lab + 3, c.loops));
    var f := StmtsCode(s.els, Ctx(t.reg, t.lab, c.loops));
    var br := Branch(e.reg, c.lab, if s.els == [] then c.lab + 2 else c.lab + 1);
    var tail := if s.els == [] then [] else [Label(c.lab + 1)] + f.code + [Jump(c.lab + 2)];
    var b := a + |e.code| + 1;
    var j := b + 1 + |t.code|;
    var code := e.code + [br] + ([Label(c.lab)] + t.code + [Jump(c.lab + 2)] + tail + [Label(c.lab + 2)]);
    assert StmtCode(s, c).code == code;
    IfPieces(p, a, e.code + [br], [Label(c.lab)], t.code, [Jump(c.lab + 2)], tail, [Label(c.lab + 2)]);
    assert |code| == |e.code| + 4 + |t.code| + |tail|;
    if s.els != [] {
      EmbeddedSplit(p, j + 1, [Label(c.lab + 1)] + f.code, [Jump(c.lab + 2)]);
      EmbeddedSplit(p, j + 1, [Label(c.lab + 1)], f.code);
    }
  }

  lemma IfPieces(p: seq<VInst>, a: nat, e: seq<VInst>, l: seq<VInst>, t: seq<VInst>, jump: seq<VInst>,
                 tail: seq<VInst>, last: seq<VInst>)
    requires Embedded(p, a, e + (l + t + jump + tail + last))
    ensures var b := a + |e|; var j := b + |l| + |t|; var k := j + |jump|;
            && Embedded(p, a, e) && Embedded(p, b, l) && Embedded(p, b + |l|, t) && Embedded(p, j, jump)
            && Embedded(p, k, tail) && Embedded(p, k + |tail|, last)
  {
    hide Embedded;
    var b := a + |e|;
    EmbeddedSplit(p, a, e, l + t + jump + tail + last);
    EmbeddedSplit(p, b, l + t + jump + tail, last);
    EmbeddedSplit(p, b, l + t + jump, tail);
    EmbeddedSplit(p, b, l + t, jump);
    EmbeddedSplit(p, b, l, t);
  }

  /** One unfolding of the meaning and of the conditions on an `if`. */
  lemma IfMeaning(h: Host, fuel: nat, s: Stmt, st: Store, depth: nat, cont: bool)
    requires s.If? && Fits(s, depth, cont)
    ensures Supported(s.cond) && FitAll(s.thn, depth, cont) && FitAll(s.els, depth, cont)
    ensures var v := Eval(h, st.globals, s.cond);
            Exec(h, fuel, s, st) ==
            if v.None? then Failed
            else ExecAll(h, fuel, if Truthy(h, v.value) then s.thn else s.els, st)
  {
    hide Eval, ExecAll, Supported;
  }

  lemma {:induction false} IfCorrect(h: Host, p: seq<VInst>, s: Stmt, c: Ctx, fuel: nat, m: Machine, cont: bool)
    returns (n: nat)
    requires s.If? && UniqueLabels(p) && CountsExactly(h) && Targets(p, c.loops)
    requires Fits(s, |c.loops|, cont) && m.At? && Embedded(p, m.pc, StmtCode(s, c).code)
    ensures Simulates(h, p, m, n, m.pc + |StmtCode(s, c).code|, c.reg, c.loops, Exec(h, fuel, s, StoreOf(m)), fuel)
    decreases fuel, s, 0
  {
    hide ExprCode, StmtsCode, Eval, Supported, Steps, Perform, StmtCode, CountsExactly, ExecAll, Exec, Fits, FitAll,
         UniqueLabels, Targets, Find, Truthy;
    IfLayout(p, m.pc, s, c);
    IfMeaning(h, fuel, s, StoreOf(m), |c.loops|, cont);
    var e := ExprCode(s.cond, c.reg);
    var t := StmtsCode(s.thn, Ctx(e.next, c.lab + 3, c.loops));
    var f := StmtsCode(s.els, Ctx(t.reg, t.lab, c.loops));
    var b := m.pc + |e.code|;
    var j := b + 2 + |t.code|;
    var z := if s.els == [] then j + 1 else j + 3 + |f.code|;
    var br := Branch(e.reg, c.lab, if s.els == [] then c.lab + 2 else c.lab + 1);
    var v := Eval(h, StoreOf(m).globals, s.cond);
    n := |e.code| + 1;
    if v.None? {
      CondLand(h, p, s.cond, c.reg, m, br, b);
    } else {
      var n1 := |e.code| + 2;
      if Truthy(h, v.value) {
        CondLand(h, p, s.cond, c.reg, m, br, b + 1);
        n := Branching(h, p, s.thn, Ctx(e.next, c.lab + 3, c.loops), fuel, m, n1, c.reg, j, z, c.lab + 2, cont);
      } else if s.els == [] {
        CondLand(h, p, s.cond, c.reg, m, br, z);
        n := n1;
        EmptyList(h, fuel, StoreOf(m));
      } else {
        CondLand(h, p, s.cond, c.reg, m, br, j + 1);
        n := Branching(h, p, s.els, Ctx(t.reg, t.lab, c.loops), fuel, m, n1, c.reg, j + 2 + |f.code|, z,
                       c.lab + 2, cont);
      }
    }
  }

  /** A condition and the branch on it. */
  lemma CondLand(h: Host, p: seq<VInst>, cond: Expr, r: nat, m: Machine, br: VInst, i: nat)
    requires Supported(cond) && m.At? && UniqueLabels(p) && br.Branch? && br.src == ExprCode(cond, r).reg
    requires Embedded(p, m.pc, ExprCode(cond, r).code + [br])
    requires var v := Eval(h, StoreOf(m).globals, cond);
             v.Some? ==> Embedded(p, i, [Label(if Truthy(h, v.value) then br.onTrue else br.onFalse)])
    ensures var v, n := Eval(h, StoreOf(m).globals, cond), |ExprCode(cond, r).code|;
            if v.None? then Steps(h, p, n + 1, m) == Stuck
            else
              var m' := Steps(h, p, n + 2, m);
              m'.At? && m'.pc == i + 1 && StoreOf(m') == StoreOf(m) && Agree(m.regs, m'.regs, r)
  {
    hide ExprCode, Eval, Supported, Steps, Perform, Find, Truthy, Embedded;
    var e := ExprCode(cond, r);
    ExprThen(h, p, cond, r, m, br);
    if Eval(h, StoreOf(m).globals, cond).Some? {
      EmbeddedSplit(p, m.pc, e.code, [br]);
      StepsAdd(h, p, |e.code|, 2, m);
      BranchLand(h, p, Steps(h, p, |e.code|, m), e.reg, br.onTrue, br.onFalse, i);
    }
  }

  lemma EmptyList(h: Host, fuel: nat, st: Store)
    ensures ExecAll(h, fuel, [], st) == Normal(st)
  {
  }

  /** One branch, entered after `n` steps, then the jump to the merge label. */
  lemma {:induction false} Branching(h: Host, p: seq<VInst>, ss: seq<Stmt>, c: Ctx, fuel: nat, m: Machine, n: nat,
                                     keep: nat, j: nat, z: nat, merge: nat, cont: bool) returns (n': nat)
    requires UniqueLabels(p) && CountsExactly(h) && Targets(p, c.loops) && FitAll(ss, |c.loops|, cont) && m.At?
    requires var m1 := Steps(h, p, n, m);
             && m1.At? && StoreOf(m1) == StoreOf(m) && Agree(m.regs, m1.regs, keep) && keep <= c.reg
             && Embedded(p, m1.pc, StmtsCode(ss, c).code) && j == m1.pc + |StmtsCode(ss, c).code|
    requires Embedded(p, j, [Jump(merge)]) && Embedded(p, z, [Label(merge)])
    ensures Simulates(h, p, m, n', z + 1, keep, c.loops, ExecAll(h, fuel, ss, StoreOf(m)), fuel)
    decreases fuel, ss, 1
  {
    hide StmtsCode, FitAll, Steps, Perform, CountsExactly, ExecAll;
    var m1 := Steps(h, p, n, m);
    var k := StmtsCorrect(h, p, ss, c, fuel, m1, cont);
    var o := ExecAll(h, fuel, ss, StoreOf(m));
    Chain(h, p, m, n, keep, k, fuel, j, c.reg, c.loops, o, fuel);
    n' := n + k;
    if o.Normal? {
      var m2 := Steps(h, p, n', m);
      JumpLand(h, p, m2, merge, z);
      StepsAdd(h, p, n', 2, m);
      n' := n' + 2;
    }
  }

  // ---------- while ----------

  lemma WhileLayout(p: seq<VInst>, a: nat, s: Stmt, c: Ctx)
    requires s.While? && |c.loops| < MAX_LOOPS && Embedded(p, a, StmtCode(s, c).code)
    ensures var e := ExprCode(s.cond, c.reg);
            var b := StmtsCode(s.body, Ctx(e.next, c.lab + 3, c.loops + [Loop(c.lab, c.lab + 2)]));
            var k := a + 2 + |e.code|; var j := k + 2 + |b.code|;
            && Embedded(p, a, [Jump(c.lab)]) && Embedded(p, a + 1, [Label(c.lab)])
            && Embedded(p, a + 2, e.code + [Branch(e.reg, c.lab + 1, c.lab + 2)])
            && Embedded(p, k + 1, [Label(c.lab + 1)]) && Embedded(p, k + 2, b.code)
            && Embedded(p, j, [Jump(c.lab)]) && Embedded(p, j + 1, [Label(c.lab + 2)])
            && j + 2 == a + |StmtCode(s, c).code|
  {
    hide ExprCode, StmtsCode, StmtCode, Embedded;
    WhileCode(s, c);
    var e := ExprCode(s.cond, c.reg);
    var b := StmtsCode(s.body, Ctx(e.next, c.lab + 3, c.loops + [Loop(c.lab, c.lab + 2)]));
    var test := e.code + [Branch(e.reg, c.lab + 1, c.lab + 2)];
    var c1 := [Jump(c.lab)] + [Label(c.lab)];
    var c3 := c1 + test + [Label(c.lab + 1)] + b.code;
    EmbeddedSplit(p, a, c3 + [Jump(c.lab)], [Label(c.lab + 2)]);
    EmbeddedSplit(p, a, c3, [Jump(c.lab)]);
    EmbeddedSplit(p, a, c1 + test + [Label(c.lab + 1)], b.code);
    EmbeddedSplit(p, a, c1 + test, [Label(c.lab + 1)]);
    EmbeddedSplit(p, a, c1, test);
    EmbeddedSplit(p, a, [Jump(c.lab)], [Label(c.lab)]);
  }

  /** One unfolding of the meaning and of the conditions on a `while`. */
  lemma WhileMeaning(h: Host, fuel: nat, s: Stmt, st: Store, depth: nat, cont: bool)
    requires s.While? && Fits(s, depth, cont)
    ensures depth < 64 && Supported(s.cond) && FitAll(s.body, depth + 1, true)
    ensures fuel == 0 ==> Exec(h, fuel, s, st) == TimedOut
    ensures fuel > 0 ==>
              var v := Eval(h, st.globals, s.cond);
              Exec(h, fuel, s, st) ==
              if v.None? then Failed
              else if !Truthy(h, v.value) then Normal(st)
              else
                var o := ExecAll(h, fuel - 1, s.body, st);
                if o.Normal? || o.Continued? then Exec(h, fuel - 1, s, o.st)
                else if o.Broke? then Normal(o.st)
                else o
  {
    hide Eval, ExecAll, Supported;
  }

  lemma {:induction false} WhileCorrect(h: Host, p: seq<VInst>, s: Stmt, c: Ctx, fuel: nat, m: Machine, cont: bool)
    returns (n: nat)
    requires s.While? && UniqueLabels(p) && CountsExactly(h) && Targets(p, c.loops)
    requires Fits(s, |c.loops|, cont) && m.At? && Embedded(p, m.pc, StmtCode(s, c).code)
    ensures Simulates(h, p, m, n, m.pc + |StmtCode(s, c).code|, c.reg, c.loops, Exec(h, fuel, s, StoreOf(m)), fuel)
    decreases fuel, s, 2
  {
    hide ExprCode, StmtsCode, Eval, Supported, Steps, Perform, StmtCode, CountsExactly, Exec, Fits, UniqueLabels;
    WhileMeaning(h, fuel, s, StoreOf(m), |c.loops|, cont);
    WhileLayout(p, m.pc, s, c);
    JumpLand(h, p, m, c.lab, m.pc + 1);
    var m1 := Steps(h, p, 2, m);
    n := WhileTurns(h, p, s, c, fuel, m.pc, m1, cont);
    Chain(h, p, m, 2, c.reg, n, fuel, m.pc + |StmtCode(s, c).code|, c.reg, c.loops,
          Exec(h, fuel, s, StoreOf(m)), fuel);
    n := 2 + n;
  }

  /** From just after the condition label, whatever number of turns remains. */
  lemma {:induction false} WhileTurns(h: Host, p: seq<VInst>, s: Stmt, c: Ctx, fuel: nat, a: nat, m: Machine,
                                      cont: bool)
    returns (n: nat)
    requires s.While? && UniqueLabels(p) && CountsExactly(h) && Targets(p, c.loops)
    requires Fits(s, |c.loops|, cont) && Embedded(p, a, StmtCode(s, c).code) && m.At? && m.pc == a + 2
    ensures Simulates(h, p, m, n, a + |StmtCode(s, c).code|, c.reg, c.loops, Exec(h, fuel, s, StoreOf(m)), fuel)
    decreases fuel, s, 1
  {
    hide ExprCode, StmtsCode, Eval, Supported, Steps, Perform, StmtCode, CountsExactly, ExecAll, Exec, Fits, FitAll,
         UniqueLabels;
    WhileMeaning(h, fuel, s, StoreOf(m), |c.loops|, cont);
    WhileLayout(p, a, s, c);
    var e := ExprCode(s.cond, c.reg);
    var br := Branch(e.reg, c.lab + 1, c.lab + 2);
    var v := Eval(h, StoreOf(m).globals, s.cond);
    if fuel == 0 {
      n := 0;
      StepsZero(h, p, m);
    } else {
      ExprThen(h, p, s.cond, c.reg, m, br);
      n := |e.code| + 1;
      if v.Some? {
        var m1 := Steps(h, p, |e.code|, m);
        EmbeddedSplit(p, m.pc, e.code, [br]);
        StepsAdd(h, p, |e.code|, 2, m);
        n := |e.code| + 2;
        if Truthy(h, v.value) {
          BranchLand(h, p, m1, e.reg, c.lab + 1, c.lab + 2, a + 3 + |e.code|);
          n := WhileTurn(h, p, s, c, fuel, a, m, n, cont);
        } else {
          BranchLand(h, p, m1, e.reg, c.lab + 1, c.lab + 2, a + |StmtCode(s, c).code| - 1);
        }
      }
    }
  }

  /** One turn whose condition held: `n` steps lead to the first body address. */
  lemma {:induction false} WhileTurn(h: Host, p: seq<VInst>, s: Stmt, c: Ctx, fuel: nat, a: nat, m: Machine, n: nat,
                                     cont: bool)
    returns (n': nat)
    requires s.While? && UniqueLabels(p) && CountsExactly(h) && Targets(p, c.loops)
    requires Fits(s, |c.loops|, cont) && Embedded(p, a, StmtCode(s, c).code) && m.At? && m.pc == a + 2 && fuel > 0
    requires var m1 := Steps(h, p, n, m);
             n > 0 && m1.At? && StoreOf(m1) == StoreOf(m) && Agree(m.regs, m1.regs, c.reg)
             && m1.pc == a + 4 + |ExprCode(s.cond, c.reg).code|
    requires var v := Eval(h, StoreOf(m).globals, s.cond); v.Some? && Truthy(h, v.value)
    ensures Simulates(h, p, m, n', a + |StmtCode(s, c).code|, c.reg, c.loops, Exec(h, fuel, s, StoreOf(m)), fuel)
    decreases fuel, s, 0
  {
    hide ExprCode, StmtsCode, Eval, Supported, Steps, Perform, StmtCode, CountsExactly, ExecAll, Exec, Fits, FitAll,
         UniqueLabels, Targets, Find, Truthy;
    WhileMeaning(h, fuel, s, StoreOf(m), |c.loops|, cont);
    WhileLayout(p, a, s, c);
    var e := ExprCode(s.cond, c.reg);
    var loop := Loop(c.lab, c.lab + 2);
    var c2 := Ctx(e.next, c.lab + 3, c.loops + [loop]);
    var end := a + |StmtCode(s, c).code|;
    FindAt(p, a + 1, c.lab);
    FindAt(p, end - 1, c.lab + 2);
    TargetsExtend(p, c.loops, loop);
    var m1 := Steps(h, p, n, m);
    var k := StmtsCorrect(h, p, s.body, c2, fuel - 1, m1, true);
    var o := ExecAll(h, fuel - 1, s.body, StoreOf(m));
    Chain(h, p, m, n, c.reg, k, fuel - 1, end - 2, c2.reg, c2.loops, o, fuel);
    n' := n + k;
    if o.Normal? || o.Continued? {
      n' := WhileAgain(h, p, s, c, fuel, a, m, n', if o.Normal? then end - 2 else a + 1, o.st, cont);
    } else if o.Broke? {
      LabelStep(h, p, Steps(h, p, n', m), c.lab + 2);
      StepsAdd(h, p, n', 1, m);
      n' := n' + 1;
    }
  }

  /** After `n` steps the machine stands at the closing jump or at the condition
      label itself, with the store the next turn starts from. */
  lemma {:induction false} WhileAgain(h: Host, p: seq<VInst>, s: Stmt, c: Ctx, fuel: nat, a: nat, m: Machine, n: nat,
                                      at: nat, st: Store, cont: bool) returns (n': nat)
    requires s.While? && UniqueLabels(p) && CountsExactly(h) && Targets(p, c.loops)
    requires Fits(s, |c.loops|, cont) && Embedded(p, a, StmtCode(s, c).code) && m.At? && fuel > 0 && n > 0
    requires at == a + 1 || at == a + |StmtCode(s, c).code| - 2
    requires Reached(m, Steps(h, p, n, m), at, c.reg, st)
    ensures Simulates(h, p, m, n', a + |StmtCode(s, c).code|, c.reg, c.loops, Exec(h, fuel - 1, s, st), fuel)
    decreases fuel - 1, s, 2
  {
    hide ExprCode, StmtsCode, Eval, Supported, Steps, Perform, StmtCode, CountsExactly, ExecAll, Exec, Fits, FitAll,
         UniqueLabels;
    WhileMeaning(h, fuel - 1, s, st, |c.loops|, cont);
    WhileLayout(p, a, s, c);
    var m2 := Steps(h, p, n, m);
    var d := if at == a + 1 then 1 else 2;
    if at == a + 1 {
      LabelStep(h, p, m2, c.lab);
    } else {
      JumpLand(h, p, m2, c.lab, a + 1);
    }
    StepsAdd(h, p, n, d, m);
    var m3 := Steps(h, p, n + d, m);
    var q := WhileTurns(h, p, s, c, fuel - 1, a, m3, cont);
    Chain(h, p, m, n + d, c.reg, q, fuel - 1, a + |StmtCode(s, c).code|, c.reg, c.loops,
          Exec(h, fuel - 1, s, st), fuel);
    n' := n + d + q;
  }

  lemma TargetsExtend(p: seq<VInst>, loops: seq<Loop>, l: Loop)
    requires Targets(p, loops) && Find(p, l.cond) < |p| && Find(p, l.end) < |p|
    ensures Targets(p, loops + [l])
  {
  }

  // ---------- for ----------

  lemma ForLayout(p: seq<VInst>, a: nat, s: Stmt, c: Ctx)
    requires s.For? && |c.loops| < MAX_LOOPS && Embedded(p, a, StmtCode(s, c).code)
    ensures var e := ExprCode(s.iterable, c.reg); var n := e.next;
            var b := StmtsCode(s.body, Ctx(n + 5, c.lab + 3, c.loops + [Loop(c.lab, c.lab + 2)]));
            var t := a + |e.code| + 3; var z := t + 8 + |b.code|;
            && Embedded(p, a, e.code) && Embedded(p, t - 3, ForHead(n, e.reg)) && Embedded(p, t, ForTest(n, c.lab))
            && Embedded(p, t + 6, ForFetch(n, e.reg, s.variable)) && Embedded(p, t + 8, b.code)
            && Embedded(p, z, ForAdvance(n, b.reg, c.lab)) && z + 5 == a + |StmtCode(s, c).code|
  {
    hide ExprCode, StmtsCode, StmtCode, Embedded;
    ForCode(s, c);
    var e := ExprCode(s.iterable, c.reg);
    var n := e.next;
    var b := StmtsCode(s.body, Ctx(n + 5, c.lab + 3, c.loops + [Loop(c.lab, c.lab + 2)]));
    var c1 := e.code + ForHead(n, e.reg);
    var c2 := c1 + ForTest(n, c.lab);
    var c3 := c2 + ForFetch(n, e.reg, s.variable);
    EmbeddedSplit(p, a, c3 + b.code, ForAdvance(n, b.reg, c.lab));
    EmbeddedSplit(p, a, c3, b.code);
    EmbeddedSplit(p, a, c2, ForFetch(n, e.reg, s.variable));
    EmbeddedSplit(p, a, c1, ForTest(n, c.lab));
    EmbeddedSplit(p, a, e.code, ForHead(n, e.reg));
  }

  lemma ForMeaning(h: Host, fuel: nat, s: Stmt, st: Store, depth: nat, cont: bool)
    requires s.For? && Fits(s, depth, cont)
    ensures depth < 64 && s.variable != FOR_INDEX && Supported(s.iterable) && FitAll(s.body, depth + 1, false)
    ensures var v := Eval(h, st.globals, s.iterable);
            Exec(h, fuel, s, st) ==
            if v.None? || LenValue(v.value).None? then Failed
            else ExecEach(h, fuel, s.variable, v.value, 0, s.body, st)
  {
    hide Eval, ExecAll, Supported, LenValue, ExecEach;
  }

  lemma HideCounter(g: Globals, v: Value)
    ensures Hide(g[FOR_INDEX := v]) == Hide(g)
  {
  }

  lemma HideOther(g: Globals, x: string, v: Value)
    requires x != FOR_INDEX
    ensures Hide(g[x := v]) == Hide(g)[x := v]
  {
  }

  /** The registers and the counter global at the head of iteration `i`. */
  predicate ForReady(h: Host, m: Machine, n: nat, iter: nat, v: Value, i: nat) {
    && m.At? && iter < n && iter in m.regs && m.regs[iter] == v
    && LenValue(v).Some? && n in m.regs && m.regs[n] == IntV(LenValue(v).value) && i <= LenValue(v).value
    && FOR_INDEX in m.globals && m.globals[FOR_INDEX] == NumV(Counter(h, i))
  }

  /** Length, initial index and the store of the shared counter. */
  lemma HeadSteps(h: Host, p: seq<VInst>, m: Machine, n: nat, iter: nat)
    requires m.At? && Embedded(p, m.pc, ForHead(n, iter)) && iter < n && iter in m.regs
    ensures LenValue(m.regs[iter]).None? ==> Steps(h, p, 3, m) == Stuck
    ensures LenValue(m.regs[iter]).Some? ==>
              Steps(h, p, 3, m) ==
              At(m.pc + 3, m.regs[n := IntV(LenValue(m.regs[iter]).value)][n + 1 := NumV(h.zero)],
                 m.globals[FOR_INDEX := NumV(h.zero)], m.out)
  {
    hide Steps, LenValue;
    var c := ForHead(n, iter);
    assert c == [c[0]] + ([c[1]] + [c[2]]);
    EmbeddedSplit(p, m.pc, [c[0]], [c[1]] + [c[2]]);
    EmbeddedSplit(p, m.pc + 1, [c[1]], [c[2]]);
    StepsZero(h, p, m);
    Advance(h, p, 0, m, c[0]);
    if LenValue(m.regs[iter]).None? {
      StuckStays(h, p, 1, 2, m);
    } else {
      Advance(h, p, 1, m, c[1]);
      Advance(h, p, 2, m, c[2]);
    }
  }

  /** From just after the condition label: compare the counter with the length. */
  lemma TestSteps(h: Host, p: seq<VInst>, m: Machine, t: nat, z: nat, n: nat, iter: nat, v: Value, i: nat, lab: nat)
    requires CountsExactly(h) && UniqueLabels(p) && ForReady(h, m, n, iter, v, i) && m.pc == t + 2
    requires Embedded(p, t, ForTest(n, lab)) && Embedded(p, z, [Label(lab + 2)])
    ensures var more := i < LenValue(v).value;
            Steps(h, p, 4, m) ==
            At(if more then t + 6 else z + 1, m.regs[n + 2 := NumV(Counter(h, i))][n + 3 := BoolV(more)],
               m.globals, m.out)
  {
    hide Steps, Counter, UniqueLabels;
    var c := ForTest(n, lab);
    assert c == c[..2] + ([c[2]] + ([c[3]] + ([c[4]] + [c[5]])));
    EmbeddedSplit(p, t, c[..2], [c[2]] + ([c[3]] + ([c[4]] + [c[5]])));
    EmbeddedSplit(p, t + 2, [c[2]], [c[3]] + ([c[4]] + [c[5]]));
    EmbeddedSplit(p, t + 3, [c[3]], [c[4]] + [c[5]]);
    EmbeddedSplit(p, t + 4, [c[4]], [c[5]]);
    var len := LenValue(v).value;
    assert h.binary(Lt, NumV(Counter(h, i)), IntV(len)) == Some(BoolV(i < len));
    StepsZero(h, p, m);
    Advance(h, p, 0, m, c[2]);
    Advance(h, p, 1, m, c[3]);
    var m2 := Steps(h, p, 2, m);
    BranchLand(h, p, m2, n + 3, lab + 1, lab + 2, if i < len then t + 5 else z);
    StepsAdd(h, p, 2, 2, m);
  }

  /** Fetch the element and store it in the loop variable. */
  lemma FetchSteps(h: Host, p: seq<VInst>, m: Machine, n: nat, iter: nat, v: Value, i: nat, x: string)
    requires CountsExactly(h) && ForReady(h, m, n, iter, v, i) && i < LenValue(v).value
    requires n + 2 in m.regs && m.regs[n + 2] == NumV(Counter(h, i))
    requires Embedded(p, m.pc, ForFetch(n, iter, x))
    ensures Steps(h, p, 2, m) ==
            At(m.pc + 2, m.regs[n + 4 := ElementAt(v, i)], m.globals[x := ElementAt(v, i)], m.out)
  {
    hide Steps, Counter;
    var c := ForFetch(n, iter, x);
    assert c == [c[0]] + [c[1]];
    EmbeddedSplit(p, m.pc, [c[0]], [c[1]]);
    assert h.binary(Lt, NumV(Counter(h, i)), IntV(LenValue(v).value)) == Some(BoolV(i < LenValue(v).value));
    assert IndexValue(h, v, NumV(Counter(h, i))) == Some(ElementAt(v, i));
    StepsZero(h, p, m);
    Advance(h, p, 0, m, c[0]);
    Advance(h, p, 1, m, c[1]);
  }

  lemma AddAndStore(h: Host, p: seq<VInst>, m: Machine, n: nat, r: nat, i: nat, lab: nat)
    requires m.At? && n + 2 < r && n + 2 in m.regs && m.regs[n + 2] == NumV(Counter(h, i))
    requires var c := ForAdvance(n, r, lab);
             Embedded(p, m.pc, [c[0]]) && Embedded(p, m.pc + 1, [c[1]]) && Embedded(p, m.pc + 2, [c[2]])
    ensures Steps(h, p, 3, m) ==
            At(m.pc + 3, m.regs[r := NumV(h.one)][r + 1 := NumV(Counter(h, i + 1))],
               m.globals[FOR_INDEX := NumV(Counter(h, i + 1))], m.out)
  {
    hide Steps;
    var c := ForAdvance(n, r, lab);
    StepsZero(h, p, m);
    Advance(h, p, 0, m, c[0]);
    Advance(h, p, 1, m, c[1]);
    Advance(h, p, 2, m, c[2]);
  }

  /** Add one to the index read at the head of this iteration and go back. */
  lemma AdvanceSteps(h: Host, p: seq<VInst>, m: Machine, t: nat, n: nat, r: nat, i: nat, lab: nat)
    requires UniqueLabels(p) && m.At? && n + 2 < r && n + 2 in m.regs && m.regs[n + 2] == NumV(Counter(h, i))
    requires Embedded(p, m.pc, ForAdvance(n, r, lab)) && Embedded(p, t, ForTest(n, lab))
    ensures Steps(h, p, 5, m) ==
            At(t + 2, m.regs[r := NumV(h.one)][r + 1 := NumV(Counter(h, i + 1))],
               m.globals[FOR_INDEX := NumV(Counter(h, i + 1))], m.out)
  {
    hide Steps, UniqueLabels, Perform, Counter;
    var c := ForAdvance(n, r, lab);
    assert c == [c[0]] + ([c[1]] + ([c[2]] + ([c[3]] + [c[4]])));
    EmbeddedSplit(p, m.pc, [c[0]], [c[1]] + ([c[2]] + ([c[3]] + [c[4]])));
    EmbeddedSplit(p, m.pc + 1, [c[1]], [c[2]] + ([c[3]] + [c[4]]));
    EmbeddedSplit(p, m.pc + 2, [c[2]], [c[3]] + [c[4]]);
    EmbeddedSplit(p, m.pc + 3, [c[3]], [c[4]]);
    var d := ForTest(n, lab);
    assert d == [d[0]] + ([d[1]] + d[2..]);
    EmbeddedSplit(p, t, [d[0]], [d[1]] + d[2..]);
    EmbeddedSplit(p, t + 1, [d[1]], d[2..]);
    AddAndStore(h, p, m, n, r, i, lab);
    JumpLand(h, p, Steps(h, p, 3, m), lab, t + 1);
    StepsAdd(h, p, 3, 2, m);
  }

  lemma {:induction false} ForCorrect(h: Host, p: seq<VInst>, s: Stmt, c: Ctx, fuel: nat, m: Machine, cont: bool)
    returns (n: nat)
    requires s.For? && UniqueLabels(p) && CountsExactly(h) && Targets(p, c.loops)
    requires Fits(s, |c.loops|, cont) && m.At? && Embedded(p, m.pc, StmtCode(s, c).code)
    ensures Simulates(h, p, m, n, m.pc + |StmtCode(s, c).code|, c.reg, c.loops, Exec(h, fuel, s, StoreOf(m)), fuel)
    decreases fuel, s, 2
  {
    hide ExprCode, StmtsCode, Eval, Supported, Steps, Perform, StmtCode, CountsExactly, ExecAll, ExecEach, Exec, Fits,
         FitAll, UniqueLabels, Targets, Find, LenValue;
    ForMeaning(h, fuel, s, StoreOf(m), |c.loops|, cont);
    ForLayout(p, m.pc, s, c);
    var e := ExprCode(s.iterable, c.reg);
    var k := |e.code|;
    ExprCorrect(h, p, s.iterable, c.reg, m);
    var v := Eval(h, StoreOf(m).globals, s.iterable);
    n := k + 3;
    if v.None? {
      StuckStays(h, p, k, 3, m);
    } else {
      var m1 := Steps(h, p, k, m);
      HeadSteps(h, p, m1, e.next, e.reg);
      StepsAdd(h, p, k, 3, m);
      HideCounter(m1.globals, NumV(h.zero));
      if LenValue(v.value).Some? {
        n := ForEnter(h, p, s, c, fuel, m.pc, Steps(h, p, k + 3, m), v.value);
        Chain(h, p, m, k + 3, c.reg, n, fuel, m.pc + |StmtCode(s, c).code|, c.reg, c.loops,
              ExecEach(h, fuel, s.variable, v.value, 0, s.body, StoreOf(m)), fuel);
        n := k + 3 + n;
      }
    }
  }

  /** From the jump to the test, with the counter just set to zero. */
  lemma {:induction false} ForEnter(h: Host, p: seq<VInst>, s: Stmt, c: Ctx, fuel: nat, a: nat, m: Machine, v: Value)
    returns (n: nat)
    requires s.For? && UniqueLabels(p) && CountsExactly(h) && Targets(p, c.loops) && |c.loops| < MAX_LOOPS
    requires s.variable != FOR_INDEX && FitAll(s.body, |c.loops| + 1, false) && Embedded(p, a, StmtCode(s, c).code)
    requires var e := ExprCode(s.iterable, c.reg);
             ForReady(h, m, e.next, e.reg, v, 0) && m.pc == a + |e.code| + 3
    ensures Simulates(h, p, m, n, a + |StmtCode(s, c).code|, c.reg, c.loops,
                      ExecEach(h, fuel, s.variable, v, 0, s.body, StoreOf(m)), fuel)
    decreases fuel, s, 1
  {
    hide ExprCode, StmtsCode, Steps, Perform, StmtCode, CountsExactly, ExecAll, ExecEach, FitAll, UniqueLabels, Targets,
         Find, LenValue;
    ForLayout(p, a, s, c);
    var e := ExprCode(s.iterable, c.reg);
    var d := ForTest(e.next, c.lab);
    assert d == [d[0]] + ([d[1]] + d[2..]);
    EmbeddedSplit(p, m.pc, [d[0]], [d[1]] + d[2..]);
    EmbeddedSplit(p, m.pc + 1, [d[1]], d[2..]);
    JumpLand(h, p, m, c.lab, m.pc + 1);
    n := ForTurns(h, p, s, c, fuel, a, Steps(h, p, 2, m), v, 0);
    Chain(h, p, m, 2, c.reg, n, fuel, a + |StmtCode(s, c).code|, c.reg, c.loops,
          ExecEach(h, fuel, s.variable, v, 0, s.body, StoreOf(m)), fuel);
    n := 2 + n;
  }

  /** One unfolding of the loop over the elements. */
  lemma EachMeaning(h: Host, fuel: nat, x: string, v: Value, i: nat, body: seq<Stmt>, st: Store, depth: nat)
    requires LenValue(v).Some? && i <= LenValue(v).value && FitAll(body, depth, false)
    ensures i == LenValue(v).value ==> ExecEach(h, fuel, x, v, i, body, st) == Normal(st)
    ensures i < LenValue(v).value ==>
              var o := ExecAll(h, fuel, body, st.(globals := st.globals[x := ElementAt(v, i)]));
              && !o.Continued?
              && ExecEach(h, fuel, x, v, i, body, st) ==
              if o.Normal? then ExecEach(h, fuel, x, v, i + 1, body, o.st)
              else if o.Broke? then Normal(o.st)
              else o
  {
    hide ExecAll, FitAll;
    if i < LenValue(v).value {
      StmtsConfined(h, fuel, body, st.(globals := st.globals[x := ElementAt(v, i)]), depth, false);
    }
  }

  /** From just after the condition label, elements `i` and later. */
  lemma {:induction false} ForTurns(h: Host, p: seq<VInst>, s: Stmt, c: Ctx, fuel: nat, a: nat, m: Machine, v: Value,
                                    i: nat)
    returns (n: nat)
    requires s.For? && UniqueLabels(p) && CountsExactly(h) && Targets(p, c.loops) && |c.loops| < MAX_LOOPS
    requires s.variable != FOR_INDEX && FitAll(s.body, |c.loops| + 1, false) && Embedded(p, a, StmtCode(s, c).code)
    requires var e := ExprCode(s.iterable, c.reg);
             ForReady(h, m, e.next, e.reg, v, i) && m.pc == a + |e.code| + 5
    ensures Simulates(h, p, m, n, a + |StmtCode(s, c).code|, c.reg, c.loops,
                      ExecEach(h, fuel, s.variable, v, i, s.body, StoreOf(m)), fuel)
    decreases fuel, s.body, 1 + LenValue(v).value - i, 1
  {
    hide ExprCode, StmtsCode, Steps, Perform, StmtCode, CountsExactly, ExecAll, ExecEach, FitAll, UniqueLabels, Targets,
         Find, LenValue;
    ForLayout(p, a, s, c);
    EachMeaning(h, fuel, s.variable, v, i, s.body, StoreOf(m), |c.loops| + 1);
    var e := ExprCode(s.iterable, c.reg);
    var t := a + |e.code| + 3;
    var z := a + |StmtCode(s, c).code| - 1;
    var b := StmtsCode(s.body, Ctx(e.next + 5, c.lab + 3, c.loops + [Loop(c.lab, c.lab + 2)]));
    AdvanceSplit(p, z - 4, e.next, b.reg, c.lab);
    TestSteps(h, p, m, t, z, e.next, e.reg, v, i, c.lab);
    n := 4;
    if i < LenValue(v).value {
      var m1 := Steps(h, p, 4, m);
      FetchSteps(h, p, m1, e.next, e.reg, v, i, s.variable);
      StepsAdd(h, p, 4, 2, m);
      n := ForTurn(h, p, s, c, fuel, a, m, v, i);
    }
  }

  lemma AdvanceSplit(p: seq<VInst>, a: nat, n: nat, r: nat, lab: nat)
    requires Embedded(p, a, ForAdvance(n, r, lab))
    ensures Embedded(p, a + 4, [Label(lab + 2)])
  {
    var c := ForAdvance(n, r, lab);
    assert c == c[..4] + [c[4]];
    EmbeddedSplit(p, a, c[..4], [c[4]]);
  }

  /** The body of iteration `i`, entered after six steps. */
  lemma {:induction false} ForBody(h: Host, p: seq<VInst>, s: Stmt, c: Ctx, fuel: nat, a: nat, m: Machine, v: Value,
                                   i: nat)
    returns (n: nat)
    requires s.For? && UniqueLabels(p) && CountsExactly(h) && Targets(p, c.loops) && |c.loops| < MAX_LOOPS
    requires s.variable != FOR_INDEX && FitAll(s.body, |c.loops| + 1, false) && Embedded(p, a, StmtCode(s, c).code)
    requires var e := ExprCode(s.iterable, c.reg);
             && ForReady(h, m, e.next, e.reg, v, i) && i < LenValue(v).value
             && Steps(h, p, 6, m) ==
                At(a + |e.code| + 11,
                   m.regs[e.next + 2 := NumV(Counter(h, i))][e.next + 3 := BoolV(true)][e.next + 4 := ElementAt(v, i)],
                   m.globals[s.variable := ElementAt(v, i)], m.out)
    ensures var e := ExprCode(s.iterable, c.reg);
            var st := StoreOf(m);
            var o := ExecAll(h, fuel, s.body, st.(globals := st.globals[s.variable := ElementAt(v, i)]));
            && Simulates(h, p, m, n, a + |StmtCode(s, c).code| - 5, e.next + 1,
                         c.loops + [Loop(c.lab, c.lab + 2)], o, fuel)
            && (o.Normal? ==>
                  var r := Steps(h, p, n, m).regs;
                  e.next + 2 in r && r[e.next + 2] == NumV(Counter(h, i)))
    decreases fuel, s.body, 1 + LenValue(v).value - i, -1
  {
    hide ExprCode, StmtsCode, Steps, Perform, StmtCode, CountsExactly, ExecAll, ExecEach, FitAll, UniqueLabels, Targets,
         Find, LenValue, Counter;
    var e := ExprCode(s.iterable, c.reg);
    var c2 := Ctx(e.next + 5, c.lab + 3, c.loops + [Loop(c.lab, c.lab + 2)]);
    var end := a + |StmtCode(s, c).code|;
    ForInside(p, a, s, c);
    HideOther(m.globals, s.variable, ElementAt(v, i));
    var m1 := Steps(h, p, 6, m);
    var k := StmtsCorrect(h, p, s.body, c2, fuel, m1, false);
    var o := ExecAll(h, fuel, s.body, StoreOf(m1));
    RegisterKept(h, p, m, 6, k, end - 5, c2.reg, c2.loops, o, fuel, e.next + 2);
    hide Embedded, Hide, ElementAt;
    Chain(h, p, m, 6, e.next + 1, k, fuel, end - 5, c2.reg, c2.loops, o, fuel);
    n := 6 + k;
  }

  /** The body inside the code of a `for`, and its labels. */
  lemma ForInside(p: seq<VInst>, a: nat, s: Stmt, c: Ctx)
    requires s.For? && UniqueLabels(p) && Targets(p, c.loops) && |c.loops| < MAX_LOOPS
    requires Embedded(p, a, StmtCode(s, c).code)
    ensures var e := ExprCode(s.iterable, c.reg);
            var c2 := Ctx(e.next + 5, c.lab + 3, c.loops + [Loop(c.lab, c.lab + 2)]);
            var b := StmtsCode(s.body, c2);
            && Targets(p, c2.loops) && Embedded(p, a + |e.code| + 11, b.code)
            && |StmtCode(s, c).code| == |e.code| + 11 + |b.code| + 5
  {
    hide ExprCode, StmtsCode, StmtCode, Targets, UniqueLabels;
    ForLayout(p, a, s, c);
    var e := ExprCode(s.iterable, c.reg);
    var loop := Loop(c.lab, c.lab + 2);
    var b := StmtsCode(s.body, Ctx(e.next + 5, c.lab + 3, c.loops + [loop]));
    ForLabels(p, a + |e.code| + 3, a + |e.code| + 11 + |b.code|, e.next, b.reg, c.lab);
    TargetsExtend(p, c.loops, loop);
  }

  /** A simulated part keeps the registers below its own. */
  lemma RegisterKept(h: Host, p: seq<VInst>, m: Machine, d: nat, k: nat, end: nat, keep: nat, loops: seq<Loop>,
                     o: Outcome, fuel: nat, r: nat)
    requires m.At? && Steps(h, p, d, m).At? && r < keep && r in Steps(h, p, d, m).regs
    requires Simulates(h, p, Steps(h, p, d, m), k, end, keep, loops, o, fuel)
    ensures o.Normal? ==>
              var m' := Steps(h, p, d + k, m);
              m'.At? && r in m'.regs && m'.regs[r] == Steps(h, p, d, m).regs[r]
  {
    hide Steps;
    StepsAdd(h, p, d, k, m);
  }

  /** Body and advance of iteration `i`. */
  lemma {:induction false} ForTurn(h: Host, p: seq<VInst>, s: Stmt, c: Ctx, fuel: nat, a: nat, m: Machine, v: Value,
                                   i: nat)
    returns (n: nat)
    requires s.For? && UniqueLabels(p) && CountsExactly(h) && Targets(p, c.loops) && |c.loops| < MAX_LOOPS
    requires s.variable != FOR_INDEX && FitAll(s.body, |c.loops| + 1, false) && Embedded(p, a, StmtCode(s, c).code)
    requires var e := ExprCode(s.iterable, c.reg);
             && ForReady(h, m, e.next, e.reg, v, i) && i < LenValue(v).value
             && Steps(h, p, 6, m) ==
                At(a + |e.code| + 11,
                   m.regs[e.next + 2 := NumV(Counter(h, i))][e.next + 3 := BoolV(true)][e.next + 4 := ElementAt(v, i)],
                   m.globals[s.variable := ElementAt(v, i)], m.out)
    ensures Simulates(h, p, m, n, a + |StmtCode(s, c).code|, c.reg, c.loops,
                      ExecEach(h, fuel, s.variable, v, i, s.body, StoreOf(m)), fuel)
    decreases fuel, s.body, 1 + LenValue(v).value - i, 0
  {
    hide ExprCode, StmtsCode, Steps, Perform, StmtCode, CountsExactly, ExecAll, ExecEach, FitAll, UniqueLabels, Targets,
         Find, LenValue, Counter;
    ForLayout(p, a, s, c);
    EachMeaning(h, fuel, s.variable, v, i, s.body, StoreOf(m), |c.loops| + 1);
    var e := ExprCode(s.iterable, c.reg);
    var b := StmtsCode(s.body, Ctx(e.next + 5, c.lab + 3, c.loops + [Loop(c.lab, c.lab + 2)]));
    ForLabels(p, a + |e.code| + 3, a + |StmtCode(s, c).code| - 5, e.next, b.reg, c.lab);
    n := ForBody(h, p, s, c, fuel, a, m, v, i);
    var st := StoreOf(m);
    var o := ExecAll(h, fuel, s.body, st.(globals := st.globals[s.variable := ElementAt(v, i)]));
    if o.Normal? {
      n := ForAgain(h, p, s, c, fuel, a, m, n, o.st, v, i);
    } else if o.Broke? {
      LabelStep(h, p, Steps(h, p, n, m), c.lab + 2);
      StepsAdd(h, p, n, 1, m);
      n := n + 1;
    }
  }

  /** The body of iteration `i` is over after `n` steps: advance and go on.  The
      index comes from the register read at the head of this iteration, so it does
      not matter what inner loops left in the shared counter. */
  lemma {:induction false} ForAgain(h: Host, p: seq<VInst>, s: Stmt, c: Ctx, fuel: nat, a: nat, m: Machine, n: nat,
                                    st: Store, v: Value, i: nat) returns (n': nat)
    requires s.For? && UniqueLabels(p) && CountsExactly(h) && Targets(p, c.loops) && |c.loops| < MAX_LOOPS
    requires s.variable != FOR_INDEX && FitAll(s.body, |c.loops| + 1, false) && Embedded(p, a, StmtCode(s, c).code)
    requires var e := ExprCode(s.iterable, c.reg);
             && ForReady(h, m, e.next, e.reg, v, i) && i < LenValue(v).value
             && var m2 := Steps(h, p, n, m);
             && Reached(m, m2, a + |StmtCode(s, c).code| - 5, e.next + 1, st)
             && e.next + 2 in m2.regs && m2.regs[e.next + 2] == NumV(Counter(h, i))
    ensures Simulates(h, p, m, n', a + |StmtCode(s, c).code|, c.reg, c.loops,
                      ExecEach(h, fuel, s.variable, v, i + 1, s.body, st), fuel)
    decreases fuel, s.body, 1 + LenValue(v).value - i, -1
  {
    hide ExprCode, StmtsCode, Steps, Perform, StmtCode, CountsExactly, ExecAll, ExecEach, FitAll, UniqueLabels, Targets,
         Find, LenValue, Counter;
    ForLayout(p, a, s, c);
    var e := ExprCode(s.iterable, c.reg);
    var b := StmtsCode(s.body, Ctx(e.next + 5, c.lab + 3, c.loops + [Loop(c.lab, c.lab + 2)]));
    var t := a + |e.code| + 3;
    var m2 := Steps(h, p, n, m);
    AdvanceSteps(h, p, m2, t, e.next, b.reg, i, c.lab);
    StepsAdd(h, p, n, 5, m);
    HideCounter(m2.globals, NumV(Counter(h, i + 1)));
    var q := ForTurns(h, p, s, c, fuel, a, Steps(h, p, n + 5, m), v, i + 1);
    Chain(h, p, m, n + 5, c.reg, q, fuel, a + |StmtCode(s, c).code|, c.reg, c.loops,
          ExecEach(h, fuel, s.variable, v, i + 1, s.body, st), fuel);
    n' := n + 5 + q;
  }

  /** Where the two labels of a `for` loop are. */
  lemma ForLabels(p: seq<VInst>, t: nat, z: nat, n: nat, r: nat, lab: nat)
    requires UniqueLabels(p) && Embedded(p, t, ForTest(n, lab)) && Embedded(p, z, ForAdvance(n, r, lab))
    ensures Find(p, lab) == t + 1 && t + 1 < |p| && Find(p, lab + 2) == z + 4 && z + 4 < |p|
    ensures Embedded(p, z + 4, [Label(lab + 2)])
  {
    hide UniqueLabels;
    AdvanceSplit(p, z, n, r, lab);
    FindAt(p, z + 4, lab + 2);
    var d := ForTest(n, lab);
    assert d == [d[0]] + ([d[1]] + d[2..]);
    EmbeddedSplit(p, t, [d[0]], [d[1]] + d[2..]);
    EmbeddedSplit(p, t + 1, [d[1]], d[2..]);
    FindAt(p, t + 1, lab);
  }

  lemma FindAt(p: seq<VInst>, i: nat, l: nat)
    requires UniqueLabels(p) && Embedded(p, i, [Label(l)])
    ensures Find(p, l) == i && i < |p|
  {
    EmbeddedAt(p, i, [Label(l)], 0);
    FindUnique(p, i, l);
  }
}
