// The code selected for statements simulates them step by step.
module IselStmt {
  import opened Common
  import opened Ast
  import opened Values
  import opened VirtualMachine
  import opened Isel
  import opened FlatSemantics
  import opened IselExpr

  // ---------- the fragment ----------

  /** Statements the selector lowers faithfully at loop depth `depth`.  `cont`
      says whether the innermost loop is a `while`, where `continue` re-tests; in
      a `for` it would skip the advance of the index. */
  predicate Fits(s: Stmt, depth: nat, cont: bool)
    decreases s
  {
    match s
    case Print(e) => Supported(e)
    case ExprStmt(e) => Supported(e)
    case Return(e) => Supported(e)
    case Let(x, e) => x != "__for_idx__" && Supported(e)
    case Block(body) => FitAll(body, depth, cont)
    case If(e, thn, els) => Supported(e) && FitAll(thn, depth, cont) && FitAll(els, depth, cont)
    case While(e, body) => depth < 64 && Supported(e) && FitAll(body, depth + 1, true)
    case For(x, e, body) =>
      depth < 64 && x != "__for_idx__" && Supported(e) && FitAll(body, depth + 1, false)
    case Break => depth > 0
    case Continue => depth > 0 && cont
    case _ => false
  }

  predicate FitAll(ss: seq<Stmt>, depth: nat, cont: bool)
    decreases ss
  {
    ss == [] || (Fits(ss[0], depth, cont) && FitAll(ss[1..], depth, cont))
  }

  /** The double reached by adding one `i` times. */
  function Counter(h: Host, i: nat): Double {
    if i == 0 then h.zero else h.add(Counter(h, i - 1), h.one)
  }

  /** Doubles count exactly up to the largest C int. */
  ghost predicate CountsExactly(h: Host) {
    forall i: nat, n: nat {:trigger h.binary(Lt, NumV(Counter(h, i)), IntV(n))} :: i <= n <= INT_MAX ==>
      && h.binary(Lt, NumV(Counter(h, i)), IntV(n)) == Some(BoolV(i < n))
      && h.toInt(Counter(h, i)) == i
  }

  // ---------- the simulation relation ----------

  function StoreOf(m: Machine): Store
    requires m.At?
  {
    Store(Hide(m.globals), m.out)
  }

  /** `m'` stands at `pc` with the source store `st`, having kept the registers of
      `m` below `keep`. */
  predicate Reached(m: Machine, m': Machine, pc: nat, keep: nat, st: Store)
    requires m.At?
  {
    m'.At? && m'.pc == pc && StoreOf(m') == st && Agree(m.regs, m'.regs, keep)
  }

  /** `n` steps from `m` match the outcome `o`.  A timed-out source run is matched
      by a machine still running after at least `fuel` steps. */
  ghost predicate Simulates(h: Host, p: seq<VInst>, m: Machine, n: nat, end: nat, keep: nat,
                            loops: seq<Loop>, o: Outcome, fuel: nat)
    requires m.At?
  {
    var m' := Steps(h, p, n, m);
    match o
    case Normal(st) => Reached(m, m', end, keep, st)
    case Broke(st) => loops != [] && Reached(m, m', Find(p, loops[|loops| - 1].end), keep, st)
    case Continued(st) => loops != [] && Reached(m, m', Find(p, loops[|loops| - 1].cond), keep, st)
    case Returned(v, st) => m'.Halted? && m'.value == v && Store(Hide(m'.globals), m'.out) == st
    case Failed => m' == Stuck
    case TimedOut => n >= fuel && !Final(p, m')
  }

  /** Steps before a simulated part lengthen the simulation. */
  lemma Chain(h: Host, p: seq<VInst>, m: Machine, n: nat, keep: nat, n2: nat, fuel2: nat, end: nat, keep2: nat,
              loops: seq<Loop>, o: Outcome, fuel: nat)
    requires m.At? && Steps(h, p, n, m).At? && Agree(m.regs, Steps(h, p, n, m).regs, keep) && keep <= keep2
    requires Simulates(h, p, Steps(h, p, n, m), n2, end, keep2, loops, o, fuel2)
    requires fuel <= n + fuel2
    ensures Simulates(h, p, m, n + n2, end, keep, loops, o, fuel)
  {
    StepsAdd(h, p, n, n2, m);
  }

  // ---------- jumps ----------

  lemma JumpLand(h: Host, p: seq<VInst>, m: Machine, l: nat, i: nat)
    requires m.At? && UniqueLabels(p) && Embedded(p, m.pc, [Jump(l)]) && Embedded(p, i, [Label(l)])
    ensures Steps(h, p, 2, m) == m.(pc := i + 1)
  {
    EmbeddedAt(p, i, [Label(l)], 0);
    FindUnique(p, i, l);
    Advance(h, p, 0, m, Jump(l));
    Advance(h, p, 1, m, Label(l));
  }

  lemma BranchLand(h: Host, p: seq<VInst>, m: Machine, r: nat, t: nat, f: nat, i: nat)
    requires m.At? && UniqueLabels(p) && Embedded(p, m.pc, [Branch(r, t, f)]) && r in m.regs
    requires Embedded(p, i, [Label(if Truthy(h, m.regs[r]) then t else f)])
    ensures Steps(h, p, 2, m) == m.(pc := i + 1)
  {
    var l := if Truthy(h, m.regs[r]) then t else f;
    EmbeddedAt(p, i, [Label(l)], 0);
    FindUnique(p, i, l);
    Advance(h, p, 0, m, Branch(r, t, f));
    Advance(h, p, 1, m, Label(l));
  }

  lemma LabelStep(h: Host, p: seq<VInst>, m: Machine, l: nat)
    requires m.At? && Embedded(p, m.pc, [Label(l)])
    ensures Steps(h, p, 1, m) == m.(pc := m.pc + 1)
  {
    Advance(h, p, 0, m, Label(l));
  }

  /** Every loop on the stack has both of its labels in the program. */
  predicate Targets(p: seq<VInst>, loops: seq<Loop>) {
    forall l | l in loops :: Find(p, l.cond) < |p| && Find(p, l.end) < |p|
  }

  // ---------- statements with one expression ----------

  /** An expression followed by the instruction that uses it. */
  lemma ExprThen(h: Host, p: seq<VInst>, e: Expr, r: nat, m: Machine, i: VInst)
    requires Supported(e) && m.At? && Embedded(p, m.pc, ExprCode(e, r).code + [i])
    ensures var a := ExprCode(e, r); var n := |a.code|; var v := Eval(h, Hide(m.globals), e);
            && (v.None? ==> Steps(h, p, n + 1, m) == Stuck)
            && (v.Some? ==>
                  var m' := Steps(h, p, n, m);
                  && Arrived(m, m', m.pc + n, r) && a.reg in m'.regs && m'.regs[a.reg] == v.value
                  && Steps(h, p, n + 1, m) == Perform(h, p, i, m'))
  {
    hide ExprCode, Eval, Supported, Steps, Perform;
    var a := ExprCode(e, r);
    EmbeddedSplit(p, m.pc, a.code, [i]);
    ExprCorrect(h, p, e, r, m);
    if Eval(h, Hide(m.globals), e).None? {
      StuckStays(h, p, |a.code|, 1, m);
    } else {
      Advance(h, p, |a.code|, m, i);
    }
  }

  lemma SimpleCorrect(h: Host, p: seq<VInst>, s: Stmt, c: Ctx, fuel: nat, m: Machine, cont: bool) returns (n: nat)
    requires Fits(s, |c.loops|, cont) && m.At? && Embedded(p, m.pc, StmtCode(s, c).code)
    requires s.Print? || s.Let? || s.Return?
    ensures Simulates(h, p, m, n, m.pc + |StmtCode(s, c).code|, c.reg, c.loops, Exec(h, fuel, s, StoreOf(m)), fuel)
  {
    hide ExprCode, Eval, Supported, Steps;
    var e := if s.Print? then s.e else if s.Let? then s.init else s.e;
    var a := ExprCode(e, c.reg);
    var i := if s.Print? then PrintReg(a.reg) else if s.Let? then StoreGlobal(a.reg, s.name) else Ret(a.reg);
    ExprThen(h, p, e, c.reg, m, i);
    n := |a.code| + 1;
  }

  lemma ExprStmtCorrect(h: Host, p: seq<VInst>, s: Stmt, c: Ctx, fuel: nat, m: Machine) returns (n: nat)
    requires s.ExprStmt? && Supported(s.e) && m.At? && Embedded(p, m.pc, StmtCode(s, c).code)
    ensures Simulates(h, p, m, n, m.pc + |StmtCode(s, c).code|, c.reg, c.loops, Exec(h, fuel, s, StoreOf(m)), fuel)
  {
    hide ExprCode, Eval, Supported, Steps;
    ExprCorrect(h, p, s.e, c.reg, m);
    n := |ExprCode(s.e, c.reg).code|;
  }

  lemma EscapeCorrect(h: Host, p: seq<VInst>, s: Stmt, c: Ctx, fuel: nat, m: Machine) returns (n: nat)
    requires s.Break? || s.Continue?
    requires c.loops != [] && Targets(p, c.loops) && m.At? && Embedded(p, m.pc, StmtCode(s, c).code)
    ensures Simulates(h, p, m, n, m.pc + |StmtCode(s, c).code|, c.reg, c.loops, Exec(h, fuel, s, StoreOf(m)), fuel)
  {
    var l := c.loops[|c.loops| - 1];
    assert l in c.loops;
    Advance(h, p, 0, m, Jump(if s.Break? then l.end else l.cond));
    n := 1;
  }
}
