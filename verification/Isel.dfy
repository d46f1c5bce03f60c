// Instruction selection (src/codegen.c): the emitted list as a function of the
// tree, and the context object that emits it.
module Isel {
  import opened Ast
  import opened VirtualMachine

  const MAX_LOOPS: nat := 64
  const FOR_INDEX: string := "__for_idx__"

  // ---------- the emitted code, as a function ----------

  /** Code, the register holding its result and the next free register. */
  datatype Sel = Sel(code: seq<VInst>, reg: nat, next: nat)

  /** The operator an Arith instruction carries: anything the selector does not
      recognise becomes an addition. */
  function Selected(op: Op): Op {
    match op
    case Not => Add
    case OtherOp(_) => Add
    case _ => op
  }

  function ExprCode(e: Expr, r: nat): (s: Sel)
    ensures r <= s.reg < s.next
    decreases e
  {
    match e
    case Absent => Sel([LoadNil(r)], r, r + 1)
    case Nil => Sel([LoadNil(r)], r, r + 1)
    case Number(n) => Sel([LoadImm(r, n)], r, r + 1)
    case Str(t) => Sel([LoadString(r, t)], r, r + 1)
    case Bool(b) => Sel([LoadBool(r, b)], r, r + 1)
    case Variable(x) => Sel([LoadGlobal(r, x)], r, r + 1)
    case Binary(op, left, right) =>
      var a := ExprCode(left, r);
      var b := ExprCode(right, a.next);
      Sel(a.code + b.code + [Arith(Selected(op), b.next, a.reg, b.reg)], b.next, b.next + 1)
    case Index(base, index) =>
      var a := ExprCode(base, r);
      var b := ExprCode(index, a.next);
      Sel(a.code + b.code + [IndexOf(b.next, a.reg, b.reg)], b.next, b.next + 1)
    case Array(es) =>
      var s := ElemsCode(es, r, 0, r + 1);
      Sel([ArrayNew(r, |es|)] + s.code, r, s.next)
    case Tuple(es) =>
      var s := ElemsCode(es, r, 0, r + 1);
      Sel([ArrayNew(r, |es|)] + s.code, r, s.next)
    case _ => Sel([Unmodelled(r)], r, r + 1)
  }

  function ElemsCode(es: seq<Expr>, arr: nat, i: nat, r: nat): (s: Sel)
    requires arr < r
    ensures s.reg == arr && r <= s.next
    decreases es
  {
    if es == [] then Sel([], arr, r)
    else
      var a := ExprCode(es[0], r);
      var rest := ElemsCode(es[1..], arr, i + 1, a.next);
      Sel(a.code + [ArraySet(arr, a.reg, i)] + rest.code, arr, rest.next)
  }

  /** One entry of the loop stack: where `continue` and `break` jump. */
  datatype Loop = Loop(cond: nat, end: nat)

  /** The counters and the loop stack the selector carries. */
  datatype Ctx = Ctx(reg: nat, lab: nat, loops: seq<Loop>)

  datatype Out = Out(code: seq<VInst>, reg: nat, lab: nat)

  /** Registers of a `for` loop from `n` on: length, initial index, index at the
      head of the iteration, test and element. */
  function ForHead(n: nat, iter: nat): seq<VInst> {
    [LenCall(n, iter), LoadZero(n + 1), StoreGlobal(n + 1, FOR_INDEX)]
  }

  function ForTest(n: nat, lab: nat): seq<VInst> {
    [Jump(lab), Label(lab), LoadGlobal(n + 2, FOR_INDEX), Arith(Lt, n + 3, n + 2, n),
     Branch(n + 3, lab + 1, lab + 2), Label(lab + 1)]
  }

  function ForFetch(n: nat, iter: nat, x: string): seq<VInst> {
    [IndexOf(n + 4, iter, n + 2), StoreGlobal(n + 4, x)]
  }

  function ForAdvance(n: nat, r: nat, lab: nat): seq<VInst> {
    [LoadOne(r), Arith(Add, r + 1, n + 2, r), StoreGlobal(r + 1, FOR_INDEX), Jump(lab), Label(lab + 2)]
  }

  function StmtsCode(ss: seq<Stmt>, c: Ctx): (o: Out)
    ensures c.reg <= o.reg && c.lab <= o.lab
    decreases ss
  {
    if ss == [] then Out([], c.reg, c.lab)
    else
      var a := StmtCode(ss[0], c);
      var b := StmtsCode(ss[1..], c.(reg := a.reg, lab := a.lab));
      Out(a.code + b.code, b.reg, b.lab)
  }

  function StmtCode(s: Stmt, c: Ctx): (o: Out)
    ensures c.reg <= o.reg && c.lab <= o.lab
    decreases s
  {
    match s
    case Print(e) => var a := ExprCode(e, c.reg); Out(a.code + [PrintReg(a.reg)], a.next, c.lab)
    case ExprStmt(e) => var a := ExprCode(e, c.reg); Out(a.code, a.next, c.lab)
    case Let(x, e) => var a := ExprCode(e, c.reg); Out(a.code + [StoreGlobal(a.reg, x)], a.next, c.lab)
    case Return(e) => var a := ExprCode(e, c.reg); Out(a.code + [Ret(a.reg)], a.next, c.lab)
    case Block(body) => StmtsCode(body, c)
    case If(e, thn, els) =>
      var a := ExprCode(e, c.reg);
      var t := StmtsCode(thn, Ctx(a.next, c.lab + 3, c.loops));
      var f := StmtsCode(els, Ctx(t.reg, t.lab, c.loops));
      var elseCode := if els == [] then [] else [Label(c.lab + 1)] + f.code + [Jump(c.lab + 2)];
      Out(a.code + [Branch(a.reg, c.lab, if els == [] then c.lab + 2 else c.lab + 1)]
          + ([Label(c.lab)] + t.code + [Jump(c.lab + 2)] + elseCode + [Label(c.lab + 2)]),
          f.reg, f.lab)
    case While(e, body) =>
      if |c.loops| >= MAX_LOOPS then Out([], c.reg, c.lab)
      else
        var a := ExprCode(e, c.reg);
        var b := StmtsCode(body, Ctx(a.next, c.lab + 3, c.loops + [Loop(c.lab, c.lab + 2)]));
        Out([Jump(c.lab)] + [Label(c.lab)] + (a.code + [Branch(a.reg, c.lab + 1, c.lab + 2)]) + [Label(c.lab + 1)]
            + b.code + [Jump(c.lab)] + [Label(c.lab + 2)],
            b.reg, b.lab)
    case For(x, e, body) =>
      var a := ExprCode(e, c.reg);
      var n := a.next;
      if |c.loops| >= MAX_LOOPS then Out(a.code + ForHead(n, a.reg), n + 2, c.lab)
      else
        var b := StmtsCode(body, Ctx(n + 5, c.lab + 3, c.loops + [Loop(c.lab, c.lab + 2)]));
        Out(a.code + ForHead(n, a.reg) + ForTest(n, c.lab) + ForFetch(n, a.reg, x) + b.code
            + ForAdvance(n, b.reg, c.lab),
            b.reg + 2, b.lab)
    case Break =>
      Out(if c.loops == [] then [] else [Jump(c.loops[|c.loops| - 1].end)], c.reg, c.lab)
    case Continue =>
      Out(if c.loops == [] then [] else [Jump(c.loops[|c.loops| - 1].cond)], c.reg, c.lab)
    case _ => Out([Unmodelled(c.reg)], c.reg + 1, c.lab)
  }

  // ---------- the code of one node ----------

  /** The instruction that combines the operands of a two-operand node. */
  function Node(e: Expr, a: nat, b: nat, dest: nat): VInst {
    if e.Binary? then Arith(Selected(e.op), dest, a, b) else IndexOf(dest, a, b)
  }

  lemma NodeCode(e: Expr, x: Expr, y: Expr, r: nat)
    requires (e.Binary? && e.left == x && e.right == y) || (e.Index? && e.base == x && e.index == y)
    ensures var a := ExprCode(x, r); var b := ExprCode(y, a.next);
            ExprCode(e, r) == Sel(a.code + b.code + [Node(e, a.reg, b.reg, b.next)], b.next, b.next + 1)
  {
  }

  /** Tuples are lowered as arrays. */
  lemma ArraysAlike(es: seq<Expr>, r: nat)
    ensures var s := ElemsCode(es, r, 0, r + 1);
            && ExprCode(Array(es), r) == Sel([ArrayNew(r, |es|)] + s.code, r, s.next)
            && ExprCode(Tuple(es), r) == ExprCode(Array(es), r)
  {
    hide ElemsCode;
  }

  lemma IfCode(s: Stmt, c: Ctx)
    requires s.If?
    ensures var e := ExprCode(s.cond, c.reg);
            var t := StmtsCode(s.thn, Ctx(e.next, c.lab + 3, c.loops));
            var f := StmtsCode(s.els, Ctx(t.reg, t.lab, c.loops));
            var br := Branch(e.reg, c.lab, if s.els == [] then c.lab + 2 else c.lab + 1);
            StmtCode(s, c) ==
            Out(e.code + [br] + ([Label(c.lab)] + t.code + [Jump(c.lab + 2)]
                  + (if s.els == [] then [] else [Label(c.lab + 1)] + f.code + [Jump(c.lab + 2)])
                  + [Label(c.lab + 2)]),
                f.reg, f.lab)
  {
    hide ExprCode, StmtsCode;
  }

  lemma WhileCode(s: Stmt, c: Ctx)
    requires s.While? && |c.loops| < MAX_LOOPS
    ensures var e := ExprCode(s.cond, c.reg);
            var b := StmtsCode(s.body, Ctx(e.next, c.lab + 3, c.loops + [Loop(c.lab, c.lab + 2)]));
            StmtCode(s, c) ==
            Out([Jump(c.lab)] + [Label(c.lab)] + (e.code + [Branch(e.reg, c.lab + 1, c.lab + 2)]) + [Label(c.lab + 1)]
                + b.code + [Jump(c.lab)] + [Label(c.lab + 2)],
                b.reg, b.lab)
  {
    hide ExprCode, StmtsCode;
  }

  lemma ForCode(s: Stmt, c: Ctx)
    requires s.For? && |c.loops| < MAX_LOOPS
    ensures var e := ExprCode(s.iterable, c.reg); var n := e.next;
            var b := StmtsCode(s.body, Ctx(n + 5, c.lab + 3, c.loops + [Loop(c.lab, c.lab + 2)]));
            StmtCode(s, c) ==
            Out(e.code + ForHead(n, e.reg) + ForTest(n, c.lab) + ForFetch(n, e.reg, s.variable) + b.code
                + ForAdvance(n, b.reg, c.lab),
                b.reg + 2, b.lab)
  {
    hide ExprCode, StmtsCode, ForHead, ForTest, ForFetch, ForAdvance;
  }

  /** The same, with what follows the head in one piece. */
  lemma ForCodeParts(s: Stmt, c: Ctx)
    requires s.For? && |c.loops| < MAX_LOOPS
    ensures var e := ExprCode(s.iterable, c.reg); var n := e.next;
            var b := StmtsCode(s.body, Ctx(n + 5, c.lab + 3, c.loops + [Loop(c.lab, c.lab + 2)]));
            StmtCode(s, c).code ==
            (e.code + ForHead(n, e.reg))
            + (ForTest(n, c.lab) + ForFetch(n, e.reg, s.variable) + b.code + ForAdvance(n, b.reg, c.lab))
  {
    hide ExprCode, StmtsCode, StmtCode, ForHead, ForTest, ForFetch, ForAdvance;
    ForCode(s, c);
  }

  /** At depth 64 nothing at all is emitted for a `while`. */
  lemma DeepWhileCode(s: Stmt, c: Ctx)
    requires s.While? && |c.loops| >= MAX_LOOPS
    ensures StmtCode(s, c) == Out([], c.reg, c.lab)
  {
    hide ExprCode;
  }

  /** At depth 64 the head of a `for` is emitted, and nothing else. */
  lemma DeepForCode(s: Stmt, c: Ctx)
    requires s.For? && |c.loops| >= MAX_LOOPS
    ensures var e := ExprCode(s.iterable, c.reg);
            StmtCode(s, c) == Out(e.code + ForHead(e.next, e.reg), e.next + 2, c.lab)
  {
    hide ExprCode;
  }

  /** The code of a whole program. */
  function Compiled(prog: seq<Stmt>): seq<VInst> { StmtsCode(prog, Ctx(0, 0, [])).code }

  // ---------- the selector ----------

  lemma ElemsStep(es: seq<Expr>, r: nat, i: nat, n: nat)
    requires i < |es| && r < n
    ensures var a := ExprCode(es[i], n);
            var s, rest := ElemsCode(es[i..], r, i, n), ElemsCode(es[i + 1..], r, i + 1, a.next);
            s.code == a.code + [ArraySet(r, a.reg, i)] + rest.code && s.next == rest.next
  {
    hide ExprCode;
    assert es[i..][0] == es[i] && es[i..][1..] == es[i + 1..];
  }

  lemma ElemsEnd(es: seq<Expr>, r: nat, i: nat, n: nat)
    requires i == |es| && r < n
    ensures ElemsCode(es[i..], r, i, n) == Sel([], r, n)
  {
  }

  function LoopsOf(cond: seq<nat>, end: seq<nat>): (r: seq<Loop>)
    requires |cond| == |end|
    ensures |r| == |cond|
    ensures forall i :: 0 <= i < |cond| ==> r[i] == Loop(cond[i], end[i])
  {
    seq(|cond|, i requires 0 <= i < |cond| => Loop(cond[i], end[i]))
  }

  class Selector {
    var code: seq<VInst>
    var nextReg: nat
    var nextLabel: nat
    const condLabels: array<nat>
    const endLabels: array<nat>
    var loopDepth: nat
    var strings: seq<string>

    ghost predicate StackValid()
      reads this`loopDepth
    {
      && condLabels.Length == MAX_LOOPS && endLabels.Length == MAX_LOOPS && condLabels != endLabels
      && loopDepth <= MAX_LOOPS
    }

    ghost predicate Valid()
      reads this`loopDepth, this`strings
    {
      StackValid() && (forall i, j :: 0 <= i < j < |strings| ==> strings[i] != strings[j])
    }

    /** The loop stack, outermost loop first. */
    ghost function Loops(): (r: seq<Loop>)
      reads this`loopDepth, condLabels, endLabels
      requires StackValid()
      ensures |r| == loopDepth
    {
      LoopsOf(condLabels[..loopDepth], endLabels[..loopDepth])
    }

    ghost function Now(): Ctx
      reads this`nextReg, this`nextLabel, this`loopDepth, condLabels, endLabels
      requires StackValid()
    {
      Ctx(nextReg, nextLabel, Loops())
    }

    constructor ()
      ensures Valid() && fresh(condLabels) && fresh(endLabels)
      ensures code == [] && strings == [] && Now() == Ctx(0, 0, [])
    {
      code, nextReg, nextLabel, loopDepth, strings := [], 0, 0, 0, [];
      condLabels := new nat[MAX_LOOPS];
      endLabels := new nat[MAX_LOOPS];
    }

    method FreshReg() returns (r: nat)
      modifies this`nextReg
      ensures r == old(nextReg) && nextReg == r + 1
    {
      r := nextReg;
      nextReg := nextReg + 1;
    }

    method FreshLabel() returns (l: nat)
      modifies this`nextLabel
      ensures l == old(nextLabel) && nextLabel == l + 1
    {
      l := nextLabel;
      nextLabel := nextLabel + 1;
    }

    method Append(i: VInst)
      modifies this`code
      ensures code == old(code) + [i]
    {
      code := code + [i];
    }

    /** Returns the string's place in the pool, adding it only when it is new. */
    method AddString(s: string) returns (i: nat)
      requires Valid()
      modifies this`strings
      ensures Valid() && i < |strings| && strings[i] == s
      ensures strings == if s in old(strings) then old(strings) else old(strings) + [s]
    {
      i := 0;
      while i < |strings|
        invariant i <= |strings| && forall k :: 0 <= k < i ==> strings[k] != s
      {
        if strings[i] == s { return; }
        i := i + 1;
      }
      strings := strings + [s];
    }

    method SelectExpr(e: Expr) returns (r: nat)
      requires Valid()
      modifies this`code, this`nextReg, this`strings
      ensures Valid()
      ensures var s := ExprCode(e, old(nextReg));
              code == old(code) + s.code && r == s.reg && nextReg == s.next
      decreases e, 1
    {
      hide ExprCode, ElemsCode;
      match e
      case Binary(op, left, right) => r := SelectBinary(op, left, right);
      case Index(base, index) => r := SelectIndex(base, index);
      case Array(es) => r := SelectArray(es); ArraysAlike(es, old(nextReg));
      case Tuple(es) => r := SelectArray(es); ArraysAlike(es, old(nextReg));
      case _ => r := SelectLeaf(e);
    }

    method SelectBinary(op: Op, left: Expr, right: Expr) returns (r: nat)
      requires Valid()
      modifies this`code, this`nextReg, this`strings
      ensures Valid()
      ensures var s := ExprCode(Binary(op, left, right), old(nextReg));
              code == old(code) + s.code && r == s.reg && nextReg == s.next
      decreases Binary(op, left, right), 0
    {
      hide ExprCode;
      NodeCode(Binary(op, left, right), left, right, nextReg);
      var a := SelectExpr(left);
      var b := SelectExpr(right);
      r := FreshReg();
      Append(Arith(Selected(op), r, a, b));
    }

    method SelectIndex(base: Expr, index: Expr) returns (r: nat)
      requires Valid()
      modifies this`code, this`nextReg, this`strings
      ensures Valid()
      ensures var s := ExprCode(Index(base, index), old(nextReg));
              code == old(code) + s.code && r == s.reg && nextReg == s.next
      decreases Index(base, index), 0
    {
      hide ExprCode;
      NodeCode(Index(base, index), base, index, nextReg);
      var a := SelectExpr(base);
      var b := SelectExpr(index);
      r := FreshReg();
      Append(IndexOf(r, a, b));
    }

    method SelectLeaf(e: Expr) returns (r: nat)
      requires !e.Binary? && !e.Index? && !e.Array? && !e.Tuple?
      requires Valid()
      modifies this`code, this`nextReg, this`strings
      ensures Valid()
      ensures var s := ExprCode(e, old(nextReg));
              code == old(code) + s.code && r == s.reg && nextReg == s.next
    {
      hide ElemsCode;
      r := FreshReg();
      if e.Number? {
        Append(LoadImm(r, e.n));
      } else if e.Str? {
        var _ := AddString(e.s);
        Append(LoadString(r, e.s));
      } else if e.Bool? {
        Append(LoadBool(r, e.b));
      } else if e.Variable? {
        var _ := AddString(e.name);
        Append(LoadGlobal(r, e.name));
      } else if e.Nil? || e.Absent? {
        Append(LoadNil(r));
      } else {
        Append(Unmodelled(r));
      }
    }

    method SelectArray(es: seq<Expr>) returns (r: nat)
      requires Valid()
      modifies this`code, this`nextReg, this`strings
      ensures Valid()
      ensures var s := ElemsCode(es, old(nextReg), 0, old(nextReg) + 1);
              code == old(code) + ([ArrayNew(old(nextReg), |es|)] + s.code) && r == old(nextReg) && nextReg == s.next
      decreases es
    {
      hide ExprCode, ElemsCode;
      r := FreshReg();
      Append(ArrayNew(r, |es|));
      var i := 0;
      ghost var all := ElemsCode(es, r, 0, r + 1);
      ghost var done: seq<VInst> := [];
      assert es[0..] == es;
      while i < |es|
        invariant i <= |es| && Valid() && r < nextReg
        invariant code == old(code) + [ArrayNew(r, |es|)] + done
        invariant done + ElemsCode(es[i..], r, i, nextReg).code == all.code
        invariant ElemsCode(es[i..], r, i, nextReg).next == all.next
      {
        ghost var n := nextReg;
        ElemsStep(es, r, i, n);
        var elem := SelectExpr(es[i]);
        Append(ArraySet(r, elem, i));
        done := done + (ExprCode(es[i], n).code + [ArraySet(r, elem, i)]);
        i := i + 1;
      }
      ElemsEnd(es, r, i, nextReg);
    }

    method SelectStmts(ss: seq<Stmt>)
      requires Valid()
      modifies this`code, this`nextReg, this`nextLabel, this`loopDepth, this`strings, condLabels, endLabels
      ensures Valid() && Loops() == old(Loops())
      ensures var o := StmtsCode(ss, old(Now()));
              code == old(code) + o.code && nextReg == o.reg && nextLabel == o.lab
      decreases ss, 0
    {
      hide StmtCode, ExprCode;
      var i := 0;
      ghost var all := StmtsCode(ss, Now());
      ghost var done: seq<VInst> := [];
      assert ss[0..] == ss;
      while i < |ss|
        invariant i <= |ss| && Valid() && Loops() == old(Loops())
        invariant code == old(code) + done
        invariant done + StmtsCode(ss[i..], Now()).code == all.code
        invariant StmtsCode(ss[i..], Now()).reg == all.reg && StmtsCode(ss[i..], Now()).lab == all.lab
      {
        ghost var c := Now();
        assert ss[i..][0] == ss[i] && ss[i..][1..] == ss[i + 1..];
        SelectStmt(ss[i]);
        done := done + StmtCode(ss[i], c).code;
        i := i + 1;
      }
      assert ss[i..] == [];
    }

    method SelectStmt(s: Stmt)
      requires Valid()
      modifies this`code, this`nextReg, this`nextLabel, this`loopDepth, this`strings, condLabels, endLabels
      ensures Valid() && Loops() == old(Loops())
      ensures var o := StmtCode(s, old(Now()));
              code == old(code) + o.code && nextReg == o.reg && nextLabel == o.lab
      decreases s, 1
    {
      hide StmtsCode, ExprCode;
      match s
      case Block(body) => SelectStmts(body);
      case If(e, thn, els) => SelectIf(e, thn, els);
      case While(e, body) => SelectWhile(e, body);
      case For(x, e, body) => SelectFor(x, e, body);
      case _ => SelectSimple(s);
    }

    method SelectSimple(s: Stmt)
      requires !s.Block? && !s.If? && !s.While? && !s.For?
      requires Valid()
      modifies this`code, this`nextReg, this`strings
      ensures Valid() && Loops() == old(Loops())
      ensures var o := StmtCode(s, old(Now()));
              code == old(code) + o.code && nextReg == o.reg && nextLabel == o.lab
    {
      hide ExprCode;
      if s.Print? {
        var r := SelectExpr(s.e);
        Append(PrintReg(r));
      } else if s.ExprStmt? {
        var _ := SelectExpr(s.e);
      } else if s.Let? {
        var r := SelectExpr(s.init);
        var _ := AddString(s.name);
        Append(StoreGlobal(r, s.name));
      } else if s.Return? {
        var r := SelectExpr(s.e);
        Append(Ret(r));
      } else if s.Break? {
        if loopDepth > 0 {
          Append(Jump(endLabels[loopDepth - 1]));
        }
      } else if s.Continue? {
        if loopDepth > 0 {
          Append(Jump(condLabels[loopDepth - 1]));
        }
      } else {
        var r := FreshReg();
        Append(Unmodelled(r));
      }
    }

    method SelectIf(e: Expr, thn: seq<Stmt>, els: seq<Stmt>)
      requires Valid()
      modifies this`code, this`nextReg, this`nextLabel, this`loopDepth, this`strings, condLabels, endLabels
      ensures Valid() && Loops() == old(Loops())
      ensures var o := StmtCode(If(e, thn, els), old(Now()));
              code == old(code) + o.code && nextReg == o.reg && nextLabel == o.lab
      decreases If(e, thn, els), 0
    {
      hide StmtsCode, ExprCode, StmtCode;
      ghost var c, z := Now(), code;
      IfCode(If(e, thn, els), c);
      var cond := SelectExpr(e);
      var thenLabel := FreshLabel();
      var elseLabel := FreshLabel();
      var mergeLabel := FreshLabel();
      Append(Branch(cond, thenLabel, if els != [] then elseLabel else mergeLabel));
      ghost var a := ExprCode(e, c.reg);
      ghost var p := a.code + [Branch(cond, thenLabel, if els == [] then mergeLabel else elseLabel)];
      assert code == z + p;
      ghost var t := StmtsCode(thn, Now());
      SelectBranch(thenLabel, thn, mergeLabel);
      ghost var q := [Label(thenLabel)] + t.code + [Jump(mergeLabel)];
      ghost var f := StmtsCode(els, Now());
      ghost var r := if els == [] then [] else [Label(elseLabel)] + f.code + [Jump(mergeLabel)];
      if els != [] {
        SelectBranch(elseLabel, els, mergeLabel);
      } else {
        NoCode(Now());
        assert ((z + p) + q) + r == (z + p) + q;
      }
      Append(Label(mergeLabel));
      Regroup(z, p, q, r, [Label(mergeLabel)]);
    }

    /** One branch of an `if`: label, statements, jump to the merge point. */
    method SelectBranch(here: nat, ss: seq<Stmt>, merge: nat)
      requires Valid()
      modifies this`code, this`nextReg, this`nextLabel, this`loopDepth, this`strings, condLabels, endLabels
      ensures Valid() && Loops() == old(Loops())
      ensures var o := StmtsCode(ss, old(Now()));
              code == old(code) + ([Label(here)] + o.code + [Jump(merge)]) && nextReg == o.reg && nextLabel == o.lab
      decreases ss, 1
    {
      hide StmtsCode;
      Append(Label(here));
      SelectStmts(ss);
      Append(Jump(merge));
    }

    method SelectWhile(e: Expr, body: seq<Stmt>)
      requires Valid()
      modifies this`code, this`nextReg, this`nextLabel, this`loopDepth, this`strings, condLabels, endLabels
      ensures Valid() && Loops() == old(Loops())
      ensures var o := StmtCode(While(e, body), old(Now()));
              code == old(code) + o.code && nextReg == o.reg && nextLabel == o.lab
      ensures if old(loopDepth) < 64 then Label(old(nextLabel) + 2) in code else code == old(code)
      decreases While(e, body), 0
    {
      hide StmtsCode, ExprCode, StmtCode;
      ghost var c, z := Now(), code;
      if loopDepth >= MAX_LOOPS {
        DeepWhileCode(While(e, body), c);
        return;
      }
      WhileCode(While(e, body), c);
      var condLabel := FreshLabel();
      var bodyLabel := FreshLabel();
      var endLabel := FreshLabel();
      PushLoop(condLabel, endLabel);
      ghost var p := [Jump(condLabel)] + [Label(condLabel)];
      ghost var q := ExprCode(e, c.reg).code + [Branch(ExprCode(e, c.reg).reg, bodyLabel, endLabel)];
      SelectTest(e, condLabel, bodyLabel, endLabel);
      ghost var b := StmtsCode(body, Now());
      SelectStmts(body);
      CloseLoop(condLabel, endLabel);
      RegroupWhile(z, p, q, Label(bodyLabel), b.code, Jump(condLabel), Label(endLabel));
    }

    /** Jump to the condition, test it, and open the body. */
    method SelectTest(e: Expr, condLabel: nat, bodyLabel: nat, endLabel: nat)
      requires Valid()
      modifies this`code, this`nextReg, this`strings
      ensures Valid()
      ensures var a := ExprCode(e, old(nextReg));
              && code == old(code) + ([Jump(condLabel)] + [Label(condLabel)]
                                      + (a.code + [Branch(a.reg, bodyLabel, endLabel)]) + [Label(bodyLabel)])
              && nextReg == a.next
    {
      hide ExprCode;
      ghost var z := code;
      Append(Jump(condLabel));
      Append(Label(condLabel));
      ghost var p := [Jump(condLabel)] + [Label(condLabel)];
      assert code == z + p;
      var cond := SelectExpr(e);
      Append(Branch(cond, bodyLabel, endLabel));
      assert code == (z + p) + (ExprCode(e, old(nextReg)).code + [Branch(cond, bodyLabel, endLabel)]);
      Append(Label(bodyLabel));
    }

    /** Back to the condition; the end label; leave the loop. */
    method CloseLoop(condLabel: nat, endLabel: nat)
      requires Valid() && loopDepth > 0
      modifies this`code, this`loopDepth
      ensures Valid() && Loops() == old(Loops())[..|old(Loops())| - 1]
      ensures code == old(code) + ([Jump(condLabel)] + [Label(endLabel)])
    {
      Append(Jump(condLabel));
      Append(Label(endLabel));
      PopLoop();
    }

    method PushLoop(cond: nat, end: nat)
      requires Valid() && loopDepth < MAX_LOOPS
      modifies this`loopDepth, condLabels, endLabels
      ensures Valid() && Loops() == old(Loops()) + [Loop(cond, end)]
    {
      condLabels[loopDepth] := cond;
      endLabels[loopDepth] := end;
      loopDepth := loopDepth + 1;
    }

    method PopLoop()
      requires Valid() && loopDepth > 0
      modifies this`loopDepth
      ensures Valid() && Loops() == old(Loops())[..|old(Loops())| - 1]
    {
      loopDepth := loopDepth - 1;
    }

    method SelectFor(x: string, e: Expr, body: seq<Stmt>)
      requires Valid()
      modifies this`code, this`nextReg, this`nextLabel, this`loopDepth, this`strings, condLabels, endLabels
      ensures Valid() && Loops() == old(Loops())
      ensures var o := StmtCode(For(x, e, body), old(Now()));
              code == old(code) + o.code && nextReg == o.reg && nextLabel == o.lab
      ensures if old(loopDepth) < 64 then Label(old(nextLabel) + 2) in code else nextLabel == old(nextLabel)
      decreases For(x, e, body), 0
    {
      hide StmtsCode, ExprCode, StmtCode, ForHead, ForTest, ForFetch, ForAdvance;
      ghost var c, z := Now(), code;
      if loopDepth < MAX_LOOPS {
        ForCode(For(x, e, body), c);
        ForCodeParts(For(x, e, body), c);
      } else {
        DeepForCode(For(x, e, body), c);
      }
      var iter := SelectExpr(e);
      var lenReg := ForSetup(iter);
      assert code == z + (ExprCode(e, c.reg).code + ForHead(lenReg, iter));
      if loopDepth >= MAX_LOOPS { return; }
      ForLoop(x, iter, lenReg, body);
    }

    /** The loop proper, inside its entry of the loop stack. */
    method ForLoop(x: string, iter: nat, lenReg: nat, body: seq<Stmt>)
      requires Valid() && loopDepth < MAX_LOOPS && nextReg == lenReg + 2
      modifies this`code, this`nextReg, this`nextLabel, this`loopDepth, this`strings, condLabels, endLabels
      ensures Valid() && Loops() == old(Loops())
      ensures var lab := old(nextLabel);
              var b := StmtsCode(body, Ctx(lenReg + 5, lab + 3, old(Loops()) + [Loop(lab, lab + 2)]));
              && code == old(code)
                 + (ForTest(lenReg, lab) + ForFetch(lenReg, iter, x) + b.code + ForAdvance(lenReg, b.reg, lab))
              && nextReg == b.reg + 2 && nextLabel == b.lab
      ensures Label(old(nextLabel) + 2) in code
      decreases body, 1
    {
      hide StmtsCode, ForTest, ForFetch, ForAdvance;
      ghost var z := code;
      var condLabel := FreshLabel();
      var bodyLabel := FreshLabel();
      var endLabel := FreshLabel();
      PushLoop(condLabel, endLabel);
      ForCheck(lenReg, condLabel, bodyLabel, endLabel);
      ForElement(x, iter, lenReg);
      ghost var q := ForTest(lenReg, condLabel);
      ghost var r := ForFetch(lenReg, iter, x);
      ghost var b := StmtsCode(body, Now());
      SelectStmts(body);
      ForEpilogue(lenReg + 2, condLabel, endLabel);
      PopLoop();
      EndLabel(((z + q) + r) + b.code, lenReg, b.reg, condLabel);
      RegroupFor(z, q, r, b.code, ForAdvance(lenReg, b.reg, condLabel));
    }

    /** Length, initial index and the counter's first store. */
    method ForSetup(iter: nat) returns (lenReg: nat)
      requires Valid()
      modifies this`code, this`nextReg, this`strings
      ensures Valid() && lenReg == old(nextReg) && nextReg == lenReg + 2
      ensures code == old(code) + ForHead(lenReg, iter)
    {
      ghost var c := code;
      lenReg := FreshReg();
      Append(LenCall(lenReg, iter));
      var idxReg := FreshReg();
      Append(LoadZero(idxReg));
      assert code == c + [LenCall(lenReg, iter), LoadZero(idxReg)];
      var _ := AddString(FOR_INDEX);
      Append(StoreGlobal(idxReg, FOR_INDEX));
    }

    /** Test of the counter. */
    method ForCheck(lenReg: nat, condLabel: nat, bodyLabel: nat, endLabel: nat)
      requires Valid() && nextReg == lenReg + 2 && bodyLabel == condLabel + 1 && endLabel == condLabel + 2
      modifies this`code, this`nextReg, this`strings
      ensures Valid() && nextReg == lenReg + 4
      ensures code == old(code) + ForTest(lenReg, condLabel)
    {
      ghost var c := code;
      Append(Jump(condLabel));
      Append(Label(condLabel));
      var curIdx := FreshReg();
      var _ := AddString(FOR_INDEX);
      Append(LoadGlobal(curIdx, FOR_INDEX));
      assert code == c + ForTest(lenReg, condLabel)[..3];
      var cmp := FreshReg();
      Append(Arith(Lt, cmp, curIdx, lenReg));
      Append(Branch(cmp, bodyLabel, endLabel));
      Append(Label(bodyLabel));
    }

    /** Fetch of the element. */
    method ForElement(x: string, iter: nat, lenReg: nat)
      requires Valid() && nextReg == lenReg + 4
      modifies this`code, this`nextReg, this`strings
      ensures Valid() && nextReg == lenReg + 5
      ensures code == old(code) + ForFetch(lenReg, iter, x)
    {
      var elem := FreshReg();
      Append(IndexOf(elem, iter, lenReg + 2));
      var _ := AddString(x);
      Append(StoreGlobal(elem, x));
    }

    /** Advance of the counter and jump back. */
    method ForEpilogue(curIdx: nat, condLabel: nat, endLabel: nat)
      requires Valid() && curIdx >= 2 && endLabel == condLabel + 2
      modifies this`code, this`nextReg, this`strings
      ensures Valid() && nextReg == old(nextReg) + 2
      ensures code == old(code) + ForAdvance(curIdx - 2, old(nextReg), condLabel)
    {
      ghost var c := code;
      var oneReg := FreshReg();
      Append(LoadOne(oneReg));
      var nextIdx := FreshReg();
      Append(Arith(Add, nextIdx, curIdx, oneReg));
      assert code == c + ForAdvance(curIdx - 2, oneReg, condLabel)[..2];
      var _ := AddString(FOR_INDEX);
      Append(StoreGlobal(nextIdx, FOR_INDEX));
      Append(Jump(condLabel));
      Append(Label(endLabel));
    }
  }

  /** isel_compile after parsing: select the whole program from a new context. */
  method CompileProgram(prog: seq<Stmt>) returns (code: seq<VInst>, strings: seq<string>)
    ensures code == Compiled(prog)
    ensures forall i, j | 0 <= i < j < |strings| :: strings[i] != strings[j]
  {
    hide StmtsCode;
    var selector := new Selector();
    selector.SelectStmts(prog);
    code, strings := selector.code, selector.strings;
  }

  lemma Regroup(z: seq<VInst>, p: seq<VInst>, q: seq<VInst>, r: seq<VInst>, last: seq<VInst>)
    ensures (((z + p) + q) + r) + last == z + (p + (q + r + last))
  {
  }

  lemma RegroupWhile(z: seq<VInst>, p: seq<VInst>, q: seq<VInst>, i: VInst, b: seq<VInst>, j: VInst, k: VInst)
    ensures ((z + (p + q + [i])) + b) + ([j] + [k]) == z + (p + q + [i] + b + [j] + [k])
  {
  }

  lemma EndLabel(z: seq<VInst>, n: nat, r: nat, lab: nat)
    ensures Label(lab + 2) in z + ForAdvance(n, r, lab)
  {
    assert ForAdvance(n, r, lab)[4] == Label(lab + 2);
  }

  lemma RegroupFor(z: seq<VInst>, q: seq<VInst>, r: seq<VInst>, b: seq<VInst>, a: seq<VInst>)
    ensures (((z + q) + r) + b) + a == z + (q + r + b + a)
  {
  }

  lemma NoCode(c: Ctx)
    ensures StmtsCode([], c) == Out([], c.reg, c.lab)
  {
  }
}
