// The code selected for an expression computes the expression's value.
module IselExpr {
  import opened Common
  import opened Ast
  import opened Values
  import opened VirtualMachine
  import opened Isel
  import opened FlatSemantics

  /** `code` sits in the program from address `a` on. */
  predicate Embedded(p: seq<VInst>, a: nat, code: seq<VInst>) {
    a + |code| <= |p| && p[a..a + |code|] == code
  }

  lemma EmbeddedSplit(p: seq<VInst>, a: nat, c: seq<VInst>, d: seq<VInst>)
    requires Embedded(p, a, c + d)
    ensures Embedded(p, a, c) && Embedded(p, a + |c|, d)
  {
    assert p[a..a + |c|] == (c + d)[..|c|];
    assert p[a + |c|..a + |c| + |d|] == (c + d)[|c|..];
  }

  lemma EmbeddedAt(p: seq<VInst>, a: nat, c: seq<VInst>, i: nat)
    requires Embedded(p, a, c) && i < |c|
    ensures p[a + i] == c[i]
  {
    assert p[a..a + |c|][i] == c[i];
  }

  /** The later register file keeps every register below `n`. */
  predicate Agree(r: map<nat, Value>, r': map<nat, Value>, n: nat) {
    forall k | k in r && k < n :: k in r' && r'[k] == r[k]
  }

  /** The globals of the source program: all but the loop counter. */
  function Hide(g: Globals): Globals { g - {"__for_idx__"} }

  /** The expressions the selector lowers completely. */
  predicate Supported(e: Expr)
    decreases e
  {
    match e
    case Variable(x) => x != "__for_idx__"
    case Binary(op, left, right) => !op.Not? && !op.OtherOp? && Supported(left) && Supported(right)
    case Index(base, index) => Supported(base) && Supported(index)
    case Array(es) => forall x | x in es :: Supported(x)
    case Tuple(es) => forall x | x in es :: Supported(x)
    case _ => e.Absent? || e.Nil? || e.Number? || e.Str? || e.Bool?
  }

  /** From `m` the machine has come to `pc` having only written registers from
      `keep` on. */
  predicate Arrived(m: Machine, m': Machine, pc: nat, keep: nat)
    requires m.At?
  {
    m'.At? && m'.pc == pc && m'.globals == m.globals && m'.out == m.out && Agree(m.regs, m'.regs, keep)
  }

  /** Running `code` of an expression leaves its value in `reg`, or stops the
      machine when the expression fails. */
  ghost predicate Computes(h: Host, p: seq<VInst>, m: Machine, n: nat, keep: nat, reg: nat, v: Option<Value>)
    requires m.At?
  {
    var m' := Steps(h, p, n, m);
    if v.None? then m' == Stuck
    else Arrived(m, m', m.pc + n, keep) && reg in m'.regs && m'.regs[reg] == v.value
  }

  lemma StuckStays(h: Host, p: seq<VInst>, n: nat, k: nat, m: Machine)
    requires Steps(h, p, n, m) == Stuck
    ensures Steps(h, p, n + k, m) == Stuck
  {
    StepsAdd(h, p, n, k, m);
    FinalStays(h, p, k, Stuck);
  }

  /** After `n` steps the machine stands before `i`; one more step performs it. */
  lemma Advance(h: Host, p: seq<VInst>, n: nat, m: Machine, i: VInst)
    requires var m' := Steps(h, p, n, m); m'.At? && Embedded(p, m'.pc, [i])
    ensures Steps(h, p, n + 1, m) == Perform(h, p, i, Steps(h, p, n, m))
  {
    var m' := Steps(h, p, n, m);
    StepsAdd(h, p, n, 1, m);
    assert Steps(h, p, 1, m') == Steps(h, p, 0, Step(h, p, m'));
    EmbeddedAt(p, m'.pc, [i], 0);
  }

  /** A computation into `reg` followed by one into `reg2`: both results stand. */
  lemma Both(h: Host, p: seq<VInst>, m: Machine, n: nat, keep: nat, reg: nat, v: Option<Value>,
             n2: nat, keep2: nat, reg2: nat, w: Option<Value>)
    requires m.At? && Computes(h, p, m, n, keep, reg, v) && keep <= keep2 && reg < keep2
    requires v.Some? ==> Computes(h, p, Steps(h, p, n, m), n2, keep2, reg2, w)
    ensures v.None? || w.None? ==> Steps(h, p, n + n2, m) == Stuck
    ensures v.Some? && w.Some? ==>
              var m' := Steps(h, p, n + n2, m);
              && Arrived(m, m', m.pc + n + n2, keep)
              && reg in m'.regs && m'.regs[reg] == v.value
              && reg2 in m'.regs && m'.regs[reg2] == w.value
  {
    if v.None? {
      StuckStays(h, p, n, n2, m);
    } else {
      StepsAdd(h, p, n, n2, m);
    }
  }

  /** Two operands and the instruction that combines them. */
  lemma Combine(h: Host, p: seq<VInst>, m: Machine, n: nat, keep: nat, reg: nat, v: Option<Value>,
                n2: nat, keep2: nat, reg2: nat, w: Option<Value>, i: VInst, u: Option<Value>)
    requires m.At? && Computes(h, p, m, n, keep, reg, v) && keep <= keep2 && reg < keep2
    requires v.Some? ==> Computes(h, p, Steps(h, p, n, m), n2, keep2, reg2, w)
    requires Embedded(p, m.pc + n + n2, [i])
    requires || (i.Arith? && i.src1 == reg && i.src2 == reg2 && keep2 <= i.dest)
             || (i.IndexOf? && i.arr == reg && i.idx == reg2 && keep2 <= i.dest)
    requires u == if v.None? || w.None? then None
                  else if i.Arith? then Operate(h, i.op, v.value, w.value)
                  else IndexValue(h, v.value, w.value)
    ensures Computes(h, p, m, n + n2 + 1, keep, i.dest, u)
  {
    hide Steps, IndexValue, Operate;
    Both(h, p, m, n, keep, reg, v, n2, keep2, reg2, w);
    if v.None? || w.None? {
      StuckStays(h, p, n + n2, 1, m);
    } else {
      Advance(h, p, n + n2, m, i);
    }
  }

  /** The statement of correctness for one expression. */
  ghost predicate Correct(h: Host, p: seq<VInst>, e: Expr, r: nat, m: Machine)
    requires m.At?
  {
    Computes(h, p, m, |ExprCode(e, r).code|, r, ExprCode(e, r).reg, Eval(h, Hide(m.globals), e))
  }

  lemma {:induction false} ExprCorrect(h: Host, p: seq<VInst>, e: Expr, r: nat, m: Machine)
    requires Supported(e) && m.At? && Embedded(p, m.pc, ExprCode(e, r).code)
    ensures Correct(h, p, e, r, m)
    decreases e, 1
  {
    hide Steps, Perform;
    match e
    case Binary(op, left, right) => NodeCorrect(h, p, e, left, right, r, m);
    case Index(base, index) => NodeCorrect(h, p, e, base, index, r, m);
    case Array(es) => ArrayCorrect(h, p, es, r, m);
    case Tuple(es) => ArrayCorrect(h, p, es, r, m);
    case _ => LeafCorrect(h, p, e, r, m);
  }

  lemma LeafCorrect(h: Host, p: seq<VInst>, e: Expr, r: nat, m: Machine)
    requires Supported(e) && m.At? && Embedded(p, m.pc, ExprCode(e, r).code)
    requires !e.Binary? && !e.Index? && !e.Array? && !e.Tuple?
    ensures Correct(h, p, e, r, m)
  {
    Advance(h, p, 0, m, ExprCode(e, r).code[0]);
  }

  /** One unfolding of the lowering and of the meaning of a two-operand node. */
  lemma Unfold(h: Host, g: Globals, e: Expr, x: Expr, y: Expr, r: nat)
    requires Supported(e)
    requires (e.Binary? && e.left == x && e.right == y) || (e.Index? && e.base == x && e.index == y)
    ensures Supported(x) && Supported(y)
    ensures var a := ExprCode(x, r); var b := ExprCode(y, a.next);
            ExprCode(e, r) == Sel(a.code + b.code + [Node(e, a.reg, b.reg, b.next)], b.next, b.next + 1)
    ensures Eval(h, g, e) == NodeValue(h, e, Eval(h, g, x), Eval(h, g, y))
    ensures e.Binary? ==> Selected(e.op) == e.op
  {
    hide ExprCode;
    NodeCode(e, x, y, r);
  }

  function NodeValue(h: Host, e: Expr, v: Option<Value>, w: Option<Value>): Option<Value> {
    if v.None? || w.None? then None
    else if e.Binary? then Operate(h, e.op, v.value, w.value)
    else IndexValue(h, v.value, w.value)
  }

  lemma {:induction false} NodeCorrect(h: Host, p: seq<VInst>, e: Expr, x: Expr, y: Expr, r: nat, m: Machine)
    requires Supported(e) && m.At? && Embedded(p, m.pc, ExprCode(e, r).code)
    requires (e.Binary? && e.left == x && e.right == y) || (e.Index? && e.base == x && e.index == y)
    ensures Correct(h, p, e, r, m)
    decreases e, 0
  {
    hide ExprCode, Eval, Supported, Steps, Perform, Operate, IndexValue;
    Unfold(h, Hide(m.globals), e, x, y, r);
    var a := ExprCode(x, r);
    var b := ExprCode(y, a.next);
    var v, w := Eval(h, Hide(m.globals), x), Eval(h, Hide(m.globals), y);
    var i := Node(e, a.reg, b.reg, b.next);
    TwoOperands(h, p, e, x, y, i, r, m);
    Combine(h, p, m, |a.code|, r, a.reg, v, |b.code|, a.next, b.reg, w, i, NodeValue(h, e, v, w));
  }

  lemma {:induction false} TwoOperands(h: Host, p: seq<VInst>, e: Expr, x: Expr, y: Expr, i: VInst, r: nat, m: Machine)
    requires x < e && y < e && Supported(x) && Supported(y) && m.At?
    requires Embedded(p, m.pc, ExprCode(x, r).code + ExprCode(y, ExprCode(x, r).next).code + [i])
    ensures var a := ExprCode(x, r); var b := ExprCode(y, a.next);
            && Correct(h, p, x, r, m)
            && Embedded(p, m.pc + |a.code| + |b.code|, [i])
            && (Eval(h, Hide(m.globals), x).Some? ==>
                  Computes(h, p, Steps(h, p, |a.code|, m), |b.code|, a.next, b.reg, Eval(h, Hide(m.globals), y)))
    decreases e, -1
  {
    hide Eval, ExprCode, Steps, Perform;
    var a := ExprCode(x, r);
    var b := ExprCode(y, a.next);
    EmbeddedSplit(p, m.pc, a.code + b.code, [i]);
    EmbeddedSplit(p, m.pc, a.code, b.code);
    ExprCorrect(h, p, x, r, m);
    if Eval(h, Hide(m.globals), x).Some? {
      ExprCorrect(h, p, y, a.next, Steps(h, p, |a.code|, m));
    }
  }

  lemma {:induction false} ArrayCorrect(h: Host, p: seq<VInst>, es: seq<Expr>, r: nat, m: Machine)
    requires (forall x | x in es :: Supported(x)) && m.At?
    requires Embedded(p, m.pc, [ArrayNew(r, |es|)] + ElemsCode(es, r, 0, r + 1).code)
    ensures var vs := EvalAll(h, Hide(m.globals), es);
            Computes(h, p, m, 1 + |ElemsCode(es, r, 0, r + 1).code|, r, r,
                     if vs.None? then None else Some(ArrV(vs.value)))
    decreases es, 2
  {
    hide Eval, EvalAll, ElemsCode, ExprCode;
    var c := ElemsCode(es, r, 0, r + 1).code;
    EmbeddedSplit(p, m.pc, [ArrayNew(r, |es|)], c);
    Advance(h, p, 0, m, ArrayNew(r, |es|));
    var m1 := Steps(h, p, 1, m);
    var vs0 := seq(|es|, _ => NilV);
    ElemsCorrect(h, p, es, r, 0, r + 1, m1, vs0);
    StepsAdd(h, p, 1, |c|, m);
    var vs := EvalAll(h, Hide(m.globals), es);
    if vs.Some? {
      assert vs0[..0] + vs.value == vs.value;
    }
  }

  /** The elements fill the array from index `i` on. */
  lemma {:induction false} ElemsCorrect(h: Host, p: seq<VInst>, es: seq<Expr>, arr: nat, i: nat, r: nat,
                                        m: Machine, vs0: seq<Value>)
    requires (forall x | x in es :: Supported(x)) && m.At? && arr < r
    requires Embedded(p, m.pc, ElemsCode(es, arr, i, r).code)
    requires arr in m.regs && m.regs[arr] == ArrV(vs0) && |vs0| == i + |es|
    ensures var vs := EvalAll(h, Hide(m.globals), es);
            Computes(h, p, m, |ElemsCode(es, arr, i, r).code|, arr, arr,
                     if vs.None? then None else Some(ArrV(vs0[..i] + vs.value)))
    decreases es, 1
  {
    hide Embedded, Supported, Eval, ExprCode, Steps, Perform;
    if es == [] {
      ElemsNone(h, p, arr, i, r, m, vs0);
    } else {
      var a := ExprCode(es[0], r);
      var rest := ElemsCode(es[1..], arr, i + 1, a.next).code;
      var n, k := |a.code| + 1, |rest|;
      EmbeddedSplit(p, m.pc, a.code + [ArraySet(arr, a.reg, i)], rest);
      OneElem(h, p, es[0], arr, i, r, m, vs0);
      var v := Eval(h, Hide(m.globals), es[0]);
      var vs := EvalAll(h, Hide(m.globals), es[1..]);
      if v.Some? {
        ElemsCorrect(h, p, es[1..], arr, i + 1, a.next, Steps(h, p, n, m), vs0[i := v.value]);
        if vs.Some? {
          FillStep(vs0, i, v.value, vs.value);
        }
      }
      Sequel(h, p, m, n, arr, v.Some?, if v.None? then None else Some(ArrV(vs0[i := v.value])), k,
             if v.None? || vs.None? then None else Some(ArrV(vs0[..i] + ([v.value] + vs.value))));
    }
  }

  lemma ElemsNone(h: Host, p: seq<VInst>, arr: nat, i: nat, r: nat, m: Machine, vs0: seq<Value>)
    requires m.At? && arr < r && arr in m.regs && m.regs[arr] == ArrV(vs0) && |vs0| == i
    ensures EvalAll(h, Hide(m.globals), []) == Some([])
    ensures Computes(h, p, m, |ElemsCode([], arr, i, r).code|, arr, arr, Some(ArrV(vs0[..i] + [])))
  {
    hide Eval, ExprCode, Perform;
    FillEnd(vs0, i);
  }

  lemma FillStep(vs0: seq<Value>, i: nat, v: Value, vs: seq<Value>)
    requires i < |vs0|
    ensures vs0[i := v][..i + 1] + vs == vs0[..i] + ([v] + vs)
  {
  }

  lemma FillEnd(vs0: seq<Value>, i: nat)
    requires i == |vs0|
    ensures vs0[..i] + [] == vs0
  {
  }

  /** Two computations into the same register, the second continuing the first. */
  lemma Sequel(h: Host, p: seq<VInst>, m: Machine, n: nat, reg: nat, ok: bool, v: Option<Value>, k: nat,
               w: Option<Value>)
    requires m.At? && ok == v.Some? && Computes(h, p, m, n, reg, reg, v) && (!ok ==> w.None?)
    requires ok ==> Computes(h, p, Steps(h, p, n, m), k, reg, reg, w)
    ensures Computes(h, p, m, n + k, reg, reg, w)
  {
    if ok {
      StepsAdd(h, p, n, k, m);
    } else {
      StuckStays(h, p, n, k, m);
    }
  }

  lemma {:induction false} OneElem(h: Host, p: seq<VInst>, e: Expr, arr: nat, i: nat, r: nat, m: Machine,
                                   vs0: seq<Value>)
    requires Supported(e) && m.At? && arr < r
    requires Embedded(p, m.pc, ExprCode(e, r).code + [ArraySet(arr, ExprCode(e, r).reg, i)])
    requires arr in m.regs && m.regs[arr] == ArrV(vs0) && i < |vs0|
    ensures var v := Eval(h, Hide(m.globals), e);
            Computes(h, p, m, |ExprCode(e, r).code| + 1, arr, arr,
                     if v.None? then None else Some(ArrV(vs0[i := v.value])))
    decreases e, 2
  {
    hide Eval, ExprCode, Steps;
    var a := ExprCode(e, r);
    var n := |a.code|;
    EmbeddedSplit(p, m.pc, a.code, [ArraySet(arr, a.reg, i)]);
    ExprCorrect(h, p, e, r, m);
    if Eval(h, Hide(m.globals), e).None? {
      StuckStays(h, p, n, 1, m);
    } else {
      Advance(h, p, n, m, ArraySet(arr, a.reg, i));
    }
  }
}
