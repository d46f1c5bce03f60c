// Every label is defined once: selected code uses only labels taken from its own
// range of the label counter.
module IselLabels {
  import opened Ast
  import opened VirtualMachine
  import opened Isel

  function Ids(code: seq<VInst>): set<nat> {
    set i | 0 <= i < |code| && code[i].Label? :: code[i].id
  }

  /** `code` defines each of its labels once, all from `lo` up to before `hi`. */
  ghost predicate Labelled(code: seq<VInst>, lo: nat, hi: nat) {
    UniqueLabels(code) && forall l | l in Ids(code) :: lo <= l < hi
  }

  lemma Concat(a: seq<VInst>, b: seq<VInst>)
    ensures Ids(a + b) == Ids(a) + Ids(b)
    ensures UniqueLabels(a) && UniqueLabels(b) && Ids(a) !! Ids(b) ==> UniqueLabels(a + b)
  {
    var c := a + b;
    forall l | l in Ids(a) + Ids(b)
      ensures l in Ids(c)
    {
      if l in Ids(a) {
        var i :| 0 <= i < |a| && a[i].Label? && a[i].id == l;
        assert c[i] == a[i];
      } else {
        var i :| 0 <= i < |b| && b[i].Label? && b[i].id == l;
        assert c[|a| + i] == b[i];
      }
    }
    if UniqueLabels(a) && UniqueLabels(b) && Ids(a) !! Ids(b) {
      forall i, j | 0 <= i < j < |c| && c[i].Label? && c[j].Label?
        ensures c[i].id != c[j].id
      {
        if i < |a| && j >= |a| {
          assert c[i].id in Ids(a) && c[j].id in Ids(b);
        }
      }
    }
  }

  lemma Silent(code: seq<VInst>)
    requires forall i | 0 <= i < |code| :: !code[i].Label?
    ensures Ids(code) == {} && UniqueLabels(code)
  {
  }

  lemma {:induction false} ExprSilent(e: Expr, r: nat)
    ensures Ids(ExprCode(e, r).code) == {} && UniqueLabels(ExprCode(e, r).code)
    decreases e
  {
    match e
    case Binary(op, x, y) =>
      var a := ExprCode(x, r);
      var b := ExprCode(y, a.next);
      TwoSilent(e, x, y, r, [Arith(Selected(op), b.next, a.reg, b.reg)]);
    case Index(x, y) =>
      var a := ExprCode(x, r);
      var b := ExprCode(y, a.next);
      TwoSilent(e, x, y, r, [IndexOf(b.next, a.reg, b.reg)]);
    case Array(es) =>
      ElemsSilent(es, r, 0, r + 1);
      Concat([ArrayNew(r, |es|)], ElemsCode(es, r, 0, r + 1).code);
      Silent([ArrayNew(r, |es|)]);
    case Tuple(es) =>
      ElemsSilent(es, r, 0, r + 1);
      Concat([ArrayNew(r, |es|)], ElemsCode(es, r, 0, r + 1).code);
      Silent([ArrayNew(r, |es|)]);
    case _ => Silent(ExprCode(e, r).code);
  }

  lemma {:induction false} TwoSilent(e: Expr, x: Expr, y: Expr, r: nat, last: seq<VInst>)
    requires x < e && y < e && forall i | 0 <= i < |last| :: !last[i].Label?
    ensures var a := ExprCode(x, r); var b := ExprCode(y, a.next);
            Ids(a.code + b.code + last) == {} && UniqueLabels(a.code + b.code + last)
    decreases e, 0
  {
    hide ExprCode;
    var a := ExprCode(x, r);
    var b := ExprCode(y, a.next);
    ExprSilent(x, r);
    ExprSilent(y, a.next);
    Silent(last);
    Concat(a.code, b.code);
    Concat(a.code + b.code, last);
  }

  lemma {:induction false} ElemsSilent(es: seq<Expr>, arr: nat, i: nat, r: nat)
    requires arr < r
    ensures var c := ElemsCode(es, arr, i, r).code; Ids(c) == {} && UniqueLabels(c)
    decreases es
  {
    hide ExprCode;
    if es != [] {
      var a := ExprCode(es[0], r);
      var set1 := [ArraySet(arr, a.reg, i)];
      ExprSilent(es[0], r);
      ElemsSilent(es[1..], arr, i + 1, a.next);
      Silent(set1);
      Concat(a.code, set1);
      Concat(a.code + set1, ElemsCode(es[1..], arr, i + 1, a.next).code);
    }
  }

  lemma {:induction false} StmtsLabelled(ss: seq<Stmt>, c: Ctx)
    ensures Labelled(StmtsCode(ss, c).code, c.lab, StmtsCode(ss, c).lab)
    decreases ss
  {
    hide StmtCode;
    if ss != [] {
      var a := StmtCode(ss[0], c);
      var c2 := c.(reg := a.reg, lab := a.lab);
      StmtLabelled(ss[0], c);
      StmtsLabelled(ss[1..], c2);
      Concat(a.code, StmtsCode(ss[1..], c2).code);
    }
  }

  lemma {:induction false} StmtLabelled(s: Stmt, c: Ctx)
    ensures Labelled(StmtCode(s, c).code, c.lab, StmtCode(s, c).lab)
    decreases s, 1
  {
    hide ExprCode, StmtsCode, Ids, UniqueLabels;
    match s
    case Block(body) => StmtsLabelled(body, c);
    case If(_, _, _) => IfLabelled(s, c);
    case While(_, _) =>
      if |c.loops| < MAX_LOOPS { WhileLabelled(s, c); } else { Silent([]); }
    case For(_, _, _) => ForLabelled(s, c);
    case Print(e) => Plain(e, c.reg, [PrintReg(ExprCode(e, c.reg).reg)]);
    case ExprStmt(e) => ExprSilent(e, c.reg);
    case Let(x, e) => Plain(e, c.reg, [StoreGlobal(ExprCode(e, c.reg).reg, x)]);
    case Return(e) => Plain(e, c.reg, [Ret(ExprCode(e, c.reg).reg)]);
    case _ => Silent(StmtCode(s, c).code);
  }

  lemma Plain(e: Expr, r: nat, last: seq<VInst>)
    requires forall i | 0 <= i < |last| :: !last[i].Label?
    ensures Ids(ExprCode(e, r).code + last) == {} && UniqueLabels(ExprCode(e, r).code + last)
  {
    hide ExprCode;
    ExprSilent(e, r);
    Silent(last);
    Concat(ExprCode(e, r).code, last);
  }

  lemma One(l: nat)
    ensures Ids([Label(l)]) == {l} && UniqueLabels([Label(l)])
  {
    assert [Label(l)][0].id in Ids([Label(l)]);
  }

  lemma IfLabelled(s: Stmt, c: Ctx)
    requires s.If?
    ensures Labelled(StmtCode(s, c).code, c.lab, StmtCode(s, c).lab)
    decreases s, 0
  {
    hide ExprCode, StmtsCode, Ids, UniqueLabels;
    var e := ExprCode(s.cond, c.reg);
    var t := StmtsCode(s.thn, Ctx(e.next, c.lab + 3, c.loops));
    var f := StmtsCode(s.els, Ctx(t.reg, t.lab, c.loops));
    var br := [Branch(e.reg, c.lab, if s.els == [] then c.lab + 2 else c.lab + 1)];
    var jump := [Jump(c.lab + 2)];
    var tail := if s.els == [] then [] else [Label(c.lab + 1)] + f.code + jump;
    StmtsLabelled(s.thn, Ctx(e.next, c.lab + 3, c.loops));
    StmtsLabelled(s.els, Ctx(t.reg, t.lab, c.loops));
    Plain(s.cond, c.reg, br);
    One(c.lab); One(c.lab + 1); One(c.lab + 2);
    Silent(jump);
    Silent([]);
    Concat([Label(c.lab)], t.code);
    Concat([Label(c.lab)] + t.code, jump);
    Concat([Label(c.lab + 1)], f.code);
    Concat([Label(c.lab + 1)] + f.code, jump);
    Concat([Label(c.lab)] + t.code + jump, tail);
    Concat([Label(c.lab)] + t.code + jump + tail, [Label(c.lab + 2)]);
    Concat(e.code + br, [Label(c.lab)] + t.code + jump + tail + [Label(c.lab + 2)]);
  }

  lemma WhileLabelled(s: Stmt, c: Ctx)
    requires s.While? && |c.loops| < MAX_LOOPS
    ensures Labelled(StmtCode(s, c).code, c.lab, StmtCode(s, c).lab)
    decreases s, 0
  {
    hide ExprCode, StmtsCode, Ids, UniqueLabels;
    var e := ExprCode(s.cond, c.reg);
    var c2 := Ctx(e.next, c.lab + 3, c.loops + [Loop(c.lab, c.lab + 2)]);
    var b := StmtsCode(s.body, c2);
    var jump := [Jump(c.lab)];
    var br := [Branch(e.reg, c.lab + 1, c.lab + 2)];
    StmtsLabelled(s.body, c2);
    Plain(s.cond, c.reg, br);
    One(c.lab); One(c.lab + 1); One(c.lab + 2);
    Silent(jump);
    var c1 := jump + [Label(c.lab)];
    Concat(jump, [Label(c.lab)]);
    Concat(c1, e.code + br);
    Concat(c1 + (e.code + br), [Label(c.lab + 1)]);
    Concat(c1 + (e.code + br) + [Label(c.lab + 1)], b.code);
    Concat(c1 + (e.code + br) + [Label(c.lab + 1)] + b.code, jump);
    Concat(c1 + (e.code + br) + [Label(c.lab + 1)] + b.code + jump, [Label(c.lab + 2)]);
  }

  lemma ForLabelled(s: Stmt, c: Ctx)
    requires s.For?
    ensures Labelled(StmtCode(s, c).code, c.lab, StmtCode(s, c).lab)
    decreases s, 0
  {
    hide ExprCode, StmtsCode, Ids, UniqueLabels;
    var e := ExprCode(s.iterable, c.reg);
    var n := e.next;
    Plain(s.iterable, c.reg, ForHead(n, e.reg));
    if |c.loops| < MAX_LOOPS {
      var c2 := Ctx(n + 5, c.lab + 3, c.loops + [Loop(c.lab, c.lab + 2)]);
      var b := StmtsCode(s.body, c2);
      StmtsLabelled(s.body, c2);
      FramesLabelled(n, b.reg, c.lab);
      Silent(ForFetch(n, e.reg, s.variable));
      var c1 := e.code + ForHead(n, e.reg);
      var c3 := c1 + ForTest(n, c.lab) + ForFetch(n, e.reg, s.variable);
      Concat(c1, ForTest(n, c.lab));
      Concat(c1 + ForTest(n, c.lab), ForFetch(n, e.reg, s.variable));
      Concat(c3, b.code);
      Concat(c3 + b.code, ForAdvance(n, b.reg, c.lab));
    }
  }

  lemma FramesLabelled(n: nat, r: nat, lab: nat)
    ensures Ids(ForTest(n, lab)) == {lab, lab + 1} && UniqueLabels(ForTest(n, lab))
    ensures Ids(ForAdvance(n, r, lab)) == {lab + 2} && UniqueLabels(ForAdvance(n, r, lab))
  {
    var t := ForTest(n, lab);
    assert t[1].id in Ids(t) && t[5].id in Ids(t);
    var z := ForAdvance(n, r, lab);
    assert z[4].id in Ids(z);
  }

  lemma CompiledLabels(prog: seq<Stmt>)
    ensures UniqueLabels(Compiled(prog))
  {
    StmtsLabelled(prog, Ctx(0, 0, []));
  }
}
