// Dead code elimination (src/dce.c).
module Dce {
  import opened Ast
  import opened Semantics
  import opened Effects

  // ---------- which names are read ----------

  /** The names an expression reads, as far as the pass looks. */
  function UsedExpr(e: Expr): set<string>
    decreases e, 1
  {
    match e
    case Variable(x) => {x}
    case Binary(_, left, right) => UsedExpr(left) + UsedExpr(right)
    case Call(callee, args) => UsedExpr(callee) + UsedExprs(args)
    case Array(es) => UsedExprs(es)
    case Index(base, index) => UsedExpr(base) + UsedExpr(index)
    case IndexSet(base, index, value) => UsedExpr(base) + UsedExpr(index) + UsedExpr(value)
    case Dict(_, values) => UsedExprs(values)
    case Tuple(es) => UsedExprs(es)
    case Slice(base, start, end) => UsedExpr(base) + UsedExpr(start) + UsedExpr(end)
    case Get(obj, _) => UsedExpr(obj)
    case Set(obj, _, value) => UsedExpr(obj) + UsedExpr(value)
    case _ => {}
  }

  function UsedExprs(es: seq<Expr>): set<string>
    decreases es, 0
  {
    if es == [] then {} else UsedExpr(es[0]) + UsedExprs(es[1..])
  }

  function UsedStmt(s: Stmt): set<string>
    decreases s, 1
  {
    match s
    case Print(e) => UsedExpr(e)
    case ExprStmt(e) => UsedExpr(e)
    case Let(_, e) => UsedExpr(e)
    case If(e, thn, els) => UsedExpr(e) + UsedList(thn) + UsedList(els)
    case Block(body) => UsedList(body)
    case While(e, body) => UsedExpr(e) + UsedList(body)
    case Proc(_, _, body) => UsedList(body)
    case For(_, e, body) => UsedExpr(e) + UsedList(body)
    case Return(e) => UsedExpr(e)
    case Class(_, _, methods) => UsedList(methods)
    case Match(e, cases, default) => UsedExpr(e) + UsedCases(cases) + UsedList(default)
    case Try(block, handlers, final) => UsedList(block) + UsedHandlers(handlers) + UsedList(final)
    case Raise(e) => UsedExpr(e)
    case Yield(e) => UsedExpr(e)
    case Defer(body) => UsedList(body)
    case _ => {}
  }

  function UsedList(ss: seq<Stmt>): set<string>
    decreases ss, 0
  {
    if ss == [] then {} else UsedStmt(ss[0]) + UsedList(ss[1..])
  }

  function UsedCases(cs: seq<Case>): set<string>
    decreases cs, 0
  {
    if cs == [] then {} else UsedExpr(cs[0].pattern) + UsedList(cs[0].body) + UsedCases(cs[1..])
  }

  function UsedHandlers(hs: seq<Handler>): set<string>
    decreases hs, 0
  {
    if hs == [] then {} else UsedList(hs[0].body) + UsedHandlers(hs[1..])
  }

  // ---------- what is dropped ----------

  /** The pass's test for effects; it does not look inside dicts, tuples, slices, property
      reads and interpolated strings, among others. */
  predicate HasSideEffects(e: Expr)
    decreases e
  {
    match e
    case Call(_, _) => true
    case Set(_, _, _) => true
    case Await(_) => true
    case Binary(_, left, right) => HasSideEffects(left) || HasSideEffects(right)
    case Index(base, index) => HasSideEffects(base) || HasSideEffects(index)
    case IndexSet(_, _, _) => true
    case Array(es) => exists i | 0 <= i < |es| :: HasSideEffects(es[i])
    case _ => false
  }

  predicate IsTerminator(s: Stmt) { s.Return? || s.Break? || s.Continue? }

  predicate Keep(used: set<string>, s: Stmt) {
    match s
    case Let(x, e) => x in used || HasSideEffects(e)
    case Proc(name, _, _) => name in used
    case _ => true
  }

  // ---------- the transformation ----------

  function DceStmt(used: set<string>, s: Stmt): Stmt
    decreases s, 1
  {
    match s
    case If(e, thn, els) => If(e, DceList(used, thn), DceList(used, els))
    case Block(body) => Block(DceList(used, body))
    case While(e, body) => While(e, DceList(used, body))
    case Proc(name, sig, body) => Proc(name, sig, DceList(used, body))
    case For(x, e, body) => For(x, e, DceList(used, body))
    case Class(name, parent, methods) => Class(name, parent, DceList(used, methods))
    case Try(block, handlers, final) => Try(DceList(used, block), DceHandlers(used, handlers), DceList(used, final))
    case Match(e, cases, default) => Match(e, DceCases(used, cases), DceList(used, default))
    case _ => s
  }

  /** A list is cut after its first terminator, then filtered. */
  function DceList(used: set<string>, ss: seq<Stmt>): seq<Stmt>
    decreases ss, 0
  {
    if ss == [] then []
    else
      (if Keep(used, ss[0]) then [DceStmt(used, ss[0])] else [])
      + if IsTerminator(ss[0]) then [] else DceList(used, ss[1..])
  }

  function DceCases(used: set<string>, cs: seq<Case>): (r: seq<Case>)
    ensures |r| == |cs|
    decreases cs, 0
  {
    if cs == [] then [] else [cs[0].(body := DceList(used, cs[0].body))] + DceCases(used, cs[1..])
  }

  function DceHandlers(used: set<string>, hs: seq<Handler>): (r: seq<Handler>)
    ensures |r| == |hs|
    decreases hs, 0
  {
    if hs == [] then [] else [hs[0].(body := DceList(used, hs[0].body))] + DceHandlers(used, hs[1..])
  }

  function PassDce(program: seq<Stmt>): seq<Stmt> {
    DceList(UsedList(program), program)
  }

  // ---------- the conditions under which this is right ----------

  /** Every name that occurs: read in a place the pass looks at or in one it skips (such
      as the braces of a string), or assigned. */
  function NamesExpr(e: Expr): set<string>
    decreases Size(e), 0
  {
    if e.Variable? then {e.name}
    else if e.Binary? || e.NullCoal? then NamesExpr(e.left) + NamesExpr(e.right)
    else if e.OptChain? then NamesExpr(e.receiver)
    else if e.Call? then NamesExpr(e.callee) + NamesExprs(e.args)
    else if e.Set? && e.receiver.Absent? then NamesExpr(e.value) + {e.property}
    else
      OperandsSmaller(e);
      NamesExprs(Operands(e))
  }

  function NamesExprs(es: seq<Expr>): set<string>
    decreases SizeAll(es), 1 + |es|
  {
    if es == [] then {} else NamesExpr(es[0]) + NamesExprs(es[1..])
  }

  /** Every name that occurs was counted as read, and an initialiser that may be
      dropped really has no effects. */
  predicate SafeStmt(used: set<string>, s: Stmt)
    decreases s, 1
  {
    match s
    case Print(e) => NamesExpr(e) <= used
    case ExprStmt(e) => NamesExpr(e) <= used
    case Let(x, e) => NamesExpr(e) <= used && (Keep(used, s) || Quiet(e))
    case If(e, thn, els) => NamesExpr(e) <= used && SafeList(used, thn) && SafeList(used, els)
    case Block(body) => SafeList(used, body)
    case While(e, body) => NamesExpr(e) <= used && SafeList(used, body)
    case Proc(_, sig, body) => NamesExprs(sig.defaults) <= used && SafeList(used, body)
    case For(_, e, body) => NamesExpr(e) <= used && SafeList(used, body)
    case Return(e) => NamesExpr(e) <= used
    case Raise(e) => NamesExpr(e) <= used
    case Class(_, parent, methods) => (parent.Some? ==> parent.value in used) && SafeMethods(used, methods)
    case Try(block, handlers, final) => SafeList(used, block) && SafeHandlers(used, handlers) && SafeList(used, final)
    case Match(e, cases, default) => NamesExpr(e) <= used && SafeCases(used, cases) && SafeList(used, default)
    case _ => true
  }

  /** The names of methods are not looked for: they have to be read as variables. */
  predicate SafeMethods(used: set<string>, ss: seq<Stmt>)
    decreases ss, 0
  {
    ss == [] || (ss[0].Proc? && ss[0].name in used && SafeStmt(used, ss[0]) && SafeMethods(used, ss[1..]))
  }

  predicate SafeHandlers(used: set<string>, hs: seq<Handler>)
    decreases hs, 0
  {
    hs == [] || (SafeList(used, hs[0].body) && SafeHandlers(used, hs[1..]))
  }

  predicate SafeCases(used: set<string>, cs: seq<Case>)
    decreases cs, 0
  {
    cs == []
    || (NamesExpr(cs[0].pattern) <= used && NamesExpr(cs[0].guard) <= used && SafeList(used, cs[0].body)
        && SafeCases(used, cs[1..]))
  }

  predicate SafeList(used: set<string>, ss: seq<Stmt>)
    decreases ss, 0
  {
    ss == [] || (SafeStmt(used, ss[0]) && SafeList(used, ss[1..]))
  }

  // ---------- the pass itself ----------

  /** The names found so far: a list without duplicates, newest first. */
  class NameSet {
    var names: seq<string>

    constructor ()
      ensures Elements() == {}
    {
      names := [];
    }

    ghost function Elements(): set<string>
      reads this
    {
      set x | x in names
    }

    method Has(name: string) returns (found: bool)
      ensures found <==> name in Elements()
    {
      for i := 0 to |names|
        invariant name !in names[..i]
      {
        if names[i] == name { return true; }
      }
      return false;
    }

    method Add(name: string)
      modifies this
      ensures Elements() == old(Elements()) + {name}
    {
      var found := Has(name);
      if found { return; }
      names := [name] + names;
    }

    method CollectExpr(e: Expr)
      modifies this
      ensures Elements() == old(Elements()) + UsedExpr(e)
      decreases e, 1
    {
      hide UsedExprs;
      match e
      case Variable(x) => Add(x);
      case Binary(_, left, right) =>
        CollectExpr(left);
        CollectExpr(right);
      case Call(callee, args) =>
        CollectExpr(callee);
        CollectExprs(args);
      case Array(es) => CollectExprs(es);
      case Index(base, index) =>
        CollectExpr(base);
        CollectExpr(index);
      case IndexSet(base, index, value) =>
        CollectExpr(base);
        CollectExpr(index);
        CollectExpr(value);
      case Dict(_, values) => CollectExprs(values);
      case Tuple(es) => CollectExprs(es);
      case Slice(base, start, end) =>
        CollectExpr(base);
        CollectExpr(start);
        CollectExpr(end);
      case Get(obj, _) => CollectExpr(obj);
      case Set(obj, _, value) =>
        CollectExpr(obj);
        CollectExpr(value);
      case _ =>
    }

    method CollectExprs(es: seq<Expr>)
      modifies this
      ensures Elements() == old(Elements()) + UsedExprs(es)
      decreases es, 0
    {
      var i := 0;
      while i < |es|
        invariant i <= |es| && Elements() + UsedExprs(es[i..]) == old(Elements()) + UsedExprs(es)
      {
        assert es[i..][0] == es[i] && es[i..][1..] == es[i + 1..];
        CollectExpr(es[i]);
        i := i + 1;
      }
      assert es[i..] == [];
    }

    method CollectStmt(s: Stmt)
      modifies this
      ensures Elements() == old(Elements()) + UsedStmt(s)
      decreases s, 1
    {
      hide UsedExpr, UsedList, Elements;
      match s
      case Print(e) => CollectExpr(e);
      case ExprStmt(e) => CollectExpr(e);
      case Let(_, e) => CollectExpr(e);
      case If(e, thn, els) =>
        CollectExpr(e);
        CollectList(thn);
        CollectList(els);
      case Block(body) => CollectList(body);
      case While(e, body) =>
        CollectExpr(e);
        CollectList(body);
      case Proc(_, _, body) => CollectList(body);
      case For(_, e, body) =>
        CollectExpr(e);
        CollectList(body);
      case Return(e) => CollectExpr(e);
      case Class(_, _, methods) => CollectList(methods);
      case Match(e, cases, default) =>
        CollectExpr(e);
        CollectCases(cases);
        CollectList(default);
      case Try(block, handlers, final) =>
        CollectList(block);
        CollectHandlers(handlers);
        CollectList(final);
      case Raise(e) => CollectExpr(e);
      case Yield(e) => CollectExpr(e);
      case Defer(body) => CollectList(body);
      case _ =>
    }

    method CollectList(ss: seq<Stmt>)
      modifies this
      ensures Elements() == old(Elements()) + UsedList(ss)
      decreases ss, 0
    {
      var i := 0;
      while i < |ss|
        invariant i <= |ss| && Elements() + UsedList(ss[i..]) == old(Elements()) + UsedList(ss)
      {
        assert ss[i..][0] == ss[i] && ss[i..][1..] == ss[i + 1..];
        CollectStmt(ss[i]);
        i := i + 1;
      }
      assert ss[i..] == [];
    }

    method CollectCases(cs: seq<Case>)
      modifies this
      ensures Elements() == old(Elements()) + UsedCases(cs)
      decreases cs, 0
    {
      var i := 0;
      while i < |cs|
        invariant i <= |cs| && Elements() + UsedCases(cs[i..]) == old(Elements()) + UsedCases(cs)
      {
        assert cs[i..][0] == cs[i] && cs[i..][1..] == cs[i + 1..];
        CollectExpr(cs[i].pattern);
        CollectList(cs[i].body);
        i := i + 1;
      }
      assert cs[i..] == [];
    }

    method CollectHandlers(hs: seq<Handler>)
      modifies this
      ensures Elements() == old(Elements()) + UsedHandlers(hs)
      decreases hs, 0
    {
      var i := 0;
      while i < |hs|
        invariant i <= |hs| && Elements() + UsedHandlers(hs[i..]) == old(Elements()) + UsedHandlers(hs)
      {
        assert hs[i..][0] == hs[i] && hs[i..][1..] == hs[i + 1..];
        CollectList(hs[i].body);
        i := i + 1;
      }
      assert hs[i..] == [];
    }
  }

  /** remove_unreachable: cut after the first terminator. */
  method RemoveUnreachable(ss: seq<Stmt>) returns (r: seq<Stmt>)
    ensures r <= ss && forall used :: DceList(used, r) == DceList(used, ss)
    ensures forall k | 0 <= k < |r| - 1 :: !IsTerminator(r[k])
  {
    var i := 0;
    while i < |ss| && !IsTerminator(ss[i])
      invariant i <= |ss| && forall k | 0 <= k < i :: !IsTerminator(ss[k])
    {
      i := i + 1;
    }
    if i == |ss| { return ss; }
    CutTail(ss, i);
    return ss[..i + 1];
  }

  lemma {:induction false} CutTail(ss: seq<Stmt>, i: nat)
    requires i < |ss| && IsTerminator(ss[i]) && forall k | 0 <= k < i :: !IsTerminator(ss[k])
    ensures forall used :: DceList(used, ss[..i + 1]) == DceList(used, ss)
  {
    if i > 0 {
      CutTail(ss[1..], i - 1);
      assert ss[..i + 1][1..] == ss[1..][..i];
    }
  }

  /** dce_stmt_list: cut the list, drop what is unused, descend into the rest. */
  method EliminateList(ss: seq<Stmt>, used: NameSet) returns (r: seq<Stmt>)
    ensures r == DceList(used.Elements(), ss)
    decreases ss, 0
  {
    hide DceList, DceStmt, Keep, IsTerminator;
    ghost var u := used.Elements();
    var head := RemoveUnreachable(ss);
    r := [];
    var i := 0;
    assert head[0..] == head;
    while i < |head|
      invariant i <= |head| && r + DceList(u, head[i..]) == DceList(u, head)
    {
      assert head[i] == ss[i];
      var keep := IsKept(head[i], used);
      DceStep(u, head, i);
      if keep {
        var s := EliminateBody(head[i], used);
        r := r + [s];
      }
      i := i + 1;
    }
    DceNothing(u);
    assert head[i..] == [];
  }

  /** Variables and procs go when their names are unused. */
  method IsKept(s: Stmt, used: NameSet) returns (keep: bool)
    ensures keep == Keep(used.Elements(), s)
  {
    keep := true;
    if s.Let? {
      var isUsed := used.Has(s.name);
      keep := isUsed || HasSideEffects(s.init);
    } else if s.Proc? {
      keep := used.Has(s.name);
    }
  }

  lemma DceNothing(used: set<string>)
    ensures DceList(used, []) == []
  {
  }

  lemma DceStep(used: set<string>, ss: seq<Stmt>, i: nat)
    requires i < |ss| && forall k | 0 <= k < |ss| - 1 :: !IsTerminator(ss[k])
    ensures DceList(used, ss[i..])
            == (if Keep(used, ss[i]) then [DceStmt(used, ss[i])] else []) + DceList(used, ss[i + 1..])
  {
    assert ss[i..][0] == ss[i] && ss[i..][1..] == ss[i + 1..];
    if IsTerminator(ss[i]) {
      assert ss[i + 1..] == [];
    }
  }

  /** dce_stmt_body. */
  method EliminateBody(s: Stmt, used: NameSet) returns (r: Stmt)
    ensures r == DceStmt(used.Elements(), s)
    decreases s, 1
  {
    hide DceList;
    match s
    case If(e, thn, els) =>
      var t := EliminateList(thn, used);
      var f := EliminateList(els, used);
      r := If(e, t, f);
    case Block(body) =>
      var b := EliminateList(body, used);
      r := Block(b);
    case While(e, body) =>
      var b := EliminateList(body, used);
      r := While(e, b);
    case Proc(name, sig, body) =>
      var b := EliminateList(body, used);
      r := Proc(name, sig, b);
    case For(x, e, body) =>
      var b := EliminateList(body, used);
      r := For(x, e, b);
    case Class(name, parent, methods) =>
      var b := EliminateList(methods, used);
      r := Class(name, parent, b);
    case Try(block, handlers, final) =>
      var b := EliminateList(block, used);
      var hs := EliminateHandlers(handlers, used);
      var f := EliminateList(final, used);
      r := Try(b, hs, f);
    case Match(e, cases, default) =>
      var cs := EliminateCases(cases, used);
      var d := EliminateList(default, used);
      r := Match(e, cs, d);
    case _ => r := s;
  }

  method EliminateHandlers(hs: seq<Handler>, used: NameSet) returns (r: seq<Handler>)
    ensures r == DceHandlers(used.Elements(), hs)
    decreases hs, 0
  {
    hide DceList;
    r := hs;
    for i := 0 to |hs|
      invariant |r| == |hs| && r[i..] == hs[i..]
      invariant forall k | 0 <= k < i :: r[k] == DceHandlers(used.Elements(), hs)[k]
    {
      HandlerAt(used.Elements(), hs, i);
      var body := EliminateList(hs[i].body, used);
      r := r[i := hs[i].(body := body)];
    }
  }

  method EliminateCases(cs: seq<Case>, used: NameSet) returns (r: seq<Case>)
    ensures r == DceCases(used.Elements(), cs)
    decreases cs, 0
  {
    hide DceList;
    r := cs;
    for i := 0 to |cs|
      invariant |r| == |cs| && r[i..] == cs[i..]
      invariant forall k | 0 <= k < i :: r[k] == DceCases(used.Elements(), cs)[k]
    {
      CaseAt(used.Elements(), cs, i);
      var body := EliminateList(cs[i].body, used);
      r := r[i := cs[i].(body := body)];
    }
  }

  lemma {:induction false} HandlerAt(used: set<string>, hs: seq<Handler>, i: nat)
    requires i < |hs|
    ensures DceHandlers(used, hs)[i] == hs[i].(body := DceList(used, hs[i].body))
  {
    if i > 0 {
      HandlerAt(used, hs[1..], i - 1);
    }
  }

  lemma {:induction false} CaseAt(used: set<string>, cs: seq<Case>, i: nat)
    requires i < |cs|
    ensures DceCases(used, cs)[i] == cs[i].(body := DceList(used, cs[i].body))
  {
    if i > 0 {
      CaseAt(used, cs[1..], i - 1);
    }
  }

  /** pass_dce. */
  method Eliminate(program: seq<Stmt>) returns (r: seq<Stmt>)
    ensures r == PassDce(program)
  {
    var used := new NameSet();
    used.CollectList(program);
    assert used.Elements() == UsedList(program);
    r := EliminateList(program, used);
  }
}
