// The passes in the order in which the driver runs them, and the code generator after
// them (src/pass.c, src/codegen.c).
module Pipeline {
  import opened Ast
  import opened Values
  import opened Semantics
  import opened PassRelation
  import opened PassTheorems
  import opened Liveness
  import ConstFold
  import Dce
  import Inline
  import Inlinable
  import VirtualMachine
  import Isel

  /** Folding from level 1 on, dead code elimination from 2, inlining from 3. */
  function Optimised(h: Host, level: int, program: seq<Stmt>): seq<Stmt> {
    if level >= 3 then Inline.PassInline(Eliminated(h, program))
    else if level == 2 then Eliminated(h, program)
    else if level == 1 then ConstFold.FoldStmts(h, program)
    else program
  }

  function Eliminated(h: Host, program: seq<Stmt>): seq<Stmt> {
    Dce.PassDce(ConstFold.FoldStmts(h, program))
  }

  /** run_passes, without the two that only report. */
  method RunPasses(h: Host, level: int, program: seq<Stmt>) returns (r: seq<Stmt>)
    ensures r == Optimised(h, level, program)
  {
    hide ConstFold.FoldStmts, Dce.PassDce, Inline.PassInline;
    r := program;
    if level <= 0 { return; }
    if level >= 1 { r := ConstFold.FoldStatements(h, r); }
    if level >= 2 { r := Dce.Eliminate(r); }
    if level >= 3 { r := Inline.InlineProgram(r); }
  }

  /** isel_compile after parsing. */
  method Compile(h: Host, level: int, program: seq<Stmt>)
    returns (code: seq<VirtualMachine.VInst>, strings: seq<string>)
    ensures code == Isel.Compiled(Optimised(h, level, program))
  {
    hide Isel.Compiled, Optimised;
    var optimised := program;
    if level > 0 {
      optimised := RunPasses(h, level, program);
    } else {
      NoPasses(h, level, program);
    }
    code, strings := Isel.CompileProgram(optimised);
  }

  lemma NoPasses(h: Host, level: int, program: seq<Stmt>)
    requires level <= 0
    ensures Optimised(h, level, program) == program
  {
  }

  /** What has to hold of the program, and of what the earlier passes made of it. */
  ghost predicate Safe(w: World, level: int, program: seq<Stmt>, st: State) {
    var folded, kept := ConstFold.FoldStmts(w.host, program), Eliminated(w.host, program);
    && Fresh(st) && Natural(w)
    && (level >= 2 ==> Eliminable(folded))
    && (level >= 3 ==>
          Inlinable.IsInlinable(kept) && forall x | x in st.scopes[0] :: x !in Inlinable.SimpleNames(kept))
  }

  /** All passes together, at every level: a run that meets no error and shows no proc to
      the world ends the same way with the same events. */
  lemma PassesPreserve(w: World, fuel: nat, level: int, program: seq<Stmt>, st: State)
    requires Safe(w, level, program, st)
    requires Finished(ExecAll(w, fuel, program, st)) && PlainTrace(Seen(ExecAll(w, fuel, program, st)))
    ensures var o, o' := ExecAll(w, fuel, program, st), ExecAll(w, fuel, Optimised(w.host, level, program), st);
            Ending(o) == Ending(o') && Seen(o) == Seen(o')
  {
    hide ExecAll, ConstFold.FoldStmts, Dce.PassDce, Inline.PassInline, Natural, Fresh, Eliminable,
         Inlinable.IsInlinable, Inlinable.SimpleNames, PlainTrace;
    if level >= 1 {
      FoldingPreserves(w, fuel, program, st);
      if level >= 2 {
        EliminationPreserves(w, fuel, ConstFold.FoldStmts(w.host, program), st);
        if level >= 3 {
          InliningPreservesRuns(w, fuel, Eliminated(w.host, program), st);
        }
      }
    }
  }
}
