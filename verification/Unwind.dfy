// Exception frames, the recursion counter and the stack they describe, as a
// machine over the steps of compiled code (runtime/sage_runtime.[ch] and the try
// and guard emission of src/aot.c).  Raising jumps with longjmp, which drops what
// is above the try frame without running the cleanup handlers (section 7.13 of
// ISO C11).
module Unwind {
  import opened Common
  import opened Ast
  import opened CallGraph
  import Bits

  const MAX_DEPTH: nat := 1000

  /** What is on the C stack: activations of procs, and open try frames.  A try
      frame's address is its position plus one; 0 is NULL. */
  datatype Item =
    | Frame(proc: string, guarded: bool)
    | TryFrame(prev: nat, active: bool, saved: int)

  /** Overflow: a guarded call has just passed the limit and must raise.
      Landed: setjmp has just returned for the second time. */
  datatype Phase = Running | Overflow | Landed | Dead

  datatype State = State(stack: seq<Item>, excTop: nat, depth: int, phase: Phase)

  datatype Act =
    | Call(proc: string, guarded: bool)
    | Return
    | Enter
    | Exit
    | Raise
    | Catch
    | Leave

  const START: State := State([], 0, 0, Running)

  // ---------- the steps ----------

  function Called(s: State, proc: string, guarded: bool): State {
    var depth := s.depth + if guarded then 1 else 0;
    s.(stack := s.stack + [Frame(proc, guarded)], depth := depth,
       phase := if guarded && depth > MAX_DEPTH then Overflow else Running)
  }

  /** The position of the innermost activation. */
  function LastFrame(stack: seq<Item>): (r: Option<nat>)
    ensures r.Some? ==> r.value < |stack| && stack[r.value].Frame?
    ensures r.Some? ==> forall i | r.value < i < |stack| :: stack[i].TryFrame?
    ensures r.None? ==> forall i | 0 <= i < |stack| :: stack[i].TryFrame?
  {
    if stack == [] then None
    else if stack[|stack| - 1].Frame? then Some(|stack| - 1)
    else LastFrame(stack[..|stack| - 1])
  }

  /** Leave the innermost activation, whatever try frames it has open; the cleanup
      handler undoes the count.  The exception chain is not touched. */
  function Returned(s: State): State
    requires LastFrame(s.stack).Some?
  {
    var k := LastFrame(s.stack).value;
    s.(stack := s.stack[..k], depth := s.depth - if s.stack[k].guarded then 1 else 0)
  }

  function Entered(s: State): State {
    s.(stack := s.stack + [TryFrame(s.excTop, true, s.depth)], excTop := |s.stack| + 1)
  }

  predicate InTry(s: State) { s.stack != [] && s.stack[|s.stack| - 1].TryFrame? }

  /** The try block ended normally. */
  function Exited(s: State): State
    requires InTry(s)
  {
    s.(stack := s.stack[..|s.stack| - 1], excTop := s.stack[|s.stack| - 1].prev)
  }

  /** Control leaves the try block by break or continue. */
  function Left(s: State): State
    requires InTry(s)
  {
    s.(stack := s.stack[..|s.stack| - 1])
  }

  function Raised(s: State): State {
    if 0 < s.excTop <= |s.stack| && s.stack[s.excTop - 1].TryFrame? && s.stack[s.excTop - 1].active then
      s.(stack := s.stack[..s.excTop - 1] + [s.stack[s.excTop - 1].(active := false)], phase := Landed)
    else
      s.(phase := Dead)
  }

  /** The handler, or the end of a try without one, takes the frame off the chain
      and restores the counter. */
  function Caught(s: State): State
    requires InTry(s)
  {
    var t := s.stack[|s.stack| - 1];
    State(s.stack[..|s.stack| - 1], t.prev, t.saved, Running)
  }

  predicate Enabled(s: State, a: Act) {
    match a
    case Call(_, _) => s.phase.Running?
    case Return => s.phase.Running? && LastFrame(s.stack).Some?
    case Enter => s.phase.Running?
    case Exit => s.phase.Running? && InTry(s)
    case Leave => s.phase.Running? && InTry(s)
    case Raise => s.phase.Running? || s.phase.Overflow?
    case Catch => s.phase.Landed? && InTry(s)
  }

  function Step(s: State, a: Act): State
    requires Enabled(s, a)
  {
    match a
    case Call(p, g) => Called(s, p, g)
    case Return => Returned(s)
    case Enter => Entered(s)
    case Exit => Exited(s)
    case Leave => Left(s)
    case Raise => Raised(s)
    case Catch => Caught(s)
  }

  // ---------- what the globals should be ----------

  /** The innermost open try frame. */
  function TopOf(stack: seq<Item>): (t: nat)
    ensures t <= |stack|
    ensures t > 0 ==> stack[t - 1].TryFrame?
    ensures forall i | t <= i < |stack| :: stack[i].Frame?
  {
    if stack == [] then 0
    else if stack[|stack| - 1].TryFrame? then |stack|
    else TopOf(stack[..|stack| - 1])
  }

  /** Live guarded activations. */
  function Guards(stack: seq<Item>): nat {
    if stack == [] then 0
    else
      var top := stack[|stack| - 1];
      Guards(stack[..|stack| - 1]) + if top.Frame? && top.guarded then 1 else 0
  }

  /** Every try frame remembers the one below it and the count below it. */
  predicate Linked(stack: seq<Item>) {
    stack == []
    || var pre, top := stack[..|stack| - 1], stack[|stack| - 1];
       Linked(pre) && (top.TryFrame? ==> top.prev == TopOf(pre) && top.saved == Guards(pre))
  }

  predicate AllActive(stack: seq<Item>) {
    forall i | 0 <= i < |stack| :: stack[i].TryFrame? ==> stack[i].active
  }

  /** The chain is exactly the stack of open try frames; while code runs, all of
      them are active and the counter is the number of live guarded activations. */
  predicate Valid(s: State) {
    match s.phase
    case Dead => true
    case Running =>
      s.excTop == TopOf(s.stack) && Linked(s.stack) && AllActive(s.stack)
      && s.depth == Guards(s.stack) <= 1000
    case Overflow =>
      s.excTop == TopOf(s.stack) && Linked(s.stack) && AllActive(s.stack)
      && s.depth == Guards(s.stack) == 1001
      && s.stack[|s.stack| - 1].Frame? && s.stack[|s.stack| - 1].guarded
    case Landed =>
      && InTry(s) && s.excTop == |s.stack| && Linked(s.stack)
      && AllActive(s.stack[..|s.stack| - 1]) && !s.stack[|s.stack| - 1].active
      && Guards(s.stack) <= 1000
  }

  /** No return, break or continue jumps out of an open try. */
  predicate Tame(s: State, a: Act) {
    a != Leave && (a == Act.Return ==> !InTry(s))
  }

  // ---------- prefixes of a stack ----------

  lemma {:induction false} LinkedPrefix(stack: seq<Item>, k: nat)
    requires Linked(stack) && k <= |stack|
    ensures Linked(stack[..k]) && Guards(stack[..k]) <= Guards(stack)
    ensures k < |stack| && stack[k].TryFrame? ==>
              stack[k].prev == TopOf(stack[..k]) && stack[k].saved == Guards(stack[..k])
    decreases |stack|
  {
    if k < |stack| {
      var pre := stack[..|stack| - 1];
      LinkedPrefix(pre, k);
      assert pre[..k] == stack[..k];
    } else {
      assert stack[..k] == stack;
    }
  }

  lemma Push(stack: seq<Item>, i: Item)
    ensures (stack + [i])[..|stack|] == stack
    ensures TopOf(stack + [i]) == if i.TryFrame? then |stack| + 1 else TopOf(stack)
    ensures Guards(stack + [i]) == Guards(stack) + if i.Frame? && i.guarded then 1 else 0
    ensures Linked(stack + [i]) <==>
              Linked(stack) && (i.TryFrame? ==> i.prev == TopOf(stack) && i.saved == Guards(stack))
  {
    assert (stack + [i])[..|stack|] == stack;
  }

  /** The try frame `excTop` points to is the innermost one, and a raise lands there. */
  lemma RaiseLands(s: State)
    requires Valid(s) && Enabled(s, Act.Raise)
    ensures var t := TopOf(s.stack);
            if t == 0 then Raised(s).phase == Dead
            else
              && Raised(s).phase == Landed && Valid(Raised(s))
              && Raised(s).stack[..t - 1] == s.stack[..t - 1]
              && forall i | t <= i < |s.stack| :: s.stack[i].Frame?
    ensures Valid(Raised(s))
  {
    hide Linked, Guards, TopOf;
    var t := TopOf(s.stack);
    if t > 0 {
      var pre, top := s.stack[..t - 1], s.stack[t - 1].(active := false);
      assert s.stack[t - 1].active;
      assert Raised(s) == State(pre + [top], t, s.depth, Landed);
      assert (pre + [top])[..t - 1] == pre;
      LandedValid(s, t, pre, top);
    }
  }

  lemma LandedValid(s: State, t: nat, pre: seq<Item>, top: Item)
    requires Valid(s) && Enabled(s, Act.Raise) && 0 < t <= |s.stack| && s.stack[t - 1].TryFrame?
    requires pre == s.stack[..t - 1] && top == s.stack[t - 1].(active := false)
    ensures Valid(State(pre + [top], t, s.depth, Landed))
  {
    hide Linked, Guards, TopOf;
    LinkedPrefix(s.stack, t - 1);
    Push(pre, top);
    GuardsBelowTry(s.stack, t - 1);
    assert AllActive(pre);
    assert (pre + [top])[..|pre|] == pre;
    hide AllActive;
  }

  /** Below a try frame, the count was within the limit. */
  lemma {:induction false} GuardsBelowTry(stack: seq<Item>, k: nat)
    requires k < |stack| && stack[k].TryFrame?
    requires Guards(stack) <= 1000
             || (Guards(stack) == 1001 && stack[|stack| - 1].Frame? && stack[|stack| - 1].guarded)
    ensures Guards(stack[..k]) <= 1000
  {
    var pre := stack[..|stack| - 1];
    if k < |pre| {
      assert pre[..k] == stack[..k];
      GuardsMonotone(pre, k);
    }
  }

  lemma {:induction false} GuardsMonotone(stack: seq<Item>, k: nat)
    requires k <= |stack|
    ensures Guards(stack[..k]) <= Guards(stack)
  {
    if k < |stack| {
      var pre := stack[..|stack| - 1];
      assert pre[..k] == stack[..k];
      GuardsMonotone(pre, k);
    } else {
      assert stack[..k] == stack;
    }
  }

  // ---------- what the steps keep ----------

  lemma CalledValid(s: State, p: string, g: bool)
    requires Valid(s) && s.phase.Running?
    ensures Valid(Called(s, p, g))
  {
    Push(s.stack, Frame(p, g));
    hide Linked, Guards, TopOf;
  }

  lemma EnteredValid(s: State)
    requires Valid(s) && s.phase.Running?
    ensures Valid(Entered(s))
  {
    Push(s.stack, TryFrame(s.excTop, true, s.depth));
    hide Linked, Guards, TopOf;
  }

  lemma PoppedValid(s: State)
    requires Valid(s) && s.stack != [] && s.phase.Running?
    ensures InTry(s) ==> Valid(Exited(s))
    ensures !InTry(s) ==> LastFrame(s.stack) == Some(|s.stack| - 1) && Valid(Returned(s))
  {
    Pop(s.stack);
    hide Linked, Guards, TopOf;
    assert AllActive(s.stack[..|s.stack| - 1]);
  }

  lemma CaughtValid(s: State)
    requires Valid(s) && s.phase.Landed?
    ensures Valid(Caught(s))
  {
    Pop(s.stack);
    hide Linked, Guards, TopOf;
  }

  lemma Pop(stack: seq<Item>)
    requires Linked(stack) && stack != []
    ensures var pre, top := stack[..|stack| - 1], stack[|stack| - 1];
            && Linked(pre) && (top.TryFrame? ==> top.prev == TopOf(pre) && top.saved == Guards(pre))
            && Guards(stack) == Guards(pre) + (if top.Frame? && top.guarded then 1 else 0)
            && (top.Frame? ==> TopOf(stack) == TopOf(pre))
  {
  }

  /** Every step keeps the invariant, as long as nothing jumps out of an open try. */
  lemma StepKeepsValid(s: State, a: Act)
    requires Valid(s) && Enabled(s, a) && Tame(s, a)
    ensures Valid(Step(s, a))
  {
    hide Valid, Called, Entered, Exited, Returned, Caught, Raised;
    match a
    case Call(p, g) => CalledValid(s, p, g);
    case Enter => EnteredValid(s);
    case Return => PoppedValid(s);
    case Exit => PoppedValid(s);
    case Catch => CaughtValid(s);
    case Raise => RaiseLands(s);
    case Leave =>
  }

  /** Leaving an activation keeps the invariant if and only if none of its try
      frames is open. */
  lemma ReturnKeepsValidIff(s: State)
    requires Valid(s) && Enabled(s, Act.Return)
    ensures Valid(Returned(s)) <==> !InTry(s)
  {
    if InTry(s) {
      assert s.excTop == |s.stack|;
      assert TopOf(Returned(s).stack) < |s.stack|;
    } else {
      StepKeepsValid(s, Act.Return);
    }
  }

  /** A break or continue out of a try block always leaves a dangling frame on the
      chain. */
  lemma LeaveBreaksValid(s: State)
    requires Valid(s) && Enabled(s, Leave)
    ensures !Valid(Left(s)) && Left(s).excTop > |Left(s).stack|
  {
  }

  // ---------- runs ----------

  ghost predicate IsRun(s: State, acts: seq<Act>, s': State)
    decreases |acts|
  {
    if acts == [] then s == s'
    else Enabled(s, acts[0]) && Tame(s, acts[0]) && IsRun(Step(s, acts[0]), acts[1..], s')
  }

  lemma {:induction false} RunKeepsValid(s: State, acts: seq<Act>, s': State)
    requires Valid(s) && IsRun(s, acts, s')
    ensures Valid(s')
    decreases |acts|
  {
    if acts != [] {
      StepKeepsValid(s, acts[0]);
      RunKeepsValid(Step(s, acts[0]), acts[1..], s');
    }
  }

  /** In every reachable state the counter is right and the guarded activations are
      bounded: at most one more than the limit, just before the overflow raises. */
  lemma ReachableBounded(acts: seq<Act>, s: State)
    requires IsRun(START, acts, s) && s.phase != Dead
    ensures Guards(s.stack) <= 1001
    ensures s.phase != Landed ==> s.depth == Guards(s.stack) && s.excTop == TopOf(s.stack)
  {
    RunKeepsValid(START, acts, s);
  }

  /** A run that never leaves the item at position `n`. */
  ghost predicate StaysAbove(n: nat, s: State, acts: seq<Act>)
    decreases |acts|
  {
    && |s.stack| > n
    && (acts != [] ==> Enabled(s, acts[0]) && StaysAbove(n, Step(s, acts[0]), acts[1..]))
  }

  lemma {:induction false} StaysInside(n: nat, s: State, acts: seq<Act>, s': State)
    requires IsRun(s, acts, s') && StaysAbove(n, s, acts) && s'.phase != Landed && s'.phase != Dead
    requires s.phase != Dead && (s.phase == Landed ==> |s.stack| > n + 1)
    ensures |s'.stack| > n && s'.stack[..n + 1] == s.stack[..n + 1]
    decreases |acts|
  {
    if acts != [] {
      var t := Step(s, acts[0]);
      if t.phase == Landed && |t.stack| == n + 1 {
        LandedEnds(n, t, acts[1..]);
      } else if t.phase != Dead {
        StaysInside(n, t, acts[1..], s');
      }
    }
  }

  lemma LandedEnds(n: nat, s: State, acts: seq<Act>)
    requires StaysAbove(n, s, acts) && s.phase == Landed && |s.stack| == n + 1
    ensures acts == []
  {
  }

  /** Whatever ran inside a try, catching the exception that ends it restores
      exactly the state from before the try. */
  lemma CatchRestores(s: State, acts: seq<Act>, s': State)
    requires Valid(s) && s.phase.Running?
    requires IsRun(Entered(s), acts, s') && StaysAbove(|s.stack|, Entered(s), acts)
    requires Enabled(s', Act.Raise) && TopOf(s'.stack) == |s.stack| + 1
    ensures Raised(s').phase == Landed && Caught(Raised(s')) == s
  {
    hide Linked, Guards, IsRun, StaysAbove;
    StaysInside(|s.stack|, Entered(s), acts, s');
    Push(s.stack, TryFrame(s.excTop, true, s.depth));
    StepKeepsValid(s, Enter);
    RunKeepsValid(Entered(s), acts, s');
    RaiseLands(s');
    hide AllActive, Valid;
    assert s'.stack[..|s.stack| + 1] == Entered(s).stack;
    assert s'.stack[..|s.stack|] == Entered(s).stack[..|s.stack|] == s.stack;
    assert s'.stack[|s.stack|] == s'.stack[..|s.stack| + 1][|s.stack|];
  }

  // ---------- the bound on the whole stack ----------

  /** The procs that are active, outermost first. */
  function Procs(stack: seq<Item>): seq<string> {
    if stack == [] then []
    else
      var top := stack[|stack| - 1];
      Procs(stack[..|stack| - 1]) + if top.Frame? then [top.proc] else []
  }

  /** Activations without a guard. */
  function Plain(stack: seq<Item>): (r: seq<string>)
    ensures |r| + Guards(stack) == |Procs(stack)|
  {
    if stack == [] then []
    else
      var top := stack[|stack| - 1];
      Plain(stack[..|stack| - 1]) + if top.Frame? && !top.guarded then [top.proc] else []
  }

  predicate IsProc(program: seq<Stmt>, p: string) {
    exists d :: d in TopProcs(program) && d.name == p
  }

  /** Compiled code of the program: a proc is called by name, from the body of the innermost
      activation, from a default that a call there evaluates, or from top-level code, and
      is guarded if it was recorded. */
  ghost predicate Follows(program: seq<Stmt>, s: State, a: Act) {
    a.Call? ==>
      && IsProc(program, a.proc) && a.guarded == IsRecorded(program, a.proc)
      && var callers := Procs(s.stack);
         callers != [] ==> (callers[|callers| - 1], a.proc) in ActualCalls(TopProcs(program))
  }

  ghost predicate IsProgramRun(program: seq<Stmt>, s: State, acts: seq<Act>, s': State)
    decreases |acts|
  {
    if acts == [] then s == s'
    else
      && Enabled(s, acts[0]) && Tame(s, acts[0]) && Follows(program, s, acts[0])
      && IsProgramRun(program, Step(s, acts[0]), acts[1..], s')
  }

  /** The active procs call each other in order, and the recorded ones are guarded. */
  ghost predicate Chained(program: seq<Stmt>, stack: seq<Item>) {
    stack == []
    || var pre, top := stack[..|stack| - 1], stack[|stack| - 1];
       && Chained(program, pre)
       && (top.Frame? ==>
             && IsProc(program, top.proc) && top.guarded == IsRecorded(program, top.proc)
             && (Procs(pre) != [] ==>
                   (Procs(pre)[|Procs(pre)| - 1], top.proc) in ActualCalls(TopProcs(program))))
  }

  lemma {:induction false} ChainedPrefix(program: seq<Stmt>, stack: seq<Item>, k: nat)
    requires Chained(program, stack) && k <= |stack|
    ensures Chained(program, stack[..k])
    decreases |stack|
  {
    if k < |stack| {
      var pre := stack[..|stack| - 1];
      ChainedPrefix(program, pre, k);
      assert pre[..k] == stack[..k];
    } else {
      assert stack[..k] == stack;
    }
  }

  lemma PushChained(program: seq<Stmt>, stack: seq<Item>, i: Item)
    requires Chained(program, stack)
    requires i.Frame? ==>
               && IsProc(program, i.proc) && i.guarded == IsRecorded(program, i.proc)
               && (Procs(stack) != [] ==>
                     (Procs(stack)[|Procs(stack)| - 1], i.proc) in ActualCalls(TopProcs(program)))
    ensures Chained(program, stack + [i])
  {
    assert (stack + [i])[..|stack|] == stack;
  }

  lemma StepKeepsChained(program: seq<Stmt>, s: State, a: Act)
    requires Chained(program, s.stack) && Enabled(s, a) && Follows(program, s, a)
    ensures Chained(program, Step(s, a).stack)
  {
    hide Chained, ActualCalls, TopProcs, IsRecorded, IsProc;
    match a
    case Call(p, g) => PushChained(program, s.stack, Frame(p, g));
    case Enter => PushChained(program, s.stack, TryFrame(s.excTop, true, s.depth));
    case Return => ChainedPrefix(program, s.stack, LastFrame(s.stack).value);
    case Exit => ChainedPrefix(program, s.stack, |s.stack| - 1);
    case Leave => ChainedPrefix(program, s.stack, |s.stack| - 1);
    case Catch => ChainedPrefix(program, s.stack, |s.stack| - 1);
    case Raise =>
      if Raised(s).phase == Landed {
        ChainedPrefix(program, s.stack, s.excTop - 1);
        PushChained(program, s.stack[..s.excTop - 1], s.stack[s.excTop - 1].(active := false));
      }
  }

  lemma {:induction false} RunKeepsChained(program: seq<Stmt>, s: State, acts: seq<Act>, s': State)
    requires Chained(program, s.stack) && IsProgramRun(program, s, acts, s')
    ensures Chained(program, s'.stack) && IsRun(s, acts, s')
    decreases |acts|
  {
    if acts != [] {
      StepKeepsChained(program, s, acts[0]);
      RunKeepsChained(program, Step(s, acts[0]), acts[1..], s');
    }
  }

  /** A step of the chain is a direct call. */
  lemma {:induction false} ChainedCalls(program: seq<Stmt>, stack: seq<Item>)
    requires Chained(program, stack)
    ensures forall m | 0 <= m < |Procs(stack)| - 1 ::
            (Procs(stack)[m], Procs(stack)[m + 1]) in ActualCalls(TopProcs(program))
  {
    hide ActualCalls, TopProcs, IsRecorded, IsProc;
    if stack != [] {
      var pre, all := Procs(stack[..|stack| - 1]), Procs(stack);
      ChainedCalls(program, stack[..|stack| - 1]);
      forall m | 0 <= m < |all| - 1
        ensures (all[m], all[m + 1]) in ActualCalls(TopProcs(program))
      {
        if m + 1 < |pre| {
          assert (pre[m], pre[m + 1]) in ActualCalls(TopProcs(program));
        }
      }
    }
  }

  /** An unguarded proc is active at most once: the second activation would close a
      call cycle. */
  lemma {:induction false} PlainOnce(program: seq<Stmt>, stack: seq<Item>)
    requires FitsTables(program) && FullyScanned(TopProcs(program)) && Chained(program, stack)
    ensures forall p | p in Plain(stack) :: p in Procs(stack) && !IsRecorded(program, p) && IsProc(program, p)
    ensures forall i, j | 0 <= i < j < |Plain(stack)| :: Plain(stack)[i] != Plain(stack)[j]
  {
    if stack != [] {
      var pre, top := stack[..|stack| - 1], stack[|stack| - 1];
      PlainOnce(program, pre);
      if top.Frame? && !top.guarded {
        NotYetActive(program, stack);
      }
    }
  }

  lemma TopUnguarded(program: seq<Stmt>, stack: seq<Item>)
    requires Chained(program, stack) && stack != []
    requires stack[|stack| - 1].Frame? && !stack[|stack| - 1].guarded
    ensures !IsRecorded(program, stack[|stack| - 1].proc)
  {
    hide IsRecorded, ActualCalls, TopProcs, IsProc;
  }

  lemma NotYetActive(program: seq<Stmt>, stack: seq<Item>)
    requires FitsTables(program) && FullyScanned(TopProcs(program)) && Chained(program, stack) && stack != []
    requires stack[|stack| - 1].Frame? && !stack[|stack| - 1].guarded
    ensures stack[|stack| - 1].proc !in Procs(stack[..|stack| - 1])
  {
    hide FitsTables, FullyScanned, IsProc, ActualCalls, TopProcs, OnCycle, IsRecorded, Chained;
    var ps, p := Procs(stack), stack[|stack| - 1].proc;
    RecordedIffOnCycle(program, p);
    ChainedCalls(program, stack);
    TopUnguarded(program, stack);
    assert ps == Procs(stack[..|stack| - 1]) + [p];
    var q := Procs(stack[..|stack| - 1]);
    forall m | 0 <= m < |q|
      ensures q[m] != p
    {
      if ps[m] == p {
        CycleInChain(ActualCalls(TopProcs(program)), ps, m);
        assert false;
      }
    }
  }

  lemma CycleInChain(r: Relation, ps: seq<string>, m: nat)
    requires m < |ps| - 1 && ps[m] == ps[|ps| - 1]
    requires forall x | 0 <= x < |ps| - 1 :: (ps[x], ps[x + 1]) in r
    ensures OnCycle(r, ps[m])
  {
    var c := ps[m..];
    forall x | 0 <= x < |c| - 1
      ensures (c[x], c[x + 1]) in r
    {
      assert (ps[m + x], ps[m + x + 1]) in r;
    }
    assert CallChain(r, c) && c[0] == ps[m] && c[|c| - 1] == ps[m];
  }

  lemma {:induction false} FewNames(ps: seq<ProcDef>, names: seq<string>)
    requires forall i, j | 0 <= i < j < |names| :: names[i] != names[j]
    requires forall x | x in names :: exists d :: d in ps && d.name == x
    ensures |names| <= |ps|
    decreases |names|
  {
    if names != [] {
      var x := names[|names| - 1];
      assert x in names;
      var d :| d in ps && d.name == x;
      var k :| 0 <= k < |ps| && ps[k] == d;
      var rest, less := names[..|names| - 1], ps[..k] + ps[k + 1..];
      forall y | y in rest
        ensures exists e :: e in less && e.name == y
      {
        assert y in names;
        var e :| e in ps && e.name == y;
        var i :| 0 <= i < |ps| && ps[i] == e;
        assert e != d;
        assert less[if i < k then i else i - 1] == e;
      }
      FewNames(less, rest);
    }
  }

  /** The bound on the stack: in every state of every run of a program that fits the
      tables, at most 1001 guarded activations and as many others as the
      program has procs. */
  lemma BoundedStack(program: seq<Stmt>, acts: seq<Act>, s: State)
    requires FitsTables(program) && FullyScanned(TopProcs(program))
    requires IsProgramRun(program, START, acts, s) && s.phase != Dead
    ensures |Procs(s.stack)| <= 1001 + |TopProcs(program)|
  {
    RunKeepsChained(program, START, acts, s);
    ReachableBounded(acts, s);
    PlainOnce(program, s.stack);
    forall x | x in Plain(s.stack)
      ensures exists d :: d in TopProcs(program) && d.name == x
    {
      assert IsProc(program, x);
    }
    FewNames(TopProcs(program), Plain(s.stack));
  }

  // ---------- exactly when the stack is bounded ----------

  /** The calls between procs that were not recorded, and so carry no guard. */
  ghost function UnguardedCalls(program: seq<Stmt>): Relation {
    set c | c in ActualCalls(TopProcs(program)) && !IsRecorded(program, c.0) && !IsRecorded(program, c.1)
  }

  ghost predicate BoundedBy(program: seq<Stmt>, n: nat) {
    forall acts, s | IsProgramRun(program, START, acts, s) && s.phase != Dead :: |Procs(s.stack)| <= n
  }

  /** The unguarded activations since the last guarded one. */
  function Tail(stack: seq<Item>): seq<string> {
    if stack == [] then []
    else
      var pre, top := stack[..|stack| - 1], stack[|stack| - 1];
      if top.TryFrame? then Tail(pre) else if top.guarded then [] else Tail(pre) + [top.proc]
  }

  predicate InOrder(r: Relation, t: seq<string>) {
    forall m | 0 <= m < |t| - 1 :: (t[m], t[m + 1]) in r
  }

  lemma InOrderSnoc(r: Relation, t: seq<string>, x: string)
    requires InOrder(r, t) && (t != [] ==> (t[|t| - 1], x) in r)
    ensures InOrder(r, t + [x])
  {
    var t' := t + [x];
    forall m | 0 <= m < |t|
      ensures (t'[m], t'[m + 1]) in r
    {
      if m < |t| - 1 { assert (t[m], t[m + 1]) in r; }
    }
  }

  predicate IsSuffix(t: seq<string>, ps: seq<string>) { |t| <= |ps| && t == ps[|ps| - |t|..] }

  lemma LongerSuffix(t: seq<string>, ps: seq<string>, x: string)
    requires IsSuffix(t, ps)
    ensures IsSuffix(t + [x], ps + [x]) && (t != [] ==> ps != [] && t[|t| - 1] == ps[|ps| - 1])
  {
  }

  lemma {:induction false} TailCalls(program: seq<Stmt>, stack: seq<Item>)
    requires Chained(program, stack)
    ensures IsSuffix(Tail(stack), Procs(stack)) && InOrder(UnguardedCalls(program), Tail(stack))
    ensures forall x | x in Tail(stack) :: IsProc(program, x) && !IsRecorded(program, x)
  {
    hide Chained, UnguardedCalls, IsRecorded, IsProc;
    if stack != [] {
      var pre, top := stack[..|stack| - 1], stack[|stack| - 1];
      LastCall(program, stack);
      TailCalls(program, pre);
      var t, ps := Tail(pre), Procs(pre);
      if top.TryFrame? {
        assert ps + [] == ps;
        assert Tail(stack) == t && Procs(stack) == ps;
      } else if !top.guarded {
        assert Tail(stack) == t + [top.proc] && Procs(stack) == ps + [top.proc];
        LongerSuffix(t, ps, top.proc);
        if t != [] { assert t[|t| - 1] in t; }
        InOrderSnoc(UnguardedCalls(program), t, top.proc);
      }
    }
  }

  /** What the chain says of its last link. */
  lemma LastCall(program: seq<Stmt>, stack: seq<Item>)
    requires Chained(program, stack) && stack != []
    ensures var pre, top := stack[..|stack| - 1], stack[|stack| - 1];
            var ps := Procs(pre);
            && Chained(program, pre)
            && (top.Frame? && !top.guarded ==>
                  && IsProc(program, top.proc) && !IsRecorded(program, top.proc)
                  && (ps != [] && !IsRecorded(program, ps[|ps| - 1]) ==>
                        (ps[|ps| - 1], top.proc) in UnguardedCalls(program)))
  {
    hide ActualCalls, TopProcs, IsRecorded, IsProc;
  }

  lemma TailShort(program: seq<Stmt>, stack: seq<Item>)
    requires Chained(program, stack) && forall p :: !OnCycle(UnguardedCalls(program), p)
    ensures |Tail(stack)| <= |TopProcs(program)|
  {
    hide Chained, Tail, OnCycle, UnguardedCalls, TopProcs, Procs, IsRecorded;
    TailCalls(program, stack);
    var t := Tail(stack);
    forall i, j | 0 <= i < j < |t|
      ensures t[i] != t[j]
    {
      if t[i] == t[j] {
        CycleInChain(UnguardedCalls(program), t[..j + 1], i);
        assert false;
      }
    }
    forall x | x in t
      ensures exists d :: d in TopProcs(program) && d.name == x
    {
      assert IsProc(program, x);
    }
    FewNames(TopProcs(program), t);
  }

  /** Between two guarded activations every proc is active at most once. */
  lemma {:induction false} PlainFew(program: seq<Stmt>, stack: seq<Item>)
    requires Chained(program, stack) && forall p :: !OnCycle(UnguardedCalls(program), p)
    ensures |Plain(stack)| <= Guards(stack) * |TopProcs(program)| + |Tail(stack)|
  {
    hide OnCycle, UnguardedCalls, TopProcs, ActualCalls, IsRecorded, IsProc;
    if stack != [] {
      var pre, n := stack[..|stack| - 1], |TopProcs(program)|;
      PlainFew(program, pre);
      TailShort(program, pre);
      assert (Guards(pre) + 1) * n == Guards(pre) * n + n;
    }
  }

  lemma Within(a: nat, b: nat, n: nat)
    requires a <= b
    ensures a * n <= b * n
  {
  }

  /** With a guard on every cycle, a bound on the activations of every run. */
  lemma GuardedCyclesBound(program: seq<Stmt>)
    requires forall p :: !OnCycle(UnguardedCalls(program), p)
    ensures BoundedBy(program, 1001 + 1002 * |TopProcs(program)|)
  {
    hide OnCycle, UnguardedCalls, TopProcs, IsProgramRun, Chained;
    forall acts, s | IsProgramRun(program, START, acts, s) && s.phase != Dead
      ensures |Procs(s.stack)| <= 1001 + 1002 * |TopProcs(program)|
    {
      NothingChained(program);
      RunKeepsChained(program, START, acts, s);
      ReachableBounded(acts, s);
      PlainFew(program, s.stack);
      TailShort(program, s.stack);
      Within(Guards(s.stack), 1001, |TopProcs(program)|);
    }
  }

  lemma NothingChained(program: seq<Stmt>)
    ensures Chained(program, [])
  {
  }

  // The other way round, going round an unguarded cycle.

  function Around(c: seq<string>, i: nat): string
    requires |c| >= 2
  {
    c[i % (|c| - 1)]
  }

  function Deep(c: seq<string>, n: nat): State
    requires |c| >= 2
  {
    State(seq(n, i requires 0 <= i < n => Frame(Around(c, i), false)), 0, 0, Running)
  }

  function Calls(c: seq<string>, k: nat, n: nat): seq<Act>
    requires |c| >= 2 && k <= n
    decreases n - k
  {
    if k == n then [] else [Act.Call(Around(c, k), false)] + Calls(c, k + 1, n)
  }

  lemma AroundCalls(r: Relation, c: seq<string>, i: nat)
    requires CallChain(r, c) && c[0] == c[|c| - 1]
    ensures (Around(c, i), Around(c, i + 1)) in r
  {
    var m := |c| - 1;
    var k := i % m;
    if k + 1 < m {
      Bits.RemainderUnique(i + 1, m, i / m, k + 1);
    } else {
      Bits.RemainderUnique(i + 1, m, i / m + 1, 0);
    }
    assert (c[k], c[k + 1]) in r;
  }

  lemma {:induction false} DeepProcs(c: seq<string>, n: nat)
    requires |c| >= 2
    ensures |Procs(Deep(c, n).stack)| == n
    ensures n > 0 ==> Procs(Deep(c, n).stack)[n - 1] == Around(c, n - 1)
  {
    if n > 0 {
      DeepProcs(c, n - 1);
      assert Deep(c, n).stack[..n - 1] == Deep(c, n - 1).stack;
    }
  }

  lemma {:induction false} GoesDeep(program: seq<Stmt>, c: seq<string>, k: nat, n: nat)
    requires CallChain(UnguardedCalls(program), c) && c[0] == c[|c| - 1] && k <= n
    ensures IsProgramRun(program, Deep(c, k), Calls(c, k, n), Deep(c, n))
    decreases n - k
  {
    if k < n {
      GoesDeep(program, c, k + 1, n);
      DeeperFollows(program, c, k);
      hide UnguardedCalls, Around, Deep, Enabled, Tame, Follows, Step;
      var a := Act.Call(Around(c, k), false);
      assert Calls(c, k, n)[0] == a && Calls(c, k, n)[1..] == Calls(c, k + 1, n);
    }
  }

  lemma DeeperFollows(program: seq<Stmt>, c: seq<string>, k: nat)
    requires CallChain(UnguardedCalls(program), c) && c[0] == c[|c| - 1]
    ensures var s, a := Deep(c, k), Act.Call(Around(c, k), false);
            Enabled(s, a) && Tame(s, a) && Follows(program, s, a) && Step(s, a) == Deep(c, k + 1)
  {
    hide ActualCalls, TopProcs, IsRecorded, IsProc, Around, UnguardedCalls, Procs;
    DeepProcs(c, k);
    AroundCalls(UnguardedCalls(program), c, k);
    Callable(program, Around(c, k), Around(c, k + 1));
    if k > 0 {
      AroundCalls(UnguardedCalls(program), c, k - 1);
      Callable(program, Around(c, k - 1), Around(c, k));
    }
    var a := Act.Call(Around(c, k), false);
    assert Step(Deep(c, k), a).stack == Deep(c, k + 1).stack;
  }

  lemma Callable(program: seq<Stmt>, a: string, b: string)
    requires (a, b) in UnguardedCalls(program)
    ensures IsProc(program, a) && !IsRecorded(program, a) && (a, b) in ActualCalls(TopProcs(program))
  {
    hide IsRecorded, TopProcs;
    var ps := TopProcs(program);
    var i :| 0 <= i < |ps| && ps[i].name == a;
    assert ps[i] in ps;
  }

  /** The stack has a bound exactly if every cycle of calls has a recorded proc on it:
      round a cycle of unrecorded procs, activations pile up as high as one likes. */
  lemma StackBoundedIff(program: seq<Stmt>)
    ensures (exists n: nat :: BoundedBy(program, n)) <==> forall p :: !OnCycle(UnguardedCalls(program), p)
  {
    if p :| OnCycle(UnguardedCalls(program), p) {
      var c :| CallChain(UnguardedCalls(program), c) && c[0] == p && c[|c| - 1] == p;
      forall n: nat
        ensures !BoundedBy(program, n)
      {
        GoesDeep(program, c, 0, n + 1);
        DeepProcs(c, n + 1);
        assert Deep(c, 0) == START;
      }
    } else {
      GuardedCyclesBound(program);
    }
  }

  lemma UnguardedChain(program: seq<Stmt>, c: seq<string>)
    requires CallChain(UnguardedCalls(program), c)
    ensures CallChain(ActualCalls(TopProcs(program)), c) && !IsRecorded(program, c[0])
  {
    hide IsRecorded, TopProcs, ActualCalls;
    forall m | 0 <= m < |c| - 1
      ensures (c[m], c[m + 1]) in ActualCalls(TopProcs(program))
    {
      assert (c[m], c[m + 1]) in UnguardedCalls(program);
    }
    assert (c[0], c[1]) in UnguardedCalls(program);
  }

  /** Where all recursion is recorded there is no such cycle. */
  lemma RecordedCyclesGuarded(program: seq<Stmt>)
    requires FitsTables(program) && FullyScanned(TopProcs(program))
    ensures forall p :: !OnCycle(UnguardedCalls(program), p)
  {
    hide IsRecorded, FitsTables, FullyScanned, TopProcs, ActualCalls, UnguardedCalls;
    forall p
      ensures !OnCycle(UnguardedCalls(program), p)
    {
      RecordedIffOnCycle(program, p);
      forall c | CallChain(UnguardedCalls(program), c)
        ensures !(c[0] == p && c[|c| - 1] == p)
      {
        UnguardedChain(program, c);
      }
    }
  }

  /** A proc that calls itself only where the scan does not look is never stopped. */
  lemma SkippedCallUnbounded(name: string, s: Stmt, n: nat)
    requires |name| <= 63 && name in CalledStmt(s) && !StmtCalls(s, name)
    ensures !BoundedBy(OneProc(name, s), n)
  {
    var program := OneProc(name, s);
    SkippedCallNotRecorded(name, s);
    OneProcCalls(name, s);
    hide *;
    UnguardedSelf(program, name, n);
  }

  lemma UnguardedSelf(program: seq<Stmt>, name: string, n: nat)
    requires (name, name) in ActualCalls(TopProcs(program)) && !IsRecorded(program, name)
    ensures !BoundedBy(program, n)
  {
    hide IsRecorded, TopProcs, ActualCalls, BoundedBy;
    assert (name, name) in UnguardedCalls(program);
    hide UnguardedCalls, OnCycle;
    SelfCall(UnguardedCalls(program), name);
    StackBoundedIff(program);
  }

  /** Neither is one that a default value leads back to. */
  lemma DefaultCallUnbounded(n: nat)
    ensures !BoundedBy(DEFAULTING, n)
  {
    DefaultCallNotRecorded();
    hide *;
    UnguardedSelf(DEFAULTING, "f", n);
  }
}
