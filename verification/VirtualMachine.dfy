// The virtual-register instructions of include/codegen.h and their meaning as a
// machine with a program counter.
module VirtualMachine {
  import opened Common
  import opened Ast
  import opened Values

  /** Labels are numbers: the source spells label `k` as ".Lk".  LoadZero and
      LoadOne are the immediate loads of 0.0 and 1.0. */
  datatype VInst =
    | LoadImm(dest: nat, n: Double)
    | LoadZero(dest: nat)
    | LoadOne(dest: nat)
    | LoadString(dest: nat, s: string)
    | LoadBool(dest: nat, b: bool)
    | LoadNil(dest: nat)
    | LoadGlobal(dest: nat, name: string)
    | StoreGlobal(src: nat, name: string)
    | Arith(op: Op, dest: nat, src1: nat, src2: nat)
    | LenCall(dest: nat, src: nat)
    | ArrayNew(dest: nat, count: nat)
    | ArraySet(arr: nat, src: nat, index: nat)
    | IndexOf(dest: nat, arr: nat, idx: nat)
    | PrintReg(src: nat)
    | Branch(src: nat, onTrue: nat, onFalse: nat)
    | Jump(target: nat)
    | Label(id: nat)
    | Ret(src: nat)
    | Unmodelled(dest: nat)

  datatype Machine =
    | At(pc: nat, regs: map<nat, Value>, globals: map<string, Value>, out: seq<Value>)
    | Halted(value: Value, globals: map<string, Value>, out: seq<Value>)
    | Stuck

  /** The address of a label, or |p| when the program does not define it. */
  function Find(p: seq<VInst>, l: nat): (i: nat)
    ensures i <= |p|
    ensures i < |p| ==> p[i] == Label(l)
    ensures forall k :: 0 <= k < i ==> p[k] != Label(l)
    decreases |p|
  {
    if p == [] then 0
    else if p[0] == Label(l) then 0
    else Find(p[1..], l) + 1
  }

  function Goto(p: seq<VInst>, l: nat, m: Machine): Machine
    requires m.At?
  {
    var i := Find(p, l);
    if i == |p| then Stuck else m.(pc := i)
  }

  /** Write a register and advance; a failed operation stops the machine. */
  function Write(m: Machine, dest: nat, v: Option<Value>): Machine
    requires m.At?
  {
    if v.None? then Stuck else m.(pc := m.pc + 1, regs := m.regs[dest := v.value])
  }

  /** One step.  Falling off the end leaves the machine where it is. */
  function Step(h: Host, p: seq<VInst>, m: Machine): Machine {
    if !m.At? || m.pc >= |p| then m else Perform(h, p, p[m.pc], m)
  }

  function Perform(h: Host, p: seq<VInst>, i: VInst, m: Machine): Machine
    requires m.At?
  {
    match i
    case LoadImm(d, n) => Write(m, d, Some(NumV(n)))
    case LoadZero(d) => Write(m, d, Some(NumV(h.zero)))
    case LoadOne(d) => Write(m, d, Some(NumV(h.one)))
    case LoadString(d, s) => Write(m, d, Some(StrV(s)))
    case LoadBool(d, b) => Write(m, d, Some(BoolV(b)))
    case LoadNil(d) => Write(m, d, Some(NilV))
    case LoadGlobal(d, x) => Write(m, d, if x in m.globals then Some(m.globals[x]) else None)
    case StoreGlobal(s, x) =>
        if s in m.regs then m.(pc := m.pc + 1, globals := m.globals[x := m.regs[s]]) else Stuck
    case Arith(op, d, a, b) =>
        Write(m, d, if a in m.regs && b in m.regs then Operate(h, op, m.regs[a], m.regs[b]) else None)
    case LenCall(d, s) =>
        Write(m, d, if s in m.regs && LenValue(m.regs[s]).Some? then Some(IntV(LenValue(m.regs[s]).value)) else None)
    case ArrayNew(d, n) => Write(m, d, Some(ArrV(seq(n, _ => NilV))))
    case ArraySet(a, s, i) =>
        if a in m.regs && s in m.regs && m.regs[a].ArrV? && i < |m.regs[a].elems|
        then Write(m, a, Some(ArrV(m.regs[a].elems[i := m.regs[s]])))
        else Stuck
    case IndexOf(d, a, i) =>
        Write(m, d, if a in m.regs && i in m.regs then IndexValue(h, m.regs[a], m.regs[i]) else None)
    case PrintReg(s) =>
        if s in m.regs then m.(pc := m.pc + 1, out := m.out + [m.regs[s]]) else Stuck
    case Branch(s, t, f) =>
        if s in m.regs then Goto(p, if Truthy(h, m.regs[s]) then t else f, m) else Stuck
    case Jump(l) => Goto(p, l, m)
    case Label(_) => m.(pc := m.pc + 1)
    case Ret(s) => if s in m.regs then Halted(m.regs[s], m.globals, m.out) else Stuck
    case Unmodelled(_) => Stuck
  }

  function Steps(h: Host, p: seq<VInst>, n: nat, m: Machine): Machine {
    if n == 0 then m else Steps(h, p, n - 1, Step(h, p, m))
  }

  lemma {:induction false} StepsAdd(h: Host, p: seq<VInst>, n: nat, k: nat, m: Machine)
    ensures Steps(h, p, n + k, m) == Steps(h, p, k, Steps(h, p, n, m))
    decreases n
  {
    if n != 0 {
      StepsAdd(h, p, n - 1, k, Step(h, p, m));
    }
  }

  predicate Final(p: seq<VInst>, m: Machine) { !m.At? || m.pc >= |p| }

  lemma {:induction false} FinalStays(h: Host, p: seq<VInst>, n: nat, m: Machine)
    requires Final(p, m)
    ensures Steps(h, p, n, m) == m
  {
    if n != 0 {
      FinalStays(h, p, n - 1, m);
    }
  }

  /** No label is defined twice. */
  ghost predicate UniqueLabels(p: seq<VInst>) {
    forall i, j :: 0 <= i < j < |p| && p[i].Label? && p[j].Label? ==> p[i].id != p[j].id
  }

  lemma FindUnique(p: seq<VInst>, i: nat, l: nat)
    requires UniqueLabels(p) && i < |p| && p[i] == Label(l)
    ensures Find(p, l) == i
  {
  }
}
