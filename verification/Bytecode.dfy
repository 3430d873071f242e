/** The flat instruction set and the small-step machine that runs it
    (BytecodeInterpreter in crates/icn-covm/src/bytecode.rs). */
module Bytecode {
  import opened Values
  import opened Ast
  import opened TreeVm

  datatype Instr =
    | Do(prim: Prim)
    | JumpIfZero(addr: nat)
    | Jump(addr: nat)
    | FunctionEntry(name: string, params: seq<string>)
    | Return
    | PassedBlock(prims: seq<Prim>)
    | FailedBlock(prims: seq<Prim>)

  /** A machine about to run the instruction at `pc`, or one stopped by an error. */
  datatype Config = Running(pc: nat, vm: Vm) | Stopped(vm: Vm, error: VmError)

  /** Running past the last instruction is the normal end of a program. */
  predicate Halted(code: seq<Instr>, c: Config) { c.Running? && c.pc >= |code| }

  function Advance(pc: nat, r: Outcome): Config
    requires !r.OutOfFuel?
  {
    match r
    case Done(s) => Running(pc + 1, s)
    case Fail(s, e) => Stopped(s, e)
  }

  /** One instruction of a running machine. */
  function StepInstr(t: NumberText, i: Instr, pc: nat, s: Vm): Config {
    match i
    case Do(p) => Advance(pc, Exec(t, p, s))
    case JumpIfZero(addr) =>
      if s.stack == [] then Stopped(s, StackUnderflow)
      else Running(if IsFalsey(Top(s)) then addr else pc + 1, Drop(s, 1))
    case Jump(addr) => Running(addr, s)
    case _ => Stopped(s, NotImplemented)
  }

  function Step(t: NumberText, code: seq<Instr>, c: Config): Config {
    if c.Running? && c.pc < |code| then StepInstr(t, code[c.pc], c.pc, c.vm) else c
  }

  function Run(t: NumberText, code: seq<Instr>, c: Config, n: nat): Config
    decreases n
  {
    if n == 0 then c else Run(t, code, Step(t, code, c), n - 1)
  }

  lemma {:induction false} RunSplit(t: NumberText, code: seq<Instr>, c: Config, m: nat, n: nat)
    ensures Run(t, code, c, m + n) == Run(t, code, Run(t, code, c, m), n)
    decreases m
  {
    if m > 0 { RunSplit(t, code, Step(t, code, c), m - 1, n); }
  }

  /** A machine that has ended stays as it is. */
  lemma {:induction false} RunEnded(t: NumberText, code: seq<Instr>, c: Config, n: nat)
    requires Halted(code, c) || c.Stopped?
    ensures Run(t, code, c, n) == c
    decreases n
  {
    if n > 0 { RunEnded(t, code, c, n - 1); }
  }

  /** Two runs that both end, end alike. */
  lemma EndUnique(t: NumberText, code: seq<Instr>, c: Config, m: nat, n: nat)
    requires Halted(code, Run(t, code, c, m)) || Run(t, code, c, m).Stopped?
    requires m <= n
    ensures Run(t, code, c, n) == Run(t, code, c, m)
  {
    RunSplit(t, code, c, m, n - m);
    RunEnded(t, code, Run(t, code, c, m), n - m);
  }

  /** The fragment stands in the code at address p. */
  predicate At(code: seq<Instr>, p: nat, fragment: seq<Instr>) {
    p + |fragment| <= |code| && code[p..p + |fragment|] == fragment
  }

  lemma AtSplit(code: seq<Instr>, p: nat, x: seq<Instr>, y: seq<Instr>)
    requires At(code, p, x + y)
    ensures At(code, p, x) && At(code, p + |x|, y)
  {
    var w := code[p..p + |x + y|];
    assert x == w[..|x|] && y == w[|x|..];
  }

  lemma AtSplit3(code: seq<Instr>, p: nat, x: seq<Instr>, y: seq<Instr>, z: seq<Instr>)
    requires At(code, p, x + y + z)
    ensures At(code, p, x) && At(code, p + |x|, y) && At(code, p + |x| + |y|, z)
  {
    AtSplit(code, p, x + y, z);
    AtSplit(code, p, x, y);
  }

  lemma AtIndex(code: seq<Instr>, p: nat, x: seq<Instr>, i: nat)
    requires At(code, p, x) && i < |x|
    ensures p + i < |code| && code[p + i] == x[i]
  {
    assert code[p..p + |x|][i] == x[i];
  }

  /** One instruction between two fragments. */
  lemma AtPivot(code: seq<Instr>, p: nat, x: seq<Instr>, i: Instr, y: seq<Instr>)
    requires At(code, p, x + [i] + y)
    ensures At(code, p, x) && p + |x| < |code| && code[p + |x|] == i && At(code, p + |x| + 1, y)
  {
    hide At;
    AtSplit3(code, p, x, [i], y);
    AtIndex(code, p + |x|, [i], 0);
  }
}
