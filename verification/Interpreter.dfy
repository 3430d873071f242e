/** The bytecode interpreter as an object, and programs taken from the tree to their end. */
module Interpreter {
  import opened Values
  import opened Ast
  import opened TreeVm
  import opened ErrorStack
  import opened Bytecode
  import opened CodeGen
  import opened Compiler
  import opened CodeFacts
  import opened Simulation
  import opened CompilerCorrectness
  import opened StackShape

  datatype Status = Finished | Failed(error: VmError) | StillRunning

  class BytecodeInterpreter {
    var pc: nat
    const program: seq<Instr>
    var vm: Vm

    constructor (vm: Vm, program: seq<Instr>)
      ensures this.pc == 0 && this.program == program && this.vm == vm
    {
      this.pc, this.program, this.vm := 0, program, vm;
    }

    method ExecuteInstruction(t: NumberText, op: Instr) returns (error: Option<VmError>)
      modifies this`pc, this`vm
      ensures StepInstr(t, op, old(pc), old(vm)) == if error.None? then Running(pc, vm) else Stopped(vm, error.value)
    {
      error := None;
      match op
      case Do(p) =>
        match Exec(t, p, vm) {
          case Done(s) => vm, pc := s, pc + 1;
          case Fail(s, e) => vm, error := s, Some(e);
        }
      case JumpIfZero(addr) =>
        if vm.stack == [] {
          error := Some(StackUnderflow);
        } else {
          pc := if IsFalsey(Top(vm)) then addr else pc + 1;
          vm := Drop(vm, 1);
        }
      case Jump(addr) => pc := addr;
      case _ => error := Some(NotImplemented);
    }

    /** At most `steps` instructions from the start of the program. */
    method Execute(t: NumberText, steps: nat) returns (status: Status)
      modifies this`pc, this`vm
      ensures var c := Run(t, program, Running(0, old(vm)), steps);
              && vm == c.vm
              && (status.Failed? <==> c.Stopped?) && (status.Failed? ==> status.error == c.error)
              && (c.Running? ==> pc == c.pc)
              && (status.Finished? <==> Halted(program, c))
    {
      pc := 0;
      ghost var start := Running(0, vm);
      var n := 0;
      while n < steps && pc < |program|
        invariant n <= steps
        invariant Run(t, program, start, steps) == Run(t, program, Running(pc, vm), steps - n)
      {
        ghost var before := Running(pc, vm);
        var error := ExecuteInstruction(t, program[pc]);
        assert Run(t, program, before, steps - n) == Run(t, program, Step(t, program, before), steps - n - 1);
        n := n + 1;
        if error.Some? {
          RunEnded(t, program, Stopped(vm, error.value), steps - n);
          return Failed(error.value);
        }
      }
      if pc >= |program| {
        RunEnded(t, program, Running(pc, vm), steps - n);
        return Finished;
      }
      return StillRunning;
    }
  }

  /** Without definitions, the function table is empty. */
  lemma {:induction false} NoEntries(t: NumberText, ops: seq<Op>, p: nat)
    requires Supported(t, ops)
    ensures Entries(ops, p, map[]) == map[] && Entries(ops, p, map[]).Keys == {}
    decreases |ops|
  {
    if ops != [] { NoEntries(t, ops[1..], p); }
  }

  /** The tree interpreter passes over a definition; the compiled program stops at it. So the two part
      on every program whose first operation is a definition. */
  lemma DefinitionStops(t: NumberText, def: Op, rest: seq<Op>, s: Vm, n: nat, fuel: nat)
    requires def.Def? && n > 0
    ensures var ops := [def] + rest; var defs := Entries(ops, 0, map[]).Keys;
            && Eval(t, ops, s, fuel) == Eval(t, rest, s, fuel)
            && Run(t, Code(ops, 0, defs), Running(0, s), n) == Stopped(s, NotImplemented)
  {
    hide *;
    var ops := [def] + rest;
    var defs := Entries(ops, 0, map[]).Keys;
    EntriesKeys(ops, 0, map[]);
    assert ops[0] == def && ops[1..] == rest;
    FirstDefined(ops);
    var code := Code(ops, 0, defs);
    CodeUnfold(ops, 0, defs);
    EntryFirst(def, rest, 0, defs);
    EntryStops(t, code, s, n);
    EvalDef(t, def, rest, s, fuel);
  }

  lemma FirstDefined(ops: seq<Op>)
    requires ops != [] && ops[0].Def?
    ensures ops[0].name in DefNames(ops)
  {
  }

  lemma EntryFirst(def: Op, rest: seq<Op>, p: nat, defs: set<string>)
    requires def.Def? && def.name in defs
    ensures var code := CodeOp(def, p, defs) + Code(rest, p + LenOp(def, defs), defs);
            code != [] && code[0].FunctionEntry?
  {
    hide Code, Len;
  }

  lemma EntryStops(t: NumberText, code: seq<Instr>, s: Vm, n: nat)
    requires code != [] && code[0].FunctionEntry? && n > 0
    ensures Run(t, code, Running(0, s), n) == Stopped(s, NotImplemented)
  {
    assert Step(t, code, Running(0, s)) == Stopped(s, NotImplemented);
    RunEnded(t, code, Stopped(s, NotImplemented), n - 1);
  }

  lemma EvalDef(t: NumberText, def: Op, rest: seq<Op>, s: Vm, fuel: nat)
    requires def.Def?
    ensures Eval(t, [def] + rest, s, fuel) == Eval(t, rest, s, fuel)
  {
    assert ([def] + rest)[1..] == rest;
  }

  /** Whatever end is reported is the end the tree interpreter reaches: the same state, or the same
      error with the stack of the tree interpreter up to the counters of the running loops. A run
      that is still going has not ended. */
  ghost predicate Reports(t: NumberText, ops: seq<Op>, s: Vm, steps: nat, status: Status, vm: Vm) {
    var r := Eval(t, ops, s, steps + 1);
    match status
    case Finished => r.Done? && Same(r.vm, vm)
    case Failed(e) => r.Fail? && r.error == e && SameEffects(r.vm, vm)
                      && Inserted(r.vm.stack, vm.stack, Live(t, ops, s, steps + 1))
    case StillRunning => !Ended(Program(ops), Run(t, Program(ops), Running(0, s), steps))
  }

  /** Compiles a program and runs it for at most `steps` instructions. */
  method CompileAndRun(t: NumberText, ops: seq<Op>, s: Vm, steps: nat) returns (status: Status, vm: Vm)
    requires Supported(t, ops)
    ensures Reports(t, ops, s, steps, status, vm)
  {
    hide Run, Eval, Code, Supported, Entries, Agree, Live, Inserted;
    var compiler := new BytecodeCompiler();
    var program := compiler.Compile(ops);
    NoEntries(t, ops, 0);
    assert program.instructions == Program(ops);
    var interpreter := new BytecodeInterpreter(s, program.instructions);
    status := interpreter.Execute(t, steps);
    vm := interpreter.vm;
    if !status.StillRunning? {
      SameRefl(s);
      Backward(t, ops, s, s, steps);
    }
  }

  /** The same behind a check that can be made of any program: a program that passes is run. */
  method CheckAndRun(t: NumberText, ops: seq<Op>, s: Vm, steps: nat) returns (passed: bool, status: Status, vm: Vm)
    ensures passed <==> Checked(ops)
    ensures passed ==> Reports(t, ops, s, steps, status, vm)
  {
    hide Reports;
    passed, status, vm := Checked(ops), StillRunning, s;
    if passed {
      CheckedSupported(t, ops);
      status, vm := CompileAndRun(t, ops, s, steps);
    }
  }
}
