/** Whole-program results: the compiled program and the tree interpreter agree, in both
    directions, and exactly which counted loops break the agreement. */
module CompilerCorrectness {
  import opened Values
  import opened Ast
  import opened TreeVm
  import opened Bytecode
  import opened CodeGen
  import opened ErrorStack
  import opened Simulation

  /** The final instructions of a program without function definitions. */
  function Program(ops: seq<Op>): seq<Instr> { Code(ops, 0, {}) }

  predicate Ended(code: seq<Instr>, c: Config) { Halted(code, c) || c.Stopped? }

  /** The machine stands where the structured evaluation ended. At an error its stack is the one of
      the evaluation with `live` loop counters put in between. */
  ghost predicate EndsLike(r: Outcome, code: seq<Instr>, c: Config, live: nat) {
    match r
    case Done(a) => Halted(code, c) && Same(a, c.vm)
    case Fail(a, e) => c.Stopped? && c.error == e && SameEffects(a, c.vm) && Inserted(a.stack, c.vm.stack, live)
    case OutOfFuel => false
  }

  /** Without running stack-counter loops, and only then, the error finds the same stack. */
  lemma SameStackExact(r: Outcome, code: seq<Instr>, c: Config, live: nat)
    requires r.Fail? && EndsLike(r, code, c, live)
    ensures c.vm.stack == r.vm.stack <==> live == 0
  {
    InsertedSize(r.vm.stack, c.vm.stack, live);
  }

  lemma WholeAt(code: seq<Instr>)
    ensures At(code, 0, code)
  {
  }

  lemma Simulate(t: NumberText, ops: seq<Op>, a: Vm, b: Vm, fuel: nat) returns (n: nat)
    requires Supported(t, ops) && Same(a, b)
    ensures var c := Run(t, Program(ops), Running(0, b), n); var r := Eval(t, ops, a, fuel);
            if r.OutOfFuel? then n >= fuel && !Ended(Program(ops), c)
            else EndsLike(r, Program(ops), c, Live(t, ops, a, fuel))
                 && (r.Fail? ==> c.vm.stack == FailStack(t, ops, a, fuel))
  {
    hide Eval, Run, Same, SameEffects, Kept, Supported, FailStack, Live, Inserted, Code, Len, At;
    var code := Program(ops);
    WholeAt(code);
    var c;
    n, c := SimOps(t, ops, code, 0, {}, a, b, fuel);
    if Eval(t, ops, a, fuel).Fail? { StackAtError(t, ops, a, fuel); }
  }

  /** If the tree interpreter ends, so does the compiled program, in the same way. */
  lemma Forward(t: NumberText, ops: seq<Op>, a: Vm, b: Vm, fuel: nat)
    requires Supported(t, ops) && Same(a, b)
    requires !Eval(t, ops, a, fuel).OutOfFuel?
    ensures exists n :: EndsLike(Eval(t, ops, a, fuel), Program(ops), Run(t, Program(ops), Running(0, b), n),
                                 Live(t, ops, a, fuel))
  {
    var n := Simulate(t, ops, a, b, fuel);
  }

  /** If the compiled program ends within n steps, the tree interpreter ends in the same way
      after at most n iterations of any `while`. */
  lemma Backward(t: NumberText, ops: seq<Op>, a: Vm, b: Vm, n: nat)
    requires Supported(t, ops) && Same(a, b)
    requires Ended(Program(ops), Run(t, Program(ops), Running(0, b), n))
    ensures EndsLike(Eval(t, ops, a, n + 1), Program(ops), Run(t, Program(ops), Running(0, b), n),
                     Live(t, ops, a, n + 1))
  {
    hide Eval, Run, Supported, Program, Same, Live, Inserted;
    var code, c := Program(ops), Running(0, b);
    var m := Simulate(t, ops, a, b, n + 1);
    if n <= m {
      EndUnique(t, code, c, n, m);
    } else {
      EndUnique(t, code, c, m, n);
    }
  }

  /** A program diverges as a tree exactly when it diverges as bytecode. */
  lemma DivergesAlike(t: NumberText, ops: seq<Op>, a: Vm, b: Vm)
    requires Supported(t, ops) && Same(a, b)
    ensures (forall fuel: nat :: Eval(t, ops, a, fuel).OutOfFuel?)
       <==> (forall n: nat :: !Ended(Program(ops), Run(t, Program(ops), Running(0, b), n)))
  {
    hide Eval, Run, Supported, Program, Same;
    if !forall fuel: nat :: Eval(t, ops, a, fuel).OutOfFuel? {
      var fuel: nat :| !Eval(t, ops, a, fuel).OutOfFuel?;
      Forward(t, ops, a, b, fuel);
    }
    if !forall n: nat :: !Ended(Program(ops), Run(t, Program(ops), Running(0, b), n)) {
      var n: nat :| Ended(Program(ops), Run(t, Program(ops), Running(0, b), n));
      Backward(t, ops, a, b, n);
    }
  }
}
