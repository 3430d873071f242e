/** Compiled code simulates the tree interpreter, step for step in both directions. */
module Simulation {
  import opened Values
  import opened Ast
  import opened TreeVm
  import opened TreeFacts
  import opened Bytecode
  import opened CodeGen
  import opened ErrorStack

  // ---------- relating the two machines ----------

  predicate SameCell(m: map<string, TypedValue>, m': map<string, TypedValue>, x: string) {
    (x in m <==> x in m') && (x in m ==> m[x] == m'[x])
  }

  /** The two memories hold the same user variables. */
  ghost predicate Agree(m: map<string, TypedValue>, m': map<string, TypedValue>) {
    forall x :: !Reserved(x) ==> SameCell(m, m', x)
  }

  /** Everything a program can observe, apart from the stack. */
  ghost predicate SameEffects(a: Vm, b: Vm) {
    a.output == b.output && a.events == b.events && Agree(a.memory, b.memory)
  }

  ghost predicate Same(a: Vm, b: Vm) { a.stack == b.stack && SameEffects(a, b) }

  lemma SameRefl(b: Vm)
    ensures Same(b, b)
  {
  }

  /** Of the reserved cells, only those of addresses in [lo, hi) may have changed. */
  ghost predicate Kept(m: map<string, TypedValue>, m': map<string, TypedValue>, lo: nat, hi: nat) {
    forall p: nat :: !(lo <= p < hi) ==> SameCell(m, m', LoopCounter(p)) && SameCell(m, m', MatchValue(p))
  }

  /** After n steps the machine that started at `lo` with state b is where the outcome r of the
      structured evaluation says it should be: at `exit`, stopped with the same error and the given
      stack, or, if the evaluation ran out of fuel, still among the instructions of [lo, hi). */
  ghost predicate Simulates(r: Outcome, c: Config, b: Vm, lo: nat, hi: nat, exit: nat, fuel: nat, n: nat,
                            stack: seq<TypedValue>) {
    match r
    case Done(a) => c.Running? && c.pc == exit && Same(a, c.vm) && Kept(b.memory, c.vm.memory, lo, hi)
    case Fail(a, e) => c.Stopped? && c.error == e && SameEffects(a, c.vm) && c.vm.stack == stack
    case OutOfFuel => c.Running? && lo <= c.pc < hi && n >= fuel
  }

  // ---------- single steps ----------

  /** A primitive acts alike on two machines with the same user variables. */
  lemma ExecSame(t: NumberText, p: Prim, a: Vm, b: Vm, lo: nat, hi: nat)
    requires UserName(p) && Same(a, b)
    ensures !Exec(t, p, a).OutOfFuel? && !Exec(t, p, b).OutOfFuel?
    ensures Exec(t, p, a).Done? ==>
              Exec(t, p, b).Done? && Same(Exec(t, p, a).vm, Exec(t, p, b).vm)
              && Kept(b.memory, Exec(t, p, b).vm.memory, lo, hi)
    ensures Exec(t, p, a).Fail? ==>
              Exec(t, p, b).Fail? && Exec(t, p, b).error == Exec(t, p, a).error
              && Same(Exec(t, p, a).vm, Exec(t, p, b).vm)
  {
    if p.Store? {
      forall q: nat ensures Reserved(LoopCounter(q)) && Reserved(MatchValue(q)) { TempsDistinct(q, q); }
    }
    if p.Load? { assert SameCell(a.memory, b.memory, p.name); }
  }

  lemma OneStep(t: NumberText, code: seq<Instr>, c: Config)
    ensures Run(t, code, c, 1) == Step(t, code, c)
  {
    assert Run(t, code, Step(t, code, c), 0) == Step(t, code, c);
  }

  lemma Chain(t: NumberText, code: seq<Instr>, c: Config, m: nat, d: Config, n: nat, e: Config)
    requires Run(t, code, c, m) == d && Run(t, code, d, n) == e
    ensures Run(t, code, c, m + n) == e
  {
    RunSplit(t, code, c, m, n);
  }

  lemma KeptTrans(m0: map<string, TypedValue>, m1: map<string, TypedValue>, m2: map<string, TypedValue>,
                  lo: nat, mid1: nat, mid2: nat, hi: nat, lo2: nat)
    requires Kept(m0, m1, lo, mid1) && Kept(m1, m2, lo2, mid2)
    requires lo <= lo2 && mid1 <= hi && mid2 <= hi
    ensures Kept(m0, m2, lo, hi)
  {
    forall p: nat | !(lo <= p < hi)
      ensures SameCell(m0, m2, LoopCounter(p)) && SameCell(m0, m2, MatchValue(p))
    {
      assert SameCell(m0, m1, LoopCounter(p)) && SameCell(m0, m1, MatchValue(p));
      assert SameCell(m1, m2, LoopCounter(p)) && SameCell(m1, m2, MatchValue(p));
    }
  }

  // ---------- instructions with a known effect ----------

  lemma StepPush(t: NumberText, code: seq<Instr>, pc: nat, v: TypedValue, b: Vm)
    requires pc < |code| && code[pc] == Instr.Do(Push(v))
    ensures Step(t, code, Running(pc, b)) == Running(pc + 1, b.(stack := b.stack + [v]))
  {
  }

  lemma StepBinary(t: NumberText, code: seq<Instr>, pc: nat, op: BinOp, b: Vm,
                   base: seq<TypedValue>, x: TypedValue, y: TypedValue, v: TypedValue)
    requires pc < |code| && code[pc] == Instr.Do(Binary(op))
    requires b.stack == base + [x] + [y] && Apply(t, op, x, y) == Ok(v)
    ensures Step(t, code, Running(pc, b)) == Running(pc + 1, b.(stack := base + [v]))
  {
    hide Apply;
    assert b.stack[|b.stack| - 2] == x && b.stack[|b.stack| - 1] == y;
    assert b.stack[..|b.stack| - 2] == base;
  }

  lemma StepDup(t: NumberText, code: seq<Instr>, pc: nat, b: Vm, base: seq<TypedValue>, v: TypedValue)
    requires pc < |code| && code[pc] == Instr.Do(Dup) && b.stack == base + [v]
    ensures Step(t, code, Running(pc, b)) == Running(pc + 1, b.(stack := base + [v] + [v]))
  {
  }

  lemma StepPop(t: NumberText, code: seq<Instr>, pc: nat, b: Vm, base: seq<TypedValue>, v: TypedValue)
    requires pc < |code| && code[pc] == Instr.Do(Pop) && b.stack == base + [v]
    ensures Step(t, code, Running(pc, b)) == Running(pc + 1, b.(stack := base))
  {
    assert b.stack[..|b.stack| - 1] == base;
  }

  lemma StepJumpIfZero(t: NumberText, code: seq<Instr>, pc: nat, target: nat, b: Vm, base: seq<TypedValue>,
                       v: TypedValue)
    requires pc < |code| && code[pc] == JumpIfZero(target) && b.stack == base + [v]
    ensures Step(t, code, Running(pc, b)) == Running(if IsFalsey(v) then target else pc + 1, b.(stack := base))
  {
    assert b.stack[..|b.stack| - 1] == base;
  }

  lemma StepStore(t: NumberText, code: seq<Instr>, pc: nat, x: string, b: Vm, base: seq<TypedValue>, v: TypedValue)
    requires pc < |code| && code[pc] == Instr.Do(Store(x)) && b.stack == base + [v]
    ensures Step(t, code, Running(pc, b)) == Running(pc + 1, b.(stack := base, memory := b.memory[x := v]))
  {
    assert b.stack[..|b.stack| - 1] == base;
  }

  lemma StepLoad(t: NumberText, code: seq<Instr>, pc: nat, x: string, b: Vm)
    requires pc < |code| && code[pc] == Instr.Do(Load(x)) && x in b.memory
    ensures Step(t, code, Running(pc, b)) == Running(pc + 1, b.(stack := b.stack + [b.memory[x]]))
  {
  }

  // ---------- the simulation ----------

  /** The three-way simulation: a structured evaluation that ends, fails or exhausts its fuel is
      matched by the code standing at p, which leaves, stops, or is still inside after at least
      `fuel` steps. */
  lemma {:induction false} SimOps(t: NumberText, ops: seq<Op>, code: seq<Instr>, p: nat, defs: set<string>,
                                  a: Vm, b: Vm, fuel: nat) returns (n: nat, c: Config)
    requires Supported(t, ops) && Same(a, b)
    requires At(code, p, Code(ops, p, defs))
    ensures c == Run(t, code, Running(p, b), n)
    ensures Simulates(Eval(t, ops, a, fuel), c, b, p, p + Len(ops, defs), p + Len(ops, defs), fuel, n,
                      FailStack(t, ops, a, fuel))
    decreases fuel, ops, 0
  {
    hide *;
    if ops == [] {
      SimNothing(t, code, p, defs, a, b, fuel);
      n, c := 0, Running(p, b);
    } else {
      var q := p + LenOp(ops[0], defs);
      OpsLayout(t, ops, code, p, defs, a, fuel);
      n, c := SimOp(t, ops[0], code, p, defs, a, b, fuel);
      var r, hi := EvalOp(t, ops[0], a, fuel), p + Len(ops, defs);
      Unfinished(r, c, b, p, q, hi, fuel, n, FailStackOp(t, ops[0], a, fuel));
      if r.Done? {
        Finished(r, c, b, p, q, q, fuel, n, FailStackOp(t, ops[0], a, fuel));
        var m, d := SimOps(t, ops[1..], code, q, defs, r.vm, c.vm, fuel);
        Prefix(t, code, Running(p, b), n, c, Eval(t, ops[1..], r.vm, fuel), m, d, p, q, q, hi, hi, hi, fuel,
               FailStack(t, ops, a, fuel));
        n, c := n + m, d;
      }
    }
  }

  lemma SimNothing(t: NumberText, code: seq<Instr>, p: nat, defs: set<string>, a: Vm, b: Vm, fuel: nat)
    requires Same(a, b)
    ensures Run(t, code, Running(p, b), 0) == Running(p, b) && Len([], defs) == 0
    ensures Simulates(Eval(t, [], a, fuel), Running(p, b), b, p, p, p, fuel, 0, FailStack(t, [], a, fuel))
  {
  }

  /** A block is its first operation followed by the rest. */
  lemma OpsLayout(t: NumberText, ops: seq<Op>, code: seq<Instr>, p: nat, defs: set<string>, a: Vm, fuel: nat)
    requires ops != [] && At(code, p, Code(ops, p, defs)) && Supported(t, ops)
    ensures var q := p + LenOp(ops[0], defs);
            At(code, p, CodeOp(ops[0], p, defs)) && At(code, q, Code(ops[1..], q, defs))
    ensures SupportedOp(t, ops[0]) && Supported(t, ops[1..])
    ensures Len(ops, defs) == LenOp(ops[0], defs) + Len(ops[1..], defs)
    ensures var r := EvalOp(t, ops[0], a, fuel);
            if r.Done? then Eval(t, ops, a, fuel) == Eval(t, ops[1..], r.vm, fuel)
                            && FailStack(t, ops, a, fuel) == FailStack(t, ops[1..], r.vm, fuel)
            else Eval(t, ops, a, fuel) == r && FailStack(t, ops, a, fuel) == FailStackOp(t, ops[0], a, fuel)
  {
    AtSplit(code, p, CodeOp(ops[0], p, defs), Code(ops[1..], p + LenOp(ops[0], defs), defs));
  }

  lemma {:induction false} SimOp(t: NumberText, op: Op, code: seq<Instr>, p: nat, defs: set<string>,
                                 a: Vm, b: Vm, fuel: nat) returns (n: nat, c: Config)
    requires SupportedOp(t, op) && Same(a, b)
    requires At(code, p, CodeOp(op, p, defs))
    ensures c == Run(t, code, Running(p, b), n)
    ensures Simulates(EvalOp(t, op, a, fuel), c, b, p, p + LenOp(op, defs), p + LenOp(op, defs), fuel, n,
                      FailStackOp(t, op, a, fuel))
    decreases fuel, op, 9
  {
    hide Agree, Kept, Run, Code, Len, Supported, Eval, FailStack, Exec, NeutralBody, CodeTimes;
    match op
    case If(_, _, _) => IfLayout(op, code, p, defs); n, c := SimIf(t, op, code, p, defs, a, b, fuel);
    case While(_, _) => WhileLayout(op, code, p, defs); n, c := SimWhile(t, op, code, p, defs, a, b, fuel);
    case Loop(count, body) =>
      if count <= UNROLL_LIMIT {
        n, c := SimTimes(t, body, count, code, p, defs, a, b, fuel);
      } else if IsFast(count, body) {
        n, c := SimFast(t, op, code, p, defs, a, b, fuel);
      } else {
        n, c := SimSlow(t, op, code, p, defs, a, b, fuel);
      }
    case Match(_, _, _) => MatchLayout(op, code, p, defs); n, c := SimMatch(t, op, code, p, defs, a, b, fuel);
    case _ => c := SimSingle(t, op, code, p, defs, a, b, fuel); n := 1;
  }

  /** Operations that compile to one instruction. */
  lemma SimSingle(t: NumberText, op: Op, code: seq<Instr>, p: nat, defs: set<string>,
                  a: Vm, b: Vm, fuel: nat) returns (c: Config)
    requires (op.Do? || op.IfPassed? || op.ElseBlock?) && SupportedOp(t, op) && Same(a, b)
    requires At(code, p, CodeOp(op, p, defs))
    ensures c == Run(t, code, Running(p, b), 1)
    ensures Simulates(EvalOp(t, op, a, fuel), c, b, p, p + LenOp(op, defs), p + LenOp(op, defs), fuel, 1,
                      FailStackOp(t, op, a, fuel))
  {
    AtIndex(code, p, CodeOp(op, p, defs), 0);
    OneStep(t, code, Running(p, b));
    c := Step(t, code, Running(p, b));
    if op.Do? {
      hide Run, Exec, Agree, Kept, At;
      ExecSame(t, op.prim, a, b, p, p + 1);
    }
  }

  /** What a tested condition leaves: its value is popped. */
  function Tested(e: Outcome): Outcome {
    if !e.Done? then e
    else if e.vm.stack == [] then Fail(e.vm, StackUnderflow)
    else Done(Drop(e.vm, 1))
  }

  lemma TestStep(t: NumberText, code: seq<Instr>, pc: nat, target: nat, b: Vm)
    requires pc < |code| && code[pc] == JumpIfZero(target)
    ensures Step(t, code, Running(pc, b)) ==
            if b.stack == [] then Stopped(b, StackUnderflow)
            else Running(if IsFalsey(Top(b)) then target else pc + 1, Drop(b, 1))
  {
  }

  /** A condition and the conditional jump after it. */
  lemma {:induction false} SimTest(t: NumberText, cond: seq<Op>, code: seq<Instr>, p: nat, target: nat,
                                   defs: set<string>,
                                   a: Vm, b: Vm, fuel: nat) returns (n: nat, c: Config, exit: nat)
    requires Supported(t, cond) && Same(a, b)
    requires At(code, p, Code(cond, p, defs))
    requires p + Len(cond, defs) < |code| && code[p + Len(cond, defs)] == JumpIfZero(target)
    ensures c == Run(t, code, Running(p, b), n)
    ensures var e := Eval(t, cond, a, fuel); var q := p + Len(cond, defs);
            Simulates(Tested(e), c, b, p, q + 1, exit, fuel, n, if e.Done? then [] else FailStack(t, cond, a, fuel))
            && (Tested(e).Done? ==> n > 0 && exit == if IsFalsey(Top(e.vm)) then target else q + 1)
    decreases fuel, cond, 1
  {
    hide Agree, Kept, Code, Supported, Eval, FailStack, Run, Step, At, Len;
    var q := p + Len(cond, defs);
    exit := q + 1;
    n, c := SimOps(t, cond, code, p, defs, a, b, fuel);
    var e := Eval(t, cond, a, fuel);
    if e.Done? {
      var a1, b1 := e.vm, c.vm;
      var d := Step(t, code, c);
      TestStep(t, code, q, target, b1);
      OneStep(t, code, c);
      Chain(t, code, Running(p, b), n, c, 1, d);
      Widen(b.memory, b1.memory, p, q, p, q + 1);
      n, c := n + 1, d;
      if a1.stack != [] {
        exit := if IsFalsey(Top(a1)) then target else q + 1;
      }
    }
  }

  lemma Widen(m: map<string, TypedValue>, m': map<string, TypedValue>, lo: nat, hi: nat, lo': nat, hi': nat)
    requires Kept(m, m', lo, hi) && lo' <= lo && hi <= hi'
    ensures Kept(m, m', lo', hi')
  {
  }

  lemma Finished(r: Outcome, c: Config, b: Vm, lo: nat, hi: nat, exit: nat, fuel: nat, n: nat, stack: seq<TypedValue>)
    requires r.Done? && Simulates(r, c, b, lo, hi, exit, fuel, n, stack)
    ensures c.Running? && c.pc == exit && Same(r.vm, c.vm) && Kept(b.memory, c.vm.memory, lo, hi)
  {
  }

  /** An evaluation that failed or ran out inside a part has done so in the whole. */
  lemma Unfinished(r: Outcome, c: Config, b: Vm, lo: nat, hi1: nat, hi: nat, fuel: nat, n: nat, stack: seq<TypedValue>)
    requires Simulates(r, c, b, lo, hi1, hi1, fuel, n, stack) && hi1 <= hi
    ensures !r.Done? ==> Simulates(r, c, b, lo, hi, hi, fuel, n, stack)
  {
  }

  /** A run inside the range [lo, hi), followed by a simulated part of it, [lo1, hi1). */
  lemma Prefix(t: NumberText, code: seq<Instr>, c0: Config, m: nat, c1: Config, r: Outcome, n: nat, c: Config,
               lo: nat, hi0: nat, lo1: nat, hi1: nat, hi: nat, exit: nat, fuel: nat, stack: seq<TypedValue>)
    requires c0.Running? && c1.Running? && Run(t, code, c0, m) == c1 && Run(t, code, c1, n) == c
    requires Kept(c0.vm.memory, c1.vm.memory, lo, hi0)
    requires lo <= lo1 && hi0 <= hi && hi1 <= hi
    requires Simulates(r, c, c1.vm, lo1, hi1, exit, fuel, n, stack)
    ensures Run(t, code, c0, m + n) == c
    ensures Simulates(r, c, c0.vm, lo, hi, exit, fuel, m + n, stack)
  {
    Chain(t, code, c0, m, c1, n, c);
    if r.Done? { KeptTrans(c0.vm.memory, c1.vm.memory, c.vm.memory, lo, hi0, hi1, hi, lo1); }
  }

  /** A simulated fragment followed by a jump. */
  lemma ThenJump(t: NumberText, code: seq<Instr>, p: nat, b: Vm, r: Outcome, n: nat, c: Config,
                 hi1: nat, hi: nat, exit: nat, fuel: nat, stack: seq<TypedValue>) returns (n': nat, c': Config)
    requires Run(t, code, Running(p, b), n) == c && Simulates(r, c, b, p, hi1, hi1, fuel, n, stack)
    requires hi1 < |code| && code[hi1] == Jump(exit) && hi1 <= hi
    ensures c' == Run(t, code, Running(p, b), n')
    ensures Simulates(r, c', b, p, hi, exit, fuel, n', stack)
  {
    n', c' := n, c;
    if r.Done? {
      OneStep(t, code, c);
      Chain(t, code, Running(p, b), n, c, 1, Step(t, code, c));
      n', c' := n + 1, Step(t, code, c);
      Widen(b.memory, c.vm.memory, p, hi1, p, hi);
    }
  }

  /** Where the parts of an `if` stand. */
  predicate IfAt(op: Op, code: seq<Instr>, p: nat, defs: set<string>)
    requires op.If?
  {
    var q, hi := p + Len(op.cond, defs), p + LenOp(op, defs);
    var r := q + 1 + Len(op.thn, defs);
    && At(code, p, Code(op.cond, p, defs))
    && q < |code| && code[q] == JumpIfZero(if op.els.Block? then r + 1 else r)
    && At(code, q + 1, Code(op.thn, q + 1, defs))
    && (op.els.Block? ==> r < |code| && code[r] == Jump(hi) && At(code, r + 1, Code(op.els.ops, r + 1, defs)))
  }

  lemma IfLayout(op: Op, code: seq<Instr>, p: nat, defs: set<string>)
    requires op.If? && At(code, p, CodeOp(op, p, defs))
    ensures IfAt(op, code, p, defs)
  {
    hide Code, CodeOp, Len, LenOp, At;
    var q, hi := p + Len(op.cond, defs), p + LenOp(op, defs);
    var r := q + 1 + Len(op.thn, defs);
    var target := if op.els.Block? then r + 1 else r;
    var cc, ct := Code(op.cond, p, defs), Code(op.thn, q + 1, defs);
    IfCode(op, p, defs);
    if op.els.Block? {
      AtPivot(code, p, cc + [JumpIfZero(target)] + ct, Jump(hi), Code(op.els.ops, r + 1, defs));
    }
    AtPivot(code, p, cc, JumpIfZero(target), ct);
  }

  lemma {:induction false} SimIf(t: NumberText, op: Op, code: seq<Instr>, p: nat, defs: set<string>,
                                 a: Vm, b: Vm, fuel: nat) returns (n: nat, c: Config)
    requires op.If? && SupportedOp(t, op) && Same(a, b) && IfAt(op, code, p, defs)
    ensures c == Run(t, code, Running(p, b), n)
    ensures Simulates(EvalOp(t, op, a, fuel), c, b, p, p + LenOp(op, defs), p + LenOp(op, defs), fuel, n,
                      FailStackOp(t, op, a, fuel))
    decreases fuel, op, 8
  {
    hide Agree, Kept, Run, Code, CodeOp, Len, At, Supported, Eval, FailStack;
    var If(cond, thn, els) := op;
    var q, hi := p + Len(cond, defs), p + LenOp(op, defs);
    var r := q + 1 + Len(thn, defs);
    var exit;
    n, c, exit := SimTest(t, cond, code, p, if els.Block? then r + 1 else r, defs, a, b, fuel);
    var e := Eval(t, cond, a, fuel);
    if Tested(e).Done? {
      var a1, b1 := Drop(e.vm, 1), c.vm;
      var m, d := 0, c;
      assert Run(t, code, c, 0) == c by { RunZero(t, code, c); }
      KeptRefl(b1.memory, exit, hi);
      if !IsFalsey(Top(e.vm)) {
        m, d := SimOps(t, thn, code, q + 1, defs, a1, b1, fuel);
        if els.Block? {
          m, d := ThenJump(t, code, q + 1, b1, Eval(t, thn, a1, fuel), m, d, r, hi, hi, fuel,
                           FailStack(t, thn, a1, fuel));
        }
      } else if els.Block? {
        m, d := SimOps(t, els.ops, code, r + 1, defs, a1, b1, fuel);
      }
      Prefix(t, code, Running(p, b), n, c, EvalOp(t, op, a, fuel), m, d, p, q + 1, exit, hi, hi, hi, fuel,
             FailStackOp(t, op, a, fuel));
      n, c := n + m, d;
    }
  }

  lemma RunZero(t: NumberText, code: seq<Instr>, c: Config)
    ensures Run(t, code, c, 0) == c
  {
  }

  lemma KeptRefl(m: map<string, TypedValue>, lo: nat, hi: nat)
    ensures Kept(m, m, lo, hi)
  {
  }

  /** Where the parts of a `while` stand. */
  predicate WhileAt(op: Op, code: seq<Instr>, p: nat, defs: set<string>)
    requires op.While?
  {
    var q, hi := p + Len(op.cond, defs), p + LenOp(op, defs);
    && At(code, p, Code(op.cond, p, defs))
    && q < |code| && code[q] == JumpIfZero(hi)
    && At(code, q + 1, Code(op.body, q + 1, defs))
    && hi - 1 < |code| && code[hi - 1] == Jump(p)
  }

  lemma WhileLayout(op: Op, code: seq<Instr>, p: nat, defs: set<string>)
    requires op.While? && At(code, p, CodeOp(op, p, defs))
    ensures WhileAt(op, code, p, defs)
  {
    hide Code, CodeOp, Len, LenOp, At;
    var q, hi := p + Len(op.cond, defs), p + LenOp(op, defs);
    var cc, cb := Code(op.cond, p, defs), Code(op.body, q + 1, defs);
    WhileCode(op, p, defs);
    AtSplit(code, p, cc + [JumpIfZero(hi)] + cb, [Jump(p)]);
    AtSplit3(code, p, cc, [JumpIfZero(hi)], cb);
    AtIndex(code, q, [JumpIfZero(hi)], 0);
    AtIndex(code, hi - 1, [Jump(p)], 0);
  }

  lemma {:induction false} SimWhile(t: NumberText, op: Op, code: seq<Instr>, p: nat, defs: set<string>,
                                    a: Vm, b: Vm, fuel: nat) returns (n: nat, c: Config)
    requires op.While? && SupportedOp(t, op) && Same(a, b) && WhileAt(op, code, p, defs)
    ensures c == Run(t, code, Running(p, b), n)
    ensures Simulates(EvalOp(t, op, a, fuel), c, b, p, p + LenOp(op, defs), p + LenOp(op, defs), fuel, n,
                      FailStackOp(t, op, a, fuel))
    decreases fuel, op, 8
  {
    hide Agree, Kept, Run, Code, CodeOp, Len, At, Supported, Eval, FailStack;
    var While(cond, body) := op;
    var q, hi := p + Len(cond, defs), p + LenOp(op, defs);
    if fuel == 0 {
      RunZero(t, code, Running(p, b));
      return 0, Running(p, b);
    }
    var exit;
    n, c, exit := SimTest(t, cond, code, p, hi, defs, a, b, fuel);
    var e := Eval(t, cond, a, fuel);
    if Tested(e).Done? {
      var a1, b1 := Drop(e.vm, 1), c.vm;
      if IsFalsey(Top(e.vm)) {
        Widen(b.memory, b1.memory, p, q + 1, p, hi);
      } else {
        var m, d := SimOps(t, body, code, q + 1, defs, a1, b1, fuel);
        m, d := ThenJump(t, code, q + 1, b1, Eval(t, body, a1, fuel), m, d, hi - 1, hi, p, fuel,
                         FailStack(t, body, a1, fuel));
        Prefix(t, code, Running(p, b), n, c, Eval(t, body, a1, fuel), m, d, p, q + 1, q + 1, hi, hi, p, fuel,
               FailStack(t, body, a1, fuel));
        n, c := n + m, d;
        var e2 := Eval(t, body, a1, fuel);
        if e2.Done? {
          var b2 := c.vm;
          var m2, d2 := SimWhile(t, op, code, p, defs, e2.vm, b2, fuel - 1);
          AfterIteration(t, code, p, b, n, b2, EvalOp(t, op, e2.vm, fuel - 1), m2, d2, hi, fuel,
                         FailStackOp(t, op, e2.vm, fuel - 1));
          n, c := n + m2, d2;
        }
      }
    }
  }

  /** Once around a loop, then the rest of it on one unit of fuel less. */
  lemma AfterIteration(t: NumberText, code: seq<Instr>, p: nat, b: Vm, m: nat, b1: Vm,
                       r: Outcome, n: nat, c: Config, hi: nat, fuel: nat, stack: seq<TypedValue>)
    requires fuel > 0 && m > 0
    requires Run(t, code, Running(p, b), m) == Running(p, b1) && Run(t, code, Running(p, b1), n) == c
    requires Kept(b.memory, b1.memory, p, hi)
    requires Simulates(r, c, b1, p, hi, hi, fuel - 1, n, stack)
    ensures Run(t, code, Running(p, b), m + n) == c
    ensures Simulates(r, c, b, p, hi, hi, fuel, m + n, stack)
  {
    Prefix(t, code, Running(p, b), m, Running(p, b1), r, n, c, p, hi, p, hi, hi, hi, fuel - 1, stack);
  }

  lemma TimesLayout(body: seq<Op>, count: nat, code: seq<Instr>, p: nat, defs: set<string>)
    requires count > 0 && At(code, p, CodeTimes(body, count, p, defs))
    ensures var w := Len(body, defs);
            At(code, p, Code(body, p, defs)) && At(code, p + w, CodeTimes(body, count - 1, p + w, defs))
            && count * w == w + (count - 1) * w
  {
    hide Code, Len, At;
    var w := Len(body, defs);
    assert count * w == w + (count - 1) * w;
    AtSplit(code, p, Code(body, p, defs), CodeTimes(body, count - 1, p + w, defs));
  }

  lemma SimulatesDone(a: Vm, b: Vm, p: nat, fuel: nat, stack: seq<TypedValue>)
    requires Same(a, b) && Kept(b.memory, b.memory, p, p)
    ensures Simulates(Done(a), Running(p, b), b, p, p, p, fuel, 0, stack)
  {
  }

  lemma {:induction false} SimTimes(t: NumberText, body: seq<Op>, count: nat, code: seq<Instr>, p: nat,
                                    defs: set<string>,
                                    a: Vm, b: Vm, fuel: nat) returns (n: nat, c: Config)
    requires Supported(t, body) && Same(a, b)
    requires At(code, p, CodeTimes(body, count, p, defs))
    ensures c == Run(t, code, Running(p, b), n)
    ensures Simulates(EvalTimes(t, body, count, a, fuel), c, b, p, p + count * Len(body, defs),
                      p + count * Len(body, defs), fuel, n, FailStackTimes(t, body, count, false, a, fuel))
    decreases fuel, body, count + 1
  {
    hide Agree, Kept, Run, Code, CodeTimes, At, Supported, Eval, Len, FailStack, Simulates, Same;
    if count == 0 {
      RunZero(t, code, Running(p, b));
      KeptRefl(b.memory, p, p);
      SimulatesDone(a, b, p, fuel, FailStackTimes(t, body, count, false, a, fuel));
      n, c := 0, Running(p, b);
    } else {
      var w := Len(body, defs);
      TimesLayout(body, count, code, p, defs);
      n, c := SimOps(t, body, code, p, defs, a, b, fuel);
      var e := Eval(t, body, a, fuel);
      Unfinished(e, c, b, p, p + w, p + count * w, fuel, n, FailStack(t, body, a, fuel));
      if e.Done? {
        Finished(e, c, b, p, p + w, p + w, fuel, n, FailStack(t, body, a, fuel));
        var m, d := SimTimes(t, body, count - 1, code, p + w, defs, e.vm, c.vm, fuel);
        Prefix(t, code, Running(p, b), n, c, EvalTimes(t, body, count - 1, e.vm, fuel), m, d,
               p, p + w, p + w, p + count * w, p + count * w, p + count * w, fuel,
               FailStackTimes(t, body, count, false, a, fuel));
        n, c := n + m, d;
      }
    }
  }

  // ---------- the counter on the stack ----------

  lemma FourSteps(t: NumberText, code: seq<Instr>, c: Config)
    ensures Run(t, code, c, 4) == Step(t, code, Step(t, code, Step(t, code, Step(t, code, c))))
  {
    var c1 := Step(t, code, c);
    var c2 := Step(t, code, c1);
    var c3 := Step(t, code, c2);
    OneStep(t, code, c3);
    assert Run(t, code, c2, 2) == Run(t, code, c3, 1);
    assert Run(t, code, c1, 3) == Run(t, code, c2, 2);
  }

  /** The loop test of both counter lowerings. */
  lemma CounterTest(t: NumberText, k: nat)
    ensures Apply(t, Gt, Number(k as real), Number(0.0)) == Ok(Boolean(k > 0))
    ensures k > 0 ==> Apply(t, Sub, Number(k as real), Number(1.0)) == Ok(Number((k - 1) as real))
  {
  }

  lemma FastHeadAt(code: seq<Instr>, p: nat, count: nat, w: nat)
    requires At(code, p, FastHead(p, count, w))
    ensures p + 5 <= |code| && code[p + 1] == Instr.Do(Dup) && code[p + 2] == Instr.Do(Push(Number(0.0)))
    ensures code[p + 3] == Instr.Do(Binary(Gt)) && code[p + 4] == JumpIfZero(p + 5 + w + 3)
  {
    forall i | 0 <= i < 5 ensures p + i < |code| && code[p + i] == FastHead(p, count, w)[i] {
      AtIndex(code, p, FastHead(p, count, w), i);
    }
  }

  /** Testing the counter on top of the stack leaves the state as it was. */
  lemma FastTest(t: NumberText, code: seq<Instr>, p: nat, count: nat, w: nat, b: Vm, base: seq<TypedValue>, k: nat)
    requires At(code, p, FastHead(p, count, w)) && b.stack == base + [Number(k as real)]
    ensures Run(t, code, Running(p + 1, b), 4) == Running(if k > 0 then p + 5 else p + 5 + w + 3, b)
  {
    hide Step, Apply, Run, At, FastHead;
    FastHeadAt(code, p, count, w);
    CounterTest(t, k);
    var v := Number(k as real);
    StepDup(t, code, p + 1, b, base, v);
    var b1 := b.(stack := base + [v] + [v]);
    StepPush(t, code, p + 2, Number(0.0), b1);
    var b2 := b.(stack := base + [v] + [v] + [Number(0.0)]);
    StepBinary(t, code, p + 3, Gt, b2, base + [v], v, Number(0.0), Boolean(k > 0));
    var b3 := b.(stack := base + [v] + [Boolean(k > 0)]);
    StepJumpIfZero(t, code, p + 4, p + 5 + w + 3, b3, base + [v], Boolean(k > 0));
    FourSteps(t, code, Running(p + 1, b));
  }

  lemma ThreeSteps(t: NumberText, code: seq<Instr>, c: Config)
    ensures Run(t, code, c, 3) == Step(t, code, Step(t, code, Step(t, code, c)))
  {
    var c1 := Step(t, code, c);
    OneStep(t, code, Step(t, code, c1));
    assert Run(t, code, c1, 2) == Run(t, code, Step(t, code, c1), 1);
  }

  /** Decrementing the counter and going back to the test. */
  lemma FastNext(t: NumberText, code: seq<Instr>, p: nat, e: nat, b: Vm, base: seq<TypedValue>, k: nat)
    requires At(code, e, FastTail(p)) && b.stack == base + [Number(k as real)] && k > 0
    ensures Run(t, code, Running(e, b), 3) == Running(p + 1, b.(stack := base + [Number((k - 1) as real)]))
  {
    forall i | 0 <= i < 4 ensures e + i < |code| && code[e + i] == FastTail(p)[i] {
      AtIndex(code, e, FastTail(p), i);
    }
    hide Apply, Run, At, Exec;
    CounterTest(t, k);
    var v, v' := Number(k as real), Number((k - 1) as real);
    StepPush(t, code, e, Number(1.0), b);
    var b1 := b.(stack := base + [v] + [Number(1.0)]);
    StepBinary(t, code, e + 1, Sub, b1, base, v, Number(1.0), v');
    assert Step(t, code, Running(e + 2, b.(stack := base + [v']))) == Running(p + 1, b.(stack := base + [v']));
    ThreeSteps(t, code, Running(e, b));
  }

  /** The end of the loop pops the counter. */
  lemma FastExit(t: NumberText, code: seq<Instr>, p: nat, e: nat, b: Vm, base: seq<TypedValue>, v: TypedValue)
    requires At(code, e, FastTail(p)) && b.stack == base + [v]
    ensures Run(t, code, Running(e + 3, b), 1) == Running(e + 4, b.(stack := base))
  {
    AtIndex(code, e, FastTail(p), 3);
    OneStep(t, code, Running(e + 3, b));
    StepPop(t, code, e + 3, b, base, v);
  }

  /** Where the parts of a loop with its counter on the stack stand. */
  predicate FastAt(op: Op, code: seq<Instr>, p: nat, defs: set<string>)
    requires op.Loop?
  {
    var w := Len(op.body, defs);
    At(code, p, FastHead(p, op.count, w)) && At(code, p + 5, Code(op.body, p + 5, defs))
    && At(code, p + 5 + w, FastTail(p))
  }

  lemma FastLayout(op: Op, code: seq<Instr>, p: nat, defs: set<string>)
    requires op.Loop? && IsFast(op.count, op.body) && At(code, p, CodeOp(op, p, defs))
    ensures FastAt(op, code, p, defs)
    ensures p < |code| && code[p] == Instr.Do(Push(Number(op.count as real)))
    ensures LenOp(op, defs) == 5 + Len(op.body, defs) + 4
  {
    hide Code, Len, At;
    var w := Len(op.body, defs);
    AtSplit3(code, p, FastHead(p, op.count, w), Code(op.body, p + 5, defs), FastTail(p));
    AtIndex(code, p, FastHead(p, op.count, w), 0);
  }

  lemma {:induction false} SimFast(t: NumberText, op: Op, code: seq<Instr>, p: nat, defs: set<string>,
                                   a: Vm, b: Vm, fuel: nat) returns (n: nat, c: Config)
    requires op.Loop? && IsFast(op.count, op.body) && SupportedOp(t, op) && Same(a, b)
    requires At(code, p, CodeOp(op, p, defs))
    ensures c == Run(t, code, Running(p, b), n)
    ensures Simulates(EvalOp(t, op, a, fuel), c, b, p, p + LenOp(op, defs), p + LenOp(op, defs), fuel, n,
                      FailStackOp(t, op, a, fuel))
    decreases fuel, op, 8
  {
    hide Agree, Kept, Run, Code, CodeOp, Len, LenOp, At, Supported, NeutralBody, FastHead, Eval;
    var w, hi := Len(op.body, defs), p + LenOp(op, defs);
    FastLayout(op, code, p, defs);
    var v := Number(op.count as real);
    var b1 := b.(stack := b.stack + [v]);
    StepPush(t, code, p, v, b);
    OneStep(t, code, Running(p, b));
    n, c := SimFastFrom(t, op, op.count, code, p, defs, a, b1, fuel);
    KeptRefl(b.memory, p, hi);
    Prefix(t, code, Running(p, b), 1, Running(p + 1, b1), EvalOp(t, op, a, fuel), n, c, p, hi, p + 1, hi, hi, hi,
           fuel, FailStackOp(t, op, a, fuel));
    n := 1 + n;
  }

  /** From the test on, with k iterations to go. */
  lemma {:induction false} SimFastFrom(t: NumberText, op: Op, k: nat, code: seq<Instr>, p: nat, defs: set<string>,
                                       a: Vm, b: Vm, fuel: nat) returns (n: nat, c: Config)
    requires op.Loop? && IsFast(op.count, op.body) && SupportedOp(t, op) && FastAt(op, code, p, defs)
    requires b.stack == a.stack + [Number(k as real)] && SameEffects(a, b)
    ensures c == Run(t, code, Running(p + 1, b), n)
    ensures Simulates(EvalTimes(t, op.body, k, a, fuel), c, b, p + 1, p + LenOp(op, defs), p + LenOp(op, defs),
                      fuel, n, FailStackTimes(t, op.body, k, true, a, fuel))
    decreases fuel, op, 7, k
  {
    hide Agree, Kept, Run, Code, Len, At, Supported, NeutralBody, Eval, FastHead, FastTail;
    var body, hi := op.body, p + LenOp(op, defs);
    var w := Len(body, defs);
    FastTest(t, code, p, op.count, w, b, a.stack, k);
    if k == 0 {
      FastExit(t, code, p, p + 5 + w, b, a.stack, Number(k as real));
      n, c := 5, Running(hi, b.(stack := a.stack));
      Chain(t, code, Running(p + 1, b), 4, Running(hi - 1, b), 1, c);
      KeptRefl(b.memory, p + 1, hi);
    } else {
      var m, d := SimNeutral(t, op, code, p, defs, a, b, fuel);
      var e := Eval(t, body, a, fuel);
      n, c := 4 + m, d;
      Chain(t, code, Running(p + 1, b), 4, Running(p + 5, b), m, d);
      if e.Done? {
        FastNext(t, code, p, p + 5 + w, d.vm, a.stack, k);
        var b2 := d.vm.(stack := a.stack + [Number((k - 1) as real)]);
        Chain(t, code, Running(p + 1, b), n, d, 3, Running(p + 1, b2));
        Widen(b.memory, b2.memory, p + 5, p + 5 + w, p + 1, hi);
        var m2, d2 := SimFastFrom(t, op, k - 1, code, p, defs, e.vm, b2, fuel);
        Prefix(t, code, Running(p + 1, b), n + 3, Running(p + 1, b2), EvalTimes(t, body, k - 1, e.vm, fuel), m2, d2,
               p + 1, hi, p + 1, hi, hi, hi, fuel, FailStackTimes(t, body, k, true, a, fuel));
        n, c := n + 3 + m2, d2;
      }
    }
  }

  /** A neutral body behaves the same with the counter on top of the caller's stack. */
  lemma {:induction false} SimNeutral(t: NumberText, op: Op, code: seq<Instr>, p: nat, defs: set<string>,
                                      a: Vm, b: Vm, fuel: nat) returns (n: nat, c: Config)
    requires op.Loop? && IsFast(op.count, op.body) && SupportedOp(t, op) && FastAt(op, code, p, defs)
    requires SameEffects(a, b)
    ensures c == Run(t, code, Running(p + 5, b), n)
    ensures var e := Eval(t, op.body, a, fuel); var w := Len(op.body, defs);
            match e
            case Done(a1) => c.Running? && c.pc == p + 5 + w && a1.stack == a.stack && c.vm.stack == b.stack
                             && SameEffects(a1, c.vm) && Kept(b.memory, c.vm.memory, p + 5, p + 5 + w)
            case r => Simulates(r, c, b, p + 5, p + 5 + w, p + 5 + w, fuel, n,
                                FailStack(t, op.body, a.(stack := b.stack), fuel))
    decreases fuel, op, 6
  {
    hide Agree, Kept, Run, Code, Len, At, Supported, NeutralBody, Eval, FastHead, FastTail;
    var bare := a.(stack := []);
    NeutralAt(t, op.body, a, fuel);
    Frame(t, op.body, a.stack, bare, fuel);
    Frame(t, op.body, b.stack, bare, fuel);
    assert Under(a.stack, bare) == a && Under(b.stack, bare) == a.(stack := b.stack);
    n, c := SimOps(t, op.body, code, p + 5, defs, a.(stack := b.stack), b, fuel);
  }

  // ---------- the counter in memory ----------

  /** Writing a reserved cell of the fragment's own range disturbs nobody else. */
  lemma StoreOwn(m: map<string, TypedValue>, x: string, pos: nat, v: TypedValue, lo: nat, hi: nat)
    requires (x == LoopCounter(pos) || x == MatchValue(pos)) && lo <= pos < hi
    ensures Kept(m, m[x := v], lo, hi)
    ensures Reserved(x) && Agree(m, m[x := v])
  {
    TempsDistinct(pos, pos);
    forall p: nat | !(lo <= p < hi)
      ensures SameCell(m, m[x := v], LoopCounter(p)) && SameCell(m, m[x := v], MatchValue(p))
    {
      TempsDistinct(pos, p);
      TempsDistinct(p, pos);
    }
  }

  lemma AgreeTrans(m0: map<string, TypedValue>, m1: map<string, TypedValue>, m2: map<string, TypedValue>)
    requires Agree(m0, m1) && Agree(m1, m2)
    ensures Agree(m0, m2)
  {
    forall x | !Reserved(x) ensures SameCell(m0, m2, x) {
      assert SameCell(m0, m1, x) && SameCell(m1, m2, x);
    }
  }

  /** A cell outside the range of a fragment keeps its value while the fragment runs. */
  lemma CellKept(m: map<string, TypedValue>, m': map<string, TypedValue>, lo: nat, hi: nat, pos: nat)
    requires Kept(m, m', lo, hi) && !(lo <= pos < hi)
    ensures SameCell(m, m', LoopCounter(pos)) && SameCell(m, m', MatchValue(pos))
  {
  }

  lemma SlowHeadAt(code: seq<Instr>, p: nat, count: nat, w: nat)
    requires At(code, p, SlowHead(p, count, w))
    ensures p + 6 <= |code| && code[p + 2] == Instr.Do(Load(LoopCounter(p + 1)))
            && code[p + 3] == Instr.Do(Push(Number(0.0)))
    ensures code[p + 4] == Instr.Do(Binary(Gt)) && code[p + 5] == JumpIfZero(p + 6 + w + 5)
  {
    hide LoopCounter;
    forall i | 0 <= i < 6 ensures p + i < |code| && code[p + i] == SlowHead(p, count, w)[i] {
      AtIndex(code, p, SlowHead(p, count, w), i);
    }
  }

  lemma SlowTailAt(code: seq<Instr>, p: nat, e: nat)
    requires At(code, e, SlowTail(p))
    ensures e + 5 <= |code| && code[e] == Instr.Do(Load(LoopCounter(p + 1)))
            && code[e + 1] == Instr.Do(Push(Number(1.0)))
    ensures code[e + 2] == Instr.Do(Binary(Sub)) && code[e + 3] == Instr.Do(Store(LoopCounter(p + 1)))
    ensures code[e + 4] == Jump(p + 2)
  {
    hide LoopCounter;
    forall i | 0 <= i < 5 ensures e + i < |code| && code[e + i] == SlowTail(p)[i] {
      AtIndex(code, e, SlowTail(p), i);
    }
    assert code[e + 0] == Instr.Do(Load(LoopCounter(p + 1)));
  }

  lemma SlowTest(t: NumberText, code: seq<Instr>, p: nat, count: nat, w: nat, b: Vm, k: nat)
    requires At(code, p, SlowHead(p, count, w))
    requires LoopCounter(p + 1) in b.memory && b.memory[LoopCounter(p + 1)] == Number(k as real)
    ensures Run(t, code, Running(p + 2, b), 4) == Running(if k > 0 then p + 6 else p + 6 + w + 5, b)
  {
    hide LoopCounter, Step, Apply, Run, Exec, SlowHead, At;
    SlowHeadAt(code, p, count, w);
    CounterTest(t, k);
    var x, v := LoopCounter(p + 1), Number(k as real);
    StepLoad(t, code, p + 2, x, b);
    StepPush(t, code, p + 3, Number(0.0), b.(stack := b.stack + [v]));
    StepBinary(t, code, p + 4, Gt, b.(stack := b.stack + [v] + [Number(0.0)]), b.stack, v, Number(0.0), Boolean(k > 0));
    StepJumpIfZero(t, code, p + 5, p + 6 + w + 5, b.(stack := b.stack + [Boolean(k > 0)]), b.stack, Boolean(k > 0));
    FourSteps(t, code, Running(p + 2, b));
  }

  lemma SlowNext(t: NumberText, code: seq<Instr>, p: nat, e: nat, b: Vm, k: nat)
    requires At(code, e, SlowTail(p)) && k > 0
    requires LoopCounter(p + 1) in b.memory && b.memory[LoopCounter(p + 1)] == Number(k as real)
    ensures Run(t, code, Running(e, b), 5) ==
            Running(p + 2, b.(memory := b.memory[LoopCounter(p + 1) := Number((k - 1) as real)]))
  {
    hide LoopCounter, Apply, Run, Exec, SlowTail, At;
    SlowTailAt(code, p, e);
    CounterTest(t, k);
    var x, v, v' := LoopCounter(p + 1), Number(k as real), Number((k - 1) as real);
    StepLoad(t, code, e, x, b);
    StepPush(t, code, e + 1, Number(1.0), b.(stack := b.stack + [v]));
    StepBinary(t, code, e + 2, Sub, b.(stack := b.stack + [v] + [Number(1.0)]), b.stack, v, Number(1.0), v');
    StepStore(t, code, e + 3, x, b.(stack := b.stack + [v']), b.stack, v');
    var b' := b.(memory := b.memory[x := v']);
    assert Step(t, code, Running(e + 4, b')) == Running(p + 2, b');
    FourSteps(t, code, Running(e, b));
    OneStep(t, code, Running(e + 4, b'));
    Chain(t, code, Running(e, b), 4, Running(e + 4, b'), 1, Running(p + 2, b'));
  }

  /** Where the parts of a loop with its counter in memory stand. */
  predicate SlowAt(op: Op, code: seq<Instr>, p: nat, defs: set<string>)
    requires op.Loop?
  {
    var w := Len(op.body, defs);
    At(code, p, SlowHead(p, op.count, w)) && At(code, p + 6, Code(op.body, p + 6, defs))
    && At(code, p + 6 + w, SlowTail(p))
  }

  lemma SlowLayout(op: Op, code: seq<Instr>, p: nat, defs: set<string>)
    requires op.Loop? && !IsFast(op.count, op.body) && op.count > UNROLL_LIMIT && At(code, p, CodeOp(op, p, defs))
    ensures SlowAt(op, code, p, defs)
    ensures p + 1 < |code| && code[p] == Instr.Do(Push(Number(op.count as real)))
            && code[p + 1] == Instr.Do(Store(LoopCounter(p + 1)))
    ensures LenOp(op, defs) == 6 + Len(op.body, defs) + 5
  {
    hide Code, Len, At, LoopCounter;
    var w := Len(op.body, defs);
    AtSplit3(code, p, SlowHead(p, op.count, w), Code(op.body, p + 6, defs), SlowTail(p));
    AtIndex(code, p, SlowHead(p, op.count, w), 0);
    AtIndex(code, p, SlowHead(p, op.count, w), 1);
  }

  lemma {:induction false} SimSlow(t: NumberText, op: Op, code: seq<Instr>, p: nat, defs: set<string>,
                                   a: Vm, b: Vm, fuel: nat) returns (n: nat, c: Config)
    requires op.Loop? && !IsFast(op.count, op.body) && op.count > UNROLL_LIMIT && SupportedOp(t, op) && Same(a, b)
    requires At(code, p, CodeOp(op, p, defs))
    ensures c == Run(t, code, Running(p, b), n)
    ensures Simulates(EvalOp(t, op, a, fuel), c, b, p, p + LenOp(op, defs), p + LenOp(op, defs), fuel, n,
                      FailStackOp(t, op, a, fuel))
    decreases fuel, op, 8
  {
    hide Agree, Kept, Run, Code, CodeOp, Len, LenOp, At, Supported, LoopCounter, FailStack, SlowHead, Eval;
    var w, hi := Len(op.body, defs), p + LenOp(op, defs);
    SlowLayout(op, code, p, defs);
    var v, x := Number(op.count as real), LoopCounter(p + 1);
    StepPush(t, code, p, v, b);
    StepStore(t, code, p + 1, x, b.(stack := b.stack + [v]), b.stack, v);
    var b1 := b.(memory := b.memory[x := v]);
    OneStep(t, code, Running(p, b));
    OneStep(t, code, Running(p + 1, b.(stack := b.stack + [v])));
    Chain(t, code, Running(p, b), 1, Running(p + 1, b.(stack := b.stack + [v])), 1, Running(p + 2, b1));
    StoreOwn(b.memory, x, p + 1, v, p, hi);
    AgreeTrans(a.memory, b.memory, b1.memory);
    n, c := SimSlowFrom(t, op, op.count, code, p, defs, a, b1, fuel);
    Prefix(t, code, Running(p, b), 2, Running(p + 2, b1), EvalOp(t, op, a, fuel), n, c, p, hi, p, hi, hi, hi,
           fuel, FailStackOp(t, op, a, fuel));
    n := 2 + n;
  }

  /** From the test on, with k iterations to go. The counter survives the body because the
      reserved cells of the body belong to later addresses. */
  lemma {:induction false} SimSlowFrom(t: NumberText, op: Op, k: nat, code: seq<Instr>, p: nat, defs: set<string>,
                                       a: Vm, b: Vm, fuel: nat) returns (n: nat, c: Config)
    requires op.Loop? && !IsFast(op.count, op.body) && op.count > UNROLL_LIMIT && SupportedOp(t, op)
    requires SlowAt(op, code, p, defs) && Same(a, b)
    requires LoopCounter(p + 1) in b.memory && b.memory[LoopCounter(p + 1)] == Number(k as real)
    ensures c == Run(t, code, Running(p + 2, b), n)
    ensures Simulates(EvalTimes(t, op.body, k, a, fuel), c, b, p, p + LenOp(op, defs), p + LenOp(op, defs),
                      fuel, n, FailStackTimes(t, op.body, k, false, a, fuel))
    decreases fuel, op, 7, k
  {
    hide Agree, Kept, Run, Code, Len, At, Supported, Eval, SlowHead, SlowTail, LoopCounter, FailStack;
    var body, hi := op.body, p + LenOp(op, defs);
    var w, x := Len(body, defs), LoopCounter(p + 1);
    SlowTest(t, code, p, op.count, w, b, k);
    if k == 0 {
      n, c := 4, Running(hi, b);
      KeptRefl(b.memory, p, hi);
    } else {
      var m, d := SimOps(t, body, code, p + 6, defs, a, b, fuel);
      var e := Eval(t, body, a, fuel);
      n, c := 4 + m, d;
      Chain(t, code, Running(p + 2, b), 4, Running(p + 6, b), m, d);
      if e.Done? {
        CellKept(b.memory, d.vm.memory, p + 6, p + 6 + w, p + 1);
        SlowNext(t, code, p, p + 6 + w, d.vm, k);
        var v' := Number((k - 1) as real);
        var b2 := d.vm.(memory := d.vm.memory[x := v']);
        Chain(t, code, Running(p + 2, b), n, d, 5, Running(p + 2, b2));
        StoreOwn(d.vm.memory, x, p + 1, v', p, hi);
        AgreeTrans(e.vm.memory, d.vm.memory, b2.memory);
        Widen(b.memory, d.vm.memory, p + 6, p + 6 + w, p, hi);
        KeptTrans(b.memory, d.vm.memory, b2.memory, p, hi, hi, hi, p);
        var m2, d2 := SimSlowFrom(t, op, k - 1, code, p, defs, e.vm, b2, fuel);
        Prefix(t, code, Running(p + 2, b), n + 5, Running(p + 2, b2), EvalTimes(t, body, k - 1, e.vm, fuel), m2, d2,
               p, hi, p, hi, hi, hi, fuel, FailStackTimes(t, body, k, false, a, fuel));
        n, c := n + 5 + m2, d2;
      }
    }
  }

  // ---------- match ----------

  /** Where the parts of a match stand; q is the address of the store of the matched value. */
  predicate MatchAt(op: Op, code: seq<Instr>, p: nat, defs: set<string>)
    requires op.Match?
  {
    var q, hi := p + Len(op.value, defs), p + LenOp(op, defs);
    && At(code, p, Code(op.value, p, defs))
    && q < |code| && code[q] == Instr.Do(Store(MatchValue(q)))
    && CasesAt(op, 0, code, q, q + 1, defs, hi)
  }

  /** The cases from number k on stand at address s, followed by the default block. */
  predicate CasesAt(op: Op, k: nat, code: seq<Instr>, q: nat, s: nat, defs: set<string>, hi: nat)
    requires op.Match? && k <= |op.cases|
  {
    var rest := op.cases[k..];
    var r := s + LenCases(rest, defs);
    && At(code, s, CodeCases(rest, s, MatchValue(q), hi, defs))
    && hi == r + (if op.default.Block? then Len(op.default.ops, defs) else 0)
    && (op.default.Block? ==> At(code, r, Code(op.default.ops, r, defs)))
  }

  lemma MatchLayout(op: Op, code: seq<Instr>, p: nat, defs: set<string>)
    requires op.Match? && At(code, p, CodeOp(op, p, defs))
    ensures MatchAt(op, code, p, defs)
  {
    hide Code, CodeOp, Len, LenOp, At, CodeCases, LenCases, MatchValue;
    var q, hi := p + Len(op.value, defs), p + LenOp(op, defs);
    var r := q + 1 + LenCases(op.cases, defs);
    var cv, cs := Code(op.value, p, defs), CodeCases(op.cases, q + 1, MatchValue(q), hi, defs);
    var cd := if op.default.Block? then Code(op.default.ops, r, defs) else [];
    MatchCode(op, p, defs);
    AtSplit(code, p, cv + [Instr.Do(Store(MatchValue(q)))] + cs, cd);
    AtPivot(code, p, cv, Instr.Do(Store(MatchValue(q))), cs);
    assert op.cases[0..] == op.cases;
  }

  lemma {:induction false} SimMatch(t: NumberText, op: Op, code: seq<Instr>, p: nat, defs: set<string>,
                                    a: Vm, b: Vm, fuel: nat) returns (n: nat, c: Config)
    requires op.Match? && SupportedOp(t, op) && Same(a, b) && MatchAt(op, code, p, defs)
    ensures c == Run(t, code, Running(p, b), n)
    ensures Simulates(EvalOp(t, op, a, fuel), c, b, p, p + LenOp(op, defs), p + LenOp(op, defs), fuel, n,
                      FailStackOp(t, op, a, fuel))
    decreases fuel, op, 8
  {
    hide Agree, Kept, Run, Code, Len, At, Supported, Eval, FailStack, MatchValue, Select, CodeCases, LenCases;
    var q, hi := p + Len(op.value, defs), p + LenOp(op, defs);
    n, c := SimOps(t, op.value, code, p, defs, a, b, fuel);
    var e := Eval(t, op.value, a, fuel);
    if e.Done? {
      var a1, b1, x := e.vm, c.vm, MatchValue(q);
      var d := Step(t, code, c);
      OneStep(t, code, c);
      Chain(t, code, Running(p, b), n, c, 1, d);
      n, c := n + 1, d;
      if a1.stack != [] {
        var v := Top(a1);
        var b2 := Drop(b1, 1).(memory := b1.memory[x := v]);
        assert d == Running(q + 1, b2);
        StoreOwn(b1.memory, x, q, v, p, hi);
        AgreeTrans(a1.memory, b1.memory, b2.memory);
        KeptTrans(b.memory, b1.memory, b2.memory, p, q, hi, hi, p);
        assert op.cases[0..] == op.cases;
        var m, f := SimCases(t, op, 0, code, q, q + 1, defs, hi, v, Drop(a1, 1), b2, fuel);
        Prefix(t, code, Running(p, b), n, d, CasesOutcome(t, op, 0, v, Drop(a1, 1), fuel), m, f,
               p, hi, q + 1, hi, hi, hi, fuel, FailStackOp(t, op, a, fuel));
        n, c := n + m, f;
      }
    }
  }

  /** What the cases from number k on do with the value v. */
  function CasesOutcome(t: NumberText, op: Op, k: nat, v: TypedValue, a: Vm, fuel: nat): Outcome
    requires op.Match? && k <= |op.cases|
  {
    var block := Select(t, v, op.cases[k..], op.default);
    if block == [] then Done(a) else Eval(t, block, a, fuel)
  }

  /** The stack with which they fail. */
  function CasesStack(t: NumberText, op: Op, k: nat, v: TypedValue, a: Vm, fuel: nat): seq<TypedValue>
    requires op.Match? && k <= |op.cases|
  {
    var block := Select(t, v, op.cases[k..], op.default);
    if block == [] then [] else FailStack(t, block, a, fuel)
  }

  /** Running an empty block is running nothing. */
  lemma EvalBlock(t: NumberText, block: seq<Op>, a: Vm, fuel: nat)
    ensures (if block == [] then Done(a) else Eval(t, block, a, fuel)) == Eval(t, block, a, fuel)
    ensures (if block == [] then [] else FailStack(t, block, a, fuel)) == FailStack(t, block, a, fuel)
  {
  }

  lemma {:induction false} SimCases(t: NumberText, op: Op, k: nat, code: seq<Instr>, q: nat, s: nat,
                                    defs: set<string>, hi: nat,
                                    v: TypedValue, a: Vm, b: Vm, fuel: nat) returns (n: nat, c: Config)
    requires op.Match? && k <= |op.cases| && SupportedOp(t, op) && Same(a, b)
    requires CasesAt(op, k, code, q, s, defs, hi) && q < s
    requires MatchValue(q) in b.memory && b.memory[MatchValue(q)] == v
    ensures c == Run(t, code, Running(s, b), n)
    ensures Simulates(CasesOutcome(t, op, k, v, a, fuel), c, b, s, hi, hi, fuel, n,
                      CasesStack(t, op, k, v, a, fuel))
    decreases fuel, op, 7, |op.cases| - k, 1
  {
    hide Agree, Kept, Run, Code, Len, At, Supported, Eval, FailStack, MatchValue, Exec;
    if k == |op.cases| {
      EvalBlock(t, Select(t, v, op.cases[k..], op.default), a, fuel);
      if op.default.Block? {
        n, c := SimOps(t, op.default.ops, code, s, defs, a, b, fuel);
      } else {
        RunZero(t, code, Running(s, b));
        KeptRefl(b.memory, s, hi);
        n, c := 0, Running(s, b);
      }
    } else {
      n, c := SimCase(t, op, k, code, q, s, defs, hi, v, a, b, fuel);
    }
  }

  /** The code of one case and of what follows it. */
  lemma CaseLayout(op: Op, k: nat, code: seq<Instr>, q: nat, s: nat, defs: set<string>, hi: nat)
    requires op.Match? && k < |op.cases| && CasesAt(op, k, code, q, s, defs, hi)
    ensures var body := op.cases[k].body; var next := s + 4 + Len(body, defs) + 1;
            && At(code, s, CaseHead(op.cases[k].value, MatchValue(q), next))
            && At(code, s + 4, Code(body, s + 4, defs))
            && next - 1 < |code| && code[next - 1] == Jump(hi) && next <= hi
            && CasesAt(op, k + 1, code, q, next, defs, hi)
  {
    hide Code, Len, MatchValue, CodeCases, LenCases, At, CaseHead;
    var rest, body := op.cases[k..], op.cases[k].body;
    var next := s + 4 + Len(body, defs) + 1;
    assert rest[0] == op.cases[k] && rest[1..] == op.cases[k + 1..];
    CaseCode(rest, s, MatchValue(q), hi, defs);
    var h, cb := CaseHead(rest[0].value, MatchValue(q), next), Code(body, s + 4, defs);
    var tail := CodeCases(rest[1..], next, MatchValue(q), hi, defs);
    AtSplit3(code, s, h + cb, [Jump(hi)], tail);
    AtSplit(code, s, h, cb);
    AtIndex(code, next - 1, [Jump(hi)], 0);
  }

  lemma EqualsApplied(t: NumberText, a: TypedValue, b: TypedValue)
    ensures Apply(t, Eq, a, b) == Ok(Boolean(Equals(t, a, b)))
  {
  }

  lemma CaseHeadAt(code: seq<Instr>, s: nat, x: string, value: TypedValue, next: nat)
    requires At(code, s, CaseHead(value, x, next))
    ensures s + 4 <= |code| && code[s] == Instr.Do(Load(x)) && code[s + 1] == Instr.Do(Push(value))
    ensures code[s + 2] == Instr.Do(Binary(Eq)) && code[s + 3] == JumpIfZero(next)
  {
    forall i | 0 <= i < 4 ensures s + i < |code| && code[s + i] == CaseHead(value, x, next)[i] {
      AtIndex(code, s, CaseHead(value, x, next), i);
    }
    assert code[s + 0] == Instr.Do(Load(x));
  }

  /** The comparison at the head of a case. */
  lemma CaseTest(t: NumberText, code: seq<Instr>, s: nat, x: string, value: TypedValue, next: nat, v: TypedValue, b: Vm)
    requires At(code, s, CaseHead(value, x, next)) && x in b.memory && b.memory[x] == v
    ensures Run(t, code, Running(s, b), 4) == Running(if Equals(t, v, value) then s + 4 else next, b)
  {
    CaseHeadAt(code, s, x, value, next);
    hide Step, Exec, Run, Equals, Apply, At, CaseHead;
    EqualsApplied(t, v, value);
    var w := Boolean(Equals(t, v, value));
    StepLoad(t, code, s, x, b);
    StepPush(t, code, s + 1, value, b.(stack := b.stack + [v]));
    StepBinary(t, code, s + 2, Eq, b.(stack := b.stack + [v] + [value]), b.stack, v, value, w);
    StepJumpIfZero(t, code, s + 3, next, b.(stack := b.stack + [w]), b.stack, w);
    FourSteps(t, code, Running(s, b));
  }

  /** One case is tried, then the others. */
  lemma CaseFacts(t: NumberText, op: Op, k: nat, v: TypedValue, a: Vm, fuel: nat)
    requires op.Match? && k < |op.cases| && SupportedOp(t, op)
    ensures Supported(t, op.cases[k].body)
    ensures if Equals(t, v, op.cases[k].value) then
              CasesOutcome(t, op, k, v, a, fuel) == Eval(t, op.cases[k].body, a, fuel)
              && CasesStack(t, op, k, v, a, fuel) == FailStack(t, op.cases[k].body, a, fuel)
            else
              CasesOutcome(t, op, k, v, a, fuel) == CasesOutcome(t, op, k + 1, v, a, fuel)
              && CasesStack(t, op, k, v, a, fuel) == CasesStack(t, op, k + 1, v, a, fuel)
  {
    var rest := op.cases[k..];
    assert rest[0] == op.cases[k] && rest[1..] == op.cases[k + 1..];
    EvalBlock(t, op.cases[k].body, a, fuel);
  }

  lemma {:induction false} SimCase(t: NumberText, op: Op, k: nat, code: seq<Instr>, q: nat, s: nat, defs: set<string>,
                                   hi: nat,
                                   v: TypedValue, a: Vm, b: Vm, fuel: nat) returns (n: nat, c: Config)
    requires op.Match? && k < |op.cases| && SupportedOp(t, op) && Same(a, b)
    requires CasesAt(op, k, code, q, s, defs, hi) && q < s
    requires MatchValue(q) in b.memory && b.memory[MatchValue(q)] == v
    ensures c == Run(t, code, Running(s, b), n)
    ensures Simulates(CasesOutcome(t, op, k, v, a, fuel), c, b, s, hi, hi, fuel, n,
                      CasesStack(t, op, k, v, a, fuel))
    decreases fuel, op, 7, |op.cases| - k, 0
  {
    hide *;
    var body := op.cases[k].body;
    var next := s + 4 + Len(body, defs) + 1;
    CaseLayout(op, k, code, q, s, defs, hi);
    CaseTest(t, code, s, MatchValue(q), op.cases[k].value, next, v, b);
    CaseFacts(t, op, k, v, a, fuel);
    var r, stack := CasesOutcome(t, op, k, v, a, fuel), CasesStack(t, op, k, v, a, fuel);
    KeptRefl(b.memory, s, hi);
    if Equals(t, v, op.cases[k].value) {
      n, c := SimOps(t, body, code, s + 4, defs, a, b, fuel);
      n, c := ThenJump(t, code, s + 4, b, r, n, c, next - 1, hi, hi, fuel, stack);
      Prefix(t, code, Running(s, b), 4, Running(s + 4, b), r, n, c, s, hi, s + 4, hi, hi, hi, fuel, stack);
    } else {
      n, c := SimCases(t, op, k + 1, code, q, next, defs, hi, v, a, b, fuel);
      Prefix(t, code, Running(s, b), 4, Running(next, b), r, n, c, s, hi, next, hi, hi, hi, fuel, stack);
    }
    n := 4 + n;
  }
}
