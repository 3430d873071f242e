/** Facts about structured evaluation: more fuel never changes an answer, and values
    below the operands an evaluation uses are never touched. */
module TreeFacts {
  import opened Values
  import opened Ast
  import opened TreeVm

  // ---------- fuel ----------

  /** An evaluation that ends gives the same answer with any larger amount of fuel. */
  lemma {:induction false} MoreFuel(t: NumberText, ops: seq<Op>, s: Vm, fuel: nat, more: nat)
    requires fuel <= more
    requires !Eval(t, ops, s, fuel).OutOfFuel?
    ensures Eval(t, ops, s, more) == Eval(t, ops, s, fuel)
    decreases fuel, ops, 0
  {
    if ops != [] {
      MoreFuelOp(t, ops[0], s, fuel, more);
      var r := EvalOp(t, ops[0], s, fuel);
      if r.Done? {
        MoreFuel(t, ops[1..], r.vm, fuel, more);
      }
    }
  }

  lemma {:induction false} MoreFuelOp(t: NumberText, op: Op, s: Vm, fuel: nat, more: nat)
    requires fuel <= more
    requires !EvalOp(t, op, s, fuel).OutOfFuel?
    ensures EvalOp(t, op, s, more) == EvalOp(t, op, s, fuel)
    decreases fuel, op, 0
  {
    match op
    case If(cond, thn, els) =>
      MoreFuel(t, cond, s, fuel, more);
      var r := Eval(t, cond, s, fuel);
      if r.Done? && r.vm.stack != [] {
        if !IsFalsey(Top(r.vm)) {
          MoreFuel(t, thn, Drop(r.vm, 1), fuel, more);
        } else if els.Block? {
          MoreFuel(t, els.ops, Drop(r.vm, 1), fuel, more);
        }
      }
    case While(cond, body) =>
      MoreFuel(t, cond, s, fuel, more);
      var r := Eval(t, cond, s, fuel);
      if r.Done? && r.vm.stack != [] && !IsFalsey(Top(r.vm)) {
        MoreFuel(t, body, Drop(r.vm, 1), fuel, more);
        var r2 := Eval(t, body, Drop(r.vm, 1), fuel);
        if r2.Done? {
          MoreFuelOp(t, op, r2.vm, fuel - 1, more - 1);
        }
      }
    case Loop(count, body) =>
      MoreFuelTimes(t, body, count, s, fuel, more);
    case Match(value, cases, default) =>
      MoreFuel(t, value, s, fuel, more);
      var r := Eval(t, value, s, fuel);
      if r.Done? && r.vm.stack != [] {
        var block := Select(t, Top(r.vm), cases, default);
        if block != [] {
          MoreFuel(t, block, Drop(r.vm, 1), fuel, more);
        }
      }
    case _ =>
  }

  lemma {:induction false} MoreFuelTimes(t: NumberText, body: seq<Op>, count: nat, s: Vm, fuel: nat, more: nat)
    requires fuel <= more
    requires !EvalTimes(t, body, count, s, fuel).OutOfFuel?
    ensures EvalTimes(t, body, count, s, more) == EvalTimes(t, body, count, s, fuel)
    decreases fuel, body, count + 1
  {
    if count > 0 {
      MoreFuel(t, body, s, fuel, more);
      var r := Eval(t, body, s, fuel);
      if r.Done? {
        MoreFuelTimes(t, body, count - 1, r.vm, fuel, more);
      }
    }
  }

  // ---------- the selected block ----------

  /** A match runs the first case equal to the value. */
  lemma {:induction false} SelectFirst(t: NumberText, v: TypedValue, cases: seq<Case>, default: MaybeBlock, i: nat)
    requires i < |cases| && Equals(t, v, cases[i].value)
    requires forall j :: 0 <= j < i ==> !Equals(t, v, cases[j].value)
    ensures Select(t, v, cases, default) == cases[i].body
  {
    hide Equals;
    if i > 0 { SelectFirst(t, v, cases[1..], default, i - 1); }
  }

  /** The default, if there is one, is run only when no case is equal. */
  lemma {:induction false} SelectDefault(t: NumberText, v: TypedValue, cases: seq<Case>, default: MaybeBlock)
    requires forall j :: 0 <= j < |cases| ==> !Equals(t, v, cases[j].value)
    ensures Select(t, v, cases, default) == if default.Block? then default.ops else []
  {
    hide Equals;
    if cases != [] { SelectDefault(t, v, cases[1..], default); }
  }

  // ---------- the operand frame ----------

  /** The same machine with extra values at the bottom of its stack. */
  function Under(base: seq<TypedValue>, s: Vm): Vm { s.(stack := base + s.stack) }

  function Lift(base: seq<TypedValue>, r: Outcome): Outcome {
    match r
    case Done(s) => Done(Under(base, s))
    case Fail(s, e) => Fail(Under(base, s), e)
    case OutOfFuel => OutOfFuel
  }

  predicate Underflows(r: Outcome) { r.Fail? && r.error == StackUnderflow }

  /** Popping the tested value commutes with adding values underneath. */
  lemma PopUnder(base: seq<TypedValue>, s: Vm)
    requires s.stack != []
    ensures Under(base, s).stack != [] && Top(Under(base, s)) == Top(s)
    ensures Drop(Under(base, s), 1) == Under(base, Drop(s, 1))
  {
  }

  lemma ExecFrame(t: NumberText, p: Prim, base: seq<TypedValue>, s: Vm)
    requires !Underflows(Exec(t, p, s))
    ensures Exec(t, p, Under(base, s)) == Lift(base, Exec(t, p, s))
  {
    hide ExecBinary;
    if s.stack != [] { PopUnder(base, s); }
    match p
    case Binary(op) => BinaryFrame(t, op, base, s);
    case Swap => SwapFrame(base, s.stack);
    case _ =>
  }

  lemma SwapFrame(base: seq<TypedValue>, stack: seq<TypedValue>)
    requires |stack| > 1
    ensures var k, u := |stack|, base + stack;
            u[..|u| - 2] + [u[|u| - 1], u[|u| - 2]] == base + (stack[..k - 2] + [stack[k - 1], stack[k - 2]])
  {
    TopTwo(base, stack);
  }

  lemma TopTwo(base: seq<TypedValue>, stack: seq<TypedValue>)
    requires |stack| > 1
    ensures var k, u := |stack|, base + stack;
            u[|u| - 2] == stack[k - 2] && u[|u| - 1] == stack[k - 1] && u[..|u| - 2] == base + stack[..k - 2]
  {
  }

  lemma BinaryFrame(t: NumberText, op: BinOp, base: seq<TypedValue>, s: Vm)
    requires !Underflows(ExecBinary(t, op, s))
    ensures ExecBinary(t, op, Under(base, s)) == Lift(base, ExecBinary(t, op, s))
  {
    hide Apply;
    TopTwo(base, s.stack);
    var k := |s.stack|;
    match Apply(t, op, s.stack[k - 2], s.stack[k - 1])
    case Ok(v) => assert base + (s.stack[..k - 2] + [v]) == base + s.stack[..k - 2] + [v];
    case Err(_) =>
  }

  /** The frame lemma: an evaluation that does not run out of operands behaves the same
      on top of any other values, and leaves them alone. */
  lemma {:induction false} Frame(t: NumberText, ops: seq<Op>, base: seq<TypedValue>, s: Vm, fuel: nat)
    requires !Underflows(Eval(t, ops, s, fuel))
    ensures Eval(t, ops, Under(base, s), fuel) == Lift(base, Eval(t, ops, s, fuel))
    decreases fuel, ops, 0
  {
    if ops != [] {
      FrameOp(t, ops[0], base, s, fuel);
      var r := EvalOp(t, ops[0], s, fuel);
      if r.Done? {
        Frame(t, ops[1..], base, r.vm, fuel);
      }
    }
  }

  lemma {:induction false} FrameOp(t: NumberText, op: Op, base: seq<TypedValue>, s: Vm, fuel: nat)
    requires !Underflows(EvalOp(t, op, s, fuel))
    ensures EvalOp(t, op, Under(base, s), fuel) == Lift(base, EvalOp(t, op, s, fuel))
    decreases fuel, op, 0
  {
    match op
    case Do(p) => ExecFrame(t, p, base, s);
    case If(cond, thn, els) =>
      Frame(t, cond, base, s, fuel);
      var r := Eval(t, cond, s, fuel);
      if r.Done? {
        PopUnder(base, r.vm);
        if !IsFalsey(Top(r.vm)) {
          Frame(t, thn, base, Drop(r.vm, 1), fuel);
        } else if els.Block? {
          Frame(t, els.ops, base, Drop(r.vm, 1), fuel);
        }
      }
    case While(cond, body) =>
      if fuel > 0 {
        Frame(t, cond, base, s, fuel);
        var r := Eval(t, cond, s, fuel);
        if r.Done? {
          PopUnder(base, r.vm);
          if !IsFalsey(Top(r.vm)) {
            Frame(t, body, base, Drop(r.vm, 1), fuel);
            var r2 := Eval(t, body, Drop(r.vm, 1), fuel);
            if r2.Done? {
              FrameOp(t, op, base, r2.vm, fuel - 1);
            }
          }
        }
      }
    case Loop(count, body) => FrameTimes(t, body, count, base, s, fuel);
    case Match(value, cases, default) =>
      Frame(t, value, base, s, fuel);
      var r := Eval(t, value, s, fuel);
      if r.Done? {
        PopUnder(base, r.vm);
        var block := Select(t, Top(r.vm), cases, default);
        if block != [] {
          Frame(t, block, base, Drop(r.vm, 1), fuel);
        }
      }
    case _ =>
  }

  lemma {:induction false} FrameTimes(t: NumberText, body: seq<Op>, count: nat, base: seq<TypedValue>, s: Vm, fuel: nat)
    requires !Underflows(EvalTimes(t, body, count, s, fuel))
    ensures EvalTimes(t, body, count, Under(base, s), fuel) == Lift(base, EvalTimes(t, body, count, s, fuel))
    decreases fuel, body, count + 1
  {
    if count > 0 {
      Frame(t, body, base, s, fuel);
      var r := Eval(t, body, s, fuel);
      if r.Done? {
        FrameTimes(t, body, count - 1, base, r.vm, fuel);
      }
    }
  }
}
