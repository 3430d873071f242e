/** The tree interpreter (crates/icn-covm/src/vm/vm.rs) as structured evaluation with fuel:
    one unit of fuel is spent per iteration of a `while`. */
module TreeVm {
  import opened Values
  import opened Ast

  datatype Vm = Vm(stack: seq<TypedValue>,
                   memory: map<string, TypedValue>,
                   output: seq<string>,
                   events: seq<(string, string)>)

  datatype Outcome = Done(vm: Vm) | Fail(vm: Vm, error: VmError) | OutOfFuel

  function Top(s: Vm): TypedValue
    requires s.stack != []
  { s.stack[|s.stack| - 1] }

  function Drop(s: Vm, k: nat): Vm
    requires k <= |s.stack|
  { s.(stack := s.stack[..|s.stack| - k]) }

  function PushValue(s: Vm, v: TypedValue): Vm { s.(stack := s.stack + [v]) }

  function ExecBinary(t: NumberText, op: BinOp, s: Vm): Outcome {
    var k := |s.stack|;
    if k == 0 then Fail(s, StackUnderflow)
    else if k == 1 then Fail(Drop(s, 1), StackUnderflow)
    else match Apply(t, op, s.stack[k - 2], s.stack[k - 1])
      case Ok(v) => Done(PushValue(Drop(s, 2), v))
      case Err(e) => Fail(Drop(s, 2), e)
  }

  /** One primitive operation, as both executors perform it. */
  function Exec(t: NumberText, p: Prim, s: Vm): Outcome {
    match p
    case Push(v) => Done(PushValue(s, v))
    case Store(x) =>
      if s.stack == [] then Fail(s, StackUnderflow)
      else Done(Drop(s, 1).(memory := s.memory[x := Top(s)]))
    case Load(x) =>
      if x in s.memory then Done(PushValue(s, s.memory[x])) else Fail(s, UndefinedVariable(x))
    case Binary(op) => ExecBinary(t, op, s)
    case Not =>
      if s.stack == [] then Fail(s, StackUnderflow)
      else Done(PushValue(Drop(s, 1), Boolean(IsFalsey(Top(s)))))
    case Pop => if s.stack == [] then Fail(s, StackUnderflow) else Done(Drop(s, 1))
    case Dup => if s.stack == [] then Fail(s, StackUnderflow) else Done(PushValue(s, Top(s)))
    case Swap =>
      var k := |s.stack|;
      if k < 2 then Fail(s, StackUnderflow)
      else Done(s.(stack := s.stack[..k - 2] + [s.stack[k - 1], s.stack[k - 2]]))
    case Nop => Done(s)
    case Emit(m) => Done(s.(output := s.output + [m]))
    case EmitEvent(c, m) => Done(s.(events := s.events + [(c, m)]))
  }

  /** The block a match runs: the first case equal to v, else the default, else nothing. */
  function Select(t: NumberText, v: TypedValue, cases: seq<Case>, default: MaybeBlock): (r: seq<Op>)
    ensures (exists i :: 0 <= i < |cases| && r == cases[i].body) || r == [] || default == Block(r)
  {
    if cases == [] then (if default.Block? then default.ops else [])
    else if Equals(t, v, cases[0].value) then cases[0].body
    else Select(t, v, cases[1..], default)
  }

  function Eval(t: NumberText, ops: seq<Op>, s: Vm, fuel: nat): Outcome
    decreases fuel, ops, 0
  {
    if ops == [] then Done(s)
    else match EvalOp(t, ops[0], s, fuel)
      case Done(s1) => Eval(t, ops[1..], s1, fuel)
      case Fail(s1, e) => Fail(s1, e)
      case OutOfFuel => OutOfFuel
  }

  function EvalOp(t: NumberText, op: Op, s: Vm, fuel: nat): Outcome
    decreases fuel, op, 0
  {
    match op
    case Do(p) => Exec(t, p, s)
    case If(cond, thn, els) =>
      (match Eval(t, cond, s, fuel)
       case Done(s1) =>
         if s1.stack == [] then Fail(s1, StackUnderflow)
         else if !IsFalsey(Top(s1)) then Eval(t, thn, Drop(s1, 1), fuel)
         else if els.Block? then Eval(t, els.ops, Drop(s1, 1), fuel)
         else Done(Drop(s1, 1))
       case r => r)
    case While(cond, body) =>
      if fuel == 0 then OutOfFuel else
      (match Eval(t, cond, s, fuel)
       case Done(s1) =>
         if s1.stack == [] then Fail(s1, StackUnderflow)
         else if IsFalsey(Top(s1)) then Done(Drop(s1, 1))
         else (match Eval(t, body, Drop(s1, 1), fuel)
               case Done(s2) => EvalOp(t, op, s2, fuel - 1)
               case r => r)
       case r => r)
    case Loop(count, body) => EvalTimes(t, body, count, s, fuel)
    case Match(value, cases, default) =>
      (match Eval(t, value, s, fuel)
       case Done(s1) =>
         if s1.stack == [] then Fail(s1, StackUnderflow)
         else
           var block := Select(t, Top(s1), cases, default);
           if block == [] then Done(Drop(s1, 1)) else Eval(t, block, Drop(s1, 1), fuel)
       case r => r)
    // Only a call reads the function map, and calls are not modelled.
    case Def(_, _, _) => Done(s)
    case IfPassed(_) => Fail(s, NotImplemented)
    case ElseBlock(_) => Fail(s, NotImplemented)
  }

  /** The body, `count` times in a row. */
  function EvalTimes(t: NumberText, body: seq<Op>, count: nat, s: Vm, fuel: nat): Outcome
    decreases fuel, body, count + 1
  {
    if count == 0 then Done(s)
    else match Eval(t, body, s, fuel)
      case Done(s1) => EvalTimes(t, body, count - 1, s1, fuel)
      case r => r
  }
}
