/** The operand stack of the compiled program at the moment of an error: the stack of the tree
    interpreter with the counters of the running stack-counter loops in between. */
module ErrorStack {
  import opened Values
  import opened Ast
  import opened TreeVm
  import opened TreeFacts
  import opened CodeGen

  /** Run on an empty operand frame, the body needs no operand and leaves none behind. */
  ghost predicate NeutralBody(t: NumberText, body: seq<Op>) {
    forall s: Vm, fuel: nat :: NeutralFrom(t, body, s, fuel)
  }

  ghost predicate NeutralFrom(t: NumberText, body: seq<Op>, s: Vm, fuel: nat) {
    var r := Eval(t, body, s.(stack := []), fuel);
    !Underflows(r) && (r.Done? ==> r.vm.stack == [])
  }

  lemma NeutralAt(t: NumberText, body: seq<Op>, s: Vm, fuel: nat)
    requires NeutralBody(t, body)
    ensures NeutralFrom(t, body, s, fuel)
  {
  }

  /** No reserved name, no function definition, and a neutral body in every loop whose
      counter is kept on the stack. */
  ghost predicate Supported(t: NumberText, ops: seq<Op>)
    decreases ops, 0
  {
    ops == [] || (SupportedOp(t, ops[0]) && Supported(t, ops[1..]))
  }

  ghost predicate SupportedOp(t: NumberText, op: Op)
    decreases op, 0
  {
    match op
    case Do(p) => UserName(p)
    case If(cond, thn, els) =>
      Supported(t, cond) && Supported(t, thn) && (els.Block? ==> Supported(t, els.ops))
    case While(cond, body) => Supported(t, cond) && Supported(t, body)
    case Loop(count, body) => Supported(t, body) && (IsFast(count, body) ==> NeutralBody(t, body))
    case Match(value, cases, default) =>
      Supported(t, value) && (forall i :: 0 <= i < |cases| ==> Supported(t, cases[i].body))
      && (default.Block? ==> Supported(t, default.ops))
    case Def(_, _, _) => false
    case IfPassed(_) => true
    case ElseBlock(_) => true
  }

  // ---------- the stack of the compiled program ----------

  function Count(k: nat): TypedValue { Number(k as real) }

  /** The same machine with a counter on its stack. */
  function Counting(s: Vm, k: nat): Vm { PushValue(s, Count(k)) }

  /** The operand stack with which the compiled block stops, when the block fails. */
  function FailStack(t: NumberText, ops: seq<Op>, s: Vm, fuel: nat): seq<TypedValue>
    decreases fuel, ops, 0
  {
    if ops == [] then []
    else match EvalOp(t, ops[0], s, fuel)
      case Done(s1) => FailStack(t, ops[1..], s1, fuel)
      case _ => FailStackOp(t, ops[0], s, fuel)
  }

  function FailStackOp(t: NumberText, op: Op, s: Vm, fuel: nat): seq<TypedValue>
    decreases fuel, op, 0
  {
    match op
    case Do(p) => (match Exec(t, p, s) case Fail(s1, _) => s1.stack case _ => [])
    case If(cond, thn, els) =>
      (match Eval(t, cond, s, fuel)
       case Done(s1) =>
         if s1.stack == [] then []
         else if !IsFalsey(Top(s1)) then FailStack(t, thn, Drop(s1, 1), fuel)
         else if els.Block? then FailStack(t, els.ops, Drop(s1, 1), fuel)
         else []
       case _ => FailStack(t, cond, s, fuel))
    case While(cond, body) =>
      if fuel == 0 then [] else
      (match Eval(t, cond, s, fuel)
       case Done(s1) =>
         if s1.stack == [] || IsFalsey(Top(s1)) then []
         else (match Eval(t, body, Drop(s1, 1), fuel)
               case Done(s2) => FailStackOp(t, op, s2, fuel - 1)
               case _ => FailStack(t, body, Drop(s1, 1), fuel))
       case _ => FailStack(t, cond, s, fuel))
    case Loop(count, body) => FailStackTimes(t, body, count, IsFast(count, body), s, fuel)
    case Match(value, cases, default) =>
      (match Eval(t, value, s, fuel)
       case Done(s1) =>
         if s1.stack == [] then []
         else
           var block := Select(t, Top(s1), cases, default);
           if block == [] then [] else FailStack(t, block, Drop(s1, 1), fuel)
       case _ => FailStack(t, value, s, fuel))
    case _ => s.stack
  }

  /** With k iterations to go; the counter, if it is on the stack, lies under the body. */
  function FailStackTimes(t: NumberText, body: seq<Op>, k: nat, fast: bool, s: Vm, fuel: nat): seq<TypedValue>
    decreases fuel, body, k + 1
  {
    if k == 0 then []
    else match Eval(t, body, s, fuel)
      case Done(s1) => FailStackTimes(t, body, k - 1, fast, s1, fuel)
      case _ => FailStack(t, body, if fast then Counting(s, k) else s, fuel)
  }

  // ---------- the loops a failure happens in ----------

  /** How many stack-counter loops are running when the block fails. */
  function Live(t: NumberText, ops: seq<Op>, s: Vm, fuel: nat): nat
    decreases fuel, ops, 0
  {
    if ops == [] then 0
    else match EvalOp(t, ops[0], s, fuel)
      case Done(s1) => Live(t, ops[1..], s1, fuel)
      case _ => LiveOp(t, ops[0], s, fuel)
  }

  function LiveOp(t: NumberText, op: Op, s: Vm, fuel: nat): nat
    decreases fuel, op, 0
  {
    match op
    case If(cond, thn, els) =>
      (match Eval(t, cond, s, fuel)
       case Done(s1) =>
         if s1.stack == [] then 0
         else if !IsFalsey(Top(s1)) then Live(t, thn, Drop(s1, 1), fuel)
         else if els.Block? then Live(t, els.ops, Drop(s1, 1), fuel)
         else 0
       case _ => Live(t, cond, s, fuel))
    case While(cond, body) =>
      if fuel == 0 then 0 else
      (match Eval(t, cond, s, fuel)
       case Done(s1) =>
         if s1.stack == [] || IsFalsey(Top(s1)) then 0
         else (match Eval(t, body, Drop(s1, 1), fuel)
               case Done(s2) => LiveOp(t, op, s2, fuel - 1)
               case _ => Live(t, body, Drop(s1, 1), fuel))
       case _ => Live(t, cond, s, fuel))
    case Loop(count, body) => LiveTimes(t, body, count, IsFast(count, body), s, fuel)
    case Match(value, cases, default) =>
      (match Eval(t, value, s, fuel)
       case Done(s1) =>
         if s1.stack == [] then 0
         else
           var block := Select(t, Top(s1), cases, default);
           if block == [] then 0 else Live(t, block, Drop(s1, 1), fuel)
       case _ => Live(t, value, s, fuel))
    case _ => 0
  }

  function LiveTimes(t: NumberText, body: seq<Op>, k: nat, fast: bool, s: Vm, fuel: nat): nat
    decreases fuel, body, k + 1
  {
    if k == 0 then 0
    else match Eval(t, body, s, fuel)
      case Done(s1) => LiveTimes(t, body, k - 1, fast, s1, fuel)
      case _ => Live(t, body, s, fuel) + if fast then 1 else 0
  }

  /** Values below the operands do not change in which loops a block fails. */
  lemma {:induction false} LiveFrame(t: NumberText, ops: seq<Op>, base: seq<TypedValue>, s: Vm, fuel: nat)
    requires !Underflows(Eval(t, ops, s, fuel))
    ensures Live(t, ops, Under(base, s), fuel) == Live(t, ops, s, fuel)
    decreases fuel, ops, 0
  {
    hide Exec;
    if ops != [] {
      FrameOp(t, ops[0], base, s, fuel);
      LiveFrameOp(t, ops[0], base, s, fuel);
      var r := EvalOp(t, ops[0], s, fuel);
      if r.Done? { LiveFrame(t, ops[1..], base, r.vm, fuel); }
    }
  }

  lemma {:induction false} LiveFrameOp(t: NumberText, op: Op, base: seq<TypedValue>, s: Vm, fuel: nat)
    requires !Underflows(EvalOp(t, op, s, fuel))
    ensures LiveOp(t, op, Under(base, s), fuel) == LiveOp(t, op, s, fuel)
    decreases fuel, op, 0
  {
    hide Under, Exec;
    match op
    case If(cond, thn, els) =>
      Frame(t, cond, base, s, fuel);
      LiveFrame(t, cond, base, s, fuel);
      var r := Eval(t, cond, s, fuel);
      if r.Done? {
        PopUnder(base, r.vm);
        if !IsFalsey(Top(r.vm)) {
          LiveFrame(t, thn, base, Drop(r.vm, 1), fuel);
        } else if els.Block? {
          LiveFrame(t, els.ops, base, Drop(r.vm, 1), fuel);
        }
      }
    case While(cond, body) =>
      if fuel > 0 {
        Frame(t, cond, base, s, fuel);
        LiveFrame(t, cond, base, s, fuel);
        var r := Eval(t, cond, s, fuel);
        if r.Done? {
          PopUnder(base, r.vm);
          if !IsFalsey(Top(r.vm)) {
            Frame(t, body, base, Drop(r.vm, 1), fuel);
            LiveFrame(t, body, base, Drop(r.vm, 1), fuel);
            var r2 := Eval(t, body, Drop(r.vm, 1), fuel);
            if r2.Done? { LiveFrameOp(t, op, base, r2.vm, fuel - 1); }
          }
        }
      }
    case Loop(count, body) => LiveFrameTimes(t, body, count, IsFast(count, body), base, s, fuel);
    case Match(value, cases, default) =>
      Frame(t, value, base, s, fuel);
      LiveFrame(t, value, base, s, fuel);
      var r := Eval(t, value, s, fuel);
      if r.Done? {
        PopUnder(base, r.vm);
        var block := Select(t, Top(r.vm), cases, default);
        if block != [] { LiveFrame(t, block, base, Drop(r.vm, 1), fuel); }
      }
    case _ =>
  }

  lemma {:induction false} LiveFrameTimes(t: NumberText, body: seq<Op>, k: nat, fast: bool,
                                          base: seq<TypedValue>, s: Vm, fuel: nat)
    requires !Underflows(EvalTimes(t, body, k, s, fuel))
    ensures LiveTimes(t, body, k, fast, Under(base, s), fuel) == LiveTimes(t, body, k, fast, s, fuel)
    decreases fuel, body, k + 1
  {
    hide Under, Exec;
    if k > 0 {
      Frame(t, body, base, s, fuel);
      LiveFrame(t, body, base, s, fuel);
      var r := Eval(t, body, s, fuel);
      if r.Done? { LiveFrameTimes(t, body, k - 1, fast, base, r.vm, fuel); }
    }
  }

  // ---------- the two stacks ----------

  /** b is a with n counters of running loops put in between. */
  ghost predicate Inserted(a: seq<TypedValue>, b: seq<TypedValue>, n: nat)
    decreases n
  {
    if n == 0 then a == b
    else exists x: seq<TypedValue>, y: seq<TypedValue>, k: nat ::
           a == x + y && k > 0 && Inserted(x + [Count(k)] + y, b, n - 1)
  }

  /** The stacks are the same exactly when nothing was put in between. */
  lemma {:induction false} InsertedSize(a: seq<TypedValue>, b: seq<TypedValue>, n: nat)
    requires Inserted(a, b, n)
    ensures |b| == |a| + n && (a == b <==> n == 0)
    decreases n
  {
    if n > 0 {
      var x: seq<TypedValue>, y: seq<TypedValue>, k: nat :|
        a == x + y && k > 0 && Inserted(x + [Count(k)] + y, b, n - 1);
      InsertedSize(x + [Count(k)] + y, b, n - 1);
    }
  }

  lemma InsertedMore(x: seq<TypedValue>, k: nat, y: seq<TypedValue>, b: seq<TypedValue>, n: nat)
    requires k > 0 && Inserted(x + [Count(k)] + y, b, n)
    ensures Inserted(x + y, b, n + 1)
  {
  }

  /** When a block fails, the compiled program has the tree interpreter's stack with one counter put
      in for every stack-counter loop that is running. */
  lemma {:induction false} StackAtError(t: NumberText, ops: seq<Op>, s: Vm, fuel: nat)
    requires Supported(t, ops) && Eval(t, ops, s, fuel).Fail?
    ensures Inserted(Eval(t, ops, s, fuel).vm.stack, FailStack(t, ops, s, fuel), Live(t, ops, s, fuel))
    decreases fuel, ops, 0
  {
    hide Inserted, Exec, FailStackOp, LiveOp, SupportedOp;
    var r := EvalOp(t, ops[0], s, fuel);
    if r.Done? {
      StackAtError(t, ops[1..], r.vm, fuel);
    } else {
      StackAtErrorOp(t, ops[0], s, fuel);
    }
  }

  lemma {:induction false} StackAtErrorOp(t: NumberText, op: Op, s: Vm, fuel: nat)
    requires SupportedOp(t, op) && EvalOp(t, op, s, fuel).Fail?
    ensures Inserted(EvalOp(t, op, s, fuel).vm.stack, FailStackOp(t, op, s, fuel), LiveOp(t, op, s, fuel))
    decreases fuel, op, 0
  {
    NoneInserted(EvalOp(t, op, s, fuel).vm.stack);
    hide Inserted, Exec, NeutralBody;
    match op
    case If(cond, thn, els) =>
      var r := Eval(t, cond, s, fuel);
      if !r.Done? {
        StackAtError(t, cond, s, fuel);
      } else if r.vm.stack != [] {
        if !IsFalsey(Top(r.vm)) {
          StackAtError(t, thn, Drop(r.vm, 1), fuel);
        } else {
          StackAtError(t, els.ops, Drop(r.vm, 1), fuel);
        }
      }
    case While(cond, body) =>
      var r := Eval(t, cond, s, fuel);
      if !r.Done? {
        StackAtError(t, cond, s, fuel);
      } else if r.vm.stack != [] {
        var r2 := Eval(t, body, Drop(r.vm, 1), fuel);
        if r2.Done? {
          StackAtErrorOp(t, op, r2.vm, fuel - 1);
        } else {
          StackAtError(t, body, Drop(r.vm, 1), fuel);
        }
      }
    case Loop(count, body) => StackAtErrorTimes(t, op, count, s, fuel);
    case Match(value, cases, default) =>
      var r := Eval(t, value, s, fuel);
      if !r.Done? {
        StackAtError(t, value, s, fuel);
      } else if r.vm.stack != [] {
        SelectSupported(t, Top(r.vm), op);
        StackAtError(t, Select(t, Top(r.vm), cases, default), Drop(r.vm, 1), fuel);
      }
    case _ =>
  }

  lemma NoneInserted(a: seq<TypedValue>)
    ensures Inserted(a, a, 0)
  {
  }

  lemma SelectSupported(t: NumberText, v: TypedValue, op: Op)
    requires op.Match? && SupportedOp(t, op)
    ensures Supported(t, Select(t, v, op.cases, op.default))
  {
  }

  lemma {:induction false} StackAtErrorTimes(t: NumberText, op: Op, k: nat, s: Vm, fuel: nat)
    requires op.Loop? && SupportedOp(t, op) && EvalTimes(t, op.body, k, s, fuel).Fail?
    ensures var fast := IsFast(op.count, op.body);
            Inserted(EvalTimes(t, op.body, k, s, fuel).vm.stack, FailStackTimes(t, op.body, k, fast, s, fuel),
                     LiveTimes(t, op.body, k, fast, s, fuel))
    decreases fuel, op.body, k + 1
  {
    hide Inserted, Exec, NeutralBody;
    var body := op.body;
    var r := Eval(t, body, s, fuel);
    if r.Done? {
      StackAtErrorTimes(t, op, k - 1, r.vm, fuel);
    } else if !IsFast(op.count, body) {
      StackAtError(t, body, s, fuel);
    } else {
      var s', bare := Counting(s, k), s.(stack := []);
      NeutralAt(t, body, s, fuel);
      assert Under(s.stack, bare) == s && Under(s'.stack, bare) == s';
      Frame(t, body, s.stack, bare, fuel);
      Frame(t, body, s'.stack, bare, fuel);
      LiveFrame(t, body, s.stack, bare, fuel);
      LiveFrame(t, body, s'.stack, bare, fuel);
      StackAtError(t, body, s', fuel);
      var y := Eval(t, body, bare, fuel).vm.stack;
      InsertedMore(s.stack, k, y, FailStack(t, body, s', fuel), Live(t, body, s', fuel));
    }
  }

  // ---------- blocks without such loops ----------

  /** No loop anywhere keeps its counter on the stack under a body. */
  predicate NoFast(ops: seq<Op>)
    decreases ops, 0
  {
    ops == [] || (NoFastOp(ops[0]) && NoFast(ops[1..]))
  }

  predicate NoFastOp(op: Op)
    decreases op, 0
  {
    match op
    case If(cond, thn, els) => NoFast(cond) && NoFast(thn) && (els.Block? ==> NoFast(els.ops))
    case While(cond, body) => NoFast(cond) && NoFast(body)
    case Loop(count, body) => NoFast(body) && (body == [] || !IsFast(count, body))
    case Match(value, cases, default) =>
      NoFast(value) && (forall i :: 0 <= i < |cases| ==> NoFast(cases[i].body))
      && (default.Block? ==> NoFast(default.ops))
    case _ => true
  }

  lemma {:induction false} NoneLive(t: NumberText, ops: seq<Op>, s: Vm, fuel: nat)
    requires NoFast(ops)
    ensures Live(t, ops, s, fuel) == 0
    decreases fuel, ops, 0
  {
    hide Exec;
    if ops != [] {
      NoneLiveOp(t, ops[0], s, fuel);
      var r := EvalOp(t, ops[0], s, fuel);
      if r.Done? { NoneLive(t, ops[1..], r.vm, fuel); }
    }
  }

  lemma {:induction false} NoneLiveOp(t: NumberText, op: Op, s: Vm, fuel: nat)
    requires NoFastOp(op)
    ensures LiveOp(t, op, s, fuel) == 0
    decreases fuel, op, 0
  {
    hide Exec;
    match op
    case If(cond, thn, els) =>
      NoneLive(t, cond, s, fuel);
      var r := Eval(t, cond, s, fuel);
      if r.Done? && r.vm.stack != [] {
        NoneLive(t, thn, Drop(r.vm, 1), fuel);
        if els.Block? { NoneLive(t, els.ops, Drop(r.vm, 1), fuel); }
      }
    case While(cond, body) =>
      if fuel > 0 {
        NoneLive(t, cond, s, fuel);
        var r := Eval(t, cond, s, fuel);
        if r.Done? && r.vm.stack != [] {
          NoneLive(t, body, Drop(r.vm, 1), fuel);
          var r2 := Eval(t, body, Drop(r.vm, 1), fuel);
          if r2.Done? { NoneLiveOp(t, op, r2.vm, fuel - 1); }
        }
      }
    case Loop(count, body) => NoneLiveTimes(t, body, count, IsFast(count, body), s, fuel);
    case Match(value, cases, default) =>
      NoneLive(t, value, s, fuel);
      var r := Eval(t, value, s, fuel);
      if r.Done? && r.vm.stack != [] {
        var block := Select(t, Top(r.vm), cases, default);
        if block != [] { NoneLive(t, block, Drop(r.vm, 1), fuel); }
      }
    case _ =>
  }

  lemma {:induction false} NoneLiveTimes(t: NumberText, body: seq<Op>, k: nat, fast: bool, s: Vm, fuel: nat)
    requires NoFast(body) && (body == [] || !fast)
    ensures LiveTimes(t, body, k, fast, s, fuel) == 0
    decreases fuel, body, k + 1
  {
    hide Exec;
    if k > 0 {
      NoneLive(t, body, s, fuel);
      var r := Eval(t, body, s, fuel);
      if r.Done? { NoneLiveTimes(t, body, k - 1, fast, r.vm, fuel); }
    }
  }
}
