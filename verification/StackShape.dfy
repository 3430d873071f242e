/** A static check of stack depths: a decidable condition under which a loop body is neutral. */
module StackShape {
  import opened Values
  import opened Ast
  import opened TreeVm
  import opened TreeFacts
  import opened CodeGen
  import opened ErrorStack

  function PrimShape(p: Prim, d: nat): Option<nat> {
    match p
    case Push(_) => Some(d + 1)
    case Load(_) => Some(d + 1)
    case Dup => if d < 1 then None else Some(d + 1)
    case Store(_) => if d < 1 then None else Some(d - 1)
    case Pop => if d < 1 then None else Some(d - 1)
    case Not => if d < 1 then None else Some(d)
    case Binary(_) => if d < 2 then None else Some(d - 1)
    case Swap => if d < 2 then None else Some(d)
    case _ => Some(d)
  }

  /** The depth a block leaves when it starts with d operands of its own, if it never needs more
      and every path through it leaves the same depth. */
  function Shape(ops: seq<Op>, d: nat): Option<nat>
    decreases ops, 0
  {
    if ops == [] then Some(d)
    else match OpShape(ops[0], d)
      case Some(e) => Shape(ops[1..], e)
      case None => None
  }

  function BlockShape(b: MaybeBlock, d: nat): Option<nat>
    decreases b, 0
  {
    if b.Block? then Shape(b.ops, d) else Some(d)
  }

  /** A tested condition must leave a value for the test. */
  function TestShape(cond: seq<Op>, d: nat): Option<nat>
    decreases cond, 1
  {
    match Shape(cond, d)
    case Some(e) => if e < 1 then None else Some(e - 1)
    case None => None
  }

  function OpShape(op: Op, d: nat): Option<nat>
    decreases op, 0
  {
    match op
    case Do(p) => PrimShape(p, d)
    case If(cond, thn, els) =>
      (match TestShape(cond, d)
       case Some(e) => if Shape(thn, e) == BlockShape(els, e) then Shape(thn, e) else None
       case None => None)
    case While(cond, body) =>
      (match TestShape(cond, d)
       case Some(e) => if Shape(body, e) == Some(d) then Some(e) else None
       case None => None)
    case Loop(count, body) => TimesShape(body, count, d)
    case Match(value, cases, default) =>
      (match TestShape(value, d)
       case Some(e) =>
         if forall i :: 0 <= i < |cases| ==> Shape(cases[i].body, e) == BlockShape(default, e)
         then BlockShape(default, e) else None
       case None => None)
    case _ => Some(d)
  }

  function TimesShape(body: seq<Op>, count: nat, d: nat): Option<nat>
    decreases body, 1, count
  {
    if count == 0 then Some(d)
    else match Shape(body, d)
      case Some(e) => TimesShape(body, count - 1, e)
      case None => None
  }

  /** No underflow, and on success the predicted depth. */
  predicate Fits(r: Outcome, d: nat) {
    !Underflows(r) && (r.Done? ==> |r.vm.stack| == d)
  }

  lemma {:induction false} ShapeSound(t: NumberText, ops: seq<Op>, s: Vm, fuel: nat)
    requires Shape(ops, |s.stack|).Some?
    ensures Fits(Eval(t, ops, s, fuel), Shape(ops, |s.stack|).value)
    decreases fuel, ops, 0
  {
    if ops != [] {
      OpShapeSound(t, ops[0], s, fuel);
      var r := EvalOp(t, ops[0], s, fuel);
      if r.Done? { ShapeSound(t, ops[1..], r.vm, fuel); }
    }
  }

  lemma {:induction false} OpShapeSound(t: NumberText, op: Op, s: Vm, fuel: nat)
    requires OpShape(op, |s.stack|).Some?
    ensures Fits(EvalOp(t, op, s, fuel), OpShape(op, |s.stack|).value)
    decreases fuel, op, 1
  {
    hide Shape, TimesShape, Eval, Exec;
    match op
    case Do(p) => PrimShapeSound(t, p, s);
    case If(cond, thn, els) =>
      ShapeSound(t, cond, s, fuel);
      var r := Eval(t, cond, s, fuel);
      if r.Done? {
        var s1 := Drop(r.vm, 1);
        if !IsFalsey(Top(r.vm)) { ShapeSound(t, thn, s1, fuel); }
        else if els.Block? { ShapeSound(t, els.ops, s1, fuel); }
      }
    case While(_, _) => WhileShapeSound(t, op, s, fuel);
    case Loop(count, body) => TimesShapeSound(t, body, count, s, fuel);
    case Match(_, _, _) => MatchShapeSound(t, op, s, fuel);
    case _ =>
  }

  lemma ApplyHasOperands(t: NumberText, op: BinOp, a: TypedValue, b: TypedValue)
    ensures Apply(t, op, a, b) != Err(StackUnderflow)
  {
  }

  lemma PrimShapeSound(t: NumberText, p: Prim, s: Vm)
    requires PrimShape(p, |s.stack|).Some?
    ensures Fits(Exec(t, p, s), PrimShape(p, |s.stack|).value)
  {
    hide Apply;
    if p.Binary? { ApplyHasOperands(t, p.op, s.stack[|s.stack| - 2], s.stack[|s.stack| - 1]); }
  }

  lemma {:induction false} WhileShapeSound(t: NumberText, op: Op, s: Vm, fuel: nat)
    requires op.While? && OpShape(op, |s.stack|).Some?
    ensures Fits(EvalOp(t, op, s, fuel), OpShape(op, |s.stack|).value)
    decreases fuel, op, 0
  {
    hide Shape, Eval;
    var While(cond, body) := op;
    if fuel > 0 {
      ShapeSound(t, cond, s, fuel);
      var r := Eval(t, cond, s, fuel);
      if r.Done? && !IsFalsey(Top(r.vm)) {
        ShapeSound(t, body, Drop(r.vm, 1), fuel);
        var r2 := Eval(t, body, Drop(r.vm, 1), fuel);
        if r2.Done? { WhileShapeSound(t, op, r2.vm, fuel - 1); }
      }
    }
  }

  lemma {:induction false} MatchShapeSound(t: NumberText, op: Op, s: Vm, fuel: nat)
    requires op.Match? && OpShape(op, |s.stack|).Some?
    ensures Fits(EvalOp(t, op, s, fuel), OpShape(op, |s.stack|).value)
    decreases fuel, op, 0
  {
    hide Shape, Eval, Select;
    var Match(value, cases, default) := op;
    ShapeSound(t, value, s, fuel);
    var r := Eval(t, value, s, fuel);
    if r.Done? {
      var block := Select(t, Top(r.vm), cases, default);
      SelectShape(t, Top(r.vm), cases, default, |r.vm.stack| - 1);
      NothingShape(|r.vm.stack| - 1);
      if block != [] { ShapeSound(t, block, Drop(r.vm, 1), fuel); }
    }
  }

  lemma NothingShape(d: nat)
    ensures Shape([], d) == Some(d)
  {
  }

  lemma SelectShape(t: NumberText, v: TypedValue, cases: seq<Case>, default: MaybeBlock, e: nat)
    requires forall i :: 0 <= i < |cases| ==> Shape(cases[i].body, e) == BlockShape(default, e)
    ensures Shape(Select(t, v, cases, default), e) == BlockShape(default, e)
  {
    if cases != [] && !Equals(t, v, cases[0].value) {
      SelectShape(t, v, cases[1..], default, e);
    }
  }

  lemma {:induction false} TimesShapeSound(t: NumberText, body: seq<Op>, count: nat, s: Vm, fuel: nat)
    requires TimesShape(body, count, |s.stack|).Some?
    ensures Fits(EvalTimes(t, body, count, s, fuel), TimesShape(body, count, |s.stack|).value)
    decreases fuel, body, count + 1
  {
    if count > 0 {
      ShapeSound(t, body, s, fuel);
      var r := Eval(t, body, s, fuel);
      if r.Done? { TimesShapeSound(t, body, count - 1, r.vm, fuel); }
    }
  }

  /** A body the check accepts at depth zero is neutral from every state. */
  lemma ShapeNeutral(t: NumberText, body: seq<Op>)
    requires Shape(body, 0) == Some(0)
    ensures NeutralBody(t, body)
  {
    forall s: Vm, fuel: nat ensures NeutralFrom(t, body, s, fuel) {
      ShapeSound(t, body, s.(stack := []), fuel);
    }
  }

  // ---------- whole programs ----------

  /** No reserved name, no definition, and in every stack-counter loop a body that the depth check
      accepts. */
  predicate Checked(ops: seq<Op>)
    decreases ops, 0
  {
    ops == [] || (CheckedOp(ops[0]) && Checked(ops[1..]))
  }

  predicate CheckedOp(op: Op)
    decreases op, 0
  {
    match op
    case Do(p) => UserName(p)
    case If(cond, thn, els) => Checked(cond) && Checked(thn) && (els.Block? ==> Checked(els.ops))
    case While(cond, body) => Checked(cond) && Checked(body)
    case Loop(count, body) => Checked(body) && (IsFast(count, body) ==> Shape(body, 0) == Some(0))
    case Match(value, cases, default) =>
      Checked(value) && (forall i :: 0 <= i < |cases| ==> Checked(cases[i].body))
      && (default.Block? ==> Checked(default.ops))
    case Def(_, _, _) => false
    case _ => true
  }

  /** A program that passes the check is one the two executors agree on. */
  lemma {:induction false} CheckedSupported(t: NumberText, ops: seq<Op>)
    requires Checked(ops)
    ensures Supported(t, ops)
    decreases ops, 0
  {
    if ops != [] {
      CheckedSupportedOp(t, ops[0]);
      CheckedSupported(t, ops[1..]);
    }
  }

  lemma {:induction false} CheckedSupportedOp(t: NumberText, op: Op)
    requires CheckedOp(op)
    ensures SupportedOp(t, op)
    decreases op, 0
  {
    hide Shape, NeutralBody;
    match op
    case If(cond, thn, els) =>
      CheckedSupported(t, cond);
      CheckedSupported(t, thn);
      if els.Block? { CheckedSupported(t, els.ops); }
    case While(cond, body) => CheckedSupported(t, cond); CheckedSupported(t, body);
    case Loop(count, body) =>
      CheckedSupported(t, body);
      if IsFast(count, body) { ShapeNeutral(t, body); }
    case Match(value, cases, default) =>
      CheckedSupported(t, value);
      forall i | 0 <= i < |cases| ensures Supported(t, cases[i].body) { CheckedSupported(t, cases[i].body); }
      if default.Block? { CheckedSupported(t, default.ops); }
    case _ =>
  }
}
