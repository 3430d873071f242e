/** The code of an operation tree as a function of its start address. The backpatching
    compiler is proved against it; the simulation is proved about it. */
module CodeGen {
  import opened Values
  import opened Ast
  import opened Bytecode

  const UNROLL_LIMIT: nat := 5
  const FAST_COUNT: nat := 1000
  const FAST_BODY: nat := 5

  /** The counted loops that keep their counter on the operand stack. */
  predicate IsFast(count: nat, body: seq<Op>) { count == FAST_COUNT && |body| <= FAST_BODY }

  // ---------- lengths ----------

  /** The number of instructions of a block; `defs` are the names in the function table. */
  function Len(ops: seq<Op>, defs: set<string>): nat
    decreases ops, 0
  {
    if ops == [] then 0 else LenOp(ops[0], defs) + Len(ops[1..], defs)
  }

  function LenOp(op: Op, defs: set<string>): nat
    decreases op, 0
  {
    match op
    case Do(_) => 1
    case If(cond, thn, els) =>
      Len(cond, defs) + 1 + Len(thn, defs) + (if els.Block? then 1 + Len(els.ops, defs) else 0)
    case While(cond, body) => Len(cond, defs) + 1 + Len(body, defs) + 1
    case Loop(count, body) =>
      if count <= UNROLL_LIMIT then count * Len(body, defs)
      else if IsFast(count, body) then 5 + Len(body, defs) + 4
      else 6 + Len(body, defs) + 5
    case Match(value, cases, default) =>
      Len(value, defs) + 1 + LenCases(cases, defs) + (if default.Block? then Len(default.ops, defs) else 0)
    case Def(name, _, body) => if name in defs then 1 + Len(body, defs) + 1 else 0
    case IfPassed(_) => 1
    case ElseBlock(_) => 1
  }

  function LenCases(cases: seq<Case>, defs: set<string>): nat
    decreases cases, 0
  {
    if cases == [] then 0 else 4 + Len(cases[0].body, defs) + 1 + LenCases(cases[1..], defs)
  }

  // ---------- code ----------

  function Code(ops: seq<Op>, p: nat, defs: set<string>): (c: seq<Instr>)
    ensures |c| == Len(ops, defs)
    decreases ops, 0
  {
    if ops == [] then []
    else CodeOp(ops[0], p, defs) + Code(ops[1..], p + LenOp(ops[0], defs), defs)
  }

  function CodeOp(op: Op, p: nat, defs: set<string>): (c: seq<Instr>)
    ensures |c| == LenOp(op, defs)
    decreases op, 2
  {
    match op
    case Do(prim) => [Instr.Do(prim)]
    case If(cond, thn, els) =>
      var q := p + Len(cond, defs) + 1;
      var r := q + Len(thn, defs);
      if els.Block? then
        Code(cond, p, defs) + [JumpIfZero(r + 1)] + Code(thn, q, defs)
        + [Jump(r + 1 + Len(els.ops, defs))] + Code(els.ops, r + 1, defs)
      else
        Code(cond, p, defs) + [JumpIfZero(r)] + Code(thn, q, defs)
    case While(cond, body) =>
      var q := p + Len(cond, defs) + 1;
      Code(cond, p, defs) + [JumpIfZero(q + Len(body, defs) + 1)] + Code(body, q, defs) + [Jump(p)]
    case Loop(count, body) =>
      if count <= UNROLL_LIMIT then CodeTimes(body, count, p, defs)
      else if IsFast(count, body) then FastHead(p, count, Len(body, defs)) + Code(body, p + 5, defs) + FastTail(p)
      else SlowHead(p, count, Len(body, defs)) + Code(body, p + 6, defs) + SlowTail(p)
    case Match(value, cases, default) =>
      var q := p + Len(value, defs);
      var r := q + 1 + LenCases(cases, defs);
      Code(value, p, defs) + [Instr.Do(Store(MatchValue(q)))]
      + CodeCases(cases, q + 1, MatchValue(q), r + (if default.Block? then Len(default.ops, defs) else 0), defs)
      + (if default.Block? then Code(default.ops, r, defs) else [])
    case Def(name, params, body) =>
      if name in defs then [FunctionEntry(name, params)] + Code(body, p + 1, defs) + [Return] else []
    case IfPassed(block) => [PassedBlock(PushesOnly(block))]
    case ElseBlock(block) => [FailedBlock(PushesOnly(block))]
  }

  /** An unrolled loop: one copy of the body per iteration, each at its own address. */
  function CodeTimes(body: seq<Op>, count: nat, p: nat, defs: set<string>): (c: seq<Instr>)
    ensures |c| == count * Len(body, defs)
    decreases body, 1, count
  {
    if count == 0 then []
    else
      assert count * Len(body, defs) == Len(body, defs) + (count - 1) * Len(body, defs);
      Code(body, p, defs) + CodeTimes(body, count - 1, p + Len(body, defs), defs)
  }

  /** The counter goes on the stack and is tested at p + 1. */
  function FastHead(p: nat, count: nat, bodyLen: nat): (c: seq<Instr>) {
    [Instr.Do(Push(Number(count as real))), Instr.Do(Dup), Instr.Do(Push(Number(0.0))), Instr.Do(Binary(Gt)),
     JumpIfZero(p + 5 + bodyLen + 3)]
  }

  function FastTail(p: nat): (c: seq<Instr>) {
    [Instr.Do(Push(Number(1.0))), Instr.Do(Binary(Sub)), Jump(p + 1), Instr.Do(Pop)]
  }

  /** The counter goes to memory, named after the address p + 1 of its first store. */
  function SlowHead(p: nat, count: nat, bodyLen: nat): (c: seq<Instr>) {
    [Instr.Do(Push(Number(count as real))), Instr.Do(Store(LoopCounter(p + 1))), Instr.Do(Load(LoopCounter(p + 1))),
     Instr.Do(Push(Number(0.0))), Instr.Do(Binary(Gt)), JumpIfZero(p + 6 + bodyLen + 5)]
  }

  function SlowTail(p: nat): (c: seq<Instr>) {
    [Instr.Do(Load(LoopCounter(p + 1))), Instr.Do(Push(Number(1.0))), Instr.Do(Binary(Sub)),
     Instr.Do(Store(LoopCounter(p + 1))), Jump(p + 2)]
  }

  /** The cases of a match from address p on; each ends with a jump to `exit`. */
  function CodeCases(cases: seq<Case>, p: nat, cell: string, exit: nat, defs: set<string>): (c: seq<Instr>)
    ensures |c| == LenCases(cases, defs)
    decreases cases, 0
  {
    if cases == [] then []
    else
      var next := p + 4 + Len(cases[0].body, defs) + 1;
      CaseHead(cases[0].value, cell, next) + Code(cases[0].body, p + 4, defs) + [Jump(exit)]
      + CodeCases(cases[1..], next, cell, exit, defs)
  }

  function CaseHead(value: TypedValue, cell: string, next: nat): (c: seq<Instr>) {
    [Instr.Do(Load(cell)), Instr.Do(Push(value)), Instr.Do(Binary(Eq)), JumpIfZero(next)]
  }

  /** Inside `if passed` and `else` blocks only pushes survive compilation. */
  function PushesOnly(block: seq<Op>): seq<Prim> {
    seq(|block|, i requires 0 <= i < |block| =>
      if block[i].Do? && block[i].prim.Push? then block[i].prim else Nop)
  }

  // ---------- one level of the code at a time ----------

  lemma CodeUnfold(ops: seq<Op>, p: nat, defs: set<string>)
    ensures ops == [] ==> Code(ops, p, defs) == [] && Len(ops, defs) == 0
    ensures ops != [] ==>
              Code(ops, p, defs) == CodeOp(ops[0], p, defs) + Code(ops[1..], p + LenOp(ops[0], defs), defs)
              && Len(ops, defs) == LenOp(ops[0], defs) + Len(ops[1..], defs)
  {
  }

  lemma IfCode(op: Op, p: nat, defs: set<string>)
    requires op.If?
    ensures var q, hi := p + Len(op.cond, defs), p + LenOp(op, defs); var r := q + 1 + Len(op.thn, defs);
            CodeOp(op, p, defs) ==
            (if op.els.Block? then
               Code(op.cond, p, defs) + [JumpIfZero(r + 1)] + Code(op.thn, q + 1, defs) + [Jump(hi)]
                 + Code(op.els.ops, r + 1, defs)
             else Code(op.cond, p, defs) + [JumpIfZero(r)] + Code(op.thn, q + 1, defs))
  {
    hide Code, Len;
  }

  lemma WhileCode(op: Op, p: nat, defs: set<string>)
    requires op.While?
    ensures var q, hi := p + Len(op.cond, defs), p + LenOp(op, defs);
            CodeOp(op, p, defs) == Code(op.cond, p, defs) + [JumpIfZero(hi)] + Code(op.body, q + 1, defs) + [Jump(p)]
    ensures LenOp(op, defs) == Len(op.cond, defs) + 1 + Len(op.body, defs) + 1
  {
    hide Code, Len;
  }

  lemma MatchCode(op: Op, p: nat, defs: set<string>)
    requires op.Match?
    ensures var q, hi := p + Len(op.value, defs), p + LenOp(op, defs); var r := q + 1 + LenCases(op.cases, defs);
            CodeOp(op, p, defs) ==
              Code(op.value, p, defs) + [Instr.Do(Store(MatchValue(q)))]
                + CodeCases(op.cases, q + 1, MatchValue(q), hi, defs)
              + (if op.default.Block? then Code(op.default.ops, r, defs) else [])
    ensures p + LenOp(op, defs) ==
            p + Len(op.value, defs) + 1 + LenCases(op.cases, defs)
              + (if op.default.Block? then Len(op.default.ops, defs) else 0)
  {
    hide Code, Len, CodeCases, LenCases, MatchValue;
  }

  lemma CaseCode(rest: seq<Case>, s: nat, cell: string, exit: nat, defs: set<string>)
    requires rest != []
    ensures var next := s + 4 + Len(rest[0].body, defs) + 1;
            CodeCases(rest, s, cell, exit, defs) ==
              CaseHead(rest[0].value, cell, next) + Code(rest[0].body, s + 4, defs) + [Jump(exit)]
              + CodeCases(rest[1..], next, cell, exit, defs)
            && |CaseHead(rest[0].value, cell, next)| == 4
            && LenCases(rest, defs) == 4 + Len(rest[0].body, defs) + 1 + LenCases(rest[1..], defs)
  {
    hide Code, Len;
  }
}
