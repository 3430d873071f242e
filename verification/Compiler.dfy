/** The backpatching compiler (BytecodeCompiler in crates/icn-covm/src/bytecode.rs), proved
    against the position-indexed code of CodeGen. */
module Compiler {
  import opened Values
  import opened Ast
  import opened Bytecode
  import opened CodeGen

  // ---------- laws of the position-indexed code ----------

  lemma Assoc<T>(x: seq<T>, y: seq<T>, z: seq<T>)
    ensures x + (y + z) == x + y + z
  {
  }

  /** Concatenations regroup freely. */
  lemma Regroup3<T>(x: seq<T>, a: seq<T>, b: seq<T>, c: seq<T>)
    ensures x + a + b + c == x + (a + b + c)
  {
    Assoc(x, a, b);
    Assoc(x, a + b, c);
  }

  lemma Regroup4<T>(x: seq<T>, a: seq<T>, b: seq<T>, c: seq<T>, d: seq<T>)
    ensures x + a + b + c + d == x + (a + b + c + d)
  {
    Regroup3(x, a, b, c);
    Assoc(x, a + b + c, d);
  }

  lemma Regroup5<T>(x: seq<T>, a: seq<T>, b: seq<T>, c: seq<T>, d: seq<T>, e: seq<T>)
    ensures x + a + b + c + d + e == x + (a + b + c + d + e)
  {
    Regroup4(x, a, b, c, d);
    Assoc(x, a + b + c + d, e);
  }

  lemma {:induction false} LenAppend(xs: seq<Op>, ys: seq<Op>, defs: set<string>)
    ensures Len(xs + ys, defs) == Len(xs, defs) + Len(ys, defs)
  {
    if xs == [] {
      assert xs + ys == ys;
    } else {
      LenAppend(xs[1..], ys, defs);
      assert (xs + ys)[1..] == xs[1..] + ys;
    }
  }

  lemma {:induction false} CodeAppend(xs: seq<Op>, ys: seq<Op>, p: nat, defs: set<string>)
    ensures Code(xs + ys, p, defs) == Code(xs, p, defs) + Code(ys, p + Len(xs, defs), defs)
  {
    hide *;
    CodeUnfold(xs, p, defs);
    if xs == [] {
      assert xs + ys == ys;
    } else {
      var q := p + LenOp(xs[0], defs);
      CodeUnfold(xs + ys, p, defs);
      CodeAppend(xs[1..], ys, q, defs);
      assert (xs + ys)[1..] == xs[1..] + ys;
      Assoc(CodeOp(xs[0], p, defs), Code(xs[1..], q, defs), Code(ys, q + Len(xs[1..], defs), defs));
    }
  }

  /** One more operation at the end of a block. */
  lemma CodeSnoc(ops: seq<Op>, i: nat, p: nat, defs: set<string>)
    requires i < |ops|
    ensures Len(ops[..i + 1], defs) == Len(ops[..i], defs) + LenOp(ops[i], defs)
    ensures Code(ops[..i + 1], p, defs) == Code(ops[..i], p, defs) + CodeOp(ops[i], p + Len(ops[..i], defs), defs)
  {
    assert ops[..i + 1] == ops[..i] + [ops[i]];
    CodeAppend(ops[..i], [ops[i]], p, defs);
    LenAppend(ops[..i], [ops[i]], defs);
    var q := p + Len(ops[..i], defs);
    assert [ops[i]][1..] == [];
    assert Code([ops[i]], q, defs) == CodeOp(ops[i], q, defs) + [];
  }

  lemma {:induction false} TimesSnoc(body: seq<Op>, k: nat, p: nat, defs: set<string>)
    ensures CodeTimes(body, k + 1, p, defs) == CodeTimes(body, k, p, defs) + Code(body, p + k * Len(body, defs), defs)
  {
    hide Code, Len;
    var w := Len(body, defs);
    if k == 0 {
      assert CodeTimes(body, 1, p, defs) == Code(body, p, defs) + CodeTimes(body, 0, p + w, defs);
    } else {
      TimesSnoc(body, k - 1, p + w, defs);
      assert p + w + (k - 1) * w == p + k * w;
      Assoc(Code(body, p, defs), CodeTimes(body, k - 1, p + w, defs), Code(body, p + k * w, defs));
    }
  }

  /** The instructions of one case. */
  function OneCase(c: Case, p: nat, cell: string, exit: nat, defs: set<string>): seq<Instr> {
    CaseHead(c.value, cell, p + 4 + Len(c.body, defs) + 1) + Code(c.body, p + 4, defs) + [Jump(exit)]
  }

  lemma CasesEmpty(p: nat, cell: string, exit: nat, defs: set<string>)
    ensures CodeCases([], p, cell, exit, defs) == [] && LenCases([], defs) == 0 && ExitJumps([], p, defs) == []
  {
  }

  lemma {:induction false} CasesSnoc(cases: seq<Case>, i: nat, p: nat, cell: string, exit: nat, defs: set<string>)
    requires i < |cases|
    ensures LenCases(cases[..i + 1], defs) == LenCases(cases[..i], defs) + 4 + Len(cases[i].body, defs) + 1
    ensures CodeCases(cases[..i + 1], p, cell, exit, defs) ==
            CodeCases(cases[..i], p, cell, exit, defs)
              + OneCase(cases[i], p + LenCases(cases[..i], defs), cell, exit, defs)
    decreases i
  {
    hide Code, Len, CaseHead, CodeCases, LenCases;
    var cs := cases[..i + 1];
    var next := p + 4 + Len(cs[0].body, defs) + 1;
    CaseCode(cs, p, cell, exit, defs);
    CasesEmpty(p, cell, exit, defs);
    if i == 0 {
      assert cs[1..] == [] && cases[..0] == [];
    } else {
      CasesSnoc(cases[1..], i - 1, next, cell, exit, defs);
      assert cs[1..] == cases[1..][..i] && cases[..i][1..] == cases[1..][..i - 1];
      CaseCode(cases[..i], p, cell, exit, defs);
      Assoc(OneCase(cs[0], p, cell, exit, defs), CodeCases(cases[..i][1..], next, cell, exit, defs),
            OneCase(cases[i], p + LenCases(cases[..i], defs), cell, exit, defs));
    }
  }

  /** The addresses of the jumps that leave the cases. */
  function ExitJumps(cases: seq<Case>, p: nat, defs: set<string>): seq<nat> {
    if cases == [] then []
    else
      var next := p + 4 + Len(cases[0].body, defs) + 1;
      [next - 1] + ExitJumps(cases[1..], next, defs)
  }

  lemma {:induction false} ExitsSnoc(cases: seq<Case>, i: nat, p: nat, defs: set<string>)
    requires i < |cases|
    ensures ExitJumps(cases[..i + 1], p, defs) ==
            ExitJumps(cases[..i], p, defs) + [p + LenCases(cases[..i], defs) + 4 + Len(cases[i].body, defs)]
    decreases i
  {
    var cs := cases[..i + 1];
    var next := p + 4 + Len(cs[0].body, defs) + 1;
    if i == 0 {
      assert cs[1..] == [] && cases[..0] == [];
    } else {
      ExitsSnoc(cases[1..], i - 1, next, defs);
      assert cs[1..] == cases[1..][..i] && cases[..i][1..] == cases[1..][..i - 1];
    }
  }

  /** The exit jumps stand among the cases. */
  lemma {:induction false} ExitsInside(cases: seq<Case>, p: nat, defs: set<string>)
    ensures forall x :: x in ExitJumps(cases, p, defs) ==> p <= x < p + LenCases(cases, defs)
  {
    if cases != [] {
      ExitsInside(cases[1..], p + 4 + Len(cases[0].body, defs) + 1, defs);
    }
  }

  /** Where the exit of a match goes changes the code at the exit jumps and nowhere else. */
  lemma {:induction false} ExitOnly(cases: seq<Case>, p: nat, cell: string, e: nat, e': nat, defs: set<string>, i: nat)
    requires i < LenCases(cases, defs)
    ensures CodeCases(cases, p, cell, e', defs)[i] ==
            if p + i in ExitJumps(cases, p, defs) then Jump(e') else CodeCases(cases, p, cell, e, defs)[i]
    ensures p + i in ExitJumps(cases, p, defs) ==> CodeCases(cases, p, cell, e, defs)[i] == Jump(e)
  {
    hide Code, Len, CaseHead, CodeCases;
    var w := 4 + Len(cases[0].body, defs);
    var next := p + w + 1;
    CaseCode(cases, p, cell, e, defs);
    CaseCode(cases, p, cell, e', defs);
    ExitsInside(cases[1..], next, defs);
    var front := CaseHead(cases[0].value, cell, next) + Code(cases[0].body, p + 4, defs);
    var x, x' := CodeCases(cases[1..], next, cell, e, defs), CodeCases(cases[1..], next, cell, e', defs);
    Splice(front, Jump(e), x, i);
    Splice(front, Jump(e'), x', i);
    if i > w {
      ExitOnly(cases[1..], next, cell, e, e', defs, i - w - 1);
    }
  }

  lemma ExitsChange(cases: seq<Case>, p: nat, cell: string, e: nat, e': nat, defs: set<string>)
    ensures var before, after := CodeCases(cases, p, cell, e, defs), CodeCases(cases, p, cell, e', defs);
            forall i :: 0 <= i < |before| ==>
              (if p + i in ExitJumps(cases, p, defs) then before[i] == Jump(e) && after[i] == Jump(e')
               else after[i] == before[i])
  {
    hide CodeCases, ExitJumps;
    var before, after := CodeCases(cases, p, cell, e, defs), CodeCases(cases, p, cell, e', defs);
    forall i | 0 <= i < |before|
      ensures if p + i in ExitJumps(cases, p, defs) then before[i] == Jump(e) && after[i] == Jump(e')
              else after[i] == before[i]
    {
      ExitOnly(cases, p, cell, e, e', defs, i);
    }
  }

  lemma Splice(x: seq<Instr>, j: Instr, y: seq<Instr>, i: nat)
    requires i < |x| + 1 + |y|
    ensures (x + [j] + y)[i] == if i < |x| then x[i] else if i == |x| then j else y[i - |x| - 1]
  {
  }

  // ---------- function tables ----------

  /** The function table of the first pass: each definition is entered at the address it would
      have if the program consisted of definitions alone. */
  function Entries(ops: seq<Op>, p: nat, table: map<string, nat>): map<string, nat> {
    if ops == [] then table
    else if ops[0].Def? then
      var table' := table[ops[0].name := p];
      Entries(ops[1..], p + 1 + Len(ops[0].body, table'.Keys) + 1, table')
    else Entries(ops[1..], p, table)
  }

  // ---------- the compiler ----------

  datatype BytecodeProgram = BytecodeProgram(instructions: seq<Instr>, functionTable: map<string, nat>)

  lemma ExitsAreJumps(pre: seq<Instr>, before: seq<Instr>, post: seq<Instr>, exits: seq<nat>)
    requires forall k :: k in exits ==> |pre| <= k < |pre| + |before|
    requires forall i :: 0 <= i < |before| && |pre| + i in exits ==> before[i] == Jump(0)
    ensures forall k :: k in exits ==> k < |pre + before + post| && (pre + before + post)[k] == Jump(0)
  {
    forall k | k in exits ensures k < |pre + before + post| && (pre + before + post)[k] == Jump(0) {
      var i := k - |pre|;
      assert |pre| + i == k && (pre + before + post)[k] == before[i];
    }
  }

  /** Changing the exits of the middle part changes nothing else. */
  lemma ExitsPatched(pre: seq<Instr>, before: seq<Instr>, after: seq<Instr>, post: seq<Instr>, exits: seq<nat>,
                     end: nat, now: seq<Instr>)
    requires |before| == |after| && |now| == |pre + before + post|
    requires forall k :: k in exits ==> |pre| <= k < |pre| + |before|
    requires forall i :: 0 <= i < |before| ==> after[i] == if |pre| + i in exits then Jump(end) else before[i]
    requires forall k :: 0 <= k < |now| ==> now[k] == if k in exits then Jump(end) else (pre + before + post)[k]
    ensures now == pre + after + post
  {
    forall k | 0 <= k < |now|
      ensures now[k] == (pre + after + post)[k]
    {
      if |pre| <= k < |pre| + |before| {
        var i := k - |pre|;
        assert k == |pre| + i && (pre + before + post)[k] == before[i] && (pre + after + post)[k] == after[i];
      }
    }
  }

  lemma Patched(x: seq<Instr>, i: Instr, y: seq<Instr>, j: Instr)
    ensures |x| < |x + [i] + y| && (x + [i] + y)[|x|] == i
    ensures (x + [i] + y)[|x| := j] == x + [j] + y
  {
  }

  lemma FastParts(p: nat, count: nat, w: nat)
    ensures |FastHead(p, count, w)| == 5 && FastHead(p, count, w)[..4] == FastHead(p, count, 0)[..4]
    ensures FastHead(p, count, w) == FastHead(p, count, w)[..4] + [JumpIfZero(p + 5 + w + 3)]
    ensures FastTail(p) == [Instr.Do(Push(Number(1.0))), Instr.Do(Binary(Sub)), Jump(p + 1)] + [Instr.Do(Pop)]
  {
  }

  lemma SlowParts(p: nat, count: nat, w: nat)
    ensures |SlowHead(p, count, w)| == 6 && SlowHead(p, count, w)[..5] == SlowHead(p, count, 0)[..5]
    ensures SlowHead(p, count, w) == SlowHead(p, count, w)[..5] + [JumpIfZero(p + 6 + w + 5)] && |SlowTail(p)| == 5
  {
    hide LoopCounter;
  }

  lemma CaseParts(value: TypedValue, cell: string, next: nat)
    ensures |CaseHead(value, cell, next)| == 4 && CaseHead(value, cell, next)[..3] == CaseHead(value, cell, 0)[..3]
    ensures CaseHead(value, cell, next) == CaseHead(value, cell, next)[..3] + [JumpIfZero(next)]
  {
  }

  /** The parts of an `if`, placed behind x one after the other, are its code behind x. */
  lemma IfPlaced(op: Op, x: seq<Instr>, defs: set<string>)
    requires op.If?
    ensures var q := |x| + Len(op.cond, defs); var r := q + 1 + Len(op.thn, defs);
            var cc, ct := Code(op.cond, |x|, defs), Code(op.thn, q + 1, defs);
            if op.els.Block? then
              var ce := Code(op.els.ops, r + 1, defs);
              x + cc + [JumpIfZero(r + 1)] + ct + [Jump(r + 1 + |ce|)] + ce == x + CodeOp(op, |x|, defs)
            else x + cc + [JumpIfZero(r)] + ct == x + CodeOp(op, |x|, defs)
  {
    hide Code, Len, CodeOp, LenOp;
    IfCode(op, |x|, defs);
    var q := |x| + Len(op.cond, defs);
    var r := q + 1 + Len(op.thn, defs);
    var cc, ct := Code(op.cond, |x|, defs), Code(op.thn, q + 1, defs);
    if op.els.Block? {
      var ce := Code(op.els.ops, r + 1, defs);
      IfLength(op, defs);
      Regroup5(x, cc, [JumpIfZero(r + 1)], ct, [Jump(r + 1 + |ce|)], ce);
    } else {
      Regroup3(x, cc, [JumpIfZero(r)], ct);
    }
  }

  lemma IfLength(op: Op, defs: set<string>)
    requires op.If? && op.els.Block?
    ensures LenOp(op, defs) == Len(op.cond, defs) + 1 + Len(op.thn, defs) + 1 + Len(op.els.ops, defs)
  {
    hide Len;
  }

  class BytecodeCompiler {
    var instructions: seq<Instr>
    var functionTable: map<string, nat>

    constructor ()
      ensures instructions == [] && functionTable == map[]
    {
      instructions, functionTable := [], map[];
    }

    method Emit(i: Instr) returns (pos: nat)
      modifies this`instructions
      ensures instructions == old(instructions) + [i] && pos == |old(instructions)|
    {
      pos := |instructions|;
      instructions := instructions + [i];
    }

    /** Sets the target of a conditional jump that is already in place. */
    method PatchJumpIfZero(pos: nat, addr: nat, ghost x: seq<Instr>, ghost y: seq<Instr>)
      requires pos == |x| && instructions == x + [JumpIfZero(0)] + y
      modifies this`instructions
      ensures instructions == x + [JumpIfZero(addr)] + y
    {
      Patched(x, JumpIfZero(0), y, JumpIfZero(addr));
      if instructions[pos].JumpIfZero? { instructions := instructions[pos := JumpIfZero(addr)]; }
    }

    method PatchJump(pos: nat, addr: nat)
      requires pos < |instructions|
      modifies this`instructions
      ensures instructions == if old(instructions)[pos].Jump? then old(instructions)[pos := Jump(addr)]
                              else old(instructions)
    {
      if instructions[pos].Jump? { instructions := instructions[pos := Jump(addr)]; }
    }

    method CompileOps(ops: seq<Op>)
      modifies this`instructions
      ensures instructions == old(instructions) + Code(ops, |old(instructions)|, functionTable.Keys)
      decreases ops, 0
    {
      hide Code, CodeOp, Len, LenOp;
      ghost var p, defs := |instructions|, functionTable.Keys;
      CodeUnfold(ops[..0], p, defs);
      var i := 0;
      while i < |ops|
        invariant i <= |ops|
        invariant instructions == old(instructions) + Code(ops[..i], p, defs)
      {
        CodeSnoc(ops, i, p, defs);
        Assoc(old(instructions), Code(ops[..i], p, defs), CodeOp(ops[i], p + Len(ops[..i], defs), defs));
        CompileOp(ops[i]);
        i := i + 1;
      }
      assert ops[..i] == ops;
    }

    method CompileOp(op: Op)
      modifies this`instructions
      ensures instructions == old(instructions) + CodeOp(op, |old(instructions)|, functionTable.Keys)
      decreases op, 9
    {
      hide Code, Len;
      match op
      case Do(prim) => var _ := Emit(Instr.Do(prim));
      case If(cond, thn, els) => CompileIf(cond, thn, els, op);
      case While(cond, body) => CompileWhile(cond, body, op);
      case Loop(count, body) => CompileLoop(count, body, op);
      case Match(value, cases, default) => CompileMatch(value, cases, default, op);
      case Def(name, params, body) => CompileDef(name, params, body, op);
      case IfPassed(block) => var _ := Emit(PassedBlock(PushesOnly(block)));
      case ElseBlock(block) => var _ := Emit(FailedBlock(PushesOnly(block)));
    }

    method CompileIf(cond: seq<Op>, thn: seq<Op>, els: MaybeBlock, ghost op: Op)
      requires op == If(cond, thn, els)
      modifies this`instructions
      ensures instructions == old(instructions) + CodeOp(op, |old(instructions)|, functionTable.Keys)
      decreases op, 8
    {
      hide Code, Len, CodeOp, LenOp;
      ghost var x, defs := instructions, functionTable.Keys;
      IfPlaced(op, x, defs);
      var test := CompileThen(cond, thn, op);
      ghost var cc, ct := Code(cond, |x|, defs), Code(thn, test + 1, defs);
      if els.Block? {
        CompileElse(els.ops, test, x + cc, ct, op);
      } else {
        PatchJumpIfZero(test, |instructions|, x + cc, ct);
      }
    }

    /** The condition, a test whose target is still open, and the then branch. */
    method CompileThen(cond: seq<Op>, thn: seq<Op>, ghost op: Op) returns (test: nat)
      requires op.If? && op.cond == cond && op.thn == thn
      modifies this`instructions
      ensures var x, defs := old(instructions), functionTable.Keys;
              test == |x| + Len(cond, defs)
              && instructions == x + Code(cond, |x|, defs) + [JumpIfZero(0)] + Code(thn, test + 1, defs)
      decreases op, 7
    {
      hide Code, Len;
      CompileOps(cond);
      test := Emit(JumpIfZero(0));
      CompileOps(thn);
    }

    /** The else branch, the jump over it, and the patched test before it. */
    method CompileElse(ops: seq<Op>, test: nat, ghost x: seq<Instr>, ghost ct: seq<Instr>, ghost op: Op)
      requires op.If? && op.els == Block(ops)
      requires test == |x| && instructions == x + [JumpIfZero(0)] + ct
      modifies this`instructions
      ensures var r, ce := |old(instructions)|, Code(ops, |old(instructions)| + 1, functionTable.Keys);
              instructions == x + [JumpIfZero(r + 1)] + ct + [Jump(r + 1 + |ce|)] + ce
      decreases op, 7
    {
      hide Code, Len;
      var skip := Emit(Jump(0));
      Assoc(x + [JumpIfZero(0)], ct, [Jump(0)]);
      PatchJumpIfZero(test, |instructions|, x, ct + [Jump(0)]);
      ghost var y := x + [JumpIfZero(skip + 1)] + ct;
      Assoc(x + [JumpIfZero(skip + 1)], ct, [Jump(0)]);
      CompileOps(ops);
      ghost var ce := Code(ops, skip + 1, functionTable.Keys);
      Patched(y, Jump(0), ce, Jump(skip + 1 + |ce|));
      PatchJump(skip, |instructions|);
    }

    method CompileWhile(cond: seq<Op>, body: seq<Op>, ghost op: Op)
      requires op == While(cond, body)
      modifies this`instructions
      ensures instructions == old(instructions) + CodeOp(op, |old(instructions)|, functionTable.Keys)
      decreases op, 8
    {
      hide Code, Len, CodeOp, LenOp;
      ghost var x, defs := instructions, functionTable.Keys;
      var start := |instructions|;
      WhileCode(op, start, defs);
      CompileOps(cond);
      var test := Emit(JumpIfZero(0));
      CompileOps(body);
      var _ := Emit(Jump(start));
      ghost var cc, cb := Code(cond, start, defs), Code(body, test + 1, defs);
      Assoc(x + cc + [JumpIfZero(0)], cb, [Jump(start)]);
      PatchJumpIfZero(test, |instructions|, x + cc, cb + [Jump(start)]);
      Assoc(x + cc + [JumpIfZero(test + 1 + |cb| + 1)], cb, [Jump(start)]);
      Regroup4(x, cc, [JumpIfZero(test + 1 + |cb| + 1)], cb, [Jump(start)]);
    }

    method CompileLoop(count: nat, body: seq<Op>, ghost op: Op)
      requires op == Loop(count, body)
      modifies this`instructions
      ensures instructions == old(instructions) + CodeOp(op, |old(instructions)|, functionTable.Keys)
      decreases op, 8
    {
      hide Code, Len;
      if count <= UNROLL_LIMIT {
        CompileUnrolled(count, body, op);
      } else if count == FAST_COUNT && |body| <= FAST_BODY {
        CompileFast(count, body, op);
      } else {
        CompileSlow(count, body, op);
      }
    }

    method CompileUnrolled(count: nat, body: seq<Op>, ghost op: Op)
      requires op == Loop(count, body)
      modifies this`instructions
      ensures instructions == old(instructions) + CodeTimes(body, count, |old(instructions)|, functionTable.Keys)
      decreases op, 7
    {
      hide Code, Len;
      ghost var p, defs := |instructions|, functionTable.Keys;
      for i := 0 to count
        invariant instructions == old(instructions) + CodeTimes(body, i, p, defs)
      {
        TimesSnoc(body, i, p, defs);
        Assoc(old(instructions), CodeTimes(body, i, p, defs), Code(body, p + i * Len(body, defs), defs));
        CompileOps(body);
      }
    }

    method CompileFast(count: nat, body: seq<Op>, ghost op: Op)
      requires op == Loop(count, body)
      modifies this`instructions
      ensures var p, defs := |old(instructions)|, functionTable.Keys;
              instructions == old(instructions) +
                (FastHead(p, count, Len(body, defs)) + Code(body, p + 5, defs) + FastTail(p))
      decreases op, 7
    {
      hide Code, Len, FastHead, FastTail;
      ghost var x, defs := instructions, functionTable.Keys;
      var start := EmitFastTest(count);
      ghost var head := instructions;
      var test := Emit(JumpIfZero(0));
      CompileOps(body);
      ghost var cb := Code(body, test + 1, defs);
      EmitFastStep(start);
      ghost var step := [Instr.Do(Push(Number(1.0))), Instr.Do(Binary(Sub)), Jump(start)];
      Assoc(head + [JumpIfZero(0)], cb, step);
      PatchJumpIfZero(test, |instructions|, head, cb + step);
      var _ := Emit(Instr.Do(Pop));
      FastParts(|x|, count, |cb|);
      ghost var h := FastHead(|x|, count, |cb|)[..4];
      Assoc(x, h, [JumpIfZero(|x| + 5 + |cb| + 3)]);
      Assoc(x + FastHead(|x|, count, |cb|) + cb, step, [Instr.Do(Pop)]);
      Assoc(x + FastHead(|x|, count, |cb|), cb, step);
      Regroup3(x, FastHead(|x|, count, |cb|), cb, FastTail(|x|));
    }

    method EmitFastTest(count: nat) returns (start: nat)
      modifies this`instructions
      ensures instructions == old(instructions) + FastHead(|old(instructions)|, count, 0)[..4]
      ensures start == |old(instructions)| + 1
    {
      var _ := Emit(Instr.Do(Push(Number(count as real))));
      start := Emit(Instr.Do(Dup));
      var _ := Emit(Instr.Do(Push(Number(0.0))));
      var _ := Emit(Instr.Do(Binary(Gt)));
    }

    method EmitFastStep(start: nat)
      modifies this`instructions
      ensures instructions == old(instructions) + [Instr.Do(Push(Number(1.0))), Instr.Do(Binary(Sub)), Jump(start)]
    {
      var _ := Emit(Instr.Do(Push(Number(1.0))));
      var _ := Emit(Instr.Do(Binary(Sub)));
      var _ := Emit(Jump(start));
    }

    method CompileSlow(count: nat, body: seq<Op>, ghost op: Op)
      requires op == Loop(count, body)
      modifies this`instructions
      ensures var p, defs := |old(instructions)|, functionTable.Keys;
              instructions == old(instructions) +
                (SlowHead(p, count, Len(body, defs)) + Code(body, p + 6, defs) + SlowTail(p))
      decreases op, 7
    {
      hide Code, Len, SlowHead, SlowTail, LoopCounter;
      ghost var x, defs := instructions, functionTable.Keys;
      var counter, start := EmitSlowTest(count);
      ghost var head := instructions;
      var test := Emit(JumpIfZero(0));
      CompileOps(body);
      ghost var cb := Code(body, test + 1, defs);
      EmitSlowStep(counter, start, |x|);
      ghost var step := SlowTail(|x|);
      Assoc(head + [JumpIfZero(0)], cb, step);
      PatchJumpIfZero(test, |instructions|, head, cb + step);
      SlowParts(|x|, count, |cb|);
      ghost var h := SlowHead(|x|, count, |cb|)[..5];
      Assoc(x, h, [JumpIfZero(|x| + 6 + |cb| + 5)]);
      Assoc(x + SlowHead(|x|, count, |cb|), cb, step);
      Regroup3(x, SlowHead(|x|, count, |cb|), cb, step);
    }

    method EmitSlowTest(count: nat) returns (counter: string, start: nat)
      modifies this`instructions
      ensures instructions == old(instructions) + SlowHead(|old(instructions)|, count, 0)[..5]
      ensures counter == LoopCounter(|old(instructions)| + 1) && start == |old(instructions)| + 2
    {
      hide LoopCounter;
      var _ := Emit(Instr.Do(Push(Number(count as real))));
      counter := LoopCounter(|instructions|);
      var _ := Emit(Instr.Do(Store(counter)));
      start := Emit(Instr.Do(Load(counter)));
      var _ := Emit(Instr.Do(Push(Number(0.0))));
      var _ := Emit(Instr.Do(Binary(Gt)));
    }

    method EmitSlowStep(counter: string, start: nat, ghost p: nat)
      requires counter == LoopCounter(p + 1) && start == p + 2
      modifies this`instructions
      ensures instructions == old(instructions) + SlowTail(p)
    {
      hide LoopCounter;
      var _ := Emit(Instr.Do(Load(counter)));
      var _ := Emit(Instr.Do(Push(Number(1.0))));
      var _ := Emit(Instr.Do(Binary(Sub)));
      var _ := Emit(Instr.Do(Store(counter)));
      var _ := Emit(Jump(start));
    }

    method CompileDef(name: string, params: seq<string>, body: seq<Op>, ghost op: Op)
      requires op == Def(name, params, body)
      modifies this`instructions
      ensures instructions == old(instructions) + CodeOp(op, |old(instructions)|, functionTable.Keys)
      decreases op, 8
    {
      hide Code, Len;
      if name in functionTable {
        var _ := Emit(FunctionEntry(name, params));
        CompileOps(body);
        var _ := Emit(Return);
      }
    }

    method CompileMatch(value: seq<Op>, cases: seq<Case>, default: MaybeBlock, ghost op: Op)
      requires op == Match(value, cases, default)
      modifies this`instructions
      ensures instructions == old(instructions) + CodeOp(op, |old(instructions)|, functionTable.Keys)
      decreases op, 8
    {
      hide Code, Len, CodeOp, LenOp, MatchValue, CodeCases, LenCases, ExitJumps;
      ghost var x, defs := instructions, functionTable.Keys;
      MatchCode(op, |x|, defs);
      CompileOps(value);
      ghost var cv := Code(value, |x|, defs);
      var cell := MatchValue(|instructions|);
      var q := Emit(Instr.Do(Store(cell)));
      ghost var pre := instructions;
      var exits := CompileCases(cases, cell, op);
      if default.Block? {
        CompileOps(default.ops);
      }
      ghost var r := |pre| + LenCases(cases, defs);
      ghost var cd := if default.Block? then Code(default.ops, r, defs) else [];
      assert instructions == pre + CodeCases(cases, q + 1, cell, 0, defs) + cd;
      PatchExits(cases, exits, pre, cd, cell);
      Regroup4(x, cv, [Instr.Do(Store(cell))], CodeCases(cases, q + 1, cell, r + |cd|, defs), cd);
    }

    /** The cases with their exit jumps still open, and the addresses of those jumps. */
    method CompileCases(cases: seq<Case>, cell: string, ghost op: Op) returns (exits: seq<nat>)
      requires op.Match? && op.cases == cases
      modifies this`instructions
      ensures var p, defs := |old(instructions)|, functionTable.Keys;
              instructions == old(instructions) + CodeCases(cases, p, cell, 0, defs)
              && exits == ExitJumps(cases, p, defs)
      decreases op, 7
    {
      hide Code, Len, CodeCases, LenCases, ExitJumps, OneCase;
      ghost var p, defs := |instructions|, functionTable.Keys;
      exits := [];
      CasesEmpty(p, cell, 0, defs);
      assert cases[..0] == [];
      var i := 0;
      while i < |cases|
        invariant i <= |cases|
        invariant instructions == old(instructions) + CodeCases(cases[..i], p, cell, 0, defs)
        invariant exits == ExitJumps(cases[..i], p, defs)
      {
        CasesSnoc(cases, i, p, cell, 0, defs);
        ExitsSnoc(cases, i, p, defs);
        Assoc(old(instructions), CodeCases(cases[..i], p, cell, 0, defs),
              OneCase(cases[i], p + LenCases(cases[..i], defs), cell, 0, defs));
        var exit := CompileCase(cases[i], cell, op);
        exits := exits + [exit];
        i := i + 1;
      }
      assert cases[..i] == cases;
    }

    method CompileCase(c: Case, cell: string, ghost op: Op) returns (exit: nat)
      requires op.Match? && c in op.cases
      modifies this`instructions
      ensures var p, defs := |old(instructions)|, functionTable.Keys;
              instructions == old(instructions) + OneCase(c, p, cell, 0, defs)
              && exit == p + 4 + Len(c.body, defs)
      decreases op, 6
    {
      hide Code, Len, CaseHead;
      ghost var x, defs := instructions, functionTable.Keys;
      EmitCaseTest(c.value, cell);
      ghost var head := instructions;
      var skip := Emit(JumpIfZero(0));
      CompileOps(c.body);
      ghost var cb := Code(c.body, skip + 1, defs);
      exit := Emit(Jump(0));
      Assoc(head + [JumpIfZero(0)], cb, [Jump(0)]);
      PatchJumpIfZero(skip, |instructions|, head, cb + [Jump(0)]);
      CaseParts(c.value, cell, exit + 1);
      ghost var h := CaseHead(c.value, cell, exit + 1);
      Assoc(x, h[..3], [JumpIfZero(exit + 1)]);
      Assoc(x + h, cb, [Jump(0)]);
      Regroup3(x, h, cb, [Jump(0)]);
    }

    method EmitCaseTest(value: TypedValue, cell: string)
      modifies this`instructions
      ensures instructions == old(instructions) + CaseHead(value, cell, 0)[..3]
    {
      var _ := Emit(Instr.Do(Load(cell)));
      var _ := Emit(Instr.Do(Push(value)));
      var _ := Emit(Instr.Do(Binary(Eq)));
    }

    /** Every exit jump is pointed past the end of the match. */
    method PatchExits(cases: seq<Case>, exits: seq<nat>, ghost pre: seq<Instr>, ghost post: seq<Instr>,
                      ghost cell: string)
      requires exits == ExitJumps(cases, |pre|, functionTable.Keys)
      requires instructions == pre + CodeCases(cases, |pre|, cell, 0, functionTable.Keys) + post
      modifies this`instructions
      ensures instructions == pre + CodeCases(cases, |pre|, cell, |old(instructions)|, functionTable.Keys) + post
    {
      hide Code, Len, CodeCases, LenCases, ExitJumps;
      ghost var p, defs := |pre|, functionTable.Keys;
      var end := |instructions|;
      ghost var before, after := CodeCases(cases, p, cell, 0, defs), CodeCases(cases, p, cell, end, defs);
      ExitsInside(cases, p, defs);
      ExitsChange(cases, p, cell, 0, end, defs);
      ExitsAreJumps(pre, before, post, exits);
      PatchAll(exits, end);
      ExitsPatched(pre, before, after, post, exits, end, instructions);
    }

    method PatchAll(positions: seq<nat>, target: nat)
      requires forall k :: k in positions ==> k < |instructions| && instructions[k].Jump?
      modifies this`instructions
      ensures |instructions| == |old(instructions)|
      ensures forall k :: 0 <= k < |instructions| ==>
                instructions[k] == if k in positions then Jump(target) else old(instructions)[k]
    {
      var j := 0;
      while j < |positions|
        invariant j <= |positions| && |instructions| == |old(instructions)|
        invariant forall k :: 0 <= k < |instructions| ==>
                    instructions[k] == if k in positions[..j] then Jump(target) else old(instructions)[k]
      {
        assert positions[j] in positions;
        PatchJump(positions[j], target);
        assert forall k :: k in positions[..j + 1] <==> k in positions[..j] || k == positions[j];
        j := j + 1;
      }
      assert positions[..j] == positions;
    }

    /** The first pass: compiles the definitions only to learn their lengths, then discards them. */
    method PreProcessFunctions(ops: seq<Op>)
      modifies this
      ensures instructions == old(instructions)
      ensures functionTable == Entries(ops, |old(instructions)|, map[])
    {
      functionTable := map[];
      var position := |instructions|;
      ghost var p := position;
      for i := 0 to |ops|
        invariant |instructions| >= position && instructions[..position] == old(instructions)
        invariant Entries(ops, p, map[]) == Entries(ops[i..], |instructions|, functionTable)
      {
        hide Code, Len;
        assert ops[i..][0] == ops[i] && ops[i..][1..] == ops[i + 1..];
        match ops[i]
        case Def(name, params, body) =>
          functionTable := functionTable[name := |instructions|];
          var _ := Emit(FunctionEntry(name, params));
          CompileOps(body);
          var _ := Emit(Return);
        case _ =>
      }
      assert ops[|ops|..] == [];
      instructions := instructions[..position];
    }

    method Compile(ops: seq<Op>) returns (program: BytecodeProgram)
      modifies this
      ensures program == BytecodeProgram(instructions, functionTable)
      ensures functionTable == Entries(ops, 0, map[])
      ensures instructions == Code(ops, 0, functionTable.Keys)
    {
      instructions, functionTable := [], map[];
      PreProcessFunctions(ops);
      CompileOps(ops);
      program := BytecodeProgram(instructions, functionTable);
    }
  }
}
