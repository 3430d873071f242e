/** Where generated code may jump, which reserved cells it may touch, how it moves, and where
    functions end up. */
module CodeFacts {
  import opened Values
  import opened Ast
  import opened Bytecode
  import opened CodeGen
  import opened Compiler

  // ---------- code moves as a whole ----------

  /** A move by so many addresses of a program that names these cells itself. */
  datatype Shift = Shift(delta: nat, names: iset<string>)

  /** Cell x is named by the program and x' the same one, or x is the cell of an address in [lo, hi)
      and x' the cell of that address moved by k. */
  ghost predicate MovesCell(x: string, x': string, k: Shift, lo: nat, hi: nat) {
    || (x in k.names && x' == x)
    || exists q: nat :: lo <= q < hi && CellAt(x, x', q, k)
  }

  predicate CellAt(x: string, x': string, q: nat, k: Shift) {
    (x == LoopCounter(q) && x' == LoopCounter(q + k.delta)) || (x == MatchValue(q) && x' == MatchValue(q + k.delta))
  }

  /** Instruction i jumps only into [lo, hi], uses only reserved cells of [lo, hi), and i' is i
      moved by k. */
  ghost predicate MovesInstr(i: Instr, i': Instr, k: Shift, lo: nat, hi: nat) {
    match i
    case Jump(addr) => lo <= addr <= hi && i' == Jump(addr + k.delta)
    case JumpIfZero(addr) => lo <= addr <= hi && i' == JumpIfZero(addr + k.delta)
    case Do(Store(x)) => i'.Do? && i'.prim.Store? && MovesCell(x, i'.prim.name, k, lo, hi)
    case Do(Load(x)) => i'.Do? && i'.prim.Load? && MovesCell(x, i'.prim.name, k, lo, hi)
    case _ => i' == i
  }

  ghost predicate Moves(c: seq<Instr>, c': seq<Instr>, k: Shift, lo: nat, hi: nat) {
    |c| == |c'| && forall i :: 0 <= i < |c| ==> MovesInstr(c[i], c'[i], k, lo, hi)
  }

  lemma MovesWider(c: seq<Instr>, c': seq<Instr>, k: Shift, lo: nat, hi: nat, lo': nat, hi': nat)
    requires Moves(c, c', k, lo, hi) && lo' <= lo && hi <= hi'
    ensures Moves(c, c', k, lo', hi')
  {
    hide CellAt, Reserved;
    forall i | 0 <= i < |c| ensures MovesInstr(c[i], c'[i], k, lo', hi') {
      assert MovesInstr(c[i], c'[i], k, lo, hi);
    }
  }

  lemma MovesConcat(x: seq<Instr>, x': seq<Instr>, y: seq<Instr>, y': seq<Instr>, k: Shift, lo: nat, hi: nat)
    requires Moves(x, x', k, lo, hi) && Moves(y, y', k, lo, hi)
    ensures Moves(x + y, x' + y', k, lo, hi)
  {
    hide MovesInstr;
  }

  lemma MovesOne(i: Instr, i': Instr, k: Shift, lo: nat, hi: nat)
    requires MovesInstr(i, i', k, lo, hi)
    ensures Moves([i], [i'], k, lo, hi)
  {
  }

  lemma MovesNone(k: Shift, lo: nat, hi: nat)
    ensures Moves([], [], k, lo, hi)
  {
  }

  /** Three parts in a row. */
  lemma Moves3(x: seq<Instr>, x': seq<Instr>, y: seq<Instr>, y': seq<Instr>, z: seq<Instr>, z': seq<Instr>,
               k: Shift, lo: nat, hi: nat)
    requires Moves(x, x', k, lo, hi) && Moves(y, y', k, lo, hi) && Moves(z, z', k, lo, hi)
    ensures Moves(x + y + z, x' + y' + z', k, lo, hi)
  {
    hide Moves;
    MovesConcat(x, x', y, y', k, lo, hi);
    MovesConcat(x + y, x' + y', z, z', k, lo, hi);
  }

  /** The program itself names no other cells. */
  predicate Names(ops: seq<Op>, names: iset<string>)
    decreases ops, 0
  {
    ops == [] || (NamesOp(ops[0], names) && Names(ops[1..], names))
  }

  predicate NamesOp(op: Op, names: iset<string>)
    decreases op, 0
  {
    match op
    case Do(p) => (p.Store? ==> p.name in names) && (p.Load? ==> p.name in names)
    case If(cond, thn, els) => Names(cond, names) && Names(thn, names) && (els.Block? ==> Names(els.ops, names))
    case While(cond, body) => Names(cond, names) && Names(body, names)
    case Loop(_, body) => Names(body, names)
    case Match(value, cases, default) =>
      Names(value, names) && (forall i :: 0 <= i < |cases| ==> Names(cases[i].body, names))
      && (default.Block? ==> Names(default.ops, names))
    case Def(_, _, body) => Names(body, names)
    case _ => true
  }

  /** Compiled k addresses further on, a block is the same block with its jump targets and its own
      cells moved by k; every jump lands inside the block or just behind it, and every cell it uses is
      one the program names or is named after an address of the block. */
  lemma {:induction false} CodeMoves(ops: seq<Op>, p: nat, k: Shift, defs: set<string>)
    requires Names(ops, k.names)
    ensures Moves(Code(ops, p, defs), Code(ops, p + k.delta, defs), k, p, p + Len(ops, defs))
    decreases ops, 0
  {
    hide Code, Len, CodeOp, LenOp, Moves;
    CodeUnfold(ops, p, defs);
    CodeUnfold(ops, p + k.delta, defs);
    if ops == [] {
      MovesNone(k, p, p);
    } else {
      var q, hi := p + LenOp(ops[0], defs), p + Len(ops, defs);
      OpMoves(ops[0], p, k, defs);
      CodeMoves(ops[1..], q, k, defs);
      MovesWider(CodeOp(ops[0], p, defs), CodeOp(ops[0], p + k.delta, defs), k, p, q, p, hi);
      MovesWider(Code(ops[1..], q, defs), Code(ops[1..], q + k.delta, defs), k, q, hi, p, hi);
      MovesConcat(CodeOp(ops[0], p, defs), CodeOp(ops[0], p + k.delta, defs),
                  Code(ops[1..], q, defs), Code(ops[1..], q + k.delta, defs), k, p, hi);
    }
  }

  /** A block of code in a larger range. */
  lemma {:induction false} BlockMoves(ops: seq<Op>, p: nat, k: Shift, defs: set<string>, lo: nat, hi: nat)
    requires Names(ops, k.names) && lo <= p && p + Len(ops, defs) <= hi
    ensures Moves(Code(ops, p, defs), Code(ops, p + k.delta, defs), k, lo, hi)
    decreases ops, 1
  {
    CodeMoves(ops, p, k, defs);
    MovesWider(Code(ops, p, defs), Code(ops, p + k.delta, defs), k, p, p + Len(ops, defs), lo, hi);
  }

  lemma {:induction false} OpMoves(op: Op, p: nat, k: Shift, defs: set<string>)
    requires NamesOp(op, k.names)
    ensures Moves(CodeOp(op, p, defs), CodeOp(op, p + k.delta, defs), k, p, p + LenOp(op, defs))
    decreases op, 2
  {
    hide Code, Len, Moves, Names, Reserved;
    var hi := p + LenOp(op, defs);
    match op
    case If(_, _, _) => IfMoves(op, p, k, defs);
    case While(_, _) => WhileMoves(op, p, k, defs);
    case Loop(_, _) => LoopMoves(op, p, k, defs);
    case Match(_, _, _) => MatchMoves(op, p, k, defs);
    case Def(name, params, body) =>
      if name in defs {
        var e := FunctionEntry(name, params);
        BlockMoves(body, p + 1, k, defs, p, hi);
        MovesOne(e, e, k, p, hi);
        MovesOne(Return, Return, k, p, hi);
        Moves3([e], [e], Code(body, p + 1, defs), Code(body, p + 1 + k.delta, defs), [Return], [Return], k, p, hi);
      } else {
        MovesNone(k, p, hi);
      }
    case Do(prim) => MovesOne(Instr.Do(prim), Instr.Do(prim), k, p, hi);
    case IfPassed(b) => MovesOne(PassedBlock(PushesOnly(b)), PassedBlock(PushesOnly(b)), k, p, hi);
    case ElseBlock(b) => MovesOne(FailedBlock(PushesOnly(b)), FailedBlock(PushesOnly(b)), k, p, hi);
  }

  lemma {:induction false} IfMoves(op: Op, p: nat, k: Shift, defs: set<string>)
    requires op.If? && NamesOp(op, k.names)
    ensures Moves(CodeOp(op, p, defs), CodeOp(op, p + k.delta, defs), k, p, p + LenOp(op, defs))
    decreases op, 1
  {
    hide Code, Len, CodeOp, Moves, Names;
    IfCode(op, p, defs);
    IfCode(op, p + k.delta, defs);
    var If(cond, thn, els) := op;
    var hi := p + LenOp(op, defs);
    var q := p + Len(cond, defs) + 1;
    var r := q + Len(thn, defs);
    var target := if els.Block? then r + 1 else r;
    var j, j' := [JumpIfZero(target)], [JumpIfZero(target + k.delta)];
    var cc, cc' := Code(cond, p, defs), Code(cond, p + k.delta, defs);
    var ct, ct' := Code(thn, q, defs), Code(thn, q + k.delta, defs);
    BlockMoves(cond, p, k, defs, p, hi);
    BlockMoves(thn, q, k, defs, p, hi);
    MovesOne(j[0], j'[0], k, p, hi);
    Moves3(cc, cc', j, j', ct, ct', k, p, hi);
    if els.Block? {
      BlockMoves(els.ops, r + 1, k, defs, p, hi);
      MovesOne(Jump(hi), Jump(hi + k.delta), k, p, hi);
      Moves3(cc + j + ct, cc' + j' + ct', [Jump(hi)], [Jump(hi + k.delta)],
             Code(els.ops, r + 1, defs), Code(els.ops, r + 1 + k.delta, defs), k, p, hi);
    }
  }

  lemma {:induction false} WhileMoves(op: Op, p: nat, k: Shift, defs: set<string>)
    requires op.While? && NamesOp(op, k.names)
    ensures Moves(CodeOp(op, p, defs), CodeOp(op, p + k.delta, defs), k, p, p + LenOp(op, defs))
    decreases op, 1
  {
    hide Code, Len, CodeOp, Moves, Names;
    WhileCode(op, p, defs);
    WhileCode(op, p + k.delta, defs);
    var While(cond, body) := op;
    var hi := p + LenOp(op, defs);
    var q := p + Len(cond, defs) + 1;
    BlockMoves(cond, p, k, defs, p, hi);
    BlockMoves(body, q, k, defs, p, hi);
    MovesOne(JumpIfZero(hi), JumpIfZero(hi + k.delta), k, p, hi);
    MovesOne(Jump(p), Jump(p + k.delta), k, p, hi);
    var x, x' := Code(cond, p, defs) + [JumpIfZero(hi)], Code(cond, p + k.delta, defs) + [JumpIfZero(hi + k.delta)];
    MovesConcat(Code(cond, p, defs), Code(cond, p + k.delta, defs), [JumpIfZero(hi)], [JumpIfZero(hi + k.delta)],
                k, p, hi);
    Moves3(x, x', Code(body, q, defs), Code(body, q + k.delta, defs), [Jump(p)], [Jump(p + k.delta)], k, p, hi);
  }

  lemma {:induction false} LoopMoves(op: Op, p: nat, k: Shift, defs: set<string>)
    requires op.Loop? && NamesOp(op, k.names)
    ensures Moves(CodeOp(op, p, defs), CodeOp(op, p + k.delta, defs), k, p, p + LenOp(op, defs))
    decreases op, 1
  {
    hide Code, Len, CodeTimes, Names, Moves, FastHead, FastTail, SlowHead, SlowTail;
    var hi, body := p + LenOp(op, defs), op.body;
    var w := Len(body, defs);
    if op.count <= UNROLL_LIMIT {
      TimesMoves(body, op.count, p, k, defs);
    } else if IsFast(op.count, body) {
      BlockMoves(body, p + 5, k, defs, p, hi);
      FastMoves(p, k, op.count, w);
      Moves3(FastHead(p, op.count, w), FastHead(p + k.delta, op.count, w), Code(body, p + 5, defs),
             Code(body, p + 5 + k.delta, defs),
             FastTail(p), FastTail(p + k.delta), k, p, hi);
    } else {
      BlockMoves(body, p + 6, k, defs, p, hi);
      SlowMoves(p, k, op.count, w);
      Moves3(SlowHead(p, op.count, w), SlowHead(p + k.delta, op.count, w), Code(body, p + 6, defs),
             Code(body, p + 6 + k.delta, defs),
             SlowTail(p), SlowTail(p + k.delta), k, p, hi);
    }
  }

  lemma FastMoves(p: nat, k: Shift, count: nat, w: nat)
    ensures Moves(FastHead(p, count, w), FastHead(p + k.delta, count, w), k, p, p + 5 + w + 4)
    ensures Moves(FastTail(p), FastTail(p + k.delta), k, p, p + 5 + w + 4)
  {
  }

  lemma CellMoves(q: nat, k: Shift, lo: nat, hi: nat)
    requires lo <= q < hi
    ensures MovesCell(LoopCounter(q), LoopCounter(q + k.delta), k, lo, hi)
    ensures MovesCell(MatchValue(q), MatchValue(q + k.delta), k, lo, hi)
  {
    hide LoopCounter, MatchValue;
    assert CellAt(LoopCounter(q), LoopCounter(q + k.delta), q, k)
           && CellAt(MatchValue(q), MatchValue(q + k.delta), q, k);
  }

  lemma SlowMoves(p: nat, k: Shift, count: nat, w: nat)
    ensures Moves(SlowHead(p, count, w), SlowHead(p + k.delta, count, w), k, p, p + 6 + w + 5)
    ensures Moves(SlowTail(p), SlowTail(p + k.delta), k, p, p + 6 + w + 5)
  {
    hide LoopCounter, MovesCell;
    CellMoves(p + 1, k, p, p + 6 + w + 5);
  }

  lemma {:induction false} TimesMoves(body: seq<Op>, count: nat, p: nat, k: Shift, defs: set<string>)
    requires Names(body, k.names)
    ensures Moves(CodeTimes(body, count, p, defs), CodeTimes(body, count, p + k.delta, defs), k, p,
                  p + count * Len(body, defs))
    decreases body, 2, count
  {
    hide Code, Len, Moves;
    var w := Len(body, defs);
    var hi := p + count * w;
    if count == 0 {
      MovesNone(k, p, p);
    } else {
      assert count * w == w + (count - 1) * w;
      var x, x' := CodeTimes(body, count - 1, p + w, defs), CodeTimes(body, count - 1, p + w + k.delta, defs);
      BlockMoves(body, p, k, defs, p, hi);
      TimesMoves(body, count - 1, p + w, k, defs);
      MovesWider(x, x', k, p + w, hi, p, hi);
      MovesConcat(Code(body, p, defs), Code(body, p + k.delta, defs), x, x', k, p, hi);
    }
  }

  lemma {:induction false} MatchMoves(op: Op, p: nat, k: Shift, defs: set<string>)
    requires op.Match? && NamesOp(op, k.names)
    ensures Moves(CodeOp(op, p, defs), CodeOp(op, p + k.delta, defs), k, p, p + LenOp(op, defs))
    decreases op, 1
  {
    hide Code, Len, CodeOp, LenOp, Moves, Names, CodeCases, LenCases, MatchValue;
    MatchCode(op, p, defs);
    MatchCode(op, p + k.delta, defs);
    var Match(value, cases, default) := op;
    var q, hi := p + Len(value, defs), p + LenOp(op, defs);
    var r := q + 1 + LenCases(cases, defs);
    var s, s' := [Instr.Do(Store(MatchValue(q)))], [Instr.Do(Store(MatchValue(q + k.delta)))];
    var cv, cv' := Code(value, p, defs), Code(value, p + k.delta, defs);
    var cs := CodeCases(cases, q + 1, MatchValue(q), hi, defs);
    var cs' := CodeCases(cases, q + 1 + k.delta, MatchValue(q + k.delta), hi + k.delta, defs);
    BlockMoves(value, p, k, defs, p, hi);
    StoreMoves(q, k, p, hi);
    assert cases[0..] == cases;
    CasesMoves(op, 0, q + 1, q, p, hi, k, defs);
    Moves3(cv, cv', s, s', cs, cs', k, p, hi);
    if default.Block? {
      BlockMoves(default.ops, r, k, defs, p, hi);
      MovesConcat(cv + s + cs, cv' + s' + cs', Code(default.ops, r, defs), Code(default.ops, r + k.delta, defs),
                  k, p, hi);
    } else {
      MovesNone(k, p, hi);
      MovesConcat(cv + s + cs, cv' + s' + cs', [], [], k, p, hi);
    }
  }

  lemma StoreMoves(q: nat, k: Shift, lo: nat, hi: nat)
    requires lo <= q < hi
    ensures Moves([Instr.Do(Store(MatchValue(q)))], [Instr.Do(Store(MatchValue(q + k.delta)))], k, lo, hi)
  {
    hide MatchValue, MovesCell;
    CellMoves(q, k, lo, hi);
  }

  lemma {:induction false} CasesMoves(op: Op, n: nat, s: nat, q: nat, lo: nat, hi: nat, k: Shift, defs: set<string>)
    requires op.Match? && n <= |op.cases| && NamesOp(op, k.names)
    requires lo <= q < hi && lo <= s && s + LenCases(op.cases[n..], defs) <= hi
    ensures Moves(CodeCases(op.cases[n..], s, MatchValue(q), hi, defs),
                  CodeCases(op.cases[n..], s + k.delta, MatchValue(q + k.delta), hi + k.delta, defs), k, lo, hi)
    decreases op, 0, |op.cases| - n
  {
    hide Code, Len, Moves, CodeCases, LenCases, MatchValue, Names, CaseHead;
    var rest := op.cases[n..];
    if rest == [] {
      CasesEmpty(s, MatchValue(q), hi, defs);
      CasesEmpty(s + k.delta, MatchValue(q + k.delta), hi + k.delta, defs);
      MovesNone(k, lo, hi);
    } else {
      assert rest[0] == op.cases[n] && rest[1..] == op.cases[n + 1..];
      CaseCode(rest, s, MatchValue(q), hi, defs);
      CaseCode(rest, s + k.delta, MatchValue(q + k.delta), hi + k.delta, defs);
      var next := s + 4 + Len(rest[0].body, defs) + 1;
      var h := CaseHead(rest[0].value, MatchValue(q), next);
      var h' := CaseHead(rest[0].value, MatchValue(q + k.delta), next + k.delta);
      var cb, cb' := Code(rest[0].body, s + 4, defs), Code(rest[0].body, s + 4 + k.delta, defs);
      CaseHeadMoves(rest[0].value, q, next, k, lo, hi);
      BlockMoves(rest[0].body, s + 4, k, defs, lo, hi);
      MovesOne(Jump(hi), Jump(hi + k.delta), k, lo, hi);
      CasesMoves(op, n + 1, next, q, lo, hi, k, defs);
      Moves3(h, h', cb, cb', [Jump(hi)], [Jump(hi + k.delta)], k, lo, hi);
      MovesConcat(h + cb + [Jump(hi)], h' + cb' + [Jump(hi + k.delta)],
                  CodeCases(rest[1..], next, MatchValue(q), hi, defs),
                  CodeCases(rest[1..], next + k.delta, MatchValue(q + k.delta), hi + k.delta, defs), k, lo, hi);
    }
  }

  lemma CaseHeadMoves(value: TypedValue, q: nat, next: nat, k: Shift, lo: nat, hi: nat)
    requires lo <= q < hi && lo <= next <= hi
    ensures Moves(CaseHead(value, MatchValue(q), next), CaseHead(value, MatchValue(q + k.delta), next + k.delta),
                  k, lo, hi)
  {
    hide MatchValue, MovesCell;
    CellMoves(q, k, lo, hi);
  }

  // ---------- blocks that are carried as one instruction ----------

  /** `if passed` and `else` blocks become one instruction each, which keeps the pushes in their places
      and nothing else. */
  lemma BlocksCarried(block: seq<Op>, p: nat, defs: set<string>, i: nat)
    requires i < |block|
    ensures var passed, failed := CodeOp(IfPassed(block), p, defs), CodeOp(ElseBlock(block), p, defs);
            && |passed| == |failed| == 1 && passed[0].PassedBlock? && failed[0].FailedBlock?
            && passed[0].prims == failed[0].prims && |passed[0].prims| == |block|
            && (block[i].Do? && block[i].prim.Push? ==> passed[0].prims[i] == block[i].prim)
            && (!(block[i].Do? && block[i].prim.Push?) ==> passed[0].prims[i] == Nop)
  {
  }

  // ---------- function tables ----------

  /** Names known in e but not in d define nothing that would be emitted here: the definitions inside
      are either known to both or to neither. */
  predicate NoNewDefs(ops: seq<Op>, d: set<string>, e: set<string>)
    decreases ops, 0
  {
    ops == [] || (NoNewDefsOp(ops[0], d, e) && NoNewDefs(ops[1..], d, e))
  }

  predicate NoNewDefsOp(op: Op, d: set<string>, e: set<string>)
    decreases op, 0
  {
    match op
    case Def(name, _, body) => if name in d then NoNewDefs(body, d, e) else name !in e
    case If(cond, thn, els) =>
      NoNewDefs(cond, d, e) && NoNewDefs(thn, d, e) && (els.Block? ==> NoNewDefs(els.ops, d, e))
    case While(cond, body) => NoNewDefs(cond, d, e) && NoNewDefs(body, d, e)
    case Loop(count, body) => count == 0 || NoNewDefs(body, d, e)
    case Match(value, cases, default) =>
      NoNewDefs(value, d, e) && NoNewDefsCases(cases, d, e) && (default.Block? ==> NoNewDefs(default.ops, d, e))
    case _ => true
  }

  predicate NoNewDefsCases(cases: seq<Case>, d: set<string>, e: set<string>)
    decreases cases, 0
  {
    cases == [] || (NoNewDefs(cases[0].body, d, e) && NoNewDefsCases(cases[1..], d, e))
  }

  /** With more functions known, code only gets longer, and stays as long exactly when no definition
      inside becomes known. */
  lemma {:induction false} LenGrows(ops: seq<Op>, d: set<string>, e: set<string>)
    requires d <= e
    ensures Len(ops, d) <= Len(ops, e) && (Len(ops, d) == Len(ops, e) <==> NoNewDefs(ops, d, e))
    decreases ops, 0
  {
    hide LenOp, NoNewDefsOp;
    if ops != [] {
      LenGrowsOp(ops[0], d, e);
      LenGrows(ops[1..], d, e);
    }
  }

  lemma {:induction false} LenGrowsOp(op: Op, d: set<string>, e: set<string>)
    requires d <= e
    ensures LenOp(op, d) <= LenOp(op, e) && (LenOp(op, d) == LenOp(op, e) <==> NoNewDefsOp(op, d, e))
    decreases op, 0
  {
    hide Len, NoNewDefs, LenCases, NoNewDefsCases;
    match op
    case If(cond, thn, els) =>
      LenGrows(cond, d, e);
      LenGrows(thn, d, e);
      if els.Block? { LenGrows(els.ops, d, e); }
    case While(cond, body) => LenGrows(cond, d, e); LenGrows(body, d, e);
    case Loop(count, body) =>
      LenGrows(body, d, e);
      TimesGrow(count, Len(body, d), Len(body, e));
    case Match(value, cases, default) =>
      LenGrows(value, d, e);
      LenGrowsCases(cases, d, e);
      if default.Block? { LenGrows(default.ops, d, e); }
    case Def(_, _, body) => LenGrows(body, d, e);
    case _ =>
  }

  lemma TimesGrow(count: nat, m: nat, n: nat)
    requires m <= n
    ensures count * m <= count * n && (count * m == count * n <==> count == 0 || m == n)
  {
    assert count * n - count * m == count * (n - m);
    if count > 0 && m < n { assert count * (n - m) > 0; }
  }

  lemma {:induction false} LenGrowsCases(cases: seq<Case>, d: set<string>, e: set<string>)
    requires d <= e
    ensures LenCases(cases, d) <= LenCases(cases, e)
            && (LenCases(cases, d) == LenCases(cases, e) <==> NoNewDefsCases(cases, d, e))
    decreases cases, 0
  {
    hide Len, NoNewDefs;
    if cases != [] {
      LenGrows(cases[0].body, d, e);
      LenGrowsCases(cases[1..], d, e);
    }
  }

  /** The length of the definitions among the operations as the first pass measures it: each with
      the functions known by then. */
  function DefsLen(ops: seq<Op>, known: set<string>): nat {
    if ops == [] then 0
    else if ops[0].Def? then
      var known' := known + {ops[0].name};
      1 + Len(ops[0].body, known') + 1 + DefsLen(ops[1..], known')
    else DefsLen(ops[1..], known)
  }

  function DefNames(ops: seq<Op>): set<string> {
    set i | 0 <= i < |ops| && ops[i].Def? :: ops[i].name
  }

  lemma DefNamesSplit(ops: seq<Op>)
    requires ops != []
    ensures DefNames(ops) == DefNames(ops[1..]) + (if ops[0].Def? then {ops[0].name} else {})
  {
    forall x | x in DefNames(ops)
      ensures x in DefNames(ops[1..]) || (ops[0].Def? && x == ops[0].name)
    {
      var i :| 0 <= i < |ops| && ops[i].Def? && x == ops[i].name;
      if i > 0 { assert ops[1..][i - 1] == ops[i]; }
    }
    forall x | x in DefNames(ops[1..]) ensures x in DefNames(ops) {
      var i :| 0 <= i < |ops[1..]| && ops[1..][i].Def? && x == ops[1..][i].name;
      assert ops[i + 1] == ops[1..][i];
    }
  }

  lemma {:induction false} EntriesKeys(ops: seq<Op>, p: nat, table: map<string, nat>)
    ensures Entries(ops, p, table).Keys == table.Keys + DefNames(ops)
    decreases |ops|
  {
    hide Len;
    if ops != [] {
      DefNamesSplit(ops);
      if ops[0].Def? {
        var table' := table[ops[0].name := p];
        EntriesKeys(ops[1..], p + 1 + Len(ops[0].body, table'.Keys) + 1, table');
      } else {
        EntriesKeys(ops[1..], p, table);
      }
    }
  }

  /** The first pass enters the last definition of a name at the total length, as it measured it, of
      the definitions before it. */
  lemma {:induction false} EntryOf(ops: seq<Op>, i: nat, p: nat, table: map<string, nat>)
    requires i < |ops| && ops[i].Def?
    requires forall j :: i < j < |ops| && ops[j].Def? ==> ops[j].name != ops[i].name
    ensures ops[i].name in Entries(ops, p, table)
    ensures Entries(ops, p, table)[ops[i].name] == p + DefsLen(ops[..i], table.Keys)
    decreases |ops|
  {
    hide Len;
    var rest := ops[1..];
    assert forall j :: 0 <= j < |rest| ==> rest[j] == ops[j + 1];
    if i == 0 {
      var table' := table[ops[0].name := p];
      EntryKept(rest, p + 1 + Len(ops[0].body, table'.Keys) + 1, table', ops[0].name);
    } else {
      assert ops[..i][1..] == rest[..i - 1] && ops[..i][0] == ops[0];
      if ops[0].Def? {
        var table' := table[ops[0].name := p];
        assert table'.Keys == table.Keys + {ops[0].name};
        EntryOf(rest, i - 1, p + 1 + Len(ops[0].body, table'.Keys) + 1, table');
      } else {
        EntryOf(rest, i - 1, p, table);
      }
    }
  }

  lemma {:induction false} EntryKept(ops: seq<Op>, p: nat, table: map<string, nat>, name: string)
    requires name in table && forall j :: 0 <= j < |ops| && ops[j].Def? ==> ops[j].name != name
    ensures name in Entries(ops, p, table) && Entries(ops, p, table)[name] == table[name]
    decreases |ops|
  {
    hide Len;
    if ops != [] {
      assert forall j :: 0 <= j < |ops[1..]| ==> ops[1..][j] == ops[j + 1];
      if ops[0].Def? {
        var table' := table[ops[0].name := p];
        EntryKept(ops[1..], p + 1 + Len(ops[0].body, table'.Keys) + 1, table', name);
      } else {
        EntryKept(ops[1..], p, table, name);
      }
    }
  }

  /** Operation j has the length that the first pass takes it to have: none, unless it is a
      definition, and then no definition inside it becomes known later. */
  predicate Foreseen(op: Op, known: set<string>, defs: set<string>) {
    if op.Def? then NoNewDefs(op.body, known + {op.name}, defs) else LenOp(op, defs) == 0
  }

  /** The same for a list, with more functions known after each definition. */
  predicate AllForeseen(ops: seq<Op>, known: set<string>, defs: set<string>) {
    ops == []
    || (Foreseen(ops[0], known, defs)
        && AllForeseen(ops[1..], if ops[0].Def? then known + {ops[0].name} else known, defs))
  }

  /** The whole prefix is as long as its definitions were measured exactly when all of it was
      foreseen. */
  lemma {:induction false} PrefixLen(ops: seq<Op>, known: set<string>, defs: set<string>)
    requires known + DefNames(ops) <= defs
    ensures Len(ops, defs) >= DefsLen(ops, known)
    ensures Len(ops, defs) == DefsLen(ops, known) <==> AllForeseen(ops, known, defs)
    decreases |ops|
  {
    hide Len, NoNewDefs, DefNames;
    CodeUnfold(ops, 0, defs);
    if ops != [] {
      DefNamesSplit(ops);
      if ops[0].Def? {
        var known' := known + {ops[0].name};
        LenGrows(ops[0].body, known', defs);
        PrefixLen(ops[1..], known', defs);
      } else {
        PrefixLen(ops[1..], known, defs);
      }
    }
  }

  lemma DefNamesPrefix(ops: seq<Op>, i: nat)
    requires i <= |ops|
    ensures DefNames(ops[..i]) <= DefNames(ops)
  {
    forall x | x in DefNames(ops[..i]) ensures x in DefNames(ops) {
      var j :| 0 <= j < i && ops[..i][j].Def? && x == ops[..i][j].name;
      assert ops[j] == ops[..i][j];
    }
  }

  /** The entry instruction of a function, its body and a return. */
  function FunctionCode(op: Op, at: nat, defs: set<string>): seq<Instr>
    requires op.Def?
  {
    [FunctionEntry(op.name, op.params)] + Code(op.body, at + 1, defs) + [Return]
  }

  /** A function stands in the final code as entry, body and return. Its table entry is the index of
      that entry instruction exactly when everything before it was foreseen by the first pass: only
      definitions emit code, and none of them holds a definition that becomes known later. */
  lemma {:induction false} FunctionTableExact(ops: seq<Op>, i: nat)
    requires i < |ops| && ops[i].Def?
    requires forall j :: i < j < |ops| && ops[j].Def? ==> ops[j].name != ops[i].name
    ensures var table := Entries(ops, 0, map[]); var defs := table.Keys; var at := Len(ops[..i], defs);
            && ops[i].name in table
            && At(Code(ops, 0, defs), at, FunctionCode(ops[i], at, defs))
            && (table[ops[i].name] == at <==> AllForeseen(ops[..i], {}, defs))
  {
    hide Code, Len, CodeOp, LenOp, Entries, FunctionCode, At, DefsLen, AllForeseen;
    var table := Entries(ops, 0, map[]);
    var defs := table.Keys;
    EntriesKeys(ops, 0, map[]);
    EntryOf(ops, i, 0, map[]);
    var none: map<string, nat> := map[];
    assert none.Keys == {};
    DefNamesPrefix(ops, i);
    assert {} + DefNames(ops[..i]) <= defs;
    PrefixLen(ops[..i], {}, defs);
    DefAt(ops, i, defs);
  }

  lemma DefAt(ops: seq<Op>, i: nat, defs: set<string>)
    requires i < |ops| && ops[i].Def? && ops[i].name in defs
    ensures var at := Len(ops[..i], defs); At(Code(ops, 0, defs), at, FunctionCode(ops[i], at, defs))
  {
    hide Code, Len;
    var at := Len(ops[..i], defs);
    CodeSnoc(ops, i, 0, defs);
    CodeAppend(ops[..i + 1], ops[i + 1..], 0, defs);
    assert ops[..i + 1] + ops[i + 1..] == ops;
    var x, y, z := Code(ops[..i], 0, defs), CodeOp(ops[i], at, defs), Code(ops[i + 1..], Len(ops[..i + 1], defs), defs);
    assert (x + y + z)[|x|..|x| + |y|] == y;
  }
}
