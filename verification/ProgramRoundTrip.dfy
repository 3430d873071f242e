/** Whole programs printed and parsed again by the top loop. */
module ProgramRoundTrip {
  import opened Ast
  import opened ParserSpec
  import opened Printer
  import opened RoundTrip
  import opened LineCount
  import opened Exactness
  import opened Lifecycle
  import opened ParseDsl

  /** No governance or template block is open. */
  predicate NoBlockOpen(p: Program) {
    !p.desk.inGovernance && !p.desk.inTemplate
  }

  lemma ReadOp(lines: seq<Line>, i: nat, p: Program, op: Op, d: nat)
    requires i < |lines| && lines[i] == Line(d, FirstToken(op)) && NoBlockOpen(p) && PlainOp(op)
    ensures !lines[i].token.Blank? && Read(lines[i].token, p.desk.inGovernance, p.desk.inTemplate).Code?
    ensures op.Do? ==> CodeAt(lines, i) == Parsed(if op.prim.Nop? then [] else [op], i + 1)
    ensures !op.Do? ==> IsBlockHeader(lines[i].token)
  {
    hide ParseHeader, Plain;
  }

  lemma {:induction false} ProgramBack(lines: seq<Line>, i: nat, ops: seq<Op>, d: nat, step: nat, p: Program)
    requires Canonical(ops) && Plain(ops) && step > 0 && NoBlockOpen(p)
    requires Stands(lines, i, Print(ops, d, step)) && i + |Print(ops, d, step)| == |lines|
    ensures ReadAll(lines, i, p) == Parsed(p.(ops := p.ops + ops), |lines|)
    decreases ops
  {
    hide Print, PrintOp, Canonical, CanonicalOp, Plain, PlainOp, Stands;
    hide ReadAll, CodeAt, Read, EndsOpen, ParseHeader, OpenOp;
    PrintUnfold(ops, d, step);
    if ops == [] {
      ReadNothing(lines, p);
      assert p.ops + ops == p.ops;
    } else {
      var op, rest := ops[0], ops[1..];
      BlockParts(lines, i, ops, d, step, d);
      var m := i + |PrintOp(op, d, step)|;
      PlainSplit(ops);
      ReadOp(lines, i, p, op, d);
      if op.Do? { DoLine(op, d, step); } else { HeaderBack(lines, i, op, d, step); }
      assert CodeAt(lines, i) == Parsed([op], m) by { CodeIs(lines, i, op, m); }
      ReadCode(lines, i, p);
      ProgramBack(lines, m, rest, d, step, p.(ops := p.ops + [op]));
      assert p.ops + [op] + rest == p.ops + ops;
    }
  }

  lemma ReadNothing(lines: seq<Line>, p: Program)
    ensures ReadAll(lines, |lines|, p) == Parsed(p, |lines|)
  {
  }

  lemma DoLine(op: Op, d: nat, step: nat)
    requires op.Do?
    ensures |PrintOp(op, d, step)| == 1 && (CanonicalOp(op) <==> !op.prim.Nop?)
  {
  }

  lemma CodeIs(lines: seq<Line>, i: nat, op: Op, m: nat)
    requires i < |lines|
    requires op.Do? ==> CodeAt(lines, i) == Parsed([op], m)
    requires !op.Do? ==> IsBlockHeader(lines[i].token) && ParseHeader(lines, i) == Parsed(op, m)
    ensures CodeAt(lines, i) == Parsed([op], m)
  {
    hide ParseHeader;
  }

  /** Reading only adds operations, and never more than there are lines for. */
  lemma {:induction false} ProgramWeight(lines: seq<Line>, i: nat, p: Program)
    requires Opened(lines) && i <= |lines|
    ensures var r := ReadAll(lines, i, p);
            r.Parsed? ==> p.ops <= r.value.ops && |lines| - i >= Weight(r.value.ops) - Weight(p.ops)
    decreases |lines| - i
  {
    hide Opened, Weight, CodeAt, Read, Obey;
    if i < |lines| {
      var line := ReadLine(lines, i, p);
      if line.Parsed? {
        CodeWeight(lines, i);
        if CodeAt(lines, i).Parsed? { WeightAppend(p.ops, CodeAt(lines, i).value); }
        ProgramWeight(lines, line.next, line.value);
      }
    }
  }

  lemma CodeWeight(lines: seq<Line>, i: nat)
    requires Opened(lines) && i < |lines|
    ensures var r := CodeAt(lines, i);
            r.Parsed? ==> r.next - i >= Weight(r.value)
  {
    hide Opened, Weight, ParseHeader;
    StatementWeight(lines[i].token);
    if IsBlockHeader(lines[i].token) {
      HeaderWeight(lines, i);
      var r := CodeAt(lines, i);
      if r.Parsed? { WeightOne(r.value[0]); }
    }
  }

  lemma {:induction false} ProgramExact(lines: seq<Line>, i: nat, ops: seq<Op>, d: nat, step: nat, p: Program)
    requires Opened(lines) && Plain(ops) && step > 0 && NoBlockOpen(p)
    requires Stands(lines, i, Print(ops, d, step)) && i + |Print(ops, d, step)| == |lines|
    requires ReadAll(lines, i, p).Parsed? && ReadAll(lines, i, p).value.ops == p.ops + ops
    ensures Canonical(ops)
    decreases ops
  {
    hide Opened, Print, PrintOp, Canonical, CanonicalOp, Plain, PlainOp, Stands, ReadAll;
    hide CodeAt, Read, EndsOpen, ParseHeader, OpenOp, Weight, WeightOp, Ends;
    if ops == [] {
      NothingCanonical();
    } else {
      var op, rest := ops[0], ops[1..];
      var m := i + |PrintOp(op, d, step)|;
      PlainSplit(ops);
      PrintUnfold(ops, d, step);
      StandsSplit(lines, i, PrintOp(op, d, step), Print(rest, d, step));
      StandsFirst(lines, i, PrintOp(op, d, step));
      ProgramTight(lines, i, ops, d, step, p);
      var q := p.(ops := p.ops + [op]);
      assert p.ops + ops == q.ops + rest;
      ProgramExact(lines, m, rest, d, step, q);
      EndCloses(lines, d);
      NextStarts(lines, m, rest, d, step, d);
      if op.Do? { DoLine(op, d, step); } else { HeaderExact(lines, i, op, d, step); }
      ConsCanonical(ops);
    }
  }

  lemma EndCloses(lines: seq<Line>, d: nat)
    ensures Ends(lines, |lines|, d)
  {
  }

  lemma ProgramTight(lines: seq<Line>, i: nat, ops: seq<Op>, d: nat, step: nat, p: Program)
    requires Opened(lines) && Plain(ops) && step > 0 && NoBlockOpen(p) && ops != []
    requires i < |lines| && lines[i] == Line(d, FirstToken(ops[0])) && i + |Print(ops, d, step)| == |lines|
    requires ReadAll(lines, i, p).Parsed? && ReadAll(lines, i, p).value.ops == p.ops + ops
    ensures var op := ops[0]; var m := i + |PrintOp(op, d, step)|;
            && m <= |lines| && ReadAll(lines, m, p.(ops := p.ops + [op])) == ReadAll(lines, i, p)
            && (op.Do? ==> !op.prim.Nop?)
            && (!op.Do? ==> IsBlockHeader(lines[i].token) && ParseHeader(lines, i) == Parsed(op, m))
  {
    hide Opened, Print, PrintOp, Plain, PlainOp, ReadAll, Read, ParseHeader, Weight, WeightOp;
    var op := ops[0];
    PlainSplit(ops);
    PrintLaid(ops, d, step);
    PrintOpLaid(op, d, step);
    ReadOp(lines, i, p, op, d);
    ReadCode(lines, i, p);
    CodeWeight(lines, i);
    var code := CodeAt(lines, i);
    var q := p.(ops := p.ops + code.value);
    ProgramWeight(lines, code.next, q);
    WeightAppend(p.ops, ops);
    WeightAppend(p.ops, code.value);
    WeightNone();
    assert code.value != [];
    assert (p.ops + code.value)[|p.ops|] == (p.ops + ops)[|p.ops|];
    assert code.value == [op];
    WeightOne(op);
    var rest := ops[1..];
    assert ops == [op] + rest;
    WeightAppend([op], rest);
    assert code.next - i >= WeightOp(op);
    assert |lines| - code.next >= Weight(rest);
  }

  /** A program of statements, `if`, `while`, `loop`, `match` and `def`, printed at any indent, is
      parsed to the same operations, with nothing configured, if and only if it is canonical. */
  lemma ProgramRoundTrip(ops: seq<Op>, d: nat, step: nat)
    requires Plain(ops) && step > 0
    ensures var r := Accepted(ReadAll(Print(ops, d, step), 0, EMPTY));
            (r.Parsed? && r.value.0 == ops <==> Canonical(ops)) &&
            (Canonical(ops) ==> r == Parsed((ops, DEFAULT), |Print(ops, d, step)|))
  {
    hide Print, Plain, Canonical, ReadAll, Stands, Opened;
    var lines := Print(ops, d, step);
    WholeStands(lines);
    WholeOpened(ops, d, step);
    assert [] + ops == ops;
    if Canonical(ops) { ProgramBack(lines, 0, ops, d, step, EMPTY); }
    var r := ReadAll(lines, 0, EMPTY);
    if r.Parsed? && r.value.ops == ops { ProgramExact(lines, 0, ops, d, step, EMPTY); }
  }
}
