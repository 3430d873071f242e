/** Operation trees written out as indented lines, and the trees that survive the way back. */
module Printer {
  import opened Values
  import opened Ast
  import opened ParserSpec

  /** A block at indent d; nested blocks are `step` deeper. */
  function Print(ops: seq<Op>, d: nat, step: nat): seq<Line>
    decreases ops, 0
  {
    if ops == [] then [] else PrintOp(ops[0], d, step) + Print(ops[1..], d, step)
  }

  function PrintOp(op: Op, d: nat, step: nat): (r: seq<Line>)
    ensures r != [] && r[0] == Line(d, FirstToken(op))
    decreases op, 1
  {
    match op
    case If(_, thn, els) => [Line(d, IfHeader)] + Print(thn, d + step, step) + PrintElse(els, d, step)
    case While(cond, body) =>
      [Line(d, WhileHeader)] + [Line(d + step, ConditionHeader)] + Print(cond, d + step + step, step)
        + Print(body, d + step, step)
    case Match(value, cases, default) =>
      [Line(d, MatchHeader)] + [Line(d + step, ValueHeader)] + Print(value, d + step + step, step)
      + PrintCases(cases, d + step, step) + PrintDefault(default, d + step, step)
    case Loop(_, body) => [Line(d, FirstToken(op))] + Print(body, d + step, step)
    case Def(_, _, body) => [Line(d, FirstToken(op))] + Print(body, d + step, step)
    case IfPassed(block) => [Line(d, IfPassedHeader)] + Print(block, d + step, step)
    case ElseBlock(block) => [Line(d, ElseHeader)] + Print(block, d + step, step)
    case Do(_) => [Line(d, FirstToken(op))]
  }

  /** What the first line of an operation says. A no-op has no statement of its own: it is
      written as a comment. */
  function FirstToken(op: Op): Token {
    match op
    case Do(p) => Token.Text(if p.Nop? then Ignored else Operation(p), None)
    case If(_, _, _) => IfHeader
    case While(_, _) => WhileHeader
    case Loop(count, _) => LoopHeader(Some(count))
    case Match(_, _, _) => MatchHeader
    case Def(name, params, _) => DefHeader(Some((name, params)))
    case IfPassed(_) => IfPassedHeader
    case ElseBlock(_) => ElseHeader
  }

  function PrintElse(els: MaybeBlock, d: nat, step: nat): seq<Line>
    decreases els, 0
  {
    if els.Block? then [Line(d, ElseHeader)] + Print(els.ops, d + step, step) else []
  }

  function PrintDefault(default: MaybeBlock, d: nat, step: nat): seq<Line>
    decreases default, 0
  {
    if default.Block? then [Line(d, DefaultHeader)] + Print(default.ops, d + step, step) else []
  }

  function PrintCases(cases: seq<Case>, d: nat, step: nat): seq<Line>
    decreases cases, 0
  {
    if cases == [] then []
    else [CaseLine(cases[0], d)] + Print(cases[0].body, d + step, step) + PrintCases(cases[1..], d, step)
  }

  /** Only numbers can be written as case values. */
  function CaseLine(c: Case, d: nat): Line {
    Line(d, CaseHeader(if c.value.Number? then Some(c.value.n) else None, true))
  }

  // ---------- trees that survive ----------

  /** The printed form ends inside an `if` that has no else of its own. */
  predicate EndsOpen(ops: seq<Op>)
    decreases ops, 0
  {
    ops != [] && OpenOp(ops[|ops| - 1])
  }

  predicate OpenOp(op: Op)
    decreases op, 1
  {
    match op
    case If(_, _, els) => els.Absent? || EndsOpen(els.ops)
    case While(cond, body) => if body == [] then EndsOpen(cond) else EndsOpen(body)
    case Loop(_, body) => EndsOpen(body)
    case Def(_, _, body) => EndsOpen(body)
    case Match(value, cases, default) =>
      if default.Block? then EndsOpen(default.ops)
      else if cases != [] then EndsOpen(cases[|cases| - 1].body)
      else EndsOpen(value)
    case _ => false
  }

  /** Trees the line syntax can express. */
  predicate Canonical(ops: seq<Op>)
    decreases ops, 0
  {
    forall i :: 0 <= i < |ops| ==> CanonicalOp(ops[i])
  }

  predicate CanonicalOp(op: Op)
    decreases op, 1
  {
    CanonicalParts(op) && CanonicalNode(op)
  }

  /** Every block inside the operation is canonical. */
  predicate CanonicalParts(op: Op)
    decreases op, 0
  {
    match op
    case Do(_) => true
    case If(cond, thn, els) => Canonical(cond) && Canonical(thn) && (els.Block? ==> Canonical(els.ops))
    case While(cond, body) => Canonical(cond) && Canonical(body)
    case Loop(_, body) => Canonical(body)
    case Def(_, _, body) => Canonical(body)
    case Match(value, cases, default) =>
      Canonical(value) && (forall i :: 0 <= i < |cases| ==> Canonical(cases[i].body))
      && (default.Block? ==> Canonical(default.ops))
    case _ => false
  }

  /** What the operation itself must satisfy: no no-op, no condition on an `if`, no else after a
      then block that ends in an open `if`, no definition directly in a while body, a value in
      every match, and numbers as case values. */
  predicate CanonicalNode(op: Op) {
    match op
    case Do(p) => !p.Nop?
    case If(cond, thn, els) => cond == [] && (els.Block? ==> !EndsOpen(thn))
    case While(_, body) => forall i :: 0 <= i < |body| ==> !body[i].Def?
    case Match(value, cases, _) => value != [] && forall i :: 0 <= i < |cases| ==> cases[i].value.Number?
    case _ => true
  }

  // ---------- fragments in place ----------

  predicate Stands(lines: seq<Line>, i: nat, part: seq<Line>) {
    i + |part| <= |lines| && lines[i..i + |part|] == part
  }

  lemma StandsSplit(lines: seq<Line>, i: nat, x: seq<Line>, y: seq<Line>)
    requires Stands(lines, i, x + y)
    ensures Stands(lines, i, x) && Stands(lines, i + |x|, y)
  {
    var w := lines[i..i + |x + y|];
    assert x == w[..|x|] && y == w[|x|..];
  }

  lemma StandsFirst(lines: seq<Line>, i: nat, x: seq<Line>)
    requires x != [] && Stands(lines, i, x)
    ensures i < |lines| && lines[i] == x[0]
  {
    assert lines[i..i + |x|][0] == x[0];
  }

  lemma PrintUnfold(ops: seq<Op>, d: nat, step: nat)
    ensures ops == [] ==> Print(ops, d, step) == []
    ensures ops != [] ==> Print(ops, d, step) == PrintOp(ops[0], d, step) + Print(ops[1..], d, step)
  {
  }
}
