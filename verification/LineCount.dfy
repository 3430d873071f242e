/** How many lines an operation stands for, and what printed lines look like. */
module LineCount {
  import opened Values
  import opened Ast
  import opened ParserSpec
  import opened Printer
  import opened RoundTrip

  // ---------- how many lines an operation stands for ----------

  function Weight(ops: seq<Op>): nat
    decreases ops, 0
  {
    if ops == [] then 0 else WeightOp(ops[0]) + Weight(ops[1..])
  }

  function WeightOp(op: Op): (w: nat)
    ensures w > 0
    decreases op, 1
  {
    match op
    case Do(_) => 1
    case If(_, thn, els) => 1 + Weight(thn) + WeightPart(els)
    case While(cond, body) => 2 + Weight(cond) + Weight(body)
    case Loop(_, body) => 1 + Weight(body)
    case Def(_, _, body) => 1 + Weight(body)
    case Match(value, cases, default) => 2 + Weight(value) + WeightCases(cases) + WeightPart(default)
    case _ => 1
  }

  function WeightPart(b: MaybeBlock): nat
    decreases b, 0
  {
    if b.Block? then 1 + Weight(b.ops) else 0
  }

  function WeightCases(cases: seq<Case>): nat
    decreases cases, 0
  {
    if cases == [] then 0 else 1 + Weight(cases[0].body) + WeightCases(cases[1..])
  }

  lemma {:induction false} WeightAppend(xs: seq<Op>, ys: seq<Op>)
    ensures Weight(xs + ys) == Weight(xs) + Weight(ys)
  {
    hide WeightOp;
    if xs == [] {
      assert xs + ys == ys;
    } else {
      assert (xs + ys)[1..] == xs[1..] + ys;
      WeightAppend(xs[1..], ys);
    }
  }

  lemma WeightOne(op: Op)
    ensures Weight([op]) == WeightOp(op)
  {
    hide WeightOp;
    assert [op][1..] == [];
  }

  lemma WeightNone()
    ensures Weight([]) == 0 && WeightCases([]) == 0
  {
  }

  lemma {:induction false} CasesSnoc(cases: seq<Case>, c: Case)
    ensures WeightCases(cases + [c]) == WeightCases(cases) + 1 + Weight(c.body)
  {
    hide Weight;
    if cases == [] {
      assert (cases + [c])[1..] == [];
    } else {
      assert (cases + [c])[1..] == cases[1..] + [c];
      CasesSnoc(cases[1..], c);
    }
  }

  function WhileWeight(parts: WhileParts): nat {
    (if parts.cond.Some? then 1 + Weight(parts.cond.value) else 0) + Weight(parts.body)
  }

  function MatchWeight(parts: MatchParts): nat {
    Weight(parts.value) + WeightCases(parts.cases) + WeightPart(parts.default)
  }

  // ---------- parsing never makes up lines ----------

  /** Every `while` opens with its condition and every `match` with its value. */
  predicate Opened(lines: seq<Line>) {
    forall j :: 0 <= j < |lines| && (lines[j].token.WhileHeader? || lines[j].token.MatchHeader?) ==>
      OpenedAt(lines, j)
  }

  predicate OpenedAt(lines: seq<Line>, j: nat)
    requires j < |lines|
  {
    && j + 1 < |lines| && lines[j].indent < lines[j + 1].indent
    && lines[j + 1].token == if lines[j].token.WhileHeader? then ConditionHeader else ValueHeader
  }

  /** A parsed block never stands for more lines than were read, and it ends at a line that
      closes it. */
  lemma {:induction false} BlockWeight(lines: seq<Line>, i: nat, base: nat)
    requires Opened(lines) && i <= |lines|
    ensures var r := ParseBlock(lines, i, base);
            r.Parsed? ==> r.next - i >= Weight(r.value) && Ends(lines, r.next, base)
    decreases |lines| - i, 3
  {
    hide Opened, Weight, ParseItem;
    WeightNone();
    if !Ends(lines, i, base) {
      if lines[i].token.Blank? {
        BlockWeight(lines, i + 1, base);
      } else {
        ItemWeight(lines, i, base);
        var item := ParseItem(lines, i, base);
        if item.Parsed? {
          BlockWeight(lines, item.next, base);
          var rest := ParseBlock(lines, item.next, base);
          if rest.Parsed? { WeightAppend(item.value, rest.value); }
        }
      }
    }
  }

  lemma {:induction false} ItemWeight(lines: seq<Line>, i: nat, base: nat)
    requires Opened(lines) && i < |lines|
    ensures var r := ParseItem(lines, i, base);
            r.Parsed? ==> r.next - i >= Weight(r.value)
    decreases |lines| - i, 2
  {
    hide Opened, Weight, ParseHeader, ParseBlock;
    WeightNone();
    var r := ParseItem(lines, i, base);
    if IsBlockHeader(lines[i].token) { HeaderWeight(lines, i); }
    if r.Parsed? && r.value != [] { WeightOne(r.value[0]); }
  }

  lemma {:induction false} HeaderWeight(lines: seq<Line>, i: nat)
    requires Opened(lines) && i < |lines| && IsBlockHeader(lines[i].token)
    ensures var r := ParseHeader(lines, i);
            r.Parsed? ==> r.next - i >= WeightOp(r.value)
    decreases |lines| - i, 1
  {
    hide Opened, Weight, ParseBlock, ParseIf, ParseWhile, ParseMatch;
    match lines[i].token
    case IfHeader => IfWeight(lines, i);
    case WhileHeader => WhileLines(lines, i);
    case MatchHeader => MatchLines(lines, i);
    case LoopHeader(_) => BlockWeight(lines, i + 1, lines[i].indent);
    case DefHeader(_) => BlockWeight(lines, i + 1, lines[i].indent);
  }

  lemma {:induction false} IfWeight(lines: seq<Line>, i: nat)
    requires Opened(lines) && i < |lines|
    ensures var r := ParseIf(lines, i);
            r.Parsed? ==> r.next - i >= WeightOp(r.value)
    decreases |lines| - i, 0
  {
    hide Opened, Weight, ParseBlock;
    var d := lines[i].indent;
    BlockWeight(lines, i + 1, d);
    var thn := ParseBlock(lines, i + 1, d);
    if thn.Parsed? && thn.next < |lines| { BlockWeight(lines, thn.next + 1, d); }
  }

  lemma {:induction false} WhileLines(lines: seq<Line>, i: nat)
    requires Opened(lines) && i < |lines| && lines[i].token.WhileHeader?
    ensures var r := ParseWhile(lines, i);
            r.Parsed? ==> r.next - i >= WeightOp(r.value)
    decreases |lines| - i, 0
  {
    hide Weight, ParseBlock;
    WeightNone();
    assert OpenedAt(lines, i);
    hide Opened;
    var d, e := lines[i].indent, lines[i + 1].indent;
    BlockWeight(lines, i + 2, e);
    var cond := ParseBlock(lines, i + 2, e);
    if cond.Parsed? {
      WhileItemsWeight(lines, cond.next, d, WhileParts(Some(cond.value), []));
    }
  }

  /** The same for the lines under a `while`; operations are only added, and a condition that is
      replaced leaves its line unaccounted for. */
  lemma {:induction false} WhileItemsWeight(lines: seq<Line>, i: nat, d: nat, parts: WhileParts)
    requires Opened(lines) && i <= |lines|
    ensures var r := WhileItems(lines, i, d, parts);
            r.Parsed? ==>
              && parts.body <= r.value.body
              && (parts.cond.Some? ==> r.value.cond.Some?)
              && r.next - i >= WhileWeight(r.value) - WhileWeight(parts)
                               + if parts.cond.Some? && r.value.cond != parts.cond then 1 else 0
    decreases |lines| - i, 3
  {
    hide Opened, Weight, WeightOp, ParseBlock, ParseHeader;
    if i < |lines| && lines[i].indent > d {
      var t := lines[i].token;
      if t.ConditionHeader? {
        BlockWeight(lines, i + 1, lines[i].indent);
        var block := ParseBlock(lines, i + 1, lines[i].indent);
        if block.Parsed? {
          WhileItemsWeight(lines, block.next, d, parts.(cond := Some(block.value)));
        }
      } else if IsBlockHeader(t) && !t.DefHeader? {
        HeaderWeight(lines, i);
        var nested := ParseHeader(lines, i);
        if nested.Parsed? {
          WeightOne(nested.value);
          WeightAppend(parts.body, [nested.value]);
          WhileItemsWeight(lines, nested.next, d, parts.(body := parts.body + [nested.value]));
        }
      } else if !EndsWithColon(t) && StatementOps(t).Some? {
        StatementWeight(t);
        WeightAppend(parts.body, StatementOps(t).value);
        WhileItemsWeight(lines, i + 1, d, parts.(body := parts.body + StatementOps(t).value));
      }
    }
  }

  lemma StatementWeight(t: Token)
    ensures StatementOps(t).Some? ==> Weight(StatementOps(t).value) <= 1
  {
    if StatementOps(t).Some? && StatementOps(t).value != [] { WeightOne(StatementOps(t).value[0]); }
  }

  lemma {:induction false} MatchLines(lines: seq<Line>, i: nat)
    requires Opened(lines) && i < |lines| && lines[i].token.MatchHeader?
    ensures var r := ParseMatch(lines, i);
            r.Parsed? ==> r.next - i >= WeightOp(r.value)
    decreases |lines| - i, 0
  {
    hide Weight, WeightCases, ParseBlock;
    WeightNone();
    assert OpenedAt(lines, i);
    hide Opened;
    var d, e := lines[i].indent, lines[i + 1].indent;
    BlockWeight(lines, i + 2, e);
    var value := ParseBlock(lines, i + 2, e);
    if value.Parsed? {
      MatchItemsWeight(lines, value.next, d, MatchParts(value.value, [], Absent));
    }
  }

  lemma {:induction false} MatchItemsWeight(lines: seq<Line>, i: nat, d: nat, parts: MatchParts)
    requires Opened(lines) && i <= |lines|
    ensures var r := MatchItems(lines, i, d, parts);
            r.Parsed? ==>
              && parts.cases <= r.value.cases
              && r.next - i >= MatchWeight(r.value) - MatchWeight(parts)
                               + if parts.value <= r.value.value then 0 else 1
    decreases |lines| - i, 3
  {
    hide Opened, Weight, WeightCases, WeightPart, ParseBlock;
    if i < |lines| && lines[i].indent > d {
      var t := lines[i].token;
      if t.ValueHeader? || t.DefaultHeader? || (t.CaseHeader? && t.value.Some?) {
        BlockWeight(lines, i + 1, lines[i].indent);
        var block := ParseBlock(lines, i + 1, lines[i].indent);
        if block.Parsed? {
          SectionWeight(parts, t, block.value);
          MatchItemsWeight(lines, block.next, d, AddSection(parts, t, block.value));
        }
      } else if !t.CaseHeader? && StatementOps(t).Some? {
        StatementWeight(t);
        WeightAppend(parts.value, StatementOps(t).value);
        MatchItemsWeight(lines, i + 1, d, parts.(value := parts.value + StatementOps(t).value));
      }
    }
  }

  lemma SectionWeight(parts: MatchParts, t: Token, ops: seq<Op>)
    requires t.ValueHeader? || t.DefaultHeader? || (t.CaseHeader? && t.value.Some?)
    ensures MatchWeight(AddSection(parts, t, ops)) <= MatchWeight(parts) + 1 + Weight(ops)
    ensures t.ValueHeader? ==> MatchWeight(AddSection(parts, t, ops)) <= MatchWeight(parts) + Weight(ops)
  {
    hide Weight, WeightCases;
    if t.CaseHeader? { CasesSnoc(parts.cases, Case(Number(t.value.value), ops)); }
  }

  // ---------- printed lines ----------

  /** No `if passed:` block and no `else:` block of its own anywhere. */
  predicate Plain(ops: seq<Op>)
    decreases ops, 0
  {
    forall i :: 0 <= i < |ops| ==> PlainOp(ops[i])
  }

  predicate PlainOp(op: Op)
    decreases op, 1
  {
    match op
    case Do(_) => true
    case If(cond, thn, els) => Plain(cond) && Plain(thn) && (els.Block? ==> Plain(els.ops))
    case While(cond, body) => Plain(cond) && Plain(body)
    case Loop(_, body) => Plain(body)
    case Def(_, _, body) => Plain(body)
    case Match(value, cases, default) =>
      Plain(value) && (forall i :: 0 <= i < |cases| ==> Plain(cases[i].body)) && (default.Block? ==> Plain(default.ops))
    case _ => false
  }

  /** Lines that are all at indent d or deeper, none of them blank, with every `while` and `match` opened. */
  predicate Laid(lines: seq<Line>, d: nat) {
    Opened(lines) && forall j :: 0 <= j < |lines| ==> lines[j].indent >= d && !lines[j].token.Blank?
  }

  lemma LaidAppend(xs: seq<Line>, ys: seq<Line>, d: nat, e: nat)
    requires Laid(xs, d) && Laid(ys, e) && d <= e
    ensures Laid(xs + ys, d)
  {
    forall j | 0 <= j < |xs + ys| && ((xs + ys)[j].token.WhileHeader? || (xs + ys)[j].token.MatchHeader?)
      ensures OpenedAt(xs + ys, j)
    {
      if j < |xs| { assert OpenedAt(xs, j); } else { assert OpenedAt(ys, j - |xs|); }
    }
  }

  /** A header that opens nothing special, in front of deeper lines. */
  lemma LaidUnder(head: Line, ys: seq<Line>, e: nat)
    requires Laid(ys, e) && head.indent <= e
    requires !head.token.WhileHeader? && !head.token.MatchHeader? && !head.token.Blank?
    ensures Laid([head] + ys, head.indent)
  {
    LaidAppend([head], ys, head.indent, e);
  }

  lemma LaidOpened(head: Line, next: Line, ys: seq<Line>)
    requires Laid(ys, next.indent) && head.indent < next.indent
    requires (head.token.WhileHeader? && next.token.ConditionHeader?)
             || (head.token.MatchHeader? && next.token.ValueHeader?)
    ensures Laid([head, next] + ys, head.indent)
  {
    assert OpenedAt([head, next], 0);
    LaidAppend([head, next], ys, head.indent, next.indent);
  }

  /** A printed block is laid out at its indent, as many lines as it weighs. */
  lemma {:induction false} PrintLaid(ops: seq<Op>, d: nat, step: nat)
    requires Plain(ops) && step > 0
    ensures Laid(Print(ops, d, step), d) && |Print(ops, d, step)| == Weight(ops)
    decreases ops, 0
  {
    hide PrintOp, WeightOp, PlainOp, Laid;
    if ops == [] {
      NothingLaid(d);
    } else {
      PrintOpLaid(ops[0], d, step);
      PrintLaid(ops[1..], d, step);
      LaidAppend(PrintOp(ops[0], d, step), Print(ops[1..], d, step), d, d);
    }
  }

  lemma NothingLaid(d: nat)
    ensures Laid([], d)
  {
  }

  lemma {:induction false} PrintOpLaid(op: Op, d: nat, step: nat)
    requires PlainOp(op) && step > 0
    ensures Laid(PrintOp(op, d, step), d) && |PrintOp(op, d, step)| == WeightOp(op)
    decreases op, 1
  {
    hide Print, Plain, Laid, Weight, PrintCases, WeightCases;
    var e := d + step;
    match op
    case Do(_) =>
      NothingLaid(d);
      LaidUnder(Line(d, FirstToken(op)), [], d);
      assert PrintOp(op, d, step) == [Line(d, FirstToken(op))] + [];
    case If(_, thn, els) =>
      PrintLaid(thn, e, step);
      LaidUnder(Line(d, IfHeader), Print(thn, e, step), e);
      PartLaid(els, d, step);
      LaidAppend([Line(d, IfHeader)] + Print(thn, e, step), PrintElse(els, d, step), d, d);
    case Loop(_, body) =>
      PrintLaid(body, e, step);
      LaidUnder(Line(d, FirstToken(op)), Print(body, e, step), e);
    case Def(_, _, body) =>
      PrintLaid(body, e, step);
      LaidUnder(Line(d, FirstToken(op)), Print(body, e, step), e);
    case While(_, _) => WhileLaid(op, d, step);
    case Match(_, _, _) => MatchLaid(op, d, step);
  }

  lemma {:induction false} WhileLaid(op: Op, d: nat, step: nat)
    requires op.While? && PlainOp(op) && step > 0
    ensures Laid(PrintOp(op, d, step), d) && |PrintOp(op, d, step)| == WeightOp(op)
    decreases op, 0
  {
    hide Print, Plain, Laid, Weight;
    var e := d + step;
    var c, b := Print(op.cond, e + step, step), Print(op.body, e, step);
    PrintLaid(op.cond, e + step, step);
    PrintLaid(op.body, e, step);
    LaidWeaker(c, e + step, e);
    LaidAppend(c, b, e, e);
    LaidOpened(Line(d, WhileHeader), Line(e, ConditionHeader), c + b);
    assert PrintOp(op, d, step) == [Line(d, WhileHeader), Line(e, ConditionHeader)] + (c + b);
  }

  lemma {:induction false} MatchLaid(op: Op, d: nat, step: nat)
    requires op.Match? && PlainOp(op) && step > 0
    ensures Laid(PrintOp(op, d, step), d) && |PrintOp(op, d, step)| == WeightOp(op)
    decreases op, 0, |op.cases| + 1
  {
    hide Print, PrintOp, Plain, Laid, Weight, PrintCases, WeightCases, PrintDefault, WeightPart;
    var Match(value, cases, default) := op;
    MatchPrinted(op, d, step);
    var e := d + step;
    var v, rest := Print(value, e + step, step), Sections(cases, default, e, step);
    PrintLaid(value, e + step, step);
    LaidWeaker(v, e + step, e);
    CasesLaid(op, 0, e, step);
    assert cases[0..] == cases;
    PartLaid(default, e, step);
    LaidAppend(PrintCases(cases, e, step), PrintDefault(default, e, step), e, e);
    LaidAppend(v, rest, e, e);
    LaidOpened(Line(d, MatchHeader), Line(e, ValueHeader), v + rest);
  }

  lemma MatchPrinted(op: Op, d: nat, step: nat)
    requires op.Match?
    ensures var e := d + step;
            PrintOp(op, d, step) ==
            [Line(d, MatchHeader), Line(e, ValueHeader)]
            + (Print(op.value, e + step, step) + Sections(op.cases, op.default, e, step))
  {
    hide Print, PrintCases, PrintDefault;
  }

  lemma LaidWeaker(lines: seq<Line>, e: nat, d: nat)
    requires Laid(lines, e) && d <= e
    ensures Laid(lines, d)
  {
    hide Opened;
  }

  lemma {:induction false} PartLaid(b: MaybeBlock, d: nat, step: nat)
    requires (b.Block? ==> Plain(b.ops)) && step > 0
    ensures Laid(PrintElse(b, d, step), d) && |PrintElse(b, d, step)| == WeightPart(b)
    ensures Laid(PrintDefault(b, d, step), d) && |PrintDefault(b, d, step)| == WeightPart(b)
    decreases b, 0
  {
    hide Print, Plain, Laid, Weight;
    NothingLaid(d);
    if b.Block? {
      PrintLaid(b.ops, d + step, step);
      LaidUnder(Line(d, ElseHeader), Print(b.ops, d + step, step), d + step);
      LaidUnder(Line(d, DefaultHeader), Print(b.ops, d + step, step), d + step);
    }
  }

  lemma {:induction false} CasesLaid(op: Op, k: nat, e: nat, step: nat)
    requires op.Match? && PlainOp(op) && step > 0 && k <= |op.cases|
    ensures Laid(PrintCases(op.cases[k..], e, step), e)
            && |PrintCases(op.cases[k..], e, step)| == WeightCases(op.cases[k..])
    decreases op, 0, |op.cases| - k
  {
    hide Print, Plain, Laid, Weight;
    var rest := op.cases[k..];
    if rest == [] {
      NothingLaid(e);
    } else {
      var c := rest[0];
      assert c == op.cases[k] && rest[1..] == op.cases[k + 1..];
      PrintLaid(c.body, e + step, step);
      LaidUnder(CaseLine(c, e), Print(c.body, e + step, step), e + step);
      CasesLaid(op, k + 1, e, step);
      LaidAppend([CaseLine(c, e)] + Print(c.body, e + step, step), PrintCases(rest[1..], e, step), e, e);
    }
  }
}
