/** Printing and parsing back. */
module RoundTrip {
  import opened Values
  import opened Ast
  import opened ParserSpec
  import opened Printer

  /** No else line follows. */
  predicate NotElse(lines: seq<Line>, n: nat)
    requires n <= |lines|
  {
    n == |lines| || !lines[n].token.ElseHeader?
  }

  /** What stands behind a printed block at indent d. */
  predicate Follows(lines: seq<Line>, n: nat, d: nat, open: bool) {
    n <= |lines| && Ends(lines, n, d) && (open ==> NotElse(lines, n))
  }

  lemma FollowsWeaker(lines: seq<Line>, n: nat, d: nat, open: bool, d': nat, open': bool)
    requires Follows(lines, n, d, open) && d <= d' && (open' ==> open)
    ensures Follows(lines, n, d', open')
  {
  }

  /** Printed at n: an operation at indent d, which is behind nothing deeper and is no else. */
  lemma NextOp(lines: seq<Line>, n: nat, op: Op, d: nat, step: nat, open: bool)
    requires Stands(lines, n, PrintOp(op, d, step)) && CanonicalOp(op)
    ensures Follows(lines, n, d, open)
    ensures n < |lines| && lines[n] == Line(d, FirstToken(op))
  {
    StandsFirst(lines, n, PrintOp(op, d, step));
  }

  /** Parsing a printed block gives the block back and stops right behind it. */
  lemma {:induction false} BlockBack(lines: seq<Line>, i: nat, ops: seq<Op>, d: nat, step: nat, base: nat)
    requires Canonical(ops) && base < d && step > 0
    requires Stands(lines, i, Print(ops, d, step))
    requires Follows(lines, i + |Print(ops, d, step)|, base, EndsOpen(ops))
    ensures ParseBlock(lines, i, base) == Parsed(ops, i + |Print(ops, d, step)|)
    decreases ops, 0
  {
    hide Print, PrintOp, Canonical, Stands;
    PrintUnfold(ops, d, step);
    if ops == [] {
    } else {
      var op, rest := ops[0], ops[1..];
      BlockParts(lines, i, ops, d, step, base);
      var m := i + |PrintOp(op, d, step)|;
      ItemBack(lines, i, op, d, step, base);
      BlockBack(lines, m, rest, d, step, base);
      BlockStep(lines, i, base, op, m, rest, i + |Print(ops, d, step)|);
    }
  }

  /** One item and the rest make the block. */
  lemma BlockStep(lines: seq<Line>, i: nat, base: nat, op: Op, m: nat, rest: seq<Op>, n: nat)
    requires i < |lines| && !lines[i].token.Blank? && lines[i].indent > base
    requires ParseItem(lines, i, base) == Parsed([op], m) && m <= |lines|
    requires ParseBlock(lines, m, base) == Parsed(rest, n)
    ensures ParseBlock(lines, i, base) == Parsed([op] + rest, n)
  {
    hide ParseItem;
  }

  lemma BlockParts(lines: seq<Line>, i: nat, ops: seq<Op>, d: nat, step: nat, base: nat)
    requires Canonical(ops) && base <= d && ops != []
    requires Stands(lines, i, Print(ops, d, step))
    requires Follows(lines, i + |Print(ops, d, step)|, base, EndsOpen(ops))
    ensures var m := i + |PrintOp(ops[0], d, step)|;
            && CanonicalOp(ops[0]) && Canonical(ops[1..])
            && Stands(lines, i, PrintOp(ops[0], d, step)) && Stands(lines, m, Print(ops[1..], d, step))
            && i < |lines| && lines[i] == Line(d, FirstToken(ops[0]))
            && Follows(lines, m, d, OpenOp(ops[0]))
            && m + |Print(ops[1..], d, step)| == i + |Print(ops, d, step)|
            && Follows(lines, i + |Print(ops, d, step)|, base, EndsOpen(ops[1..]))
            && [ops[0]] + ops[1..] == ops
  {
    hide PrintOp, CanonicalOp, OpenOp, Stands, Print;
    PrintUnfold(ops, d, step);
    var rest := ops[1..];
    var m := i + |PrintOp(ops[0], d, step)|;
    StandsSplit(lines, i, PrintOp(ops[0], d, step), Print(rest, d, step));
    StandsFirst(lines, i, PrintOp(ops[0], d, step));
    PrintUnfold(rest, d, step);
    if rest != [] {
      assert rest[0] == ops[1] && rest[|rest| - 1] == ops[|ops| - 1];
      StandsSplit(lines, m, PrintOp(rest[0], d, step), Print(rest[1..], d, step));
      NextOp(lines, m, rest[0], d, step, OpenOp(ops[0]));
    }
  }

  lemma {:induction false} ItemBack(lines: seq<Line>, i: nat, op: Op, d: nat, step: nat, base: nat)
    requires CanonicalOp(op) && step > 0
    requires Stands(lines, i, PrintOp(op, d, step))
    requires Follows(lines, i + |PrintOp(op, d, step)|, d, OpenOp(op))
    ensures i < |lines|
    ensures ParseItem(lines, i, base) == Parsed([op], i + |PrintOp(op, d, step)|)
    decreases op, 6
  {
    StandsFirst(lines, i, PrintOp(op, d, step));
    hide Print, Stands, Canonical, ParseHeader, OpenOp, PrintCases;
    if !op.Do? {
      HeaderBack(lines, i, op, d, step);
    }
  }

  /** The nested block under a header. */
  lemma {:induction false} UnderHeader(lines: seq<Line>, i: nat, ops: seq<Op>, d: nat, step: nat)
    requires Canonical(ops) && step > 0
    requires Stands(lines, i, Print(ops, d + step, step))
    requires Follows(lines, i + |Print(ops, d + step, step)|, d, EndsOpen(ops))
    ensures ParseBlock(lines, i, d) == Parsed(ops, i + |Print(ops, d + step, step)|)
    decreases ops, 1
  {
    BlockBack(lines, i, ops, d + step, step, d);
  }

  lemma {:induction false} HeaderBack(lines: seq<Line>, i: nat, op: Op, d: nat, step: nat)
    requires CanonicalOp(op) && step > 0 && !op.Do?
    requires Stands(lines, i, PrintOp(op, d, step))
    requires Follows(lines, i + |PrintOp(op, d, step)|, d, OpenOp(op))
    ensures i < |lines| && lines[i] == Line(d, FirstToken(op)) && IsBlockHeader(lines[i].token)
    ensures ParseHeader(lines, i) == Parsed(op, i + |PrintOp(op, d, step)|)
    decreases op, 5
  {
    StandsFirst(lines, i, PrintOp(op, d, step));
    hide Print, PrintOp, Stands, Canonical, ParseBlock, EndsOpen;
    match op
    case If(_, _, _) => IfBack(lines, i, op, d, step);
    case While(_, _) => WhileBack(lines, i, op, d, step);
    case Match(_, _, _) => MatchBack(lines, i, op, d, step);
    case Loop(_, body) =>
      BodyStands(lines, i, op, body, d, step);
      UnderHeader(lines, i + 1, body, d, step);
    case Def(_, _, body) =>
      BodyStands(lines, i, op, body, d, step);
      UnderHeader(lines, i + 1, body, d, step);
  }

  lemma BodyStands(lines: seq<Line>, i: nat, op: Op, body: seq<Op>, d: nat, step: nat)
    requires (op.Loop? && body == op.body) || (op.Def? && body == op.body)
    requires Stands(lines, i, PrintOp(op, d, step))
    ensures Stands(lines, i + 1, Print(body, d + step, step))
    ensures |PrintOp(op, d, step)| == 1 + |Print(body, d + step, step)|
  {
    hide Print, Stands;
    StandsSplit(lines, i, [Line(d, FirstToken(op))], Print(body, d + step, step));
  }

  lemma {:induction false} IfBack(lines: seq<Line>, i: nat, op: Op, d: nat, step: nat)
    requires op.If? && CanonicalOp(op) && step > 0
    requires Stands(lines, i, PrintOp(op, d, step))
    requires Follows(lines, i + |PrintOp(op, d, step)|, d, OpenOp(op))
    ensures i < |lines|
    ensures ParseIf(lines, i) == Parsed(op, i + |PrintOp(op, d, step)|)
    decreases op, 4
  {
    hide Print, PrintOp, Stands, Canonical, ParseBlock, EndsOpen;
    IfStands(lines, i, op, d, step);
    var If(cond, thn, els) := op;
    var n := i + 1 + |Print(thn, d + step, step)|;
    if els.Block? {
      UnderHeader(lines, i + 1, thn, d, step);
      UnderHeader(lines, n + 1, els.ops, d, step);
    } else {
      UnderHeader(lines, i + 1, thn, d, step);
    }
  }

  lemma IfStands(lines: seq<Line>, i: nat, op: Op, d: nat, step: nat)
    requires op.If? && Stands(lines, i, PrintOp(op, d, step))
    ensures var e := d + step; var n := i + 1 + |Print(op.thn, e, step)|;
            && i < |lines| && lines[i] == Line(d, IfHeader) && Stands(lines, i + 1, Print(op.thn, e, step))
            && (op.els.Block? ==>
                  && n < |lines| && lines[n] == Line(d, ElseHeader) && Stands(lines, n + 1, Print(op.els.ops, e, step))
                  && i + |PrintOp(op, d, step)| == n + 1 + |Print(op.els.ops, e, step)|)
            && (op.els.Absent? ==> i + |PrintOp(op, d, step)| == n)
  {
    hide Print, Stands;
    var e := d + step;
    var t := Print(op.thn, e, step);
    StandsFirst(lines, i, PrintOp(op, d, step));
    StandsSplit(lines, i, [Line(d, IfHeader)] + t, PrintElse(op.els, d, step));
    StandsSplit(lines, i, [Line(d, IfHeader)], t);
    if op.els.Block? {
      StandsFirst(lines, i + 1 + |t|, PrintElse(op.els, d, step));
      StandsSplit(lines, i + 1 + |t|, [Line(d, ElseHeader)], Print(op.els.ops, e, step));
    }
  }

  lemma {:induction false} WhileBack(lines: seq<Line>, i: nat, op: Op, d: nat, step: nat)
    requires op.While? && CanonicalOp(op) && step > 0
    requires Stands(lines, i, PrintOp(op, d, step))
    requires Follows(lines, i + |PrintOp(op, d, step)|, d, OpenOp(op))
    ensures i < |lines|
    ensures ParseWhile(lines, i) == Parsed(op, i + |PrintOp(op, d, step)|)
    decreases op, 4
  {
    hide Print, PrintOp, Stands, Canonical, ParseBlock, EndsOpen, CanonicalOp;
    var While(cond, body) := op;
    var e := d + step;
    var n := i + 2 + |Print(cond, e + step, step)|;
    WhileStands(lines, i, op, d, step);
    WhileCanonical(op);
    PrintUnfold(body, e, step);
    if body != [] {
      StandsSplit(lines, n, PrintOp(body[0], e, step), Print(body[1..], e, step));
      NextOp(lines, n, body[0], e, step, EndsOpen(cond));
    } else {
      FollowsWeaker(lines, n, d, OpenOp(op), e, EndsOpen(cond));
    }
    UnderHeader(lines, i + 2, cond, e, step);
    assert body[0..] == body;
    NothingOpen(body);
    WhileBodyBack(lines, n, op, 0, d, step, WhileParts(Some(cond), []));
    assert [] + body == body;
  }

  lemma NothingOpen(ops: seq<Op>)
    ensures ops == [] ==> !EndsOpen(ops)
  {
  }

  lemma WhileStands(lines: seq<Line>, i: nat, op: Op, d: nat, step: nat)
    requires op.While? && Stands(lines, i, PrintOp(op, d, step))
    ensures var e := d + step; var n := i + 2 + |Print(op.cond, e + step, step)|;
            && i + 1 < |lines| && lines[i] == Line(d, WhileHeader) && lines[i + 1] == Line(e, ConditionHeader)
            && Stands(lines, i + 2, Print(op.cond, e + step, step)) && Stands(lines, n, Print(op.body, e, step))
            && i + |PrintOp(op, d, step)| == n + |Print(op.body, e, step)|
  {
    hide Print, Stands;
    var e := d + step;
    var c, b := Print(op.cond, e + step, step), Print(op.body, e, step);
    StandsFirst(lines, i, PrintOp(op, d, step));
    StandsSplit(lines, i, [Line(d, WhileHeader)] + [Line(e, ConditionHeader)] + c, b);
    StandsSplit(lines, i, [Line(d, WhileHeader)] + [Line(e, ConditionHeader)], c);
    StandsSplit(lines, i, [Line(d, WhileHeader)], [Line(e, ConditionHeader)]);
    StandsFirst(lines, i + 1, [Line(e, ConditionHeader)]);
  }

  lemma WhileCanonical(op: Op)
    requires op.While? && CanonicalOp(op)
    ensures Canonical(op.cond) && Canonical(op.body)
    ensures forall k :: 0 <= k < |op.body| ==> CanonicalOp(op.body[k]) && !op.body[k].Def?
  {
    hide CanonicalNode;
    assert CanonicalNode(op);
    assert forall k :: 0 <= k < |op.body| ==> !op.body[k].Def? by { NoDefInBody(op); }
  }

  lemma NoDefInBody(op: Op)
    requires op.While? && CanonicalNode(op)
    ensures forall k :: 0 <= k < |op.body| ==> !op.body[k].Def?
  {
  }

  /** The operations of a while body from number k on. */
  lemma {:induction false} WhileBodyBack(lines: seq<Line>, i: nat, op: Op, k: nat, d: nat, step: nat, parts: WhileParts)
    requires op.While? && CanonicalOp(op) && step > 0 && k <= |op.body|
    requires Stands(lines, i, Print(op.body[k..], d + step, step))
    requires Follows(lines, i + |Print(op.body[k..], d + step, step)|, d, EndsOpen(op.body[k..]))
    ensures WhileItems(lines, i, d, parts) ==
            Parsed(parts.(body := parts.body + op.body[k..]), i + |Print(op.body[k..], d + step, step)|)
    decreases op, 3, |op.body| - k
  {
    hide Print, Stands, Canonical, ParseBlock, EndsOpen, CanonicalOp, ParseHeader, PrintOp;
    var rest, e := op.body[k..], d + step;
    WhileCanonical(op);
    PrintUnfold(rest, e, step);
    if rest == [] {
      assert parts.body + rest == parts.body;
    } else {
      var x, more := rest[0], rest[1..];
      assert x == op.body[k] && more == op.body[k + 1..];
      var m := i + |PrintOp(x, e, step)|;
      WhileBodyParts(lines, i, op, k, d, step);
      if !x.Do? { HeaderBack(lines, i, x, e, step); }
      WhileBodyBack(lines, m, op, k + 1, d, step, parts.(body := parts.body + [x]));
      assert parts.body + [x] + more == parts.body + rest;
      WhileItemStep(lines, i, x, e, step, d, parts, m);
    }
  }

  lemma WhileItemStep(lines: seq<Line>, i: nat, x: Op, e: nat, step: nat, d: nat, parts: WhileParts, m: nat)
    requires i < |lines| && lines[i] == Line(e, FirstToken(x)) && d < e && m <= |lines|
    requires CanonicalOp(x) && !x.Def?
    requires if x.Do? then m == i + 1 else IsBlockHeader(lines[i].token) && ParseHeader(lines, i) == Parsed(x, m)
    ensures WhileItems(lines, i, d, parts) == WhileItems(lines, m, d, parts.(body := parts.body + [x]))
  {
    hide ParseHeader, Canonical;
  }

  lemma WhileBodyParts(lines: seq<Line>, i: nat, op: Op, k: nat, d: nat, step: nat)
    requires op.While? && CanonicalOp(op) && step > 0 && k < |op.body|
    requires Stands(lines, i, Print(op.body[k..], d + step, step))
    requires Follows(lines, i + |Print(op.body[k..], d + step, step)|, d, EndsOpen(op.body[k..]))
    ensures var e := d + step; var m := i + |PrintOp(op.body[k], e, step)|;
            && i < |lines| && lines[i] == Line(e, FirstToken(op.body[k]))
            && Stands(lines, i, PrintOp(op.body[k], e, step)) && Stands(lines, m, Print(op.body[k + 1..], e, step))
            && Follows(lines, m, e, OpenOp(op.body[k]))
            && m + |Print(op.body[k + 1..], e, step)| == i + |Print(op.body[k..], e, step)|
            && Follows(lines, m + |Print(op.body[k + 1..], e, step)|, d, EndsOpen(op.body[k + 1..]))
            && (op.body[k].Do? ==> m == i + 1)
  {
    hide Print, Stands, CanonicalOp, Canonical;
    var rest := op.body[k..];
    WhileCanonical(op);
    assert rest[0] == op.body[k] && rest[1..] == op.body[k + 1..];
    SuffixCanonical(op.body, k);
    BlockParts(lines, i, rest, d + step, step, d);
  }

  // ---------- match ----------

  function Sections(cases: seq<Case>, default: MaybeBlock, e: nat, step: nat): seq<Line> {
    PrintCases(cases, e, step) + PrintDefault(default, e, step)
  }

  /** The sections end inside an open `if`, or there are none and what stands before them does. */
  predicate SectionsOpen(cases: seq<Case>, default: MaybeBlock, before: bool) {
    if default.Block? then EndsOpen(default.ops)
    else if cases != [] then EndsOpen(cases[|cases| - 1].body)
    else before
  }

  lemma SectionsUnfold(cases: seq<Case>, default: MaybeBlock, e: nat, step: nat)
    ensures cases == [] ==> Sections(cases, default, e, step) == PrintDefault(default, e, step)
    ensures cases != [] ==>
              Sections(cases, default, e, step) ==
              [CaseLine(cases[0], e)] + Print(cases[0].body, e + step, step) + Sections(cases[1..], default, e, step)
  {
    if cases == [] { assert PrintCases(cases, e, step) == []; }
  }

  /** Sections, or what stands behind them, end the block before them. */
  lemma SectionsNext(lines: seq<Line>, i: nat, cases: seq<Case>, default: MaybeBlock, d: nat, step: nat, before: bool)
    requires Stands(lines, i, Sections(cases, default, d + step, step))
    requires Follows(lines, i + |Sections(cases, default, d + step, step)|, d, SectionsOpen(cases, default, before))
    ensures Follows(lines, i, d + step, before)
  {
    hide Print, PrintCases, Stands, EndsOpen, Sections;
    var all := Sections(cases, default, d + step, step);
    SectionsUnfold(cases, default, d + step, step);
    if all != [] { StandsFirst(lines, i, all); }
  }

  lemma {:induction false} MatchBack(lines: seq<Line>, i: nat, op: Op, d: nat, step: nat)
    requires op.Match? && CanonicalOp(op) && step > 0
    requires Stands(lines, i, PrintOp(op, d, step))
    requires Follows(lines, i + |PrintOp(op, d, step)|, d, OpenOp(op))
    ensures i < |lines|
    ensures ParseMatch(lines, i) == Parsed(op, i + |PrintOp(op, d, step)|)
    decreases op, 4
  {
    hide Print, PrintOp, Sections, Stands, Canonical, ParseBlock, EndsOpen, CanonicalOp, Follows, MatchItems;
    var Match(value, cases, default) := op;
    var e := d + step;
    var n := i + 2 + |Print(value, e + step, step)|;
    MatchStands(lines, i, op, d, step);
    MatchCanonical(op);
    SectionsNext(lines, n, cases, default, d, step, EndsOpen(value));
    UnderHeader(lines, i + 2, value, e, step);
    assert cases[0..] == cases && [] + cases == cases;
    FollowsWeaker(lines, i + |PrintOp(op, d, step)|, d, OpenOp(op), d, SectionsOpen(cases, default, false));
    SectionsBack(lines, n, op, 0, d, step, MatchParts(value, [], Absent));
    SectionStep(lines, i + 1, d, MatchParts([], [], Absent), value, n);
  }

  lemma MatchStands(lines: seq<Line>, i: nat, op: Op, d: nat, step: nat)
    requires op.Match? && Stands(lines, i, PrintOp(op, d, step))
    ensures var e := d + step; var n := i + 2 + |Print(op.value, e + step, step)|;
            var rest := Sections(op.cases, op.default, e, step);
            && i + 1 < |lines| && lines[i] == Line(d, MatchHeader) && lines[i + 1] == Line(e, ValueHeader)
            && Stands(lines, i + 2, Print(op.value, e + step, step)) && Stands(lines, n, rest)
            && i + |PrintOp(op, d, step)| == n + |rest|
  {
    hide Print, PrintCases, Stands;
    var e := d + step;
    var v := Print(op.value, e + step, step);
    var rest := Sections(op.cases, op.default, e, step);
    StandsFirst(lines, i, PrintOp(op, d, step));
    assert PrintOp(op, d, step) == [Line(d, MatchHeader)] + ([Line(e, ValueHeader)] + v + rest);
    StandsSplit(lines, i, [Line(d, MatchHeader)], [Line(e, ValueHeader)] + v + rest);
    StandsSplit(lines, i + 1, [Line(e, ValueHeader)] + v, rest);
    StandsFirst(lines, i + 1, [Line(e, ValueHeader)] + v);
    StandsSplit(lines, i + 1, [Line(e, ValueHeader)], v);
  }

  lemma MatchCanonical(op: Op)
    requires op.Match? && CanonicalOp(op)
    ensures Canonical(op.value) && (op.default.Block? ==> Canonical(op.default.ops)) && op.value != []
    ensures forall k :: 0 <= k < |op.cases| ==> Canonical(op.cases[k].body) && op.cases[k].value.Number?
  {
    hide Canonical;
  }

  lemma SectionStep(lines: seq<Line>, i: nat, d: nat, parts: MatchParts, ops: seq<Op>, n: nat)
    requires i < |lines| && lines[i].indent > d && n <= |lines|
    requires var t := lines[i].token; t.ValueHeader? || t.DefaultHeader? || (t.CaseHeader? && t.value.Some?)
    requires ParseBlock(lines, i + 1, lines[i].indent) == Parsed(ops, n)
    ensures MatchItems(lines, i, d, parts) == MatchItems(lines, n, d, AddSection(parts, lines[i].token, ops))
  {
    hide ParseBlock;
  }

  /** The cases of a match from number k on, and the default. */
  lemma {:induction false} SectionsBack(lines: seq<Line>, i: nat, op: Op, k: nat, d: nat, step: nat, parts: MatchParts)
    requires op.Match? && CanonicalOp(op) && step > 0 && k <= |op.cases| && parts.default.Absent?
    requires Stands(lines, i, Sections(op.cases[k..], op.default, d + step, step))
    requires Follows(lines, i + |Sections(op.cases[k..], op.default, d + step, step)|, d,
                     SectionsOpen(op.cases[k..], op.default, false))
    ensures MatchItems(lines, i, d, parts) ==
            Parsed(parts.(cases := parts.cases + op.cases[k..], default := op.default),
                   i + |Sections(op.cases[k..], op.default, d + step, step)|)
    decreases op, 3, |op.cases| - k
  {
    hide Print, PrintCases, Stands, Canonical, ParseBlock, EndsOpen, CanonicalOp, MatchItems, Sections, Follows;
    var rest, e := op.cases[k..], d + step;
    var end := i + |Sections(rest, op.default, e, step)|;
    MatchCanonical(op);
    SectionsUnfold(rest, op.default, e, step);
    if rest == [] {
      DefaultBack(lines, i, op, d, step, parts);
      assert parts.cases + rest == parts.cases;
    } else {
      var c, more := rest[0], rest[1..];
      assert c == op.cases[k] && more == op.cases[k + 1..];
      var b := Print(c.body, e + step, step);
      var m := i + 1 + |b|;
      StandsSplit(lines, i, [CaseLine(c, e)] + b, Sections(more, op.default, e, step));
      StandsFirst(lines, i, [CaseLine(c, e)] + b);
      StandsSplit(lines, i, [CaseLine(c, e)], b);
      assert SectionsOpen(rest, op.default, false) == SectionsOpen(more, op.default, EndsOpen(c.body));
      SectionsNext(lines, m, more, op.default, d, step, EndsOpen(c.body));
      UnderHeader(lines, i + 1, c.body, e, step);
      SectionStep(lines, i, d, parts, c.body, m);
      FollowsWeaker(lines, end, d, SectionsOpen(rest, op.default, false), d, SectionsOpen(more, op.default, false));
      assert Case(Number(c.value.n), c.body) == c;
      SectionsBack(lines, m, op, k + 1, d, step, parts.(cases := parts.cases + [c]));
      assert parts.cases + [c] + more == parts.cases + rest;
    }
  }

  lemma {:induction false} DefaultBack(lines: seq<Line>, i: nat, op: Op, d: nat, step: nat, parts: MatchParts)
    requires op.Match? && CanonicalOp(op) && step > 0 && parts.default.Absent?
    requires Stands(lines, i, PrintDefault(op.default, d + step, step))
    requires Follows(lines, i + |PrintDefault(op.default, d + step, step)|, d,
                     op.default.Block? && EndsOpen(op.default.ops))
    ensures MatchItems(lines, i, d, parts) ==
            Parsed(parts.(default := op.default), i + |PrintDefault(op.default, d + step, step)|)
    decreases op, 2
  {
    hide Print, Stands, Canonical, ParseBlock, EndsOpen, CanonicalOp;
    var e := d + step;
    MatchCanonical(op);
    if op.default.Block? {
      var b := Print(op.default.ops, e + step, step);
      var n := i + 1 + |b|;
      StandsFirst(lines, i, PrintDefault(op.default, e, step));
      StandsSplit(lines, i, [Line(e, DefaultHeader)], b);
      FollowsWeaker(lines, n, d, EndsOpen(op.default.ops), e, EndsOpen(op.default.ops));
      UnderHeader(lines, i + 1, op.default.ops, e, step);
      SectionStep(lines, i, d, parts, op.default.ops, n);
    }
  }

  lemma SuffixCanonical(ops: seq<Op>, k: nat)
    requires Canonical(ops) && k <= |ops|
    ensures Canonical(ops[k..])
  {
    hide CanonicalOp;
  }
}
