/** Printing and parsing gives a tree back exactly when the tree is canonical. */
module Exactness {
  import opened Values
  import opened Ast
  import opened ParserSpec
  import opened Printer
  import opened RoundTrip
  import opened LineCount

  predicate ElseAt(lines: seq<Line>, n: nat) {
    n < |lines| && lines[n].token.ElseHeader?
  }

  /** A printed block that is read back as itself is canonical, and an else line behind it finds no
      open `if` at its end. */
  lemma {:induction false} BlockExact(lines: seq<Line>, i: nat, ops: seq<Op>, d: nat, step: nat, base: nat)
    requires Opened(lines) && Plain(ops) && base < d && step > 0
    requires Stands(lines, i, Print(ops, d, step)) && i <= |lines|
    requires ParseBlock(lines, i, base) == Parsed(ops, i + |Print(ops, d, step)|)
    ensures Canonical(ops)
    ensures ElseAt(lines, i + |Print(ops, d, step)|) ==> !EndsOpen(ops)
    decreases ops, 0
  {
    hide Opened, Print, PrintOp, Plain, Canonical, EndsOpen, Stands, ParseItem, Weight, ParseBlock, Ends;
    if ops == [] {
      NothingCanonical();
    } else {
      var op, rest, end := ops[0], ops[1..], i + |Print(ops, d, step)|;
      var m := i + |PrintOp(op, d, step)|;
      PlainSplit(ops);
      PrintUnfold(ops, d, step);
      StandsSplit(lines, i, PrintOp(op, d, step), Print(rest, d, step));
      StandsFirst(lines, i, PrintOp(op, d, step));
      BlockTight(lines, i, ops, d, step, base);
      BlockExact(lines, m, rest, d, step, base);
      NextStarts(lines, m, rest, d, step, base);
      if !op.Do? { HeaderExact(lines, i, op, d, step); }
      PrintUnfold(rest, d, step);
      ConsCanonical(ops);
    }
  }

  lemma NothingCanonical()
    ensures Canonical([]) && !EndsOpen([])
  {
  }

  lemma PlainSplit(ops: seq<Op>)
    requires Plain(ops) && ops != []
    ensures PlainOp(ops[0]) && Plain(ops[1..])
  {
    hide PlainOp;
  }

  lemma ConsCanonical(ops: seq<Op>)
    requires ops != []
    ensures CanonicalOp(ops[0]) && Canonical(ops[1..]) ==> Canonical(ops)
    ensures EndsOpen(ops) == if |ops| == 1 then OpenOp(ops[0]) else EndsOpen(ops[1..])
  {
    hide Canonical, CanonicalOp, EndsOpen, OpenOp;
    var rest := ops[1..];
    if CanonicalOp(ops[0]) && Canonical(rest) { AllCanonicalOps(ops); }
    LastOpen(ops);
    if |ops| > 1 { LastOpen(rest); }
  }

  lemma AllCanonicalOps(ops: seq<Op>)
    requires ops != [] && CanonicalOp(ops[0]) && Canonical(ops[1..])
    ensures Canonical(ops)
  {
    hide CanonicalOp;
    var rest := ops[1..];
    forall i | 0 <= i < |ops| ensures CanonicalOp(ops[i]) {
      if i > 0 { assert ops[i] == rest[i - 1]; }
    }
  }

  lemma LastOpen(ops: seq<Op>)
    requires ops != []
    ensures EndsOpen(ops) == OpenOp(ops[|ops| - 1])
  {
    hide OpenOp;
  }

  /** The first item of a block that is read back as itself is its first operation. */
  lemma BlockTight(lines: seq<Line>, i: nat, ops: seq<Op>, d: nat, step: nat, base: nat)
    requires Opened(lines) && Plain(ops) && base < d && step > 0 && ops != []
    requires i < |lines| && lines[i] == Line(d, FirstToken(ops[0]))
    requires ParseBlock(lines, i, base) == Parsed(ops, i + |Print(ops, d, step)|)
    ensures var m := i + |PrintOp(ops[0], d, step)|;
            && m <= |lines| && ParseItem(lines, i, base) == Parsed([ops[0]], m)
            && ParseBlock(lines, m, base) == Parsed(ops[1..], i + |Print(ops, d, step)|)
            && Ends(lines, i + |Print(ops, d, step)|, base)
            && (ops[0].Do? ==> CanonicalOp(ops[0]) && !OpenOp(ops[0]))
            && (!ops[0].Do? ==> IsBlockHeader(lines[i].token) && ParseHeader(lines, i) == Parsed(ops[0], m))
  {
    hide Opened, Print, PrintOp, Plain, Weight, ParseHeader;
    PlainSplit(ops);
    PrintLaid(ops, d, step);
    PrintOpLaid(ops[0], d, step);
    BlockWeight(lines, i, base);
    ItemWeight(lines, i, base);
    var item := ParseItem(lines, i, base);
    BlockWeight(lines, item.next, base);
    var rest := ParseBlock(lines, item.next, base);
    WeightAppend(item.value, rest.value);
    WeightNone();
    assert item.value == [ops[0]];
    WeightOne(ops[0]);
    assert ops[1..] == rest.value;
  }

  /** Behind the first operation stands the next one, or what closes the block. */
  lemma NextStarts(lines: seq<Line>, m: nat, rest: seq<Op>, d: nat, step: nat, base: nat)
    requires Stands(lines, m, Print(rest, d, step)) && base <= d && m <= |lines| && Plain(rest)
    requires Ends(lines, m + |Print(rest, d, step)|, base)
    ensures Ends(lines, m, d)
  {
    hide Print, PrintOp, Stands, Plain;
    PrintUnfold(rest, d, step);
    if rest != [] {
      StandsSplit(lines, m, PrintOp(rest[0], d, step), Print(rest[1..], d, step));
      StandsFirst(lines, m, PrintOp(rest[0], d, step));
    }
  }

  lemma {:induction false} HeaderExact(lines: seq<Line>, i: nat, op: Op, d: nat, step: nat)
    requires Opened(lines) && PlainOp(op) && step > 0 && !op.Do?
    requires Stands(lines, i, PrintOp(op, d, step)) && i < |lines| && lines[i] == Line(d, FirstToken(op))
    requires IsBlockHeader(lines[i].token) && ParseHeader(lines, i) == Parsed(op, i + |PrintOp(op, d, step)|)
    requires i + |PrintOp(op, d, step)| <= |lines| && Ends(lines, i + |PrintOp(op, d, step)|, d)
    ensures CanonicalOp(op)
    ensures ElseAt(lines, i + |PrintOp(op, d, step)|) ==> !OpenOp(op)
    decreases op, 5
  {
    hide Opened, Print, PrintOp, Plain, Stands, ParseBlock, ParseIf, ParseWhile, ParseMatch, EndsOpen, Canonical, Ends;
    match op
    case If(_, _, _) => IfExact(lines, i, op, d, step);
    case While(_, _) => WhileExact(lines, i, op, d, step);
    case Match(_, _, _) => MatchExact(lines, i, op, d, step);
    case Loop(_, body) =>
      BodyStands(lines, i, op, body, d, step);
      BlockExact(lines, i + 1, body, d + step, step, d);
    case Def(_, _, body) =>
      BodyStands(lines, i, op, body, d, step);
      BlockExact(lines, i + 1, body, d + step, step, d);
  }

  lemma {:induction false} IfExact(lines: seq<Line>, i: nat, op: Op, d: nat, step: nat)
    requires Opened(lines) && op.If? && PlainOp(op) && step > 0
    requires Stands(lines, i, PrintOp(op, d, step)) && i < |lines|
    requires ParseIf(lines, i) == Parsed(op, i + |PrintOp(op, d, step)|)
    ensures CanonicalOp(op)
    ensures ElseAt(lines, i + |PrintOp(op, d, step)|) ==> !OpenOp(op)
    decreases op, 4
  {
    hide Opened, Print, PrintOp, Plain, Stands, ParseBlock, EndsOpen, Canonical, Weight;
    NothingCanonical();
    IfStands(lines, i, op, d, step);
    PrintLaid(op.thn, d + step, step);
    var n := i + 1 + |Print(op.thn, d + step, step)|;
    BlockWeight(lines, i + 1, d);
    if op.els.Block? {
      PrintLaid(op.els.ops, d + step, step);
      var thn := ParseBlock(lines, i + 1, d);
      BlockWeight(lines, thn.next + 1, d);
      assert thn == Parsed(op.thn, n);
      BlockExact(lines, n + 1, op.els.ops, d + step, step, d);
    }
    BlockExact(lines, i + 1, op.thn, d + step, step, d);
  }

  // ---------- while ----------

  lemma {:induction false} WhileExact(lines: seq<Line>, i: nat, op: Op, d: nat, step: nat)
    requires Opened(lines) && op.While? && PlainOp(op) && step > 0
    requires Stands(lines, i, PrintOp(op, d, step)) && i < |lines|
    requires ParseWhile(lines, i) == Parsed(op, i + |PrintOp(op, d, step)|)
    requires i + |PrintOp(op, d, step)| <= |lines| && Ends(lines, i + |PrintOp(op, d, step)|, d)
    ensures CanonicalOp(op)
    ensures ElseAt(lines, i + |PrintOp(op, d, step)|) ==> !OpenOp(op)
    decreases op, 4
  {
    hide Opened, Print, PrintOp, Plain, Stands, ParseBlock, EndsOpen, Canonical, Weight, WhileItems, Ends;
    var While(cond, body) := op;
    var e := d + step;
    var n := i + 2 + |Print(cond, e + step, step)|;
    var parts := WhileParts(Some(cond), []);
    WhileStands(lines, i, op, d, step);
    ConditionTight(lines, i, op, d, step);
    BlockExact(lines, i + 2, cond, e + step, step, e);
    assert body[0..] == body && body[..0] == [];
    NothingCanonical();
    PrintUnfold(body, e, step);
    WhileBodyExact(lines, n, op, 0, d, step, parts);
    AllCanonical(op);
  }

  lemma AllCanonical(op: Op)
    requires op.While? && Canonical(op.cond)
    requires forall j :: 0 <= j < |op.body| ==> CanonicalOp(op.body[j]) && !op.body[j].Def?
    ensures CanonicalOp(op)
  {
    assert CanonicalNode(op);
  }

  /** The condition read first is the condition that is kept. */
  lemma ConditionTight(lines: seq<Line>, i: nat, op: Op, d: nat, step: nat)
    requires Opened(lines) && op.While? && PlainOp(op) && step > 0
    requires i + 1 < |lines| && lines[i].indent == d && lines[i + 1] == Line(d + step, ConditionHeader)
    requires ParseWhile(lines, i) == Parsed(op, i + |PrintOp(op, d, step)|)
    ensures var e := d + step; var n := i + 2 + |Print(op.cond, e + step, step)|;
            && n <= |lines| && ParseBlock(lines, i + 2, e) == Parsed(op.cond, n)
            && WhileItems(lines, n, d, WhileParts(Some(op.cond), [])) ==
               Parsed(WhileParts(Some(op.cond), op.body), i + |PrintOp(op, d, step)|)
  {
    hide Opened, Print, PrintOp, Plain, ParseBlock, Weight;
    WeightNone();
    var e := d + step;
    PrintLaid(op.cond, e + step, step);
    PrintOpLaid(op, d, step);
    BlockWeight(lines, i + 2, e);
    var c := ParseBlock(lines, i + 2, e);
    WhileItemsWeight(lines, c.next, d, WhileParts(Some(c.value), []));
    var parts := WhileItems(lines, i + 1, d, WhileParts(None, []));
    assert parts == WhileItems(lines, c.next, d, WhileParts(Some(c.value), []));
  }

  lemma {:induction false} WhileBodyExact(lines: seq<Line>, i: nat, op: Op, k: nat, d: nat, step: nat,
                                          parts: WhileParts)
    requires Opened(lines) && op.While? && PlainOp(op) && step > 0 && k <= |op.body| && i <= |lines|
    requires parts == WhileParts(Some(op.cond), op.body[..k])
    requires Stands(lines, i, Print(op.body[k..], d + step, step))
    requires var end := i + |Print(op.body[k..], d + step, step)|;
             && end <= |lines| && Ends(lines, end, d)
             && WhileItems(lines, i, d, parts) == Parsed(WhileParts(Some(op.cond), op.body), end)
    ensures forall j :: k <= j < |op.body| ==> CanonicalOp(op.body[j]) && !op.body[j].Def?
    ensures ElseAt(lines, i + |Print(op.body[k..], d + step, step)|) ==> !EndsOpen(op.body[k..])
    decreases op, 3, |op.body| - k
  {
    hide Opened, Print, PrintOp, Plain, Stands, ParseBlock, ParseHeader;
    hide EndsOpen, Canonical, CanonicalOp, Weight, WhileItems, Ends;
    var rest, e := op.body[k..], d + step;
    if rest == [] {
      NothingCanonical();
    } else {
      var x, more := rest[0], rest[1..];
      assert x == op.body[k] && more == op.body[k + 1..];
      var m := i + |PrintOp(x, e, step)|;
      PlainSuffix(op.body, k);
      PrintUnfold(rest, e, step);
      StandsSplit(lines, i, PrintOp(x, e, step), Print(more, e, step));
      StandsFirst(lines, i, PrintOp(x, e, step));
      WhileItemTight(lines, i, op, k, d, step, parts);
      WhileBodyExact(lines, m, op, k + 1, d, step, WhileParts(Some(op.cond), op.body[..k + 1]));
      PlainSplit(rest);
      NextStarts(lines, m, more, e, step, d);
      if !x.Do? { HeaderExact(lines, i, x, e, step); }
      PrintUnfold(more, e, step);
      ConsCanonical(rest);
    }
  }

  lemma PlainSuffix(ops: seq<Op>, k: nat)
    requires Plain(ops) && k <= |ops|
    ensures Plain(ops[..k]) && Plain(ops[k..])
  {
    hide PlainOp;
  }

  lemma WhileItemTight(lines: seq<Line>, i: nat, op: Op, k: nat, d: nat, step: nat, parts: WhileParts)
    requires Opened(lines) && op.While? && PlainOp(op) && step > 0 && k < |op.body|
    requires parts == WhileParts(Some(op.cond), op.body[..k])
    requires i < |lines| && lines[i] == Line(d + step, FirstToken(op.body[k]))
    requires WhileItems(lines, i, d, parts) ==
             Parsed(WhileParts(Some(op.cond), op.body), i + |Print(op.body[k..], d + step, step)|)
    ensures var x, e := op.body[k], d + step; var m := i + |PrintOp(x, e, step)|;
            && m <= |lines| && !x.Def?
            && WhileItems(lines, m, d, WhileParts(Some(op.cond), op.body[..k + 1])) ==
               Parsed(WhileParts(Some(op.cond), op.body), i + |Print(op.body[k..], e, step)|)
            && (x.Do? ==> CanonicalOp(x) && !OpenOp(x))
            && (!x.Do? ==> IsBlockHeader(lines[i].token) && ParseHeader(lines, i) == Parsed(x, m))
  {
    hide Opened, Print, PrintOp, Plain, ParseHeader, ParseBlock, Weight, WeightOp;
    var x, e := op.body[k], d + step;
    PlainSuffix(op.body, k);
    PlainSplit(op.body[k..]);
    PrintLaid(op.body[k..], e, step);
    PrintOpLaid(x, e, step);
    WeightAppend(op.body[..k], op.body[k..]);
    assert op.body[..k] + op.body[k..] == op.body;
    assert op.body[..k + 1] == op.body[..k] + [x];
    if x.Do? {
      DoWeight(x);
      if x.prim.Nop? {
        assert parts.body + [] == parts.body;
        WhileItemsWeight(lines, i + 1, d, parts);
      }
    } else if !x.Def? {
      var nested := ParseHeader(lines, i);
      HeaderWeight(lines, i);
      WeightOne(nested.value);
      WeightAppend(parts.body, [nested.value]);
      WhileItemsWeight(lines, nested.next, d, parts.(body := parts.body + [nested.value]));
      assert (parts.body + [nested.value])[k] == nested.value == op.body[k];
    }
  }

  lemma DoWeight(op: Op)
    requires op.Do?
    ensures WeightOp(op) == 1
  {
  }

  // ---------- match ----------

  lemma {:induction false} MatchExact(lines: seq<Line>, i: nat, op: Op, d: nat, step: nat)
    requires Opened(lines) && op.Match? && PlainOp(op) && step > 0
    requires Stands(lines, i, PrintOp(op, d, step)) && i < |lines|
    requires ParseMatch(lines, i) == Parsed(op, i + |PrintOp(op, d, step)|)
    requires i + |PrintOp(op, d, step)| <= |lines| && Ends(lines, i + |PrintOp(op, d, step)|, d)
    ensures CanonicalOp(op)
    ensures ElseAt(lines, i + |PrintOp(op, d, step)|) ==> !OpenOp(op)
    decreases op, 4
  {
    hide Opened, Print, PrintOp, Plain, Stands, ParseBlock, EndsOpen, Canonical, Weight, MatchItems, Ends, Sections;
    var Match(value, cases, default) := op;
    var e := d + step;
    var n := i + 2 + |Print(value, e + step, step)|;
    MatchStands(lines, i, op, d, step);
    ValueTight(lines, i, op, d, step);
    BlockExact(lines, i + 2, value, e + step, step, e);
    assert cases[0..] == cases && cases[..0] == [];
    SectionsUnfold(cases, default, e, step);
    SectionsExact(lines, n, op, 0, d, step, MatchParts(value, [], Absent));
  }

  /** The lines of a printed block are read by the block that starts there. */
  lemma BlockReaches(lines: seq<Line>, i: nat, ops: seq<Op>, d: nat, step: nat, base: nat)
    requires Opened(lines) && Plain(ops) && step > 0 && base < d && i <= |lines|
    requires Stands(lines, i, Print(ops, d, step))
    ensures var r := ParseBlock(lines, i, base);
            r.Parsed? ==> r.next >= i + Weight(ops)
  {
    hide Opened, Print, Plain, Weight, ParseBlock;
    PrintLaid(ops, d, step);
    BlockWeight(lines, i, base);
    assert forall k :: 0 <= k < |Print(ops, d, step)| ==> lines[i + k] == Print(ops, d, step)[k];
  }

  lemma NoWeight(ops: seq<Op>)
    requires Weight(ops) == 0
    ensures ops == []
  {
  }

  /** The value read first is the value that is kept, and nothing is added to it. */
  lemma ValueTight(lines: seq<Line>, i: nat, op: Op, d: nat, step: nat)
    requires Opened(lines) && op.Match? && PlainOp(op) && step > 0
    requires i + 1 < |lines| && lines[i].indent == d && lines[i + 1] == Line(d + step, ValueHeader)
    requires Stands(lines, i + 2, Print(op.value, d + step + step, step))
    requires ParseMatch(lines, i) == Parsed(op, i + |PrintOp(op, d, step)|)
    ensures var e := d + step; var n := i + 2 + |Print(op.value, e + step, step)|;
            && n <= |lines| && op.value != [] && ParseBlock(lines, i + 2, e) == Parsed(op.value, n)
            && MatchItems(lines, n, d, MatchParts(op.value, [], Absent)) ==
               Parsed(MatchParts(op.value, op.cases, op.default), i + |PrintOp(op, d, step)|)
  {
    hide Opened, Print, PrintOp, Plain, Stands, ParseBlock, Weight, WeightCases, WeightPart;
    WeightNone();
    var e := d + step;
    PrintLaid(op.value, e + step, step);
    PrintOpLaid(op, d, step);
    BlockWeight(lines, i + 2, e);
    BlockReaches(lines, i + 2, op.value, e + step, step, e);
    var v := ParseBlock(lines, i + 2, e);
    var start := MatchParts([], [], Absent);
    assert MatchItems(lines, i + 1, d, start) == MatchItems(lines, v.next, d, MatchParts(v.value, [], Absent));
    MatchItemsWeight(lines, v.next, d, MatchParts(v.value, [], Absent));
    assert WeightPart(Absent) == 0 by { AbsentWeight(); }
    assert v.value <= op.value;
    var added := op.value[|v.value|..];
    assert op.value == v.value + added;
    WeightAppend(v.value, added);
    NoWeight(added);
    assert v.value == op.value;
    assert v.next == i + 2 + |Print(op.value, e + step, step)|;
  }

  lemma AbsentWeight()
    ensures WeightPart(Absent) == 0
  {
  }

  lemma {:induction false} SectionsExact(lines: seq<Line>, i: nat, op: Op, k: nat, d: nat, step: nat, parts: MatchParts)
    requires Opened(lines) && op.Match? && PlainOp(op) && step > 0 && k <= |op.cases| && i <= |lines|
    requires parts == MatchParts(op.value, op.cases[..k], Absent)
    requires Stands(lines, i, Sections(op.cases[k..], op.default, d + step, step))
    requires var end := i + |Sections(op.cases[k..], op.default, d + step, step)|;
             && end <= |lines| && Ends(lines, end, d)
             && MatchItems(lines, i, d, parts) == Parsed(MatchParts(op.value, op.cases, op.default), end)
    ensures forall j :: k <= j < |op.cases| ==> Canonical(op.cases[j].body) && op.cases[j].value.Number?
    ensures op.default.Block? ==> Canonical(op.default.ops)
    ensures ElseAt(lines, i + |Sections(op.cases[k..], op.default, d + step, step)|) ==>
              !SectionsOpen(op.cases[k..], op.default, false)
    decreases op, 3, |op.cases| - k
  {
    hide Opened, Print, Plain, Stands, ParseBlock, EndsOpen, Canonical, MatchItems, Ends, Sections;
    var rest, e := op.cases[k..], d + step;
    SectionsUnfold(rest, op.default, e, step);
    if rest == [] {
      assert op.cases[..k] == op.cases;
      if op.default.Block? { DefaultExact(lines, i, op, d, step, parts); }
    } else {
      var c, more := rest[0], rest[1..];
      assert c == op.cases[k] && more == op.cases[k + 1..];
      var b := Print(c.body, e + step, step);
      var m := i + 1 + |b|;
      StandsSplit(lines, i, [CaseLine(c, e)] + b, Sections(more, op.default, e, step));
      StandsFirst(lines, i, [CaseLine(c, e)] + b);
      StandsSplit(lines, i, [CaseLine(c, e)], b);
      CaseTight(lines, i, op, k, d, step, parts);
      BlockExact(lines, i + 1, c.body, e + step, step, e);
      SectionsUnfold(more, op.default, e, step);
      SectionsExact(lines, m, op, k + 1, d, step, MatchParts(op.value, op.cases[..k + 1], Absent));
    }
  }

  lemma CaseTight(lines: seq<Line>, i: nat, op: Op, k: nat, d: nat, step: nat, parts: MatchParts)
    requires Opened(lines) && op.Match? && PlainOp(op) && step > 0 && k < |op.cases|
    requires parts == MatchParts(op.value, op.cases[..k], Absent)
    requires i < |lines| && lines[i] == CaseLine(op.cases[k], d + step)
    requires MatchItems(lines, i, d, parts) ==
             Parsed(MatchParts(op.value, op.cases, op.default),
                    i + |Sections(op.cases[k..], op.default, d + step, step)|)
    ensures var c, e := op.cases[k], d + step; var m := i + 1 + |Print(c.body, e + step, step)|;
            && m <= |lines| && c.value.Number? && ParseBlock(lines, i + 1, e) == Parsed(c.body, m)
            && MatchItems(lines, m, d, MatchParts(op.value, op.cases[..k + 1], Absent)) ==
               Parsed(MatchParts(op.value, op.cases, op.default), i + |Sections(op.cases[k..], op.default, e, step)|)
  {
    hide Opened, Print, PrintCases, PrintDefault, Plain, ParseBlock, Weight, WeightCases, WeightPart;
    var c, e := op.cases[k], d + step;
    PrintLaid(c.body, e + step, step);
    CasesLaid(op, k, e, step);
    PartLaid(op.default, e, step);
    CasesAppend(op.cases[..k], op.cases[k..]);
    assert op.cases[..k] + op.cases[k..] == op.cases;
    AbsentWeight();
    BlockWeight(lines, i + 1, e);
    var block := ParseBlock(lines, i + 1, e);
    var c' := Case(Number(c.value.n), block.value);
    var parts' := parts.(cases := parts.cases + [c']);
    assert MatchItems(lines, i, d, parts) == MatchItems(lines, block.next, d, parts');
    MatchItemsWeight(lines, block.next, d, parts');
    assert parts'.cases[k] == c' == c;
    CasesSnoc(parts.cases, c);
    assert op.cases[..k + 1] == op.cases[..k] + [c];
  }

  lemma {:induction false} CasesAppend(xs: seq<Case>, ys: seq<Case>)
    ensures WeightCases(xs + ys) == WeightCases(xs) + WeightCases(ys)
  {
    hide Weight;
    if xs == [] {
      assert xs + ys == ys;
    } else {
      assert (xs + ys)[1..] == xs[1..] + ys;
      CasesAppend(xs[1..], ys);
    }
  }

  lemma {:induction false} DefaultExact(lines: seq<Line>, i: nat, op: Op, d: nat, step: nat, parts: MatchParts)
    requires Opened(lines) && op.Match? && PlainOp(op) && step > 0 && i <= |lines| && op.default.Block?
    requires parts == MatchParts(op.value, op.cases, Absent)
    requires Stands(lines, i, PrintDefault(op.default, d + step, step))
    requires var end := i + |PrintDefault(op.default, d + step, step)|;
             && end <= |lines| && Ends(lines, end, d)
             && MatchItems(lines, i, d, parts) == Parsed(MatchParts(op.value, op.cases, op.default), end)
    ensures Canonical(op.default.ops)
    ensures ElseAt(lines, i + |PrintDefault(op.default, d + step, step)|) ==> !EndsOpen(op.default.ops)
    decreases op, 2
  {
    hide Opened, Print, Plain, Stands, ParseBlock, EndsOpen, Canonical, Weight;
    var e, ops := d + step, op.default.ops;
    PrintLaid(ops, e + step, step);
    StandsFirst(lines, i, PrintDefault(op.default, e, step));
    StandsSplit(lines, i, [Line(e, DefaultHeader)], Print(ops, e + step, step));
    BlockReaches(lines, i + 1, ops, e + step, step, e);
    var block := ParseBlock(lines, i + 1, e);
    assert MatchItems(lines, i, d, parts) == MatchItems(lines, block.next, d, parts.(default := Block(block.value)));
    BlockExact(lines, i + 1, ops, e + step, step, e);
  }

  // ---------- the theorem ----------

  /** For every tree of statements, `if`, `while`, `loop`, `match` and `def`, written out at any
      indent: the parser gives the tree back and reads every line if and only if it is canonical. */
  lemma RoundTripExact(ops: seq<Op>, d: nat, step: nat, base: nat)
    requires Plain(ops) && base < d && step > 0
    ensures var lines := Print(ops, d, step);
            ParseBlock(lines, 0, base) == Parsed(ops, |lines|) <==> Canonical(ops)
  {
    hide *;
    var lines := Print(ops, d, step);
    WholeStands(lines);
    WholeFollows(lines, base, EndsOpen(ops));
    WholeOpened(ops, d, step);
    if Canonical(ops) { BlockBack(lines, 0, ops, d, step, base); }
    if ParseBlock(lines, 0, base) == Parsed(ops, |lines|) { BlockExact(lines, 0, ops, d, step, base); }
  }

  lemma WholeStands(lines: seq<Line>)
    ensures Stands(lines, 0, lines)
  {
  }

  lemma WholeFollows(lines: seq<Line>, base: nat, open: bool)
    ensures Follows(lines, |lines|, base, open)
  {
  }

  lemma WholeOpened(ops: seq<Op>, d: nat, step: nat)
    requires Plain(ops) && step > 0
    ensures Opened(Print(ops, d, step))
  {
    PrintLaid(ops, d, step);
  }

  /** An else behind a then block that ends in an `if` of its own goes to that inner `if`, with nothing
      under it; what stands under the else line is read as the rest of the then block. */
  lemma DanglingElse(ops: seq<Op>, d: nat, step: nat, base: nat)
    requires base < d && step > 0 && Canonical(ops)
    ensures var lines := Print([If([], [If([], [], Absent)], Block(ops))], d, step);
            ParseBlock(lines, 0, base) == Parsed([If([], [If([], [], Block([]))] + ops, Absent)], |lines|)
  {
    var lines, e := Print([If([], [If([], [], Absent)], Block(ops))], d, step), d + step;
    DanglingLines(ops, d, step);
    hide Print, PrintOp, Canonical, EndsOpen;
    var text := Print(ops, e, step);
    assert Stands(lines, 3, text) && |lines| == 3 + |text|;
    DanglingStops(lines, ops, e, step);
    BlockBack(lines, 3, ops, e, step, d);
    var taken := If([], [], Block([]));
    var whole := If([], [taken] + ops, Absent);
    assert ParseBlock(lines, 2, e) == Parsed([], 2);
    assert ParseHeader(lines, 1) == ParseIf(lines, 1) == Parsed(taken, 3);
    BlockStep(lines, 1, d, taken, 3, ops, |lines|);
    assert ParseHeader(lines, 0) == ParseIf(lines, 0) == Parsed(whole, |lines|);
    assert ParseBlock(lines, |lines|, base) == Parsed([], |lines|);
    assert [whole] + [] == [whole];
    BlockStep(lines, 0, base, whole, |lines|, [], |lines|);
  }

  /** The inner else block ends at once: what follows is not deeper than the inner `if`. */
  lemma DanglingStops(lines: seq<Line>, ops: seq<Op>, e: nat, step: nat)
    requires |lines| >= 3 && Stands(lines, 3, Print(ops, e, step)) && Canonical(ops)
    requires |lines| == 3 + |Print(ops, e, step)|
    ensures ParseBlock(lines, 3, e) == Parsed([], 3)
  {
    hide Print, PrintOp, Stands, CanonicalOp;
    PrintUnfold(ops, e, step);
    if ops != [] {
      StandsSplit(lines, 3, PrintOp(ops[0], e, step), Print(ops[1..], e, step));
      NextOp(lines, 3, ops[0], e, step, true);
    }
  }

  lemma DanglingLines(ops: seq<Op>, d: nat, step: nat)
    ensures Print([If([], [If([], [], Absent)], Block(ops))], d, step) ==
            [Line(d, IfHeader), Line(d + step, IfHeader), Line(d, ElseHeader)] + Print(ops, d + step, step)
  {
    var inner := If([], [], Absent);
    assert PrintOp(inner, d + step, step) == [Line(d + step, IfHeader)];
    assert [inner][1..] == [];
    assert Print([inner], d + step, step) == [Line(d + step, IfHeader)];
    var outer, text := If([], [inner], Block(ops)), Print(ops, d + step, step);
    assert PrintElse(outer.els, d, step) == [Line(d, ElseHeader)] + text;
    assert PrintOp(outer, d, step) == [Line(d, IfHeader)] + [Line(d + step, IfHeader)] + ([Line(d, ElseHeader)] + text);
    assert [outer][1..] == [];
    assert Print([outer], d, step) == PrintOp(outer, d, step) + Print([], d, step);
  }
}
