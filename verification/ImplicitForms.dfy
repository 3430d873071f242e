/** Texts that are not printed but read all the same: a `while` without a condition section, a `match`
    without a value section; and blocks that are refused. */
module ImplicitForms {
  import opened Values
  import opened Ast
  import opened ParserSpec
  import opened Printer
  import opened RoundTrip
  import opened LineCount
  import Parser

  /** Without a condition section the first operation of the body is the condition. */
  lemma ImplicitWhile(lines: seq<Line>, i: nat, first: Op, body: seq<Op>, d: nat, step: nat)
    requires CanonicalOp(While([], [first] + body)) && step > 0
    requires i < |lines| && lines[i] == Line(d, WhileHeader)
    requires var text := Print([first] + body, d + step, step);
             Stands(lines, i + 1, text) && Follows(lines, i + 1 + |text|, d, EndsOpen([first] + body))
    ensures ParseWhile(lines, i) == Parsed(While([first], body), i + 1 + |Print([first] + body, d + step, step)|)
  {
    hide Print, Stands, CanonicalOp, EndsOpen, WhileItems, Follows;
    var ops := [first] + body;
    assert ops[0..] == ops && [] + ops == ops && ops[1..] == body;
    WhileBodyBack(lines, i + 1, While([], ops), 0, d, step, WhileParts(None, []));
  }

  /** A `while` with nothing in it has neither condition nor body. */
  lemma EmptyWhile(lines: seq<Line>, i: nat)
    requires i < |lines| && (i + 1 == |lines| || lines[i + 1].indent <= lines[i].indent)
    ensures ParseWhile(lines, i) == Parsed(While([], []), i + 1)
  {
  }

  predicate Statements(ops: seq<Op>) {
    forall i :: 0 <= i < |ops| ==> ops[i].Do? && !ops[i].prim.Nop?
  }

  /** Statements that stand directly under `match` are its value. */
  lemma {:induction false} ImplicitValue(lines: seq<Line>, i: nat, ops: seq<Op>, d: nat, e: nat, step: nat,
                                         parts: MatchParts)
    requires d < e && Statements(ops) && Stands(lines, i, Print(ops, e, step))
    ensures i + |Print(ops, e, step)| <= |lines|
    ensures MatchItems(lines, i, d, parts) ==
            MatchItems(lines, i + |Print(ops, e, step)|, d, parts.(value := parts.value + ops))
    decreases |ops|
  {
    hide MatchItems, Print, PrintOp, Stands;
    PrintUnfold(ops, e, step);
    PartEnds(lines, i, Print(ops, e, step));
    if ops == [] {
      assert parts.value + [] == parts.value;
    } else {
      var op, rest := ops[0], ops[1..];
      StandsSplit(lines, i, PrintOp(op, e, step), Print(rest, e, step));
      StandsFirst(lines, i, PrintOp(op, e, step));
      ValueStep(lines, i, op, d, e, step, parts);
      ImplicitValue(lines, i + 1, rest, d, e, step, parts.(value := parts.value + [op]));
      assert parts.value + [op] + rest == parts.value + ops;
    }
  }

  lemma PartEnds(lines: seq<Line>, i: nat, part: seq<Line>)
    requires Stands(lines, i, part)
    ensures i + |part| <= |lines|
  {
  }

  lemma ValueStep(lines: seq<Line>, i: nat, op: Op, d: nat, e: nat, step: nat, parts: MatchParts)
    requires op.Do? && !op.prim.Nop? && d < e && i < |lines| && lines[i] == Line(e, FirstToken(op))
    ensures |PrintOp(op, e, step)| == 1
    ensures MatchItems(lines, i, d, parts) == MatchItems(lines, i + 1, d, parts.(value := parts.value + [op]))
  {
  }

  /** A match with its value written that way comes back. */
  lemma ImplicitMatch(lines: seq<Line>, i: nat, op: Op, d: nat, step: nat)
    requires op.Match? && CanonicalOp(op) && step > 0 && Statements(op.value)
    requires i < |lines| && lines[i] == Line(d, MatchHeader)
    requires var n := i + 1 + |Print(op.value, d + step, step)|;
             var rest := Sections(op.cases, op.default, d + step, step);
             && Stands(lines, i + 1, Print(op.value, d + step, step)) && Stands(lines, n, rest)
             && Follows(lines, n + |rest|, d, SectionsOpen(op.cases, op.default, false))
    ensures ParseMatch(lines, i) ==
            Parsed(op, i + 1 + |Print(op.value, d + step, step)| + |Sections(op.cases, op.default, d + step, step)|)
  {
    hide Stands, CanonicalOp, MatchItems, Sections, Follows, SectionsOpen, Print, Statements;
    MatchCanonical(op);
    var n := i + 1 + |Print(op.value, d + step, step)|;
    ImplicitValue(lines, i + 1, op.value, d, d + step, step, MatchParts([], [], Absent));
    assert [] + op.value == op.value && op.cases[0..] == op.cases && [] + op.cases == op.cases;
    SectionsBack(lines, n, op, 0, d, step, MatchParts(op.value, [], Absent));
  }

  // ---------- sections given twice ----------

  /** A section at i with canonical operations under it, and what comes after. */
  predicate SectionAt(lines: seq<Line>, i: nat, t: Token, ops: seq<Op>, e: nat, step: nat) {
    && i < |lines| && lines[i] == Line(e, t) && Canonical(ops) && step > 0
    && Stands(lines, i + 1, Print(ops, e + step, step))
    && Follows(lines, i + 1 + |Print(ops, e + step, step)|, e, EndsOpen(ops))
  }

  lemma SectionRead(lines: seq<Line>, i: nat, t: Token, ops: seq<Op>, e: nat, step: nat)
    requires SectionAt(lines, i, t, ops, e, step)
    ensures i < |lines| && lines[i] == Line(e, t) && i + 1 + |Print(ops, e + step, step)| <= |lines|
    ensures ParseBlock(lines, i + 1, e) == Parsed(ops, i + 1 + |Print(ops, e + step, step)|)
  {
    hide Print, Stands, Canonical, EndsOpen, ParseBlock;
    PartEnds(lines, i + 1, Print(ops, e + step, step));
    UnderHeader(lines, i + 1, ops, e, step);
  }

  /** Of two condition sections the second counts. */
  lemma TwoConditions(lines: seq<Line>, i: nat, first: seq<Op>, op: Op, d: nat, step: nat)
    requires op.While? && CanonicalOp(op) && step > 0 && i < |lines| && lines[i] == Line(d, WhileHeader)
    requires SectionAt(lines, i + 1, ConditionHeader, first, d + step, step)
    requires var m := i + 2 + |Print(first, d + step + step, step)|;
             SectionAt(lines, m, ConditionHeader, op.cond, d + step, step)
    requires var n := i + 3 + |Print(first, d + step + step, step)| + |Print(op.cond, d + step + step, step)|;
             && Stands(lines, n, Print(op.body, d + step, step))
             && Follows(lines, n + |Print(op.body, d + step, step)|, d, EndsOpen(op.body))
    ensures ParseWhile(lines, i).Parsed? && ParseWhile(lines, i).value == op
  {
    hide Print, Stands, CanonicalOp, EndsOpen, SectionAt, WhileItems, ParseBlock, Follows;
    var e := d + step;
    var m := i + 2 + |Print(first, e + step, step)|;
    var n := m + 1 + |Print(op.cond, e + step, step)|;
    SectionRead(lines, i + 1, ConditionHeader, first, e, step);
    SectionRead(lines, m, ConditionHeader, op.cond, e, step);
    ConditionStep(lines, i + 1, d, first, m, WhileParts(None, []));
    ConditionStep(lines, m, d, op.cond, n, WhileParts(Some(first), []));
    assert op.body[0..] == op.body && [] + op.body == op.body;
    WhileBodyBack(lines, n, op, 0, d, step, WhileParts(Some(op.cond), []));
  }

  lemma ConditionStep(lines: seq<Line>, i: nat, d: nat, ops: seq<Op>, n: nat, parts: WhileParts)
    requires i < |lines| && lines[i].token.ConditionHeader? && d < lines[i].indent && n <= |lines|
    requires ParseBlock(lines, i + 1, lines[i].indent) == Parsed(ops, n)
    ensures WhileItems(lines, i, d, parts) == WhileItems(lines, n, d, parts.(cond := Some(ops)))
  {
    hide ParseBlock;
  }

  /** What a section makes of what was collected: a value or a default takes the place of an earlier one,
      a case is added behind the earlier ones. */
  lemma SectionKeeps(lines: seq<Line>, i: nat, t: Token, ops: seq<Op>, d: nat, e: nat, step: nat, parts: MatchParts)
    requires SectionAt(lines, i, t, ops, e, step) && d < e
    requires t.ValueHeader? || t.DefaultHeader? || (t.CaseHeader? && t.value.Some?)
    ensures var n := i + 1 + |Print(ops, e + step, step)|;
            && n <= |lines|
            && MatchItems(lines, i, d, parts) ==
               MatchItems(lines, n, d,
                          MatchParts(if t.ValueHeader? then ops else parts.value,
                                     parts.cases + (if t.CaseHeader? then [Case(Number(t.value.value), ops)] else []),
                                     if t.DefaultHeader? then Block(ops) else parts.default))
  {
    hide MatchItems, ParseBlock, Print, SectionAt;
    SectionRead(lines, i, t, ops, e, step);
    SectionStep(lines, i, d, parts, ops, i + 1 + |Print(ops, e + step, step)|);
    assert parts.cases + [] == parts.cases;
  }

  // ---------- refused blocks ----------

  /** The beginning of a block is read whatever follows it in the block. */
  lemma {:induction false} BlockBegins(lines: seq<Line>, i: nat, ops: seq<Op>, d: nat, step: nat, base: nat)
    requires Canonical(ops) && base < d && step > 0 && Stands(lines, i, Print(ops, d, step))
    requires Follows(lines, i + |Print(ops, d, step)|, d, true)
    ensures i <= |lines|
    ensures ParseBlock(lines, i, base) == Parser.After(ops, ParseBlock(lines, i + |Print(ops, d, step)|, base))
    decreases |ops|
  {
    hide Print, PrintOp, Canonical, CanonicalOp, Stands, OpenOp, ParseBlock, EndsOpen, Parser.After;
    PrintUnfold(ops, d, step);
    var end := i + |Print(ops, d, step)|;
    if ops == [] {
      Parser.AfterNone([], ParseBlock(lines, i, base), 0);
    } else {
      var op, rest := ops[0], ops[1..];
      var m := i + |PrintOp(op, d, step)|;
      FollowsWeaker(lines, end, d, true, d, EndsOpen(ops));
      BlockParts(lines, i, ops, d, step, d);
      ItemBack(lines, i, op, d, step, base);
      BlockBegins(lines, m, rest, d, step, base);
      OneItem(lines, i, base, op, m);
      Parser.AfterAfter([op], rest, ParseBlock(lines, end, base));
    }
  }

  lemma OneItem(lines: seq<Line>, i: nat, base: nat, op: Op, m: nat)
    requires i < |lines| && !lines[i].token.Blank? && lines[i].indent > base && m <= |lines|
    requires ParseItem(lines, i, base) == Parsed([op], m)
    ensures ParseBlock(lines, i, base) == Parser.After([op], ParseBlock(lines, m, base))
  {
    hide ParseItem;
  }

  /** Lines that no block accepts, and the error each gives. */
  function BlockFault(t: Token): Option<SyntaxError> {
    match t
    case LoopHeader(None) => Some(InvalidLoopCount)
    case DefHeader(None) => Some(InvalidFunction)
    case ConditionHeader => Some(UnknownBlockType)
    case ValueHeader => Some(UnknownBlockType)
    case DefaultHeader => Some(UnknownBlockType)
    case CaseHeader(_, colon) => Some(if colon then UnknownBlockType else BadLine)
    case OtherHeader(_, _) => Some(UnknownBlockType)
    case TemplateOpen(_) => Some(BadLine)
    case GovernanceOpen => Some(BadLine)
    case GovernanceUse(_) => Some(BadLine)
    case CloseBrace => Some(BadLine)
    case Text(Unknown, _) => Some(BadLine)
    case _ => None
  }

  /** A block is refused at its first such line, with the error for that line. */
  lemma BlockRefused(lines: seq<Line>, i: nat, ops: seq<Op>, d: nat, step: nat, base: nat)
    requires Canonical(ops) && base < d && step > 0 && Stands(lines, i, Print(ops, d, step))
    requires var n := i + |Print(ops, d, step)|;
             n < |lines| && base < lines[n].indent <= d && BlockFault(lines[n].token).Some?
    ensures i <= |lines|
    ensures ParseBlock(lines, i, base) == Error(BlockFault(lines[i + |Print(ops, d, step)|].token).value)
  {
    hide Canonical, Print, Stands, ParseIf, ParseWhile, ParseMatch;
    var n := i + |Print(ops, d, step)|;
    BlockBegins(lines, i, ops, d, step, base);
    assert ParseItem(lines, n, base) == Error(BlockFault(lines[n].token).value);
  }

  /** A match with sections but no value is refused for that. */
  lemma NoValue(lines: seq<Line>, i: nat, op: Op, d: nat, step: nat)
    requires op.Match? && CanonicalOp(op) && step > 0 && i < |lines| && lines[i] == Line(d, MatchHeader)
    requires var rest := Sections(op.cases, op.default, d + step, step);
             && Stands(lines, i + 1, rest)
             && Follows(lines, i + 1 + |rest|, d, SectionsOpen(op.cases, op.default, false))
    ensures ParseMatch(lines, i) == Error(MissingMatchValue)
  {
    hide Stands, CanonicalOp, MatchItems, Sections, Follows, SectionsOpen;
    assert op.cases[0..] == op.cases;
    SectionsBack(lines, i + 1, op, 0, d, step, MatchParts([], [], Absent));
  }

  /** Lines that a match accepts nowhere, and the error each gives. */
  function MatchFault(t: Token): Option<SyntaxError> {
    match t
    case CaseHeader(None, _) => Some(InvalidCaseValue)
    case OtherHeader(Unknown, _) => Some(BadLine)
    case Text(Unknown, _) => Some(BadLine)
    case ElseHeader => Some(BadLine)
    case IfPassedHeader => Some(BadLine)
    case ConditionHeader => Some(BadLine)
    case CloseBrace => Some(BadLine)
    case _ => if IsBlockHeader(t) then Some(BadLine) else None
  }

  /** A match is refused at such a line, after any number of statements for its value. */
  lemma MatchRefused(lines: seq<Line>, i: nat, ops: seq<Op>, d: nat, e: nat, step: nat)
    requires d < e && Statements(ops) && i < |lines| && lines[i] == Line(d, MatchHeader)
    requires var n := i + 1 + |Print(ops, e, step)|;
             && Stands(lines, i + 1, Print(ops, e, step)) && n < |lines|
             && lines[n].indent > d && MatchFault(lines[n].token).Some?
    ensures ParseMatch(lines, i) == Error(MatchFault(lines[i + 1 + |Print(ops, e, step)|].token).value)
  {
    hide Print, Stands, Statements;
    ImplicitValue(lines, i + 1, ops, d, e, step, MatchParts([], [], Absent));
    MatchStops(lines, i + 1 + |Print(ops, e, step)|, d, MatchParts([] + ops, [], Absent));
    hide MatchItems;
  }

  lemma MatchStops(lines: seq<Line>, i: nat, d: nat, parts: MatchParts)
    requires i < |lines| && lines[i].indent > d && MatchFault(lines[i].token).Some?
    ensures MatchItems(lines, i, d, parts) == Error(MatchFault(lines[i].token).value)
  {
  }

  /** Lines that a while accepts nowhere, and the error each gives. */
  function WhileFault(t: Token): Option<SyntaxError> {
    match t
    case LoopHeader(None) => Some(InvalidLoopCount)
    case Text(Unknown, _) => Some(BadLine)
    case CloseBrace => Some(BadLine)
    case CaseHeader(_, false) => Some(BadLine)
    case _ =>
      if (IsBlockHeader(t) && !t.DefHeader?) || t.ConditionHeader? || !EndsWithColon(t) then None
      else Some(UnknownBlockType)
  }

  /** A while is refused at such a line, after any canonical beginning of its body. */
  lemma {:induction false} WhileRefused(lines: seq<Line>, i: nat, op: Op, k: nat, d: nat, step: nat, parts: WhileParts)
    requires op.While? && CanonicalOp(op) && step > 0 && k <= |op.body|
    requires Stands(lines, i, Print(op.body[k..], d + step, step))
    requires var n := i + |Print(op.body[k..], d + step, step)|;
             && n < |lines| && d < lines[n].indent <= d + step
             && WhileFault(lines[n].token).Some? && !lines[n].token.ElseHeader?
    ensures i <= |lines|
    ensures WhileItems(lines, i, d, parts) ==
            Error(WhileFault(lines[i + |Print(op.body[k..], d + step, step)|].token).value)
    decreases |op.body| - k
  {
    hide Print, PrintOp, Stands, Canonical, CanonicalOp, WhileItems, OpenOp, EndsOpen, ParseHeader, WhileFault;
    var rest, e := op.body[k..], d + step;
    var n := i + |Print(rest, e, step)|;
    PrintUnfold(rest, e, step);
    if rest == [] {
      WhileStops(lines, i, d, parts);
    } else {
      var x := op.body[k];
      assert rest[0] == x && rest[1..] == op.body[k + 1..];
      var m := i + |PrintOp(x, e, step)|;
      WhileCanonical(op);
      SuffixCanonical(op.body, k);
      assert Follows(lines, n, e, EndsOpen(rest)) by { NotBlank(lines[n].token); }
      BlockParts(lines, i, rest, e, step, e);
      if x.Do? { OneLine(x, e, step); } else { HeaderBack(lines, i, x, e, step); }
      WhileItemStep(lines, i, x, e, step, d, parts, m);
      WhileRefused(lines, m, op, k + 1, d, step, parts.(body := parts.body + [x]));
    }
  }

  lemma OneLine(x: Op, e: nat, step: nat)
    requires x.Do?
    ensures |PrintOp(x, e, step)| == 1
  {
  }

  lemma NotBlank(t: Token)
    requires WhileFault(t).Some?
    ensures !t.Blank?
  {
  }

  lemma WhileStops(lines: seq<Line>, i: nat, d: nat, parts: WhileParts)
    requires i < |lines| && lines[i].indent > d && WhileFault(lines[i].token).Some?
    ensures WhileItems(lines, i, d, parts) == Error(WhileFault(lines[i].token).value)
  {
    hide ParseBlock, ParseIf, ParseMatch;
  }

  // ---------- blocks taken out of their surroundings ----------

  /** An `if passed:` or `else:` block that is the last thing in its block, and deep enough, is read as such
      a block of the operations under it. */
  lemma TakenOut(lines: seq<Line>, i: nat, ops: seq<Op>, e: nat, step: nat, base: nat)
    requires Canonical(ops) && Plain(ops) && base + 1 < e && step > 0
    requires i < |lines| && (lines[i].token.IfPassedHeader? || lines[i].token.ElseHeader?)
    requires Stands(lines, i + 1, Print(ops, e, step))
    requires var n := i + 1 + |Print(ops, e, step)|; n <= |lines| && Ends(lines, n, base)
    ensures ParseItem(lines, i, base) ==
            Parsed([if lines[i].token.IfPassedHeader? then IfPassed(ops) else ElseBlock(ops)],
                   i + 1 + |Print(ops, e, step)|)
  {
    hide Canonical, Plain, Print, ParseBlock, EndsOpen;
    var text := Print(ops, e, step);
    PrintLaid(ops, e, step);
    Swallowed(lines, i + 1, text, base);
    assert Stands(text, 0, text);
    BlockBack(text, 0, ops, e, step, base + 1);
  }

  /** Deeper lines without blank ones are taken out as they are. */
  lemma {:induction false} Swallowed(lines: seq<Line>, i: nat, text: seq<Line>, base: nat)
    requires Stands(lines, i, text) && Ends(lines, i + |text|, base)
    requires forall j :: 0 <= j < |text| ==> !text[j].token.Blank? && text[j].indent > base
    ensures SwallowEnd(lines, i, base) == i + |text| && Swallow(lines, i, i + |text|) == text
    decreases |text|
  {
    if text != [] {
      assert text == [text[0]] + text[1..];
      StandsSplit(lines, i, [text[0]], text[1..]);
      StandsFirst(lines, i, [text[0]]);
      Swallowed(lines, i + 1, text[1..], base);
    }
  }
}
