/** Blank lines: where they change nothing, and where they do. */
module BlankLines {
  import opened Values
  import opened Ast
  import opened ParserSpec
  import opened Printer
  import opened RoundTrip
  import opened ImplicitForms

  /** The lines with one blank line more, in front of line b, at indent k. */
  function WithBlank(lines: seq<Line>, b: nat, k: nat): (r: seq<Line>)
    requires b <= |lines|
    ensures |r| == |lines| + 1 && r[b] == Line(k, Blank)
    ensures forall i :: 0 <= i < b ==> r[i] == lines[i]
    ensures forall i :: b <= i < |lines| ==> r[i + 1] == lines[i]
  {
    lines[..b] + [Line(k, Blank)] + lines[b..]
  }

  /** The blank line is deeper than the header of every `while` and every `match`. */
  predicate Harmless(lines: seq<Line>, k: nat) {
    forall j :: 0 <= j < |lines| && (lines[j].token.WhileHeader? || lines[j].token.MatchHeader?) ==> lines[j].indent < k
  }

  /** Where line i has gone. */
  function Moved(b: nat, i: nat): nat { if i < b then i else i + 1 }

  /** Where reading from line i on may start: at the blank line, if it comes first. */
  function From(b: nat, i: nat): nat { if i <= b then i else i + 1 }

  function Shifted<T>(b: nat, r: Parse<T>): Parse<T> {
    match r
    case Error(e) => Error(e)
    case Parsed(v, n) => Parsed(v, Moved(b, n))
  }

  lemma MovedLine(lines: seq<Line>, b: nat, k: nat, i: nat)
    requires b <= |lines| && i < |lines|
    ensures Moved(b, i) < |WithBlank(lines, b, k)| && WithBlank(lines, b, k)[Moved(b, i)] == lines[i]
    ensures Moved(b, i) + 1 == From(b, i + 1)
  {
    if i >= b { assert WithBlank(lines, b, k)[i + 1] == lines[i]; }
  }

  /** One more blank line, harmless for `while` and `match`, changes nothing that a block reads. */
  lemma {:induction false} BlankBlock(lines: seq<Line>, b: nat, k: nat, i: nat, base: nat)
    requires b <= |lines| && Harmless(lines, k) && i <= |lines|
    ensures From(b, i) <= |lines| + 1
    ensures ParseBlock(WithBlank(lines, b, k), From(b, i), base) == Shifted(b, ParseBlock(lines, i, base))
    decreases |lines| - i, 3
  {
    hide WithBlank, Harmless, ParseItem;
    var lines' := WithBlank(lines, b, k);
    if i == b { SkipBlank(lines', b, base); }
    if i < |lines| {
      MovedLine(lines, b, k, i);
      if lines[i].token.Blank? {
        BlankBlock(lines, b, k, i + 1, base);
      } else if !Ends(lines, i, base) {
        BlankItem(lines, b, k, i, base);
        var item := ParseItem(lines, i, base);
        if item.Parsed? {
          BlankBlock(lines, b, k, item.next, base);
          var item' := ParseItem(lines', Moved(b, i), base);
          if item.next == b { SkipBlank(lines', b, base); }
        }
      }
    }
  }

  lemma SkipBlank(lines: seq<Line>, i: nat, base: nat)
    requires i < |lines| && lines[i].token.Blank?
    ensures ParseBlock(lines, i, base) == ParseBlock(lines, i + 1, base)
  {
  }

  /** An item may stop at the blank line or behind it. */
  lemma {:induction false} BlankItem(lines: seq<Line>, b: nat, k: nat, i: nat, base: nat)
    requires b <= |lines| && Harmless(lines, k) && i < |lines|
    ensures Moved(b, i) < |lines| + 1
    ensures var r, r' := ParseItem(lines, i, base), ParseItem(WithBlank(lines, b, k), Moved(b, i), base);
            match r
            case Error(e) => r' == Error(e)
            case Parsed(ops, n) => r'.Parsed? && r'.value == ops && (r'.next == Moved(b, n) || (n == b && r'.next == b))
    decreases |lines| - i, 2
  {
    hide WithBlank, Harmless, ParseHeader, ParseBlock, Swallow;
    var lines', t := WithBlank(lines, b, k), lines[i].token;
    MovedLine(lines, b, k, i);
    if IsBlockHeader(t) {
      BlankHeader(lines, b, k, i);
    } else if t.IfPassedHeader? || t.ElseHeader? {
      BlankSwallow(lines, b, k, i + 1, base);
      BlankTaken(lines, b, k, i + 1, SwallowEnd(lines, i + 1, base));
    }
  }

  lemma {:induction false} BlankSwallow(lines: seq<Line>, b: nat, k: nat, i: nat, base: nat)
    requires b <= |lines| && i <= |lines|
    ensures From(b, i) <= |lines| + 1
    ensures SwallowEnd(WithBlank(lines, b, k), From(b, i), base) == Moved(b, SwallowEnd(lines, i, base))
    decreases |lines| - i
  {
    hide WithBlank;
    if i < |lines| {
      MovedLine(lines, b, k, i);
      if !Ends(lines, i, base) { BlankSwallow(lines, b, k, i + 1, base); }
    }
  }

  lemma {:induction false} BlankTaken(lines: seq<Line>, b: nat, k: nat, i: nat, n: nat)
    requires b <= |lines| && i <= n <= |lines|
    ensures From(b, i) <= Moved(b, n) <= |lines| + 1
    ensures Swallow(WithBlank(lines, b, k), From(b, i), Moved(b, n)) == Swallow(lines, i, n)
    decreases n - i
  {
    hide WithBlank;
    var lines' := WithBlank(lines, b, k);
    if i == b && b <= n { assert Swallow(lines', b, Moved(b, n)) == [] + Swallow(lines', b + 1, Moved(b, n)); }
    if i < n {
      MovedLine(lines, b, k, i);
      BlankTaken(lines, b, k, i + 1, n);
    }
  }

  lemma {:induction false} BlankHeader(lines: seq<Line>, b: nat, k: nat, i: nat)
    requires b <= |lines| && Harmless(lines, k) && i < |lines| && IsBlockHeader(lines[i].token)
    ensures Moved(b, i) < |lines| + 1 && WithBlank(lines, b, k)[Moved(b, i)] == lines[i]
    ensures ParseHeader(WithBlank(lines, b, k), Moved(b, i)) == Shifted(b, ParseHeader(lines, i))
    decreases |lines| - i, 1
  {
    hide WithBlank, ParseBlock, ParseIf, ParseWhile, ParseMatch;
    MovedLine(lines, b, k, i);
    match lines[i].token
    case IfHeader => BlankIf(lines, b, k, i);
    case WhileHeader => BlankWhile(lines, b, k, i);
    case MatchHeader => BlankMatch(lines, b, k, i);
    case LoopHeader(_) => BlankBlock(lines, b, k, i + 1, lines[i].indent);
    case DefHeader(_) => BlankBlock(lines, b, k, i + 1, lines[i].indent);
  }

  lemma {:induction false} BlankIf(lines: seq<Line>, b: nat, k: nat, i: nat)
    requires b <= |lines| && Harmless(lines, k) && i < |lines|
    ensures Moved(b, i) < |lines| + 1
    ensures ParseIf(WithBlank(lines, b, k), Moved(b, i)) == Shifted(b, ParseIf(lines, i))
    decreases |lines| - i, 0
  {
    hide WithBlank, Harmless, ParseBlock;
    var d := lines[i].indent;
    MovedLine(lines, b, k, i);
    BlankBlock(lines, b, k, i + 1, d);
    var thn := ParseBlock(lines, i + 1, d);
    if thn.Parsed? && thn.next < |lines| {
      MovedLine(lines, b, k, thn.next);
      BlankBlock(lines, b, k, thn.next + 1, d);
    }
  }

  lemma {:induction false} BlankWhile(lines: seq<Line>, b: nat, k: nat, i: nat)
    requires b <= |lines| && Harmless(lines, k) && i < |lines| && lines[i].token.WhileHeader?
    ensures Moved(b, i) < |lines| + 1
    ensures ParseWhile(WithBlank(lines, b, k), Moved(b, i)) == Shifted(b, ParseWhile(lines, i))
    decreases |lines| - i, 0
  {
    hide WithBlank, WhileItems;
    MovedLine(lines, b, k, i);
    BlankWhileItems(lines, b, k, i + 1, lines[i].indent, WhileParts(None, []));
  }

  lemma {:induction false} BlankWhileItems(lines: seq<Line>, b: nat, k: nat, i: nat, d: nat, parts: WhileParts)
    requires b <= |lines| && Harmless(lines, k) && i <= |lines| && d < k
    ensures From(b, i) <= |lines| + 1
    ensures WhileItems(WithBlank(lines, b, k), From(b, i), d, parts) == Shifted(b, WhileItems(lines, i, d, parts))
    decreases |lines| - i, 3
  {
    hide WithBlank, Harmless, ParseBlock, ParseHeader;
    var lines' := WithBlank(lines, b, k);
    if i == b { SkipInWhile(lines', b, d, parts); }
    if i < |lines| {
      var t := lines[i].token;
      MovedLine(lines, b, k, i);
      if lines[i].indent > d {
        if t.ConditionHeader? {
          BlankBlock(lines, b, k, i + 1, lines[i].indent);
          var block := ParseBlock(lines, i + 1, lines[i].indent);
          if block.Parsed? {
            var more := parts.(cond := Some(block.value));
            WhileGoesOn(lines, b, k, block.next, d, more);
            BlankWhileItems(lines, b, k, block.next, d, more);
          }
        } else if IsBlockHeader(t) && !t.DefHeader? {
          BlankHeader(lines, b, k, i);
          var nested := ParseHeader(lines, i);
          if nested.Parsed? {
            var more := parts.(body := parts.body + [nested.value]);
            WhileGoesOn(lines, b, k, nested.next, d, more);
            BlankWhileItems(lines, b, k, nested.next, d, more);
          }
        } else if !EndsWithColon(t) && StatementOps(t).Some? {
          BlankWhileItems(lines, b, k, i + 1, d, parts.(body := parts.body + StatementOps(t).value));
        }
      }
    }
  }

  lemma SkipInWhile(lines: seq<Line>, i: nat, d: nat, parts: WhileParts)
    requires i < |lines| && lines[i].token.Blank? && lines[i].indent > d
    ensures WhileItems(lines, i, d, parts) == WhileItems(lines, i + 1, d, parts)
  {
    assert parts.body + [] == parts.body;
  }

  /** Behind a section the blank line, if it is next, is passed over. */
  lemma WhileGoesOn(lines: seq<Line>, b: nat, k: nat, n: nat, d: nat, parts: WhileParts)
    requires b <= |lines| && n <= |lines| && d < k
    ensures From(b, n) <= |lines| + 1 && Moved(b, n) <= |lines| + 1
    ensures WhileItems(WithBlank(lines, b, k), From(b, n), d, parts)
            == WhileItems(WithBlank(lines, b, k), Moved(b, n), d, parts)
  {
    hide WithBlank, WhileItems;
    if n == b { SkipInWhile(WithBlank(lines, b, k), b, d, parts); }
  }

  lemma {:induction false} BlankMatch(lines: seq<Line>, b: nat, k: nat, i: nat)
    requires b <= |lines| && Harmless(lines, k) && i < |lines| && lines[i].token.MatchHeader?
    ensures Moved(b, i) < |lines| + 1
    ensures ParseMatch(WithBlank(lines, b, k), Moved(b, i)) == Shifted(b, ParseMatch(lines, i))
    decreases |lines| - i, 0
  {
    hide WithBlank, MatchItems;
    MovedLine(lines, b, k, i);
    BlankMatchItems(lines, b, k, i + 1, lines[i].indent, MatchParts([], [], Absent));
  }

  lemma {:induction false} BlankMatchItems(lines: seq<Line>, b: nat, k: nat, i: nat, d: nat, parts: MatchParts)
    requires b <= |lines| && Harmless(lines, k) && i <= |lines| && d < k
    ensures From(b, i) <= |lines| + 1
    ensures MatchItems(WithBlank(lines, b, k), From(b, i), d, parts) == Shifted(b, MatchItems(lines, i, d, parts))
    decreases |lines| - i, 3
  {
    hide WithBlank, Harmless, ParseBlock;
    var lines' := WithBlank(lines, b, k);
    if i == b { SkipInMatch(lines', b, d, parts); }
    if i < |lines| {
      var t := lines[i].token;
      MovedLine(lines, b, k, i);
      if lines[i].indent > d {
        if t.ValueHeader? || t.DefaultHeader? || (t.CaseHeader? && t.value.Some?) {
          BlankBlock(lines, b, k, i + 1, lines[i].indent);
          var block := ParseBlock(lines, i + 1, lines[i].indent);
          if block.Parsed? {
            var more := AddSection(parts, t, block.value);
            MatchGoesOn(lines, b, k, block.next, d, more);
            BlankMatchItems(lines, b, k, block.next, d, more);
          }
        } else if !t.CaseHeader? && StatementOps(t).Some? {
          BlankMatchItems(lines, b, k, i + 1, d, parts.(value := parts.value + StatementOps(t).value));
        }
      }
    }
  }

  lemma SkipInMatch(lines: seq<Line>, i: nat, d: nat, parts: MatchParts)
    requires i < |lines| && lines[i].token.Blank? && lines[i].indent > d
    ensures MatchItems(lines, i, d, parts) == MatchItems(lines, i + 1, d, parts)
  {
    assert parts.value + [] == parts.value;
  }

  lemma MatchGoesOn(lines: seq<Line>, b: nat, k: nat, n: nat, d: nat, parts: MatchParts)
    requires b <= |lines| && n <= |lines| && d < k
    ensures From(b, n) <= |lines| + 1 && Moved(b, n) <= |lines| + 1
    ensures MatchItems(WithBlank(lines, b, k), From(b, n), d, parts)
            == MatchItems(WithBlank(lines, b, k), Moved(b, n), d, parts)
  {
    hide WithBlank, MatchItems;
    if n == b { SkipInMatch(WithBlank(lines, b, k), b, d, parts); }
  }

  /** Statements under a `while` are added to its body. */
  lemma {:induction false} StatementsRead(lines: seq<Line>, i: nat, ops: seq<Op>, d: nat, e: nat, step: nat,
                                          parts: WhileParts)
    requires d < e && Statements(ops) && Stands(lines, i, Print(ops, e, step))
    ensures i + |Print(ops, e, step)| <= |lines|
    ensures WhileItems(lines, i, d, parts) ==
            WhileItems(lines, i + |Print(ops, e, step)|, d, parts.(body := parts.body + ops))
    decreases |ops|
  {
    hide WhileItems, Print, PrintOp, Stands;
    PrintUnfold(ops, e, step);
    PartEnds(lines, i, Print(ops, e, step));
    if ops == [] {
      assert parts.body + [] == parts.body;
    } else {
      var op, rest := ops[0], ops[1..];
      StandsSplit(lines, i, PrintOp(op, e, step), Print(rest, e, step));
      StandsFirst(lines, i, PrintOp(op, e, step));
      OneLine(op, e, step);
      StatementStep(lines, i, op, d, e, parts);
      StatementsRead(lines, i + 1, rest, d, e, step, parts.(body := parts.body + [op]));
      assert parts.body + [op] + rest == parts.body + ops;
    }
  }

  lemma StatementStep(lines: seq<Line>, i: nat, op: Op, d: nat, e: nat, parts: WhileParts)
    requires op.Do? && !op.prim.Nop? && d < e && i < |lines| && lines[i] == Line(e, FirstToken(op))
    ensures WhileItems(lines, i, d, parts) == WhileItems(lines, i + 1, d, parts.(body := parts.body + [op]))
  {
  }

  /** A blank line between the statements of a `while` is passed over exactly when it is deeper than the
      header; otherwise the loop ends there. */
  lemma BlankInWhile(lines: seq<Line>, i: nat, first: seq<Op>, second: seq<Op>, d: nat, step: nat)
    requires step > 0 && first != [] && second != [] && Statements(first) && Statements(second)
    requires i < |lines| && lines[i] == Line(d, WhileHeader) && Stands(lines, i + 1, Print(first, d + step, step))
    requires var b := i + 1 + |Print(first, d + step, step)|;
             && b < |lines| && lines[b].token.Blank? && Stands(lines, b + 1, Print(second, d + step, step))
             && b + 1 + |Print(second, d + step, step)| == |lines|
    ensures var b := i + 1 + |Print(first, d + step, step)|; var all := first + second;
            ParseWhile(lines, i) ==
            if lines[b].indent > d then Parsed(While([all[0]], all[1..]), |lines|)
            else Parsed(While([first[0]], first[1..]), b)
  {
    hide Print, Stands, Statements;
    var e := d + step;
    var b := i + 1 + |Print(first, e, step)|;
    StatementsRead(lines, i + 1, first, d, e, step, WhileParts(None, []));
    assert [] + first == first;
    if lines[b].indent > d {
      SkipInWhile(lines, b, d, WhileParts(None, first));
      StatementsRead(lines, b + 1, second, d, e, step, WhileParts(None, first));
    }
  }

  /** So a blank line that is not deeper than a `while` moves the rest of its body behind the loop. */
  lemma BlankEndsWhile(p: Prim, q: Prim)
    requires !p.Nop? && !q.Nop?
    ensures var first, second := Line(2, Token.Text(Operation(p), None)), Line(2, Token.Text(Operation(q), None));
            var lines := [Line(1, WhileHeader), first, second];
            && ParseBlock(lines, 0, 0) == Parsed([While([Op.Do(p)], [Op.Do(q)])], 3)
            && ParseBlock(WithBlank(lines, 2, 0), 0, 0) == Parsed([While([Op.Do(p)], []), Op.Do(q)], 4)
  {
    var first, second := Line(2, Token.Text(Operation(p), None)), Line(2, Token.Text(Operation(q), None));
    var lines := [Line(1, WhileHeader), first, second];
    var lines' := [Line(1, WhileHeader), first, Line(0, Blank), second];
    assert WithBlank(lines, 2, 0) == lines';
    hide WithBlank;
    Unbroken(p, q, lines);
    Broken(p, q, lines');
  }

  lemma Unbroken(p: Prim, q: Prim, lines: seq<Line>)
    requires !p.Nop? && !q.Nop? && |lines| == 3 && lines[0] == Line(1, WhileHeader)
    requires lines[1] == Line(2, Token.Text(Operation(p), None)) && lines[2] == Line(2, Token.Text(Operation(q), None))
    ensures ParseBlock(lines, 0, 0) == Parsed([While([Op.Do(p)], [Op.Do(q)])], 3)
  {
    var a, c := Op.Do(p), Op.Do(q);
    var none, one, two := WhileParts(None, []), WhileParts(None, [a]), WhileParts(None, [a, c]);
    assert [] + [a] == [a] && [a] + [c] == [a, c] && [a, c][1..] == [c];
    assert WhileItems(lines, 3, 1, two) == Parsed(two, 3);
    assert WhileItems(lines, 2, 1, one) == Parsed(two, 3);
    assert WhileItems(lines, 1, 1, none) == Parsed(two, 3);
    hide WhileItems;
    AsBlock(lines, While([a], [c]), 3, []);
    assert [While([a], [c])] + [] == [While([a], [c])];
  }

  lemma Broken(p: Prim, q: Prim, lines: seq<Line>)
    requires !p.Nop? && !q.Nop? && |lines| == 4 && lines[0] == Line(1, WhileHeader) && lines[2] == Line(0, Blank)
    requires lines[1] == Line(2, Token.Text(Operation(p), None)) && lines[3] == Line(2, Token.Text(Operation(q), None))
    ensures ParseBlock(lines, 0, 0) == Parsed([While([Op.Do(p)], []), Op.Do(q)], 4)
  {
    var a, c := Op.Do(p), Op.Do(q);
    var none, one := WhileParts(None, []), WhileParts(None, [a]);
    assert [] + [a] == [a] && [a][1..] == [] && [c] + [] == [c];
    assert WhileItems(lines, 2, 1, one) == Parsed(one, 2);
    assert WhileItems(lines, 1, 1, none) == Parsed(one, 2);
    hide WhileItems;
    assert ParseBlock(lines, 4, 0) == Parsed([], 4);
    assert ParseItem(lines, 3, 0) == Parsed([c], 4);
    assert ParseBlock(lines, 2, 0) == ParseBlock(lines, 3, 0) == Parsed([c], 4);
    AsBlock(lines, While([a], []), 2, [c]);
    assert [While([a], [])] + [c] == [While([a], []), c];
  }

  /** A block that starts with a `while`. */
  lemma AsBlock(lines: seq<Line>, op: Op, n: nat, rest: seq<Op>)
    requires 0 < |lines| && lines[0] == Line(1, WhileHeader) && n <= |lines| && ParseWhile(lines, 0) == Parsed(op, n)
    requires ParseBlock(lines, n, 0) == Parsed(rest, |lines|) || (rest == [] && n == |lines|)
    ensures ParseBlock(lines, 0, 0) == Parsed([op] + rest, |lines|)
  {
    hide ParseWhile;
    assert ParseHeader(lines, 0) == Parsed(op, n);
    assert ParseItem(lines, 0, 0) == Parsed([op], n);
  }
}
