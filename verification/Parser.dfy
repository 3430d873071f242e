/** The block parsers as they run: loops that move one shared cursor. */
module Parser {
  import opened Values
  import opened Ast
  import opened ParserSpec

  /** What a block parser reports when operations were collected before the rest was parsed. */
  function After(ops: seq<Op>, rest: Parse<seq<Op>>): Parse<seq<Op>> {
    match rest
    case Parsed(more, n) => Parsed(ops + more, n)
    case Error(e) => Error(e)
  }

  lemma AfterAfter(xs: seq<Op>, ys: seq<Op>, r: Parse<seq<Op>>)
    ensures After(xs, After(ys, r)) == After(xs + ys, r)
  {
    if r.Parsed? { assert xs + (ys + r.value) == xs + ys + r.value; }
  }

  lemma AfterNone(ops: seq<Op>, r: Parse<seq<Op>>, i: nat)
    ensures After([], r) == r && After(ops, Parsed([], i)) == Parsed(ops, i)
  {
    if r.Parsed? { assert [] + r.value == r.value; }
    assert ops + [] == ops;
  }

  method Block(lines: seq<Line>, start: nat, base: nat) returns (r: Parse<seq<Op>>)
    requires start <= |lines|
    ensures r == ParseBlock(lines, start, base)
    decreases |lines| - start, 3
  {
    var ops: seq<Op> := [];
    var i := start;
    AfterNone(ops, ParseBlock(lines, start, base), i);
    while i < |lines|
      invariant start <= i <= |lines|
      invariant ParseBlock(lines, start, base) == After(ops, ParseBlock(lines, i, base))
    {
      var line := lines[i];
      if !line.token.Blank? && line.indent <= base { break; }
      if line.token.Blank? {
        i := i + 1;
      } else {
        var item := Item(lines, i, base);
        match item
        case Error(e) => return Error(e);
        case Parsed(more, n) =>
          assert ParseBlock(lines, i, base) == After(more, ParseBlock(lines, n, base));
          AfterAfter(ops, more, ParseBlock(lines, n, base));
          ops := ops + more;
          i := n;
      }
    }
    AfterNone(ops, ParseBlock(lines, i, base), i);
    return Parsed(ops, i);
  }

  method Item(lines: seq<Line>, i: nat, base: nat) returns (r: Parse<seq<Op>>)
    requires i < |lines|
    ensures r == ParseItem(lines, i, base)
    decreases |lines| - i, 2
  {
    var t := lines[i].token;
    if IsBlockHeader(t) {
      var header := Header(lines, i);
      match header
      case Error(e) => return Error(e);
      case Parsed(op, n) => return Parsed([op], n);
    } else if t.IfPassedHeader? || t.ElseHeader? {
      var collected, n := Collect(lines, i + 1, base);
      var block := Block(collected, 0, base + 1);
      match block
      case Error(e) => return Error(e);
      case Parsed(ops, _) => return Parsed([if t.ElseHeader? then ElseBlock(ops) else IfPassed(ops)], n);
    } else if EndsWithColon(t) {
      return Error(UnknownBlockType);
    } else {
      var ops := StatementOps(t);
      if ops.None? { return Error(BadLine); }
      return Parsed(ops.value, i + 1);
    }
  }

  /** Takes out the lines deeper than `base`, without the blank ones. */
  method Collect(lines: seq<Line>, start: nat, base: nat) returns (collected: seq<Line>, n: nat)
    requires start <= |lines|
    ensures n == SwallowEnd(lines, start, base) && collected == Swallow(lines, start, n)
  {
    hide Swallow;
    collected := [];
    n := start;
    SwallowNone(lines, start);
    while n < |lines|
      invariant start <= n <= |lines|
      invariant SwallowEnd(lines, start, base) == SwallowEnd(lines, n, base)
      invariant collected == Swallow(lines, start, n)
    {
      if !lines[n].token.Blank? && lines[n].indent <= base { break; }
      SwallowMore(lines, start, n);
      if !lines[n].token.Blank? { collected := collected + [lines[n]]; }
      n := n + 1;
    }
  }

  lemma SwallowNone(lines: seq<Line>, i: nat)
    requires i <= |lines|
    ensures Swallow(lines, i, i) == []
  {
  }

  lemma SwallowStep(lines: seq<Line>, i: nat, n: nat)
    requires i < n <= |lines|
    ensures Swallow(lines, i, n) == (if lines[i].token.Blank? then [] else [lines[i]]) + Swallow(lines, i + 1, n)
  {
  }

  lemma {:induction false} SwallowMore(lines: seq<Line>, i: nat, n: nat)
    requires i <= n < |lines|
    ensures Swallow(lines, i, n + 1) == Swallow(lines, i, n) + (if lines[n].token.Blank? then [] else [lines[n]])
    decreases n - i
  {
    hide Swallow;
    if i == n {
      SwallowNone(lines, n);
      SwallowNone(lines, n + 1);
      SwallowStep(lines, n, n + 1);
    } else {
      SwallowMore(lines, i + 1, n);
      SwallowStep(lines, i, n);
      SwallowStep(lines, i, n + 1);
    }
  }

  method Header(lines: seq<Line>, i: nat) returns (r: Parse<Op>)
    requires i < |lines| && IsBlockHeader(lines[i].token)
    ensures r == ParseHeader(lines, i)
    decreases |lines| - i, 1
  {
    match lines[i].token
    case IfHeader => r := IfBlock(lines, i);
    case WhileHeader => r := WhileBlock(lines, i);
    case MatchHeader => r := MatchBlock(lines, i);
    case LoopHeader(count) => r := LoopBlock(lines, i);
    case DefHeader(signature) => r := FunctionBlock(lines, i);
  }

  method LoopBlock(lines: seq<Line>, i: nat) returns (r: Parse<Op>)
    requires i < |lines| && lines[i].token.LoopHeader?
    ensures r == ParseHeader(lines, i)
    decreases |lines| - i, 0
  {
    var count := lines[i].token.count;
    if count.None? { return Error(InvalidLoopCount); }
    var body := Block(lines, i + 1, lines[i].indent);
    match body
    case Error(e) => return Error(e);
    case Parsed(ops, n) => return Parsed(Loop(count.value, ops), n);
  }

  method FunctionBlock(lines: seq<Line>, i: nat) returns (r: Parse<Op>)
    requires i < |lines| && lines[i].token.DefHeader?
    ensures r == ParseHeader(lines, i)
    decreases |lines| - i, 0
  {
    var signature := lines[i].token.signature;
    if signature.None? { return Error(InvalidFunction); }
    var body := Block(lines, i + 1, lines[i].indent);
    match body
    case Error(e) => return Error(e);
    case Parsed(ops, n) => return Parsed(Def(signature.value.0, signature.value.1, ops), n);
  }

  method IfBlock(lines: seq<Line>, i: nat) returns (r: Parse<Op>)
    requires i < |lines|
    ensures r == ParseIf(lines, i)
    decreases |lines| - i, 0
  {
    var thn := Block(lines, i + 1, lines[i].indent);
    match thn
    case Error(e) => return Error(e);
    case Parsed(ops, n) =>
      if n < |lines| && lines[n].token.ElseHeader? {
        var els := Block(lines, n + 1, lines[i].indent);
        match els
        case Error(e) => return Error(e);
        case Parsed(more, m) => return Parsed(If([], ops, MaybeBlock.Block(more)), m);
      }
      return Parsed(If([], ops, Absent), n);
  }

  method WhileBlock(lines: seq<Line>, start: nat) returns (r: Parse<Op>)
    requires start < |lines|
    ensures r == ParseWhile(lines, start)
    decreases |lines| - start, 0
  {
    var indent := lines[start].indent;
    var cond: Option<seq<Op>> := None;
    var body: seq<Op> := [];
    var i := start + 1;
    ghost var goal := WhileItems(lines, i, indent, WhileParts(None, []));
    while i < |lines|
      invariant start < i <= |lines|
      invariant goal == WhileItems(lines, i, indent, WhileParts(cond, body))
    {
      var line := lines[i];
      if line.indent <= indent { break; }
      var t := line.token;
      if t.ConditionHeader? {
        var block := Block(lines, i + 1, line.indent);
        match block
        case Error(e) => return Error(e);
        case Parsed(ops, n) => cond, i := Some(ops), n;
      } else if EndsWithColon(t) {
        if !IsBlockHeader(t) || t.DefHeader? { return Error(UnknownBlockType); }
        var nested := Header(lines, i);
        match nested
        case Error(e) => return Error(e);
        case Parsed(op, n) => body, i := body + [op], n;
      } else {
        var ops := StatementOps(t);
        if ops.None? { return Error(BadLine); }
        body, i := body + ops.value, i + 1;
      }
    }
    if cond.None? && body != [] {
      cond := Some([body[0]]);
      body := body[1..];
    }
    return Parsed(While(if cond.Some? then cond.value else [], body), i);
  }

  method MatchBlock(lines: seq<Line>, start: nat) returns (r: Parse<Op>)
    requires start < |lines|
    ensures r == ParseMatch(lines, start)
    decreases |lines| - start, 0
  {
    var indent := lines[start].indent;
    var value: seq<Op>, cases: seq<Case>, default := [], [], Absent;
    var i := start + 1;
    ghost var goal := MatchItems(lines, i, indent, MatchParts([], [], Absent));
    while i < |lines|
      invariant start < i <= |lines|
      invariant goal == MatchItems(lines, i, indent, MatchParts(value, cases, default))
    {
      var line := lines[i];
      if line.indent <= indent { break; }
      var t := line.token;
      if t.ValueHeader? {
        var block := Block(lines, i + 1, line.indent);
        match block
        case Error(e) => return Error(e);
        case Parsed(ops, n) => value, i := ops, n;
      } else if t.CaseHeader? {
        if t.value.None? { return Error(InvalidCaseValue); }
        var block := Block(lines, i + 1, line.indent);
        match block
        case Error(e) => return Error(e);
        case Parsed(ops, n) => cases, i := cases + [Case(Number(t.value.value), ops)], n;
      } else if t.DefaultHeader? {
        var block := Block(lines, i + 1, line.indent);
        match block
        case Error(e) => return Error(e);
        case Parsed(ops, n) => default, i := MaybeBlock.Block(ops), n;
      } else {
        var ops := StatementOps(t);
        if ops.None? { return Error(BadLine); }
        value, i := value + ops.value, i + 1;
      }
    }
    if value == [] { return Error(MissingMatchValue); }
    return Parsed(Match(value, cases, default), i);
  }
}
