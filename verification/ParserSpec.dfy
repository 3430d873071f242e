/** What the indentation parser computes (crates/icn-covm/src/compiler), as functions of the lines
    and the cursor. A line is its indent and what its text is. */
module ParserSpec {
  import opened Values
  import opened Ast

  /** The reading of a line as a statement. */
  datatype Statement = Operation(prim: Prim) | Ignored | Unknown

  datatype Setting =
    | Quorum(fraction: real)
    | Threshold(fraction: real)
    | MinDeliberation(hours: int)
    | ExpiresIn(hours: int)
    | RequireRole(role: string)

  datatype Token =
    | Blank
    | IfHeader
    | WhileHeader
    | MatchHeader
    | LoopHeader(count: Option<nat>)
    | DefHeader(signature: Option<(string, seq<string>)>)
    | ElseHeader
    | IfPassedHeader
    | ConditionHeader
    | ValueHeader
    | DefaultHeader
    | CaseHeader(value: Option<real>, colon: bool)
    | OtherHeader(statement: Statement, setting: Option<Setting>)
    | TemplateOpen(name: Option<string>)
    | GovernanceOpen
    | GovernanceUse(name: Option<string>)
    | CloseBrace
    | Text(statement: Statement, setting: Option<Setting>)

  datatype Line = Line(indent: nat, token: Token)

  datatype SyntaxError =
    | UnknownBlockType
    | BadLine
    | InvalidLoopCount
    | InvalidFunction
    | InvalidCaseValue
    | MissingMatchValue
    | InvalidTemplate
    | InvalidUse
    | UnknownTemplate
    | BadSetting

  /** A parsed value and the line where parsing stopped, or an error. */
  datatype Parse<+T> = Parsed(value: T, next: nat) | Error(error: SyntaxError)

  /** Lines whose text ends in a colon. */
  predicate EndsWithColon(t: Token) {
    match t
    case CaseHeader(_, colon) => colon
    case Blank => false
    case Text(_, _) => false
    case TemplateOpen(_) => false
    case GovernanceOpen => false
    case GovernanceUse(_) => false
    case CloseBrace => false
    case _ => true
  }

  /** A line given to the statement parser. Headers are no statements, but any other line that ends
      in a colon may be one; only a match ever asks. */
  function AsStatement(t: Token): Statement {
    match t
    case Blank => Ignored
    case Text(s, _) => s
    case OtherHeader(s, _) => s
    case _ => Unknown
  }

  /** The operations of one statement line: none for a comment or a no-op. */
  function StatementOps(t: Token): Option<seq<Op>> {
    match AsStatement(t)
    case Operation(p) => Some(if p.Nop? then [] else [Op.Do(p)])
    case Ignored => Some([])
    case Unknown => None
  }

  predicate Ends(lines: seq<Line>, i: nat, base: nat)
    requires i <= |lines|
  {
    i == |lines| || (!lines[i].token.Blank? && lines[i].indent <= base)
  }

  /** A block: lines deeper than `base`, until one that is not; blank lines are skipped. */
  function ParseBlock(lines: seq<Line>, i: nat, base: nat): (r: Parse<seq<Op>>)
    requires i <= |lines|
    ensures r.Parsed? ==> i <= r.next <= |lines|
    decreases |lines| - i, 3
  {
    if Ends(lines, i, base) then Parsed([], i)
    else if lines[i].token.Blank? then ParseBlock(lines, i + 1, base)
    else match ParseItem(lines, i, base)
      case Error(e) => Error(e)
      case Parsed(ops, n) =>
        match ParseBlock(lines, n, base)
        case Error(e) => Error(e)
        case Parsed(rest, m) => Parsed(ops + rest, m)
  }

  /** One statement or nested block inside a block; a no-op leaves nothing. */
  function ParseItem(lines: seq<Line>, i: nat, base: nat): (r: Parse<seq<Op>>)
    requires i < |lines|
    ensures r.Parsed? ==> i < r.next <= |lines|
    decreases |lines| - i, 2
  {
    var t := lines[i].token;
    if IsBlockHeader(t) then
      match ParseHeader(lines, i) {
        case Error(e) => Error(e)
        case Parsed(op, n) => Parsed([op], n)
      }
    else if t.IfPassedHeader? || t.ElseHeader? then
      // the deeper lines are taken out and parsed on their own
      var n := SwallowEnd(lines, i + 1, base);
      match ParseBlock(Swallow(lines, i + 1, n), 0, base + 1) {
        case Error(e) => Error(e)
        case Parsed(ops, _) => Parsed([if t.ElseHeader? then ElseBlock(ops) else IfPassed(ops)], n)
      }
    else if EndsWithColon(t) then Error(UnknownBlockType)
    else match StatementOps(t)
      case Some(ops) => Parsed(ops, i + 1)
      case None => Error(BadLine)
  }

  /** Headers with a parser of their own, wherever they stand. */
  predicate IsBlockHeader(t: Token) {
    t.IfHeader? || t.WhileHeader? || t.MatchHeader? || t.LoopHeader? || t.DefHeader?
  }

  /** The first line at or after i, blank lines aside, that is not deeper than `base`. */
  function SwallowEnd(lines: seq<Line>, i: nat, base: nat): (n: nat)
    requires i <= |lines|
    ensures i <= n <= |lines|
    decreases |lines| - i
  {
    if Ends(lines, i, base) then i else SwallowEnd(lines, i + 1, base)
  }

  function Swallow(lines: seq<Line>, i: nat, n: nat): (r: seq<Line>)
    requires i <= n <= |lines|
    ensures |r| <= n - i
    decreases n - i
  {
    if i == n then []
    else (if lines[i].token.Blank? then [] else [lines[i]]) + Swallow(lines, i + 1, n)
  }

  function ParseHeader(lines: seq<Line>, i: nat): (r: Parse<Op>)
    requires i < |lines| && IsBlockHeader(lines[i].token)
    ensures r.Parsed? ==> i < r.next <= |lines|
    decreases |lines| - i, 1
  {
    match lines[i].token
    case IfHeader => ParseIf(lines, i)
    case WhileHeader => ParseWhile(lines, i)
    case MatchHeader => ParseMatch(lines, i)
    case LoopHeader(count) =>
      if count.None? then Error(InvalidLoopCount)
      else (match ParseBlock(lines, i + 1, lines[i].indent)
            case Error(e) => Error(e)
            case Parsed(body, n) => Parsed(Loop(count.value, body), n))
    case DefHeader(signature) =>
      if signature.None? then Error(InvalidFunction)
      else (match ParseBlock(lines, i + 1, lines[i].indent)
            case Error(e) => Error(e)
            case Parsed(body, n) => Parsed(Def(signature.value.0, signature.value.1, body), n))
  }

  /** The else line is looked for where the then block stopped, at whatever indent. */
  function ParseIf(lines: seq<Line>, i: nat): (r: Parse<Op>)
    requires i < |lines|
    ensures r.Parsed? ==> i < r.next <= |lines|
    decreases |lines| - i, 0
  {
    match ParseBlock(lines, i + 1, lines[i].indent)
    case Error(e) => Error(e)
    case Parsed(thn, n) =>
      if n < |lines| && lines[n].token.ElseHeader? then
        match ParseBlock(lines, n + 1, lines[i].indent) {
          case Error(e) => Error(e)
          case Parsed(els, m) => Parsed(If([], thn, Block(els)), m)
        }
      else Parsed(If([], thn, Absent), n)
  }

  /** The last explicit condition, if any, and the operations of a while body. */
  datatype WhileParts = WhileParts(cond: Option<seq<Op>>, body: seq<Op>)

  function ParseWhile(lines: seq<Line>, i: nat): (r: Parse<Op>)
    requires i < |lines|
    ensures r.Parsed? ==> i < r.next <= |lines|
    decreases |lines| - i, 0
  {
    match WhileItems(lines, i + 1, lines[i].indent, WhileParts(None, []))
    case Error(e) => Error(e)
    case Parsed(parts, n) => Parsed(WhileOp(parts), n)
  }

  /** Without an explicit condition the first operation of the body becomes the condition. */
  function WhileOp(parts: WhileParts): Op {
    match parts.cond
    case Some(cond) => While(cond, parts.body)
    case None => if parts.body == [] then While([], []) else While([parts.body[0]], parts.body[1..])
  }

  function WhileItems(lines: seq<Line>, i: nat, indent: nat, parts: WhileParts): (r: Parse<WhileParts>)
    requires i <= |lines|
    ensures r.Parsed? ==> i <= r.next <= |lines|
    decreases |lines| - i, 3
  {
    if i == |lines| || lines[i].indent <= indent then Parsed(parts, i)
    else
      var t := lines[i].token;
      if t.ConditionHeader? then
        match ParseBlock(lines, i + 1, lines[i].indent) {
          case Error(e) => Error(e)
          case Parsed(cond, n) => WhileItems(lines, n, indent, parts.(cond := Some(cond)))
        }
      else if IsBlockHeader(t) && !t.DefHeader? then
        match ParseHeader(lines, i) {
          case Error(e) => Error(e)
          case Parsed(op, n) => WhileItems(lines, n, indent, parts.(body := parts.body + [op]))
        }
      else if EndsWithColon(t) then Error(UnknownBlockType)
      else match StatementOps(t)
        case Some(ops) => WhileItems(lines, i + 1, indent, parts.(body := parts.body + ops))
        case None => Error(BadLine)
  }

  datatype MatchParts = MatchParts(value: seq<Op>, cases: seq<Case>, default: MaybeBlock)

  function ParseMatch(lines: seq<Line>, i: nat): (r: Parse<Op>)
    requires i < |lines|
    ensures r.Parsed? ==> i < r.next <= |lines|
    decreases |lines| - i, 0
  {
    match MatchItems(lines, i + 1, lines[i].indent, MatchParts([], [], Absent))
    case Error(e) => Error(e)
    case Parsed(parts, n) =>
      if parts.value == [] then Error(MissingMatchValue)
      else Parsed(Match(parts.value, parts.cases, parts.default), n)
  }

  function MatchItems(lines: seq<Line>, i: nat, indent: nat, parts: MatchParts): (r: Parse<MatchParts>)
    requires i <= |lines|
    ensures r.Parsed? ==> i <= r.next <= |lines|
    decreases |lines| - i, 3
  {
    if i == |lines| || lines[i].indent <= indent then Parsed(parts, i)
    else
      var t := lines[i].token;
      if t.ValueHeader? || t.DefaultHeader? || (t.CaseHeader? && t.value.Some?) then
        match ParseBlock(lines, i + 1, lines[i].indent) {
          case Error(e) => Error(e)
          case Parsed(ops, n) => MatchItems(lines, n, indent, AddSection(parts, t, ops))
        }
      else if t.CaseHeader? then Error(InvalidCaseValue)
      else match StatementOps(t)
        case Some(ops) => MatchItems(lines, i + 1, indent, parts.(value := parts.value + ops))
        case None => Error(BadLine)
  }

  function AddSection(parts: MatchParts, t: Token, ops: seq<Op>): MatchParts
    requires t.ValueHeader? || t.DefaultHeader? || (t.CaseHeader? && t.value.Some?)
  {
    match t
    case ValueHeader => parts.(value := ops)
    case CaseHeader(v, _) => parts.(cases := parts.cases + [Case(Number(v.value), ops)])
    case DefaultHeader => parts.(default := Block(ops))
  }
}
