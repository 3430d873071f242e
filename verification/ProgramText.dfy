/** Whole program texts: code between template blocks, template uses and governance blocks, written out
    and read by the top loop. */
module ProgramText {
  import opened Values
  import opened Ast
  import opened ParserSpec
  import opened Printer
  import opened RoundTrip
  import opened LineCount
  import opened Lifecycle
  import opened Roles
  import opened ParseDsl
  import opened ProgramRoundTrip

  datatype Item =
    | CodeItem(op: Op)
    | TemplateItem(name: string, settings: seq<Setting>)
    | UseItem(name: string)
    | GovernanceItem(settings: seq<Setting>)

  // ---------- writing ----------

  function SettingLines(settings: seq<Setting>, d: nat): seq<Line> {
    if settings == [] then []
    else [Line(d, Token.Text(Unknown, Some(settings[0])))] + SettingLines(settings[1..], d)
  }

  function ItemText(item: Item, d: nat, step: nat): (r: seq<Line>)
    ensures r != [] && r[0] == Line(d, FirstOf(item))
  {
    match item
    case CodeItem(op) => PrintOp(op, d, step)
    case TemplateItem(_, settings) =>
      [Line(d, FirstOf(item))] + SettingLines(settings, d + step) + [Line(d, CloseBrace)]
    case UseItem(_) => [Line(d, FirstOf(item))]
    case GovernanceItem(settings) =>
      [Line(d, FirstOf(item))] + SettingLines(settings, d + step) + [Line(d, CloseBrace)]
  }

  function FirstOf(item: Item): Token {
    match item
    case CodeItem(op) => FirstToken(op)
    case TemplateItem(name, _) => TemplateOpen(Some(name))
    case UseItem(name) => GovernanceUse(Some(name))
    case GovernanceItem(_) => GovernanceOpen
  }

  function ProgramLines(items: seq<Item>, d: nat, step: nat): seq<Line> {
    if items == [] then [] else ItemText(items[0], d, step) + ProgramLines(items[1..], d, step)
  }

  // ---------- what it says ----------

  function Sets(settings: seq<Setting>): seq<Directive> {
    if settings == [] then [] else [Set(settings[0])] + Sets(settings[1..])
  }

  function Says(item: Item): seq<Directive> {
    match item
    case CodeItem(_) => []
    case TemplateItem(name, settings) => [Open(name)] + Sets(settings) + [Close]
    case UseItem(name) => [Use(name)]
    case GovernanceItem(settings) => [Begin] + Sets(settings) + [Close]
  }

  function Directives(items: seq<Item>): seq<Directive> {
    if items == [] then [] else Says(items[0]) + Directives(items[1..])
  }

  function OpsOf(items: seq<Item>): seq<Op> {
    if items == [] then [] else (if items[0].CodeItem? then [items[0].op] else []) + OpsOf(items[1..])
  }

  /** Code that can be written, anywhere in the text. */
  predicate Writable(items: seq<Item>) {
    forall i :: 0 <= i < |items| && items[i].CodeItem? ==> CanonicalOp(items[i].op) && PlainOp(items[i].op)
  }

  /** Every template is defined before it is used. */
  predicate UsesKnown(items: seq<Item>, known: set<string>)
  {
    items == []
    || ((items[0].UseItem? ==> items[0].name in known)
        && UsesKnown(items[1..], if items[0].TemplateItem? then known + {items[0].name} else known))
  }

  // ---------- directives in a row ----------

  function ObeyAll(s: Desk, ds: seq<Directive>): Option<Desk>
    decreases |ds|
  {
    if ds == [] then Some(s)
    else match Obey(s, ds[0])
      case None => None
      case Some(s1) => ObeyAll(s1, ds[1..])
  }

  lemma {:induction false} ObeyAppend(s: Desk, xs: seq<Directive>, ys: seq<Directive>)
    ensures ObeyAll(s, xs + ys) ==
            match ObeyAll(s, xs)
            case None => None
            case Some(s1) => ObeyAll(s1, ys)
    decreases |xs|
  {
    hide Obey;
    if xs == [] {
      assert xs + ys == ys;
    } else {
      assert (xs + ys)[1..] == xs[1..] + ys;
      match Obey(s, xs[0])
      case None =>
      case Some(s1) => ObeyAppend(s1, xs[1..], ys);
    }
  }

  /** Settings are always obeyed, and open or close nothing. */
  lemma {:induction false} SetsObeyed(s: Desk, settings: seq<Setting>)
    ensures var r := ObeyAll(s, Sets(settings));
            && r.Some? && r.value.inTemplate == s.inTemplate && r.value.inGovernance == s.inGovernance
            && r.value.templates == s.templates && r.value.name == s.name
    decreases |settings|
  {
    hide Applied;
    if settings != [] {
      var s1 := Obey(s, Set(settings[0])).value;
      SetsObeyed(s1, settings[1..]);
      assert Sets(settings)[1..] == Sets(settings[1..]);
    }
  }

  /** The program after more directives. */
  function Told(p: Program, desk: Desk, ds: seq<Directive>): Program {
    p.(desk := desk, heard := p.heard + ds)
  }

  lemma ToldMore(p: Program, desk1: Desk, xs: seq<Directive>, desk2: Desk, ys: seq<Directive>)
    ensures Told(Told(p, desk1, xs), desk2, ys) == Told(p, desk2, xs + ys)
  {
    assert p.heard + xs + ys == p.heard + (xs + ys);
  }

  // ---------- reading it back ----------

  /** One line that is heard as a directive. */
  lemma HearsOne(lines: seq<Line>, i: nat, p: Program, d: Directive, desk: Desk)
    requires i < |lines| && !lines[i].token.Blank?
    requires Read(lines[i].token, p.desk.inGovernance, p.desk.inTemplate) == Heard(d)
    requires Obey(p.desk, d) == Some(desk)
    ensures ReadAll(lines, i, p) == ReadAll(lines, i + 1, Told(p, desk, [d]))
  {
    hide Obey, Read, ReadAll;
    ReadHeard(lines, i, p);
  }

  lemma {:induction false} HearsSettings(lines: seq<Line>, i: nat, p: Program, settings: seq<Setting>, d: nat)
    requires Stands(lines, i, SettingLines(settings, d)) && (p.desk.inGovernance || p.desk.inTemplate)
    ensures ObeyAll(p.desk, Sets(settings)).Some? && |SettingLines(settings, d)| == |settings|
    ensures ReadAll(lines, i, p) ==
            ReadAll(lines, i + |settings|, Told(p, ObeyAll(p.desk, Sets(settings)).value, Sets(settings)))
    decreases |settings|
  {
    hide ReadAll, Stands, Applied;
    SetsObeyed(p.desk, settings);
    StandsEnd(lines, i, SettingLines(settings, d));
    if settings == [] {
      assert p.heard + [] == p.heard;
      assert Told(p, p.desk, []) == p;
    } else {
      var s, rest := settings[0], settings[1..];
      var line := Line(d, Token.Text(Unknown, Some(s)));
      StandsSplit(lines, i, [line], SettingLines(rest, d));
      StandsFirst(lines, i, [line]);
      var desk := Obey(p.desk, Set(s)).value;
      HearsOne(lines, i, p, Set(s), desk);
      var q := Told(p, desk, [Set(s)]);
      HearsSettings(lines, i + 1, q, rest, d);
      assert Sets(settings) == [Set(s)] + Sets(rest) && Sets(settings)[1..] == Sets(rest);
      ToldMore(p, desk, [Set(s)], ObeyAll(desk, Sets(rest)).value, Sets(rest));
    }
  }

  lemma StandsEnd(lines: seq<Line>, i: nat, part: seq<Line>)
    requires Stands(lines, i, part)
    ensures i + |part| <= |lines|
  {
  }

  /** A block of settings between its opening line and the closing brace. */
  lemma HearsBlock(lines: seq<Line>, i: nat, p: Program, item: Item, d: nat, step: nat)
    requires (item.TemplateItem? || item.GovernanceItem?) && NoBlockOpen(p) && Stands(lines, i, ItemText(item, d, step))
    ensures i + |ItemText(item, d, step)| <= |lines| && ObeyAll(p.desk, Says(item)).Some?
    ensures var desk := ObeyAll(p.desk, Says(item)).value;
            && NoBlockOpen(Told(p, desk, Says(item)))
            && desk.templates.Keys == p.desk.templates.Keys + (if item.TemplateItem? then {item.name} else {})
            && ReadAll(lines, i, p) == ReadAll(lines, i + |ItemText(item, d, step)|, Told(p, desk, Says(item)))
  {
    hide ReadAll, Stands, SettingLines, Sets;
    var open := if item.TemplateItem? then Open(item.name) else Begin;
    var settings := item.settings;
    var ls := SettingLines(settings, d + step);
    var first := Line(d, FirstOf(item));
    StandsEnd(lines, i, ItemText(item, d, step));
    StandsSplit(lines, i, [first] + ls, [Line(d, CloseBrace)]);
    StandsSplit(lines, i, [first], ls);
    StandsFirst(lines, i, [first]);
    var desk1 := Obey(p.desk, open).value;
    HearsOne(lines, i, p, open, desk1);
    var q := Told(p, desk1, [open]);
    HearsSettings(lines, i + 1, q, settings, d + step);
    SetsObeyed(desk1, settings);
    var desk2 := ObeyAll(desk1, Sets(settings)).value;
    var r := Told(q, desk2, Sets(settings));
    var n := i + 1 + |ls|;
    StandsFirst(lines, n, [Line(d, CloseBrace)]);
    var desk3 := Obey(desk2, Close).value;
    HearsOne(lines, n, r, Close, desk3);
    ToldMore(p, desk1, [open], desk2, Sets(settings));
    ToldMore(p, desk2, [open] + Sets(settings), desk3, [Close]);
    ObeyBlock(p.desk, open, desk1, settings, desk2, desk3);
  }

  lemma ObeyBlock(s: Desk, open: Directive, desk1: Desk, settings: seq<Setting>, desk2: Desk, desk3: Desk)
    requires Obey(s, open) == Some(desk1) && ObeyAll(desk1, Sets(settings)) == Some(desk2)
    requires Obey(desk2, Close) == Some(desk3)
    ensures ObeyAll(s, [open] + Sets(settings) + [Close]) == Some(desk3)
  {
    hide Obey, Sets;
    ObeyAppend(s, [open] + Sets(settings), [Close]);
    ObeyAppend(s, [open], Sets(settings));
    assert [open][1..] == [] && [Close][1..] == [];
  }

  lemma ProgramUnfold(items: seq<Item>, d: nat, step: nat)
    ensures items == [] ==> ProgramLines(items, d, step) == [] && Directives(items) == [] && OpsOf(items) == []
    ensures items != [] ==>
              && ProgramLines(items, d, step) == ItemText(items[0], d, step) + ProgramLines(items[1..], d, step)
              && Directives(items) == Says(items[0]) + Directives(items[1..])
              && OpsOf(items) == (if items[0].CodeItem? then [items[0].op] else []) + OpsOf(items[1..])
  {
  }

  /** Behind an item stands the next one, or what stands behind the text; neither is deeper, blank or
      an else line. */
  lemma NextItem(lines: seq<Line>, m: nat, rest: seq<Item>, d: nat, step: nat, open: bool)
    requires Stands(lines, m, ProgramLines(rest, d, step)) && Writable(rest)
    requires Follows(lines, m + |ProgramLines(rest, d, step)|, d, true)
    ensures Follows(lines, m, d, open)
  {
    hide ItemText, Stands, PlainOp, CanonicalOp;
    ProgramUnfold(rest, d, step);
    if rest != [] {
      StandsSplit(lines, m, ItemText(rest[0], d, step), ProgramLines(rest[1..], d, step));
      StandsFirst(lines, m, ItemText(rest[0], d, step));
      if rest[0].CodeItem? { NoElse(rest[0].op); }
    }
  }

  lemma NoElse(op: Op)
    requires PlainOp(op)
    ensures !FirstToken(op).ElseHeader? && !FirstToken(op).Blank?
  {
  }

  /** A code item is read as its operation. */
  lemma ReadsCode(lines: seq<Line>, i: nat, p: Program, op: Op, d: nat, step: nat)
    requires CanonicalOp(op) && PlainOp(op) && step > 0 && NoBlockOpen(p)
    requires Stands(lines, i, PrintOp(op, d, step)) && Follows(lines, i + |PrintOp(op, d, step)|, d, OpenOp(op))
    ensures i + |PrintOp(op, d, step)| <= |lines|
    ensures ReadAll(lines, i, p) == ReadAll(lines, i + |PrintOp(op, d, step)|, p.(ops := p.ops + [op]))
  {
    hide PrintOp, CanonicalOp, PlainOp, Stands, ReadAll, CodeAt, Read, ParseHeader, OpenOp;
    var m := i + |PrintOp(op, d, step)|;
    StandsEnd(lines, i, PrintOp(op, d, step));
    StandsFirst(lines, i, PrintOp(op, d, step));
    ReadOp(lines, i, p, op, d);
    if op.Do? { DoLine(op, d, step); } else { HeaderBack(lines, i, op, d, step); }
    CodeIs(lines, i, op, m);
    ReadCode(lines, i, p);
  }

  /** A text, whatever stands behind it: exactly its operations and its directives are read, and it is
      refused exactly when a template is used before it is defined. */
  lemma {:induction false} ReadsText(lines: seq<Line>, i: nat, items: seq<Item>, d: nat, step: nat, p: Program)
    requires Writable(items) && step > 0 && NoBlockOpen(p)
    requires Stands(lines, i, ProgramLines(items, d, step))
    requires Follows(lines, i + |ProgramLines(items, d, step)|, d, true)
    ensures i <= |lines|
    ensures var desk, end := ObeyAll(p.desk, Directives(items)), i + |ProgramLines(items, d, step)|;
            && (desk.Some? <==> UsesKnown(items, p.desk.templates.Keys))
            && ReadAll(lines, i, p) ==
               if desk.None? then Error(UnknownTemplate)
               else ReadAll(lines, end, Program(p.ops + OpsOf(items), desk.value, p.heard + Directives(items)))
    decreases |items|
  {
    hide ReadAll, Stands, ProgramLines, ItemText, Directives, OpsOf, Writable, Says;
    ProgramUnfold(items, d, step);
    if items == [] {
      assert p.ops + [] == p.ops && p.heard + [] == p.heard;
    } else {
      var item, rest := items[0], items[1..];
      var m := i + |ItemText(item, d, step)|;
      StandsSplit(lines, i, ItemText(item, d, step), ProgramLines(rest, d, step));
      ObeyAppend(p.desk, Says(item), Directives(rest));
      WritableRest(items);
      ReadsItem(lines, i, items, d, step, p);
      var desk1 := ObeyAll(p.desk, Says(item));
      if desk1.Some? {
        var code := if item.CodeItem? then [item.op] else [];
        var q := Told(p, desk1.value, Says(item)).(ops := p.ops + code);
        var keys := p.desk.templates.Keys;
        assert desk1.value.templates.Keys == if item.TemplateItem? then keys + {item.name} else keys;
        ReadsText(lines, m, rest, d, step, q);
        assert p.ops + code + OpsOf(rest) == p.ops + (code + OpsOf(rest));
        assert p.heard + Says(item) + Directives(rest) == p.heard + (Says(item) + Directives(rest));
      }
    }
  }

  lemma WritableRest(items: seq<Item>)
    requires Writable(items) && items != []
    ensures Writable(items[1..]) && (items[0].CodeItem? ==> CanonicalOp(items[0].op) && PlainOp(items[0].op))
  {
    hide CanonicalOp, PlainOp;
  }

  /** The first item. */
  lemma ReadsItem(lines: seq<Line>, i: nat, items: seq<Item>, d: nat, step: nat, p: Program)
    requires items != [] && Writable(items) && step > 0 && NoBlockOpen(p)
    requires Stands(lines, i, ItemText(items[0], d, step))
    requires var m := i + |ItemText(items[0], d, step)|;
             Stands(lines, m, ProgramLines(items[1..], d, step))
             && Follows(lines, m + |ProgramLines(items[1..], d, step)|, d, true)
    ensures var item, desk := items[0], ObeyAll(p.desk, Says(items[0]));
            && (desk.Some? <==> (item.UseItem? ==> item.name in p.desk.templates))
            && (desk.None? ==> ReadAll(lines, i, p) == Error(UnknownTemplate))
            && (desk.Some? ==>
                  var code := if item.CodeItem? then [item.op] else [];
                  var q := Told(p, desk.value, Says(item)).(ops := p.ops + code);
                  && NoBlockOpen(q) && ReadAll(lines, i, p) == ReadAll(lines, i + |ItemText(item, d, step)|, q)
                  && desk.value.templates.Keys ==
                     p.desk.templates.Keys + (if item.TemplateItem? then {item.name} else {}))
  {
    hide ReadAll, Stands, ProgramLines, Writable, PrintOp, SettingLines, OpenOp;
    var item, rest := items[0], items[1..];
    var m := i + |ItemText(item, d, step)|;
    StandsEnd(lines, i, ItemText(item, d, step));
    StandsFirst(lines, i, ItemText(item, d, step));
    WritableRest(items);
    match item
    case CodeItem(op) =>
      NextItem(lines, m, rest, d, step, OpenOp(op));
      ReadsCode(lines, i, p, op, d, step);
      assert p.heard + [] == p.heard;
    case UseItem(name) =>
      ReadHeard(lines, i, p);
      assert [Use(name)][1..] == [] && p.ops + [] == p.ops;
    case _ =>
      HearsBlock(lines, i, p, item, d, step);
      assert p.ops + [] == p.ops;
  }

  /** A program text is accepted if and only if every template is defined before it is used. Then its
      operations are the code in it, in order, and its directives are what it says, in order. */
  lemma TextRead(items: seq<Item>, d: nat, step: nat)
    requires Writable(items) && step > 0
    ensures var r := ReadAll(ProgramLines(items, d, step), 0, EMPTY);
            && (r.Parsed? <==> UsesKnown(items, {}))
            && (r.Error? ==> r == Error(UnknownTemplate))
            && (r.Parsed? ==> r.value.ops == OpsOf(items) && r.value.heard == Directives(items) && NoBlockOpen(r.value))
  {
    hide ReadAll, Stands, ProgramLines, Directives, OpsOf, Writable, UsesKnown;
    var lines := ProgramLines(items, d, step);
    assert Stands(lines, 0, lines) by { TextStands(lines); }
    var none: map<string, Config> := map[];
    assert none.Keys == {};
    ReadsText(lines, 0, items, d, step, EMPTY);
    assert [] + OpsOf(items) == OpsOf(items) && [] + Directives(items) == Directives(items);
    var desk := ObeyAll(START, Directives(items));
    if desk.Some? {
      DeskCloses(START, items);
      ReadNothing(lines, Program(OpsOf(items), desk.value, Directives(items)));
    }
  }

  /** The configuration of an accepted text: each scalar setting is the last one set in a governance block,
      otherwise the value of the first used template that sets it, and comes from nowhere else; the roles
      are those of the first used template that has any, unless one was named before, and then the roles
      of the governance blocks. */
  lemma TextConfigured(items: seq<Item>, d: nat, step: nat, f: Field)
    requires Writable(items) && step > 0 && UsesKnown(items, {})
    ensures var r := ReadAll(ProgramLines(items, d, step), 0, EMPTY); var ds := Directives(items);
            && r.Parsed?
            && var config := r.value.desk.config; var final := Get(config, f);
            && (forall j: nat :: LastExplicit(ds, |ds|, j, f) ==> final == Value(ds[j].setting, f))
            && (forall j: nat, v :: FirstSupply(ds, |ds|, j, f, v) ==> final == Some(v))
            && (final.Some? ==>
                  || (exists j: nat :: LastExplicit(ds, |ds|, j, f))
                  || (exists j: nat, v :: FirstSupply(ds, |ds|, j, f, v)))
            && (forall j: nat, roles :: FirstLent(ds, |ds|, j, roles) ==>
                  config.requiredRoles == roles + OwnRoles(ds, |ds|))
            && ((forall j: nat, roles :: !FirstLent(ds, |ds|, j, roles)) ==> config.requiredRoles == OwnRoles(ds, |ds|))
  {
    hide ReadAll, Get, FirstSupply, FirstLent, OwnRoles, Writable, UsesKnown, ProgramLines, Directives, OpsOf;
    TextRead(items, d, step);
    ProgramSettings(ProgramLines(items, d, step), f);
    ProgramRoles(ProgramLines(items, d, step));
  }

  /** Lines that are wrong wherever the top level meets them. */
  function Fault(t: Token): Option<SyntaxError> {
    match t
    case TemplateOpen(None) => Some(InvalidTemplate)
    case GovernanceUse(None) => Some(InvalidUse)
    case LoopHeader(None) => Some(InvalidLoopCount)
    case DefHeader(None) => Some(InvalidFunction)
    case IfPassedHeader => Some(UnknownBlockType)
    case ConditionHeader => Some(UnknownBlockType)
    case ValueHeader => Some(UnknownBlockType)
    case DefaultHeader => Some(UnknownBlockType)
    case CaseHeader(_, colon) => Some(if colon then UnknownBlockType else BadLine)
    case OtherHeader(_, _) => Some(UnknownBlockType)
    case CloseBrace => Some(BadLine)
    case Text(Unknown, _) => Some(BadLine)
    case _ => None
  }

  /** A text is refused at its first faulty line, with the error for that line, whatever follows. */
  lemma FaultRefused(items: seq<Item>, d: nat, step: nat, t: Token, more: seq<Line>)
    requires Writable(items) && step > 0 && UsesKnown(items, {}) && Fault(t).Some?
    ensures ReadAll(ProgramLines(items, d, step) + [Line(d, t)] + more, 0, EMPTY) == Error(Fault(t).value)
  {
    hide ReadAll, Stands, ProgramLines, Directives, OpsOf, Writable, UsesKnown;
    var text := ProgramLines(items, d, step);
    var lines := text + [Line(d, t)] + more;
    assert Stands(lines, 0, text) by { FrontStands(text, [Line(d, t)] + more, lines); }
    var none: map<string, Config> := map[];
    assert none.Keys == {};
    ReadsText(lines, 0, items, d, step, EMPTY);
    var desk := ObeyAll(START, Directives(items)).value;
    DeskCloses(START, items);
    FaultRead(lines, |text|, Program([] + OpsOf(items), desk, [] + Directives(items)));
  }

  lemma FrontStands(front: seq<Line>, back: seq<Line>, lines: seq<Line>)
    requires lines == front + back
    ensures Stands(lines, 0, front)
  {
  }

  lemma FaultRead(lines: seq<Line>, i: nat, p: Program)
    requires i < |lines| && Fault(lines[i].token).Some? && NoBlockOpen(p)
    ensures ReadAll(lines, i, p) == Error(Fault(lines[i].token).value)
  {
    hide ParseBlock, ParseIf, ParseWhile, ParseMatch;
  }

  /** Inside a governance or template block every line must be a setting. */
  lemma BlockFaultRefused(lines: seq<Line>, i: nat, p: Program)
    requires i < |lines| && (p.desk.inGovernance || p.desk.inTemplate)
    requires lines[i].token.Text? || IsBlockHeader(lines[i].token) || lines[i].token.ElseHeader?
    requires SettingOf(lines[i].token).None?
    ensures ReadAll(lines, i, p) == Error(BadSetting)
  {
  }

  lemma TextStands(lines: seq<Line>)
    ensures Stands(lines, 0, lines)
  {
  }

  /** Between items no block is open. */
  lemma {:induction false} DeskCloses(s: Desk, items: seq<Item>)
    requires !s.inGovernance && !s.inTemplate && ObeyAll(s, Directives(items)).Some?
    ensures var r := ObeyAll(s, Directives(items)).value; !r.inGovernance && !r.inTemplate
    decreases |items|
  {
    hide Sets;
    if items != [] {
      var item := items[0];
      ObeyAppend(s, Says(item), Directives(items[1..]));
      if item.TemplateItem? || item.GovernanceItem? {
        var open := if item.TemplateItem? then Open(item.name) else Begin;
        var desk1 := Obey(s, open).value;
        SetsObeyed(desk1, item.settings);
        var desk2 := ObeyAll(desk1, Sets(item.settings)).value;
        ObeyBlock(s, open, desk1, item.settings, desk2, Obey(desk2, Close).value);
      } else if item.UseItem? {
        assert [Use(item.name)][1..] == [];
      }
      DeskCloses(ObeyAll(s, Says(item)).value, items[1..]);
    }
  }
}
