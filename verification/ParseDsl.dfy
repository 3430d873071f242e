/** The top loop of the parser: code, governance blocks and templates
    (crates/icn-covm/src/compiler/parse_dsl.rs). */
module ParseDsl {
  import opened Values
  import opened Ast
  import opened ParserSpec
  import opened Lifecycle
  import opened Roles
  import Parser

  /** What has been read: the code, the governance state, and the directives met so far. */
  datatype Program = Program(ops: seq<Op>, desk: Desk, heard: seq<Directive>)

  const EMPTY := Program([], START, [])

  /** A line of the top level: a directive, a faulty directive, or code. */
  datatype Reading = Heard(directive: Directive) | Wrong(error: SyntaxError) | Code

  function SettingOf(t: Token): Option<Setting> {
    match t
    case Text(_, setting) => setting
    case OtherHeader(_, setting) => setting
    case _ => None
  }

  function Read(t: Token, inGovernance: bool, inTemplate: bool): Reading {
    if t.TemplateOpen? then
      if t.name.Some? then Heard(Open(t.name.value)) else Wrong(InvalidTemplate)
    else if inTemplate && t.CloseBrace? then Heard(Close)
    else if t.GovernanceUse? then
      if t.name.Some? then Heard(Use(t.name.value)) else Wrong(InvalidUse)
    else if t.GovernanceOpen? then Heard(Begin)
    else if inGovernance && t.CloseBrace? then Heard(Close)
    else if inGovernance || inTemplate then
      var setting := SettingOf(t);
      if setting.Some? then Heard(Set(setting.value)) else Wrong(BadSetting)
    else Code
  }

  /** A line of code at the top level. */
  function CodeAt(lines: seq<Line>, i: nat): (r: Parse<seq<Op>>)
    requires i < |lines|
    ensures r.Parsed? ==> i < r.next <= |lines|
  {
    var t := lines[i].token;
    if IsBlockHeader(t) then
      match ParseHeader(lines, i) {
        case Error(e) => Error(e)
        case Parsed(op, n) => Parsed([op], n)
      }
    else if EndsWithColon(t) then Error(UnknownBlockType)
    else match StatementOps(t)
      case Some(ops) => Parsed(ops, i + 1)
      case None => Error(BadLine)
  }

  function ReadLine(lines: seq<Line>, i: nat, p: Program): (r: Parse<Program>)
    requires i < |lines|
    ensures r.Parsed? ==> i < r.next <= |lines|
  {
    var t := lines[i].token;
    if t.Blank? then Parsed(p, i + 1)
    else match Read(t, p.desk.inGovernance, p.desk.inTemplate)
      case Wrong(e) => Error(e)
      case Heard(d) =>
        (match Obey(p.desk, d)
         case None => Error(UnknownTemplate)
         case Some(desk) => Parsed(p.(desk := desk, heard := p.heard + [d]), i + 1))
      case Code =>
        match CodeAt(lines, i)
        case Error(e) => Error(e)
        case Parsed(ops, n) => Parsed(p.(ops := p.ops + ops), n)
  }

  /** All lines from i on. A program that is accepted has been read to its last line. */
  function ReadAll(lines: seq<Line>, i: nat, p: Program): (r: Parse<Program>)
    requires i <= |lines|
    ensures r.Parsed? ==> r.next == |lines|
    decreases |lines| - i
  {
    if i == |lines| then Parsed(p, i)
    else match ReadLine(lines, i, p)
      case Error(e) => Error(e)
      case Parsed(q, n) => ReadAll(lines, n, q)
  }

  function Accepted(r: Parse<Program>): Parse<(seq<Op>, Config)> {
    match r
    case Error(e) => Error(e)
    case Parsed(p, n) => Parsed((p.ops, p.desk.config), n)
  }

  method ParseDsl(lines: seq<Line>) returns (r: Parse<(seq<Op>, Config)>)
    ensures r == Accepted(ReadAll(lines, 0, EMPTY))
    ensures r.Parsed? ==> r.next == |lines|
  {
    hide Read, ReadLine, CodeAt;
    var i: nat, ops: seq<Op> := 0, [];
    var config := new LifecycleConfig();
    var inGovernance, inTemplate, name := false, false, "";
    var templates: map<string, Config> := map[];
    var current := new LifecycleConfig();
    ghost var heard: seq<Directive> := [];
    while i < |lines|
      invariant i <= |lines| && fresh(config) && fresh(current) && config != current
      invariant ReadAll(lines, 0, EMPTY) ==
                ReadAll(lines, i, Program(ops, Desk(config.View(), inGovernance, inTemplate, name, current.View(),
                                                    templates),
                                          heard))
    {
      ghost var p := Program(ops, Desk(config.View(), inGovernance, inTemplate, name, current.View(), templates),
                             heard);
      var t := lines[i].token;
      if t.Blank? {
        ReadBlank(lines, i, p);
        i := i + 1;
        continue;
      }
      var reading := Read(t, inGovernance, inTemplate);
      match reading
      case Wrong(e) =>
        ReadWrong(lines, i, p);
        return Error(e);
      case Heard(d) =>
        ReadHeard(lines, i, p);
        match d {
          case Open(n) =>
            inTemplate, name := true, n;
            current := new LifecycleConfig();
          case Close =>
            if inTemplate {
              templates := templates[name := current.View()];
              inTemplate := false;
            } else {
              inGovernance := false;
            }
          case Use(n) =>
            if n !in templates { return Error(UnknownTemplate); }
            config.MergeFrom(templates[n]);
          case Begin =>
            inGovernance := true;
          case Set(x) =>
            if inTemplate { current.Assign(x); } else { config.Assign(x); }
        }
        heard := heard + [d];
        i := i + 1;
      case Code =>
        ReadCode(lines, i, p);
        var code := CodeLine(lines, i);
        match code {
          case Error(e) => return Error(e);
          case Parsed(more, n) =>
            ops := ops + more;
            i := n;
        }
    }
    return Parsed((ops, config.View()), i);
  }

  method CodeLine(lines: seq<Line>, i: nat) returns (r: Parse<seq<Op>>)
    requires i < |lines|
    ensures r == CodeAt(lines, i)
  {
    var t := lines[i].token;
    if IsBlockHeader(t) {
      var header := Parser.Header(lines, i);
      match header
      case Error(e) => return Error(e);
      case Parsed(op, n) => return Parsed([op], n);
    }
    if EndsWithColon(t) { return Error(UnknownBlockType); }
    var ops := StatementOps(t);
    if ops.None? { return Error(BadLine); }
    return Parsed(ops.value, i + 1);
  }

  lemma ReadBlank(lines: seq<Line>, i: nat, p: Program)
    requires i < |lines| && lines[i].token.Blank?
    ensures ReadAll(lines, i, p) == ReadAll(lines, i + 1, p)
  {
  }

  lemma ReadWrong(lines: seq<Line>, i: nat, p: Program)
    requires i < |lines| && !lines[i].token.Blank?
             && Read(lines[i].token, p.desk.inGovernance, p.desk.inTemplate).Wrong?
    ensures ReadAll(lines, i, p) == Error(Read(lines[i].token, p.desk.inGovernance, p.desk.inTemplate).error)
  {
  }

  lemma ReadHeard(lines: seq<Line>, i: nat, p: Program)
    requires i < |lines| && !lines[i].token.Blank?
             && Read(lines[i].token, p.desk.inGovernance, p.desk.inTemplate).Heard?
    ensures var d := Read(lines[i].token, p.desk.inGovernance, p.desk.inTemplate).directive;
            ReadAll(lines, i, p) ==
            match Obey(p.desk, d)
            case None => Error(UnknownTemplate)
            case Some(desk) => ReadAll(lines, i + 1, p.(desk := desk, heard := p.heard + [d]))
  {
    hide Obey, Read;
  }

  lemma ReadCode(lines: seq<Line>, i: nat, p: Program)
    requires i < |lines| && !lines[i].token.Blank? && Read(lines[i].token, p.desk.inGovernance, p.desk.inTemplate).Code?
    ensures ReadAll(lines, i, p) ==
            match CodeAt(lines, i)
            case Error(e) => Error(e)
            case Parsed(ops, n) => ReadAll(lines, n, p.(ops := p.ops + ops))
  {
    hide CodeAt, Read;
  }

  /** The configuration of an accepted program is what its directives, taken alone, amount to. */
  lemma {:induction false} DirectivesDecide(lines: seq<Line>, i: nat, p: Program)
    requires i <= |lines| && ObeyTo(p.heard, |p.heard|) == Some(p.desk)
    ensures var r := ReadAll(lines, i, p);
            r.Parsed? ==> ObeyTo(r.value.heard, |r.value.heard|) == Some(r.value.desk)
    decreases |lines| - i
  {
    hide Read, Obey, CodeAt, ObeyTo;
    if i < |lines| {
      var line := ReadLine(lines, i, p);
      if line.Parsed? {
        var q := line.value;
        if q.heard != p.heard { OneMore(p.heard, q.heard[|p.heard|]); }
        DirectivesDecide(lines, line.next, q);
      }
    }
  }

  /** For every accepted program: each scalar setting is the last explicit assignment, otherwise the
      value from the first used template that defined it at that time, otherwise unset. */
  lemma ProgramSettings(lines: seq<Line>, f: Field)
    requires ReadAll(lines, 0, EMPTY).Parsed?
    ensures var p := ReadAll(lines, 0, EMPTY).value; var ds := p.heard; var final := Get(p.desk.config, f);
            && (forall j: nat :: LastExplicit(ds, |ds|, j, f) ==> final == Value(ds[j].setting, f))
            && (forall j: nat, v :: FirstSupply(ds, |ds|, j, f, v) ==> final == Some(v))
            && (final.Some? ==>
                  (exists j: nat :: LastExplicit(ds, |ds|, j, f))
                    || (exists j: nat, v :: FirstSupply(ds, |ds|, j, f, v)))
  {
    hide ReadAll, Get, FirstSupply;
    DirectivesDecide(lines, 0, EMPTY);
    SettingRule(ReadAll(lines, 0, EMPTY).value.heard, f);
  }

  /** For every accepted program: the roles of the first used template that has any, unless a role was
      named before, and then the roles named outside templates, in order. */
  lemma ProgramRoles(lines: seq<Line>)
    requires ReadAll(lines, 0, EMPTY).Parsed?
    ensures var p := ReadAll(lines, 0, EMPTY).value; var ds := p.heard; var final := p.desk.config.requiredRoles;
            && (forall j: nat, roles :: FirstLent(ds, |ds|, j, roles) ==> final == roles + OwnRoles(ds, |ds|))
            && ((forall j: nat, roles :: !FirstLent(ds, |ds|, j, roles)) ==> final == OwnRoles(ds, |ds|))
  {
    hide ReadAll, FirstLent, OwnRoles;
    DirectivesDecide(lines, 0, EMPTY);
    RolesRule(ReadAll(lines, 0, EMPTY).value.heard);
  }

  lemma OneMore(ds: seq<Directive>, d: Directive)
    ensures ObeyTo(ds + [d], |ds| + 1) ==
            match ObeyTo(ds, |ds|)
            case None => None
            case Some(s) => Obey(s, d)
  {
    hide Obey;
    SamePrefix(ds, d, |ds|);
  }

  lemma {:induction false} SamePrefix(ds: seq<Directive>, d: Directive, n: nat)
    requires n <= |ds|
    ensures ObeyTo(ds + [d], n) == ObeyTo(ds, n)
  {
    hide Obey;
    if n > 0 { SamePrefix(ds, d, n - 1); }
  }
}
