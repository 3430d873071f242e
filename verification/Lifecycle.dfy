/** Governance settings in a program's text: the lifecycle configuration, the templates, and the
    directives that change them (crates/icn-covm/src/compiler/parse_dsl.rs). */
module Lifecycle {
  import opened Values
  import opened ParserSpec

  datatype Config = Config(
    quorum: Option<real>,
    threshold: Option<real>,
    minDeliberation: Option<int>,
    expiresIn: Option<int>,
    requiredRoles: seq<string>)

  const DEFAULT := Config(None, None, None, None, [])

  function Or<T>(x: Option<T>, y: Option<T>): Option<T> {
    if x.Some? then x else y
  }

  /** What is unset in c comes from the other configuration. */
  function Merged(c: Config, other: Config): Config {
    Config(Or(c.quorum, other.quorum), Or(c.threshold, other.threshold), Or(c.minDeliberation, other.minDeliberation),
           Or(c.expiresIn, other.expiresIn), if c.requiredRoles == [] then other.requiredRoles else c.requiredRoles)
  }

  function Applied(c: Config, s: Setting): Config {
    match s
    case Quorum(x) => c.(quorum := Some(x))
    case Threshold(x) => c.(threshold := Some(x))
    case MinDeliberation(h) => c.(minDeliberation := Some(h))
    case ExpiresIn(h) => c.(expiresIn := Some(h))
    case RequireRole(r) => c.(requiredRoles := c.requiredRoles + [r])
  }

  class LifecycleConfig {
    var quorum: Option<real>
    var threshold: Option<real>
    var minDeliberation: Option<int>
    var expiresIn: Option<int>
    var requiredRoles: seq<string>

    function View(): Config
      reads this
    {
      Config(quorum, threshold, minDeliberation, expiresIn, requiredRoles)
    }

    constructor ()
      ensures View() == DEFAULT
    {
      quorum, threshold, minDeliberation, expiresIn, requiredRoles := None, None, None, None, [];
    }

    method MergeFrom(other: Config)
      modifies this
      ensures View() == Merged(old(View()), other)
    {
      if quorum.None? { quorum := other.quorum; }
      if threshold.None? { threshold := other.threshold; }
      if minDeliberation.None? { minDeliberation := other.minDeliberation; }
      if expiresIn.None? { expiresIn := other.expiresIn; }
      if requiredRoles == [] { requiredRoles := other.requiredRoles; }
    }

    method Assign(s: Setting)
      modifies this
      ensures View() == Applied(old(View()), s)
    {
      match s
      case Quorum(x) => quorum := Some(x);
      case Threshold(x) => threshold := Some(x);
      case MinDeliberation(h) => minDeliberation := Some(h);
      case ExpiresIn(h) => expiresIn := Some(h);
      case RequireRole(r) => requiredRoles := requiredRoles + [r];
    }
  }

  // ---------- directives ----------

  /** The lines of a program that concern its configuration, in the order they are read. */
  datatype Directive =
    | Open(name: string)
    | Close
    | Use(name: string)
    | Begin
    | Set(setting: Setting)

  datatype Desk = Desk(
    config: Config,
    inGovernance: bool,
    inTemplate: bool,
    name: string,
    draft: Config,
    templates: map<string, Config>)

  const START := Desk(DEFAULT, false, false, "", DEFAULT, map[])

  /** The state after one directive; none when an unknown template is used. */
  function Obey(s: Desk, d: Directive): Option<Desk> {
    match d
    case Open(name) => Some(s.(inTemplate := true, name := name, draft := DEFAULT))
    case Close =>
      if s.inTemplate then Some(s.(inTemplate := false, templates := s.templates[s.name := s.draft]))
      else Some(s.(inGovernance := false))
    case Use(name) =>
      if name in s.templates then Some(s.(config := Merged(s.config, s.templates[name]))) else None
    case Begin => Some(s.(inGovernance := true))
    case Set(x) =>
      if s.inTemplate then Some(s.(draft := Applied(s.draft, x))) else Some(s.(config := Applied(s.config, x)))
  }

  /** The state after the first n directives. */
  function ObeyTo(ds: seq<Directive>, n: nat): Option<Desk>
    requires n <= |ds|
  {
    if n == 0 then Some(START)
    else match ObeyTo(ds, n - 1)
      case None => None
      case Some(s) => Obey(s, ds[n - 1])
  }

  // ---------- what the directives mean, by their positions alone ----------

  datatype Field = QuorumField | ThresholdField | DeliberationField | ExpiryField

  function Value(s: Setting, f: Field): Option<real> {
    match (s, f)
    case (Quorum(x), QuorumField) => Some(x)
    case (Threshold(x), ThresholdField) => Some(x)
    case (MinDeliberation(h), DeliberationField) => Some(h as real)
    case (ExpiresIn(h), ExpiryField) => Some(h as real)
    case _ => None
  }

  function Hours(h: Option<int>): Option<real> {
    if h.Some? then Some(h.value as real) else None
  }

  function Get(c: Config, f: Field): Option<real> {
    match f
    case QuorumField => c.quorum
    case ThresholdField => c.threshold
    case DeliberationField => Hours(c.minDeliberation)
    case ExpiryField => Hours(c.expiresIn)
  }

  /** The template block opened at k is the one being written just before n. */
  ghost predicate InForce(ds: seq<Directive>, k: nat, n: nat) {
    k < n <= |ds| && ds[k].Open? && forall l :: k < l < n ==> !ds[l].Open? && !ds[l].Close?
  }

  /** No template block is open just before n. */
  ghost predicate Outside(ds: seq<Directive>, n: nat) {
    forall k: nat :: k < n ==> !InForce(ds, k, n)
  }

  /** Directive j sets the field in the program's own configuration. */
  ghost predicate Explicit(ds: seq<Directive>, j: nat, f: Field) {
    j < |ds| && ds[j].Set? && Value(ds[j].setting, f).Some? && Outside(ds, j)
  }

  /** The last value given to the field by directives lo to hi. */
  function LastIn(ds: seq<Directive>, lo: nat, hi: nat, f: Field): Option<real>
    requires lo <= hi <= |ds|
  {
    if lo == hi then None
    else if ds[hi - 1].Set? && Value(ds[hi - 1].setting, f).Some? then Value(ds[hi - 1].setting, f)
    else LastIn(ds, lo, hi - 1, f)
  }

  /** The block opened at k and closed at c defines the template. */
  ghost predicate Defines(ds: seq<Directive>, k: nat, c: nat, name: string) {
    c < |ds| && ds[c].Close? && InForce(ds, k, c) && ds[k].name == name
  }

  /** The same, and it is the latest definition before n. */
  ghost predicate Current(ds: seq<Directive>, k: nat, c: nat, n: nat, name: string) {
    && n <= |ds| && c < n && Defines(ds, k, c, name)
    && forall k': nat, c': nat :: c < c' < n ==> !Defines(ds, k', c', name)
  }

  /** Directive j uses a template that at that time gives the field the value v. */
  ghost predicate Supplies(ds: seq<Directive>, j: nat, f: Field, v: real) {
    && j < |ds| && ds[j].Use?
    && exists k: nat, c: nat :: Current(ds, k, c, j, ds[j].name) && LastIn(ds, k + 1, c, f) == Some(v)
  }

  // ---------- the state follows the meaning ----------

  lemma FieldApplied(c: Config, x: Setting, f: Field)
    ensures Get(Applied(c, x), f) == Or(Value(x, f), Get(c, f))
  {
  }

  lemma FieldMerged(c: Config, other: Config, f: Field)
    ensures Get(Merged(c, other), f) == Or(Get(c, f), Get(other, f))
  {
  }

  lemma FieldUnset(f: Field)
    ensures Get(DEFAULT, f) == None
  {
  }

  lemma {:induction false} ScopeSound(ds: seq<Directive>, k: nat, n: nat, f: Field)
    requires InForce(ds, k, n) && ObeyTo(ds, n).Some?
    ensures var s := ObeyTo(ds, n).value;
            s.inTemplate && s.name == ds[k].name && Get(s.draft, f) == LastIn(ds, k + 1, n, f)
    decreases n
  {
    hide Get, Applied, Value;
    FieldUnset(f);
    if k < n - 1 {
      ScopeSound(ds, k, n - 1, f);
      if ds[n - 1].Set? { FieldApplied(ObeyTo(ds, n - 1).value.draft, ds[n - 1].setting, f); }
    }
  }

  lemma {:induction false} ScopeComplete(ds: seq<Directive>, n: nat) returns (k: nat)
    requires n <= |ds| && ObeyTo(ds, n).Some? && ObeyTo(ds, n).value.inTemplate
    ensures InForce(ds, k, n)
    decreases n
  {
    if ds[n - 1].Open? { k := n - 1; } else { k := ScopeComplete(ds, n - 1); }
  }

  lemma {:induction false} TemplateSound(ds: seq<Directive>, k: nat, c: nat, n: nat, name: string, f: Field)
    requires Current(ds, k, c, n, name) && ObeyTo(ds, n).Some?
    ensures var s := ObeyTo(ds, n).value;
            name in s.templates && Get(s.templates[name], f) == LastIn(ds, k + 1, c, f)
    decreases n
  {
    hide Get, Applied, LastIn;
    if c == n - 1 {
      ScopeSound(ds, k, c, f);
    } else {
      TemplateSound(ds, k, c, n - 1, name, f);
      var s := ObeyTo(ds, n - 1).value;
      if ds[n - 1].Close? && s.inTemplate {
        var k' := ScopeComplete(ds, n - 1);
        ScopeSound(ds, k', n - 1, f);
        assert !Defines(ds, k', n - 1, name);
      }
    }
  }

  lemma {:induction false} TemplateComplete(ds: seq<Directive>, n: nat, name: string) returns (k: nat, c: nat)
    requires n <= |ds| && ObeyTo(ds, n).Some? && name in ObeyTo(ds, n).value.templates
    ensures Current(ds, k, c, n, name)
    decreases n
  {
    hide Get, Applied, LastIn;
    var s := ObeyTo(ds, n - 1).value;
    if ds[n - 1].Close? && s.inTemplate && s.name == name {
      k := ScopeComplete(ds, n - 1);
      c := n - 1;
      ScopeSound(ds, k, c, QuorumField);
    } else {
      k, c := TemplateComplete(ds, n - 1, name);
      var last: nat := n - 1;
      forall k': nat
        ensures !Defines(ds, k', last, name)
      {
        if Defines(ds, k', last, name) { ScopeSound(ds, k', last, QuorumField); }
      }
    }
  }

  lemma OutsideExact(ds: seq<Directive>, n: nat)
    requires n <= |ds| && ObeyTo(ds, n).Some?
    ensures Outside(ds, n) <==> !ObeyTo(ds, n).value.inTemplate
  {
    hide ObeyTo, InForce;
    if ObeyTo(ds, n).value.inTemplate {
      var k := ScopeComplete(ds, n);
      assert k < n by { InForceEarlier(ds, k, n); }
    } else {
      forall k: nat | k < n
        ensures !InForce(ds, k, n)
      {
        if InForce(ds, k, n) { ScopeSound(ds, k, n, QuorumField); }
      }
    }
  }

  lemma InForceEarlier(ds: seq<Directive>, k: nat, n: nat)
    requires InForce(ds, k, n)
    ensures k < n
  {
  }

  lemma SuppliesExact(ds: seq<Directive>, n: nat, f: Field, v: real)
    requires n < |ds| && ObeyTo(ds, n).Some? && ds[n].Use? && ds[n].name in ObeyTo(ds, n).value.templates
    ensures Supplies(ds, n, f, v) <==> Get(ObeyTo(ds, n).value.templates[ds[n].name], f) == Some(v)
  {
    hide ObeyTo, Get;
    var name := ds[n].name;
    var k, c := TemplateComplete(ds, n, name);
    TemplateSound(ds, k, c, n, name, f);
    if Supplies(ds, n, f, v) {
      var k': nat, c': nat :| Current(ds, k', c', n, name) && LastIn(ds, k' + 1, c', f) == Some(v);
      TemplateSound(ds, k', c', n, name, f);
    }
  }

  /** One directive changes a field of the configuration only by setting it, or by supplying it
      when it was unset. */
  lemma FieldStep(ds: seq<Directive>, n: nat, f: Field)
    requires n < |ds| && ObeyTo(ds, n + 1).Some?
    ensures var before, after := Get(ObeyTo(ds, n).value.config, f), Get(ObeyTo(ds, n + 1).value.config, f);
            && (Explicit(ds, n, f) ==> after == Value(ds[n].setting, f))
            && (!Explicit(ds, n, f) && before.Some? ==> after == before)
            && (forall v :: Supplies(ds, n, f, v) && before.None? ==> after == Some(v))
            && (!Explicit(ds, n, f) && (forall v :: !Supplies(ds, n, f, v)) ==> after == before)
  {
    hide Get, Value, Applied, Merged, Outside;
    OutsideExact(ds, n);
    var s := ObeyTo(ds, n).value;
    match ds[n]
    case Set(x) => FieldApplied(s.config, x, f);
    case Use(name) =>
      FieldMerged(s.config, s.templates[name], f);
      forall v
        ensures Supplies(ds, n, f, v) <==> Get(s.templates[name], f) == Some(v)
      {
        SuppliesExact(ds, n, f, v);
      }
      var given := Get(s.templates[name], f);
      assert given.Some? ==> Supplies(ds, n, f, given.value);
    case _ =>
  }

  // ---------- which directive decides ----------

  /** Of the first n directives, j is the last that sets the field. */
  ghost predicate LastExplicit(ds: seq<Directive>, n: nat, j: nat, f: Field) {
    j < n <= |ds| && Explicit(ds, j, f) && forall j': nat :: j < j' < n ==> !Explicit(ds, j', f)
  }

  /** None of the first n directives sets the field, and j is the first that supplies it. */
  ghost predicate FirstSupply(ds: seq<Directive>, n: nat, j: nat, f: Field, v: real) {
    && j < n <= |ds| && Supplies(ds, j, f, v)
    && (forall j': nat :: j' < n ==> !Explicit(ds, j', f))
    && (forall j': nat, v' :: j' < j ==> !Supplies(ds, j', f, v'))
  }

  function FieldAfter(ds: seq<Directive>, n: nat, f: Field): Option<real>
    requires n <= |ds| && ObeyTo(ds, n).Some?
  {
    Get(ObeyTo(ds, n).value.config, f)
  }

  /** Each scalar setting ends as the last explicit assignment, otherwise as the first used template
      that defined it gave it, and a value comes from nowhere else. */
  lemma SettingRule(ds: seq<Directive>, f: Field)
    requires ObeyTo(ds, |ds|).Some?
    ensures forall j: nat :: LastExplicit(ds, |ds|, j, f) ==> FieldAfter(ds, |ds|, f) == Value(ds[j].setting, f)
    ensures forall j: nat, v :: FirstSupply(ds, |ds|, j, f, v) ==> FieldAfter(ds, |ds|, f) == Some(v)
    ensures FieldAfter(ds, |ds|, f).Some? ==>
              (exists j: nat :: LastExplicit(ds, |ds|, j, f)) || (exists j: nat, v :: FirstSupply(ds, |ds|, j, f, v))
  {
    hide FirstSupply, FieldAfter;
    forall j: nat | LastExplicit(ds, |ds|, j, f)
      ensures FieldAfter(ds, |ds|, f) == Value(ds[j].setting, f)
    {
      ExplicitWins(ds, |ds|, f, j);
    }
    forall j: nat, v | FirstSupply(ds, |ds|, j, f, v)
      ensures FieldAfter(ds, |ds|, f) == Some(v)
    {
      FirstTemplateWins(ds, |ds|, f, j, v);
    }
    if FieldAfter(ds, |ds|, f).Some? {
      var j, v := Origin(ds, |ds|, f);
    }
  }

  lemma {:induction false} ExplicitWins(ds: seq<Directive>, n: nat, f: Field, j: nat)
    requires LastExplicit(ds, n, j, f) && ObeyTo(ds, n).Some?
    ensures ds[j].Set? && FieldAfter(ds, n, f) == Value(ds[j].setting, f)
    decreases n
  {
    hide Explicit;
    assert ds[j].Set? && Value(ds[j].setting, f).Some? by { ExplicitSets(ds, j, f); }
    FieldStep(ds, n - 1, f);
    if j < n - 1 { ExplicitWins(ds, n - 1, f, j); }
  }

  lemma ExplicitSets(ds: seq<Directive>, j: nat, f: Field)
    requires Explicit(ds, j, f)
    ensures j < |ds| && ds[j].Set? && Value(ds[j].setting, f).Some?
  {
  }

  /** A field that is set or supplied stays set. */
  lemma {:induction false} Stays(ds: seq<Directive>, n: nat, f: Field, j: nat)
    requires j < n <= |ds| && ObeyTo(ds, n).Some? && (Explicit(ds, j, f) || exists v :: Supplies(ds, j, f, v))
    ensures FieldAfter(ds, n, f).Some?
    decreases n
  {
    hide Supplies, Explicit;
    FieldStep(ds, n - 1, f);
    if Explicit(ds, n - 1, f) { ExplicitSets(ds, n - 1, f); }
    if j < n - 1 { Stays(ds, n - 1, f, j); }
  }

  lemma {:induction false} FirstTemplateWins(ds: seq<Directive>, n: nat, f: Field, j: nat, v: real)
    requires FirstSupply(ds, n, j, f, v) && ObeyTo(ds, n).Some?
    ensures FieldAfter(ds, n, f) == Some(v)
    decreases n
  {
    hide Supplies, Explicit;
    FieldStep(ds, n - 1, f);
    if j < n - 1 {
      FirstTemplateWins(ds, n - 1, f, j, v);
    } else if FieldAfter(ds, j, f).Some? {
      var j', v' := Origin(ds, j, f);
    }
  }

  /** Where the value of a field comes from. */
  lemma {:induction false} Origin(ds: seq<Directive>, n: nat, f: Field) returns (j: nat, v: real)
    requires n <= |ds| && ObeyTo(ds, n).Some? && FieldAfter(ds, n, f).Some?
    ensures LastExplicit(ds, n, j, f) || FirstSupply(ds, n, j, f, v)
    decreases n
  {
    hide Supplies, Explicit, Get, Obey;
    FieldUnset(f);
    v := 0.0;
    FieldStep(ds, n - 1, f);
    if Explicit(ds, n - 1, f) {
      j := n - 1;
    } else if FieldAfter(ds, n - 1, f).Some? {
      j, v := Origin(ds, n - 1, f);
    } else {
      j := n - 1;
      v :| Supplies(ds, j, f, v);
      forall j': nat | j' < j
        ensures !Explicit(ds, j', f)
      {
        if Explicit(ds, j', f) { Stays(ds, j, f, j'); }
      }
      forall j': nat, v' | j' < j
        ensures !Supplies(ds, j', f, v')
      {
        if Supplies(ds, j', f, v') { Stays(ds, j, f, j'); }
      }
    }
  }
}
