/** The roles a program requires: those of one used template, then its own. */
module Roles {
  import opened Lifecycle

  predicate NamesRole(d: Directive) { d.Set? && d.setting.RequireRole? }

  /** The roles named by directives lo to hi, in order. */
  function RolesIn(ds: seq<Directive>, lo: nat, hi: nat): seq<string>
    requires lo <= hi <= |ds|
  {
    if lo == hi then []
    else RolesIn(ds, lo, hi - 1) + if NamesRole(ds[hi - 1]) then [ds[hi - 1].setting.role] else []
  }

  /** The roles that the first n directives name outside templates, in order. */
  ghost function OwnRoles(ds: seq<Directive>, n: nat): seq<string>
    requires n <= |ds|
  {
    if n == 0 then []
    else OwnRoles(ds, n - 1)
         + if NamesRole(ds[n - 1]) && Outside(ds, n - 1) then [ds[n - 1].setting.role] else []
  }

  /** Directive j uses a template that at that time names these roles. */
  ghost predicate Lends(ds: seq<Directive>, j: nat, roles: seq<string>) {
    && j < |ds| && ds[j].Use?
    && exists k: nat, c: nat :: Current(ds, k, c, j, ds[j].name) && RolesIn(ds, k + 1, c) == roles
  }

  /** Among the first n directives, j is the first use of a template with roles, and no role was
      named before it. */
  ghost predicate FirstLent(ds: seq<Directive>, n: nat, j: nat, roles: seq<string>) {
    && j < n <= |ds| && Lends(ds, j, roles) && roles != [] && OwnRoles(ds, j) == []
    && forall j': nat, roles' :: j' < j && Lends(ds, j', roles') ==> roles' == []
  }

  function RolesAfter(ds: seq<Directive>, n: nat): seq<string>
    requires n <= |ds| && ObeyTo(ds, n).Some?
  {
    ObeyTo(ds, n).value.config.requiredRoles
  }

  lemma {:induction false} ScopeRoles(ds: seq<Directive>, k: nat, n: nat)
    requires InForce(ds, k, n) && ObeyTo(ds, n).Some?
    ensures ObeyTo(ds, n).value.draft.requiredRoles == RolesIn(ds, k + 1, n)
    decreases n
  {
    hide Get, LastIn;
    if k < n - 1 {
      ScopeSound(ds, k, n - 1, QuorumField);
      ScopeRoles(ds, k, n - 1);
    }
  }

  lemma {:induction false} TemplateRoles(ds: seq<Directive>, k: nat, c: nat, n: nat, name: string)
    requires Current(ds, k, c, n, name) && ObeyTo(ds, n).Some?
    ensures var s := ObeyTo(ds, n).value;
            name in s.templates && s.templates[name].requiredRoles == RolesIn(ds, k + 1, c)
    decreases n
  {
    hide RolesIn, Applied;
    TemplateSound(ds, k, c, n, name, QuorumField);
    if c == n - 1 {
      ScopeSound(ds, k, c, QuorumField);
      ScopeRoles(ds, k, c);
    } else {
      TemplateRoles(ds, k, c, n - 1, name);
      var s := ObeyTo(ds, n - 1).value;
      if ds[n - 1].Close? && s.inTemplate {
        var k' := ScopeComplete(ds, n - 1);
        ScopeSound(ds, k', n - 1, QuorumField);
        assert !Defines(ds, k', n - 1, name);
      }
    }
  }

  /** Using a template lends its roles, and they are taken when there are none yet. */
  lemma UseLends(ds: seq<Directive>, n: nat) returns (roles: seq<string>)
    requires n < |ds| && ObeyTo(ds, n + 1).Some? && ds[n].Use?
    ensures Lends(ds, n, roles) && forall other :: Lends(ds, n, other) ==> other == roles
    ensures RolesAfter(ds, n + 1) == if RolesAfter(ds, n) == [] then roles else RolesAfter(ds, n)
  {
    hide RolesIn;
    var name := ds[n].name;
    var k, c := TemplateComplete(ds, n, name);
    TemplateRoles(ds, k, c, n, name);
    roles := RolesIn(ds, k + 1, c);
    forall other | Lends(ds, n, other)
      ensures other == roles
    {
      var k': nat, c': nat :| Current(ds, k', c', n, name) && RolesIn(ds, k' + 1, c') == other;
      TemplateRoles(ds, k', c', n, name);
    }
  }

  /** Any other directive adds its own role, if it names one outside templates. */
  lemma OtherStep(ds: seq<Directive>, n: nat)
    requires n < |ds| && ObeyTo(ds, n + 1).Some? && !ds[n].Use?
    ensures RolesAfter(ds, n + 1) ==
            if NamesRole(ds[n]) && Outside(ds, n) then RolesAfter(ds, n) + [ds[n].setting.role] else RolesAfter(ds, n)
  {
    hide Outside;
    OutsideExact(ds, n);
  }

  lemma OwnStep(ds: seq<Directive>, n: nat)
    requires n < |ds|
    ensures OwnRoles(ds, n + 1) ==
            if NamesRole(ds[n]) && Outside(ds, n) then OwnRoles(ds, n) + [ds[n].setting.role] else OwnRoles(ds, n)
  {
    hide Outside;
  }

  lemma NoRoles(ds: seq<Directive>)
    ensures OwnRoles(ds, 0) == [] && RolesAfter(ds, 0) == []
  {
  }

  /** Roles, once there, stay. */
  lemma {:induction false} RolesStay(ds: seq<Directive>, n: nat, j: nat, roles: seq<string>)
    requires j < n <= |ds| && ObeyTo(ds, n).Some? && Lends(ds, j, roles) && roles != []
    ensures RolesAfter(ds, n) != []
    decreases n
  {
    hide Lends, Outside, Obey, RolesAfter;
    var last: nat := n - 1;
    LendsUse(ds, j, roles);
    if j < last { RolesStay(ds, last, j, roles); }
    if ds[last].Use? { var lent := UseLends(ds, last); } else { OtherStep(ds, last); }
  }

  /** The roles of the first used template that has any, if no role was named before; then all roles
      named outside templates, in order. */
  lemma RolesRule(ds: seq<Directive>)
    requires ObeyTo(ds, |ds|).Some?
    ensures forall j: nat, roles :: FirstLent(ds, |ds|, j, roles) ==> RolesAfter(ds, |ds|) == roles + OwnRoles(ds, |ds|)
    ensures (forall j: nat, roles :: !FirstLent(ds, |ds|, j, roles)) ==> RolesAfter(ds, |ds|) == OwnRoles(ds, |ds|)
  {
    hide FirstLent, RolesAfter, OwnRoles;
    forall j: nat, roles | FirstLent(ds, |ds|, j, roles)
      ensures RolesAfter(ds, |ds|) == roles + OwnRoles(ds, |ds|)
    {
      LentFirst(ds, |ds|, j, roles);
    }
    if forall j: nat, roles :: !FirstLent(ds, |ds|, j, roles) { NothingLent(ds, |ds|); }
  }

  lemma LendsUse(ds: seq<Directive>, j: nat, roles: seq<string>)
    requires Lends(ds, j, roles)
    ensures j < |ds| && ds[j].Use?
  {
  }

  lemma {:induction false} LentFirst(ds: seq<Directive>, n: nat, j: nat, roles: seq<string>)
    requires FirstLent(ds, n, j, roles) && ObeyTo(ds, n).Some?
    ensures RolesAfter(ds, n) == roles + OwnRoles(ds, n)
    decreases n
  {
    hide Lends, Outside, Obey, RolesAfter, OwnRoles;
    var last: nat := n - 1;
    OwnStep(ds, last);
    LendsUse(ds, j, roles);
    if j < last {
      LentFirst(ds, last, j, roles);
      if ds[last].Use? {
        var lent := UseLends(ds, last);
      } else {
        OtherStep(ds, last);
        if NamesRole(ds[last]) {
          var own, role := OwnRoles(ds, last), ds[last].setting.role;
          assert roles + (own + [role]) == roles + own + [role];
        }
      }
    } else {
      NothingLent(ds, j);
      var lent := UseLends(ds, j);
      assert roles + [] == roles;
    }
  }

  /** The first roles to come, when none are there. */
  lemma NewlyLent(ds: seq<Directive>, n: nat, roles: seq<string>)
    requires n < |ds| && ObeyTo(ds, n).Some? && Lends(ds, n, roles) && roles != []
    requires RolesAfter(ds, n) == [] && OwnRoles(ds, n) == []
    ensures FirstLent(ds, n + 1, n, roles)
  {
    hide Lends, RolesAfter;
    forall j': nat, roles' | j' < n && Lends(ds, j', roles')
      ensures roles' == []
    {
      if roles' != [] { RolesStay(ds, n, j', roles'); }
    }
  }

  lemma {:induction false} NothingLent(ds: seq<Directive>, n: nat)
    requires n <= |ds| && ObeyTo(ds, n).Some?
    requires forall j: nat, roles :: !FirstLent(ds, n, j, roles)
    ensures RolesAfter(ds, n) == OwnRoles(ds, n)
    decreases n
  {
    hide Lends, Outside, Obey, RolesAfter, FirstLent, OwnRoles;
    if n == 0 {
      NoRoles(ds);
    } else {
      var last: nat := n - 1;
      NoneBefore(ds, n, last);
      NothingLent(ds, last);
      OwnStep(ds, last);
      if ds[last].Use? {
        var lent := UseLends(ds, last);
        if lent != [] && RolesAfter(ds, last) == [] { NewlyLent(ds, last, lent); }
      } else {
        OtherStep(ds, last);
      }
    }
  }

  lemma NoneBefore(ds: seq<Directive>, n: nat, last: nat)
    requires n == last + 1 <= |ds| && forall j: nat, roles :: !FirstLent(ds, n, j, roles)
    ensures forall j: nat, roles :: !FirstLent(ds, last, j, roles)
  {
    hide Lends;
    forall j: nat, roles
      ensures !FirstLent(ds, last, j, roles)
    {
      assert !FirstLent(ds, n, j, roles);
    }
  }
}
