/** Chains of delegated votes: where they lead, when they close, and what adding or removing one
    delegation does to everybody's final delegate. */
module Delegation {
  import opened Values

  type Voter = string

  /** The voter reached from x after n delegations, if the chain is that long. */
  function Follow(m: map<Voter, Voter>, x: Voter, n: nat): Option<Voter>
    decreases n
  {
    if n == 0 then Some(x)
    else if x in m then Follow(m, m[x], n - 1)
    else None
  }

  ghost predicate Passes(m: map<Voter, Voter>, x: Voter, y: Voter) {
    exists n: nat :: Follow(m, x, n) == Some(y)
  }

  /** The vote of x finally lies with y, who has not delegated. */
  ghost predicate EndsAt(m: map<Voter, Voter>, x: Voter, y: Voter) {
    Passes(m, x, y) && y !in m
  }

  /** Nobody's chain comes back to them. */
  ghost predicate Acyclic(m: map<Voter, Voter>) {
    forall x: Voter, n: nat :: n > 0 ==> Follow(m, x, n) != Some(x)
  }

  lemma {:induction false} FollowSplit(m: map<Voter, Voter>, x: Voter, i: nat, j: nat)
    ensures Follow(m, x, i + j) ==
            (if Follow(m, x, i).Some? then Follow(m, Follow(m, x, i).value, j) else None)
    decreases i
  {
    if i > 0 && x in m { FollowSplit(m, m[x], i - 1, j); }
  }

  /** An initial part of a chain exists if the whole does. */
  lemma FollowPrefix(m: map<Voter, Voter>, x: Voter, i: nat, n: nat)
    requires i <= n && Follow(m, x, n).Some?
    ensures Follow(m, x, i).Some?
    ensures i < n ==> Follow(m, x, i).value in m
  {
    FollowSplit(m, x, i, n - i);
  }

  /** The voters on the first n places of a chain. */
  ghost function Visited(m: map<Voter, Voter>, x: Voter, n: nat): set<Voter>
    requires n > 0 ==> Follow(m, x, n - 1).Some?
    decreases n
  {
    if n == 0 then {}
    else
      assert n > 1 ==> Follow(m, x, n - 2).Some? by { if n > 1 { FollowPrefix(m, x, n - 2, n - 1); } }
      Visited(m, x, n - 1) + {Follow(m, x, n - 1).value}
  }

  lemma {:induction false} VisitedIn(m: map<Voter, Voter>, x: Voter, n: nat, v: Voter)
    requires n > 0 ==> Follow(m, x, n - 1).Some?
    ensures v in Visited(m, x, n) <==> exists i :: 0 <= i < n && Follow(m, x, i) == Some(v)
    decreases n
  {
    if n > 0 {
      if n > 1 { FollowPrefix(m, x, n - 2, n - 1); }
      VisitedIn(m, x, n - 1, v);
    }
  }

  lemma VisitedHas(m: map<Voter, Voter>, x: Voter, n: nat, i: nat)
    requires i < n && Follow(m, x, n - 1).Some? && Follow(m, x, i).Some?
    ensures Follow(m, x, i).value in Visited(m, x, n)
  {
    VisitedIn(m, x, n, Follow(m, x, i).value);
  }

  /** A chain that does not come back visits a new voter at every step. */
  lemma {:induction false} VisitedDistinct(m: map<Voter, Voter>, x: Voter, n: nat)
    requires Acyclic(m) && (n > 0 ==> Follow(m, x, n - 1).Some?)
    ensures |Visited(m, x, n)| == n
    decreases n
  {
    if n > 0 {
      if n > 1 { FollowPrefix(m, x, n - 2, n - 1); }
      VisitedDistinct(m, x, n - 1);
      var v := Follow(m, x, n - 1).value;
      if v in Visited(m, x, n - 1) {
        VisitedIn(m, x, n - 1, v);
        var i :| 0 <= i < n - 1 && Follow(m, x, i) == Some(v);
        FollowSplit(m, x, i, n - 1 - i);
      }
    }
  }

  /** No chain of an acyclic map is longer than the map. */
  lemma ChainBound(m: map<Voter, Voter>, x: Voter, n: nat)
    requires Acyclic(m) && Follow(m, x, n).Some?
    ensures n <= |m|
  {
    if n > 0 {
      FollowPrefix(m, x, n - 1, n);
      VisitedDistinct(m, x, n);
      forall v | v in Visited(m, x, n) ensures v in m.Keys {
        VisitedIn(m, x, n, v);
        var i :| 0 <= i < n && Follow(m, x, i) == Some(v);
        FollowPrefix(m, x, i, n);
      }
      SubsetSize(Visited(m, x, n), m.Keys);
      assert |m.Keys| == |m|;
    }
  }

  lemma SubsetSize<T>(a: set<T>, b: set<T>)
    requires a <= b
    ensures |a| <= |b|
  {
    if a != {} {
      var x :| x in a;
      SubsetSize(a - {x}, b - {x});
    }
  }

  /** A chain with at least n voters, or its end before that. */
  lemma {:induction false} ChainOrEnd(m: map<Voter, Voter>, x: Voter, n: nat)
    ensures Follow(m, x, n).Some? || exists y :: EndsAt(m, x, y)
    decreases n
  {
    if n > 0 {
      ChainOrEnd(m, x, n - 1);
      if Follow(m, x, n - 1).Some? && Follow(m, x, n).None? {
        var y := Follow(m, x, n - 1).value;
        FollowSplit(m, x, n - 1, 1);
        assert Follow(m, y, 1) == if y in m then Follow(m, m[y], 0) else None;
        assert EndsAt(m, x, y);
      }
    }
  }

  /** The chain of x ends, and at one voter only. */
  ghost predicate OneFinalDelegate(m: map<Voter, Voter>, x: Voter) {
    (exists y :: EndsAt(m, x, y)) && (forall y, z :: EndsAt(m, x, y) && EndsAt(m, x, z) ==> y == z)
  }

  /** In an acyclic map every chain ends at one voter who has not delegated. */
  lemma FinalDelegate(m: map<Voter, Voter>, x: Voter)
    requires Acyclic(m)
    ensures OneFinalDelegate(m, x)
  {
    ChainOrEnd(m, x, |m| + 1);
    if Follow(m, x, |m| + 1).Some? { ChainBound(m, x, |m| + 1); }
    forall y, z | EndsAt(m, x, y) && EndsAt(m, x, z) ensures y == z {
      EndUnique(m, x, y, z);
    }
  }

  lemma EndUnique(m: map<Voter, Voter>, x: Voter, y: Voter, z: Voter)
    requires EndsAt(m, x, y) && EndsAt(m, x, z)
    ensures y == z
  {
    var i: nat :| Follow(m, x, i) == Some(y);
    var j: nat :| Follow(m, x, j) == Some(z);
    if i < j { FollowPrefix(m, x, i, j); }
    if j < i { FollowPrefix(m, x, j, i); }
  }

  // ---------- one delegation more or less ----------

  /** The two maps agree about everybody but `from`. */
  ghost predicate DifferOnlyAt(m: map<Voter, Voter>, m': map<Voter, Voter>, from: Voter) {
    forall v :: v != from ==> (v in m <==> v in m') && (v in m ==> m[v] == m'[v])
  }

  /** Chains that avoid `from` do not notice a change of its delegation. */
  lemma {:induction false} FollowElsewhere(m: map<Voter, Voter>, m': map<Voter, Voter>, from: Voter, x: Voter, n: nat)
    requires DifferOnlyAt(m, m', from)
    requires forall i: nat :: i < n ==> Follow(m, x, i) != Some(from)
    ensures Follow(m', x, n) == Follow(m, x, n)
    ensures forall i: nat :: i < n ==> Follow(m', x, i) != Some(from)
    decreases n
  {
    if n > 0 {
      assert Follow(m, x, 0) != Some(from);
      if x in m {
        forall i: nat | i < n - 1 ensures Follow(m, m[x], i) != Some(from) {
          assert Follow(m, x, i + 1) == Follow(m, m[x], i);
        }
        FollowElsewhere(m, m', from, m[x], n - 1);
        forall i: nat | i < n ensures Follow(m', x, i) != Some(from) {
          if i > 0 { assert Follow(m', x, i) == Follow(m', m[x], i - 1); }
        }
      }
    }
  }

  lemma PassesElsewhere(m: map<Voter, Voter>, m': map<Voter, Voter>, from: Voter, x: Voter, y: Voter)
    requires DifferOnlyAt(m, m', from) && !Passes(m, x, from)
    ensures Passes(m', x, y) <==> Passes(m, x, y)
  {
    assert forall i: nat :: Follow(m, x, i) != Some(from);
    forall n: nat ensures Follow(m', x, n) == Follow(m, x, n) {
      FollowElsewhere(m, m', from, x, n);
    }
  }

  /** The first time a chain meets a voter. */
  lemma FirstMeeting(m: map<Voter, Voter>, x: Voter, y: Voter) returns (n: nat)
    requires Passes(m, x, y)
    ensures Follow(m, x, n) == Some(y) && forall i: nat :: i < n ==> Follow(m, x, i) != Some(y)
  {
    n :| Follow(m, x, n) == Some(y);
    while exists i: nat :: i < n && Follow(m, x, i) == Some(y)
      invariant Follow(m, x, n) == Some(y)
      decreases n
    {
      var i: nat :| i < n && Follow(m, x, i) == Some(y);
      n := i;
    }
  }

  /** Chains through `from` in both maps, up to `from`. */
  lemma PassesThrough(m: map<Voter, Voter>, m': map<Voter, Voter>, from: Voter, x: Voter)
    requires DifferOnlyAt(m, m', from) && Passes(m, x, from)
    ensures Passes(m', x, from)
  {
    var n := FirstMeeting(m, x, from);
    FollowElsewhere(m, m', from, x, n);
  }

  lemma PassesTrans(m: map<Voter, Voter>, x: Voter, y: Voter, z: Voter)
    requires Passes(m, x, y) && Passes(m, y, z)
    ensures Passes(m, x, z)
  {
    var i: nat :| Follow(m, x, i) == Some(y);
    var j: nat :| Follow(m, y, j) == Some(z);
    FollowSplit(m, x, i, j);
  }

  /** A cycle that meets a voter makes that voter's own chain come back. */
  lemma CycleThrough(m: map<Voter, Voter>, x: Voter, n: nat, y: Voter)
    requires n > 0 && Follow(m, x, n) == Some(x) && Passes(m, x, y)
    ensures Follow(m, y, n) == Some(y)
  {
    var i: nat :| Follow(m, x, i) == Some(y);
    FollowSplit(m, x, i, n);
    FollowSplit(m, x, n, i);
  }

  /** The cycle check is exact: replacing the delegation of `from` keeps the map acyclic
      exactly when the chain of `to` does not lead to `from`. */
  lemma AcceptExact(m: map<Voter, Voter>, from: Voter, to: Voter)
    requires Acyclic(m)
    ensures Acyclic(m[from := to]) <==> !Passes(m, to, from)
  {
    var m' := m[from := to];
    if Passes(m, to, from) {
      PassesThrough(m, m', from, to);
      var j: nat :| Follow(m', to, j) == Some(from);
      assert Follow(m', from, j + 1) == Some(from);
    } else {
      forall x: Voter, n: nat | n > 0 ensures Follow(m', x, n) != Some(x) {
        NoNewCycle(m, from, to, x, n);
      }
    }
  }

  lemma NoNewCycle(m: map<Voter, Voter>, from: Voter, to: Voter, x: Voter, n: nat)
    requires Acyclic(m) && !Passes(m, to, from) && n > 0
    ensures Follow(m[from := to], x, n) != Some(x)
  {
    var m' := m[from := to];
    if Follow(m', x, n) == Some(x) {
      if Passes(m', x, from) {
        CycleThrough(m', x, n, from);
        assert Follow(m', to, n - 1) == Some(from);
        PassesThrough(m', m, from, to);
      } else {
        FollowElsewhere(m', m, from, x, n);
      }
    }
  }

  /** Accepting from -> to moves exactly those whose chain passes through `from`, and moves them
      to the final delegate of `to`. */
  lemma DelegateEffect(m: map<Voter, Voter>, from: Voter, to: Voter, x: Voter, y: Voter)
    requires Acyclic(m) && !Passes(m, to, from)
    ensures EndsAt(m[from := to], x, y) <==> if Passes(m, x, from) then EndsAt(m, to, y) else EndsAt(m, x, y)
  {
    var m' := m[from := to];
    AcceptExact(m, from, to);
    if Passes(m, x, from) {
      PassesThrough(m, m', from, x);
      assert Follow(m', from, 1) == Follow(m', to, 0);
      PassesTrans(m', x, from, to);
      FinalDelegate(m', to);
      var z :| EndsAt(m', to, z);
      PassesTrans(m', x, to, z);
      PassesElsewhere(m, m', from, to, y);
      if EndsAt(m', x, y) { EndUnique(m', x, y, z); }
      if EndsAt(m, to, y) { PassesTrans(m', x, to, y); }
    } else {
      PassesElsewhere(m, m', from, x, y);
    }
  }

  /** Revoking moves exactly those whose chain passed through `from`, and moves them to `from`. */
  lemma RevokeEffect(m: map<Voter, Voter>, from: Voter, x: Voter, y: Voter)
    requires Acyclic(m)
    ensures Acyclic(m - {from})
    ensures EndsAt(m - {from}, x, y) <==> if Passes(m, x, from) then y == from else EndsAt(m, x, y)
  {
    var m' := m - {from};
    forall v: Voter, n: nat | n > 0 ensures Follow(m', v, n) != Some(v) {
      if Follow(m', v, n) == Some(v) { SubFollow(m, from, v, n); }
    }
    if Passes(m, x, from) {
      PassesThrough(m, m', from, x);
      if EndsAt(m', x, y) { EndUnique(m', x, y, from); }
    } else {
      PassesElsewhere(m, m', from, x, y);
    }
  }

  /** Removing a delegation creates no new chain. */
  lemma {:induction false} SubFollow(m: map<Voter, Voter>, from: Voter, x: Voter, n: nat)
    requires Follow(m - {from}, x, n).Some?
    ensures Follow(m, x, n) == Follow(m - {from}, x, n)
    decreases n
  {
    if n > 0 { SubFollow(m, from, m[x], n - 1); }
  }

  // ---------- the handler ----------

  datatype Request = Request(from: Voter, to: Voter)

  datatype Event = Revoked(voter: Voter) | NothingToRevoke(voter: Voter) | Delegated(from: Voter, to: Voter)

  datatype Refusal = EmptyVoter | WouldCycle

  /** What the machine keeps: the serialized map and, beside it, its size. */
  datatype Store = Store(delegations: map<Voter, Voter>, count: nat, events: seq<Event>)

  /** The walk along the chain of `to`: it must end, and not meet `from`. */
  ghost predicate Accepts(m: map<Voter, Voter>, from: Voter, to: Voter) {
    (exists y :: EndsAt(m, to, y)) && !Passes(m, to, from)
  }

  /** The delegations a walk follows: an empty name ends the chain. */
  function Chains(m: map<Voter, Voter>): map<Voter, Voter> {
    map v | v in m && m[v] != "" :: m[v]
  }

  /** One request: refused, or applied. */
  ghost function Respond(s: Store, r: Request): (Store, Option<Refusal>) {
    if r.from == "" then (s, Some(EmptyVoter))
    else if r.to == "" then
      var m := s.delegations - {r.from};
      var e := if r.from in s.delegations then Revoked(r.from) else NothingToRevoke(r.from);
      (Store(m, |m|, s.events + [e]), None)
    else if !Accepts(Chains(s.delegations), r.from, r.to) then (s, Some(WouldCycle))
    else
      var m := s.delegations[r.from := r.to];
      (Store(m, |m|, s.events + [Delegated(r.from, r.to)]), None)
  }

  /** No voter has an empty name. */
  predicate Named(m: map<Voter, Voter>) {
    forall v :: v in m ==> v != "" && m[v] != ""
  }

  lemma NamedChains(m: map<Voter, Voter>)
    requires Named(m)
    ensures Chains(m) == m
  {
  }

  class LiquidDelegateHandler {
    var delegations: map<Voter, Voter>
    var count: nat
    var events: seq<Event>

    constructor ()
      ensures State() == Store(map[], 0, [])
    {
      delegations, count, events := map[], 0, [];
    }

    ghost function State(): Store
      reads this
    { Store(delegations, count, events) }

    method Handle(from: Voter, to: Voter) returns (refusal: Option<Refusal>)
      modifies this
      ensures (State(), refusal) == Respond(old(State()), Request(from, to))
    {
      if from == "" { return Some(EmptyVoter); }
      if to == "" {
        if from in delegations {
          events := events + [Revoked(from)];
        } else {
          events := events + [NothingToRevoke(from)];
        }
        delegations := delegations - {from};
      } else {
        var cycle := Walk(from, to);
        if cycle { return Some(WouldCycle); }
        delegations := delegations[from := to];
        events := events + [Delegated(from, to)];
      }
      count := |delegations|;
      return None;
    }

    /** Follows the chain of `to` until it ends or meets a voter already seen. */
    method Walk(from: Voter, to: Voter) returns (cycle: bool)
      requires from != "" && to != ""
      ensures cycle <==> !Accepts(Chains(delegations), from, to)
    {
      hide Follow, Visited, Accepts;
      var visited := {from};
      var current := to;
      ghost var m, n := Chains(delegations), 0;
      NoVoter(m, to);
      ghost var voters := m.Values + {from, to};
      while current != ""
        invariant n > 0 ==> Follow(m, to, n - 1).Some?
        invariant visited == {from} + Visited(m, to, n) && visited <= voters && from !in Visited(m, to, n)
        invariant current != "" ==> current in voters && Follow(m, to, n) == Some(current)
        invariant current == "" ==> n > 0 && Follow(m, to, n - 1).value !in m
        decreases voters - visited, current != ""
      {
        if current in visited {
          Caught(m, from, to, n, current);
          return true;
        }
        visited := visited + {current};
        NextVoter(m, to, n, current);
        n := n + 1;
        current := if current in delegations then delegations[current] else "";
      }
      Escaped(m, from, to, n);
      return false;
    }
  }

  lemma NoVoter(m: map<Voter, Voter>, x: Voter)
    ensures Follow(m, x, 0) == Some(x) && Visited(m, x, 0) == {}
  {
  }

  lemma NextVoter(m: map<Voter, Voter>, x: Voter, n: nat, v: Voter)
    requires Follow(m, x, n) == Some(v)
    ensures n > 0 ==> Follow(m, x, n - 1).Some?
    ensures Visited(m, x, n + 1) == Visited(m, x, n) + {v}
    ensures Follow(m, x, n + 1) == if v in m then Some(m[v]) else None
  {
    if n > 0 { FollowPrefix(m, x, n - 1, n); }
    FollowSplit(m, x, n, 1);
    assert Follow(m, v, 1) == if v in m then Follow(m, m[v], 0) else None;
  }

  /** The walk met a voter it had seen. */
  lemma Caught(m: map<Voter, Voter>, from: Voter, to: Voter, n: nat, v: Voter)
    requires (n > 0 ==> Follow(m, to, n - 1).Some?) && Follow(m, to, n) == Some(v)
    requires v == from || v in Visited(m, to, n)
    ensures !Accepts(m, from, to)
  {
    if v != from {
      VisitedIn(m, to, n, v);
      var i :| 0 <= i < n && Follow(m, to, i) == Some(v);
      LoopNeverEnds(m, to, i, n);
    }
  }

  /** The walk came to the end of the chain without meeting `from`. */
  lemma Escaped(m: map<Voter, Voter>, from: Voter, to: Voter, n: nat)
    requires n > 0 && Follow(m, to, n - 1).Some? && Follow(m, to, n - 1).value !in m
    requires from !in Visited(m, to, n)
    ensures Accepts(m, from, to)
  {
    assert EndsAt(m, to, Follow(m, to, n - 1).value);
    if Passes(m, to, from) {
      var j: nat :| Follow(m, to, j) == Some(from);
      if n <= j {
        FollowPrefix(m, to, n - 1, j);
      } else {
        VisitedHas(m, to, n, j);
      }
    }
  }

  /** A chain that comes back to a voter has no end. */
  lemma LoopNeverEnds(m: map<Voter, Voter>, x: Voter, i: nat, n: nat)
    requires i < n && Follow(m, x, i).Some? && Follow(m, x, n) == Follow(m, x, i)
    ensures !exists y :: EndsAt(m, x, y)
  {
    var v := Follow(m, x, i).value;
    FollowSplit(m, x, i, n - i);
    if y :| EndsAt(m, x, y) {
      var j: nat :| Follow(m, x, j) == Some(y);
      if j < i {
        FollowPrefix(m, x, j, i);
      } else {
        FollowSplit(m, x, i, j - i);
        Around(m, v, n - i, j - i, y);
      }
    }
  }

  /** Going around a loop first does not change where a chain can be. */
  lemma {:induction false} Around(m: map<Voter, Voter>, v: Voter, loop: nat, k: nat, y: Voter)
    requires loop > 0 && Follow(m, v, loop) == Some(v) && Follow(m, v, k) == Some(y)
    ensures y in m
    decreases k
  {
    if k >= loop {
      FollowSplit(m, v, loop, k - loop);
      Around(m, v, loop, k - loop, y);
    } else {
      FollowPrefix(m, v, k, loop);
    }
  }

  // ---------- whole runs ----------

  ghost function RunRequests(s: Store, requests: seq<Request>): Store
    decreases |requests|
  {
    if requests == [] then s else RunRequests(Respond(s, requests[0]).0, requests[1..])
  }

  /** What the map says about one voter. */
  function DelegateOf(m: map<Voter, Voter>, v: Voter): Option<Voter> {
    if v in m then Some(m[v]) else None
  }

  /** A request is refused exactly when it names nobody, or when it delegates and the chain of `to`
      has no end or meets `from`; a revocation is never refused. A refusal changes nothing. An accepted
      request changes the delegation of `from` alone, to what it asks for, and leaves one event. */
  lemma RequestExact(s: Store, r: Request)
    ensures var (s', refusal) := Respond(s, r); var m, m' := s.delegations, s'.delegations;
            && (refusal == Some(EmptyVoter) <==> r.from == "")
            && (refusal == Some(WouldCycle) <==> r.from != "" && r.to != "" && !Accepts(Chains(m), r.from, r.to))
            && (refusal.Some? ==> s' == s)
            && (refusal.None? ==>
                  && DelegateOf(m', r.from) == (if r.to == "" then None else Some(r.to))
                  && DifferOnlyAt(m, m', r.from)
                  && s'.count == |m'|
                  && s'.events == s.events + [EventFor(m, r)])
  {
  }

  /** The event tells a delegation, a revocation and a revocation of nothing apart. */
  function EventFor(m: map<Voter, Voter>, r: Request): (e: Event)
    ensures e.Delegated? <==> r.to != ""
    ensures e.Revoked? <==> r.to == "" && DelegateOf(m, r.from).Some?
    ensures e.Delegated? ==> e.from == r.from && e.to == r.to
    ensures !e.Delegated? ==> e.voter == r.from
  {
    if r.to != "" then Delegated(r.from, r.to)
    else if r.from in m then Revoked(r.from)
    else NothingToRevoke(r.from)
  }

  /** Request number i of the run is accepted. */
  ghost predicate AcceptedAt(s: Store, requests: seq<Request>, i: nat)
    requires i < |requests|
    decreases i
  {
    if i == 0 then Respond(s, requests[0]).1.None?
    else AcceptedAt(Respond(s, requests[0]).0, requests[1..], i - 1)
  }

  /** A voter none of whose requests was accepted has the delegation they had before the run. */
  lemma {:induction false} NeverAccepted(s: Store, requests: seq<Request>, v: Voter)
    requires forall i :: 0 <= i < |requests| && requests[i].from == v ==> !AcceptedAt(s, requests, i)
    ensures DelegateOf(RunRequests(s, requests).delegations, v) == DelegateOf(s.delegations, v)
    decreases |requests|
  {
    hide Respond, DifferOnlyAt;
    if requests != [] {
      var r, s' := requests[0], Respond(s, requests[0]).0;
      RequestExact(s, r);
      if r.from != v && Respond(s, r).1.None? { DifferElsewhere(s.delegations, s'.delegations, r.from, v); }
      forall i | 0 <= i < |requests[1..]| && requests[1..][i].from == v
        ensures !AcceptedAt(s', requests[1..], i)
      {
        assert !AcceptedAt(s, requests, i + 1);
      }
      assert r.from == v ==> !AcceptedAt(s, requests, 0);
      NeverAccepted(s', requests[1..], v);
    }
  }

  lemma DifferElsewhere(m: map<Voter, Voter>, m': map<Voter, Voter>, from: Voter, v: Voter)
    requires DifferOnlyAt(m, m', from) && v != from
    ensures DelegateOf(m', v) == DelegateOf(m, v)
  {
  }

  /** After a run a voter's delegation is what the last of their requests that was accepted asked for. */
  lemma {:induction false} LastAccepted(s: Store, requests: seq<Request>, j: nat)
    requires j < |requests| && AcceptedAt(s, requests, j)
    requires forall i :: j < i < |requests| && requests[i].from == requests[j].from ==> !AcceptedAt(s, requests, i)
    ensures DelegateOf(RunRequests(s, requests).delegations, requests[j].from) ==
            if requests[j].to == "" then None else Some(requests[j].to)
    decreases |requests|
  {
    hide Respond, DifferOnlyAt;
    var r, s', rest := requests[0], Respond(s, requests[0]).0, requests[1..];
    if j > 0 {
      forall i | j - 1 < i < |rest| && rest[i].from == requests[j].from
        ensures !AcceptedAt(s', rest, i)
      {
        assert !AcceptedAt(s, requests, i + 1);
      }
      LastAccepted(s', rest, j - 1);
    } else {
      RequestExact(s, r);
      forall i | 0 <= i < |rest| && rest[i].from == r.from
        ensures !AcceptedAt(s', rest, i)
      {
        assert !AcceptedAt(s, requests, i + 1);
      }
      NeverAccepted(s', rest, r.from);
    }
  }

  ghost predicate Sound(s: Store) {
    Acyclic(s.delegations) && s.count == |s.delegations| && Named(s.delegations)
  }

  /** On an acyclic map a non-empty request is accepted exactly when the updated map is acyclic,
      and a refusal changes nothing. */
  lemma RespondSound(s: Store, r: Request)
    requires Sound(s)
    ensures Sound(Respond(s, r).0)
    ensures r.from != "" && r.to != "" ==>
              (Respond(s, r).1.None? <==> Acyclic(s.delegations[r.from := r.to]))
    ensures Respond(s, r).1.Some? ==> Respond(s, r).0 == s
  {
    hide Acyclic, EndsAt, Passes;
    NamedChains(s.delegations);
    AcceptExact(s.delegations, r.from, r.to);
    FinalDelegate(s.delegations, r.to);
    RevokeEffect(s.delegations, r.from, r.from, r.from);
  }

  /** Every run from the empty map keeps the map acyclic and the stored count equal to its size. */
  lemma {:induction false} EveryRunSound(s: Store, requests: seq<Request>)
    requires Sound(s)
    ensures Sound(RunRequests(s, requests))
    decreases |requests|
  {
    if requests != [] {
      RespondSound(s, requests[0]);
      EveryRunSound(Respond(s, requests[0]).0, requests[1..]);
    }
  }

  lemma EmptySound()
    ensures Sound(Store(map[], 0, []))
  {
    forall x: Voter, n: nat | n > 0 ensures Follow(map[], x, n) != Some(x) {
      assert Follow(map[], x, n) == None;
    }
  }

  /** How one request moves the final delegate of x. */
  lemma RequestEffect(s: Store, r: Request, x: Voter, y: Voter)
    requires Sound(s) && Respond(s, r).1.None?
    ensures var m, m' := s.delegations, Respond(s, r).0.delegations;
            EndsAt(m', x, y) <==>
            if !Passes(m, x, r.from) then EndsAt(m, x, y)
            else if r.to == "" then y == r.from
            else EndsAt(m, r.to, y)
  {
    hide Acyclic, EndsAt, Passes;
    NamedChains(s.delegations);
    if r.to == "" {
      RevokeEffect(s.delegations, r.from, x, y);
    } else {
      DelegateEffect(s.delegations, r.from, r.to, x, y);
    }
  }

  /** In every reachable map each voter has exactly one final delegate; one more request, if it is
      accepted, moves exactly those whose chain passes through `from`: to the final delegate of
      `to`, or to `from` itself when it is a revocation. */
  lemma ReachableDelegates(requests: seq<Request>, r: Request, x: Voter, y: Voter)
    ensures var s := RunRequests(Store(map[], 0, []), requests); var m := s.delegations;
            && OneFinalDelegate(m, x)
            && (Respond(s, r).1.Some? ==> Respond(s, r).0 == s)
            && (Respond(s, r).1.None? ==>
                 (EndsAt(Respond(s, r).0.delegations, x, y) <==>
                  if !Passes(m, x, r.from) then EndsAt(m, x, y)
                  else if r.to == "" then y == r.from
                  else EndsAt(m, r.to, y)))
  {
    hide Acyclic, Passes, EndsAt, OneFinalDelegate, Respond, RunRequests;
    EmptySound();
    EveryRunSound(Store(map[], 0, []), requests);
    var s := RunRequests(Store(map[], 0, []), requests);
    FinalDelegate(s.delegations, x);
    RespondSound(s, r);
    if Respond(s, r).1.None? { RequestEffect(s, r, x, y); }
  }
}
