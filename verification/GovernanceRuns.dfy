/** What the ledger holds after a run of governance steps: one node for each step, with its data and
    with exactly the right parents. */
module GovernanceRuns {
  import opened Values
  import opened Graph
  import opened Ledger
  import opened Governance

  function RunOf(hash: Draft -> Id, steps: seq<Step>): seq<DagNode> { AfterAll(hash, [], steps) }

  predicate CreatesAt(steps: seq<Step>, i: nat, p: string) {
    i < |steps| && steps[i].CreateProposal? && steps[i].proposalId == p
  }

  predicate VotesAt(steps: seq<Step>, i: nat, p: string) {
    i < |steps| && steps[i].CastVote? && steps[i].proposalId == p
  }

  /** Step c is the first to create the proposal. */
  predicate FirstCreation(steps: seq<Step>, c: nat, p: string) {
    CreatesAt(steps, c, p) && forall i :: 0 <= i < c ==> !CreatesAt(steps, i, p)
  }

  /** The node carries what its step said. */
  predicate Carries(n: DagNode, s: Step) {
    && n.timestamp == s.timestamp && n.namespace == s.namespace && !n.data.TokenMinted?
    && n.data.proposalId == s.proposalId
    && match s
       case CreateProposal(_, title, _, _) => n.data.ProposalCreated? && n.data.title == title
       case CastVote(_, voter, vote, _, _) => n.data.VoteCast? && n.data.voter == voter && Recorded(vote, n.data.vote)
       case ExecuteProposal(_, success, _, _) => n.data.ProposalExecuted? && n.data.success == success
  }

  /** The number tells yes, no, abstain and anything else apart. */
  predicate Recorded(vote: string, number: real) {
    && (number == 1.0 <==> vote == "yes") && (number == 0.0 <==> vote == "no") && (number == 0.5 <==> vote == "abstain")
    && number in {1.0, 0.0, 0.5, -1.0}
  }

  /** Running more steps keeps the nodes that are there, and adds for each step the node drafted from
      the ledger as it was then. */
  lemma {:induction false} RunNodes(hash: Draft -> Id, nodes: seq<DagNode>, steps: seq<Step>)
    ensures var all := AfterAll(hash, nodes, steps);
            && |all| == |nodes| + |steps| && nodes <= all
            && forall i :: 0 <= i < |steps| ==>
                 all[|nodes| + i] == Seal(hash, DraftOf(all[..|nodes| + i], steps[i]))
    decreases |steps|
  {
    hide DraftOf, Seal;
    if steps != [] {
      var next := After(hash, nodes, steps[0]);
      var all := AfterAll(hash, next, steps[1..]);
      RunNodes(hash, next, steps[1..]);
      forall i | 0 <= i < |steps|
        ensures all[|nodes| + i] == Seal(hash, DraftOf(all[..|nodes| + i], steps[i]))
      {
        if i == 0 {
          assert all[..|nodes|] == nodes;
          assert all[|nodes|] == next[|nodes|];
        } else {
          assert steps[1..][i - 1] == steps[i] && |next| + (i - 1) == |nodes| + i;
        }
      }
    }
  }

  lemma NodeOf(hash: Draft -> Id, steps: seq<Step>, i: nat)
    requires i < |steps|
    ensures var nodes := RunOf(hash, steps);
            |nodes| == |steps| && nodes[i] == Seal(hash, DraftOf(nodes[..i], steps[i]))
  {
    hide DraftOf, Seal, AfterAll;
    RunNodes(hash, [], steps);
    var nodes := RunOf(hash, steps);
    assert nodes[0 + i] == nodes[i] && nodes[..0 + i] == nodes[..i];
  }

  /** Every step leaves one node, in order, and the node carries the proposal, the person, the vote or
      the outcome, the time and the namespace of its step. */
  lemma StepsRecorded(hash: Draft -> Id, steps: seq<Step>, i: nat)
    requires i < |steps|
    ensures var nodes := RunOf(hash, steps); |nodes| == |steps| && Carries(nodes[i], steps[i])
  {
    hide RunOf, FindProposalNode, VoteIds;
    NodeOf(hash, steps, i);
  }

  lemma KindsMatch(hash: Draft -> Id, steps: seq<Step>, i: nat, p: string)
    requires i < |steps|
    ensures var nodes := RunOf(hash, steps);
            && |nodes| == |steps| && (Creates(nodes[i], p) <==> CreatesAt(steps, i, p))
            && (VotesOn(nodes[i], p) <==> VotesAt(steps, i, p))
  {
    hide RunOf;
    StepsRecorded(hash, steps, i);
  }

  /** A vote cast after its proposal was created has the first creating node as its only parent; a vote
      cast before has none; a creation never has any. */
  lemma VoteParent(hash: Draft -> Id, steps: seq<Step>, j: nat, c: nat)
    requires j < |steps|
    ensures var nodes := RunOf(hash, steps); var p := steps[j].proposalId;
            && |nodes| == |steps|
            && (steps[j].CreateProposal? ==> nodes[j].parents == [])
            && (steps[j].CastVote? && c < j && FirstCreation(steps, c, p) ==> nodes[j].parents == [nodes[c].id])
            && (steps[j].CastVote? && (forall i :: 0 <= i < j ==> !CreatesAt(steps, i, p)) ==> nodes[j].parents == [])
  {
    hide RunOf, VoteIds, Creates;
    var nodes, p := RunOf(hash, steps), steps[j].proposalId;
    NodeOf(hash, steps, j);
    forall i | 0 <= i < j
      ensures nodes[..j][i] == nodes[i] && (Creates(nodes[i], p) <==> CreatesAt(steps, i, p))
    {
      KindsMatch(hash, steps, i, p);
    }
    if steps[j].CastVote? && c < j && FirstCreation(steps, c, p) {
      assert Creates(nodes[..j][c], p) && forall i :: 0 <= i < c ==> !Creates(nodes[..j][i], p);
    }
  }

  /** The places of the votes on a proposal among the first n steps, in order. */
  function VotePlaces(steps: seq<Step>, n: nat, p: string): seq<nat>
    requires n <= |steps|
  {
    if n == 0 then [] else VotePlaces(steps, n - 1, p) + if VotesAt(steps, n - 1, p) then [n - 1] else []
  }

  lemma {:induction false} PlacesExact(steps: seq<Step>, n: nat, p: string)
    requires n <= |steps|
    ensures var places := VotePlaces(steps, n, p);
            && (forall i: nat :: i in places <==> i < n && VotesAt(steps, i, p))
            && (forall a, b :: 0 <= a < b < |places| ==> places[a] < places[b])
  {
    if n > 0 {
      PlacesExact(steps, n - 1, p);
      var front := VotePlaces(steps, n - 1, p);
      forall a | 0 <= a < |front| ensures front[a] < n - 1 {
        assert front[a] in front;
      }
    }
  }

  /** An execution has as parents exactly the earlier votes on its proposal, once each and in order. */
  lemma ExecutionParents(hash: Draft -> Id, steps: seq<Step>, j: nat)
    requires j < |steps| && steps[j].ExecuteProposal?
    ensures var nodes := RunOf(hash, steps); var places := VotePlaces(steps, j, steps[j].proposalId);
            && |nodes| == |steps| && |nodes[j].parents| == |places|
            && forall k :: 0 <= k < |places| ==> places[k] < j && nodes[j].parents[k] == nodes[places[k]].id
  {
    hide RunOf, VoteIds, VotePlaces;
    NodeOf(hash, steps, j);
    VoteIdsPlaced(hash, steps, j, steps[j].proposalId);
  }

  lemma {:induction false} VoteIdsPlaced(hash: Draft -> Id, steps: seq<Step>, n: nat, p: string)
    requires n <= |steps|
    ensures var nodes := RunOf(hash, steps); var places := VotePlaces(steps, n, p);
            && |nodes| == |steps| && |VoteIds(nodes[..n], p)| == |places|
            && forall k :: 0 <= k < |places| ==> places[k] < n && VoteIds(nodes[..n], p)[k] == nodes[places[k]].id
    decreases n
  {
    hide RunOf, VoteIds, AfterAll;
    var nodes := RunOf(hash, steps);
    RunLength(hash, steps);
    if n == 0 {
      VotesUnfold(nodes[..0], p);
    } else {
      VoteIdsPlaced(hash, steps, n - 1, p);
      KindsMatch(hash, steps, n - 1, p);
      var front := nodes[..n];
      VotesExact(front, p, n - 1);
      assert front[..n - 1] == nodes[..n - 1] && front[n..] == [];
      VotesUnfold([], p);
    }
  }

  lemma RunLength(hash: Draft -> Id, steps: seq<Step>)
    ensures |RunOf(hash, steps)| == |steps|
  {
    RunNodes(hash, [], steps);
  }

  // ---------- the trace of an execution ----------

  /** Equal ids mean equal nodes: the hash has not collided. */
  predicate CollisionFree(nodes: seq<DagNode>) {
    forall i, j :: 0 <= i < |nodes| && 0 <= j < |nodes| && nodes[i].id == nodes[j].id ==> nodes[i] == nodes[j]
  }

  /** A hash without collisions makes every run free of them. */
  lemma NoCollisions(hash: Draft -> Id, steps: seq<Step>)
    requires forall d, d' :: hash(d) == hash(d') ==> d == d'
    ensures CollisionFree(RunOf(hash, steps))
  {
    hide RunOf, DraftOf;
    var nodes := RunOf(hash, steps);
    RunLength(hash, steps);
    forall i, j | 0 <= i < |nodes| && 0 <= j < |nodes| && nodes[i].id == nodes[j].id
      ensures nodes[i] == nodes[j]
    {
      NodeOf(hash, steps, i);
      NodeOf(hash, steps, j);
    }
  }

  /** Without collisions a lookup under the id of a node gives that node. */
  lemma Looked(nodes: seq<DagNode>, root: DagNode, i: nat)
    requires CollisionFree(nodes) && root in nodes && i < |nodes|
    ensures var g := TraceGraph(nodes, root); nodes[i].id in g && g[nodes[i].id] == nodes[i]
  {
    hide FindById;
    var g, x := TraceGraph(nodes, root), nodes[i].id;
    assert x in Ids(nodes);
    var k :| 0 <= k < |nodes| && nodes[k] == root;
    if x != root.id {
      var n := Index(nodes)[x];
      assert n in nodes by { assert FindById(nodes, x) == Some(n); }
      var l :| 0 <= l < |nodes| && nodes[l] == n;
    }
  }

  /** What belongs to the execution at step j: itself, the earlier votes on its proposal, and the
      proposal's first creation if such a vote came after it. */
  ghost predicate Belongs(hash: Draft -> Id, steps: seq<Step>, j: nat, x: Id)
    requires j < |steps| && |RunOf(hash, steps)| == |steps|
  {
    var nodes, p := RunOf(hash, steps), steps[j].proposalId;
    || x == nodes[j].id
    || (exists i: nat :: i < j && VotesAt(steps, i, p) && x == nodes[i].id)
    || (exists c: nat, i: nat :: c < i < j && FirstCreation(steps, c, p) && VotesAt(steps, i, p) && x == nodes[c].id)
  }

  /** The graph of a trace around node i of the run. */
  lemma ParentsOf(hash: Draft -> Id, steps: seq<Step>, j: nat, i: nat, y: Id)
    requires j < |steps| && i < |steps| && CollisionFree(RunOf(hash, steps))
    ensures |RunOf(hash, steps)| == |steps|
    ensures var nodes := RunOf(hash, steps);
            Edge(TraceGraph(nodes, nodes[j]), nodes[i].id, y) <==> y in nodes[i].parents
  {
    hide RunOf, FindById;
    var nodes := RunOf(hash, steps);
    RunLength(hash, steps);
    Looked(nodes, nodes[j], i);
  }

  lemma ExecutionReaches(hash: Draft -> Id, steps: seq<Step>, j: nat, x: Id)
    requires j < |steps| && steps[j].ExecuteProposal? && CollisionFree(RunOf(hash, steps))
    requires |RunOf(hash, steps)| == |steps| && Belongs(hash, steps, j, x)
    ensures var nodes := RunOf(hash, steps); Reaches(TraceGraph(nodes, nodes[j]), nodes[j].id, x)
  {
    hide RunOf, Reaches, TraceGraph;
    var nodes, p := RunOf(hash, steps), steps[j].proposalId;
    var g, id := TraceGraph(nodes, nodes[j]), nodes[j].id;
    ReachesSelf(g, id);
    forall i: nat | i < j && VotesAt(steps, i, p)
      ensures Reaches(g, id, nodes[i].id)
    {
      VoteIsParent(hash, steps, j, i);
      ParentsOf(hash, steps, j, j, nodes[i].id);
      ReachesNext(g, id, id, nodes[i].id);
    }
    if x != id && !exists i: nat :: i < j && VotesAt(steps, i, p) && x == nodes[i].id {
      var c: nat, i: nat :| c < i < j && FirstCreation(steps, c, p) && VotesAt(steps, i, p) && x == nodes[c].id;
      VoteParent(hash, steps, i, c);
      ParentsOf(hash, steps, j, i, x);
      ReachesNext(g, id, nodes[i].id, x);
    }
  }

  lemma VoteIsParent(hash: Draft -> Id, steps: seq<Step>, j: nat, i: nat)
    requires i < j < |steps| && steps[j].ExecuteProposal? && VotesAt(steps, i, steps[j].proposalId)
    ensures |RunOf(hash, steps)| == |steps| && RunOf(hash, steps)[i].id in RunOf(hash, steps)[j].parents
  {
    hide RunOf, VotePlaces;
    ExecutionParents(hash, steps, j);
    PlacesExact(steps, j, steps[j].proposalId);
    var places := VotePlaces(steps, j, steps[j].proposalId);
    var k :| 0 <= k < |places| && places[k] == i;
  }

  /** Nothing else can be reached. */
  lemma BelongsClosed(hash: Draft -> Id, steps: seq<Step>, j: nat, x: Id, y: Id)
    requires j < |steps| && steps[j].ExecuteProposal? && CollisionFree(RunOf(hash, steps))
    requires |RunOf(hash, steps)| == |steps| && Belongs(hash, steps, j, x)
    requires var nodes := RunOf(hash, steps); Edge(TraceGraph(nodes, nodes[j]), x, y)
    ensures Belongs(hash, steps, j, y)
  {
    hide RunOf, TraceGraph, VotePlaces, Edge;
    var nodes, p := RunOf(hash, steps), steps[j].proposalId;
    if x == nodes[j].id {
      ParentsOf(hash, steps, j, j, y);
      ExecutionParents(hash, steps, j);
      PlacesExact(steps, j, p);
      var places := VotePlaces(steps, j, p);
      var k :| 0 <= k < |nodes[j].parents| && nodes[j].parents[k] == y;
      assert places[k] in places;
    } else if i: nat :| i < j && VotesAt(steps, i, p) && x == nodes[i].id {
      ParentsOf(hash, steps, j, i, y);
      if c: nat :| c < i && FirstCreation(steps, c, p) {
        VoteParent(hash, steps, i, c);
      } else {
        NoneCreated(steps, i, p);
        VoteParent(hash, steps, i, 0);
      }
    } else {
      var c: nat, i: nat :| c < i < j && FirstCreation(steps, c, p) && VotesAt(steps, i, p) && x == nodes[c].id;
      ParentsOf(hash, steps, j, c, y);
      VoteParent(hash, steps, c, 0);
    }
  }

  lemma {:induction false} NoneCreated(steps: seq<Step>, n: nat, p: string)
    requires n <= |steps| && forall c: nat :: c < n ==> !FirstCreation(steps, c, p)
    ensures forall i :: 0 <= i < n ==> !CreatesAt(steps, i, p)
    decreases n
  {
    if n > 0 {
      NoneCreated(steps, n - 1, p);
      assert !FirstCreation(steps, n - 1, p);
    }
  }

  /** The trace of an execution lists the execution, exactly the earlier votes on its proposal, and the
      node that first created the proposal if one of those votes was cast after it; nothing is missing. */
  lemma ExecutionTrace(hash: Draft -> Id, steps: seq<Step>, j: nat, x: Id)
    requires j < |steps| && steps[j].ExecuteProposal? && CollisionFree(RunOf(hash, steps))
    ensures var nodes := RunOf(hash, steps);
            && |nodes| == |steps| && ParentsPresent(nodes, nodes[j])
            && (Reaches(TraceGraph(nodes, nodes[j]), nodes[j].id, x) <==> Belongs(hash, steps, j, x))
  {
    RunLength(hash, steps);
    var nodes := RunOf(hash, steps);
    RunsTraceable(hash, steps, nodes[j]);
    hide RunOf, Reaches, TraceGraph, Belongs;
    var g, id := TraceGraph(nodes, nodes[j]), nodes[j].id;
    if Belongs(hash, steps, j, x) { ExecutionReaches(hash, steps, j, x); }
    if Reaches(g, id, x) {
      OwnBelongs(hash, steps, j);
      ReachesKept(hash, steps, j, x);
    }
  }

  lemma OwnBelongs(hash: Draft -> Id, steps: seq<Step>, j: nat)
    requires j < |steps| && |RunOf(hash, steps)| == |steps|
    ensures Belongs(hash, steps, j, RunOf(hash, steps)[j].id)
  {
  }

  lemma ReachesKept(hash: Draft -> Id, steps: seq<Step>, j: nat, x: Id)
    requires j < |steps| && steps[j].ExecuteProposal? && CollisionFree(RunOf(hash, steps))
    requires |RunOf(hash, steps)| == |steps| && Belongs(hash, steps, j, RunOf(hash, steps)[j].id)
    requires var nodes := RunOf(hash, steps); Reaches(TraceGraph(nodes, nodes[j]), nodes[j].id, x)
    ensures Belongs(hash, steps, j, x)
  {
    hide RunOf, TraceGraph, Belongs, Edge;
    var nodes := RunOf(hash, steps);
    var g := TraceGraph(nodes, nodes[j]);
    var path :| IsPath(g, path) && path[0] == nodes[j].id && path[|path| - 1] == x;
    var k := 0;
    while k < |path| - 1
      invariant k < |path| && Belongs(hash, steps, j, path[k])
    {
      BelongsClosed(hash, steps, j, path[k], path[k + 1]);
      k := k + 1;
    }
  }

  // ---------- why the hash must not collide ----------

  /** A hash that tells votes apart from everything else, but not from each other. */
  function Blind(d: Draft): Id {
    match d.data
    case ProposalCreated(p, _) => p
    case VoteCast(_, _, _) => "votes"
    case _ => "other"
  }

  const MISLED := [
    CreateProposal("p", "", 0, ""), CreateProposal("q", "", 0, ""),
    CastVote("q", "bob", "yes", 0, ""), CastVote("p", "bob", "yes", 0, ""),
    ExecuteProposal("p", true, 0, "")]

  /** With such a hash the trace of the execution of one proposal leads to the creation of another. */
  lemma CollisionMisleads()
    ensures var nodes := RunOf(Blind, MISLED);
            && |nodes| == 5 && !CollisionFree(nodes)
            && Reaches(TraceGraph(nodes, nodes[4]), nodes[4].id, "q") && !Belongs(Blind, MISLED, 4, "q")
  {
    BlindNodes();
    hide RunOf, Reaches, TraceGraph, Belongs;
    var nodes := RunOf(Blind, MISLED);
    LedAstray(nodes);
    NotItsOwn();
    assert nodes[2].id == nodes[3].id && nodes[2].parents != nodes[3].parents;
  }

  lemma LedAstray(nodes: seq<DagNode>)
    requires |nodes| == 5 && nodes[0].id == "p" && nodes[1].id == "q" && nodes[2].id == "votes"
             && nodes[4].id == "other"
    requires nodes[2].parents == ["q"] && "votes" in nodes[4].parents
    ensures Reaches(TraceGraph(nodes, nodes[4]), "other", "q")
  {
    hide FindById, Reaches;
    FindsFirst(nodes, "votes", 2);
    var g := TraceGraph(nodes, nodes[4]);
    assert "votes" in Ids(nodes) by { assert nodes[2].id == "votes"; }
    assert Edge(g, "other", "votes") && Edge(g, "votes", "q");
    ReachesSelf(g, "other");
    ReachesNext(g, "other", "other", "votes");
    ReachesNext(g, "other", "votes", "q");
  }

  lemma NotItsOwn()
    ensures |RunOf(Blind, MISLED)| == 5 && !Belongs(Blind, MISLED, 4, "q")
  {
    BlindNodes();
    hide RunOf;
    var nodes := RunOf(Blind, MISLED);
    assert CreatesAt(MISLED, 0, "p");
    forall i: nat | i < 4 && VotesAt(MISLED, i, "p") ensures i == 3 { }
    forall c: nat | c < 4 && FirstCreation(MISLED, c, "p") ensures c == 0 { }
  }

  lemma BlindNodes()
    ensures var nodes := RunOf(Blind, MISLED);
            && |nodes| == 5 && nodes[0].id == "p" && nodes[1].id == "q" && nodes[2].id == "votes"
            && nodes[3].id == "votes" && nodes[4].id == "other"
            && nodes[2].parents == ["q"] && nodes[3].parents == ["p"] && "votes" in nodes[4].parents
  {
    hide RunOf, FindProposalNode, VoteIds;
    NodeOf(Blind, MISLED, 0);
    NodeOf(Blind, MISLED, 1);
    NodeOf(Blind, MISLED, 2);
    NodeOf(Blind, MISLED, 3);
    NodeOf(Blind, MISLED, 4);
    assert FirstCreation(MISLED, 0, "p") && FirstCreation(MISLED, 1, "q");
    VoteParent(Blind, MISLED, 2, 1);
    VoteParent(Blind, MISLED, 3, 0);
    VoteIsParent(Blind, MISLED, 4, 3);
  }
}
