/** The three governance steps that append to the ledger (crates/icn-covm/src/cli/proposal.rs)
    and what every run of them keeps. */
module Governance {
  import opened Values
  import opened Graph
  import opened Ledger
  import opened Sync

  datatype Step =
    | CreateProposal(proposalId: string, title: string, timestamp: nat, namespace: string)
    | CastVote(proposalId: string, voter: string, vote: string, timestamp: nat, namespace: string)
    | ExecuteProposal(proposalId: string, success: bool, timestamp: nat, namespace: string)

  predicate Creates(n: DagNode, proposalId: string) {
    n.data.ProposalCreated? && n.data.proposalId == proposalId
  }

  predicate VotesOn(n: DagNode, proposalId: string) {
    n.data.VoteCast? && n.data.proposalId == proposalId
  }

  /** The first node that created the proposal. */
  function FindProposalNode(nodes: seq<DagNode>, proposalId: string): (r: Option<Id>)
    ensures r.Some? ==> r.value in Ids(nodes)
    ensures r.None? <==> forall i :: 0 <= i < |nodes| ==> !Creates(nodes[i], proposalId)
    ensures forall i :: (0 <= i < |nodes| && Creates(nodes[i], proposalId)
                         && forall j :: 0 <= j < i ==> !Creates(nodes[j], proposalId)) ==> r == Some(nodes[i].id)
  {
    if nodes == [] then None
    else if Creates(nodes[0], proposalId) then
      assert nodes[0].id in Ids(nodes);
      Some(nodes[0].id)
    else
      IdsCons(nodes);
      assert forall i :: 0 < i < |nodes| ==> nodes[i] == nodes[1..][i - 1];
      FindProposalNode(nodes[1..], proposalId)
  }

  /** The ids of the votes on the proposal, in order. */
  function VoteIds(nodes: seq<DagNode>, proposalId: string): (r: seq<Id>)
    ensures forall x :: x in r ==> x in Ids(nodes)
  {
    if nodes == [] then []
    else
      IdsCons(nodes);
      (if VotesOn(nodes[0], proposalId) then [nodes[0].id] else []) + VoteIds(nodes[1..], proposalId)
  }

  /** The votes before a node, then its own id if it is a vote, then the votes behind it: every vote
      on the proposal stands in the list once, in the order of the ledger, and nothing else does. */
  lemma {:induction false} VotesExact(nodes: seq<DagNode>, proposalId: string, i: nat)
    requires i < |nodes|
    ensures VoteIds(nodes, proposalId) ==
            VoteIds(nodes[..i], proposalId) + (if VotesOn(nodes[i], proposalId) then [nodes[i].id] else [])
            + VoteIds(nodes[i + 1..], proposalId)
    decreases i
  {
    hide VoteIds;
    VotesUnfold(nodes, proposalId);
    VotesUnfold(nodes[..i], proposalId);
    if i > 0 {
      var rest := nodes[1..];
      VotesExact(rest, proposalId, i - 1);
      assert rest[..i - 1] == nodes[..i][1..] && rest[i..] == nodes[i + 1..];
    }
  }

  lemma VotesUnfold(nodes: seq<DagNode>, proposalId: string)
    ensures VoteIds(nodes, proposalId) ==
            if nodes == [] then []
            else (if VotesOn(nodes[0], proposalId) then [nodes[0].id] else []) + VoteIds(nodes[1..], proposalId)
  {
  }

  /** The number recorded for a vote, given in lower case. */
  function VoteNumber(vote: string): real {
    if vote == "yes" then 1.0 else if vote == "no" then 0.0 else if vote == "abstain" then 0.5 else -1.0
  }

  function DraftOf(nodes: seq<DagNode>, s: Step): Draft {
    match s
    case CreateProposal(p, title, ts, ns) => Draft([], ts, ns, ProposalCreated(p, title))
    case CastVote(p, voter, vote, ts, ns) =>
      var proposal := FindProposalNode(nodes, p);
      Draft(if proposal.Some? then [proposal.value] else [], ts, ns, VoteCast(p, voter, VoteNumber(vote)))
    case ExecuteProposal(p, success, ts, ns) => Draft(VoteIds(nodes, p), ts, ns, ProposalExecuted(p, success))
  }

  function After(hash: Draft -> Id, nodes: seq<DagNode>, s: Step): seq<DagNode> {
    nodes + [Seal(hash, DraftOf(nodes, s))]
  }

  function AfterAll(hash: Draft -> Id, nodes: seq<DagNode>, steps: seq<Step>): seq<DagNode>
    decreases |steps|
  {
    if steps == [] then nodes else AfterAll(hash, After(hash, nodes, steps[0]), steps[1..])
  }

  /** A step taken on the ledger itself. */
  method Record(hash: Draft -> Id, ledger: DagLedger, s: Step) returns (id: Id)
    modifies ledger
    ensures ledger.nodes == After(hash, old(ledger.nodes), s)
    ensures id == hash(DraftOf(old(ledger.nodes), s))
  {
    id := ledger.Append(hash, DraftOf(ledger.nodes, s));
  }

  /** In every run each parent id is the id of a strictly earlier node, whatever the hash. */
  lemma {:induction false} RunsParentsFirst(hash: Draft -> Id, nodes: seq<DagNode>, steps: seq<Step>)
    requires ParentsFirst(nodes)
    ensures ParentsFirst(AfterAll(hash, nodes, steps))
    decreases |steps|
  {
    if steps != [] {
      ParentsFirstSnoc(nodes, Seal(hash, DraftOf(nodes, steps[0])));
      RunsParentsFirst(hash, After(hash, nodes, steps[0]), steps[1..]);
    }
  }

  /** The place of the node that lookups find under an id. */
  function FirstIndex(nodes: seq<DagNode>, id: Id): (i: nat)
    requires id in Ids(nodes)
    ensures i < |nodes| && Some(nodes[i]) == FindById(nodes, id)
    ensures forall k :: 0 <= k < i ==> nodes[k].id != id
  {
    if nodes[0].id == id then 0
    else
      IdsCons(nodes);
      1 + FirstIndex(nodes[1..], id)
  }

  /** Along a parent link the place in the ledger goes down. */
  lemma ParentEarlier(nodes: seq<DagNode>, x: Id, y: Id)
    requires ParentsFirst(nodes) && Edge(Index(nodes), x, y)
    ensures y in Ids(nodes) && FirstIndex(nodes, y) < FirstIndex(nodes, x)
  {
    var j := FirstIndex(nodes, x);
    assert nodes[j] == Index(nodes)[x];
    assert y in Ids(nodes[..j]);
    var k :| 0 <= k < j && nodes[..j][k].id == y;
    assert nodes[k].id == y;
  }

  lemma {:induction false} PathEarlier(nodes: seq<DagNode>, p: seq<Id>)
    requires ParentsFirst(nodes) && IsPath(Index(nodes), p) && |p| > 1
    ensures p[0] in Ids(nodes) && p[|p| - 1] in Ids(nodes)
    ensures FirstIndex(nodes, p[|p| - 1]) < FirstIndex(nodes, p[0])
    decreases |p|
  {
    var g := Index(nodes);
    assert Edge(g, p[0], p[1]);
    ParentEarlier(nodes, p[0], p[1]);
    if |p| > 2 {
      var q := p[1..];
      forall i | 0 <= i < |q| - 1 ensures Edge(g, q[i], q[i + 1]) { assert Edge(g, p[i + 1], p[i + 2]); }
      PathEarlier(nodes, q);
    }
  }

  /** The parent graph of every run is acyclic. */
  lemma RunsAcyclic(hash: Draft -> Id, steps: seq<Step>, p: seq<Id>)
    requires IsPath(Index(AfterAll(hash, [], steps)), p) && |p| > 1
    ensures p[0] != p[|p| - 1]
  {
    RunsParentsFirst(hash, [], steps);
    PathEarlier(AfterAll(hash, [], steps), p);
  }

  /** Tracing any node of any run finds every parent. */
  lemma RunsTraceable(hash: Draft -> Id, steps: seq<Step>, node: DagNode)
    requires node in AfterAll(hash, [], steps)
    ensures ParentsPresent(AfterAll(hash, [], steps), node)
  {
    var nodes := AfterAll(hash, [], steps);
    RunsParentsFirst(hash, [], steps);
    var g := TraceGraph(nodes, node);
    forall x, y | Reaches(g, node.id, x) && Edge(g, x, y) ensures y in Ids(nodes) {
      assert g[x] in nodes;
      var j :| 0 <= j < |nodes| && nodes[j] == g[x];
      assert y in Ids(nodes[..j]);
      IdsPrefix(nodes, j, |nodes|);
      assert nodes[..|nodes|] == nodes;
    }
  }
}
