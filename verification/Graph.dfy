/** Reachability along parent links. */
module Graph {
  type Id = string

  datatype NodeData =
    | ProposalCreated(proposalId: string, title: string)
    | VoteCast(proposalId: string, voter: string, vote: real)
    | ProposalExecuted(proposalId: string, success: bool)
    | TokenMinted(resource: string, recipient: string, amount: real)

  datatype DagNode = DagNode(id: Id, parents: seq<Id>, timestamp: nat, namespace: string, data: NodeData)

  predicate Edge(g: map<Id, DagNode>, x: Id, y: Id) { x in g && y in g[x].parents }

  predicate IsPath(g: map<Id, DagNode>, p: seq<Id>) {
    |p| > 0 && forall i :: 0 <= i < |p| - 1 ==> Edge(g, p[i], p[i + 1])
  }

  ghost predicate Reaches(g: map<Id, DagNode>, x: Id, y: Id) {
    exists p :: IsPath(g, p) && p[0] == x && p[|p| - 1] == y
  }

  lemma ReachesSelf(g: map<Id, DagNode>, x: Id)
    ensures Reaches(g, x, x)
  {
    assert IsPath(g, [x]);
  }

  lemma ReachesNext(g: map<Id, DagNode>, x: Id, y: Id, z: Id)
    requires Reaches(g, x, y) && Edge(g, y, z)
    ensures Reaches(g, x, z)
  {
    var p :| IsPath(g, p) && p[0] == x && p[|p| - 1] == y;
    var q := p + [z];
    assert IsPath(g, q) && q[0] == x && q[|q| - 1] == z;
  }

  /** Every parent of a node of s that the graph holds is in s. */
  predicate Closed(g: map<Id, DagNode>, s: set<Id>) {
    forall x, y :: x in s && x in g && y in g[x].parents ==> y in s
  }

  lemma {:induction false} ClosedPath(g: map<Id, DagNode>, s: set<Id>, p: seq<Id>)
    requires Closed(g, s) && IsPath(g, p) && p[0] in s
    ensures p[|p| - 1] in s
    decreases |p|
  {
    if |p| > 1 {
      assert Edge(g, p[0], p[1]);
      var q := p[1..];
      forall i | 0 <= i < |q| - 1 ensures Edge(g, q[i], q[i + 1]) { assert Edge(g, p[i + 1], p[i + 2]); }
      ClosedPath(g, s, q);
    }
  }

  /** A closed set holds whatever can be reached from it. */
  lemma ClosedReaches(g: map<Id, DagNode>, s: set<Id>, x: Id, y: Id)
    requires Closed(g, s) && x in s && Reaches(g, x, y)
    ensures y in s
  {
    var p :| IsPath(g, p) && p[0] == x && p[|p| - 1] == y;
    ClosedPath(g, s, p);
  }
}
