/** The DAG ledger (crates/icn-ledger/src/lib.rs): traversals, import, diff and the governance
    steps that append to it. The hash of a node is a parameter. */
module Ledger {
  import opened Values
  import opened Graph

  function Ids(nodes: seq<DagNode>): set<Id> { set i | 0 <= i < |nodes| :: nodes[i].id }

  /** The first node with the id, as every lookup finds it. */
  function FindById(nodes: seq<DagNode>, id: Id): (r: Option<DagNode>)
    ensures r.Some? <==> id in Ids(nodes)
    ensures r.Some? ==> r.value.id == id && r.value in nodes
  {
    if nodes == [] then None
    else if nodes[0].id == id then
      assert nodes[0].id in Ids(nodes);
      Some(nodes[0])
    else
      IdsCons(nodes);
      FindById(nodes[1..], id)
  }

  /** It is the first one. */
  lemma {:induction false} FindsFirst(nodes: seq<DagNode>, id: Id, i: nat)
    requires i < |nodes| && nodes[i].id == id && forall j :: 0 <= j < i ==> nodes[j].id != id
    ensures FindById(nodes, id) == Some(nodes[i])
  {
    if i > 0 { FindsFirst(nodes[1..], id, i - 1); }
  }

  lemma IdsCons(nodes: seq<DagNode>)
    requires nodes != []
    ensures Ids(nodes) == {nodes[0].id} + Ids(nodes[1..])
  {
    assert forall i :: 0 < i < |nodes| ==> nodes[1..][i - 1] == nodes[i];
    forall x | x in Ids(nodes) ensures x in {nodes[0].id} + Ids(nodes[1..]) {
      var i :| 0 <= i < |nodes| && nodes[i].id == x;
      if i > 0 { assert nodes[1..][i - 1].id == x; }
    }
    forall x | x in Ids(nodes[1..]) ensures x in Ids(nodes) {
      var i :| 0 <= i < |nodes[1..]| && nodes[1..][i].id == x;
      assert nodes[i + 1].id == x;
    }
  }

  lemma IdsSnoc(nodes: seq<DagNode>, n: DagNode)
    ensures Ids(nodes + [n]) == Ids(nodes) + {n.id}
  {
    var all := nodes + [n];
    assert all[|nodes|] == n;
    forall x | x in Ids(nodes) + {n.id} ensures x in Ids(all) {
      if x in Ids(nodes) {
        var i :| 0 <= i < |nodes| && nodes[i].id == x;
        assert all[i].id == x;
      }
    }
  }

  /** What lookups see: each id with the node found under it. */
  function Index(nodes: seq<DagNode>): (g: map<Id, DagNode>)
    ensures g.Keys == Ids(nodes)
    ensures forall x :: x in g ==> g[x].id == x && Some(g[x]) == FindById(nodes, x)
  {
    map x | x in Ids(nodes) :: FindById(nodes, x).value
  }

  predicate DistinctIds(nodes: seq<DagNode>) {
    forall i, j :: 0 <= i < j < |nodes| ==> nodes[i].id != nodes[j].id
  }

  /** The result of a traversal: the visited nodes that exist, each once, as the graph has them. */
  ghost predicate Lists(g: map<Id, DagNode>, visited: set<Id>, result: seq<DagNode>) {
    && DistinctIds(result)
    && Ids(result) == visited * g.Keys
    && forall i :: 0 <= i < |result| ==> result[i].id in g && result[i] == g[result[i].id]
  }

  lemma ListsNone(g: map<Id, DagNode>)
    ensures Lists(g, {}, [])
  {
  }

  lemma ListsMore(g: map<Id, DagNode>, visited: set<Id>, result: seq<DagNode>, x: Id)
    requires Lists(g, visited, result) && x !in visited && x in g && g[x].id == x
    ensures Lists(g, visited + {x}, result + [g[x]])
  {
    IdsSnoc(result, g[x]);
    assert forall i :: 0 <= i < |result| ==> result[i].id in Ids(result);
  }

  lemma ListsAbsent(g: map<Id, DagNode>, visited: set<Id>, result: seq<DagNode>, x: Id)
    requires Lists(g, visited, result) && x !in g
    ensures Lists(g, visited + {x}, result)
  {
    assert (visited + {x}) * g.Keys == visited * g.Keys;
  }

  /** Nodes first visited between two moments have all their parents visited at the second. */
  ghost predicate Settled(g: map<Id, DagNode>, before: set<Id>, after: set<Id>) {
    forall x, y :: x in after && x !in before && x in g && y in g[x].parents ==> y in after
  }

  /** Every parent of every node is there. */
  predicate ParentClosed(nodes: seq<DagNode>) {
    forall n, y :: n in nodes && y in n.parents ==> y in Ids(nodes)
  }

  /** What can be reached from the start ids, on a ledger that holds every parent, holds every parent. */
  lemma ExportClosed(nodes: seq<DagNode>, startIds: seq<Id>, result: seq<DagNode>)
    requires ParentClosed(nodes)
    requires forall n :: n in result ==> FindById(nodes, n.id) == Some(n)
    requires forall id :: id in Ids(result) <==>
               id in Ids(nodes) && exists s :: s in startIds && Reaches(Index(nodes), s, id)
    ensures ParentClosed(result)
  {
    hide Reaches;
    var g := Index(nodes);
    forall n, y | n in result && y in n.parents ensures y in Ids(result) {
      var i :| 0 <= i < |result| && result[i] == n;
      assert n.id in Ids(result);
      var s :| s in startIds && Reaches(g, s, n.id);
      assert Edge(g, n.id, y);
      ReachesNext(g, s, n.id, y);
    }
  }

  // ---------- import and diff ----------

  /** Adds the nodes whose ids are not there yet, in order. */
  function Merge(nodes: seq<DagNode>, incoming: seq<DagNode>): seq<DagNode>
    decreases |incoming|
  {
    if incoming == [] then nodes
    else Merge(if incoming[0].id in Ids(nodes) then nodes else nodes + [incoming[0]], incoming[1..])
  }

  /** A line of a ledger file: a node, or a blank or malformed line. */
  datatype Line = Node(node: DagNode) | Skipped

  function Parsed(file: seq<Line>): seq<DagNode> {
    if file == [] then [] else (if file[0].Node? then [file[0].node] else []) + Parsed(file[1..])
  }

  lemma NothingParsed(nodes: seq<DagNode>)
    ensures Merge(nodes, Parsed([])) == nodes
  {
  }

  lemma ParsedStep(nodes: seq<DagNode>, lines: seq<Line>, i: nat)
    requires i < |lines|
    ensures Merge(nodes, Parsed(lines[i..])) ==
            if lines[i].Skipped? || lines[i].node.id in Ids(nodes) then Merge(nodes, Parsed(lines[i + 1..]))
            else Merge(nodes + [lines[i].node], Parsed(lines[i + 1..]))
  {
    hide Ids;
    var rest := lines[i..];
    assert rest[0] == lines[i] && rest[1..] == lines[i + 1..];
    if rest[0].Skipped? {
      assert Parsed(rest) == Parsed(rest[1..]);
    } else {
      assert Parsed(rest)[0] == rest[0].node && Parsed(rest)[1..] == Parsed(rest[1..]);
    }
  }

  /** The nodes whose ids are not among the given ones. */
  function Without(nodes: seq<DagNode>, ids: set<Id>): (r: seq<DagNode>)
    ensures forall n :: n in r <==> n in nodes && n.id !in ids
  {
    if nodes == [] then []
    else (if nodes[0].id in ids then [] else [nodes[0]]) + Without(nodes[1..], ids)
  }

  datatype DagDiff = DagDiff(added: seq<DagNode>, removed: seq<DagNode>, common: set<Id>)

  function DiffWith(mine: seq<DagNode>, other: seq<DagNode>): DagDiff {
    DagDiff(Without(mine, Ids(other)), Without(other, Ids(mine)), Ids(mine) * Ids(other))
  }

  /** Every id is on exactly one side or on both: a node is listed as added or removed exactly when the
      other ledger lacks its id. The diff taken the other way swaps the sides. */
  lemma DiffSides(mine: seq<DagNode>, other: seq<DagNode>, n: DagNode)
    ensures var d := DiffWith(mine, other);
            && (n in d.added <==> n in mine && n.id !in Ids(other))
            && (n in d.removed <==> n in other && n.id !in Ids(mine))
            && (n.id in d.common <==> n.id in Ids(mine) && n.id in Ids(other))
            && DiffWith(other, mine) == DagDiff(d.removed, d.added, d.common)
  {
  }

  /** The file written for a diff: the added nodes, one per line. */
  function DiffFile(diff: DagDiff): seq<Line> {
    seq(|diff.added|, i requires 0 <= i < |diff.added| => Node(diff.added[i]))
  }

  // ---------- appending ----------

  /** A node as it is hashed, before it has an id. */
  datatype Draft = Draft(parents: seq<Id>, timestamp: nat, namespace: string, data: NodeData)

  function Seal(hash: Draft -> Id, d: Draft): DagNode {
    DagNode(hash(d), d.parents, d.timestamp, d.namespace, d.data)
  }

  /** The sealed node holds what was drafted, under the hash of it. */
  lemma SealKeeps(hash: Draft -> Id, d: Draft)
    ensures var n := Seal(hash, d);
            n.id == hash(d) && Draft(n.parents, n.timestamp, n.namespace, n.data) == d
  {
  }

  /** Each listed node is a start, or stands behind a node that names it as a parent. */
  predicate FromAbove(result: seq<DagNode>, starts: seq<Id>) {
    forall i :: 0 <= i < |result| ==> Named(result, i, result[i].id, starts)
  }

  /** The id is a start, or one of the first n nodes names it as a parent. */
  predicate Named(result: seq<DagNode>, n: nat, id: Id, starts: seq<Id>) {
    id in starts || exists j :: 0 <= j < n && j < |result| && id in result[j].parents
  }

  lemma FromAboveMore(result: seq<DagNode>, n: DagNode, starts: seq<Id>)
    requires FromAbove(result, starts) && Named(result, |result|, n.id, starts)
    ensures FromAbove(result + [n], starts)
  {
    var all := result + [n];
    forall i | 0 <= i < |all| ensures Named(all, i, all[i].id, starts) {
      NamedLonger(result, i, all[i].id, starts, all);
      if i < |result| { assert Named(result, i, result[i].id, starts); }
    }
  }

  lemma NamedLonger(result: seq<DagNode>, n: nat, id: Id, starts: seq<Id>, longer: seq<DagNode>)
    requires result <= longer
    ensures Named(result, n, id, starts) ==> Named(longer, n, id, starts)
  {
    if Named(result, n, id, starts) && id !in starts {
      var j :| 0 <= j < n && j < |result| && id in result[j].parents;
      assert longer[j] == result[j];
    }
  }

  lemma NamedBy(result: seq<DagNode>, j: nat, id: Id, starts: seq<Id>)
    requires j < |result| && id in result[j].parents
    ensures Named(result, |result|, id, starts)
  {
  }

  class DagLedger {
    var nodes: seq<DagNode>

    constructor ()
      ensures nodes == []
    {
      nodes := [];
    }

    method Append(hash: Draft -> Id, d: Draft) returns (id: Id)
      modifies this
      ensures nodes == old(nodes) + [Seal(hash, d)] && id == hash(d)
    {
      var node := Seal(hash, d);
      nodes := nodes + [node];
      return node.id;
    }

    /** Imports the missing nodes of a file; a file that does not exist holds none. */
    method ImportFromFile(file: Option<seq<Line>>) returns (added: nat)
      modifies this
      ensures nodes == Merge(old(nodes), if file.Some? then Parsed(file.value) else [])
      ensures added == |nodes| - |old(nodes)|
    {
      added := 0;
      if file.None? { return; }
      hide Merge, Parsed, Ids;
      var lines := file.value;
      var i := 0;
      assert lines[0..] == lines;
      while i < |lines|
        invariant i <= |lines|
        invariant Merge(nodes, Parsed(lines[i..])) == Merge(old(nodes), Parsed(lines))
        invariant added == |nodes| - |old(nodes)|
      {
        ParsedStep(nodes, lines, i);
        match lines[i] {
          case Skipped =>
          case Node(node) =>
            if node.id !in Ids(nodes) {
              nodes := nodes + [node];
              added := added + 1;
            }
        }
        i := i + 1;
      }
      assert lines[i..] == [];
      NothingParsed(nodes);
    }

    // ---------- export ----------

    /** The present nodes reachable from the start ids along parent links, each id once. */
    method ExportSelected(startIds: seq<Id>) returns (result: seq<DagNode>)
      ensures DistinctIds(result)
      ensures forall n :: n in result ==> FindById(nodes, n.id) == Some(n)
      ensures forall id :: id in Ids(result) <==>
                id in Ids(nodes) && exists s :: s in startIds && Reaches(Index(nodes), s, id)
      ensures ParentClosed(nodes) ==> ParentClosed(result)
      ensures FromAbove(result, startIds)
    {
      ghost var g := Index(nodes);
      result := [];
      var visited: set<Id> := {};
      ListsNone(g);
      var i := 0;
      while i < |startIds|
        invariant i <= |startIds|
        invariant Lists(g, visited, result) && Closed(g, visited) && FromAbove(result, startIds)
        invariant forall s :: s in startIds[..i] ==> s in visited
        invariant forall x :: x in visited ==> exists s :: s in startIds && Reaches(g, s, x)
      {
        hide Lists, FromAbove;
        ghost var before := visited;
        ReachesSelf(g, startIds[i]);
        result, visited := ExportRecursive(startIds[i], result, visited, startIds[i], startIds);
        forall x | x in visited ensures exists s :: s in startIds && Reaches(g, s, x) {
          if x !in before { assert startIds[i] in startIds && Reaches(g, startIds[i], x); }
        }
        assert startIds[..i + 1] == startIds[..i] + [startIds[i]];
        i := i + 1;
      }
      assert startIds[..i] == startIds;
      forall s, id | s in startIds && Reaches(g, s, id) ensures id in visited {
        ClosedReaches(g, visited, s, id);
      }
      forall n | n in result ensures FindById(nodes, n.id) == Some(n) {
        var j :| 0 <= j < |result| && result[j] == n;
        assert n == g[n.id];
      }
      if ParentClosed(nodes) { ExportClosed(nodes, startIds, result); }
    }

    method ExportRecursive(nodeId: Id, result0: seq<DagNode>, visited0: set<Id>, ghost root: Id, ghost starts: seq<Id>)
      returns (result: seq<DagNode>, visited: set<Id>)
      requires Lists(Index(nodes), visited0, result0) && Reaches(Index(nodes), root, nodeId)
      requires FromAbove(result0, starts) && Named(result0, |result0|, nodeId, starts)
      ensures FromAbove(result, starts) && result0 <= result
      ensures visited0 <= visited && nodeId in visited
      ensures Lists(Index(nodes), visited, result)
      ensures Settled(Index(nodes), visited0, visited)
      ensures forall x :: x in visited && x !in visited0 ==> Reaches(Index(nodes), root, x)
      decreases Ids(nodes) - visited0, 1
    {
      hide Lists, FindById, FromAbove, Named;
      result, visited := result0, visited0;
      if nodeId in visited { return; }
      ghost var g := Index(nodes);
      visited := visited + {nodeId};
      var found := FindById(nodes, nodeId);
      if found.Some? {
        ListsMore(g, visited0, result0, nodeId);
        FromAboveMore(result0, found.value, starts);
        result := result + [found.value];
        result, visited := ExportParents(found.value, result, visited, root, starts, |result0|);
      } else {
        ListsAbsent(g, visited0, result0, nodeId);
      }
    }

    /** The parents of a node that has just been listed. */
    method ExportParents(node: DagNode, result0: seq<DagNode>, visited0: set<Id>, ghost root: Id,
                         ghost starts: seq<Id>, ghost at: nat)
      returns (result: seq<DagNode>, visited: set<Id>)
      requires FromAbove(result0, starts) && at < |result0| && result0[at] == node
      ensures FromAbove(result, starts) && result0 <= result
      requires node.id in Ids(nodes) && Index(nodes)[node.id] == node && node.id in visited0
      requires Lists(Index(nodes), visited0, result0) && Reaches(Index(nodes), root, node.id)
      ensures visited0 <= visited && forall y :: y in node.parents ==> y in visited
      ensures Lists(Index(nodes), visited, result)
      ensures Settled(Index(nodes), visited0, visited)
      ensures forall x :: x in visited && x !in visited0 ==> Reaches(Index(nodes), root, x)
      decreases Ids(nodes) - visited0, 2
    {
      hide Lists, FindById, Reaches, FromAbove, Named;
      ghost var g := Index(nodes);
      result, visited := result0, visited0;
      var i := 0;
      while i < |node.parents|
        invariant i <= |node.parents| && visited0 <= visited && result0 <= result && FromAbove(result, starts)
        invariant forall y :: y in node.parents[..i] ==> y in visited
        invariant Lists(g, visited, result) && Settled(g, visited0, visited)
        invariant forall x :: x in visited && x !in visited0 ==> Reaches(g, root, x)
      {
        var parent := node.parents[i];
        assert Edge(g, node.id, parent);
        ReachesNext(g, root, node.id, parent);
        assert node.parents[..i + 1] == node.parents[..i] + [parent];
        NamedBy(result, at, parent, starts);
        result, visited := ExportRecursive(parent, result, visited, root, starts);
        i := i + 1;
      }
      assert node.parents[..i] == node.parents;
    }

    // ---------- trace ----------

    /** Lists a node and all its ancestors, each id once, unless some parent is missing. */
    method Trace(node: DagNode) returns (result: seq<DagNode>, missing: Option<Id>)
      ensures missing.None? <==> ParentsPresent(nodes, node)
      ensures missing.None? ==>
                && DistinctIds(result)
                && (forall id :: id in Ids(result) <==> Reaches(TraceGraph(nodes, node), node.id, id))
                && (forall n :: n in result ==> n == node || FindById(nodes, n.id) == Some(n))
                && FromAbove(result, [node.id])
    {
      hide FindById, Reaches;
      ghost var g := TraceGraph(nodes, node);
      ListsNone(g);
      ReachesSelf(g, node.id);
      var visited: set<Id>;
      result, visited, missing := TraceRecursive(node, [], {}, node);
      if missing.None? {
        forall x | Reaches(g, node.id, x) ensures x in visited {
          ClosedReaches(g, visited, node.id, x);
        }
        forall n | n in result ensures n == node || FindById(nodes, n.id) == Some(n) {
          var j :| 0 <= j < |result| && result[j] == n;
          assert n == g[n.id];
        }
      }
    }

    method TraceRecursive(node: DagNode, result0: seq<DagNode>, visited0: set<Id>, ghost root: DagNode)
      returns (result: seq<DagNode>, visited: set<Id>, missing: Option<Id>)
      requires FromAbove(result0, [root.id]) && Named(result0, |result0|, node.id, [root.id])
      ensures missing.None? ==> FromAbove(result, [root.id]) && result0 <= result
      requires var g := TraceGraph(nodes, root);
               && Lists(g, visited0, result0) && visited0 <= g.Keys
               && (node.id in visited0 || (node.id in g && g[node.id] == node && Reaches(g, root.id, node.id)))
               && (node == root || root.id in visited0)
      ensures var g := TraceGraph(nodes, root);
              match missing
              case None =>
                && visited0 <= visited <= g.Keys && node.id in visited
                && Lists(g, visited, result)
                && Traced(nodes, g, visited0, visited)
                && forall x :: x in visited && x !in visited0 ==> Reaches(g, root.id, x)
              case Some(_) => !ParentsPresent(nodes, root)
      decreases TraceGraph(nodes, root).Keys - visited0, 1
    {
      hide Lists, FindById, Reaches, FromAbove, Named;
      result, visited, missing := result0, visited0, None;
      if node.id in visited { return; }
      FromAboveMore(result0, node, [root.id]);
      ListsMore(TraceGraph(nodes, root), visited0, result0, node.id);
      visited := visited + {node.id};
      result := result + [node];
      result, visited, missing := TraceParents(node, result, visited, root, |result0|);
    }

    method TraceParents(node: DagNode, result0: seq<DagNode>, visited0: set<Id>, ghost root: DagNode, ghost at: nat)
      returns (result: seq<DagNode>, visited: set<Id>, missing: Option<Id>)
      requires FromAbove(result0, [root.id]) && at < |result0| && result0[at] == node
      ensures missing.None? ==> FromAbove(result, [root.id]) && result0 <= result
      requires var g := TraceGraph(nodes, root);
               node.id in g && g[node.id] == node && Reaches(g, root.id, node.id)
               && Lists(g, visited0, result0) && visited0 <= g.Keys && node.id in visited0 && root.id in visited0
      ensures var g := TraceGraph(nodes, root);
              match missing
              case None =>
                && visited0 <= visited <= g.Keys
                && (forall y :: y in node.parents ==> y in visited && y in Ids(nodes))
                && Lists(g, visited, result)
                && Traced(nodes, g, visited0, visited)
                && forall x :: x in visited && x !in visited0 ==> Reaches(g, root.id, x)
              case Some(_) => !ParentsPresent(nodes, root)
      decreases TraceGraph(nodes, root).Keys - visited0, 2
    {
      hide Lists, FindById, Reaches, ParentsPresent, FromAbove, Named;
      ghost var g := TraceGraph(nodes, root);
      result, visited, missing := result0, visited0, None;
      var i := 0;
      while i < |node.parents|
        invariant i <= |node.parents| && visited0 <= visited <= g.Keys && missing.None?
        invariant result0 <= result && FromAbove(result, [root.id])
        invariant forall y :: y in node.parents[..i] ==> y in visited && y in Ids(nodes)
        invariant Lists(g, visited, result) && Traced(nodes, g, visited0, visited)
        invariant forall x :: x in visited && x !in visited0 ==> Reaches(g, root.id, x)
      {
        var parentId := node.parents[i];
        assert Edge(g, node.id, parentId);
        ReachesNext(g, root.id, node.id, parentId);
        assert node.parents[..i + 1] == node.parents[..i] + [parentId];
        var parent := FindById(nodes, parentId);
        if parent.None? {
          ParentMissing(nodes, root, node.id, parentId);
          return result, visited, Some(parentId);
        }
        NamedBy(result, at, parentId, [root.id]);
        result, visited, missing := TraceRecursive(parent.value, result, visited, root);
        if missing.Some? { return; }
        i := i + 1;
      }
      assert node.parents[..i] == node.parents;
    }
  }

  /** The graph a trace walks: lookups in the ledger, with the traced node under its own id. */
  function TraceGraph(nodes: seq<DagNode>, node: DagNode): (g: map<Id, DagNode>)
    ensures g.Keys == Ids(nodes) + {node.id}
    ensures forall x :: x in g ==> g[x].id == x
  {
    Index(nodes)[node.id := node]
  }

  /** Every node reachable from the given one has all its parents in the ledger. */
  ghost predicate ParentsPresent(nodes: seq<DagNode>, node: DagNode) {
    var g := TraceGraph(nodes, node);
    forall x, y :: Reaches(g, node.id, x) && Edge(g, x, y) ==> y in Ids(nodes)
  }

  lemma ParentMissing(nodes: seq<DagNode>, root: DagNode, x: Id, y: Id)
    requires var g := TraceGraph(nodes, root); Reaches(g, root.id, x) && Edge(g, x, y) && y !in Ids(nodes)
    ensures !ParentsPresent(nodes, root)
  {
  }

  /** Nodes first visited between two moments have all their parents in the ledger and visited. */
  ghost predicate Traced(nodes: seq<DagNode>, g: map<Id, DagNode>, before: set<Id>, after: set<Id>) {
    forall x, y :: x in after && x !in before && x in g && y in g[x].parents ==> y in after && y in Ids(nodes)
  }
}
