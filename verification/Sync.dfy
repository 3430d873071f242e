/** Exchanging diffs makes two ledgers hold the same ids. */
module Sync {
  import opened Values
  import opened Graph
  import opened Ledger

  lemma {:induction false} ParsedDiff(nodes: seq<DagNode>, file: seq<Line>)
    requires |file| == |nodes| && forall i :: 0 <= i < |file| ==> file[i] == Node(nodes[i])
    ensures Parsed(file) == nodes
    decreases |nodes|
  {
    if nodes != [] {
      ParsedDiff(nodes[1..], file[1..]);
      assert nodes == [nodes[0]] + nodes[1..];
    }
  }

  /** Unreadable lines are passed over, wherever they stand, and the nodes come in the order of the file. */
  lemma ParsedParts(xs: seq<Line>, ys: seq<Line>)
    ensures Parsed(xs + ys) == Parsed(xs) + Parsed(ys) && Parsed(xs + [Skipped] + ys) == Parsed(xs + ys)
  {
    hide Parsed;
    ParsedAppend(xs, ys);
    ParsedAppend(xs + [Skipped], ys);
    ParsedAppend(xs, [Skipped]);
    ParsedOne(Skipped);
    assert Parsed(xs) + [] == Parsed(xs);
  }

  lemma ParsedOne(line: Line)
    ensures Parsed([line]) == if line.Node? then [line.node] else []
  {
    assert [line][1..] == [];
  }

  lemma {:induction false} ParsedAppend(xs: seq<Line>, ys: seq<Line>)
    ensures Parsed(xs + ys) == Parsed(xs) + Parsed(ys)
    decreases |xs|
  {
    if xs == [] {
      assert xs + ys == ys;
    } else {
      assert (xs + ys)[1..] == xs[1..] + ys;
      ParsedAppend(xs[1..], ys);
      var head := if xs[0].Node? then [xs[0].node] else [];
      assert head + (Parsed(xs[1..]) + Parsed(ys)) == head + Parsed(xs[1..]) + Parsed(ys);
    }
  }

  lemma MergeNone(nodes: seq<DagNode>)
    ensures Merge(nodes, []) == nodes && Ids([]) == {}
  {
  }

  lemma MergeStep(nodes: seq<DagNode>, incoming: seq<DagNode>)
    requires incoming != []
    ensures Merge(nodes, incoming) ==
            Merge(if incoming[0].id in Ids(nodes) then nodes else nodes + [incoming[0]], incoming[1..])
  {
  }

  /** Set algebra of one imported id. */
  lemma OneMore(ids: set<Id>, ids': set<Id>, x: Id, rest: set<Id>, all: set<Id>)
    requires all == {x} + rest && ids' == ids + {x}
    ensures ids' + rest == ids + all
    ensures x !in ids ==> |all - ids| == |rest - ids'| + 1
    ensures x in ids ==> all - ids == rest - ids && ids + rest == ids + all
  {
    if x !in ids {
      assert all - ids == (rest - ids') + {x};
    } else {
      assert all - ids == rest - ids;
    }
  }

  /** Importing keeps what was there, and adds each new id exactly once. */
  lemma {:induction false} MergeIds(nodes: seq<DagNode>, incoming: seq<DagNode>)
    ensures Ids(Merge(nodes, incoming)) == Ids(nodes) + Ids(incoming)
    ensures |Merge(nodes, incoming)| - |nodes| == |Ids(incoming) - Ids(nodes)|
    ensures nodes <= Merge(nodes, incoming)
    decreases |incoming|
  {
    hide Ids, Merge;
    if incoming == [] {
      MergeNone(nodes);
      assert Ids(nodes) + {} == Ids(nodes) && Ids(incoming) - Ids(nodes) == {};
    } else {
      var x, rest := incoming[0], incoming[1..];
      MergeStep(nodes, incoming);
      IdsCons(incoming);
      IdsSnoc(nodes, x);
      OneMore(Ids(nodes), Ids(nodes + [x]), x.id, Ids(rest), Ids(incoming));
      if x.id in Ids(nodes) {
        MergeIds(nodes, rest);
      } else {
        MergeIds(nodes + [x], rest);
      }
    }
  }

  /** Nothing is added when every id is there. */
  lemma {:induction false} MergeNothing(nodes: seq<DagNode>, incoming: seq<DagNode>)
    requires Ids(incoming) <= Ids(nodes)
    ensures Merge(nodes, incoming) == nodes
    decreases |incoming|
  {
    if incoming != [] {
      IdsCons(incoming);
      MergeNothing(nodes, incoming[1..]);
    }
  }

  /** After an import every id is found with the node it had, and every new id with the first incoming
      node of that id. */
  lemma {:induction false} MergeFinds(nodes: seq<DagNode>, incoming: seq<DagNode>, x: Id)
    ensures FindById(Merge(nodes, incoming), x) ==
            if x in Ids(nodes) then FindById(nodes, x) else FindById(incoming, x)
    decreases |incoming|
  {
    hide Merge, FindById;
    if incoming == [] {
      MergeNone(nodes);
    } else {
      var n, rest := incoming[0], incoming[1..];
      MergeStep(nodes, incoming);
      IdsCons(incoming);
      FindCons(incoming, x);
      if n.id in Ids(nodes) {
        MergeFinds(nodes, rest, x);
      } else {
        MergeFinds(nodes + [n], rest, x);
        FindSnoc(nodes, n, x);
        IdsSnoc(nodes, n);
      }
    }
  }

  lemma FindCons(nodes: seq<DagNode>, x: Id)
    requires nodes != []
    ensures FindById(nodes, x) == if nodes[0].id == x then Some(nodes[0]) else FindById(nodes[1..], x)
  {
  }

  lemma {:induction false} FindSnoc(nodes: seq<DagNode>, n: DagNode, x: Id)
    ensures FindById(nodes + [n], x) ==
            if x in Ids(nodes) then FindById(nodes, x) else if n.id == x then Some(n) else None
  {
    hide FindById, Ids;
    FindCons(nodes + [n], x);
    if nodes != [] {
      IdsCons(nodes);
      FindCons(nodes, x);
      assert (nodes + [n])[1..] == nodes[1..] + [n];
      FindSnoc(nodes[1..], n, x);
    } else {
      FindNone(x);
      assert (nodes + [n])[1..] == [];
    }
  }

  lemma FindNone(x: Id)
    ensures FindById([], x) == None && Ids([]) == {}
  {
  }

  lemma WithoutIds(nodes: seq<DagNode>, ids: set<Id>)
    ensures Ids(Without(nodes, ids)) == Ids(nodes) - ids
  {
    var r := Without(nodes, ids);
    forall x | x in Ids(r) ensures x in Ids(nodes) - ids {
      var i :| 0 <= i < |r| && r[i].id == x;
      assert r[i] in r;
      var j :| 0 <= j < |nodes| && nodes[j] == r[i];
    }
    forall x | x in Ids(nodes) - ids ensures x in Ids(r) {
      var j :| 0 <= j < |nodes| && nodes[j].id == x;
      assert nodes[j] in nodes;
      var i :| 0 <= i < |r| && r[i] == nodes[j];
    }
  }

  lemma NothingLeft(nodes: seq<DagNode>, ids: set<Id>)
    requires Ids(nodes) <= ids
    ensures Without(nodes, ids) == []
  {
  }

  /** What `into` becomes when it imports the file with the diff of `from` against it. */
  function SyncInto(into: seq<DagNode>, from: seq<DagNode>): seq<DagNode> {
    Merge(into, Parsed(DiffFile(DiffWith(from, into))))
  }

  lemma SyncIs(into: seq<DagNode>, from: seq<DagNode>)
    ensures SyncInto(into, from) == Merge(into, Without(from, Ids(into)))
  {
    var diff := DiffWith(from, into);
    ParsedDiff(diff.added, DiffFile(diff));
  }

  /** One exchange: the union of the ids, the number of new ids, and nothing left to import. */
  lemma SyncOnce(into: seq<DagNode>, from: seq<DagNode>)
    ensures Ids(SyncInto(into, from)) == Ids(into) + Ids(from)
    ensures |SyncInto(into, from)| - |into| == |Ids(from) - Ids(into)|
    ensures into <= SyncInto(into, from)
    ensures Merge(SyncInto(into, from), Parsed(DiffFile(DiffWith(from, into)))) == SyncInto(into, from)
    ensures DiffWith(from, SyncInto(into, from)).added == []
  {
    hide Ids, Merge, Without, Parsed;
    SyncIs(into, from);
    var d := Without(from, Ids(into));
    var diff := DiffWith(from, into);
    ParsedDiff(diff.added, DiffFile(diff));
    WithoutIds(from, Ids(into));
    MergeIds(into, d);
    assert Ids(d) - Ids(into) == Ids(from) - Ids(into);
    MergeNothing(SyncInto(into, from), d);
    NothingLeft(from, Ids(SyncInto(into, from)));
  }

  /** Both ways: the two ledgers hold the same ids. */
  lemma SyncBothWays(a: seq<DagNode>, b: seq<DagNode>)
    ensures Ids(SyncInto(a, b)) == Ids(SyncInto(b, a)) == Ids(a) + Ids(b)
  {
    SyncOnce(a, b);
    SyncOnce(b, a);
  }

  // ---------- parents first ----------

  /** Each parent id is the id of an earlier node. */
  predicate ParentsFirst(nodes: seq<DagNode>) {
    forall j, y :: 0 <= j < |nodes| && y in nodes[j].parents ==> y in Ids(nodes[..j])
  }

  lemma IdsPrefix(nodes: seq<DagNode>, i: nat, j: nat)
    requires i <= j <= |nodes|
    ensures Ids(nodes[..i]) <= Ids(nodes[..j])
  {
    forall x | x in Ids(nodes[..i]) ensures x in Ids(nodes[..j]) {
      var k :| 0 <= k < i && nodes[..i][k].id == x;
      assert nodes[..j][k].id == x;
    }
  }

  lemma ParentsFirstSnoc(nodes: seq<DagNode>, n: DagNode)
    requires ParentsFirst(nodes) && forall y :: y in n.parents ==> y in Ids(nodes)
    ensures ParentsFirst(nodes + [n])
  {
    var all := nodes + [n];
    forall j, y | 0 <= j < |all| && y in all[j].parents ensures y in Ids(all[..j]) {
      if j < |nodes| {
        assert all[..j] == nodes[..j];
      } else {
        assert all[..j] == nodes;
      }
    }
  }

  /** Adding nodes one by one keeps the order, if the parents of each are there or come before it. */
  lemma {:induction false} MergeOrder(nodes: seq<DagNode>, from: seq<DagNode>, i: nat, ids: set<Id>)
    requires ParentsFirst(nodes) && ParentsFirst(from) && i <= |from|
    requires ids <= Ids(nodes) && Ids(from[..i]) <= Ids(nodes)
    ensures ParentsFirst(Merge(nodes, Without(from[i..], ids)))
    decreases |from| - i
  {
    if i < |from| {
      var x, rest := from[i], from[i..];
      assert rest[0] == x && rest[1..] == from[i + 1..];
      assert from[..i + 1] == from[..i] + [x];
      IdsSnoc(from[..i], x);
      IdsSnoc(nodes, x);
      var w := Without(from[i + 1..], ids);
      if x.id in ids {
        assert Without(rest, ids) == w;
        MergeOrder(nodes, from, i + 1, ids);
      } else {
        assert Without(rest, ids) == [x] + w;
        assert ([x] + w)[1..] == w;
        if x.id in Ids(nodes) {
          MergeOrder(nodes, from, i + 1, ids);
        } else {
          ParentsFirstSnoc(nodes, x);
          MergeOrder(nodes + [x], from, i + 1, ids);
        }
      }
    }
  }

  /** If both ledgers list parents first, so does the ledger that has imported the other's diff. */
  lemma SyncOrder(into: seq<DagNode>, from: seq<DagNode>)
    requires ParentsFirst(into) && ParentsFirst(from)
    ensures ParentsFirst(SyncInto(into, from))
  {
    SyncIs(into, from);
    assert from[0..] == from && Ids(from[..0]) == {};
    MergeOrder(into, from, 0, Ids(into));
  }
}
