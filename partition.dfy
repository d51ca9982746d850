/** The `familyTrees` computation of the App component: the flat node list
    is split into "family units", the connected groups of the relation
    graph, by a breadth-first search started at every node that no earlier
    search reached. Each unit is then laid out as its own tree, rooted at
    the unit's first member. */
module Partition {
  import opened Entity
  import opened Graph

  function Ids(s: seq<Node>): set<string> {
    set x | x in s :: x.id
  }

  /** The ids are unique: the partitioner keys its `visited` set by id. */
  ghost predicate UniqueIds(s: seq<Node>) {
    forall i, j :: 0 <= i < j < |s| ==> s[i].id != s[j].id
  }

  /** The groups of a partition one after the other. */
  function Flatten(trees: seq<seq<Node>>): seq<Node> {
    if trees == [] then [] else Flatten(trees[..|trees| - 1]) + trees[|trees| - 1]
  }

  /** Position of the first occurrence of `x` in `s`. */
  function IndexOf(s: seq<Node>, x: Node): (i: nat)
    requires x in s
    ensures i < |s| && s[i] == x && x !in s[..i]
  {
    if s[0] == x then 0
    else
      var i := IndexOf(s[1..], x) + 1;
      assert s[..i] == [s[0]] + s[1..][..i - 1];
      i
  }

  // ---------------------------------------------------------------------
  // Helper facts about ids and flattening

  lemma IdsMember(s: seq<Node>, x: Node)
    requires x in s
    ensures x.id in Ids(s)
  {
  }

  lemma IdsConcat(a: seq<Node>, b: seq<Node>)
    ensures Ids(a + b) == Ids(a) + Ids(b)
  {
    assert forall x :: x in a + b <==> x in a || x in b;
  }

  lemma SameIdSameNode(nodes: seq<Node>, x: Node, y: Node)
    requires UniqueIds(nodes) && x in nodes && y in nodes && x.id == y.id
    ensures x == y
  {
    var i, j :| 0 <= i < |nodes| && 0 <= j < |nodes| && nodes[i] == x && nodes[j] == y;
    assert !(i < j) && !(j < i);
  }

  /** The node of `nodes` that a member id of `s` belongs to is in `s`. */
  lemma NodeOfId(nodes: seq<Node>, s: seq<Node>, x: Node)
    requires UniqueIds(nodes) && x in nodes && x.id in Ids(s)
    requires forall y :: y in s ==> y in nodes
    ensures x in s
  {
    var y :| y in s && y.id == x.id;
    SameIdSameNode(nodes, x, y);
  }

  lemma UniqueIdsConcat(a: seq<Node>, b: seq<Node>)
    requires UniqueIds(a) && UniqueIds(b) && Ids(a) !! Ids(b)
    ensures UniqueIds(a + b)
  {
    forall i, j | 0 <= i < j < |a + b| ensures (a + b)[i].id != (a + b)[j].id {
      if j >= |a| && i < |a| {
        IdsMember(a, a[i]);
        IdsMember(b, b[j - |a|]);
      }
    }
  }

  lemma UniqueIdsSplit(a: seq<Node>, b: seq<Node>)
    requires UniqueIds(a + b)
    ensures UniqueIds(a) && UniqueIds(b) && Ids(a) !! Ids(b)
  {
    assert forall i :: 0 <= i < |a| ==> (a + b)[i] == a[i];
    assert forall j :: 0 <= j < |b| ==> (a + b)[|a| + j] == b[j];
    forall u, v | u in a && v in b ensures u.id != v.id {
      var i :| 0 <= i < |a| && a[i] == u;
      var j :| 0 <= j < |b| && b[j] == v;
      assert (a + b)[i].id != (a + b)[|a| + j].id;
    }
  }

  lemma {:induction false} FlattenConcat(s: seq<seq<Node>>, t: seq<seq<Node>>)
    ensures Flatten(s + t) == Flatten(s) + Flatten(t)
  {
    if t == [] {
      assert s + t == s;
    } else {
      var t', c := t[..|t| - 1], t[|t| - 1];
      var u := s + t;
      assert u[..|u| - 1] == s + t' && u[|u| - 1] == c;
      assert Flatten(u) == Flatten(s + t') + c;
      assert Flatten(t) == Flatten(t') + c;
      FlattenConcat(s, t');
      assert Flatten(s + t') + c == Flatten(s) + (Flatten(t') + c);
    }
  }

  lemma FlattenAppend(s: seq<seq<Node>>, c: seq<Node>)
    ensures Flatten(s + [c]) == Flatten(s) + c
  {
    assert (s + [c])[..|s|] == s;
  }

  /** The members of one group are members of the flattened partition. */
  lemma {:induction false} InFlatten(s: seq<seq<Node>>, k: nat, x: Node)
    requires k < |s| && x in s[k]
    ensures x in Flatten(s)
  {
    var n := |s| - 1;
    if k < n {
      InFlatten(s[..n], k, x);
    }
  }

  /** Every member of the flattened partition is a member of some group. */
  lemma {:induction false} FromFlatten(s: seq<seq<Node>>, x: Node) returns (k: nat)
    requires x in Flatten(s)
    ensures k < |s| && x in s[k]
  {
    var n := |s| - 1;
    if x in s[n] {
      k := n;
    } else {
      k := FromFlatten(s[..n], x);
    }
  }

  /** Group `k` and everything before it, flattened, split the whole. */
  lemma FlattenAround(s: seq<seq<Node>>, k: nat)
    requires k < |s|
    ensures Flatten(s) == Flatten(s[..k]) + s[k] + Flatten(s[k + 1..])
  {
    assert s == s[..k] + [s[k]] + s[k + 1..];
    FlattenConcat(s[..k] + [s[k]], s[k + 1..]);
    FlattenAppend(s[..k], s[k]);
  }

  // ---------------------------------------------------------------------
  // The breadth-first search

  /** The nodes that one `nodes.forEach` round pushes for `node`: those not
      yet visited and related to `node`, in input order. */
  function Pending(s: seq<Node>, node: Node, visited: set<string>): seq<Node> {
    if s == [] then []
    else
      var last := s[|s| - 1];
      Pending(s[..|s| - 1], node, visited) + (if last.id !in visited && Related(node, last) then [last] else [])
  }

  lemma {:induction false} PendingMembers(s: seq<Node>, node: Node, visited: set<string>, x: Node)
    ensures x in Pending(s, node, visited) <==> x in s && x.id !in visited && Related(node, x)
  {
    if s != [] {
      var n := |s| - 1;
      PendingMembers(s[..n], node, visited, x);
      assert s == s[..n] + [s[n]];
    }
  }

  /** The inner `nodes.forEach`: append every unvisited node related to
      `node` to the queue, scanning `nodes` in input order. */
  method EnqueueRelated(nodes: seq<Node>, node: Node, visited: set<string>, queue: seq<Node>)
    returns (q: seq<Node>)
    ensures q == queue + Pending(nodes, node, visited)
  {
    q := queue;
    for j := 0 to |nodes|
      invariant q == queue + Pending(nodes[..j], node, visited)
    {
      assert nodes[..j + 1][..j] == nodes[..j];
      var relatedNode := nodes[j];
      if relatedNode.id !in visited && Related(node, relatedNode) {
        q := q + [relatedNode];
      }
    }
    assert nodes[..|nodes|] == nodes;
  }

  lemma FewerUnvisited(all: set<string>, visited: set<string>, x: string)
    requires x in all && x !in visited
    ensures |all - (visited + {x})| < |all - visited|
  {
    assert all - visited == (all - (visited + {x})) + {x};
  }

  /** Every neighbour of a dequeued node is visited or still queued. */
  ghost predicate Frontier(nodes: seq<Node>, connected: seq<Node>, visited: set<string>, queue: seq<Node>) {
    forall a, b :: a in connected && b in nodes && Related(a, b) ==> b.id in visited || b in queue
  }

  ghost predicate Reached(nodes: seq<Node>, start: Node, s: seq<Node>) {
    forall x :: x in s ==> x in nodes && Connected(nodes, start, x)
  }

  /** The invariant of the search loop of ConnectedNodes. */
  ghost predicate SearchInvariant(nodes: seq<Node>, start: Node, visited0: set<string>,
                                  connected: seq<Node>, visited: set<string>, queue: seq<Node>) {
    && start in nodes && start.id !in visited0
    && visited == visited0 + Ids(connected)
    && UniqueIds(connected) && Ids(connected) !! visited0
    && Reached(nodes, start, connected)
    && Reached(nodes, start, queue)
    && (connected == [] ==> queue == [start])
    && (connected != [] ==> connected[0] == start)
    && Frontier(nodes, connected, visited, queue)
  }

  /** Dequeuing an id that is already visited changes nothing else. */
  lemma SkipStep(nodes: seq<Node>, start: Node, visited0: set<string>,
                 connected: seq<Node>, visited: set<string>, queue: seq<Node>)
    requires SearchInvariant(nodes, start, visited0, connected, visited, queue)
    requires |queue| > 0 && queue[0].id in visited
    ensures SearchInvariant(nodes, start, visited0, connected, visited, queue[1..])
  {
    var rest := queue[1..];
    assert connected != [];
    forall x | x in rest ensures x in queue {
      TailMember(queue, x);
    }
    forall a, b | a in connected && b in nodes && Related(a, b) ensures b.id in visited || b in rest {
      if b in queue { DequeuedOrLater(queue, b); }
    }
  }

  lemma TailMember(queue: seq<Node>, x: Node)
    requires |queue| > 0 && x in queue[1..]
    ensures x in queue
  {
    var i :| 0 <= i < |queue[1..]| && queue[1..][i] == x;
    assert queue[i + 1] == x;
  }

  lemma DequeuedOrLater(queue: seq<Node>, x: Node)
    requires x in queue
    ensures x == queue[0] || x in queue[1..]
  {
    var i :| 0 <= i < |queue| && queue[i] == x;
    if i > 0 { assert queue[1..][i - 1] == x; }
  }

  lemma VisitIds(visited0: set<string>, connected: seq<Node>, visited: set<string>, node: Node)
    requires visited == visited0 + Ids(connected)
    requires UniqueIds(connected) && Ids(connected) !! visited0
    requires node.id !in visited
    ensures visited + {node.id} == visited0 + Ids(connected + [node])
    ensures UniqueIds(connected + [node]) && Ids(connected + [node]) !! visited0
  {
    forall y | y in connected ensures y.id != node.id {
      IdsMember(connected, y);
    }
    UniqueIdsConcat(connected, [node]);
    IdsConcat(connected, [node]);
  }

  lemma VisitReached(nodes: seq<Node>, start: Node, visited: set<string>, queue0: seq<Node>)
    requires Reached(nodes, start, queue0) && |queue0| > 0
    ensures Reached(nodes, start, queue0[1..] + Pending(nodes, queue0[0], visited))
  {
    var node := queue0[0];
    var pending := Pending(nodes, node, visited);
    forall x | x in queue0[1..] + pending ensures x in nodes && Connected(nodes, start, x) {
      if x in pending {
        PendingMembers(nodes, node, visited, x);
        ConnectedStep(nodes, start, node, x);
      } else {
        assert x in queue0;
      }
    }
  }

  lemma VisitFrontier(nodes: seq<Node>, connected: seq<Node>, visited: set<string>, queue0: seq<Node>)
    requires |queue0| > 0 && Frontier(nodes, connected, visited, queue0)
    ensures Frontier(nodes, connected + [queue0[0]], visited + {queue0[0].id},
                     queue0[1..] + Pending(nodes, queue0[0], visited + {queue0[0].id}))
  {
    var node, queue := queue0[0], queue0[1..];
    assert queue0 == [node] + queue;
    var connected', visited' := connected + [node], visited + {node.id};
    var queue' := queue + Pending(nodes, node, visited');
    forall a, b | a in connected' && b in nodes && Related(a, b)
      ensures b.id in visited' || b in queue'
    {
      PendingMembers(nodes, node, visited', b);
      if a != node {
        assert a in connected;
        if b.id !in visited' {
          assert b in queue0;
        }
      }
    }
  }

  /** Dequeuing an unvisited node visits it and enqueues its pending neighbours. */
  lemma VisitStep(nodes: seq<Node>, start: Node, visited0: set<string>,
                  connected: seq<Node>, visited: set<string>, queue0: seq<Node>)
    requires SearchInvariant(nodes, start, visited0, connected, visited, queue0)
    requires |queue0| > 0 && queue0[0].id !in visited
    ensures SearchInvariant(nodes, start, visited0, connected + [queue0[0]], visited + {queue0[0].id},
                            queue0[1..] + Pending(nodes, queue0[0], visited + {queue0[0].id}))
  {
    var node := queue0[0];
    VisitIds(visited0, connected, visited, node);
    VisitReached(nodes, start, visited + {node.id}, queue0);
    VisitFrontier(nodes, connected, visited, queue0);
    assert node in queue0;
  }

  /** An empty queue leaves behind a closed visited set and a component. */
  lemma SearchDone(nodes: seq<Node>, start: Node, visited0: set<string>,
                   connected: seq<Node>, visited: set<string>)
    requires UniqueIds(nodes) && ClosedIds(nodes, visited0)
    requires SearchInvariant(nodes, start, visited0, connected, visited, [])
    ensures ClosedIds(nodes, visited)
    ensures forall x :: x in nodes ==> (x in connected <==> Connected(nodes, start, x))
  {
    forall a, b | a in nodes && b in nodes && a.id in visited && Related(a, b)
      ensures b.id in visited
    {
      if a.id !in visited0 {
        NodeOfId(nodes, connected, a);
      }
    }
    forall x | x in nodes && Connected(nodes, start, x) ensures x in connected {
      IdsMember(connected, start);
      ClosedReach(nodes, visited, start, x);
      if x.id in visited0 {
        ConnectedSymmetric(nodes, start, x);
        ClosedReach(nodes, visited0, x, start);
        assert false;
      }
      NodeOfId(nodes, connected, x);
    }
  }

  /** `getConnectedNodes`: a breadth-first search from `start` that skips
      every id already in `visited0` and returns the nodes it reached, in
      the order it dequeued them, together with the enlarged visited set.
      The queue may hold a node more than once; a node dequeued a second
      time is skipped. The loop terminates because each round either visits
      a new id of `nodes` or shortens the queue. */
  method ConnectedNodes(nodes: seq<Node>, start: Node, visited0: set<string>)
    returns (connected: seq<Node>, visited: set<string>)
    requires UniqueIds(nodes)
    requires start in nodes && start.id !in visited0
    requires ClosedIds(nodes, visited0)
    ensures visited == visited0 + Ids(connected)
    ensures |connected| > 0 && connected[0] == start
    ensures UniqueIds(connected) && Ids(connected) !! visited0
    ensures forall x :: x in connected ==> x in nodes
    ensures forall x :: x in nodes ==> (x in connected <==> Connected(nodes, start, x))
    ensures ClosedIds(nodes, visited)
  {
    connected := [];
    visited := visited0;
    var queue := [start];
    ConnectedReflexive(nodes, start);
    while |queue| > 0
      invariant SearchInvariant(nodes, start, visited0, connected, visited, queue)
      decreases |Ids(nodes) - visited|, |queue|
    {
      var node := queue[0];
      if node.id in visited {
        SkipStep(nodes, start, visited0, connected, visited, queue);
      } else {
        VisitStep(nodes, start, visited0, connected, visited, queue);
      }
      queue := queue[1..];
      if node.id in visited {
        continue;
      }
      IdsMember(nodes, node);
      FewerUnvisited(Ids(nodes), visited, node.id);
      visited := visited + {node.id};
      connected := connected + [node];
      queue := EnqueueRelated(nodes, node, visited, queue);
    }
    SearchDone(nodes, start, visited0, connected, visited);
  }

  // ---------------------------------------------------------------------
  // The partition and what it promises

  /** Groups are non-empty. */
  ghost predicate NonEmptyGroups(trees: seq<seq<Node>>) {
    forall k :: 0 <= k < |trees| ==> |trees[k]| > 0
  }

  /** Only nodes of `nodes` are grouped, and every node of `nodes` is. */
  ghost predicate Exhaustive(nodes: seq<Node>, trees: seq<seq<Node>>) {
    GroupedFrom(nodes, trees) && forall x :: x in nodes ==> x in Flatten(trees)
  }

  /** Group `k` is exactly the set of nodes reachable from its first member. */
  ghost predicate GroupsAreComponents(nodes: seq<Node>, trees: seq<seq<Node>>)
    requires NonEmptyGroups(trees)
  {
    forall k, x :: 0 <= k < |trees| && x in nodes ==> (x in trees[k] <==> Connected(nodes, trees[k][0], x))
  }

  /** Only nodes of `nodes` are grouped. */
  ghost predicate GroupedFrom(nodes: seq<Node>, trees: seq<seq<Node>>) {
    forall k, x :: 0 <= k < |trees| && x in trees[k] ==> x in nodes
  }

  /** The first member of group `k` is the earliest input node that no
      earlier group holds. */
  ghost predicate FirstMembersEarliest(nodes: seq<Node>, trees: seq<seq<Node>>)
    requires NonEmptyGroups(trees) && GroupedFrom(nodes, trees)
  {
    forall k, j :: 0 <= k < |trees| && 0 <= j < IndexOf(nodes, trees[k][0]) ==> nodes[j] in Flatten(trees[..k])
  }

  /** The invariant of the outer loop of FamilyTrees after `i` input nodes. */
  ghost predicate PartialPartition(nodes: seq<Node>, trees: seq<seq<Node>>, visited: set<string>, i: nat) {
    && i <= |nodes|
    && visited == Ids(Flatten(trees))
    && ClosedIds(nodes, visited)
    && (forall j :: 0 <= j < i ==> nodes[j].id in visited)
    && NonEmptyGroups(trees)
    && GroupedFrom(nodes, trees)
    && UniqueIds(Flatten(trees))
    && GroupsAreComponents(nodes, trees)
    && (forall k :: 0 <= k < |trees| ==> IndexOf(nodes, trees[k][0]) < i)
    && FirstMembersEarliest(nodes, trees)
  }

  lemma FlattenFrom(nodes: seq<Node>, trees: seq<seq<Node>>)
    requires GroupedFrom(nodes, trees)
    ensures forall y :: y in Flatten(trees) ==> y in nodes
  {
    forall y | y in Flatten(trees) ensures y in nodes {
      var k := FromFlatten(trees, y);
    }
  }

  /** With unique ids, `nodes[i]` is found at position `i`. */
  lemma IndexOfUnique(nodes: seq<Node>, i: nat)
    requires UniqueIds(nodes) && i < |nodes|
    ensures IndexOf(nodes, nodes[i]) == i
  {
    var m := IndexOf(nodes, nodes[i]);
    assert nodes[m].id == nodes[i].id;
  }

  lemma PartialSkip(nodes: seq<Node>, trees: seq<seq<Node>>, visited: set<string>, i: nat)
    requires PartialPartition(nodes, trees, visited, i) && i < |nodes| && nodes[i].id in visited
    ensures PartialPartition(nodes, trees, visited, i + 1)
  {
  }

  /** Appending the search result as a new group keeps the partition facts. */
  lemma PartialGroupShape(nodes: seq<Node>, trees: seq<seq<Node>>, visited: set<string>, i: nat,
                          connected: seq<Node>, visited': set<string>)
    requires PartialPartition(nodes, trees, visited, i) && i < |nodes|
    requires visited' == visited + Ids(connected)
    requires |connected| > 0 && connected[0] == nodes[i]
    requires UniqueIds(connected) && Ids(connected) !! visited
    requires forall x :: x in connected ==> x in nodes
    requires forall x :: x in nodes ==> (x in connected <==> Connected(nodes, nodes[i], x))
    ensures visited' == Ids(Flatten(trees + [connected]))
    ensures UniqueIds(Flatten(trees + [connected]))
    ensures NonEmptyGroups(trees + [connected]) && GroupedFrom(nodes, trees + [connected])
    ensures GroupsAreComponents(nodes, trees + [connected])
  {
    FlattenAppend(trees, connected);
    IdsConcat(Flatten(trees), connected);
    UniqueIdsConcat(Flatten(trees), connected);
  }

  /** All groups so far start before input position `i`; the new one at `i`. */
  lemma PartialGroupFirsts(nodes: seq<Node>, trees: seq<seq<Node>>, visited: set<string>, i: nat,
                           connected: seq<Node>)
    requires UniqueIds(nodes)
    requires PartialPartition(nodes, trees, visited, i) && i < |nodes|
    requires |connected| > 0 && connected[0] == nodes[i]
    requires NonEmptyGroups(trees + [connected]) && GroupedFrom(nodes, trees + [connected])
    ensures forall k :: 0 <= k < |trees| + 1 ==> IndexOf(nodes, (trees + [connected])[k][0]) < i + 1
  {
    IndexOfUnique(nodes, i);
  }

  /** The new group's first member, `nodes[i]`, is preceded only by grouped nodes. */
  lemma PartialGroupOrder(nodes: seq<Node>, trees: seq<seq<Node>>, visited: set<string>, i: nat,
                          connected: seq<Node>)
    requires UniqueIds(nodes)
    requires PartialPartition(nodes, trees, visited, i) && i < |nodes|
    requires |connected| > 0 && connected[0] == nodes[i]
    requires NonEmptyGroups(trees + [connected]) && GroupedFrom(nodes, trees + [connected])
    ensures FirstMembersEarliest(nodes, trees + [connected])
  {
    var trees' := trees + [connected];
    IndexOfUnique(nodes, i);
    FlattenFrom(nodes, trees);
    forall j | 0 <= j < i ensures nodes[j] in Flatten(trees) {
      NodeOfId(nodes, Flatten(trees), nodes[j]);
    }
    assert trees'[..|trees|] == trees;
    forall k | 0 <= k < |trees| ensures trees'[..k] == trees[..k] { }
  }

  lemma PartialGroup(nodes: seq<Node>, trees: seq<seq<Node>>, visited: set<string>, i: nat,
                     connected: seq<Node>, visited': set<string>)
    requires UniqueIds(nodes)
    requires PartialPartition(nodes, trees, visited, i) && i < |nodes| && nodes[i].id !in visited
    requires visited' == visited + Ids(connected)
    requires |connected| > 0 && connected[0] == nodes[i]
    requires UniqueIds(connected) && Ids(connected) !! visited
    requires forall x :: x in connected ==> x in nodes
    requires forall x :: x in nodes ==> (x in connected <==> Connected(nodes, nodes[i], x))
    requires ClosedIds(nodes, visited')
    ensures PartialPartition(nodes, trees + [connected], visited', i + 1)
  {
    PartialGroupShape(nodes, trees, visited, i, connected, visited');
    PartialGroupFirsts(nodes, trees, visited, i, connected);
    PartialGroupOrder(nodes, trees, visited, i, connected);
    IdsMember(connected, nodes[i]);
  }

  lemma PartialDone(nodes: seq<Node>, trees: seq<seq<Node>>, visited: set<string>)
    requires UniqueIds(nodes) && PartialPartition(nodes, trees, visited, |nodes|)
    ensures Exhaustive(nodes, trees)
  {
    FlattenFrom(nodes, trees);
    forall x | x in nodes ensures x in Flatten(trees) {
      NodeOfId(nodes, Flatten(trees), x);
    }
  }

  /** The `familyTrees` memo: walk the nodes in input order and start a
      breadth-first search at every node not yet visited. */
  method FamilyTrees(nodes: seq<Node>) returns (trees: seq<seq<Node>>)
    requires UniqueIds(nodes)
    ensures NonEmptyGroups(trees)
    ensures Exhaustive(nodes, trees)
    ensures UniqueIds(Flatten(trees))
    ensures GroupsAreComponents(nodes, trees)
    ensures FirstMembersEarliest(nodes, trees)
  {
    var visited: set<string> := {};
    trees := [];
    for i := 0 to |nodes|
      invariant PartialPartition(nodes, trees, visited, i)
    {
      var node := nodes[i];
      if node.id !in visited {
        var connected, visited' := ConnectedNodes(nodes, node, visited);
        PartialGroup(nodes, trees, visited, i, connected, visited');
        trees, visited := trees + [connected], visited';
      } else {
        PartialSkip(nodes, trees, visited, i);
      }
    }
    PartialDone(nodes, trees, visited);
  }

  /** Everything FamilyTrees promises, in one place. */
  ghost predicate IsFamilyPartition(nodes: seq<Node>, trees: seq<seq<Node>>) {
    && NonEmptyGroups(trees)
    && Exhaustive(nodes, trees)
    && UniqueIds(Flatten(trees))
    && GroupsAreComponents(nodes, trees)
    && FirstMembersEarliest(nodes, trees)
  }

  lemma EarlierLaterDisjoint(trees: seq<seq<Node>>, lo: nat, hi: nat, x: Node)
    requires UniqueIds(Flatten(trees)) && lo < hi < |trees| && x in trees[lo]
    ensures x !in trees[hi]
  {
    FlattenAround(trees, hi);
    UniqueIdsSplit(Flatten(trees[..hi]) + trees[hi], Flatten(trees[hi + 1..]));
    UniqueIdsSplit(Flatten(trees[..hi]), trees[hi]);
    InFlatten(trees[..hi], lo, x);
    IdsMember(Flatten(trees[..hi]), x);
  }

  /** Two different groups share no node. */
  lemma GroupsDisjoint(trees: seq<seq<Node>>, k1: nat, k2: nat, x: Node)
    requires UniqueIds(Flatten(trees)) && k1 < |trees| && k2 < |trees| && k1 != k2 && x in trees[k1]
    ensures x !in trees[k2]
  {
    if k1 < k2 {
      EarlierLaterDisjoint(trees, k1, k2, x);
    } else if x in trees[k2] {
      EarlierLaterDisjoint(trees, k2, k1, x);
    }
  }

  /** A group holds no id twice. */
  lemma GroupDuplicateFree(trees: seq<seq<Node>>, k: nat)
    requires UniqueIds(Flatten(trees)) && k < |trees|
    ensures UniqueIds(trees[k])
  {
    FlattenAround(trees, k);
    UniqueIdsSplit(Flatten(trees[..k]) + trees[k], Flatten(trees[k + 1..]));
    UniqueIdsSplit(Flatten(trees[..k]), trees[k]);
  }

  /** Every input node lies in exactly one group, and no group repeats an id. */
  lemma ExactlyOneGroup(nodes: seq<Node>, trees: seq<seq<Node>>, x: Node)
    requires IsFamilyPartition(nodes, trees) && x in nodes
    ensures exists k :: 0 <= k < |trees| && x in trees[k] && forall k' :: 0 <= k' < |trees| && k' != k ==> x !in trees[k']
    ensures forall k :: 0 <= k < |trees| ==> UniqueIds(trees[k])
  {
    var k := FromFlatten(trees, x);
    forall k' | 0 <= k' < |trees| && k' != k ensures x !in trees[k'] {
      GroupsDisjoint(trees, k, k', x);
    }
    forall k | 0 <= k < |trees| ensures UniqueIds(trees[k]) {
      GroupDuplicateFree(trees, k);
    }
  }

  /** Two nodes share a group exactly when a path joins them. */
  lemma SameGroupIffConnected(nodes: seq<Node>, trees: seq<seq<Node>>, k: nat, x: Node, y: Node)
    requires NonEmptyGroups(trees) && GroupedFrom(nodes, trees) && GroupsAreComponents(nodes, trees)
    requires k < |trees| && x in trees[k] && y in nodes
    ensures y in trees[k] <==> Connected(nodes, x, y)
  {
    var first := trees[k][0];
    assert x in nodes;
    assert Connected(nodes, first, x);
    if y in trees[k] {
      ConnectedSymmetric(nodes, first, x);
      ConnectedTransitive(nodes, x, first, y);
    }
    if Connected(nodes, x, y) {
      ConnectedTransitive(nodes, first, x, y);
    }
  }

  /** A node in one of the groups before `k` is not in group `k`. */
  lemma NotInEarlierGroups(trees: seq<seq<Node>>, k: nat, x: Node)
    requires UniqueIds(Flatten(trees)) && k < |trees| && x in trees[k]
    ensures x !in Flatten(trees[..k])
  {
    if x in Flatten(trees[..k]) {
      var k' := FromFlatten(trees[..k], x);
      GroupsDisjoint(trees, k, k', x);
    }
  }

  /** Groups come in the input order of their first members. */
  lemma FirstMembersInInputOrder(nodes: seq<Node>, trees: seq<seq<Node>>, k1: nat, k2: nat)
    requires NonEmptyGroups(trees) && GroupedFrom(nodes, trees) && UniqueIds(Flatten(trees))
    requires FirstMembersEarliest(nodes, trees) && k1 < k2 < |trees|
    ensures IndexOf(nodes, trees[k1][0]) < IndexOf(nodes, trees[k2][0])
  {
    var f1, f2 := trees[k1][0], trees[k2][0];
    assert f1 in trees[k1] && f2 in trees[k2];
    var m1, m2 := IndexOf(nodes, f1), IndexOf(nodes, f2);
    GroupsDisjoint(trees, k1, k2, f1);
    assert f1 != f2;
    if m2 < m1 {
      assert nodes[m2] in Flatten(trees[..k1]);
      var k' := FromFlatten(trees[..k1], f2);
      GroupsDisjoint(trees, k', k2, f2);
    }
  }

  /** The first member of a group is its input-order-earliest member. */
  lemma FirstMemberIsEarliest(nodes: seq<Node>, trees: seq<seq<Node>>, k: nat, x: Node)
    requires IsFamilyPartition(nodes, trees) && k < |trees| && x in trees[k]
    ensures IndexOf(nodes, trees[k][0]) <= IndexOf(nodes, x)
  {
    var m := IndexOf(nodes, x);
    if m < IndexOf(nodes, trees[k][0]) {
      assert nodes[m] in Flatten(trees[..k]);
      NotInEarlierGroups(trees, k, x);
    }
  }

  lemma UniqueIdsRemove(b: seq<Node>, i: nat)
    requires UniqueIds(b) && i < |b|
    ensures UniqueIds(b[..i] + b[i + 1..])
    ensures forall y :: y in b[..i] + b[i + 1..] <==> y in b && y != b[i]
  {
    var b' := b[..i] + b[i + 1..];
    forall p, q | 0 <= p < q < |b'| ensures b'[p].id != b'[q].id {
      var p', q' := if p < i then p else p + 1, if q < i then q else q + 1;
      assert b'[p] == b[p'] && b'[q] == b[q'];
    }
    forall y ensures y in b' <==> y in b && y != b[i] {
      if y in b' {
        var q :| 0 <= q < |b'| && b'[q] == y;
        var q' := if q < i then q else q + 1;
        assert b[q'] == y && q' != i;
      }
      if y in b && y != b[i] {
        var q :| 0 <= q < |b| && b[q] == y;
        if q < i { assert b'[q] == y; } else { assert b'[q - 1] == y; }
      }
    }
  }

  lemma NoMembersEmpty(b: seq<Node>)
    requires forall y :: y !in b
    ensures b == []
  {
    if b != [] {
      HeadIsMember(b);
    }
  }

  lemma HeadIsMember(b: seq<Node>)
    requires b != []
    ensures b[0] in b
  {
  }

  lemma {:induction false} DistinctSameMembers(a: seq<Node>, b: seq<Node>)
    requires UniqueIds(a) && UniqueIds(b) && forall x :: x in a <==> x in b
    ensures multiset(a) == multiset(b)
    decreases |a|
  {
    if a == [] {
      NoMembersEmpty(b);
    } else {
      var x := a[0];
      assert x in b;
      var i :| 0 <= i < |b| && b[i] == x;
      var b' := b[..i] + b[i + 1..];
      UniqueIdsRemove(a, 0);
      UniqueIdsRemove(b, i);
      assert a[..0] + a[1..] == a[1..];
      assert a == [x] + a[1..];
      assert b == b[..i] + [x] + b[i + 1..];
      forall y ensures y in a[1..] <==> y in b' {
        assert y in a[..0] + a[1..] <==> y in a && y != x;
        assert y in b' <==> y in b && y != x;
      }
      DistinctSameMembers(a[1..], b');
    }
  }

  /** Flattened, the groups are a rearrangement of the input. */
  lemma PartitionIsPermutation(nodes: seq<Node>, trees: seq<seq<Node>>)
    requires UniqueIds(nodes) && IsFamilyPartition(nodes, trees)
    ensures multiset(Flatten(trees)) == multiset(nodes)
  {
    FlattenFrom(nodes, trees);
    DistinctSameMembers(Flatten(trees), nodes);
  }

  // ---------------------------------------------------------------------
  // One tree layout per group

  /** The arguments of one `ReactFamilyTree` element: its React key, its
      root id and the nodes it lays out. */
  datatype Layout = Layout(key: string, rootId: string, members: seq<Node>)

  function Layouts(trees: seq<seq<Node>>): (r: seq<Layout>)
    requires NonEmptyGroups(trees)
  {
    seq(|trees|, k requires 0 <= k < |trees| => Layout(trees[k][0].id, trees[k][0].id, trees[k]))
  }

  /** Each tree is rooted at its group's input-order-earliest member, and
      the React keys of the trees are distinct. */
  lemma LayoutRoots(nodes: seq<Node>, trees: seq<seq<Node>>)
    requires IsFamilyPartition(nodes, trees)
    ensures |Layouts(trees)| == |trees|
    ensures forall k :: 0 <= k < |trees| ==> Layouts(trees)[k].members == trees[k] && Layouts(trees)[k].rootId in Ids(trees[k])
    ensures forall k, x :: 0 <= k < |trees| && x in trees[k] ==>
              exists f :: f in trees[k] && f.id == Layouts(trees)[k].rootId && IndexOf(nodes, f) <= IndexOf(nodes, x)
    ensures forall k1, k2 :: 0 <= k1 < k2 < |trees| ==> Layouts(trees)[k1].key != Layouts(trees)[k2].key
  {
    var r := Layouts(trees);
    forall k, x | 0 <= k < |trees| && x in trees[k]
      ensures exists f :: f in trees[k] && f.id == r[k].rootId && IndexOf(nodes, f) <= IndexOf(nodes, x)
    {
      FirstMemberIsEarliest(nodes, trees, k, x);
      assert trees[k][0] in trees[k];
    }
    forall k | 0 <= k < |trees| ensures r[k].rootId in Ids(trees[k]) {
      IdsMember(trees[k], trees[k][0]);
    }
    forall k1, k2 | 0 <= k1 < k2 < |trees| ensures r[k1].key != r[k2].key {
      var f1, f2 := trees[k1][0], trees[k2][0];
      FlattenAround(trees, k2);
      UniqueIdsSplit(Flatten(trees[..k2]) + trees[k2], Flatten(trees[k2 + 1..]));
      UniqueIdsSplit(Flatten(trees[..k2]), trees[k2]);
      InFlatten(trees[..k2], k1, f1);
      IdsMember(Flatten(trees[..k2]), f1);
      IdsMember(trees[k2], f2);
    }
  }
}
