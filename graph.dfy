/** The relation graph the family-tree partitioner walks: two nodes are
    adjacent when either one names the other in any of its four relation
    lists, so adjacency is undirected even when the data is one-sided. */
module Graph {
  import opened Entity

  /** `rs.some(r => r.id === id)`. */
  predicate NamesId(rs: seq<Relation>, id: string) {
    rs != [] && (rs[0].id == id || NamesId(rs[1..], id))
  }

  /** `a` names `id` in its parents, children, siblings or spouses. */
  predicate Lists(a: Node, id: string) {
    NamesId(a.parents, id) || NamesId(a.children, id) || NamesId(a.siblings, id) || NamesId(a.spouses, id)
  }

  /** The partitioner's `isRelated` test. */
  predicate Related(a: Node, b: Node) {
    Lists(a, b.id) || Lists(b, a.id)
  }

  /** A walk of one or more nodes of `nodes`, each step along an adjacency. */
  ghost predicate IsPath(nodes: seq<Node>, p: seq<Node>) {
    && |p| > 0
    && (forall i :: 0 <= i < |p| ==> p[i] in nodes)
    && (forall i :: 0 <= i < |p| - 1 ==> Related(p[i], p[i + 1]))
  }

  /** `b` is reachable from `a` inside `nodes`. */
  ghost predicate Connected(nodes: seq<Node>, a: Node, b: Node) {
    exists p :: IsPath(nodes, p) && p[0] == a && p[|p| - 1] == b
  }

  /** A set of ids whose nodes have all their neighbours inside the set. */
  ghost predicate ClosedIds(nodes: seq<Node>, ids: set<string>) {
    forall a, b :: a in nodes && b in nodes && a.id in ids && Related(a, b) ==> b.id in ids
  }

  lemma ConnectedReflexive(nodes: seq<Node>, a: Node)
    requires a in nodes
    ensures Connected(nodes, a, a)
  {
    assert IsPath(nodes, [a]);
  }

  lemma ConnectedStep(nodes: seq<Node>, a: Node, b: Node, c: Node)
    requires Connected(nodes, a, b) && c in nodes && Related(b, c)
    ensures Connected(nodes, a, c)
  {
    var p :| IsPath(nodes, p) && p[0] == a && p[|p| - 1] == b;
    var q := p + [c];
    assert forall i :: 0 <= i < |q| - 1 ==> Related(q[i], q[i + 1]) by {
      forall i | 0 <= i < |q| - 1 ensures Related(q[i], q[i + 1]) {
        if i < |p| - 1 { assert q[i] == p[i] && q[i + 1] == p[i + 1]; }
      }
    }
    assert IsPath(nodes, q);
  }

  lemma ConnectedSymmetric(nodes: seq<Node>, a: Node, b: Node)
    requires Connected(nodes, a, b)
    ensures Connected(nodes, b, a)
  {
    var p :| IsPath(nodes, p) && p[0] == a && p[|p| - 1] == b;
    var q := seq(|p|, i requires 0 <= i < |p| => p[|p| - 1 - i]);
    assert forall i :: 0 <= i < |q| - 1 ==> Related(q[i], q[i + 1]) by {
      forall i | 0 <= i < |q| - 1 ensures Related(q[i], q[i + 1]) {
        var j := |p| - 2 - i;
        assert Related(p[j], p[j + 1]);
      }
    }
    assert IsPath(nodes, q);
  }

  lemma ConnectedTransitive(nodes: seq<Node>, a: Node, b: Node, c: Node)
    requires Connected(nodes, a, b) && Connected(nodes, b, c)
    ensures Connected(nodes, a, c)
  {
    var p :| IsPath(nodes, p) && p[0] == a && p[|p| - 1] == b;
    var q :| IsPath(nodes, q) && q[0] == b && q[|q| - 1] == c;
    var r := p + q[1..];
    assert forall i :: 0 <= i < |r| - 1 ==> Related(r[i], r[i + 1]) by {
      forall i | 0 <= i < |r| - 1 ensures Related(r[i], r[i + 1]) {
        if i < |p| - 1 {
          assert r[i] == p[i] && r[i + 1] == p[i + 1];
        } else {
          var j := i - |p| + 1;
          assert r[i] == q[j] && r[i + 1] == q[j + 1];
        }
      }
    }
    assert IsPath(nodes, r);
  }

  /** Every node of a path that starts inside a closed set stays inside it. */
  lemma {:induction false} PathStaysInside(nodes: seq<Node>, ids: set<string>, p: seq<Node>, k: nat)
    requires ClosedIds(nodes, ids) && IsPath(nodes, p) && p[0].id in ids && k < |p|
    ensures p[k].id in ids
  {
    if k > 0 {
      PathStaysInside(nodes, ids, p, k - 1);
      assert Related(p[k - 1], p[k]);
    }
  }

  /** Nothing reachable from a closed set lies outside it. */
  lemma ClosedReach(nodes: seq<Node>, ids: set<string>, a: Node, b: Node)
    requires ClosedIds(nodes, ids) && a.id in ids && Connected(nodes, a, b)
    ensures b.id in ids
  {
    var p :| IsPath(nodes, p) && p[0] == a && p[|p| - 1] == b;
    PathStaysInside(nodes, ids, p, |p| - 1);
  }

  // ---------------------------------------------------------------------
  // Dangling references

  datatype RelationList = ParentsList | ChildrenList | SiblingsList | SpousesList

  /** `a` with `r` appended to one of its relation lists. */
  function AddRelation(a: Node, list: RelationList, r: Relation): Node {
    match list
    case ParentsList => a.(parents := a.parents + [r])
    case ChildrenList => a.(children := a.children + [r])
    case SiblingsList => a.(siblings := a.siblings + [r])
    case SpousesList => a.(spouses := a.spouses + [r])
  }

  lemma {:induction false} NamesIdAppend(rs: seq<Relation>, r: Relation, id: string)
    requires r.id != id
    ensures NamesId(rs + [r], id) == NamesId(rs, id)
  {
    if rs != [] {
      assert (rs + [r])[1..] == rs[1..] + [r];
      NamesIdAppend(rs[1..], r, id);
    }
  }

  /** A relation naming an id that no node has adds no adjacency: the
      `isRelated` test gives the same answer for every pair of positions. */
  lemma DanglingRelationAddsNoEdge(nodes: seq<Node>, i: nat, list: RelationList, r: Relation)
    requires i < |nodes| && forall n :: n in nodes ==> n.id != r.id
    ensures var nodes' := nodes[i := AddRelation(nodes[i], list, r)];
      forall p, q :: 0 <= p < |nodes| && 0 <= q < |nodes| ==> (Related(nodes'[p], nodes'[q]) <==> Related(nodes[p], nodes[q]))
  {
    var a := nodes[i];
    var a' := AddRelation(a, list, r);
    forall n | n in nodes ensures Lists(a', n.id) == Lists(a, n.id) {
      NamesIdAppend(a.parents, r, n.id);
      NamesIdAppend(a.children, r, n.id);
      NamesIdAppend(a.siblings, r, n.id);
      NamesIdAppend(a.spouses, r, n.id);
    }
    assert a'.id == a.id;
  }
}
