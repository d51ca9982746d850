/** The viewer's top-level state: which data source is shown, its nodes,
    the highlighted root, the selected node and the hovered node, with the
    handlers that change them and the lookups derived from them. */
module App {
  import opened Entity
  import opened Partition
  import Records

  /** `nodes.find(item => item.id === id)`: the earliest node with that id. */
  function FindById(nodes: seq<Node>, id: string): (r: Option<Node>)
    ensures r.Some? ==> exists i :: 0 <= i < |nodes| && nodes[i] == r.value && r.value.id == id &&
                          forall j :: 0 <= j < i ==> nodes[j].id != id
    ensures r.None? <==> forall n :: n in nodes ==> n.id != id
  {
    if nodes == [] then None
    else if nodes[0].id == id then Some(nodes[0])
    else
      var r := FindById(nodes[1..], id);
      assert forall n :: n in nodes[1..] ==> n in nodes;
      assert forall n :: n in nodes ==> n == nodes[0] || n in nodes[1..];
      if r.Some? then
        assert exists i :: 0 <= i < |nodes[1..]| && nodes[1..][i] == r.value && r.value.id == id &&
                 forall j :: 0 <= j < i ==> nodes[1..][j].id != id;
        var i :| 0 <= i < |nodes[1..]| && nodes[1..][i] == r.value && r.value.id == id &&
                 forall j :: 0 <= j < i ==> nodes[1..][j].id != id;
        assert nodes[i + 1] == r.value;
        assert forall j :: 0 <= j < i + 1 ==> nodes[j].id != id by {
          forall j | 0 <= j < i + 1 ensures nodes[j].id != id {
            if j > 0 { assert nodes[j] == nodes[1..][j - 1]; }
          }
        }
        r
      else r
  }

  /** With unique ids the lookup finds exactly the node that has the id. */
  lemma FindUnique(nodes: seq<Node>, n: Node)
    requires UniqueIds(nodes) && n in nodes
    ensures FindById(nodes, n.id) == Some(n)
  {
    var r := FindById(nodes, n.id);
    var i :| 0 <= i < |nodes| && nodes[i] == r.value && r.value.id == n.id &&
             forall j :: 0 <= j < i ==> nodes[j].id != n.id;
    SameIdSameNode(nodes, r.value, n);
  }

  class ViewState {
    var source: string
    var nodes: seq<Node>
    var rootId: string
    var selectId: Option<string>
    var hoverId: Option<string>

    /** The shown list is non-empty (its first id is read) and its ids are
        unique (the partition keys its search by id). */
    ghost predicate Valid()
      reads this
    {
      |nodes| > 0 && UniqueIds(nodes)
    }

    function FirstNodeId(): string
      reads this
      requires Valid()
    {
      nodes[0].id
    }

    /** The reset button is rendered. */
    predicate ShowReset()
      reads this
      requires Valid()
    {
      rootId != FirstNodeId()
    }

    /** The initial state: the default source, rooted at its first node. */
    constructor(initialNodes: seq<Node>)
      requires |initialNodes| > 0 && UniqueIds(initialNodes)
      ensures Valid() && !ShowReset()
      ensures source == Records.DefaultSource && nodes == initialNodes
      ensures rootId == initialNodes[0].id && selectId == None && hoverId == None
    {
      source := Records.DefaultSource;
      nodes := initialNodes;
      rootId := initialNodes[0].id;
      selectId := None;
      hoverId := None;
    }

    /** Switching source roots at the new list's first node and clears the
        selection and the hover together. */
    method ChangeSource(value: string, newNodes: seq<Node>)
      requires |newNodes| > 0 && UniqueIds(newNodes)
      modifies this
      ensures Valid() && !ShowReset()
      ensures source == value && nodes == newNodes && rootId == newNodes[0].id
      ensures selectId == None && hoverId == None && Selected() == None
    {
      rootId := newNodes[0].id;
      nodes := newNodes;
      source := value;
      selectId := None;
      hoverId := None;
    }

    /** The reset button's handler: back to the first node, and the button
        disappears. */
    method ResetRoot()
      requires Valid()
      modifies this
      ensures Valid() && !ShowReset() && rootId == FirstNodeId()
      ensures source == old(source) && nodes == old(nodes)
      ensures selectId == old(selectId) && hoverId == old(hoverId)
    {
      rootId := FirstNodeId();
    }

    /** A card's sub-click roots the view at that card; the reset button
        shows exactly when that is not the first node. */
    method Reroot(id: string)
      requires Valid()
      modifies this
      ensures Valid() && rootId == id && (ShowReset() <==> id != FirstNodeId())
      ensures source == old(source) && nodes == old(nodes)
      ensures selectId == old(selectId) && hoverId == old(hoverId)
    {
      rootId := id;
    }

    /** A card click or a details-panel link selects a node. */
    method Select(id: string)
      requires Valid()
      modifies this
      ensures Valid() && selectId == Some(id)
      ensures source == old(source) && nodes == old(nodes)
      ensures rootId == old(rootId) && hoverId == old(hoverId)
    {
      selectId := Some(id);
    }

    /** The details panel's close button clears the selection, and the
        panel disappears. */
    method Deselect()
      requires Valid()
      modifies this
      ensures Valid() && selectId == None && Selected() == None
      ensures source == old(source) && nodes == old(nodes)
      ensures rootId == old(rootId) && hoverId == old(hoverId)
    {
      selectId := None;
    }

    /** Hovering a details-panel link highlights a node. */
    method Hover(id: string)
      requires Valid()
      modifies this
      ensures Valid() && hoverId == Some(id)
      ensures source == old(source) && nodes == old(nodes)
      ensures rootId == old(rootId) && selectId == old(selectId)
    {
      hoverId := Some(id);
    }

    /** Leaving the details-panel links clears the hover. */
    method ClearHover()
      requires Valid()
      modifies this
      ensures Valid() && hoverId == None
      ensures source == old(source) && nodes == old(nodes)
      ensures rootId == old(rootId) && selectId == old(selectId)
    {
      hoverId := None;
    }

    /** The node shown in the details panel: the node whose id is the
        selected one, or none when nothing is selected or no node has it. */
    function Selected(): (r: Option<Node>)
      reads this
      ensures r.Some? ==> r.value in nodes && selectId == Some(r.value.id)
      ensures r.None? <==> selectId.None? || forall n :: n in nodes ==> n.id != selectId.value
    {
      if selectId.None? then None else FindById(nodes, selectId.value)
    }

    /** The family trees of the shown list, one layout per group, each
        rooted at its group's first member. */
    method TreeLayouts() returns (trees: seq<seq<Node>>, layouts: seq<Layout>)
      requires Valid()
      ensures IsFamilyPartition(nodes, trees)
      ensures |layouts| == |trees|
      ensures forall k :: 0 <= k < |trees| ==> layouts[k].members == trees[k] && layouts[k].rootId == trees[k][0].id
      ensures forall k1, k2 :: 0 <= k1 < k2 < |trees| ==> layouts[k1].key != layouts[k2].key
    {
      trees := FamilyTrees(nodes);
      layouts := Layouts(trees);
      LayoutRoots(nodes, trees);
    }
  }

  /** When the selected id names a node, the details panel shows exactly
      that node. */
  lemma SelectedIsUnique(s: ViewState, n: Node)
    requires s.Valid() && n in s.nodes && s.selectId == Some(n.id)
    ensures s.Selected() == Some(n)
  {
    FindUnique(s.nodes, n);
  }
}
