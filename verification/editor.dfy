/** The editor's node-list bookkeeping: the module-level id counter, the drop
    handler that appends a node, and `updateNodeData`, which merges new fields
    into the data of the node with a given id. The editor state is the pair of
    lists plus the counter's next value. */
module Editor {
  import opened Decimal
  import opened Workflow
  import opened Validation

  /** `let id = 2`: the first generated id is above the seeded node's. */
  const FirstFreshId: nat := 2

  /** The node the canvas starts with. */
  const SeedNode: Node := Node("1", "input", Position(250.0, 5.0), map["label" := Text("User Query")])

  datatype EditorState = EditorState(nodes: seq<Node>, edges: seq<Edge>, nextId: nat)

  const Initial: EditorState := EditorState([SeedNode], [], FirstFreshId)

  /** `getId`: `${id++}` yields the spelling of the current counter value and
      advances the counter by one. */
  function GetId(next: nat): (r: (string, nat))
    ensures 1 <= |r.0| && AllDigits(r.0) && ToNat(r.0) == next
    ensures r.0[0] == '0' <==> next == 0
    ensures r.1 == next + 1
  {
    ToNatFromNat(next);
    (FromNat(next), next + 1)
  }

  /** Ids drawn at different counter values differ, and no id drawn from a
      counter that started at 2 is the seeded node's id "1". */
  lemma GetIdFresh(a: nat, b: nat)
    requires FirstFreshId <= a < b
    ensures GetId(a).0 != GetId(b).0
    ensures GetId(a).0 != SeedNode.id && GetId(b).0 != SeedNode.id
  {
    assert ToNat(SeedNode.id) == 1 by {
      assert SeedNode.id[..0] == [];
    }
  }

  /** Every node id is a digit string whose value the counter has already
      passed. */
  ghost predicate IdsIssued(nodes: seq<Node>, nextId: nat) {
    forall i | 0 <= i < |nodes| :: AllDigits(nodes[i].id) && ToNat(nodes[i].id) < nextId
  }

  ghost predicate IdsUnique(nodes: seq<Node>) {
    forall i, j | 0 <= i < j < |nodes| :: nodes[i].id != nodes[j].id
  }

  /** The editor's one invariant: node ids are unique, and the counter is
      ahead of every id in use. */
  ghost predicate Valid(ed: EditorState) {
    IdsIssued(ed.nodes, ed.nextId) && IdsUnique(ed.nodes)
  }

  lemma InitialValid()
    ensures Valid(Initial)
  {
    assert ToNat(SeedNode.id) == 1 by {
      assert SeedNode.id[..0] == [];
    }
  }

  /** The drop handler, with the drag payload's `application/reactflow` entry
      as `nodeType` (the empty string when absent), its `label` entry as
      `name`, and the already converted canvas position. */
  function OnDrop(ed: EditorState, nodeType: string, name: string, position: Position): (ed': EditorState)
    ensures nodeType == "" ==> ed' == ed
    ensures nodeType != "" ==>
              && |ed'.nodes| == |ed.nodes| + 1
              && ed'.nodes[..|ed.nodes|] == ed.nodes
              && ed'.nodes[|ed.nodes|].nodeType == nodeType
              && ed'.nodes[|ed.nodes|].position == position
              && ed'.nodes[|ed.nodes|].data == map["label" := Text(name)]
              && ed'.nodes[|ed.nodes|].id == GetId(ed.nextId).0
              && ed'.edges == ed.edges
              && ed'.nextId == ed.nextId + 1
  {
    if nodeType == "" then ed
    else
      var (id, next) := GetId(ed.nextId);
      EditorState(ed.nodes + [Node(id, nodeType, position, map["label" := Text(name)])], ed.edges, next)
  }

  /** A dropped node's id is new, and the invariant survives the drop. */
  lemma OnDropValid(ed: EditorState, nodeType: string, name: string, position: Position)
    requires Valid(ed)
    ensures Valid(OnDrop(ed, nodeType, name, position))
    ensures nodeType != "" ==> forall n | n in ed.nodes :: n.id != OnDrop(ed, nodeType, name, position).nodes[|ed.nodes|].id
  {
    if nodeType != "" {
      var ed' := OnDrop(ed, nodeType, name, position);
      var added := ed'.nodes[|ed.nodes|];
      forall i | 0 <= i < |ed.nodes|
        ensures ed.nodes[i].id != added.id
      {
        assert ToNat(ed.nodes[i].id) < ToNat(added.id);
      }
      assert forall i | 0 <= i < |ed.nodes| :: ed'.nodes[i] == ed.nodes[i];
    }
  }

  /** Dropping a node never turns a valid workflow invalid. */
  lemma OnDropKeepsWorkflowValid(ed: EditorState, nodeType: string, name: string, position: Position)
    requires Validate(ed.nodes, ed.edges).isValid
    ensures Validate(OnDrop(ed, nodeType, name, position).nodes, ed.edges).isValid
  {
    if nodeType != "" {
      var ed' := OnDrop(ed, nodeType, name, position);
      ValidAfterAddingNodes(ed.nodes, [ed'.nodes[|ed.nodes|]], ed.edges);
      assert ed'.nodes == ed.nodes + [ed'.nodes[|ed.nodes|]];
    }
  }

  /** A "KnowledgeBase" node dropped on a fresh canvas at (100, 100) becomes
      the one new node, with id "2" and that position. */
  lemma DropExample()
    ensures OnDrop(Initial, "default", "KnowledgeBase", Position(100.0, 100.0)).nodes
         == [SeedNode, Node("2", "default", Position(100.0, 100.0), map["label" := Text("KnowledgeBase")])]
  {
    assert FromNat(2) == "2";
  }

  /** The data of `n` overridden key by key with `newData`:
      `{ ...node, data: { ...node.data, ...newData } }`. */
  function MergeData(n: Node, newData: map<string, Value>): (m: Node)
    ensures m.id == n.id && m.nodeType == n.nodeType && m.position == n.position
    ensures m.data.Keys == n.data.Keys + newData.Keys
    ensures forall k | k in newData :: m.data[k] == newData[k]
    ensures forall k | k in n.data && k !in newData :: m.data[k] == n.data[k]
  {
    n.(data := n.data + newData)
  }

  /** `updateNodeData(nodeId, newData)` on the node list. */
  function UpdateNodeData(nodes: seq<Node>, nodeId: string, newData: map<string, Value>): (r: seq<Node>)
    ensures |r| == |nodes|
    ensures forall i | 0 <= i < |nodes| && nodes[i].id != nodeId :: r[i] == nodes[i]
    ensures forall i | 0 <= i < |nodes| && nodes[i].id == nodeId :: r[i] == MergeData(nodes[i], newData)
  {
    if nodes == [] then []
    else
      var head := if nodes[0].id == nodeId then MergeData(nodes[0], newData) else nodes[0];
      [head] + UpdateNodeData(nodes[1..], nodeId, newData)
  }

  /** Merging twice is merging once with the later fields winning. */
  lemma MergeTwice(n: Node, first: map<string, Value>, second: map<string, Value>)
    ensures MergeData(MergeData(n, first), second) == MergeData(n, first + second)
  {
    var lhs, rhs := MergeData(MergeData(n, first), second), MergeData(n, first + second);
    assert lhs.data.Keys == rhs.data.Keys;
    forall k | k in lhs.data
      ensures lhs.data[k] == rhs.data[k]
    {
      if k in second {
      } else if k in first {
      } else {
        assert k in n.data;
      }
    }
  }

  /** Two updates of the same node are one update with the later fields
      winning; in particular an update repeated is the update once. */
  lemma UpdateTwice(nodes: seq<Node>, nodeId: string, first: map<string, Value>, second: map<string, Value>)
    ensures UpdateNodeData(UpdateNodeData(nodes, nodeId, first), nodeId, second)
         == UpdateNodeData(nodes, nodeId, first + second)
  {
    var mid := UpdateNodeData(nodes, nodeId, first);
    var lhs := UpdateNodeData(mid, nodeId, second);
    var rhs := UpdateNodeData(nodes, nodeId, first + second);
    forall i | 0 <= i < |nodes|
      ensures lhs[i] == rhs[i]
    {
      if nodes[i].id == nodeId {
        assert mid[i] == MergeData(nodes[i], first);
        MergeTwice(nodes[i], first, second);
      } else {
        assert mid[i] == nodes[i];
      }
    }
  }

  /** Updating node data leaves ids alone, so the invariant survives. */
  lemma UpdateNodeDataValid(ed: EditorState, nodeId: string, newData: map<string, Value>)
    requires Valid(ed)
    ensures Valid(ed.(nodes := UpdateNodeData(ed.nodes, nodeId, newData)))
  {
  }

  /** An update that does not touch `label` cannot change the workflow's status. */
  lemma UpdateKeepsStatus(nodes: seq<Node>, edges: seq<Edge>, nodeId: string, newData: map<string, Value>)
    requires "label" !in newData
    ensures Validate(UpdateNodeData(nodes, nodeId, newData), edges) == Validate(nodes, edges)
  {
    var r := UpdateNodeData(nodes, nodeId, newData);
    assert SameIdsAndLabels(r, nodes);
    ValidateReadsIdsAndLabels(r, nodes, edges);
  }
}
