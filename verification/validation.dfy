/** `validateWorkflow`: the structural check that gates the chat button. A
    workflow is valid when the FIRST node labelled "LLM Engine" is the source
    of some edge whose target id, looked up with a first-match search, names
    a node labelled "Output". */
module Validation {
  import opened Wrappers
  import opened Workflow

  datatype Status = Status(isValid: bool, message: string)

  const MissingMessage: string := "Workflow must contain an LLM Engine and an Output node."
  const UnconnectedMessage: string := "LLM Engine must be connected to an Output node."
  const ValidMessage: string := "Workflow is valid."

  /** `nodes.find(n => n.id === edge.target)?.data.label === 'Output'`:
      an edge whose target matches no node yields `undefined`, never "Output". */
  predicate TargetIsOutput(nodes: seq<Node>, e: Edge) {
    match FindById(nodes, e.target)
    case None => false
    case Some(k) => HasLabel(nodes[k], OutputLabel)
  }

  /** The predicate given to `edges.some` once the engine node is known. */
  predicate Connects(nodes: seq<Node>, sourceId: string, e: Edge) {
    e.source == sourceId && TargetIsOutput(nodes, e)
  }

  /** Reference definition of a valid workflow, stated with indices instead of
      searches: i is the first engine node, edge j leaves it, and k, the first
      node carrying the edge's target id, is labelled "Output". */
  ghost predicate Wired(nodes: seq<Node>, edges: seq<Edge>) {
    exists i, j, k ::
      && IsFirstLabelled(nodes, i, LlmEngine)
      && 0 <= j < |edges|
      && edges[j].source == nodes[i].id
      && IsFirstWithId(nodes, k, edges[j].target)
      && HasLabel(nodes[k], OutputLabel)
  }

  function Validate(nodes: seq<Node>, edges: seq<Edge>): (s: Status)
    ensures !AnyLabelled(nodes, LlmEngine) || !AnyLabelled(nodes, OutputLabel) ==>
              s == Status(false, MissingMessage)
    ensures AnyLabelled(nodes, LlmEngine) && AnyLabelled(nodes, OutputLabel) && !Wired(nodes, edges) ==>
              s == Status(false, UnconnectedMessage)
    ensures s.isValid <==> Wired(nodes, edges)
    ensures s.isValid ==> s.message == ValidMessage
  {
    if !AnyLabelled(nodes, LlmEngine) || !AnyLabelled(nodes, OutputLabel) then
      Status(false, MissingMessage)
    else
      var llm := nodes[FindLabelled(nodes, LlmEngine).value];
      if exists j | 0 <= j < |edges| :: Connects(nodes, llm.id, edges[j]) then
        Status(true, ValidMessage)
      else
        Status(false, UnconnectedMessage)
  }

  /** Adding edges keeps a valid workflow valid: `some` over a longer list
      still finds the old witness. */
  lemma {:induction false} ValidAfterAddingEdges(nodes: seq<Node>, edges: seq<Edge>, more: seq<Edge>)
    requires Validate(nodes, edges).isValid
    ensures Validate(nodes, edges + more) == Status(true, ValidMessage)
  {
    var i, j, k :| && IsFirstLabelled(nodes, i, LlmEngine)
                   && 0 <= j < |edges|
                   && edges[j].source == nodes[i].id
                   && IsFirstWithId(nodes, k, edges[j].target)
                   && HasLabel(nodes[k], OutputLabel);
    assert (edges + more)[j] == edges[j];
  }

  /** Appending nodes at the end keeps a valid workflow valid: both first-match
      searches stop where they stopped before. */
  lemma {:induction false} ValidAfterAddingNodes(nodes: seq<Node>, more: seq<Node>, edges: seq<Edge>)
    requires Validate(nodes, edges).isValid
    ensures Validate(nodes + more, edges) == Status(true, ValidMessage)
  {
    var i, j, k :| && IsFirstLabelled(nodes, i, LlmEngine)
                   && 0 <= j < |edges|
                   && edges[j].source == nodes[i].id
                   && IsFirstWithId(nodes, k, edges[j].target)
                   && HasLabel(nodes[k], OutputLabel);
    var all := nodes + more;
    assert all[i] == nodes[i] && all[k] == nodes[k];
    assert IsFirstLabelled(all, i, LlmEngine);
    assert IsFirstWithId(all, k, edges[j].target);
  }

  /** An extra edge that does not connect the first engine node to an Output
      node leaves the status exactly as it was. */
  lemma {:induction false} IrrelevantEdgeUnchanged(nodes: seq<Node>, edges: seq<Edge>, e: Edge)
    requires AnyLabelled(nodes, LlmEngine)
    requires !Connects(nodes, nodes[FindLabelled(nodes, LlmEngine).value].id, e)
    ensures Validate(nodes, edges + [e]) == Validate(nodes, edges)
  {
    var i := FindLabelled(nodes, LlmEngine).value;
    if Wired(nodes, edges + [e]) {
      var i', j, k :| && IsFirstLabelled(nodes, i', LlmEngine)
                      && 0 <= j < |edges + [e]|
                      && (edges + [e])[j].source == nodes[i'].id
                      && IsFirstWithId(nodes, k, (edges + [e])[j].target)
                      && HasLabel(nodes[k], OutputLabel);
      FirstLabelledUnique(nodes, i, i', LlmEngine);
      if j == |edges| {
        FirstWithIdUnique(nodes, k, FindById(nodes, e.target).value, e.target);
        assert false;
      }
      assert (edges + [e])[j] == edges[j];
      assert Wired(nodes, edges);
    }
    if Wired(nodes, edges) {
      ValidAfterAddingEdges(nodes, edges, [e]);
    }
  }

  /** An edge whose target id names no node never makes a workflow valid,
      because the optional chain on the failed search yields `undefined`. */
  lemma DanglingEdgeIgnored(nodes: seq<Node>, edges: seq<Edge>, e: Edge)
    requires forall n | n in nodes :: n.id != e.target
    ensures Validate(nodes, edges + [e]) == Validate(nodes, edges)
  {
    if AnyLabelled(nodes, LlmEngine) {
      IrrelevantEdgeUnchanged(nodes, edges, e);
    }
  }

  /** Only the first engine node counts: wiring any other node, such as a
      second "LLM Engine", to an Output node changes nothing. */
  lemma OnlyFirstEngineCounts(nodes: seq<Node>, edges: seq<Edge>, e: Edge)
    requires AnyLabelled(nodes, LlmEngine)
    requires e.source != nodes[FindLabelled(nodes, LlmEngine).value].id
    ensures Validate(nodes, edges + [e]) == Validate(nodes, edges)
  {
    IrrelevantEdgeUnchanged(nodes, edges, e);
  }

  /** Two node lists that agree, position by position, on ids and labels. */
  ghost predicate SameIdsAndLabels(a: seq<Node>, b: seq<Node>) {
    && |a| == |b|
    && forall i | 0 <= i < |a| ::
         && a[i].id == b[i].id
         && ("label" in a[i].data <==> "label" in b[i].data)
         && ("label" in a[i].data ==> a[i].data["label"] == b[i].data["label"])
  }

  /** The check reads nothing but ids and labels: types, positions and the
      other data fields of nodes do not affect it. */
  lemma ValidateReadsIdsAndLabels(a: seq<Node>, b: seq<Node>, edges: seq<Edge>)
    requires SameIdsAndLabels(a, b)
    ensures Validate(a, edges) == Validate(b, edges)
  {
    assert forall i, name | 0 <= i < |a| :: HasLabel(a[i], name) == HasLabel(b[i], name);
    assert AnyLabelled(a, LlmEngine) == AnyLabelled(b, LlmEngine);
    assert AnyLabelled(a, OutputLabel) == AnyLabelled(b, OutputLabel);
    assert forall i, name | 0 <= i < |a| :: IsFirstLabelled(a, i, name) == IsFirstLabelled(b, i, name);
    assert forall k, id | 0 <= k < |a| :: IsFirstWithId(a, k, id) == IsFirstWithId(b, k, id);
    assert Wired(a, edges) == Wired(b, edges);
  }

  function Labelled(id: string, nodeType: string, name: string): Node {
    Node(id, nodeType, Position(0.0, 0.0), map["label" := Text(name)])
  }

  /** An engine wired to an Output node is valid, whatever disconnected nodes
      sit beside it. */
  lemma WiredExampleIsValid()
    ensures Validate([Labelled("1", "input", "User Query"), Labelled("2", "default", "KnowledgeBase"),
                      Labelled("3", "default", LlmEngine), Labelled("4", "output", OutputLabel)],
                     [Edge("3", "4")])
         == Status(true, ValidMessage)
  {
    var nodes := [Labelled("1", "input", "User Query"), Labelled("2", "default", "KnowledgeBase"),
                  Labelled("3", "default", LlmEngine), Labelled("4", "output", OutputLabel)];
    var edges := [Edge("3", "4")];
    assert IsFirstLabelled(nodes, 2, LlmEngine);
    assert IsFirstWithId(nodes, 3, edges[0].target);
    assert edges[0].source == nodes[2].id && HasLabel(nodes[3], OutputLabel);
    assert Wired(nodes, edges);
  }

  /** A workflow with no engine node is invalid, even with an Output node. */
  lemma NoEngineExampleIsInvalid()
    ensures Validate([Labelled("1", "input", "User Query"), Labelled("2", "output", OutputLabel)],
                     [Edge("1", "2")])
         == Status(false, MissingMessage)
  {
    var nodes := [Labelled("1", "input", "User Query"), Labelled("2", "output", OutputLabel)];
    assert !HasLabel(nodes[0], LlmEngine) && !HasLabel(nodes[1], LlmEngine);
  }

  /** Two engines: the second is wired to Output, the first is not. The
      workflow is reported as unconnected. */
  lemma SecondEngineExampleIsInvalid()
    ensures Validate([Labelled("2", "default", LlmEngine), Labelled("3", "default", LlmEngine),
                      Labelled("4", "output", OutputLabel)],
                     [Edge("3", "4")])
         == Status(false, UnconnectedMessage)
  {
    var nodes := [Labelled("2", "default", LlmEngine), Labelled("3", "default", LlmEngine),
                  Labelled("4", "output", OutputLabel)];
    assert IsFirstLabelled(nodes, 0, LlmEngine);
    assert HasLabel(nodes[2], OutputLabel);
    OnlyFirstEngineCounts(nodes, [], Edge("3", "4"));
  }
}
