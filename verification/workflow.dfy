/** The editor's graph: nodes and edges as immutable records, and the two
    first-match lookups (`Array.prototype.find`) the validator performs. */
module Workflow {
  import opened Wrappers

  /** A value stored in a node's `data` object. The editor only ever stores
      strings (`label`, `prompt`) and booleans (`webSearch`). */
  datatype Value = Text(s: string) | Flag(b: bool)

  /** A canvas position, computed by the graph library and copied into the
      node; the model never inspects it. */
  datatype Position = Position(x: real, y: real)

  datatype Node = Node(id: string, nodeType: string, position: Position, data: map<string, Value>)

  /** An edge as the validator sees it: the ids of its two end points. */
  datatype Edge = Edge(source: string, target: string)

  const LlmEngine: string := "LLM Engine"
  const OutputLabel: string := "Output"

  /** `node.data.label === wanted`: false when `label` is absent or holds another value. */
  predicate HasLabel(n: Node, wanted: string) {
    "label" in n.data && n.data["label"] == Text(wanted)
  }

  /** `nodes.some(node => node.data.label === label)` */
  predicate AnyLabelled(nodes: seq<Node>, wanted: string) {
    exists i | 0 <= i < |nodes| :: HasLabel(nodes[i], wanted)
  }

  /** `i` is the index the first-match `find` by label stops at. */
  ghost predicate IsFirstLabelled(nodes: seq<Node>, i: int, wanted: string) {
    && 0 <= i < |nodes|
    && HasLabel(nodes[i], wanted)
    && forall j | 0 <= j < i :: !HasLabel(nodes[j], wanted)
  }

  /** `k` is the index the first-match `find` by id stops at. */
  ghost predicate IsFirstWithId(nodes: seq<Node>, k: int, id: string) {
    && 0 <= k < |nodes|
    && nodes[k].id == id
    && forall j | 0 <= j < k :: nodes[j].id != id
  }

  /** `nodes.find(node => node.data.label === label)`, as an index. */
  function FindLabelled(nodes: seq<Node>, wanted: string): (r: Option<nat>)
    ensures r.None? <==> !AnyLabelled(nodes, wanted)
    ensures r.Some? ==> IsFirstLabelled(nodes, r.value, wanted)
  {
    if nodes == [] then None
    else if HasLabel(nodes[0], wanted) then Some(0)
    else
      match FindLabelled(nodes[1..], wanted)
      case None => None
      case Some(i) => Some(i + 1)
  }

  /** `nodes.find(n => n.id === id)`, as an index; None is JavaScript's `undefined`. */
  function FindById(nodes: seq<Node>, id: string): (r: Option<nat>)
    ensures r.None? <==> forall j | 0 <= j < |nodes| :: nodes[j].id != id
    ensures r.Some? ==> IsFirstWithId(nodes, r.value, id)
  {
    if nodes == [] then None
    else if nodes[0].id == id then Some(0)
    else
      match FindById(nodes[1..], id)
      case None => None
      case Some(i) => Some(i + 1)
  }

  /** There is only one first match. */
  lemma FirstLabelledUnique(nodes: seq<Node>, i: int, i': int, wanted: string)
    requires IsFirstLabelled(nodes, i, wanted) && IsFirstLabelled(nodes, i', wanted)
    ensures i == i'
  {
  }

  lemma FirstWithIdUnique(nodes: seq<Node>, k: int, k': int, id: string)
    requires IsFirstWithId(nodes, k, id) && IsFirstWithId(nodes, k', id)
    ensures k == k'
  {
  }

  /** Appending nodes never changes where a successful first-match search stops. */
  lemma {:induction false} FindLabelledAppend(nodes: seq<Node>, more: seq<Node>, wanted: string)
    requires FindLabelled(nodes, wanted).Some?
    ensures FindLabelled(nodes + more, wanted) == FindLabelled(nodes, wanted)
  {
    var i := FindLabelled(nodes, wanted).value;
    assert IsFirstLabelled(nodes + more, i, wanted);
    FirstLabelledUnique(nodes + more, FindLabelled(nodes + more, wanted).value, i, wanted);
  }

  lemma {:induction false} FindByIdAppend(nodes: seq<Node>, more: seq<Node>, id: string)
    requires FindById(nodes, id).Some?
    ensures FindById(nodes + more, id) == FindById(nodes, id)
  {
    var k := FindById(nodes, id).value;
    assert IsFirstWithId(nodes + more, k, id);
    FirstWithIdUnique(nodes + more, FindById(nodes + more, id).value, k, id);
  }
}
