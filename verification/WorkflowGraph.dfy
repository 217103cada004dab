/** The graph that is generated: nodes, edges that leave a node by a handle, and what it means to walk along them. */
module WorkflowGraph {
  import opened Text
  import opened Pseudocode
  import opened FlowSemantics

  type Selector = seq<string>

  datatype Ty = StringTy | NumberTy | BooleanTy | ObjectTy | FileTy | FileListTy

  function DifyType(ty: Ty): string {
    match ty
    case StringTy => "string"
    case NumberTy => "number"
    case BooleanTy => "boolean"
    case ObjectTy => "object"
    case FileTy => "file"
    case FileListTy => "array[file]"
  }

  /** A piece of a prompt: literal text, or a reference to the output of a node. */
  datatype Fragment = Lit(text: string) | Ref(selector: Selector)

  datatype ConditionValue = TextValue(text: string) | BoolValue(b: bool)

  datatype GraphCondition = GraphCondition(id: string, varType: string, selector: Selector, operator: string, value: ConditionValue)

  datatype GraphCase = GraphCase(caseId: string, logical: Logical, conditions: seq<GraphCondition>)

  datatype StartVariable = StartVariable(name: string, ty: string)

  /** `schema` is the structured output of a call: its properties, all of them required, with their types. */
  datatype GNode =
    | StartNode(id: Id, variables: seq<StartVariable>)
    | LlmNode(id: Id, func: string, prompt: seq<Fragment>, schema: map<string, Ty>)
    | IfElseNode(id: Id, cases: seq<GraphCase>)
    | EndNode(id: Id, output: string, selector: Selector, valueType: string)

  function NodeType(n: GNode): string {
    match n
    case StartNode(_, _) => "start"
    case LlmNode(_, _, _, _) => "llm"
    case IfElseNode(_, _) => "if-else"
    case EndNode(_, _, _, _) => "end"
  }

  datatype Edge = Edge(source: Id, handle: string, target: Id)

  datatype Graph = Graph(nodes: seq<GNode>, edges: seq<Edge>)

  function NodeIdsOf(nodes: seq<GNode>): seq<Id> {
    seq(|nodes|, i requires 0 <= i < |nodes| => nodes[i].id)
  }

  function From(e: Edge): Pos {
    Pos(e.source, e.handle)
  }

  // ----- Walks -----

  /** The handle by which an if-else node with these cases is left. */
  function HandleFor(cases: seq<GraphCase>, pick: nat): string {
    if pick < |cases| then cases[pick].caseId else FALSE
  }

  /** The node was visited as this hop: a call node as a call, an if-else node left as `pick` says. */
  predicate HopAt(n: GNode, hop: Hop, pick: nat) {
    n.id == hop.id &&
    ((n.LlmNode? && hop.CallHop?) ||
     (n.IfElseNode? && hop.BranchHop? && hop.handle == HandleFor(n.cases, pick)))
  }

  function Leaving(hop: Hop): Pos {
    Pos(hop.id, if hop.CallHop? then SOURCE else hop.handle)
  }

  function Picked(hop: Hop, picks: seq<nat>): seq<nat> {
    if hop.BranchHop? then Tail(picks) else picks
  }

  /** From `from`, following edges with the branch outcomes `picks`, the walk visits `path` and stands at `dest`. */
  ghost predicate Follows(g: Graph, from: Pos, picks: seq<nat>, path: seq<Hop>, dest: Pos, left: seq<nat>)
    decreases |path|
  {
    if path == [] then dest == from && left == picks
    else
      Edge(from.node, from.handle, path[0].id) in g.edges &&
      (exists n :: n in g.nodes && HopAt(n, path[0], Head(picks))) &&
      Follows(g, Leaving(path[0]), Picked(path[0], picks), path[1..], dest, left)
  }

  /** A complete walk: from the start node along `path` to the end node `end`. */
  ghost predicate IsWalk(g: Graph, picks: seq<nat>, path: seq<Hop>, end: GNode) {
    end in g.nodes && end.EndNode? &&
    exists dest, left :: Follows(g, Pos(START, SOURCE), picks, path, dest, left) && Edge(dest.node, dest.handle, end.id) in g.edges
  }

  lemma {:induction false} FollowsConcat(
    g: Graph, a: Pos, picks: seq<nat>, p: seq<Hop>, b: Pos, mid: seq<nat>, q: seq<Hop>, c: Pos, left: seq<nat>)
    requires Follows(g, a, picks, p, b, mid) && Follows(g, b, mid, q, c, left)
    ensures Follows(g, a, picks, p + q, c, left)
    decreases |p|
  {
    if p == [] {
      assert p + q == q;
    } else {
      assert (p + q)[1..] == p[1..] + q;
      FollowsConcat(g, Leaving(p[0]), Picked(p[0], picks), p[1..], b, mid, q, c, left);
    }
  }
}
