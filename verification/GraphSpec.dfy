/** The graph builder from end to end as a function, and the well-formedness that every graph it makes has. */
module GraphSpec {
  import opened Prelude
  import opened Text
  import opened FlowSemantics
  import opened WorkflowGraph
  import opened Lowering
  import opened Layout

  // ----- Well-formed graphs -----

  ghost predicate GraphOk(g: Building) {
    NoDup(NodeIdsOf(g.nodes)) && forall e :: e in g.edges ==> HasNode(g, e.source) && HasNode(g, e.target)
  }

  lemma AppendNodeOk(g: Building, n: GNode)
    requires GraphOk(g) && AppendNode(g, n).Ok?
    ensures GraphOk(AppendNode(g, n).value)
  {
    var h := AppendNode(g, n).value;
    assert NodeIdsOf(h.nodes) == NodeIdsOf(g.nodes) + [n.id];
    NoDupConcat(NodeIdsOf(g.nodes), [n.id]);
    forall id | HasNode(g, id)
      ensures HasNode(h, id)
    {
      var i :| 0 <= i < |g.nodes| && g.nodes[i].id == id;
      assert h.nodes[i].id == id;
    }
  }

  lemma {:induction false} AppendEdgesOk(g: Building, incoming: seq<Pos>, target: Id)
    requires GraphOk(g) && AppendEdges(g, incoming, target).Ok?
    ensures GraphOk(AppendEdges(g, incoming, target).value)
    decreases |incoming|
  {
    if incoming != [] {
      AppendEdgesOk(AppendEdge(g, incoming[0], target).value, incoming[1..], target);
    }
  }

  lemma {:induction false} AppendEndsOk(ctx: Context, t: Terminal, incoming: seq<Pos>, alone: bool, g: Building)
    requires ContextOk(ctx) && GraphOk(g) && AppendEnds(ctx, t, incoming, alone, g).Ok?
    ensures GraphOk(AppendEnds(ctx, t, incoming, alone, g).value)
    decreases |incoming|
  {
    if incoming != [] {
      AppendEndOk(ctx, t, incoming[0], alone, g);
      AppendEndsOk(ctx, t, incoming[1..], alone, AppendEnd(ctx, t, incoming[0], alone, g).value);
    }
  }

  lemma AppendEndOk(ctx: Context, t: Terminal, from: Pos, alone: bool, g: Building)
    requires ContextOk(ctx) && GraphOk(g) && AppendEnd(ctx, t, from, alone, g).Ok?
    ensures GraphOk(AppendEnd(ctx, t, from, alone, g).value)
  {
    var out := TerminalOutput(ctx, t, from.node).value;
    var count := GetOr(g.counts, t.id, 0) + 1;
    var g0 := g.(counts := g.counts[t.id := count]);
    var n := EndNode(EndId(t.id, from.node, alone, count), OutputName(t), out.0, DifyType(out.1));
    assert GraphOk(g0) by {
      assert forall id :: HasNode(g0, id) == HasNode(g, id);
    }
    AppendNodeOk(g0, n);
  }

  lemma {:induction false} SequenceOk(ctx: Context, ids: seq<Id>, lo: nat, incoming: seq<Pos>, g: Building)
    requires ContextOk(ctx) && Ranked(ctx) && Above(ctx, ids, lo) && GraphOk(g)
    requires WalkSequence(ctx, ids, lo, incoming, g).Ok?
    ensures GraphOk(WalkSequence(ctx, ids, lo, incoming, g).value.0)
    decreases |ctx.steps| - lo, 0, |ids|
  {
    if ids != [] {
      var id := ids[0];
      if id in ctx.bindings {
        SequenceOk(ctx, ids[1..], lo, incoming, g);
      } else if id in ctx.terminals {
        AppendEndsOk(ctx, ctx.terminals[id], incoming, |incoming| == 1, g);
        SequenceOk(ctx, ids[1..], lo, [], AppendEnds(ctx, ctx.terminals[id], incoming, |incoming| == 1, g).value);
      } else {
        SequenceStepOk(ctx, ids, lo, incoming, g);
      }
    }
  }

  lemma {:induction false} SequenceStepOk(ctx: Context, ids: seq<Id>, lo: nat, incoming: seq<Pos>, g: Building)
    requires ContextOk(ctx) && Ranked(ctx) && Above(ctx, ids, lo) && GraphOk(g)
    requires ids != [] && ids[0] !in ctx.bindings && ids[0] !in ctx.terminals && ids[0] in ctx.index
    requires WalkSequence(ctx, ids, lo, incoming, g).Ok?
    ensures GraphOk(WalkSequence(ctx, ids, lo, incoming, g).value.0)
    decreases |ctx.steps| - lo, 0, |ids|, 0
  {
    var id := ids[0];
    var g0 := g.(visited := g.visited + {id});
    assert GraphOk(g0) by {
      assert forall x :: HasNode(g0, x) == HasNode(g, x);
    }
    AppendEdgesOk(g0, incoming, id);
    var h := AppendEdges(g0, incoming, id).value;
    match ctx.steps[ctx.index[id]]
    case CallStep(_, _) =>
      SequenceOk(ctx, ids[1..], lo, [Pos(id, SOURCE)], h);
    case BranchStep(_, cases, elseBody) =>
      CasesOk(ctx, id, cases, elseBody, ctx.index[id] + 1, h);
      var r := WalkCases(ctx, id, cases, elseBody, ctx.index[id] + 1, h).value;
      SequenceOk(ctx, ids[1..], lo, r.1, r.0);
  }

  lemma {:induction false} CasesOk(ctx: Context, id: Id, cases: seq<FlatCase>, elseBody: seq<Id>, lo: nat, g: Building)
    requires ContextOk(ctx) && Ranked(ctx) && BodiesAbove(ctx, cases, elseBody, lo) && lo <= |ctx.steps| && GraphOk(g)
    requires WalkCases(ctx, id, cases, elseBody, lo, g).Ok?
    ensures GraphOk(WalkCases(ctx, id, cases, elseBody, lo, g).value.0)
    decreases |ctx.steps| - lo, 1, |cases|
  {
    if cases == [] {
      SequenceOk(ctx, elseBody, lo, [Pos(id, FALSE)], g);
    } else {
      SequenceOk(ctx, cases[0].body, lo, [Pos(id, cases[0].caseId)], g);
      CasesOk(ctx, id, cases[1..], elseBody, lo, WalkSequence(ctx, cases[0].body, lo, [Pos(id, cases[0].caseId)], g).value.0);
    }
  }

  function EdgePairs(edges: seq<Edge>): (r: seq<(Id, Id)>)
    ensures |r| == |edges|
  {
    seq(|edges|, i requires 0 <= i < |edges| => (edges[i].source, edges[i].target))
  }

  function NetOf(nodes: seq<GNode>, edges: seq<Edge>): Net {
    Net(NodeIdsOf(nodes), EdgePairs(edges))
  }

  lemma NetIsOk(g: Building)
    requires GraphOk(g)
    ensures NetOk(NetOf(g.nodes, g.edges))
  {
    var net := NetOf(g.nodes, g.edges);
    forall e | e in net.edges
      ensures e.0 in net.nodes && e.1 in net.nodes
    {
      var k :| 0 <= k < |net.edges| && net.edges[k] == e;
      assert g.edges[k] in g.edges;
      HasNodeId(g, e.0);
      HasNodeId(g, e.1);
    }
  }

  lemma HasNodeId(g: Building, id: Id)
    ensures HasNode(g, id) <==> id in NodeIdsOf(g.nodes)
  {
    var ids := NodeIdsOf(g.nodes);
    if HasNode(g, id) {
      var i :| 0 <= i < |g.nodes| && g.nodes[i].id == id;
      assert ids[i] == id;
    }
    if id in ids {
      var i :| 0 <= i < |ids| && ids[i] == id;
      assert g.nodes[i].id == id;
    }
  }

  lemma SameNode(h: Building, m: GNode, n: GNode)
    requires GraphOk(h) && m in h.nodes && n in h.nodes && m.id == n.id
    ensures m == n
  {
    var i :| 0 <= i < |h.nodes| && h.nodes[i] == m;
    var j :| 0 <= j < |h.nodes| && h.nodes[j] == n;
    assert NodeIdsOf(h.nodes)[i] == NodeIdsOf(h.nodes)[j];
  }

  // ----- The whole build -----

  predicate Walkable(flow: Flow) {
    Load(flow).Ok? ==>
      var ctx := Load(flow).value;
      ContextOk(ctx) && Ranked(ctx) && Above(ctx, flow.body, 0)
  }

  function StartBuilding(flow: Flow): Building {
    Building([StartNode(START, StartVariables(flow.inputs))], [], {}, map[])
  }

  /** The context with structured outputs, and a node for the start and for each step. */
  function Prepared(flow: Flow): Result<(Context, Building), GraphError>
    requires Walkable(flow)
  {
    var ctx0 :- Load(flow);
    var ctx :- InferSteps(ctx0, flow.steps);
    var g :- AppendStepNodes(ctx, flow.steps, StartBuilding(flow));
    Ok((ctx, g))
  }

  lemma PreparedOk(flow: Flow)
    requires Walkable(flow) && Prepared(flow).Ok?
    ensures var (ctx, g) := Prepared(flow).value;
            ContextOk(ctx) && Ranked(ctx) && Above(ctx, flow.body, 0) && GraphOk(g) &&
            ctx == Load(flow).value.(fields := ctx.fields)
  {
    var ctx := InferSteps(Load(flow).value, flow.steps).value;
    var s := StartBuilding(flow);
    assert NodeIdsOf(s.nodes) == [START];
    StepNodesOk(ctx, flow.steps, s);
  }

  lemma {:induction false} StepNodesOk(ctx: Context, steps: seq<Step>, g: Building)
    requires ContextOk(ctx) && GraphOk(g) && AppendStepNodes(ctx, steps, g).Ok?
    ensures GraphOk(AppendStepNodes(ctx, steps, g).value)
    decreases |steps|
  {
    if steps != [] {
      var n := BuildStepNode(ctx, steps[0]).value;
      AppendNodeOk(g, n);
      StepNodesOk(ctx, steps[1..], AppendNode(g, n).value);
    }
  }

  function Missing(flow: Flow, g: Building): set<Id> {
    (set s | s in flow.steps :: s.id) - g.visited
  }

  function CountStart(nodes: seq<GNode>): nat {
    if nodes == [] then 0 else (if nodes[0].StartNode? then 1 else 0) + CountStart(nodes[1..])
  }

  predicate HasEnd(nodes: seq<GNode>) {
    exists i :: 0 <= i < |nodes| && nodes[i].EndNode?
  }

  /** The checks after the walk. */
  ghost function Checked(flow: Flow, g: Building, exits: seq<Pos>): Result<Graph, GraphError> {
    if exits != [] then Err(FallsOff)
    else if Missing(flow, g) != {} then Err(Unreferenced(Missing(flow, g)))
    else if Cyclic(NetOf(g.nodes, g.edges)) then Err(DirectedCycle)
    else if CountStart(g.nodes) != 1 then Err(StartCount)
    else if !HasEnd(g.nodes) then Err(NoEndNode)
    else Ok(Graph(g.nodes, g.edges))
  }

  ghost function Built(flow: Flow): Result<Graph, GraphError>
    requires Walkable(flow)
  {
    var p :- Prepared(flow);
    PreparedOk(flow);
    var w :- WalkSequence(p.0, flow.body, 0, [Pos(START, SOURCE)], p.1);
    Checked(flow, w.0, w.1)
  }
}
