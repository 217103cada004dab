/**
 The two stages together: for every program that both accept, the graph does what the program does, every handle
 of a node is wired exactly once, edges lead forward, and the graph builder's own checks cannot fail.
 */
module Correctness {
  import opened Prelude
  import opened Text
  import opened Pseudocode
  import opened FlowSemantics
  import opened Elaboration
  import opened Identity
  import opened Scoping
  import opened Compile
  import opened WorkflowGraph
  import opened Lowering
  import opened Partition
  import opened Refinement
  import opened Layout
  import opened GraphSpec
  import opened ControlFlow

  datatype PipelineError = InProgram(e: ScopeError) | InGraph(g: GraphError)

  datatype Program = Program(body: Stmts, parsed: seq<Warning>, terminals: set<string>, types: map<string, string>)

  function Tree(p: Program): Block {
    TreeOf(p.body, p.terminals)
  }

  function Semantics(p: Program): Result<Flow, ScopeError> {
    Compiled(p.body, p.parsed, p.terminals, p.types)
  }

  // ----- What loading a compiled program gives -----

  /**
   All ids of a program are distinct and none is the start node's exactly when, on the lower-cased names of its calls:
   none is the start's id, none is the id of a repeated call, and neither they nor the ids of repeated calls are ids of
   its branches, terminals or bindings.
   */
  lemma IdsAreDistinctExactly(p: Program, flow: Flow)
    requires Semantics(p) == Ok(flow)
    ensures NoDup(AllIds(Tree(p))) && START !in AllIds(Tree(p)) <==> NamesApart(TallyOf(flow.steps, flow.terminals, flow.bindings))
  {
    CompiledLists(p, flow);
    TalliesAgree(map[], Tree(p));
    IdsApartExactly(p.body, true, p.terminals);
  }

  /** The ids of a program that calls only groups are distinct, and none is the start node's. */
  lemma UniqueIds(p: Program)
    requires GroupCalls(Tree(p))
    ensures NoDup(AllIds(Tree(p))) && START !in AllIds(Tree(p))
  {
    GroupsAreApart(Tree(p));
    IdsApartExactly(p.body, true, p.terminals);
  }

  /**
   With groups only, all ids of steps, terminals and bindings are distinct, none is the start node's, and each occurs
   exactly once in the root body and the bodies of the branches taken together, where nothing else occurs.
   */
  lemma IdsArePartitioned(p: Program, flow: Flow)
    requires Semantics(p) == Ok(flow) && forall s :: s in flow.steps && s.CallStep? ==> EndsWith(s.call.func, "Group")
    ensures var ids := (StepIds(flow.steps) + TerminalIds(flow.terminals)) + BindingIds(flow.bindings);
            NoDup(ids) && START !in ids &&
            NoDup(flow.body + Bodies(flow.steps)) && forall x :: x in flow.body + Bodies(flow.steps) <==> x in ids
  {
    CompiledLists(p, flow);
    UniqueIds(p);
    hide Semantics, StepIds, TerminalIds, BindingIds, Bodies, AllIds, BodyIds, Steps, Terminals, Scoping.Bindings;
    KindsPartition(map[], Tree(p));
    BodiesPartition(Tree(p));
    var ids := (StepIds(flow.steps) + TerminalIds(flow.terminals)) + BindingIds(flow.bindings);
    Sum(StepIds(flow.steps) + TerminalIds(flow.terminals), BindingIds(flow.bindings));
    Sum(StepIds(flow.steps), TerminalIds(flow.terminals));
    SameIds(AllIds(Tree(p)), ids);
    Sum(flow.body, Bodies(flow.steps));
    SameIds(AllIds(Tree(p)), flow.body + Bodies(flow.steps));
  }

  lemma SameIds(all: seq<Id>, ids: seq<Id>)
    requires NoDup(all) && multiset(ids) == multiset(all)
    ensures NoDup(ids) && forall x :: x in ids <==> x in all
  {
    forall x
      ensures multiset(ids)[x] <= 1 && (x in ids <==> x in all)
    {
      NoDupCounts(all, x);
      assert x in ids <==> x in multiset(ids);
      assert x in all <==> x in multiset(all);
    }
    CountsNoDup(ids);
  }

  lemma LoadedIds(p: Program, flow: Flow)
    requires Semantics(p) == Ok(flow) && Load(flow).Ok?
    ensures NoDup(AllIds(Tree(p))) && START !in AllIds(Tree(p))
  {
    LoadFacts(flow);
    forall s | s in Steps(Tree(p)) && s.CallStep?
      ensures EndsWith(s.call.func, "Group")
    {
      var k :| 0 <= k < |flow.steps| && flow.steps[k] == s;
      assert CallOk(flow.steps[k]);
    }
    UniqueIds(p);
  }

  /** The first stage's output is in the form that the second stage's walk relies on. */
  lemma CompiledIsWalkable(p: Program, flow: Flow)
    requires Semantics(p) == Ok(flow)
    ensures Walkable(flow)
  {
    if Load(flow).Ok? {
      var ctx := Load(flow).value;
      LoadFacts(flow);
      LoadedIds(p, flow);
      LoadedHolds(flow, ctx, Tree(p));
      TreeRanked(flow, ctx, Tree(p));
    }
  }

  /** Both stages. */
  ghost function Pipeline(p: Program): Result<(Flow, Graph), PipelineError> {
    match Semantics(p)
    case Err(e) => Err(InProgram(e))
    case Ok(flow) =>
      CompiledIsWalkable(p, flow);
      match Built(flow)
      case Err(e) => Err(InGraph(e))
      case Ok(g) => Ok((flow, g))
  }

  /** The context of the graph builder for a program's flat form, and the graph before the bodies are walked. */
  ghost predicate Ready(p: Program, flow: Flow, ctx: Context, g: Building) {
    Semantics(p) == Ok(flow) && Walkable(flow) && Prepared(flow) == Ok((ctx, g)) &&
    Loaded(flow, ctx) && Holds(ctx, Tree(p)) && Ranked(ctx) && Above(ctx, flow.body, 0) && GraphOk(g) &&
    NoDup(AllIds(Tree(p))) && START !in AllIds(Tree(p))
  }

  lemma PreparedIsReady(p: Program, flow: Flow)
    requires Semantics(p) == Ok(flow) && Walkable(flow) && Prepared(flow).Ok?
    ensures Ready(p, flow, Prepared(flow).value.0, Prepared(flow).value.1)
  {
    LoadedIds(p, flow);
    LoadFacts(flow);
    PreparedOk(flow);
    var ctx := Prepared(flow).value.0;
    StillLoaded(flow, Load(flow).value, ctx);
    CompiledLists(p, flow);
    hide Prepared, Load, Loaded, Holds, Ranked, Above, GraphOk, Walkable, Semantics, NoDup;
    LoadedHolds(flow, ctx, Tree(p));
  }

  lemma StillLoaded(flow: Flow, ctx0: Context, ctx: Context)
    requires Loaded(flow, ctx0) && ctx == ctx0.(fields := ctx.fields)
    ensures Loaded(flow, ctx)
  {
  }

  lemma CompiledLists(p: Program, flow: Flow)
    requires Semantics(p) == Ok(flow)
    ensures flow.steps == Steps(Tree(p)) && flow.terminals == Terminals(Tree(p)) && flow.bindings == Bindings(map[], Tree(p))
    ensures flow.body == BodyIds(Tree(p))
  {
  }

  const ENTRY := Pos(START, SOURCE)

  function Lowers(p: Program, ctx: Context, g: Building): Lowered
    requires ContextOk(ctx)
  {
    LowerBlock(ctx, Tree(p), [ENTRY], g)
  }

  /** Accepted: all intermediate results at hand. */
  lemma AcceptedFacts(p: Program, flow: Flow, graph: Graph) returns (ctx: Context, g: Building, h: Building)
    requires Pipeline(p) == Ok((flow, graph))
    ensures Ready(p, flow, ctx, g) && Lowers(p, ctx, g) == Ok((h, [])) && graph == Graph(h.nodes, h.edges)
    ensures Missing(flow, h) == {} && !Cyclic(NetOf(h.nodes, h.edges)) && CountStart(h.nodes) == 1 && HasEnd(h.nodes)
    ensures GraphOk(h)
  {
    CompiledIsWalkable(p, flow);
    PreparedIsReady(p, flow);
    ctx, g := Prepared(flow).value.0, Prepared(flow).value.1;
    SequenceRefines(ctx, Tree(p), 0, [ENTRY], g);
    h := Lowers(p, ctx, g).value.0;
    SequenceOk(ctx, flow.body, 0, [ENTRY], g);
  }

  /** The walk over the bodies is the lowering of the tree. */
  lemma ReadyWalks(p: Program, flow: Flow, ctx: Context, g: Building)
    requires Ready(p, flow, ctx, g)
    ensures ContextOk(ctx) && Ranked(ctx) && Above(ctx, flow.body, 0) && WalkSequence(ctx, flow.body, 0, [ENTRY], g) == Lowers(p, ctx, g)
  {
    FlowOfReady(p, flow, ctx, g);
    SequenceRefines(ctx, Tree(p), 0, [ENTRY], g);
  }

  // ----- The step nodes -----

  /** Node number `k` after the first ones is the node of step number `k`. */
  ghost predicate StepNodesAt(ctx: Context, steps: seq<Step>, before: seq<GNode>, nodes: seq<GNode>)
    requires ContextOk(ctx)
  {
    |nodes| == |before| + |steps| && before <= nodes &&
    forall k :: 0 <= k < |steps| ==> BuildStepNode(ctx, steps[k]) == Ok(nodes[|before| + k])
  }

  lemma {:induction false} StepNodesBuilt(ctx: Context, steps: seq<Step>, g: Building)
    requires ContextOk(ctx) && AppendStepNodes(ctx, steps, g).Ok?
    ensures var h := AppendStepNodes(ctx, steps, g).value;
            StepNodesAt(ctx, steps, g.nodes, h.nodes) && h == g.(nodes := h.nodes)
    decreases |steps|
  {
    hide BuildStepNode;
    if steps != [] {
      var n := BuildStepNode(ctx, steps[0]).value;
      var g1 := AppendNode(g, n).value;
      var h := AppendStepNodes(ctx, steps, g).value;
      StepNodesBuilt(ctx, steps[1..], g1);
      assert g1.nodes == g.nodes + [n];
      forall k | 0 <= k < |steps|
        ensures BuildStepNode(ctx, steps[k]) == Ok(h.nodes[|g.nodes| + k])
      {
        if k == 0 {
          assert h.nodes[|g.nodes|] == g1.nodes[|g.nodes|];
        } else {
          assert BuildStepNode(ctx, steps[1..][k - 1]) == Ok(h.nodes[|g1.nodes| + (k - 1)]);
        }
      }
    }
  }

  lemma PreparedNodes(p: Program, flow: Flow, ctx: Context, g: Building)
    requires Ready(p, flow, ctx, g)
    ensures StepNodesAt(ctx, flow.steps, StartBuilding(flow).nodes, g.nodes)
    ensures g == StartBuilding(flow).(nodes := g.nodes)
  {
    var ctx' := InferSteps(Load(flow).value, flow.steps).value;
    StepNodesBuilt(ctx', flow.steps, StartBuilding(flow));
  }

  /** The node with the id of a step is the one built for the step. */
  lemma NodeOfStep(p: Program, flow: Flow, graph: Graph, s: Step, n: GNode) returns (ctx: Context)
    requires Pipeline(p) == Ok((flow, graph)) && s in flow.steps && n in graph.nodes && n.id == s.id
    ensures Loaded(flow, ctx) && BuildStepNode(ctx, s) == Ok(n)
    ensures Walkable(flow) && Prepared(flow).Ok? && Prepared(flow).value.0 == ctx
  {
    var g, h;
    ctx, g, h := AcceptedFacts(p, flow, graph);
    PreparedNodes(p, flow, ctx, g);
    hide Pipeline, LowerBlock, BuildStepNode, GraphOk, Holds, Ranked, Above, NoDup;
    BlockGrows(ctx, Tree(p), [ENTRY], g);
    var k :| 0 <= k < |flow.steps| && flow.steps[k] == s;
    var m := g.nodes[1 + k];
    assert BuildStepNode(ctx, flow.steps[k]) == Ok(g.nodes[1 + k]);
    assert h.nodes[1 + k] == m;
    SameNode(h, m, n);
  }

  ghost predicate NodeFor(g: Graph, s: Step) {
    exists m :: m in g.nodes && m.id == s.id &&
      match s
      case CallStep(_, call) => m.LlmNode? && m.func == call.func
      case BranchStep(_, cases, _) =>
        m.IfElseNode? && |m.cases| == |cases| && forall i :: 0 <= i < |cases| ==> m.cases[i].caseId == cases[i].caseId
  }

  lemma {:induction false} FlatCasesAre(arms: NodeArms, i: nat)
    ensures |FlatCases(arms, i)| == ArmCount(arms)
    ensures forall k :: 0 <= k < ArmCount(arms) ==> FlatCases(arms, i)[k].caseId == CaseId(i + k)
    decreases arms
  {
    if arms.CaseN? {
      FlatCasesAre(arms.rest, i + 1);
    }
  }

  lemma {:induction false} StepsPresent(g: Graph, b: Block)
    requires forall s :: s in Steps(b) ==> NodeFor(g, s)
    ensures HasSteps(g, b)
    decreases b
  {
    if b.BCons? {
      NodeStepsPresent(g, b.head);
      StepsPresent(g, b.tail);
    }
  }

  lemma {:induction false} NodeStepsPresent(g: Graph, n: Node)
    requires forall s :: s in NodeSteps(n) ==> NodeFor(g, s)
    ensures HasNodeSteps(g, n)
    decreases n
  {
    match n
    case CallN(id, call) => assert CallStep(id, call) in NodeSteps(n);
    case BranchN(id, arms) =>
      assert FlatBranch(id, arms) in NodeSteps(n);
      FlatCasesAre(arms, 0);
      ArmStepsPresent(g, arms);
    case _ =>
  }

  lemma {:induction false} ArmStepsPresent(g: Graph, arms: NodeArms)
    requires forall s :: s in ArmSteps(arms) ==> NodeFor(g, s)
    ensures HasArmSteps(g, arms)
    decreases arms
  {
    match arms
    case CaseN(_, body, rest) =>
      StepsPresent(g, body);
      ArmStepsPresent(g, rest);
    case ElseN(body) =>
      StepsPresent(g, body);
  }

  lemma GraphHasSteps(p: Program, flow: Flow, ctx: Context, g: Building, h: Building)
    requires Ready(p, flow, ctx, g) && Grew(g, h)
    ensures HasSteps(Graph(h.nodes, h.edges), Tree(p))
    ensures forall s :: s in flow.steps ==> NodeFor(Graph(h.nodes, h.edges), s)
  {
    PreparedNodes(p, flow, ctx, g);
    FlowOfReady(p, flow, ctx, g);
    hide Ready, NodeFor, StepNodesAt, StartBuilding, HasSteps, Tree;
    forall s | s in flow.steps
      ensures NodeFor(Graph(h.nodes, h.edges), s)
    {
      StepHasNode(ctx, flow.steps, StartBuilding(flow).nodes, g.nodes, Graph(h.nodes, h.edges), s);
    }
    StepsPresent(Graph(h.nodes, h.edges), Tree(p));
  }

  lemma StepHasNode(ctx: Context, steps: seq<Step>, before: seq<GNode>, nodes: seq<GNode>, graph: Graph, s: Step)
    requires ContextOk(ctx) && StepNodesAt(ctx, steps, before, nodes) && s in steps && nodes <= graph.nodes
    ensures NodeFor(graph, s)
  {
    hide BuildStepNode, NodeFor;
    var k :| 0 <= k < |steps| && steps[k] == s;
    var m := nodes[|before| + k];
    assert BuildStepNode(ctx, steps[k]) == Ok(nodes[|before| + k]);
    assert graph.nodes[|before| + k] == m;
    BuiltNodeFor(ctx, s, m, graph);
  }

  lemma BuiltNodeFor(ctx: Context, s: Step, m: GNode, graph: Graph)
    requires ContextOk(ctx) && BuildStepNode(ctx, s) == Ok(m) && m in graph.nodes
    ensures NodeFor(graph, s)
  {
  }

  lemma FlowOfReady(p: Program, flow: Flow, ctx: Context, g: Building)
    requires Ready(p, flow, ctx, g)
    ensures ContextOk(ctx) && flow.steps == Steps(Tree(p)) && flow.body == BodyIds(Tree(p)) && flow.terminals == Terminals(Tree(p))
    ensures HasNode(g, START)
  {
    PreparedNodes(p, flow, ctx, g);
    assert g.nodes[0].id == START;
  }

  // ----- Control flow is preserved -----

  /** `end` is the end node made of the very terminal at which the run stops, entered from the place where it stops. */
  ghost predicate EndOf(flow: Flow, ctx: Context, end: GNode, r: TreeRun, at: Pos)
    requires ContextOk(ctx)
  {
    r.stop.Some? && r.stop.value in flow.terminals && at == r.after.at && exists alone :: MadeFrom(ctx, end, r.stop.value, at, alone)
  }

  /**
   For every choice of branch outcomes the graph has a walk that visits the calls and takes the arms of the run of
   the source, in order, and ends at an end node made of the terminal that the run reaches, whose output is that of the
   source. `dest` is the last place before the end node.
   */
  lemma ControlFlowPreserved(p: Program, flow: Flow, graph: Graph, picks: seq<nat>)
    returns (path: seq<Hop>, dest: Pos, end: GNode, ctx: Context)
    requires Pipeline(p) == Ok((flow, graph))
    ensures IsWalk(graph, picks, path, end)
    ensures ForgetHops(path) == Run(p.body, p.terminals, picks).visits
    ensures Loaded(flow, ctx) && EndOf(flow, ctx, end, RunBlock(Tree(p), Initial(picks)), dest)
    ensures Run(p.body, p.terminals, picks).output == Some(RunBlock(Tree(p), Initial(picks)).stop.value.output)
    ensures path == RunBlock(Tree(p), Initial(picks)).path
    ensures Follows(graph, ENTRY, picks, path, dest, RunBlock(Tree(p), Initial(picks)).after.picks)
    ensures forall i :: 0 <= i < |path| && path[i].CallHop? ==> CallStep(path[i].id, path[i].call) in flow.steps
  {
    ctx, end := RunEnds(p, flow, graph, picks);
    var s := Initial(picks);
    path, dest := RunBlock(Tree(p), s).path, RunBlock(Tree(p), s).after.at;
    SemanticsLists(p, flow, graph);
    hide Pipeline, RunBlock, Loaded, MadeFrom, Tree, ContextOk, Follows;
    TreeRunsAsSource(ZERO, p.body, true, p.terminals, s);
    StopIsTerminal(Tree(p), s);
    HopsAreSteps(Tree(p), s);
  }

  lemma SemanticsLists(p: Program, flow: Flow, graph: Graph)
    requires Pipeline(p) == Ok((flow, graph))
    ensures flow.steps == Steps(Tree(p)) && flow.terminals == Terminals(Tree(p))
  {
  }

  /** The run of the tree follows edges of the graph and stops where an edge leads to an end node of its terminal. */
  lemma RunEnds(p: Program, flow: Flow, graph: Graph, picks: seq<nat>) returns (ctx: Context, end: GNode)
    requires Pipeline(p) == Ok((flow, graph))
    ensures Loaded(flow, ctx)
    ensures var r := RunBlock(Tree(p), Initial(picks));
            Follows(graph, ENTRY, picks, r.path, r.after.at, r.after.picks) && r.stop.Some? && end in graph.nodes &&
            (exists alone :: MadeFrom(ctx, end, r.stop.value, r.after.at, alone)) &&
            Edge(r.after.at.node, r.after.at.handle, end.id) in graph.edges
  {
    var g, h;
    ctx, g, h := AcceptedFacts(p, flow, graph);
    var r := RunBlock(Tree(p), Initial(picks));
    FlowOfReady(p, flow, ctx, g);
    ReadyIsLoaded(p, flow, ctx, g);
    hide Ready, Pipeline, HasSteps, Follows, RunBlock, LowerBlock, Loaded, MadeFrom, Missing, GraphOk, Cyclic, NetOf, CountStart, HasEnd, Tree, ContextOk;
    BlockGrows(ctx, Tree(p), [ENTRY], g);
    GraphHasSteps(p, flow, ctx, g, h);
    BlockWalks(ctx, Tree(p), [ENTRY], g, graph, Initial(picks));
    var e, alone :| e in graph.nodes && MadeFrom(ctx, e, r.stop.value, r.after.at, alone) && Edge(r.after.at.node, r.after.at.handle, e.id) in graph.edges;
    end := e;
  }

  lemma ReadyIsLoaded(p: Program, flow: Flow, ctx: Context, g: Building)
    requires Ready(p, flow, ctx, g)
    ensures Loaded(flow, ctx)
  {
  }

  lemma {:induction false} StopIsTerminal(b: Block, s: RunState)
    ensures RunBlock(b, s).stop.Some? ==> RunBlock(b, s).stop.value in Terminals(b)
    decreases b
  {
    if b.BCons? {
      NodeStopIsTerminal(b.head, s);
      if RunNode(b.head, s).stop.None? {
        StopIsTerminal(b.tail, RunNode(b.head, s).after);
      }
    }
  }

  lemma {:induction false} NodeStopIsTerminal(n: Node, s: RunState)
    ensures RunNode(n, s).stop.Some? ==> RunNode(n, s).stop.value in NodeTerminals(n)
    decreases n
  {
    if n.BranchN? {
      ArmStopIsTerminal(n.id, n.arms, 0, Head(s.picks), s.(picks := Tail(s.picks)));
    }
  }

  lemma {:induction false} ArmStopIsTerminal(id: Id, arms: NodeArms, i: nat, pick: nat, s: RunState)
    ensures RunArms(id, arms, i, pick, s).stop.Some? ==> RunArms(id, arms, i, pick, s).stop.value in ArmTerminals(arms)
    decreases arms
  {
    match arms
    case CaseN(_, body, rest) =>
      StopIsTerminal(body, s.(at := Pos(id, CaseId(i))));
      ArmStopIsTerminal(id, rest, i + 1, pick, s);
    case ElseN(body) =>
      StopIsTerminal(body, s.(at := Pos(id, FALSE)));
  }

  ghost predicate HopsIn(path: seq<Hop>, steps: seq<Step>) {
    forall i :: 0 <= i < |path| && path[i].CallHop? ==> CallStep(path[i].id, path[i].call) in steps
  }

  lemma {:induction false} HopsAreSteps(b: Block, s: RunState)
    ensures HopsIn(RunBlock(b, s).path, Steps(b))
    decreases b
  {
    if b.BCons? {
      NodeHopsAreSteps(b.head, s);
      if RunNode(b.head, s).stop.None? {
        HopsAreSteps(b.tail, RunNode(b.head, s).after);
      }
    }
  }

  lemma {:induction false} NodeHopsAreSteps(n: Node, s: RunState)
    ensures HopsIn(RunNode(n, s).path, NodeSteps(n))
    decreases n
  {
    if n.BranchN? {
      ArmHopsAreSteps(n.id, n.arms, 0, Head(s.picks), s.(picks := Tail(s.picks)));
    }
  }

  lemma {:induction false} ArmHopsAreSteps(id: Id, arms: NodeArms, i: nat, pick: nat, s: RunState)
    ensures HopsIn(RunArms(id, arms, i, pick, s).path, ArmSteps(arms))
    decreases arms
  {
    match arms
    case CaseN(_, body, rest) =>
      HopsAreSteps(body, s.(at := Pos(id, CaseId(i))));
      ArmHopsAreSteps(id, rest, i + 1, pick, s);
    case ElseN(body) =>
      HopsAreSteps(body, s.(at := Pos(id, FALSE)));
  }
}
