/**
 The shape of an accepted graph: exactly one edge leaves each handle, so a walk is determined by the branch outcomes;
 and the graph builder's checks after the walk never fail on the output of the first stage.
 */
module Shape {
  import opened Prelude
  import opened Text
  import opened Pseudocode
  import opened FlowSemantics
  import opened WorkflowGraph
  import opened Lowering
  import opened Refinement
  import opened Layout
  import opened GraphSpec
  import opened ControlFlow
  import opened Correctness

  // ----- Handles are distinct -----

  lemma CaseIdInjective(i: nat, j: nat)
    ensures CaseId(i) == CaseId(j) ==> i == j
    ensures CaseId(i) != FALSE
  {
    assert CaseId(i)[0] == 'c' && FALSE[0] == 'f';
    if CaseId(i) == CaseId(j) {
      assert CaseId(i)[5..] == Dec(i + 1) && CaseId(j)[5..] == Dec(j + 1);
      DecInjective(i + 1, j + 1);
    }
  }

  ghost predicate NodesIn(m: multiset<Pos>, ids: seq<Id>) {
    forall p :: p in m ==> p.node in ids
  }

  lemma SimpleSum(a: multiset<Pos>, b: multiset<Pos>, x: seq<Id>, y: seq<Id>)
    requires Simple(a) && Simple(b) && NodesIn(a, x) && NodesIn(b, y) && forall id :: id in x ==> id !in y
    ensures Simple(a + b) && NodesIn(a + b, x + y)
  {
    forall p
      ensures (a + b)[p] <= 1
    {
      assert p in a ==> p.node in x;
      assert p in b ==> p.node in y;
    }
  }

  lemma {:induction false} HandlesSimple(b: Block)
    requires NoDup(AllIds(b))
    ensures Simple(Handles(b)) && NodesIn(Handles(b), AllIds(b))
    decreases b
  {
    if b.BCons? {
      NoDupParts(NodeIds(b.head), AllIds(b.tail));
      NodeHandlesSimple(b.head);
      HandlesSimple(b.tail);
      SimpleSum(NodeHandles(b.head), Handles(b.tail), NodeIds(b.head), AllIds(b.tail));
    }
  }

  lemma {:induction false} NodeHandlesSimple(n: Node)
    requires NoDup(NodeIds(n))
    ensures Simple(NodeHandles(n)) && NodesIn(NodeHandles(n), NodeIds(n))
    decreases n
  {
    if n.BranchN? {
      NoDupParts([n.id], ArmIds(n.arms));
      ArmHandlesSplit(n.id, n.arms, 0);
      EntriesSimple(n.id, n.arms, 0);
      InnerSimple(n.arms);
      SimpleSum(Entries(n.id, n.arms, 0), Inner(n.arms), [n.id], ArmIds(n.arms));
    }
  }

  /** The handles of a branch itself, from case `i` on. */
  ghost function Entries(id: Id, arms: NodeArms, i: nat): multiset<Pos>
    decreases arms
  {
    match arms
    case CaseN(_, _, rest) => multiset{Pos(id, CaseId(i))} + Entries(id, rest, i + 1)
    case ElseN(_) => multiset{Pos(id, FALSE)}
  }

  /** The handles of the steps in the arms. */
  ghost function Inner(arms: NodeArms): multiset<Pos>
    decreases arms
  {
    match arms
    case CaseN(_, body, rest) => Handles(body) + Inner(rest)
    case ElseN(body) => Handles(body)
  }

  lemma {:induction false} ArmHandlesSplit(id: Id, arms: NodeArms, i: nat)
    ensures ArmHandles(id, arms, i) == Entries(id, arms, i) + Inner(arms)
    decreases arms
  {
    if arms.CaseN? {
      ArmHandlesSplit(id, arms.rest, i + 1);
    }
  }

  lemma {:induction false} EntriesSimple(id: Id, arms: NodeArms, i: nat)
    ensures Simple(Entries(id, arms, i)) && NodesIn(Entries(id, arms, i), [id])
    ensures forall p :: p in Entries(id, arms, i) ==> p.handle == FALSE || exists j :: j >= i && p.handle == CaseId(j)
    decreases arms
  {
    if arms.CaseN? {
      EntriesSimple(id, arms.rest, i + 1);
      var first := Pos(id, CaseId(i));
      assert first !in Entries(id, arms.rest, i + 1) by {
        CaseIdInjective(i, i);
        forall j: nat | j >= i + 1
          ensures CaseId(j) != CaseId(i)
        {
          CaseIdInjective(i, j);
        }
      }
    }
  }

  lemma {:induction false} InnerSimple(arms: NodeArms)
    requires NoDup(ArmIds(arms))
    ensures Simple(Inner(arms)) && NodesIn(Inner(arms), ArmIds(arms))
    decreases arms
  {
    match arms
    case CaseN(_, body, rest) =>
      NoDupParts(AllIds(body), ArmIds(rest));
      HandlesSimple(body);
      InnerSimple(rest);
      SimpleSum(Handles(body), Inner(rest), AllIds(body), ArmIds(rest));
    case ElseN(body) =>
      HandlesSimple(body);
  }

  // ----- The handles of the nodes -----

  /** The handles by which a node may be left: none for an end node. */
  ghost function NodeExits(n: GNode): multiset<Pos> {
    match n
    case StartNode(id, _) => multiset{Pos(id, SOURCE)}
    case LlmNode(id, _, _, _) => multiset{Pos(id, SOURCE)}
    case IfElseNode(id, cases) => CaseExits(id, cases) + multiset{Pos(id, FALSE)}
    case EndNode(_, _, _, _) => multiset{}
  }

  ghost function CaseExits(id: Id, cases: seq<GraphCase>): multiset<Pos> {
    if cases == [] then multiset{} else multiset{Pos(id, cases[0].caseId)} + CaseExits(id, cases[1..])
  }

  ghost function GraphExits(nodes: seq<GNode>): multiset<Pos> {
    if nodes == [] then multiset{} else GraphExits(nodes[..|nodes| - 1]) + NodeExits(nodes[|nodes| - 1])
  }

  ghost function StepExits(s: Step): multiset<Pos> {
    match s
    case CallStep(id, _) => multiset{Pos(id, SOURCE)}
    case BranchStep(id, cases, _) => FlatExits(id, cases) + multiset{Pos(id, FALSE)}
  }

  ghost function FlatExits(id: Id, cases: seq<FlatCase>): multiset<Pos> {
    if cases == [] then multiset{} else multiset{Pos(id, cases[0].caseId)} + FlatExits(id, cases[1..])
  }

  ghost function StepsExits(steps: seq<Step>): multiset<Pos> {
    if steps == [] then multiset{} else StepExits(steps[0]) + StepsExits(steps[1..])
  }

  lemma {:induction false} StepsExitsConcat(a: seq<Step>, b: seq<Step>)
    ensures StepsExits(a + b) == StepsExits(a) + StepsExits(b)
    decreases |a|
  {
    if a == [] {
      assert a + b == b;
    } else {
      assert (a + b)[1..] == a[1..] + b;
      StepsExitsConcat(a[1..], b);
    }
  }

  lemma {:induction false} HandlesAreExits(b: Block)
    ensures Handles(b) == StepsExits(Steps(b))
    decreases b
  {
    if b.BCons? {
      NodeHandlesAreExits(b.head);
      HandlesAreExits(b.tail);
      StepsExitsConcat(NodeSteps(b.head), Steps(b.tail));
    }
  }

  lemma {:induction false} NodeHandlesAreExits(n: Node)
    ensures NodeHandles(n) == StepsExits(NodeSteps(n))
    decreases n
  {
    match n
    case CallN(id, call) =>
      assert StepsExits([CallStep(id, call)]) == StepExits(CallStep(id, call)) + StepsExits([]);
    case BranchN(id, arms) =>
      ArmHandlesSplit(id, arms, 0);
      EntriesAreExits(id, arms, 0);
      InnerAreExits(arms);
      StepsExitsConcat([FlatBranch(id, arms)], ArmSteps(arms));
      assert StepsExits([FlatBranch(id, arms)]) == StepExits(FlatBranch(id, arms)) + StepsExits([]);
    case _ =>
  }

  lemma {:induction false} EntriesAreExits(id: Id, arms: NodeArms, i: nat)
    ensures Entries(id, arms, i) == FlatExits(id, FlatCases(arms, i)) + multiset{Pos(id, FALSE)}
    decreases arms
  {
    if arms.CaseN? {
      EntriesAreExits(id, arms.rest, i + 1);
      assert FlatCases(arms, i)[1..] == FlatCases(arms.rest, i + 1);
    }
  }

  lemma {:induction false} InnerAreExits(arms: NodeArms)
    ensures Inner(arms) == StepsExits(ArmSteps(arms))
    decreases arms
  {
    match arms
    case CaseN(_, body, rest) =>
      HandlesAreExits(body);
      InnerAreExits(rest);
      StepsExitsConcat(Steps(body), ArmSteps(rest));
    case ElseN(body) =>
      HandlesAreExits(body);
  }

  lemma {:induction false} CaseExitsAre(id: Id, cases: seq<GraphCase>, flat: seq<FlatCase>)
    requires |cases| == |flat| && forall i :: 0 <= i < |flat| ==> cases[i].caseId == flat[i].caseId
    ensures CaseExits(id, cases) == FlatExits(id, flat)
    decreases |cases|
  {
    if cases != [] {
      CaseExitsAre(id, cases[1..], flat[1..]);
    }
  }

  lemma StepNodeExits(ctx: Context, s: Step)
    requires ContextOk(ctx) && BuildStepNode(ctx, s).Ok?
    ensures NodeExits(BuildStepNode(ctx, s).value) == StepExits(s)
  {
    if s.BranchStep? {
      CaseExitsAre(s.id, BuildCases(ctx, s.id, s.cases).value, s.cases);
    }
  }

  lemma {:induction false} StepNodesExits(ctx: Context, steps: seq<Step>, before: seq<GNode>, nodes: seq<GNode>)
    requires ContextOk(ctx) && StepNodesAt(ctx, steps, before, nodes)
    ensures GraphExits(nodes) == GraphExits(before) + StepsExits(steps)
    decreases |steps|
  {
    hide NodeExits, StepExits, BuildStepNode;
    if steps == [] {
      assert nodes == before;
    } else {
      var k := |steps| - 1;
      var last, fewer := steps[k], nodes[..|nodes| - 1];
      assert BuildStepNode(ctx, last) == Ok(nodes[|before| + k]);
      forall j | 0 <= j < |steps[..k]|
        ensures BuildStepNode(ctx, steps[..k][j]) == Ok(fewer[|before| + j])
      {
        assert BuildStepNode(ctx, steps[j]) == Ok(nodes[|before| + j]);
      }
      StepNodesExits(ctx, steps[..k], before, fewer);
      StepNodeExits(ctx, last);
      assert steps == steps[..k] + [last] && nodes == fewer + [nodes[|before| + k]];
      StepsExitsConcat(steps[..k], [last]);
      ExitsSnoc(fewer, nodes[|before| + k]);
      assert StepsExits([last]) == StepExits(last) + StepsExits([]);
    }
  }

  lemma ExitsSnoc(nodes: seq<GNode>, n: GNode)
    ensures GraphExits(nodes + [n]) == GraphExits(nodes) + NodeExits(n)
  {
    assert (nodes + [n])[..|nodes|] == nodes;
  }

  // ----- Lowering adds only end nodes -----

  /** The node is an end node made from one of these terminals. */
  ghost predicate EndFor(ctx: Context, ts: seq<Terminal>, n: GNode)
    requires ContextOk(ctx)
  {
    n.EndNode? && exists t, at, alone :: t in ts && MadeFrom(ctx, n, t, at, alone)
  }

  ghost predicate OnlyEnds(ctx: Context, ts: seq<Terminal>, g: Building, h: Building)
    requires ContextOk(ctx)
  {
    g.nodes <= h.nodes && forall i :: |g.nodes| <= i < |h.nodes| ==> EndFor(ctx, ts, h.nodes[i])
  }

  lemma OnlyEndsConcat(ctx: Context, a: seq<Terminal>, b: seq<Terminal>, g: Building, h: Building, k: Building)
    requires ContextOk(ctx) && OnlyEnds(ctx, a, g, h) && OnlyEnds(ctx, b, h, k)
    ensures OnlyEnds(ctx, a + b, g, k)
  {
    forall i | |g.nodes| <= i < |k.nodes|
      ensures EndFor(ctx, a + b, k.nodes[i])
    {
      if i < |h.nodes| {
        assert EndFor(ctx, a, h.nodes[i]) && k.nodes[i] == h.nodes[i];
        MoreTerminals(ctx, a, a + b, h.nodes[i]);
      } else {
        MoreTerminals(ctx, b, a + b, k.nodes[i]);
      }
    }
  }

  lemma MoreTerminals(ctx: Context, a: seq<Terminal>, b: seq<Terminal>, n: GNode)
    requires ContextOk(ctx) && EndFor(ctx, a, n) && forall t :: t in a ==> t in b
    ensures EndFor(ctx, b, n)
  {
  }

  lemma {:induction false} EndsAddEnds(ctx: Context, t: Terminal, incoming: seq<Pos>, alone: bool, g: Building)
    requires ContextOk(ctx) && AppendEnds(ctx, t, incoming, alone, g).Ok?
    ensures OnlyEnds(ctx, [t], g, AppendEnds(ctx, t, incoming, alone, g).value)
    decreases |incoming|
  {
    if incoming != [] {
      var h := AppendEnd(ctx, t, incoming[0], alone, g).value;
      AppendEndGrows(ctx, t, incoming[0], alone, g);
      EndsAddEnds(ctx, t, incoming[1..], alone, h);
      assert t in [t];
      assert EndFor(ctx, [t], h.nodes[|g.nodes|]);
    }
  }

  lemma {:induction false} BlockAddsEnds(ctx: Context, b: Block, incoming: seq<Pos>, g: Building)
    requires ContextOk(ctx) && LowerBlock(ctx, b, incoming, g).Ok?
    ensures OnlyEnds(ctx, Terminals(b), g, LowerBlock(ctx, b, incoming, g).value.0)
    decreases b
  {
    hide EndFor, OnlyEnds;
    if b.BCons? {
      NodeAddsEnds(ctx, b.head, incoming, g);
      var r := LowerNode(ctx, b.head, incoming, g).value;
      BlockAddsEnds(ctx, b.tail, r.1, r.0);
      OnlyEndsConcat(ctx, NodeTerminals(b.head), Terminals(b.tail), g, r.0, LowerBlock(ctx, b, incoming, g).value.0);
    } else {
      NoEnds(ctx, g, g);
    }
  }

  lemma NoEnds(ctx: Context, g: Building, h: Building)
    requires ContextOk(ctx) && g.nodes == h.nodes
    ensures OnlyEnds(ctx, [], g, h)
  {
  }

  lemma {:induction false} NodeAddsEnds(ctx: Context, n: Node, incoming: seq<Pos>, g: Building)
    requires ContextOk(ctx) && LowerNode(ctx, n, incoming, g).Ok?
    ensures OnlyEnds(ctx, NodeTerminals(n), g, LowerNode(ctx, n, incoming, g).value.0)
    decreases n
  {
    hide EndFor, OnlyEnds;
    match n
    case BindN(_, _, _) => NoEnds(ctx, g, g);
    case TermN(id, output, step, _) => EndsAddEnds(ctx, Terminal(id, output, step), incoming, |incoming| == 1, g);
    case CallN(id, _) =>
      EdgesGrow(g.(visited := g.visited + {id}), incoming, id);
      NoEnds(ctx, g, LowerNode(ctx, n, incoming, g).value.0);
    case BranchN(id, arms) =>
      var h := AppendEdges(g.(visited := g.visited + {id}), incoming, id).value;
      EdgesGrow(g.(visited := g.visited + {id}), incoming, id);
      NoEnds(ctx, g, h);
      ArmsAddEnds(ctx, id, arms, 0, h);
      OnlyEndsConcat(ctx, [], ArmTerminals(arms), g, h, LowerArms(ctx, id, arms, 0, h).value.0);
      assert [] + ArmTerminals(arms) == ArmTerminals(arms);
  }

  lemma {:induction false} ArmsAddEnds(ctx: Context, id: Id, arms: NodeArms, i: nat, g: Building)
    requires ContextOk(ctx) && LowerArms(ctx, id, arms, i, g).Ok?
    ensures OnlyEnds(ctx, ArmTerminals(arms), g, LowerArms(ctx, id, arms, i, g).value.0)
    decreases arms
  {
    hide EndFor, OnlyEnds;
    match arms
    case CaseN(_, body, rest) =>
      var l := LowerBlock(ctx, body, [Pos(id, CaseId(i))], g).value.0;
      BlockAddsEnds(ctx, body, [Pos(id, CaseId(i))], g);
      ArmsAddEnds(ctx, id, rest, i + 1, l);
      OnlyEndsConcat(ctx, Terminals(body), ArmTerminals(rest), g, l, LowerArms(ctx, id, rest, i + 1, l).value.0);
    case ElseN(body) => BlockAddsEnds(ctx, body, [Pos(id, FALSE)], g);
  }

  lemma {:induction false} EndsExitNowhere(nodes: seq<GNode>, more: seq<GNode>)
    requires forall i :: 0 <= i < |more| ==> more[i].EndNode?
    ensures GraphExits(nodes + more) == GraphExits(nodes)
    decreases |more|
  {
    if more == [] {
      assert nodes + more == nodes;
    } else {
      var last, fewer := more[|more| - 1], more[..|more| - 1];
      assert nodes + more == (nodes + fewer) + [last];
      EndsExitNowhere(nodes, fewer);
      ExitsSnoc(nodes + fewer, last);
      assert NodeExits(last) == multiset{};
    }
  }

  // ----- Exactly one edge per handle -----

  /**
   In an accepted graph the edges leave exactly the handles of the nodes, each once: one edge from the start node and
   from each call, one per case and one for "false" from each branch, none from an end node.
   */
  lemma OneEdgePerHandle(p: Program, flow: Flow, graph: Graph)
    requires Pipeline(p) == Ok((flow, graph))
    ensures EdgeSources(graph.edges) == GraphExits(graph.nodes) && Simple(EdgeSources(graph.edges))
  {
    hide Ready, GraphExits, EdgeSources, Handles, StepsExits, Simple;
    var ctx, g, h := AcceptedFacts(p, flow, graph);
    EdgesLeaveHandles(p, flow, ctx, g, h);
    NodesHaveHandles(p, flow, ctx, g, h);
  }

  lemma EdgesLeaveHandles(p: Program, flow: Flow, ctx: Context, g: Building, h: Building)
    requires Ready(p, flow, ctx, g) && Lowers(p, ctx, g) == Ok((h, []))
    ensures EdgeSources(h.edges) == multiset([ENTRY]) + Handles(Tree(p)) && Simple(EdgeSources(h.edges))
  {
    hide Holds, Ranked, Handles, AllIds, Tree;
    PreparedNodes(p, flow, ctx, g);
    var tree := Tree(p);
    HandlesSimple(tree);
    assert Simple(multiset([ENTRY])) && NodesIn(multiset([ENTRY]), [START]);
    SimpleSum(multiset([ENTRY]), Handles(tree), [START], AllIds(tree));
    assert EdgeSources(g.edges) == multiset{};
    assert EdgeSources(g.edges) + multiset([ENTRY]) == multiset([ENTRY]);
    BlockConserves(ctx, tree, [ENTRY], g);
    assert EdgeSources(h.edges) + multiset([]) == EdgeSources(h.edges);
  }

  lemma NodesHaveHandles(p: Program, flow: Flow, ctx: Context, g: Building, h: Building)
    requires Ready(p, flow, ctx, g) && Lowers(p, ctx, g) == Ok((h, []))
    ensures GraphExits(h.nodes) == multiset([ENTRY]) + Handles(Tree(p))
  {
    PreparedNodes(p, flow, ctx, g);
    FlowOfReady(p, flow, ctx, g);
    hide Ready, Handles, Tree, StepNodesAt, OnlyEnds, StepsExits, GraphExits;
    BlockAddsEnds(ctx, Tree(p), [ENTRY], g);
    StepNodesExits(ctx, flow.steps, StartBuilding(flow).nodes, g.nodes);
    HandlesAreExits(Tree(p));
    StartExits(flow);
    EndsAfter(ctx, Terminals(Tree(p)), g, h);
  }

  lemma StartExits(flow: Flow)
    ensures GraphExits(StartBuilding(flow).nodes) == multiset([ENTRY])
  {
    var start := StartBuilding(flow).nodes;
    assert start == [] + [start[0]];
    ExitsSnoc([], start[0]);
  }

  lemma EndsAfter(ctx: Context, ts: seq<Terminal>, g: Building, h: Building)
    requires ContextOk(ctx) && OnlyEnds(ctx, ts, g, h)
    ensures GraphExits(h.nodes) == GraphExits(g.nodes)
  {
    var more := h.nodes[|g.nodes|..];
    assert h.nodes == g.nodes + more;
    forall i | 0 <= i < |more|
      ensures more[i].EndNode?
    {
      assert EndFor(ctx, ts, h.nodes[|g.nodes| + i]);
    }
    EndsExitNowhere(g.nodes, more);
  }

  // ----- A walk is determined by the branch outcomes -----

  ghost predicate Functional(g: Graph) {
    (forall e, f :: e in g.edges && f in g.edges && From(e) == From(f) ==> e == f) &&
    (forall m, n :: m in g.nodes && n in g.nodes && m.id == n.id ==> m == n)
  }

  lemma {:induction false} SourcesOnce(es: seq<Edge>)
    requires Simple(EdgeSources(es))
    ensures forall e, f :: e in es && f in es && From(e) == From(f) ==> e == f
    decreases |es|
  {
    if es != [] {
      var last, fewer := es[|es| - 1], es[..|es| - 1];
      SimpleParts(EdgeSources(fewer), multiset{From(last)});
      SourcesOnce(fewer);
      assert EdgeSources(es)[From(last)] <= 1;
      forall e | e in fewer
        ensures From(e) != From(last)
      {
        EdgeCounted(fewer, e);
      }
      assert es == fewer + [last];
    }
  }

  lemma AcceptedIsFunctional(p: Program, flow: Flow, graph: Graph)
    requires Pipeline(p) == Ok((flow, graph))
    ensures Functional(graph)
  {
    var ctx, g, h := AcceptedFacts(p, flow, graph);
    OneEdgePerHandle(p, flow, graph);
    SourcesOnce(graph.edges);
    hide *;
    forall m, n | m in h.nodes && n in h.nodes && m.id == n.id
      ensures m == n
    {
      SameNode(h, m, n);
    }
    FunctionalFrom(graph, h);
  }

  lemma FunctionalFrom(g: Graph, h: Building)
    requires g.nodes == h.nodes && forall m, n :: m in h.nodes && n in h.nodes && m.id == n.id ==> m == n
    requires forall e, f :: e in g.edges && f in g.edges && From(e) == From(f) ==> e == f
    ensures Functional(g)
  {
  }

  /** Where a walk ends: the visited nodes (without what they carry) and the end node. */
  ghost function Visited(path: seq<Hop>): seq<Pos> {
    seq(|path|, i requires 0 <= i < |path| => Leaving(path[i]))
  }

  lemma {:induction false} WalkUnique(
    g: Graph, from: Pos, picks: seq<nat>, p: seq<Hop>, d: Pos, l: seq<nat>, end: GNode,
    p': seq<Hop>, d': Pos, l': seq<nat>, end': GNode)
    requires Functional(g)
    requires Follows(g, from, picks, p, d, l) && end in g.nodes && end.EndNode? && Edge(d.node, d.handle, end.id) in g.edges
    requires Follows(g, from, picks, p', d', l') && end' in g.nodes && end'.EndNode? && Edge(d'.node, d'.handle, end'.id) in g.edges
    ensures Visited(p) == Visited(p') && end == end'
    decreases |p|
  {
    if p == [] && p' == [] {
    } else if p == [] {
      NextIsStep(g, from, picks, p', d', l', end);
    } else if p' == [] {
      NextIsStep(g, from, picks, p, d, l, end');
    } else {
      SameHop(g, from, picks, p[0], p'[0]);
      hide Functional, HopAt;
      WalkUnique(g, Leaving(p[0]), Picked(p[0], picks), p[1..], d, l, end, p'[1..], d', l', end');
      assert Visited(p) == [Leaving(p[0])] + Visited(p[1..]);
      assert Visited(p') == [Leaving(p'[0])] + Visited(p'[1..]);
    }
  }

  /** The edge taken and the node visited next are determined. */
  lemma SameHop(g: Graph, from: Pos, picks: seq<nat>, hop: Hop, hop': Hop)
    requires Functional(g) && Edge(from.node, from.handle, hop.id) in g.edges && Edge(from.node, from.handle, hop'.id) in g.edges
    requires exists n :: n in g.nodes && HopAt(n, hop, Head(picks))
    requires exists n :: n in g.nodes && HopAt(n, hop', Head(picks))
    ensures Leaving(hop) == Leaving(hop') && Picked(hop, picks) == Picked(hop', picks)
  {
    assert From(Edge(from.node, from.handle, hop.id)) == From(Edge(from.node, from.handle, hop'.id));
    var n :| n in g.nodes && HopAt(n, hop, Head(picks));
    var n' :| n' in g.nodes && HopAt(n', hop', Head(picks));
    assert n == n';
  }

  /** A walk that goes on from a place is not at the edge to an end node. */
  lemma NextIsStep(g: Graph, from: Pos, picks: seq<nat>, p: seq<Hop>, d: Pos, l: seq<nat>, end: GNode)
    requires Functional(g) && p != [] && Follows(g, from, picks, p, d, l)
    requires end in g.nodes && end.EndNode?
    ensures Edge(from.node, from.handle, end.id) !in g.edges
  {
    var n :| n in g.nodes && HopAt(n, p[0], Head(picks));
    var e, f := Edge(from.node, from.handle, end.id), Edge(from.node, from.handle, p[0].id);
    assert f in g.edges && From(e) == From(f);
    assert n != end && n.id != end.id;
    assert e != f;
  }

  /** Every complete walk is the run of the source under the same branch outcomes: same nodes, same end node. */
  lemma EveryWalkIsTheRun(p: Program, flow: Flow, graph: Graph, picks: seq<nat>, path: seq<Hop>, end: GNode)
    returns (run: seq<Hop>, dest: Pos, ctx: Context)
    requires Pipeline(p) == Ok((flow, graph)) && IsWalk(graph, picks, path, end)
    ensures ForgetHops(run) == Run(p.body, p.terminals, picks).visits && Visited(path) == Visited(run)
    ensures run == RunBlock(Tree(p), Initial(picks)).path
    ensures Loaded(flow, ctx) && EndOf(flow, ctx, end, RunBlock(Tree(p), Initial(picks)), dest)
    ensures Run(p.body, p.terminals, picks).output == Some(RunBlock(Tree(p), Initial(picks)).stop.value.output)
  {
    var end';
    run, dest, end', ctx := ControlFlowPreserved(p, flow, graph, picks);
    AcceptedIsFunctional(p, flow, graph);
    var d, l :| Follows(graph, ENTRY, picks, path, d, l) && Edge(d.node, d.handle, end.id) in graph.edges;
    var d', l' :| Follows(graph, ENTRY, picks, run, d', l') && Edge(d'.node, d'.handle, end'.id) in graph.edges;
    WalkUnique(graph, ENTRY, picks, path, d, l, end, run, d', l', end');
  }

  // ----- Progress -----

  lemma {:induction false} EdgeSourcesHave(es: seq<Edge>, at: Pos)
    ensures at in EdgeSources(es) <==> exists e :: e in es && From(e) == at
    decreases |es|
  {
    if es != [] {
      var fewer, last := es[..|es| - 1], es[|es| - 1];
      EdgeSourcesHave(fewer, at);
      assert es == fewer + [last];
    }
  }

  lemma {:induction false} GraphExitsHave(nodes: seq<GNode>, at: Pos)
    ensures at in GraphExits(nodes) <==> exists n :: n in nodes && at in NodeExits(n)
    decreases |nodes|
  {
    hide NodeExits;
    if nodes != [] {
      var fewer, last := nodes[..|nodes| - 1], nodes[|nodes| - 1];
      GraphExitsHave(fewer, at);
      assert nodes == fewer + [last];
    }
  }

  lemma {:induction false} CaseExitsHave(id: Id, cases: seq<GraphCase>, at: Pos)
    ensures at in CaseExits(id, cases) <==> at.node == id && exists i :: 0 <= i < |cases| && cases[i].caseId == at.handle
    decreases |cases|
  {
    if cases != [] {
      CaseExitsHave(id, cases[1..], at);
      assert cases == [cases[0]] + cases[1..];
    }
  }

  lemma NodeExitsHere(n: GNode, at: Pos)
    ensures at in NodeExits(n) ==> at.node == n.id
  {
    if n.IfElseNode? {
      CaseExitsHave(n.id, n.cases, at);
    }
  }

  /** Where a walk stands, some edge leads on. */
  lemma WalkContinues(p: Program, flow: Flow, graph: Graph, picks: seq<nat>, path: seq<Hop>, dest: Pos, left: seq<nat>)
    requires Pipeline(p) == Ok((flow, graph)) && Follows(graph, ENTRY, picks, path, dest, left)
    ensures exists e :: e in graph.edges && From(e) == dest
  {
    OneEdgePerHandle(p, flow, graph);
    StartInGraph(p, flow, graph);
    hide Pipeline, Simple, GraphExits, EdgeSources;
    DestIsExit(graph, ENTRY, picks, path, dest, left);
    EdgeSourcesHave(graph.edges, dest);
    GraphExitsHave(graph.nodes, dest);
  }

  lemma StartInGraph(p: Program, flow: Flow, graph: Graph)
    requires Pipeline(p) == Ok((flow, graph))
    ensures exists n :: n in graph.nodes && n.StartNode? && n.id == START
  {
    var ctx, g, h := AcceptedFacts(p, flow, graph);
    PreparedNodes(p, flow, ctx, g);
    hide Ready, Pipeline, LowerBlock;
    BlockGrows(ctx, Tree(p), [ENTRY], g);
    assert h.nodes[0] == g.nodes[0] == StartBuilding(flow).nodes[0];
    assert h.nodes[0] in graph.nodes;
  }

  lemma {:induction false} DestIsExit(g: Graph, from: Pos, picks: seq<nat>, path: seq<Hop>, dest: Pos, left: seq<nat>)
    requires Follows(g, from, picks, path, dest, left)
    requires exists n :: n in g.nodes && from in NodeExits(n)
    ensures exists n :: n in g.nodes && dest in NodeExits(n)
    decreases |path|
  {
    if path != [] {
      var n :| n in g.nodes && HopAt(n, path[0], Head(picks));
      LeavesByExit(n, path[0], Head(picks));
      DestIsExit(g, Leaving(path[0]), Picked(path[0], picks), path[1..], dest, left);
    }
  }

  lemma LeavesByExit(n: GNode, hop: Hop, pick: nat)
    requires HopAt(n, hop, pick)
    ensures Leaving(hop) in NodeExits(n)
  {
    if n.IfElseNode? {
      CaseExitsHave(n.id, n.cases, Leaving(hop));
    }
  }

  /** A walk visits no node twice, so it is shorter than the list of nodes. */
  lemma WalksAreShort(p: Program, flow: Flow, graph: Graph, picks: seq<nat>, path: seq<Hop>, dest: Pos, left: seq<nat>)
    requires Pipeline(p) == Ok((flow, graph)) && Follows(graph, ENTRY, picks, path, dest, left)
    ensures NoDup([START] + HopIds(path)) && |path| < |graph.nodes|
  {
    var ctx, g, h := AcceptedFacts(p, flow, graph);
    StartInGraph(p, flow, graph);
    NodeIdsKnown(graph.nodes);
    var net := NetOf(graph.nodes, graph.edges);
    hide *;
    WalkIsPath(graph, ENTRY, picks, path, dest, left);
    AcyclicPathShort(net, [START] + HopIds(path));
  }

  function HopIds(path: seq<Hop>): (r: seq<Id>)
    ensures |r| == |path|
  {
    seq(|path|, i requires 0 <= i < |path| => path[i].id)
  }

  lemma NodeIdsKnown(nodes: seq<GNode>)
    ensures forall n :: n in nodes ==> n.id in NodeIdsOf(nodes)
  {
    forall n | n in nodes
      ensures n.id in NodeIdsOf(nodes)
    {
      var i :| 0 <= i < |nodes| && nodes[i] == n;
      assert NodeIdsOf(nodes)[i] == n.id;
    }
  }

  lemma {:induction false} WalkIsPath(g: Graph, from: Pos, picks: seq<nat>, path: seq<Hop>, dest: Pos, left: seq<nat>)
    requires Follows(g, from, picks, path, dest, left) && from.node in NodeIdsOf(g.nodes)
    requires forall n :: n in g.nodes ==> n.id in NodeIdsOf(g.nodes)
    ensures IsPath(NetOf(g.nodes, g.edges), [from.node] + HopIds(path))
    decreases |path|
  {
    var net := NetOf(g.nodes, g.edges);
    if path == [] {
      assert [from.node] + HopIds(path) == [from.node];
    } else {
      var rest := [path[0].id] + HopIds(path[1..]);
      assert HopIds(path) == rest;
      WalkIsPath(g, Leaving(path[0]), Picked(path[0], picks), path[1..], dest, left);
      EdgeInNet(g, Edge(from.node, from.handle, path[0].id));
      hide Follows, NetOf, NodeIdsOf;
      PathCons(net, from.node, rest);
    }
  }

  lemma EdgeInNet(g: Graph, e: Edge)
    requires e in g.edges
    ensures (e.source, e.target) in NetOf(g.nodes, g.edges).edges
  {
    var k :| 0 <= k < |g.edges| && g.edges[k] == e;
    assert EdgePairs(g.edges)[k] == (e.source, e.target);
  }

  lemma PathCons(net: Net, n: Id, p: seq<Id>)
    requires IsPath(net, p) && n in net.nodes && (n, p[0]) in net.edges
    ensures IsPath(net, [n] + p)
  {
    var q := [n] + p;
    forall i | 0 < i < |q|
      ensures StepOk(net, q, i)
    {
      if i > 1 {
        assert StepOk(net, p, i - 1);
      }
    }
  }
}
