/**
 The checks that the graph builder makes after its walk (nothing pending, every step visited, no directed cycle, one
 start node, some end node) cannot fail on the output of the first stage.
 */
module Redundancy {
  import opened Prelude
  import opened Text
  import opened Pseudocode
  import opened FlowSemantics
  import opened Elaboration
  import opened WorkflowGraph
  import opened Lowering
  import opened Refinement
  import opened Layout
  import opened GraphSpec
  import opened ControlFlow
  import opened Correctness
  import opened Warnings
  import opened Shape

  // ----- The grammar: the body of an if or elif is not empty -----

  predicate Grammatical(p: Stmts)
    decreases p
  {
    match p
    case SNil => true
    case SCons(s, rest) => (s.IfStmt? ==> GrammaticalArms(s.arms)) && Grammatical(rest)
  }

  predicate GrammaticalArms(arms: Arms)
    decreases arms
  {
    match arms
    case Case(_, body, rest) => body.SCons? && Grammatical(body) && GrammaticalArms(rest)
    case Else(body) => Grammatical(body)
  }

  // ----- The tail of a program ends in terminals -----

  /** As `Closed`, but an else body may be missing. */
  predicate Spine(b: Block)
    decreases b
  {
    b.BCons? && if b.tail.BNil? then b.head.TermN? || (b.head.BranchN? && SpineArms(b.head.arms)) else Spine(b.tail)
  }

  predicate SpineArms(arms: NodeArms)
    decreases arms
  {
    match arms
    case CaseN(_, body, rest) => Spine(body) && SpineArms(rest)
    case ElseN(body) => body.BNil? || Spine(body)
  }

  lemma {:induction false} SpineAppend(a: Block, b: Block)
    requires Spine(b)
    ensures Spine(Append(a, b))
    decreases a
  {
    if a.BCons? {
      SpineAppend(a.tail, b);
      assert Append(a.tail, b).BCons?;
    }
  }

  lemma {:induction false} ElabSpine(c: Counters, p: Stmts, terminals: set<string>)
    requires p.SCons? && Grammatical(p)
    ensures Spine(Elab(c, p, true, terminals).1)
    decreases p
  {
    var last := p.tail.SNil?;
    var piece := ElabStmt(c, p.head, last, terminals);
    if piece.ends {
      assert piece.block.head.TermN? && piece.block.tail.BNil?;
    } else if last {
      PieceSpine(c, p.head, terminals);
      AppendNil(piece.block);
    } else {
      ElabSpine(piece.next, p.tail, terminals);
      SpineAppend(piece.block, Elab(piece.next, p.tail, true, terminals).1);
    }
  }

  lemma {:induction false} PieceSpine(c: Counters, s: Stmt, terminals: set<string>)
    requires s.IfStmt? ==> GrammaticalArms(s.arms)
    ensures Spine(ElabStmt(c, s, true, terminals).block)
    decreases s
  {
    var b := ElabStmt(c, s, true, terminals).block;
    match s
    case IfStmt(arms) => ArmsSpine(CountBranch(c), arms, terminals);
    case _ =>
  }

  lemma {:induction false} ArmsSpine(c: Counters, arms: Arms, terminals: set<string>)
    requires GrammaticalArms(arms)
    ensures SpineArms(ElabArms(c, arms, true, terminals).1)
    decreases arms
  {
    match arms
    case Case(_, body, rest) =>
      ElabSpine(c, body, terminals);
      ArmsSpine(Elab(c, body, true, terminals).0, rest, terminals);
    case Else(body) =>
      if body.SCons? {
        ElabSpine(c, body, terminals);
      }
  }

  lemma {:induction false} SpineCloses(b: Block)
    requires Spine(b)
    ensures Closed(b) <==> !OpenTail(b)
    decreases b
  {
    if b.tail.BCons? {
      SpineCloses(b.tail);
    } else if b.head.BranchN? {
      SpineArmsClose(b.head.arms);
    }
  }

  lemma {:induction false} SpineArmsClose(arms: NodeArms)
    requires SpineArms(arms)
    ensures ClosedArms(arms) <==> !OpenArms(arms)
    decreases arms
  {
    match arms
    case CaseN(_, body, rest) =>
      SpineCloses(body);
      SpineArmsClose(rest);
    case ElseN(body) =>
      if body.BCons? {
        SpineCloses(body);
      }
  }

  /** "No else at the tail" is given exactly when some static path through the program ends without a terminal. */
  lemma TailWarningExactly(p: Program, flow: Flow)
    requires Semantics(p) == Ok(flow) && NoElseAtTail !in p.parsed && Grammatical(p.body)
    ensures NoElseAtTail in flow.warnings <==> exists r :: !Finishes(Tree(p), r)
    ensures NoElseAtTail !in flow.warnings ==> Closed(Tree(p))
  {
    ElabSpine(ZERO, p.body, p.terminals);
    SpineCloses(Tree(p));
    ClosedExactly(Tree(p));
    WarningsExactly(p, flow);
  }

  lemma TreeCloses(p: Program, flow: Flow)
    requires Semantics(p) == Ok(flow) && flow.warnings == [] && Grammatical(p.body)
    ensures Closed(Tree(p))
  {
    ElabSpine(ZERO, p.body, p.terminals);
    SpineCloses(Tree(p));
    WarningsExactly(p, flow);
  }

  // ----- No cycle -----

  lemma {:induction false} RankedPath(net: Net, rank: map<Id, nat>, p: seq<Id>)
    requires IsPath(net, p) && forall i :: 0 <= i < |p| ==> p[i] in rank
    requires forall e :: e in net.edges && e.0 in rank && e.1 in rank ==> rank[e.0] < rank[e.1]
    ensures rank[p[0]] + |p| - 1 <= rank[p[|p| - 1]]
    decreases |p|
  {
    if |p| > 1 {
      var q := p[..|p| - 1];
      forall i | 0 < i < |q|
        ensures StepOk(net, q, i)
      {
        assert StepOk(net, p, i);
      }
      RankedPath(net, rank, q);
      assert StepOk(net, p, |p| - 1);
    }
  }

  lemma RankedIsAcyclic(net: Net, rank: map<Id, nat>)
    requires forall e :: e in net.edges ==> e.0 in rank && (e.1 in rank ==> rank[e.0] < rank[e.1])
    ensures !Cyclic(net)
  {
    forall p | IsPath(net, p) && |p| >= 2
      ensures p[0] != p[|p| - 1]
    {
      if p[0] == p[|p| - 1] {
        forall i | 0 <= i < |p|
          ensures p[i] in rank
        {
          assert StepOk(net, p, if i < |p| - 1 then i + 1 else 1);
        }
        RankedPath(net, rank, p);
      }
    }
  }

  function RankMap(steps: seq<Step>, index: map<Id, nat>): map<Id, nat> {
    (map id | id in index :: index[id] + 1)[START := 0]
  }

  /** The graph before the walk: the start node, then the nodes of the steps in order, and no edge. */
  ghost predicate Laid(ctx: Context, steps: seq<Step>, g: Building) {
    |g.nodes| == 1 + |steps| && g.nodes[0].id == START && g.edges == [] &&
    (forall id :: id in ctx.index ==> ctx.index[id] < |steps| && steps[ctx.index[id]].id == id) &&
    forall k :: 0 <= k < |steps| ==> LaidAt(ctx, steps, g, k)
  }

  ghost predicate LaidAt(ctx: Context, steps: seq<Step>, g: Building, k: nat)
    requires k < |steps| && |g.nodes| == 1 + |steps|
  {
    g.nodes[1 + k].id == steps[k].id && steps[k].id != START && steps[k].id in ctx.index && ctx.index[steps[k].id] == k
  }

  lemma ReadyIsLaid(p: Program, flow: Flow, ctx: Context, g: Building)
    requires Ready(p, flow, ctx, g)
    ensures Laid(ctx, Steps(Tree(p)), g)
  {
    hide Holds, Ranked, Steps, AllIds, BuildStepNode, Built, Walkable, Prepared, Semantics;
    PreparedNodes(p, flow, ctx, g);
    FlowOfReady(p, flow, ctx, g);
    forall k | 0 <= k < |flow.steps|
      ensures LaidAt(ctx, flow.steps, g, k)
    {
      StepIsNotStart(p, flow, k);
      assert BuildStepNode(ctx, flow.steps[k]) == Ok(g.nodes[1 + k]);
    }
  }

  lemma RanksFit(ctx: Context, steps: seq<Step>, g: Building, rank: map<Id, nat>)
    requires Laid(ctx, steps, g) && rank == RankMap(steps, ctx.index)
    ensures Upward(rank, g) && RanksFrom(rank, steps, 1) && BelowRank(rank, [ENTRY], 1)
  {
    forall id | id in rank
      ensures HasNode(g, id)
    {
      if id != START {
        assert LaidAt(ctx, steps, g, ctx.index[id]);
        assert g.nodes[1 + ctx.index[id]].id == id;
      }
    }
    forall i | 0 <= i < |steps|
      ensures steps[i].id in rank && rank[steps[i].id] == 1 + i
    {
      assert LaidAt(ctx, steps, g, i);
    }
  }

  lemma UpwardIsAcyclic(h: Building, rank: map<Id, nat>)
    requires Upward(rank, h)
    ensures !Cyclic(NetOf(h.nodes, h.edges))
  {
    var net := NetOf(h.nodes, h.edges);
    forall e | e in net.edges
      ensures e.0 in rank && (e.1 in rank ==> rank[e.0] < rank[e.1])
    {
      var k :| 0 <= k < |net.edges| && net.edges[k] == e;
      assert h.edges[k] in h.edges;
    }
    RankedIsAcyclic(net, rank);
  }

  lemma LoweredIsAcyclic(p: Program, flow: Flow, ctx: Context, g: Building, h: Building, exits: seq<Pos>)
    requires Ready(p, flow, ctx, g) && Lowers(p, ctx, g) == Ok((h, exits))
    ensures !Cyclic(NetOf(h.nodes, h.edges))
  {
    ReadyIsLaid(p, flow, ctx, g);
    var rank := RankMap(Steps(Tree(p)), ctx.index);
    hide Laid, Upward, RanksFrom, BelowRank, Holds, Ranked, Steps, LowerBlock, Loaded;
    RanksFit(ctx, Steps(Tree(p)), g, rank);
    BlockUp(ctx, Tree(p), [ENTRY], g, rank, 1);
    UpwardIsAcyclic(h, rank);
  }

  lemma StepIsNotStart(p: Program, flow: Flow, i: nat)
    requires Semantics(p) == Ok(flow) && i < |flow.steps| && START !in AllIds(Tree(p))
    ensures flow.steps[i].id != START
  {
    Partition.KindsPartition(map[], Tree(p));
    assert Partition.StepIds(flow.steps)[i] == flow.steps[i].id;
    assert flow.steps[i].id in multiset(Partition.StepIds(flow.steps));
    assert flow.steps[i].id in multiset(AllIds(Tree(p)));
  }

  // ----- One start node, some end node -----

  lemma {:induction false} CountsOneStart(nodes: seq<GNode>)
    requires nodes != [] && nodes[0].StartNode? && forall i :: 0 < i < |nodes| ==> !nodes[i].StartNode?
    ensures CountStart(nodes) == 1
    decreases |nodes|
  {
    NoStarts(nodes[1..]);
  }

  lemma {:induction false} NoStarts(nodes: seq<GNode>)
    requires forall i :: 0 <= i < |nodes| ==> !nodes[i].StartNode?
    ensures CountStart(nodes) == 0
    decreases |nodes|
  {
    if nodes != [] {
      NoStarts(nodes[1..]);
    }
  }

  lemma LoweredHasOneStart(p: Program, flow: Flow, ctx: Context, g: Building, h: Building, exits: seq<Pos>)
    requires Ready(p, flow, ctx, g) && Lowers(p, ctx, g) == Ok((h, exits))
    ensures CountStart(h.nodes) == 1
  {
    PreparedNodes(p, flow, ctx, g);
    FlowOfReady(p, flow, ctx, g);
    hide Ready, LowerBlock, OnlyEnds, StepNodesAt, CountStart;
    BlockAddsEnds(ctx, Tree(p), [ENTRY], g);
    StartsFirst(flow, ctx, g, h, Terminals(Tree(p)));
    CountsOneStart(h.nodes);
  }

  lemma StartsFirst(flow: Flow, ctx: Context, g: Building, h: Building, ts: seq<Terminal>)
    requires ContextOk(ctx) && StepNodesAt(ctx, flow.steps, StartBuilding(flow).nodes, g.nodes) && OnlyEnds(ctx, ts, g, h)
    ensures h.nodes != [] && h.nodes[0].StartNode? && forall i :: 0 < i < |h.nodes| ==> !h.nodes[i].StartNode?
  {
    hide EndFor;
    forall i | 0 < i < |h.nodes|
      ensures !h.nodes[i].StartNode?
    {
      if i < |g.nodes| {
        assert BuildStepNode(ctx, flow.steps[i - 1]) == Ok(g.nodes[1 + (i - 1)]);
        assert h.nodes[i] == g.nodes[i];
      } else {
        EndIsEnd(ctx, ts, h.nodes[i]);
      }
    }
    assert h.nodes[0] == g.nodes[0] == StartBuilding(flow).nodes[0];
  }

  lemma EndIsEnd(ctx: Context, ts: seq<Terminal>, n: GNode)
    requires ContextOk(ctx) && EndFor(ctx, ts, n)
    ensures n.EndNode?
  {
  }

  lemma LoweredHasEnd(p: Program, flow: Flow, ctx: Context, g: Building, h: Building)
    requires Ready(p, flow, ctx, g) && Lowers(p, ctx, g) == Ok((h, []))
    ensures HasEnd(h.nodes)
  {
    BlockGrows(ctx, Tree(p), [ENTRY], g);
    GraphHasSteps(p, flow, ctx, g, h);
    var graph := Graph(h.nodes, h.edges);
    BlockWalks(ctx, Tree(p), [ENTRY], g, graph, Initial([]));
    var r := RunBlock(Tree(p), Initial([]));
    assert RunWalks(ctx, graph, Initial([]), r, []);
    var e, alone :| e in h.nodes && MadeFrom(ctx, e, r.stop.value, r.after.at, alone) && Edge(r.after.at.node, r.after.at.handle, e.id) in h.edges;
  }

  // ----- The checks never fail -----

  /**
   For every program that the first stage compiles without a warning: once the graph builder's walk over its bodies
   has succeeded, none of the checks that follow can fail.
   */
  lemma ChecksAreRedundant(p: Program, flow: Flow, ctx: Context, g: Building, h: Building, exits: seq<Pos>)
    requires Semantics(p) == Ok(flow) && Grammatical(p.body) && Walkable(flow) && Prepared(flow) == Ok((ctx, g))
    requires ContextOk(ctx) && Ranked(ctx) && Above(ctx, flow.body, 0)
    requires WalkSequence(ctx, flow.body, 0, [ENTRY], g) == Ok((h, exits))
    ensures Checked(flow, h, exits) == Ok(Graph(h.nodes, h.edges))
  {
    PreparedIsReady(p, flow);
    SequenceRefines(ctx, Tree(p), 0, [ENTRY], g);
    WarningFree(flow);
    TreeCloses(p, flow);
    hide Ready, Holds, Ranked, Closed, LowerBlock;
    ClosedEnds(ctx, Tree(p), [ENTRY], g);
    BlockVisits(ctx, Tree(p), [ENTRY], g);
    LoweredIsAcyclic(p, flow, ctx, g, h, exits);
    LoweredHasOneStart(p, flow, ctx, g, h, exits);
    LoweredHasEnd(p, flow, ctx, g, h);
  }

  lemma WarningFree(flow: Flow)
    requires Walkable(flow) && Prepared(flow).Ok?
    ensures flow.warnings == []
  {
  }
}
