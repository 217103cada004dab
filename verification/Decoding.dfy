/** The source map of a graph made from a program: it inverts the generation of node ids and handles. */
module Decoding {
  import opened Prelude
  import opened Text
  import opened Pseudocode
  import opened FlowSemantics
  import opened Elaboration
  import opened Identity
  import opened WorkflowGraph
  import opened Lowering
  import opened Partition
  import opened Refinement
  import opened GraphSpec
  import opened ControlFlow
  import opened Correctness
  import opened Shape
  import opened Endings
  import opened StructuredOutputs
  import opened SourceMap

  // ----- The ids of terminals, and of end nodes -----

  ghost predicate AreNumbered(ts: seq<Terminal>) {
    forall t :: t in ts ==> IsNumbered(t.id)
  }

  ghost predicate IsNumbered(id: Id) {
    exists k: nat :: id == Numbered("terminal", k)
  }

  lemma TermIdNumbered(c: Counters)
    ensures IsNumbered(TermId(c))
  {
  }

  lemma {:induction false} TermsNumbered(c: Counters, p: Stmts, tail: bool, terminals: set<string>)
    ensures AreNumbered(Terminals(Elab(c, p, tail, terminals).1))
    decreases p
  {
    if p.SCons? {
      var piece := ElabStmt(c, p.head, tail && p.tail.SNil?, terminals);
      StmtTermsNumbered(c, p.head, tail && p.tail.SNil?, terminals);
      if !piece.ends {
        var b := Elab(piece.next, p.tail, tail, terminals).1;
        TermsNumbered(piece.next, p.tail, tail, terminals);
        AppendTerminals(piece.block, b);
      }
    }
  }

  lemma {:induction false} StmtTermsNumbered(c: Counters, s: Stmt, last: bool, terminals: set<string>)
    ensures AreNumbered(Terminals(ElabStmt(c, s, last, terminals).block))
    decreases s
  {
    match s
    case IfStmt(arms) =>
      ArmTermsNumbered(CountBranch(c), arms, last, terminals);
      var b := ElabStmt(c, s, last, terminals).block;
      assert Terminals(b) == NodeTerminals(b.head) + Terminals(b.tail);
    case _ =>
      var piece := ElabStmt(c, s, last, terminals);
      TermIdNumbered(c);
      TermIdNumbered(piece.next.(terminals := c.terminals));
      LeafTerminals(piece.block);
  }

  lemma LeafTerminals(b: Block)
    requires b.BCons? && !b.head.BranchN? && (b.tail.BNil? || (b.tail.head.TermN? && b.tail.tail.BNil?))
    ensures forall t :: t in Terminals(b) ==> (b.head.TermN? && t.id == b.head.id) || (b.tail.BCons? && t.id == b.tail.head.id)
  {
    assert Terminals(b) == NodeTerminals(b.head) + Terminals(b.tail);
  }

  lemma {:induction false} ArmTermsNumbered(c: Counters, arms: Arms, last: bool, terminals: set<string>)
    ensures AreNumbered(ArmTerminals(ElabArms(c, arms, last, terminals).1))
    decreases arms
  {
    match arms
    case Case(_, body, rest) =>
      TermsNumbered(c, body, last, terminals);
      ArmTermsNumbered(Elab(c, body, last, terminals).0, rest, last, terminals);
    case Else(body) =>
      TermsNumbered(c, body, last, terminals);
  }

  /** `terminal_1_x` is neither `terminal_m` nor begins with `terminal_m_`, for any `m` but 1. */
  lemma NumberedApart(k: nat, m: nat, x: string)
    ensures Numbered("terminal", k) + "_" + x != Numbered("terminal", m)
    ensures Extends(Numbered("terminal", k) + "_" + x, Numbered("terminal", m)) ==> k == m
  {
    DecPlain(k);
    DecPlain(m);
    var a, b := Dec(k), Dec(m);
    var id := Numbered("terminal", k) + "_" + x;
    assert id[9..] == a + "_" + x && Numbered("terminal", m)[9..] == b;
    assert (a + "_" + x)[|a|] == '_' && '_' in a + "_" + x && '_' !in b;
    if Extends(id, Numbered("terminal", m)) {
      var short := Numbered("terminal", m) + "_";
      assert short[9..] == b + "_";
      assert id[..|short|] == short;
      assert id[9..][..|b| + 1] == b + "_";
      SplitFirst(b, a, x);
      DecInjective(k, m);
    }
  }

  /** The id of every end node decodes to the terminal that the node was made from, and to no other. */
  lemma EndIdDecodes(t: Terminal, ts: seq<Terminal>, source: Id, alone: bool, count: nat)
    requires AreNumbered(ts) && t in ts
    ensures Decodes(EndId(t.id, source, alone, count), TerminalIds(ts), Some(t.id))
  {
    var ids := TerminalIds(ts);
    TerminalIdIn(t, ts);
    var id := EndId(t.id, source, alone, count);
    assert IsNumbered(t.id);
    var k: nat :| t.id == Numbered("terminal", k);
    if id != t.id {
      var x := if !alone then source else Dec(count);
      assert id == t.id + "_" + x;
      forall u | u in ids
        ensures u != id && (Extends(id, u) ==> u == t.id)
      {
        var i :| 0 <= i < |ids| && ids[i] == u;
        assert ts[i] in ts && IsNumbered(ts[i].id);
        var m: nat :| ts[i].id == Numbered("terminal", m);
        NumberedApart(k, m, x);
      }
      assert Extends(id, t.id);
    }
  }

  lemma TerminalIdIn(t: Terminal, ts: seq<Terminal>)
    requires t in ts
    ensures t.id in TerminalIds(ts)
  {
    var i :| 0 <= i < |ts| && ts[i] == t;
    assert TerminalIds(ts)[i] == t.id;
  }

  // ----- What is known of the ids of a program -----

  ghost predicate KnownIds(flow: Flow, graph: Graph) {
    AreNumbered(flow.terminals) && NoDup(StepIds(flow.steps)) && NoDup(TerminalIds(flow.terminals)) &&
    (forall s :: s in flow.steps ==> s.id != "" && s.id != START) &&
    (exists n :: n in graph.nodes && n.StartNode? && n.id == START) &&
    forall m, n :: m in graph.nodes && n in graph.nodes && m.id == n.id ==> m == n
  }

  lemma IdsNonempty(p: Program)
    requires GroupCalls(Tree(p))
    ensures forall id :: id in AllIds(Tree(p)) ==> id != "" && id != START
  {
    var d := Elab(ZERO, p.body, true, p.terminals).0;
    ElabFresh(ZERO, p.body, true, p.terminals);
    forall id | id in AllIds(Tree(p))
      ensures id != "" && id != START
    {
      assert IsNew(ZERO, d, id);
      var t :| Given(d, t) && !Given(ZERO, t) && Grouped(t) && Render(t) == id;
      RenderIsNotStart(t);
    }
  }

  lemma FlowIds(p: Program, flow: Flow)
    requires Semantics(p) == Ok(flow) && GroupCalls(Tree(p))
    ensures NoDup(StepIds(flow.steps)) && NoDup(TerminalIds(flow.terminals))
    ensures forall s :: s in flow.steps ==> s.id != "" && s.id != START
  {
    CompiledLists(p, flow);
    UniqueIds(p);
    IdsNonempty(p);
    KindsApart(map[], Tree(p));
    KindsPartition(map[], Tree(p));
    forall s | s in flow.steps
      ensures s.id in AllIds(Tree(p))
    {
      IdsIn(flow.steps, [], []);
      assert s.id in multiset(StepIds(flow.steps));
      assert s.id in multiset(AllIds(Tree(p)));
    }
  }

  lemma GroupsOnly(p: Program, flow: Flow)
    requires Semantics(p) == Ok(flow) && Load(flow).Ok?
    ensures GroupCalls(Tree(p))
  {
    CompiledLists(p, flow);
    LoadFacts(flow);
    forall s | s in Steps(Tree(p)) && s.CallStep?
      ensures EndsWith(s.call.func, "Group")
    {
      var k :| 0 <= k < |flow.steps| && flow.steps[k] == s;
      assert CallOk(flow.steps[k]);
    }
  }

  lemma AcceptedIds(p: Program, flow: Flow, graph: Graph)
    requires Pipeline(p) == Ok((flow, graph))
    ensures KnownIds(flow, graph)
  {
    CompiledIsWalkable(p, flow);
    GroupsOnly(p, flow);
    FlowIds(p, flow);
    CompiledLists(p, flow);
    TermsNumbered(ZERO, p.body, true, p.terminals);
    AcceptedIsFunctional(p, flow, graph);
    StartInGraph(p, flow, graph);
    hide Pipeline, AreNumbered, NoDup, Walkable, Load;
  }

  // ----- Every node is decoded -----

  /** The entry says what the node was made from. */
  ghost predicate RightEntry(flow: Flow, ctx: Context, n: GNode, e: Entry)
    requires ContextOk(ctx)
  {
    match n
    case StartNode(_, _) => e == StartEntry(InputNames(flow.inputs))
    case LlmNode(id, _, _, schema) =>
      exists call :: CallStep(id, call) in flow.steps && BuildStepNode(ctx, CallStep(id, call)) == Ok(n) &&
                     e == CallEntry(id, call.func, call.target, schema)
    case IfElseNode(id, cases) => e == BranchEntry(id, set i | 0 <= i < |cases| :: cases[i].caseId, FALSE)
    case EndNode(_, _, selector, _) =>
      selector != [] && exists t, at, alone :: t in flow.terminals && MadeFrom(ctx, n, t, at, alone) && e == TerminalEntry(t.id, Some(selector[0]))
  }

  lemma StepDecodes(flow: Flow, ctx: Context, graph: Graph, n: GNode, e: Entry)
    requires KnownIds(flow, graph) && ContextOk(ctx) && n in graph.nodes && FromStep(flow, ctx, n)
    ensures MapsTo(n, flow.steps, TerminalIds(flow.terminals), InputNames(flow.inputs), e) ==> RightEntry(flow, ctx, n, e) && !e.TerminalEntry?
    ensures forall x :: !Rejected(n, flow.steps, TerminalIds(flow.terminals), x)
  {
    var s :| s in flow.steps && BuildStepNode(ctx, s) == Ok(n);
    KindsDiffer(n);
    forall s' | s' in flow.steps && s'.id == n.id
      ensures s' == s
    {
      SameStep(flow.steps, s, s');
    }
    if s.BranchStep? {
      CaseIdsKept(ctx, s, n);
    }
  }

  lemma CaseIdsKept(ctx: Context, s: Step, n: GNode)
    requires ContextOk(ctx) && s.BranchStep? && BuildStepNode(ctx, s) == Ok(n)
    ensures BranchCaseHandles(s.cases) == set i | 0 <= i < |n.cases| :: n.cases[i].caseId
  {
    var handles := set i | 0 <= i < |n.cases| :: n.cases[i].caseId;
    forall h
      ensures h in BranchCaseHandles(s.cases) <==> h in handles
    {
      if h in BranchCaseHandles(s.cases) {
        var i :| 0 <= i < |s.cases| && s.cases[i].caseId == h;
        assert n.cases[i].caseId == h;
      }
      if h in handles {
        var i :| 0 <= i < |n.cases| && n.cases[i].caseId == h;
        assert s.cases[i].caseId == h;
      }
    }
  }

  lemma SameStep(steps: seq<Step>, a: Step, b: Step)
    requires NoDup(StepIds(steps)) && a in steps && b in steps && a.id == b.id
    ensures a == b
  {
    var i :| 0 <= i < |steps| && steps[i] == a;
    var j :| 0 <= j < |steps| && steps[j] == b;
    assert StepIds(steps)[i] == StepIds(steps)[j];
  }

  lemma KindsDiffer(n: GNode)
    ensures NodeType(n) == "llm" <==> n.LlmNode?
    ensures NodeType(n) == "if-else" <==> n.IfElseNode?
    ensures NodeType(n) == "end" <==> n.EndNode?
    ensures NodeType(n) == "start" <==> n.StartNode?
  {
    assert |"start"| == 5 && |"llm"| == 3 && |"if-else"| == 7 && |"end"| == 3 && "llm"[0] == 'l' && "end"[0] == 'e';
  }

  lemma EndIsNoStep(flow: Flow, ctx: Context, graph: Graph, n: GNode)
    requires KnownIds(flow, graph) && ContextOk(ctx) && HasStepNodes(flow, ctx, graph.nodes) && n in graph.nodes && n.EndNode?
    ensures n.id != START && forall s :: s in flow.steps ==> s.id != n.id
  {
    forall s | s in flow.steps
      ensures s.id != n.id
    {
      var m :| m in graph.nodes && BuildStepNode(ctx, s) == Ok(m);
      assert m.LlmNode? || m.IfElseNode?;
    }
  }

  lemma EndStands(flow: Flow, ctx: Context, n: GNode) returns (t: Terminal, at: Pos, alone: bool)
    requires ContextOk(ctx) && AreNumbered(flow.terminals) && EndFor(ctx, flow.terminals, n)
    ensures t in flow.terminals && MadeFrom(ctx, n, t, at, alone) && n.id != "" && n.selector != []
    ensures Decodes(n.id, TerminalIds(flow.terminals), Some(t.id))
  {
    var t', at', alone' :| t' in flow.terminals && MadeFrom(ctx, n, t', at', alone');
    t, at, alone := t', at', alone';
    var count: nat :| count >= 1 && n.id == EndId(t.id, at.node, alone, count);
    EndIdDecodes(t, flow.terminals, at.node, alone, count);
    assert IsNumbered(t.id);
    EndSelectorNonempty(ctx, n, t, at, alone);
  }

  lemma EndSelectorNonempty(ctx: Context, n: GNode, t: Terminal, at: Pos, alone: bool)
    requires ContextOk(ctx) && MadeFrom(ctx, n, t, at, alone)
    ensures n.selector != []
  {
  }

  lemma EndDecodes(flow: Flow, ctx: Context, graph: Graph, n: GNode, e: Entry)
    requires KnownIds(flow, graph) && ContextOk(ctx) && HasStepNodes(flow, ctx, graph.nodes) && n in graph.nodes
    requires EndFor(ctx, flow.terminals, n)
    ensures MapsTo(n, flow.steps, TerminalIds(flow.terminals), InputNames(flow.inputs), e) ==> RightEntry(flow, ctx, n, e) && e.TerminalEntry?
    ensures forall x :: !Rejected(n, flow.steps, TerminalIds(flow.terminals), x)
  {
    var ids := TerminalIds(flow.terminals);
    var t, at, alone := EndStands(flow, ctx, n);
    EndIsNoStep(flow, ctx, graph, n);
    KindsDiffer(n);
    hide KnownIds, HasStepNodes, EndFor, MadeFrom, Decodes, NodeType, RightEntry, TerminalIds;
    if Decodes(n.id, ids, None) {
      DecodesOnce(n.id, ids, Some(t.id), None);
    }
    if MapsTo(n, flow.steps, ids, InputNames(flow.inputs), e) {
      var u :| Decodes(n.id, ids, Some(u)) && e == TerminalEntry(u, EndNodeProducer(n));
      DecodesOnce(n.id, ids, Some(t.id), Some(u));
    }
  }

  lemma StartDecodes(flow: Flow, ctx: Context, n: GNode, e: Entry)
    requires ContextOk(ctx) && n.StartNode? && n.id == START
    ensures MapsTo(n, flow.steps, TerminalIds(flow.terminals), InputNames(flow.inputs), e) ==> RightEntry(flow, ctx, n, e) && e.StartEntry?
    ensures forall x :: !Rejected(n, flow.steps, TerminalIds(flow.terminals), x)
  {
    KindsDiffer(n);
  }

  /** No node of an accepted graph is rejected, and each is mapped to what it was made from. */
  lemma NodeDecodes(flow: Flow, ctx: Context, graph: Graph, n: GNode, e: Entry)
    requires KnownIds(flow, graph) && Inferred(flow, ctx, graph) && n in graph.nodes
    ensures MapsTo(n, flow.steps, TerminalIds(flow.terminals), InputNames(flow.inputs), e) ==>
              RightEntry(flow, ctx, n, e) && (e.TerminalEntry? <==> n.EndNode?) && (e.StartEntry? <==> n.StartNode?)
    ensures forall x :: !Rejected(n, flow.steps, TerminalIds(flow.terminals), x)
  {
    assert ContextOk(ctx);
    hide KnownIds, MapsTo, Rejected, EndFor, HasStepNodes, KnownFields, RightEntry, FromStep;
    if n.StartNode? && n.id == START {
      StartDecodes(flow, ctx, n, e);
    } else if FromStep(flow, ctx, n) {
      StepDecodes(flow, ctx, graph, n, e);
    } else {
      assert EndFor(ctx, flow.terminals, n);
      EndDecodes(flow, ctx, graph, n, e);
    }
  }

  // ----- The map of an accepted graph -----

  /** The terminal has an end node, that is, some edge was lowered into it. */
  ghost predicate Ended(ctx: Context, graph: Graph, t: Terminal)
    requires ContextOk(ctx)
  {
    exists n, at, alone :: n in graph.nodes && MadeFrom(ctx, n, t, at, alone)
  }

  /** Exactly the terminals at which an exit is pending have an end node. */
  lemma EndedExactly(p: Program, flow: Flow, ctx: Context, graph: Graph, t: Terminal)
    requires ContextOk(ctx) && IsLowered(p, flow, ctx, graph) && KnownIds(flow, graph) && t in flow.terminals
    ensures Ended(ctx, graph, t) <==> t in Entered(Tree(p), true)
  {
    var g: Building, h: Building :| Ready(p, flow, ctx, g) && Lowers(p, ctx, g) == Ok((h, [])) && graph == Graph(h.nodes, h.edges);
    FlowOfReady(p, flow, ctx, g);
    NoEndsYet(p, flow, ctx, g);
    EnteredAreTerminals(Tree(p), true);
    hide KnownIds, Ready, LowerBlock, Tree, MadeFrom;
    BlockYields(ctx, Tree(p), [ENTRY], g);
    if Ended(ctx, graph, t) {
      var n, at, alone :| n in graph.nodes && MadeFrom(ctx, n, t, at, alone);
      EndedIsEntered(flow, ctx, graph, Entered(Tree(p), true), g, h, n, t, at, alone);
    }
    if t in Entered(Tree(p), true) {
      assert IsMade(ctx, t, h.nodes);
    }
  }

  lemma NoEndsYet(p: Program, flow: Flow, ctx: Context, g: Building)
    requires Ready(p, flow, ctx, g)
    ensures forall n :: n in g.nodes ==> !n.EndNode?
  {
    PreparedNodes(p, flow, ctx, g);
    forall i | 0 <= i < |g.nodes|
      ensures !g.nodes[i].EndNode?
    {
      if i > 0 {
        assert BuildStepNode(ctx, flow.steps[i - 1]) == Ok(g.nodes[1 + (i - 1)]);
      }
    }
  }

  lemma Added<T>(a: seq<T>, b: seq<T>, x: T) returns (i: nat)
    requires a <= b && x in b && x !in a
    ensures |a| <= i < |b| && b[i] == x
  {
    assert forall k :: 0 <= k < |a| ==> b[k] == a[k];
    i :| i < |b| && b[i] == x;
  }

  lemma EndedIsEntered(flow: Flow, ctx: Context, graph: Graph, ts: seq<Terminal>, g: Building, h: Building, n: GNode, t: Terminal, at: Pos, alone: bool)
    requires ContextOk(ctx) && KnownIds(flow, graph) && OnlyEnds(ctx, ts, g, h) && graph.nodes == h.nodes
    requires (forall m :: m in g.nodes ==> !m.EndNode?) && forall u :: u in ts ==> u in flow.terminals
    requires n in graph.nodes && t in flow.terminals && MadeFrom(ctx, n, t, at, alone)
    ensures t in ts
  {
    var i := Added(g.nodes, h.nodes, n);
    assert EndFor(ctx, ts, h.nodes[i]) by {
      assert n.EndNode?;
    }
    assert AreNumbered(flow.terminals) && NoDup(TerminalIds(flow.terminals));
    var u, at', alone' :| u in ts && MadeFrom(ctx, n, u, at', alone');
    hide MadeFrom, KnownIds, OnlyEnds, EndFor, AreNumbered;
    MadeDecodes(flow, ctx, n, t, at, alone);
    MadeDecodes(flow, ctx, n, u, at', alone');
    DecodesOnce(n.id, TerminalIds(flow.terminals), Some(t.id), Some(u.id));
    SameTerminal(flow.terminals, t, u);
  }

  lemma {:induction false} EnteredAreTerminals(b: Block, pending: bool)
    ensures forall t :: t in Entered(b, pending) ==> t in Terminals(b)
    decreases b
  {
    if b.BCons? {
      EnteredInNode(b.head, pending);
      EnteredAreTerminals(b.tail, PendingAfterNode(b.head, pending));
    }
  }

  lemma {:induction false} EnteredInNode(n: Node, pending: bool)
    ensures forall t :: t in EnteredNode(n, pending) ==> t in NodeTerminals(n)
    decreases n
  {
    if n.BranchN? {
      EnteredInArms(n.arms);
    }
  }

  lemma {:induction false} EnteredInArms(arms: NodeArms)
    ensures forall t :: t in EnteredArms(arms) ==> t in ArmTerminals(arms)
    decreases arms
  {
    match arms
    case CaseN(_, body, rest) =>
      EnteredAreTerminals(body, true);
      EnteredInArms(rest);
    case ElseN(body) => EnteredAreTerminals(body, true);
  }

  lemma MappedRight(flow: Flow, ctx: Context, graph: Graph, m: map<Id, Entry>, n: GNode)
    requires KnownIds(flow, graph) && Inferred(flow, ctx, graph) && Mapped(flow, graph, m) && n in graph.nodes
    ensures n.id in m && RightEntry(flow, ctx, n, m[n.id]) && (m[n.id].TerminalEntry? <==> n.EndNode?) && (m[n.id].StartEntry? <==> n.StartNode?)
  {
    hide Inferred, RightEntry, MapsTo;
    var k :| k in graph.nodes && k.id == n.id && MapsTo(k, flow.steps, TerminalIds(flow.terminals), InputNames(flow.inputs), m[n.id]);
    assert k == n;
    NodeDecodes(flow, ctx, graph, n, m[n.id]);
  }

  lemma StepMapped(flow: Flow, ctx: Context, graph: Graph, m: map<Id, Entry>, s: Step)
    requires KnownIds(flow, graph) && Inferred(flow, ctx, graph) && Mapped(flow, graph, m) && s in flow.steps
    ensures s.id in StepsOf(m)
  {
    assert ContextOk(ctx) && HasStepNodes(flow, ctx, graph.nodes);
    var n :| n in graph.nodes && BuildStepNode(ctx, s) == Ok(n);
    assert n.id == s.id && (n.LlmNode? || n.IfElseNode?);
    MappedRight(flow, ctx, graph, m, n);
  }

  lemma StepsMapped(flow: Flow, ctx: Context, graph: Graph, m: map<Id, Entry>)
    requires KnownIds(flow, graph) && Inferred(flow, ctx, graph) && Mapped(flow, graph, m)
    ensures UnmappedSteps(flow, m) == {}
  {
    hide KnownIds, Inferred, Mapped, StepsOf;
    forall x | x in StepIds(flow.steps)
      ensures x in StepsOf(m)
    {
      var i :| 0 <= i < |flow.steps| && StepIds(flow.steps)[i] == x;
      StepMapped(flow, ctx, graph, m, flow.steps[i]);
    }
  }

  lemma TerminalsMapped(flow: Flow, ctx: Context, graph: Graph, m: map<Id, Entry>, t: Terminal)
    requires KnownIds(flow, graph) && Inferred(flow, ctx, graph) && Mapped(flow, graph, m) && t in flow.terminals
    ensures t.id in TerminalsOf(m) <==> Ended(ctx, graph, t)
  {
    assert ContextOk(ctx);
    if Ended(ctx, graph, t) {
      var n, at, alone :| n in graph.nodes && MadeFrom(ctx, n, t, at, alone);
      EndIsMapped(flow, ctx, graph, m, t, n, at, alone);
    }
    if t.id in TerminalsOf(m) {
      MappedIsEnded(flow, ctx, graph, m, t);
    }
  }

  lemma MappedIsEnded(flow: Flow, ctx: Context, graph: Graph, m: map<Id, Entry>, t: Terminal)
    requires KnownIds(flow, graph) && Inferred(flow, ctx, graph) && Mapped(flow, graph, m) && t in flow.terminals
    requires t.id in TerminalsOf(m)
    ensures Ended(ctx, graph, t)
  {
    assert ContextOk(ctx) && NoDup(TerminalIds(flow.terminals));
    var x :| x in m && m[x].TerminalEntry? && m[x].id == t.id;
    var n := MappedNode(flow, graph, m, x);
    MappedRight(flow, ctx, graph, m, n);
    hide KnownIds, Inferred, Mapped, MadeFrom;
    var t', at, alone :| t' in flow.terminals && MadeFrom(ctx, n, t', at, alone) && m[x] == TerminalEntry(t'.id, Some(n.selector[0]));
    SameTerminal(flow.terminals, t, t');
  }

  lemma MappedNode(flow: Flow, graph: Graph, m: map<Id, Entry>, x: Id) returns (n: GNode)
    requires Mapped(flow, graph, m) && x in m
    ensures n in graph.nodes && n.id == x
  {
    n :| n in graph.nodes && n.id == x && MapsTo(n, flow.steps, TerminalIds(flow.terminals), InputNames(flow.inputs), m[x]);
  }

  lemma SameTerminal(ts: seq<Terminal>, a: Terminal, b: Terminal)
    requires NoDup(TerminalIds(ts)) && a in ts && b in ts && a.id == b.id
    ensures a == b
  {
    var i :| 0 <= i < |ts| && ts[i] == a;
    var j :| 0 <= j < |ts| && ts[j] == b;
    assert TerminalIds(ts)[i] == TerminalIds(ts)[j];
  }

  lemma MadeDecodes(flow: Flow, ctx: Context, n: GNode, t: Terminal, at: Pos, alone: bool)
    requires ContextOk(ctx) && AreNumbered(flow.terminals) && t in flow.terminals && MadeFrom(ctx, n, t, at, alone)
    ensures Decodes(n.id, TerminalIds(flow.terminals), Some(t.id))
  {
    var count: nat :| count >= 1 && n.id == EndId(t.id, at.node, alone, count);
    EndIdDecodes(t, flow.terminals, at.node, alone, count);
  }

  lemma EndIsMapped(flow: Flow, ctx: Context, graph: Graph, m: map<Id, Entry>, t: Terminal, n: GNode, at: Pos, alone: bool)
    requires KnownIds(flow, graph) && Inferred(flow, ctx, graph) && Mapped(flow, graph, m) && t in flow.terminals
    requires ContextOk(ctx) && n in graph.nodes && MadeFrom(ctx, n, t, at, alone)
    ensures t.id in TerminalsOf(m)
  {
    MappedRight(flow, ctx, graph, m, n);
    MadeDecodes(flow, ctx, n, t, at, alone);
    assert AreNumbered(flow.terminals) && n.EndNode?;
    hide KnownIds, Inferred, Mapped, MadeFrom, Decodes, AreNumbered;
    var t', at', alone' :| t' in flow.terminals && MadeFrom(ctx, n, t', at', alone') && m[n.id] == TerminalEntry(t'.id, Some(n.selector[0]));
    MadeDecodes(flow, ctx, n, t', at', alone');
    DecodesOnce(n.id, TerminalIds(flow.terminals), Some(t.id), Some(t'.id));
  }

  /**
   For every accepted graph: a map that is made has for every node the entry of the object that the node was made from,
   and it is made exactly when every terminal has an end node, that is, when in the program an exit is pending at every
   terminal; otherwise the terminals at which none is are reported.
   */
  lemma SourceMapInverts(p: Program, flow: Flow, graph: Graph, r: Result<map<Id, Entry>, MapError>) returns (ctx: Context)
    requires Pipeline(p) == Ok((flow, graph))
    requires match r case Ok(m) => IsSourceMap(flow, graph, m) case Err(e) => Refused(flow, graph, e)
    ensures Inferred(flow, ctx, graph)
    ensures forall t :: t in flow.terminals ==> (Ended(ctx, graph, t) <==> t in Entered(Tree(p), true))
    ensures r.Ok? <==> forall t :: t in flow.terminals ==> t in Entered(Tree(p), true)
    ensures r.Ok? ==> forall n :: n in graph.nodes ==> n.id in r.value && RightEntry(flow, ctx, n, r.value[n.id])
    ensures r.Err? ==>
              (r.error.MissingTerminals? && forall t :: t in flow.terminals ==> (t.id in r.error.ids <==> t !in Entered(Tree(p), true)))
  {
    ctx := AcceptedIsInferred(p, flow, graph);
    AcceptedIds(p, flow, graph);
    assert ContextOk(ctx);
    hide Pipeline, Ended, RightEntry, Inferred, IsLowered, Entered, KnownIds, Tree;
    MapResult(flow, ctx, graph, r);
    forall t | t in flow.terminals
      ensures Ended(ctx, graph, t) <==> t in Entered(Tree(p), true)
    {
      EndedExactly(p, flow, ctx, graph, t);
    }
  }

  lemma MapResult(flow: Flow, ctx: Context, graph: Graph, r: Result<map<Id, Entry>, MapError>)
    requires KnownIds(flow, graph) && Inferred(flow, ctx, graph)
    requires match r case Ok(m) => IsSourceMap(flow, graph, m) case Err(e) => Refused(flow, graph, e)
    ensures r.Ok? <==> forall t :: t in flow.terminals ==> Ended(ctx, graph, t)
    ensures r.Ok? ==> forall n :: n in graph.nodes ==> n.id in r.value && RightEntry(flow, ctx, n, r.value[n.id])
    ensures r.Err? ==>
              (r.error.MissingTerminals? && forall t :: t in flow.terminals ==> (t.id in r.error.ids <==> !Ended(ctx, graph, t)))
  {
    assert ContextOk(ctx);
    hide Inferred, Ended, RightEntry, Mapped, Rejected, StepsOf, TerminalsOf;
    var m: map<Id, Entry>;
    match r {
      case Ok(made) => m := made;
      case Err(e) => m := RefusedMap(flow, ctx, graph, e);
    }
    forall t | t in flow.terminals
      ensures t.id in UnmappedTerminals(flow, m) <==> !Ended(ctx, graph, t)
    {
      TerminalIdIn(t, flow.terminals);
      TerminalsMapped(flow, ctx, graph, m, t);
    }
    forall n | n in graph.nodes
      ensures n.id in m && RightEntry(flow, ctx, n, m[n.id])
    {
      MappedRight(flow, ctx, graph, m, n);
    }
    forall x | x in UnmappedTerminals(flow, m)
      ensures exists t :: t in flow.terminals && t.id == x
    {
      var i :| 0 <= i < |flow.terminals| && TerminalIds(flow.terminals)[i] == x;
      assert flow.terminals[i].id == x;
    }
  }

  lemma RefusedMap(flow: Flow, ctx: Context, graph: Graph, e: MapError) returns (m: map<Id, Entry>)
    requires KnownIds(flow, graph) && Inferred(flow, ctx, graph) && Refused(flow, graph, e)
    ensures e.MissingTerminals? && Mapped(flow, graph, m) && e.ids == UnmappedTerminals(flow, m) != {}
  {
    hide Inferred, Mapped, Rejected, UnmappedSteps, UnmappedTerminals;
    match e
    case MissingTerminals(ids) =>
      m :| Mapped(flow, graph, m) && ids == UnmappedTerminals(flow, m) != {};
    case MissingSteps(ids) =>
      var k :| Mapped(flow, graph, k) && ids == UnmappedSteps(flow, k) != {};
      StepsMapped(flow, ctx, graph, k);
      assert false;
    case DuplicateId(_) =>
      assert false;
    case _ =>
      var n :| n in graph.nodes && Rejected(n, flow.steps, TerminalIds(flow.terminals), e);
      NodeDecodes(flow, ctx, graph, n, StartEntry([]));
      assert false;
  }

  // ----- Handles -----

  /** The handles in the entry of a branch, and its else handle, are the handles of the edges that leave the branch. */
  lemma BranchHandlesAreEdges(p: Program, flow: Flow, graph: Graph, n: GNode, handle: string)
    requires Pipeline(p) == Ok((flow, graph)) && n in graph.nodes && n.IfElseNode?
    ensures (exists i :: 0 <= i < |n.cases| && n.cases[i].caseId == handle) || handle == FALSE <==>
            exists e :: e in graph.edges && e.source == n.id && e.handle == handle
  {
    OneEdgePerHandle(p, flow, graph);
    AcceptedIsFunctional(p, flow, graph);
    hide *;
    HandlesAreEdges(graph, n, handle);
  }

  lemma HandlesAreEdges(graph: Graph, n: GNode, handle: string)
    requires EdgeSources(graph.edges) == GraphExits(graph.nodes) && n in graph.nodes && n.IfElseNode?
    requires forall a, b :: a in graph.nodes && b in graph.nodes && a.id == b.id ==> a == b
    ensures (exists i :: 0 <= i < |n.cases| && n.cases[i].caseId == handle) || handle == FALSE <==>
            exists e :: e in graph.edges && e.source == n.id && e.handle == handle
  {
    hide Simple, GraphExits, EdgeSources;
    var at := Pos(n.id, handle);
    EdgeSourcesHave(graph.edges, at);
    GraphExitsHave(graph.nodes, at);
    CaseExitsHave(n.id, n.cases, at);
    forall m | m in graph.nodes && at in NodeExits(m)
      ensures m == n
    {
      NodeExitsHere(m, at);
    }
  }
}
