/**
 The lowered graph and the control flow of the program: every walk of the graph is a run, every handle is wired
 exactly once, and edges only lead forward.
 */
module ControlFlow {
  import opened Prelude
  import opened Text
  import opened Pseudocode
  import opened FlowSemantics
  import opened WorkflowGraph
  import opened Lowering

  // ----- Lowering only adds -----

  ghost predicate Grew(g: Building, h: Building) {
    g.nodes <= h.nodes && g.edges <= h.edges && g.visited <= h.visited
  }

  lemma {:induction false} EdgesGrow(g: Building, incoming: seq<Pos>, target: Id)
    requires AppendEdges(g, incoming, target).Ok?
    ensures var h := AppendEdges(g, incoming, target).value;
            Grew(g, h) && h.nodes == g.nodes && h.visited == g.visited &&
            forall p :: p in incoming ==> Edge(p.node, p.handle, target) in h.edges
    decreases |incoming|
  {
    if incoming != [] {
      var h1 := AppendEdge(g, incoming[0], target).value;
      EdgesGrow(h1, incoming[1..], target);
      assert Edge(incoming[0].node, incoming[0].handle, target) in h1.edges;
      assert incoming == [incoming[0]] + incoming[1..];
    }
  }

  lemma AppendEndGrows(ctx: Context, t: Terminal, from: Pos, alone: bool, g: Building)
    requires ContextOk(ctx) && AppendEnd(ctx, t, from, alone, g).Ok?
    ensures var h := AppendEnd(ctx, t, from, alone, g).value;
            Grew(g, h) && h.visited == g.visited && |h.nodes| == |g.nodes| + 1 &&
            MadeFrom(ctx, h.nodes[|g.nodes|], t, from, alone) && !HasNode(g, h.nodes[|g.nodes|].id) &&
            (h.edges == g.edges || h.edges == g.edges + [Edge(from.node, from.handle, h.nodes[|g.nodes|].id)]) &&
            Edge(from.node, from.handle, h.nodes[|g.nodes|].id) in h.edges
  {
  }

  lemma {:induction false} EndsGrow(ctx: Context, t: Terminal, incoming: seq<Pos>, alone: bool, g: Building)
    requires ContextOk(ctx) && AppendEnds(ctx, t, incoming, alone, g).Ok?
    ensures var h := AppendEnds(ctx, t, incoming, alone, g).value; Grew(g, h) && h.visited == g.visited
    decreases |incoming|
  {
    if incoming != [] {
      AppendEndGrows(ctx, t, incoming[0], alone, g);
      EndsGrow(ctx, t, incoming[1..], alone, AppendEnd(ctx, t, incoming[0], alone, g).value);
    }
  }

  lemma {:induction false} BlockGrows(ctx: Context, b: Block, incoming: seq<Pos>, g: Building)
    requires ContextOk(ctx) && LowerBlock(ctx, b, incoming, g).Ok?
    ensures Grew(g, LowerBlock(ctx, b, incoming, g).value.0)
    decreases b
  {
    if b.BCons? {
      NodeGrows(ctx, b.head, incoming, g);
      var r := LowerNode(ctx, b.head, incoming, g).value;
      BlockGrows(ctx, b.tail, r.1, r.0);
    }
  }

  lemma {:induction false} NodeGrows(ctx: Context, n: Node, incoming: seq<Pos>, g: Building)
    requires ContextOk(ctx) && LowerNode(ctx, n, incoming, g).Ok?
    ensures Grew(g, LowerNode(ctx, n, incoming, g).value.0)
    decreases n
  {
    match n
    case BindN(_, _, _) =>
    case TermN(id, output, step, _) => EndsGrow(ctx, Terminal(id, output, step), incoming, |incoming| == 1, g);
    case CallN(id, _) => EdgesGrow(g.(visited := g.visited + {id}), incoming, id);
    case BranchN(id, arms) =>
      EdgesGrow(g.(visited := g.visited + {id}), incoming, id);
      ArmsGrow(ctx, id, arms, 0, AppendEdges(g.(visited := g.visited + {id}), incoming, id).value);
  }

  lemma {:induction false} ArmsGrow(ctx: Context, id: Id, arms: NodeArms, i: nat, g: Building)
    requires ContextOk(ctx) && LowerArms(ctx, id, arms, i, g).Ok?
    ensures Grew(g, LowerArms(ctx, id, arms, i, g).value.0)
    decreases arms
  {
    match arms
    case CaseN(_, body, rest) =>
      BlockGrows(ctx, body, [Pos(id, CaseId(i))], g);
      ArmsGrow(ctx, id, rest, i + 1, LowerBlock(ctx, body, [Pos(id, CaseId(i))], g).value.0);
    case ElseN(body) => BlockGrows(ctx, body, [Pos(id, FALSE)], g);
  }

  // ----- Every run is a walk -----

  /** `e` is an end node of terminal `t`, entered from `from`. */
  ghost predicate MadeFrom(ctx: Context, e: GNode, t: Terminal, from: Pos, alone: bool)
    requires ContextOk(ctx)
  {
    e.EndNode? && (exists count: nat :: count >= 1 && e.id == EndId(t.id, from.node, alone, count)) && e.output == OutputName(t) &&
    TerminalOutput(ctx, t, from.node).Ok? &&
    var out := TerminalOutput(ctx, t, from.node).value; e.selector == out.0 && e.valueType == DifyType(out.1)
  }

  /** The graph has a node for each step of the block; a branch has its cases. */
  ghost predicate HasSteps(g: Graph, b: Block)
    decreases b
  {
    match b
    case BNil => true
    case BCons(n, rest) => HasNodeSteps(g, n) && HasSteps(g, rest)
  }

  ghost predicate HasNodeSteps(g: Graph, n: Node)
    decreases n
  {
    match n
    case CallN(id, _) => exists m :: m in g.nodes && m.LlmNode? && m.id == id
    case BranchN(id, arms) =>
      (exists m :: m in g.nodes && m.IfElseNode? && m.id == id && CasesAre(m.cases, ArmCount(arms))) && HasArmSteps(g, arms)
    case _ => true
  }

  ghost predicate HasArmSteps(g: Graph, arms: NodeArms)
    decreases arms
  {
    match arms
    case CaseN(_, body, rest) => HasSteps(g, body) && HasArmSteps(g, rest)
    case ElseN(body) => HasSteps(g, body)
  }

  ghost predicate CasesAre(cases: seq<GraphCase>, n: nat) {
    |cases| == n && forall i :: 0 <= i < n ==> cases[i].caseId == CaseId(i)
  }

  ghost predicate Includes(g: Graph, h: Building) {
    (forall e :: e in h.edges ==> e in g.edges) && forall n :: n in h.nodes ==> n in g.nodes
  }

  lemma IncludesEarlier(g: Graph, h: Building, k: Building)
    requires Includes(g, k) && Grew(h, k)
    ensures Includes(g, h)
  {
    assert forall e :: e in h.edges ==> e in k.edges;
    assert forall n :: n in h.nodes ==> n in k.nodes;
  }

  /** Where a run of a block leaves the graph: at one of the exits, or at an end node of the terminal reached. */
  ghost predicate RunWalks(ctx: Context, g: Graph, s: RunState, r: TreeRun, exits: seq<Pos>)
    requires ContextOk(ctx)
  {
    Follows(g, s.at, s.picks, r.path, r.after.at, r.after.picks) &&
    match r.stop
    case None => r.after.at in exits
    case Some(t) => Ends(ctx, g, t, r.after.at)
  }

  ghost predicate Ends(ctx: Context, g: Graph, t: Terminal, at: Pos)
    requires ContextOk(ctx)
  {
    exists e, alone :: e in g.nodes && MadeFrom(ctx, e, t, at, alone) && Edge(at.node, at.handle, e.id) in g.edges
  }

  lemma {:induction false} EndReached(ctx: Context, t: Terminal, incoming: seq<Pos>, alone: bool, b: Building, g: Graph, at: Pos)
    requires ContextOk(ctx) && AppendEnds(ctx, t, incoming, alone, b).Ok? && at in incoming
    requires Includes(g, AppendEnds(ctx, t, incoming, alone, b).value)
    ensures Ends(ctx, g, t, at)
    decreases |incoming|
  {
    var h1 := AppendEnd(ctx, t, incoming[0], alone, b).value;
    AppendEndGrows(ctx, t, incoming[0], alone, b);
    EndsGrow(ctx, t, incoming[1..], alone, h1);
    if at == incoming[0] {
      IncludesEarlier(g, h1, AppendEnds(ctx, t, incoming, alone, b).value);
      var e := h1.nodes[|b.nodes|];
      assert e in h1.nodes && MadeFrom(ctx, e, t, at, alone);
    } else {
      assert incoming == [incoming[0]] + incoming[1..];
      EndReached(ctx, t, incoming[1..], alone, h1, g, at);
    }
  }

  lemma {:induction false} BlockWalks(ctx: Context, b: Block, incoming: seq<Pos>, h: Building, g: Graph, s: RunState)
    requires ContextOk(ctx) && LowerBlock(ctx, b, incoming, h).Ok? && Includes(g, LowerBlock(ctx, b, incoming, h).value.0)
    requires HasSteps(g, b) && s.at in incoming
    ensures RunWalks(ctx, g, s, RunBlock(b, s), LowerBlock(ctx, b, incoming, h).value.1)
    decreases b
  {
    if b.BCons? {
      var l := LowerNode(ctx, b.head, incoming, h).value;
      BlockGrows(ctx, b.tail, l.1, l.0);
      IncludesEarlier(g, l.0, LowerBlock(ctx, b, incoming, h).value.0);
      NodeWalks(ctx, b.head, incoming, h, g, s);
      var r := RunNode(b.head, s);
      if r.stop.None? {
        BlockWalks(ctx, b.tail, l.1, l.0, g, r.after);
        var q := RunBlock(b.tail, r.after);
        FollowsConcat(g, s.at, s.picks, r.path, r.after.at, r.after.picks, q.path, q.after.at, q.after.picks);
      }
    }
  }

  lemma {:induction false} NodeWalks(ctx: Context, n: Node, incoming: seq<Pos>, h: Building, g: Graph, s: RunState)
    requires ContextOk(ctx) && LowerNode(ctx, n, incoming, h).Ok? && Includes(g, LowerNode(ctx, n, incoming, h).value.0)
    requires HasNodeSteps(g, n) && s.at in incoming
    ensures RunWalks(ctx, g, s, RunNode(n, s), LowerNode(ctx, n, incoming, h).value.1)
    decreases n
  {
    match n
    case BindN(_, _, _) =>
    case TermN(id, output, step, _) =>
      EndReached(ctx, Terminal(id, output, step), incoming, |incoming| == 1, h, g, s.at);
    case CallN(id, call) =>
      EdgesGrow(h.(visited := h.visited + {id}), incoming, id);
      assert Edge(s.at.node, s.at.handle, id) in g.edges;
      OneHop(g, s.at, s.picks, CallHop(id, call));
    case BranchN(id, arms) =>
      var h1 := AppendEdges(h.(visited := h.visited + {id}), incoming, id).value;
      EdgesGrow(h.(visited := h.visited + {id}), incoming, id);
      ArmsGrow(ctx, id, arms, 0, h1);
      IncludesEarlier(g, h1, LowerArms(ctx, id, arms, 0, h1).value.0);
      assert Edge(s.at.node, s.at.handle, id) in h1.edges;
      var m :| m in g.nodes && m.IfElseNode? && m.id == id && CasesAre(m.cases, ArmCount(arms));
      ArmsWalk(ctx, id, arms, 0, h1, g, s, Head(s.picks), m);
  }

  lemma OneHop(g: Graph, from: Pos, picks: seq<nat>, hop: Hop)
    requires Edge(from.node, from.handle, hop.id) in g.edges
    requires exists n :: n in g.nodes && HopAt(n, hop, Head(picks))
    ensures Follows(g, from, picks, [hop], Leaving(hop), Picked(hop, picks))
  {
    assert [hop][1..] == [];
    assert Follows(g, Leaving(hop), Picked(hop, picks), [], Leaving(hop), Picked(hop, picks));
  }

  /** A branch is left by the handle of the arm that the run takes, which is lowered with that handle as its entry. */
  lemma {:induction false} ArmsWalk(
    ctx: Context, id: Id, arms: NodeArms, i: nat, h: Building, g: Graph, s: RunState, pick: nat, m: GNode)
    requires ContextOk(ctx) && LowerArms(ctx, id, arms, i, h).Ok? && Includes(g, LowerArms(ctx, id, arms, i, h).value.0)
    requires HasArmSteps(g, arms) && Edge(s.at.node, s.at.handle, id) in g.edges
    requires m in g.nodes && m.IfElseNode? && m.id == id && CasesAre(m.cases, i + ArmCount(arms))
    requires pick == Head(s.picks) && i <= pick
    ensures RunWalks(ctx, g, s, RunArms(id, arms, i, pick, s.(picks := Tail(s.picks))), LowerArms(ctx, id, arms, i, h).value.1)
    decreases arms
  {
    var q := s.(picks := Tail(s.picks));
    match arms
    case CaseN(cond, body, rest) =>
      var l := LowerBlock(ctx, body, [Pos(id, CaseId(i))], h).value;
      ArmsGrow(ctx, id, rest, i + 1, l.0);
      IncludesEarlier(g, l.0, LowerArms(ctx, id, arms, i, h).value.0);
      if pick == i {
        BlockWalks(ctx, body, [Pos(id, CaseId(i))], h, g, q.(at := Pos(id, CaseId(i))));
        EnterArm(ctx, g, s, id, i, CaseId(i), body, m);
      } else {
        ArmsWalk(ctx, id, rest, i + 1, l.0, g, s, pick, m);
      }
    case ElseN(body) =>
      BlockWalks(ctx, body, [Pos(id, FALSE)], h, g, q.(at := Pos(id, FALSE)));
      EnterArm(ctx, g, s, id, i, FALSE, body, m);
  }

  lemma EnterArm(ctx: Context, g: Graph, s: RunState, id: Id, i: nat, handle: string, body: Block, m: GNode)
    requires ContextOk(ctx) && Edge(s.at.node, s.at.handle, id) in g.edges
    requires m in g.nodes && m.IfElseNode? && m.id == id && handle == HandleFor(m.cases, Head(s.picks))
    ensures var q := RunState(s.env, Pos(id, handle), Tail(s.picks));
            var r := RunBlock(body, q);
            Follows(g, q.at, q.picks, r.path, r.after.at, r.after.picks) ==>
              Follows(g, s.at, s.picks, Entering(id, i, handle, r).path, r.after.at, r.after.picks)
  {
    var hop := BranchHop(id, i, handle);
    var q := RunState(s.env, Pos(id, handle), Tail(s.picks));
    var r := RunBlock(body, q);
    if Follows(g, q.at, q.picks, r.path, r.after.at, r.after.picks) {
      assert HopAt(m, hop, Head(s.picks));
      OneHop(g, s.at, s.picks, hop);
      FollowsConcat(g, s.at, s.picks, [hop], q.at, q.picks, r.path, r.after.at, r.after.picks);
    }
  }

  // ----- Every handle is wired exactly once -----

  ghost function EdgeSources(es: seq<Edge>): multiset<Pos> {
    if es == [] then multiset{} else EdgeSources(es[..|es| - 1]) + multiset{From(es[|es| - 1])}
  }

  lemma {:induction false} EdgeCounted(es: seq<Edge>, e: Edge)
    ensures e in es ==> EdgeSources(es)[From(e)] >= 1
    decreases |es|
  {
    if es != [] {
      EdgeCounted(es[..|es| - 1], e);
      assert es == es[..|es| - 1] + [es[|es| - 1]];
    }
  }

  /** The handles of the steps of a block: one for a call, one per case and one for "false" for a branch. */
  ghost function Handles(b: Block): multiset<Pos>
    decreases b
  {
    match b
    case BNil => multiset{}
    case BCons(n, rest) => NodeHandles(n) + Handles(rest)
  }

  ghost function NodeHandles(n: Node): multiset<Pos>
    decreases n
  {
    match n
    case CallN(id, _) => multiset{Pos(id, SOURCE)}
    case BranchN(id, arms) => ArmHandles(id, arms, 0)
    case _ => multiset{}
  }

  ghost function ArmHandles(id: Id, arms: NodeArms, i: nat): multiset<Pos>
    decreases arms
  {
    match arms
    case CaseN(_, body, rest) => multiset{Pos(id, CaseId(i))} + Handles(body) + ArmHandles(id, rest, i + 1)
    case ElseN(body) => multiset{Pos(id, FALSE)} + Handles(body)
  }

  ghost predicate Simple(m: multiset<Pos>) {
    forall p :: m[p] <= 1
  }

  lemma SimpleParts(m: multiset<Pos>, n: multiset<Pos>)
    requires Simple(m + n)
    ensures Simple(m) && Simple(n)
  {
    assert forall p :: (m + n)[p] == m[p] + n[p];
  }

  lemma {:induction false} EdgesConserve(g: Building, incoming: seq<Pos>, target: Id)
    requires AppendEdges(g, incoming, target).Ok? && Simple(EdgeSources(g.edges) + multiset(incoming))
    ensures EdgeSources(AppendEdges(g, incoming, target).value.edges) == EdgeSources(g.edges) + multiset(incoming)
    decreases |incoming|
  {
    if incoming != [] {
      hide EdgeSources, Simple;
      var p := incoming[0];
      var e := Edge(p.node, p.handle, target);
      assert From(e) == p && incoming == [p] + incoming[1..];
      assert multiset(incoming) == multiset{p} + multiset(incoming[1..]);
      NewEdge(g.edges, e, multiset(incoming[1..]));
      OneMore(g.edges, e, multiset(incoming[1..]));
      EdgesConserve(AppendEdge(g, p, target).value, incoming[1..], target);
    }
  }

  lemma NewEdge(es: seq<Edge>, e: Edge, others: multiset<Pos>)
    requires Simple(EdgeSources(es) + (multiset{From(e)} + others))
    ensures e !in es
  {
    EdgeCounted(es, e);
    assert (EdgeSources(es) + (multiset{From(e)} + others))[From(e)] <= 1;
  }

  lemma OneMore(es: seq<Edge>, e: Edge, others: multiset<Pos>)
    ensures EdgeSources(es + [e]) + others == EdgeSources(es) + (multiset{From(e)} + others)
  {
    assert (es + [e])[..|es|] == es;
  }

  /** An end node for the first exit uses it up. */
  lemma EndConserves(ctx: Context, t: Terminal, p: Pos, alone: bool, g: Building, others: multiset<Pos>)
    requires ContextOk(ctx) && AppendEnd(ctx, t, p, alone, g).Ok? && Simple(EdgeSources(g.edges) + (multiset{p} + others))
    ensures EdgeSources(AppendEnd(ctx, t, p, alone, g).value.edges) + others == EdgeSources(g.edges) + (multiset{p} + others)
  {
    AppendEndGrows(ctx, t, p, alone, g);
    hide AppendEnd, EdgeSources, Simple;
    var h := AppendEnd(ctx, t, p, alone, g).value;
    var e := Edge(p.node, p.handle, h.nodes[|g.nodes|].id);
    assert From(e) == p;
    NewEdge(g.edges, e, others);
    OneMore(g.edges, e, others);
  }

  lemma {:induction false} EndsConserve(ctx: Context, t: Terminal, incoming: seq<Pos>, alone: bool, g: Building)
    requires ContextOk(ctx) && AppendEnds(ctx, t, incoming, alone, g).Ok? && Simple(EdgeSources(g.edges) + multiset(incoming))
    ensures EdgeSources(AppendEnds(ctx, t, incoming, alone, g).value.edges) == EdgeSources(g.edges) + multiset(incoming)
    decreases |incoming|
  {
    if incoming != [] {
      hide AppendEnd, EdgeSources, Simple;
      var p := incoming[0];
      assert incoming == [p] + incoming[1..];
      assert multiset(incoming) == multiset{p} + multiset(incoming[1..]);
      EndConserves(ctx, t, p, alone, g, multiset(incoming[1..]));
      EndsConserve(ctx, t, incoming[1..], alone, AppendEnd(ctx, t, p, alone, g).value);
    }
  }

  /** Conservation: a pending exit or a new handle is used up by exactly one edge or is pending at the end. */
  lemma {:induction false} BlockConserves(ctx: Context, b: Block, incoming: seq<Pos>, g: Building)
    requires ContextOk(ctx) && LowerBlock(ctx, b, incoming, g).Ok?
    requires Simple(EdgeSources(g.edges) + multiset(incoming) + Handles(b))
    ensures var r := LowerBlock(ctx, b, incoming, g).value;
            EdgeSources(r.0.edges) + multiset(r.1) == EdgeSources(g.edges) + multiset(incoming) + Handles(b)
    decreases b
  {
    if b.BCons? {
      var l := LowerNode(ctx, b.head, incoming, g).value;
      var all := EdgeSources(g.edges) + multiset(incoming) + Handles(b);
      assert all == (EdgeSources(g.edges) + multiset(incoming) + NodeHandles(b.head)) + Handles(b.tail);
      SimpleParts(EdgeSources(g.edges) + multiset(incoming) + NodeHandles(b.head), Handles(b.tail));
      NodeConserves(ctx, b.head, incoming, g);
      BlockConserves(ctx, b.tail, l.1, l.0);
    }
  }

  lemma {:induction false} NodeConserves(ctx: Context, n: Node, incoming: seq<Pos>, g: Building)
    requires ContextOk(ctx) && LowerNode(ctx, n, incoming, g).Ok?
    requires Simple(EdgeSources(g.edges) + multiset(incoming) + NodeHandles(n))
    ensures var r := LowerNode(ctx, n, incoming, g).value;
            EdgeSources(r.0.edges) + multiset(r.1) == EdgeSources(g.edges) + multiset(incoming) + NodeHandles(n)
    decreases n
  {
    SimpleParts(EdgeSources(g.edges) + multiset(incoming), NodeHandles(n));
    match n
    case BindN(_, _, _) =>
    case TermN(id, output, step, _) =>
      EndsConserve(ctx, Terminal(id, output, step), incoming, |incoming| == 1, g);
    case CallN(id, _) =>
      EdgesConserve(g.(visited := g.visited + {id}), incoming, id);
    case BranchN(id, arms) =>
      var h := AppendEdges(g.(visited := g.visited + {id}), incoming, id).value;
      EdgesConserve(g.(visited := g.visited + {id}), incoming, id);
      ArmsConserve(ctx, id, arms, 0, h);
  }

  lemma SimpleFirst(s: multiset<Pos>, e: multiset<Pos>, h: multiset<Pos>, later: multiset<Pos>)
    requires Simple(s + (e + h + later))
    ensures Simple(s + e + h) && Simple(s + e + h + later)
  {
    assert s + (e + h + later) == (s + e + h) + later;
    SimpleParts(s + e + h, later);
  }

  lemma SimpleNext(all: multiset<Pos>, later: multiset<Pos>, s: multiset<Pos>, x: multiset<Pos>)
    requires Simple(all + later) && s + x == all
    ensures Simple(s + later)
  {
    assert all + later == (s + later) + x;
    SimpleParts(s + later, x);
  }

  lemma Sums(s: multiset<Pos>, e: multiset<Pos>, h: multiset<Pos>, later: multiset<Pos>,
             s1: multiset<Pos>, x1: multiset<Pos>, s2: multiset<Pos>, x2: multiset<Pos>)
    requires s1 + x1 == s + e + h && s2 + x2 == s1 + later
    ensures s2 + (x1 + x2) == s + (e + h + later)
  {
    assert s2 + (x1 + x2) == (s2 + x2) + x1 == (s1 + x1) + later;
  }

  lemma {:induction false} ArmsConserve(ctx: Context, id: Id, arms: NodeArms, i: nat, g: Building)
    requires ContextOk(ctx) && LowerArms(ctx, id, arms, i, g).Ok?
    requires Simple(EdgeSources(g.edges) + ArmHandles(id, arms, i))
    ensures var r := LowerArms(ctx, id, arms, i, g).value;
            EdgeSources(r.0.edges) + multiset(r.1) == EdgeSources(g.edges) + ArmHandles(id, arms, i)
    decreases arms
  {
    hide EdgeSources, Handles, Simple;
    match arms
    case CaseN(_, body, rest) =>
      var entry := [Pos(id, CaseId(i))];
      var l := LowerBlock(ctx, body, entry, g).value;
      var q := LowerArms(ctx, id, rest, i + 1, l.0).value;
      var later := ArmHandles(id, rest, i + 1);
      SimpleFirst(EdgeSources(g.edges), multiset(entry), Handles(body), later);
      BlockConserves(ctx, body, entry, g);
      SimpleNext(EdgeSources(g.edges) + multiset(entry) + Handles(body), later, EdgeSources(l.0.edges), multiset(l.1));
      ArmsConserve(ctx, id, rest, i + 1, l.0);
      assert multiset(l.1 + q.1) == multiset(l.1) + multiset(q.1);
      Sums(EdgeSources(g.edges), multiset(entry), Handles(body), later, EdgeSources(l.0.edges), multiset(l.1), EdgeSources(q.0.edges), multiset(q.1));
    case ElseN(body) =>
      assert EdgeSources(g.edges) + ArmHandles(id, arms, i) == EdgeSources(g.edges) + multiset([Pos(id, FALSE)]) + Handles(body);
      BlockConserves(ctx, body, [Pos(id, FALSE)], g);
  }

  // ----- Every step is visited -----

  lemma {:induction false} BlockVisits(ctx: Context, b: Block, incoming: seq<Pos>, g: Building)
    requires ContextOk(ctx) && LowerBlock(ctx, b, incoming, g).Ok?
    ensures forall s :: s in Steps(b) ==> s.id in LowerBlock(ctx, b, incoming, g).value.0.visited
    decreases b
  {
    if b.BCons? {
      var l := LowerNode(ctx, b.head, incoming, g).value;
      NodeVisits(ctx, b.head, incoming, g);
      BlockVisits(ctx, b.tail, l.1, l.0);
      BlockGrows(ctx, b.tail, l.1, l.0);
    }
  }

  lemma {:induction false} NodeVisits(ctx: Context, n: Node, incoming: seq<Pos>, g: Building)
    requires ContextOk(ctx) && LowerNode(ctx, n, incoming, g).Ok?
    ensures forall s :: s in NodeSteps(n) ==> s.id in LowerNode(ctx, n, incoming, g).value.0.visited
    decreases n
  {
    if n.CallN? || n.BranchN? {
      var h := AppendEdges(g.(visited := g.visited + {n.id}), incoming, n.id).value;
      EdgesGrow(g.(visited := g.visited + {n.id}), incoming, n.id);
      if n.BranchN? {
        ArmsVisit(ctx, n.id, n.arms, 0, h);
        ArmsGrow(ctx, n.id, n.arms, 0, h);
      }
    }
  }

  lemma {:induction false} ArmsVisit(ctx: Context, id: Id, arms: NodeArms, i: nat, g: Building)
    requires ContextOk(ctx) && LowerArms(ctx, id, arms, i, g).Ok?
    ensures forall s :: s in ArmSteps(arms) ==> s.id in LowerArms(ctx, id, arms, i, g).value.0.visited
    decreases arms
  {
    match arms
    case CaseN(_, body, rest) =>
      var l := LowerBlock(ctx, body, [Pos(id, CaseId(i))], g).value;
      BlockVisits(ctx, body, [Pos(id, CaseId(i))], g);
      ArmsVisit(ctx, id, rest, i + 1, l.0);
      ArmsGrow(ctx, id, rest, i + 1, l.0);
    case ElseN(body) =>
      BlockVisits(ctx, body, [Pos(id, FALSE)], g);
  }

  // ----- A block that is closed leaves nothing pending -----

  /** Every path through the block reaches a terminal at its end. */
  predicate Closed(b: Block)
    decreases b
  {
    b.BCons? && if b.tail.BNil? then b.head.TermN? || (b.head.BranchN? && ClosedArms(b.head.arms)) else Closed(b.tail)
  }

  predicate ClosedArms(arms: NodeArms)
    decreases arms
  {
    match arms
    case CaseN(_, body, rest) => Closed(body) && ClosedArms(rest)
    case ElseN(body) => Closed(body)
  }

  lemma {:induction false} ClosedEnds(ctx: Context, b: Block, incoming: seq<Pos>, g: Building)
    requires ContextOk(ctx) && Closed(b) && LowerBlock(ctx, b, incoming, g).Ok?
    ensures LowerBlock(ctx, b, incoming, g).value.1 == []
    decreases b
  {
    var l := LowerNode(ctx, b.head, incoming, g).value;
    if b.tail.BCons? {
      ClosedEnds(ctx, b.tail, l.1, l.0);
    } else {
      assert LowerBlock(ctx, b.tail, l.1, l.0) == Ok((l.0, l.1));
      if b.head.BranchN? {
        ClosedArmsEnd(ctx, b.head.id, b.head.arms, 0, AppendEdges(g.(visited := g.visited + {b.head.id}), incoming, b.head.id).value);
      }
    }
  }

  lemma {:induction false} ClosedArmsEnd(ctx: Context, id: Id, arms: NodeArms, i: nat, g: Building)
    requires ContextOk(ctx) && ClosedArms(arms) && LowerArms(ctx, id, arms, i, g).Ok?
    ensures LowerArms(ctx, id, arms, i, g).value.1 == []
    decreases arms
  {
    match arms
    case CaseN(_, body, rest) =>
      ClosedEnds(ctx, body, [Pos(id, CaseId(i))], g);
      ClosedArmsEnd(ctx, id, rest, i + 1, LowerBlock(ctx, body, [Pos(id, CaseId(i))], g).value.0);
    case ElseN(body) =>
      ClosedEnds(ctx, body, [Pos(id, FALSE)], g);
  }

  // ----- Edges lead forward -----

  /** The steps of the block are ranked by their position, from `lo` on. */
  ghost predicate RanksFrom(rank: map<Id, nat>, steps: seq<Step>, lo: nat) {
    forall i :: 0 <= i < |steps| ==> steps[i].id in rank && rank[steps[i].id] == lo + i
  }

  ghost predicate Upward(rank: map<Id, nat>, g: Building) {
    (forall id :: id in rank ==> HasNode(g, id)) &&
    forall e :: e in g.edges ==> e.source in rank && (e.target in rank ==> rank[e.source] < rank[e.target])
  }

  ghost predicate BelowRank(rank: map<Id, nat>, ps: seq<Pos>, lo: nat) {
    forall p :: p in ps ==> p.node in rank && rank[p.node] < lo
  }

  lemma {:induction false} EdgesUp(g: Building, incoming: seq<Pos>, target: Id, rank: map<Id, nat>)
    requires AppendEdges(g, incoming, target).Ok? && Upward(rank, g)
    requires target in rank && BelowRank(rank, incoming, rank[target])
    ensures Upward(rank, AppendEdges(g, incoming, target).value)
    decreases |incoming|
  {
    if incoming != [] {
      EdgesUp(AppendEdge(g, incoming[0], target).value, incoming[1..], target, rank);
    }
  }

  lemma {:induction false} EndsUp(ctx: Context, t: Terminal, incoming: seq<Pos>, alone: bool, g: Building, rank: map<Id, nat>, lo: nat)
    requires ContextOk(ctx) && AppendEnds(ctx, t, incoming, alone, g).Ok? && Upward(rank, g) && BelowRank(rank, incoming, lo)
    ensures Upward(rank, AppendEnds(ctx, t, incoming, alone, g).value)
    decreases |incoming|
  {
    if incoming != [] {
      var h := AppendEnd(ctx, t, incoming[0], alone, g).value;
      AppendEndGrows(ctx, t, incoming[0], alone, g);
      assert h.nodes[|g.nodes|].id !in rank;
      forall id | id in rank
        ensures HasNode(h, id)
      {
        var i :| 0 <= i < |g.nodes| && g.nodes[i].id == id;
        assert h.nodes[i].id == id;
      }
      EndsUp(ctx, t, incoming[1..], alone, h, rank, lo);
    }
  }

  lemma {:induction false} BlockUp(ctx: Context, b: Block, incoming: seq<Pos>, g: Building, rank: map<Id, nat>, lo: nat)
    requires ContextOk(ctx) && LowerBlock(ctx, b, incoming, g).Ok? && Upward(rank, g)
    requires RanksFrom(rank, Steps(b), lo) && BelowRank(rank, incoming, lo)
    ensures var r := LowerBlock(ctx, b, incoming, g).value;
            Upward(rank, r.0) && BelowRank(rank, r.1, lo + |Steps(b)|)
    decreases b
  {
    if b.BCons? {
      var l := LowerNode(ctx, b.head, incoming, g).value;
      RanksParts(rank, NodeSteps(b.head), Steps(b.tail), lo);
      NodeUp(ctx, b.head, incoming, g, rank, lo);
      BlockUp(ctx, b.tail, l.1, l.0, rank, lo + |NodeSteps(b.head)|);
    }
  }

  lemma RanksParts(rank: map<Id, nat>, a: seq<Step>, b: seq<Step>, lo: nat)
    requires RanksFrom(rank, a + b, lo)
    ensures RanksFrom(rank, a, lo) && RanksFrom(rank, b, lo + |a|)
  {
    assert forall i :: 0 <= i < |a| ==> (a + b)[i] == a[i];
    assert forall i :: 0 <= i < |b| ==> (a + b)[|a| + i] == b[i];
  }

  lemma {:induction false} NodeUp(ctx: Context, n: Node, incoming: seq<Pos>, g: Building, rank: map<Id, nat>, lo: nat)
    requires ContextOk(ctx) && LowerNode(ctx, n, incoming, g).Ok? && Upward(rank, g)
    requires RanksFrom(rank, NodeSteps(n), lo) && BelowRank(rank, incoming, lo)
    ensures var r := LowerNode(ctx, n, incoming, g).value;
            Upward(rank, r.0) && BelowRank(rank, r.1, lo + |NodeSteps(n)|)
    decreases n
  {
    match n
    case BindN(_, _, _) =>
    case TermN(id, output, step, _) =>
      EndsUp(ctx, Terminal(id, output, step), incoming, |incoming| == 1, g, rank, lo);
    case CallN(id, call) =>
      assert NodeSteps(n)[0] == CallStep(id, call);
      EdgesUp(g.(visited := g.visited + {id}), incoming, id, rank);
    case BranchN(id, arms) =>
      assert NodeSteps(n)[0] == FlatBranch(id, arms);
      var h := AppendEdges(g.(visited := g.visited + {id}), incoming, id).value;
      EdgesUp(g.(visited := g.visited + {id}), incoming, id, rank);
      RanksParts(rank, [FlatBranch(id, arms)], ArmSteps(arms), lo);
      ArmsUp(ctx, id, arms, 0, h, rank, lo + 1);
  }

  lemma {:induction false} ArmsUp(ctx: Context, id: Id, arms: NodeArms, i: nat, g: Building, rank: map<Id, nat>, lo: nat)
    requires ContextOk(ctx) && LowerArms(ctx, id, arms, i, g).Ok? && Upward(rank, g)
    requires RanksFrom(rank, ArmSteps(arms), lo) && id in rank && rank[id] < lo
    ensures var r := LowerArms(ctx, id, arms, i, g).value;
            Upward(rank, r.0) && BelowRank(rank, r.1, lo + |ArmSteps(arms)|)
    decreases arms
  {
    match arms
    case CaseN(_, body, rest) =>
      var l := LowerBlock(ctx, body, [Pos(id, CaseId(i))], g).value;
      RanksParts(rank, Steps(body), ArmSteps(rest), lo);
      BlockUp(ctx, body, [Pos(id, CaseId(i))], g, rank, lo);
      ArmsUp(ctx, id, rest, i + 1, l.0, rank, lo + |Steps(body)|);
    case ElseN(body) =>
      BlockUp(ctx, body, [Pos(id, FALSE)], g, rank, lo);
  }
}
