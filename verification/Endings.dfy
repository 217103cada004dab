/**
 Which terminals get an end node: those at which some exit is pending when the walk over the bodies comes to them. After
 a branch of which every arm has ended nothing is pending until the next call or branch.
 */
module Endings {
  import opened Text
  import opened FlowSemantics
  import opened WorkflowGraph
  import opened Lowering
  import opened ControlFlow
  import opened Shape

  // ----- Pending exits, on the tree -----

  predicate PendingAfter(b: Block, pending: bool)
    decreases b
  {
    match b
    case BNil => pending
    case BCons(n, rest) => PendingAfter(rest, PendingAfterNode(n, pending))
  }

  predicate PendingAfterNode(n: Node, pending: bool)
    decreases n
  {
    match n
    case CallN(_, _) => true
    case BindN(_, _, _) => pending
    case TermN(_, _, _, _) => false
    case BranchN(_, arms) => PendingAfterArms(arms)
  }

  predicate PendingAfterArms(arms: NodeArms)
    decreases arms
  {
    match arms
    case CaseN(_, body, rest) => PendingAfter(body, true) || PendingAfterArms(rest)
    case ElseN(body) => PendingAfter(body, true)
  }

  /** The terminals at which an exit is pending. */
  function Entered(b: Block, pending: bool): seq<Terminal>
    decreases b
  {
    match b
    case BNil => []
    case BCons(n, rest) => EnteredNode(n, pending) + Entered(rest, PendingAfterNode(n, pending))
  }

  function EnteredNode(n: Node, pending: bool): seq<Terminal>
    decreases n
  {
    match n
    case TermN(id, output, step, _) => if pending then [Terminal(id, output, step)] else []
    case BranchN(_, arms) => EnteredArms(arms)
    case _ => []
  }

  function EnteredArms(arms: NodeArms): seq<Terminal>
    decreases arms
  {
    match arms
    case CaseN(_, body, rest) => Entered(body, true) + EnteredArms(rest)
    case ElseN(body) => Entered(body, true)
  }

  // ----- What lowering makes of them -----

  ghost predicate IsMade(ctx: Context, t: Terminal, nodes: seq<GNode>)
    requires ContextOk(ctx)
  {
    exists n, at, alone :: n in nodes && MadeFrom(ctx, n, t, at, alone)
  }

  /** The nodes added are end nodes of these terminals, and each of the terminals has one. */
  ghost predicate Yields(ctx: Context, ts: seq<Terminal>, g: Building, h: Building)
    requires ContextOk(ctx)
  {
    OnlyEnds(ctx, ts, g, h) && forall t :: t in ts ==> IsMade(ctx, t, h.nodes)
  }

  lemma StaysMade(ctx: Context, t: Terminal, nodes: seq<GNode>, more: seq<GNode>)
    requires ContextOk(ctx) && IsMade(ctx, t, nodes) && nodes <= more
    ensures IsMade(ctx, t, more)
  {
    var n, at, alone :| n in nodes && MadeFrom(ctx, n, t, at, alone);
    assert n in more;
  }

  lemma YieldsConcat(ctx: Context, a: seq<Terminal>, b: seq<Terminal>, g: Building, h: Building, k: Building)
    requires ContextOk(ctx) && Yields(ctx, a, g, h) && Yields(ctx, b, h, k)
    ensures Yields(ctx, a + b, g, k)
  {
    hide EndFor, IsMade;
    OnlyEndsConcat(ctx, a, b, g, h, k);
    forall t | t in a
      ensures IsMade(ctx, t, k.nodes)
    {
      StaysMade(ctx, t, h.nodes, k.nodes);
    }
  }

  lemma NothingYielded(ctx: Context, g: Building, h: Building)
    requires ContextOk(ctx) && g.nodes == h.nodes
    ensures Yields(ctx, [], g, h)
  {
  }

  lemma TerminalYields(ctx: Context, t: Terminal, incoming: seq<Pos>, alone: bool, g: Building)
    requires ContextOk(ctx) && AppendEnds(ctx, t, incoming, alone, g).Ok?
    ensures Yields(ctx, if incoming != [] then [t] else [], g, AppendEnds(ctx, t, incoming, alone, g).value)
  {
    EndsAddEnds(ctx, t, incoming, alone, g);
    if incoming == [] {
      NothingYielded(ctx, g, g);
    } else {
      var h1 := AppendEnd(ctx, t, incoming[0], alone, g).value;
      AppendEndGrows(ctx, t, incoming[0], alone, g);
      EndsGrow(ctx, t, incoming[1..], alone, h1);
      assert h1.nodes[|g.nodes|] in h1.nodes;
      StaysMade(ctx, t, h1.nodes, AppendEnds(ctx, t, incoming, alone, g).value.nodes);
    }
  }

  lemma {:induction false} BlockYields(ctx: Context, b: Block, incoming: seq<Pos>, g: Building)
    requires ContextOk(ctx) && LowerBlock(ctx, b, incoming, g).Ok?
    ensures var (h, exits) := LowerBlock(ctx, b, incoming, g).value;
            (exits != [] <==> PendingAfter(b, incoming != [])) && Yields(ctx, Entered(b, incoming != []), g, h)
    decreases b
  {
    hide Yields;
    if b.BCons? {
      NodeYields(ctx, b.head, incoming, g);
      var r := LowerNode(ctx, b.head, incoming, g).value;
      BlockYields(ctx, b.tail, r.1, r.0);
      YieldsConcat(ctx, EnteredNode(b.head, incoming != []), Entered(b.tail, r.1 != []), g, r.0, LowerBlock(ctx, b, incoming, g).value.0);
    } else {
      NothingYielded(ctx, g, g);
    }
  }

  lemma {:induction false} NodeYields(ctx: Context, n: Node, incoming: seq<Pos>, g: Building)
    requires ContextOk(ctx) && LowerNode(ctx, n, incoming, g).Ok?
    ensures var (h, exits) := LowerNode(ctx, n, incoming, g).value;
            (exits != [] <==> PendingAfterNode(n, incoming != [])) && Yields(ctx, EnteredNode(n, incoming != []), g, h)
    decreases n
  {
    hide Yields;
    match n
    case BindN(_, _, _) => NothingYielded(ctx, g, g);
    case TermN(id, output, step, _) => TerminalYields(ctx, Terminal(id, output, step), incoming, |incoming| == 1, g);
    case CallN(id, _) =>
      EdgesGrow(g.(visited := g.visited + {id}), incoming, id);
      NothingYielded(ctx, g, LowerNode(ctx, n, incoming, g).value.0);
    case BranchN(id, arms) =>
      var h := AppendEdges(g.(visited := g.visited + {id}), incoming, id).value;
      EdgesGrow(g.(visited := g.visited + {id}), incoming, id);
      NothingYielded(ctx, g, h);
      ArmsYield(ctx, id, arms, 0, h);
      YieldsConcat(ctx, [], EnteredArms(arms), g, h, LowerArms(ctx, id, arms, 0, h).value.0);
      assert [] + EnteredArms(arms) == EnteredArms(arms);
  }

  lemma {:induction false} ArmsYield(ctx: Context, id: Id, arms: NodeArms, i: nat, g: Building)
    requires ContextOk(ctx) && LowerArms(ctx, id, arms, i, g).Ok?
    ensures var (h, exits) := LowerArms(ctx, id, arms, i, g).value;
            (exits != [] <==> PendingAfterArms(arms)) && Yields(ctx, EnteredArms(arms), g, h)
    decreases arms
  {
    hide Yields;
    match arms
    case CaseN(_, body, rest) =>
      var l := LowerBlock(ctx, body, [Pos(id, CaseId(i))], g).value.0;
      BlockYields(ctx, body, [Pos(id, CaseId(i))], g);
      ArmsYield(ctx, id, rest, i + 1, l);
      YieldsConcat(ctx, Entered(body, true), EnteredArms(rest), g, l, LowerArms(ctx, id, rest, i + 1, l).value.0);
    case ElseN(body) => BlockYields(ctx, body, [Pos(id, FALSE)], g);
  }
}
