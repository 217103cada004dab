/**
 The walk over the flat form by ids computes what the lowering of the tree computes, whenever the flat form is a
 flattening of the tree in which no id is repeated.
 */
module Refinement {
  import opened Prelude
  import opened Text
  import opened FlowSemantics
  import opened Scoping
  import opened Lowering
  import opened Partition

  // ----- What loading establishes -----

  lemma {:induction false} IndexStepsFacts(steps: seq<Step>, i: nat, index: map<Id, nat>)
    requires i <= |steps| && IndexSteps(steps, i, index).Ok?
    requires forall id :: id in index ==> index[id] < i && steps[index[id]].id == id
    requires forall k :: 0 <= k < i ==> steps[k].id in index && index[steps[k].id] == k && CallOk(steps[k])
    ensures var r := IndexSteps(steps, i, index).value;
            (forall id :: id in r ==> r[id] < |steps| && steps[r[id]].id == id) &&
            forall k :: 0 <= k < |steps| ==> steps[k].id in r && r[steps[k].id] == k && CallOk(steps[k])
    decreases |steps| - i
  {
    if i < |steps| {
      IndexStepsFacts(steps, i + 1, index[steps[i].id := i]);
    }
  }

  lemma {:induction false} IndexBindingsFacts(bs: seq<Binding>, acc: set<Id>)
    requires IndexBindings(bs, acc).Ok?
    ensures forall x :: x in IndexBindings(bs, acc).value <==> x in acc || x in BindingIds(bs)
    decreases |bs|
  {
    if bs != [] {
      IndexBindingsFacts(bs[1..], acc + {bs[0].id});
      assert BindingIds(bs) == [bs[0].id] + BindingIds(bs[1..]);
    }
  }

  lemma {:induction false} IndexTerminalsFacts(ts: seq<Terminal>, acc: map<Id, Terminal>)
    requires IndexTerminals(ts, acc).Ok?
    ensures var r := IndexTerminals(ts, acc).value;
            (forall x :: x in r <==> x in acc || x in TerminalIds(ts)) &&
            (forall x :: x in acc ==> r[x] == acc[x]) &&
            forall t :: t in ts ==> t.id in r && r[t.id] == t
    decreases |ts|
  {
    if ts != [] {
      IndexTerminalsFacts(ts[1..], acc[ts[0].id := ts[0]]);
      assert TerminalIds(ts) == [ts[0].id] + TerminalIds(ts[1..]);
    }
  }

  /** What the context holds after loading, structured outputs inferred or not. */
  ghost predicate Loaded(flow: Flow, ctx: Context) {
    ContextOk(ctx) && ctx.steps == flow.steps && ctx.variables == flow.variables && flow.warnings == [] &&
    (forall k :: 0 <= k < |flow.steps| ==>
       flow.steps[k].id in ctx.index && ctx.index[flow.steps[k].id] == k && CallOk(flow.steps[k])) &&
    (forall x :: x in ctx.bindings <==> x in BindingIds(flow.bindings)) &&
    (forall x :: x in ctx.terminals <==> x in TerminalIds(flow.terminals)) &&
    forall t :: t in flow.terminals ==> t.id in ctx.terminals && ctx.terminals[t.id] == t
  }

  lemma LoadFacts(flow: Flow)
    requires Load(flow).Ok?
    ensures Loaded(flow, Load(flow).value)
  {
    IndexStepsFacts(flow.steps, 0, map[]);
    IndexBindingsFacts(flow.bindings, {});
    IndexTerminalsFacts(flow.terminals, map[]);
  }

  // ----- The flat form holds the tree -----

  ghost predicate Holds(ctx: Context, b: Block)
    requires ContextOk(ctx)
    decreases b
  {
    match b
    case BNil => true
    case BCons(n, rest) => HoldsNode(ctx, n) && Holds(ctx, rest)
  }

  ghost predicate IsStep(ctx: Context, s: Step)
    requires ContextOk(ctx)
  {
    s.id !in ctx.bindings && s.id !in ctx.terminals && s.id in ctx.index && ctx.steps[ctx.index[s.id]] == s
  }

  ghost predicate HoldsNode(ctx: Context, n: Node)
    requires ContextOk(ctx)
    decreases n
  {
    match n
    case CallN(id, call) => IsStep(ctx, CallStep(id, call))
    case BindN(id, _, _) => id in ctx.bindings
    case TermN(id, output, step, _) => id !in ctx.bindings && id in ctx.terminals && ctx.terminals[id] == Terminal(id, output, step)
    case BranchN(id, arms) => IsStep(ctx, FlatBranch(id, arms)) && HoldsArms(ctx, arms)
  }

  ghost predicate HoldsArms(ctx: Context, arms: NodeArms)
    requires ContextOk(ctx)
    decreases arms
  {
    match arms
    case CaseN(_, body, rest) => Holds(ctx, body) && HoldsArms(ctx, rest)
    case ElseN(body) => Holds(ctx, body)
  }

  /** All objects of the three lists are in the context, each as what it is. */
  ghost predicate HoldsLists(ctx: Context, s: seq<Step>, t: seq<Terminal>, b: seq<Binding>)
    requires ContextOk(ctx)
  {
    (forall x :: x in s ==> IsStep(ctx, x)) &&
    (forall x :: x in t ==> x.id !in ctx.bindings && x.id in ctx.terminals && ctx.terminals[x.id] == x) &&
    forall x :: x in b ==> x.id in ctx.bindings
  }

  lemma {:induction false} ListsHold(ctx: Context, p: Producers, b: Block)
    requires ContextOk(ctx) && HoldsLists(ctx, Steps(b), Terminals(b), Bindings(p, b))
    ensures Holds(ctx, b)
    decreases b
  {
    if b.BCons? {
      NodeListsHold(ctx, p, b.head);
      ListsHold(ctx, AfterNode(p, b.head), b.tail);
    }
  }

  lemma {:induction false} NodeListsHold(ctx: Context, p: Producers, n: Node)
    requires ContextOk(ctx) && HoldsLists(ctx, NodeSteps(n), NodeTerminals(n), NodeBindings(p, n))
    ensures HoldsNode(ctx, n)
    decreases n
  {
    match n
    case CallN(id, call) => assert CallStep(id, call) in NodeSteps(n);
    case BindN(id, _, _) => assert NodeBindings(p, n)[0] in NodeBindings(p, n);
    case TermN(id, output, step, _) => assert Terminal(id, output, step) in NodeTerminals(n);
    case BranchN(id, arms) =>
      assert FlatBranch(id, arms) in NodeSteps(n);
      ArmListsHold(ctx, p, arms);
  }

  lemma {:induction false} ArmListsHold(ctx: Context, p: Producers, arms: NodeArms)
    requires ContextOk(ctx) && HoldsLists(ctx, ArmSteps(arms), ArmTerminals(arms), ArmBindings(p, arms))
    ensures HoldsArms(ctx, arms)
    decreases arms
  {
    match arms
    case CaseN(_, body, rest) =>
      ListsHold(ctx, p, body);
      ArmListsHold(ctx, p, rest);
    case ElseN(body) =>
      ListsHold(ctx, p, body);
  }

  lemma IdsIn(s: seq<Step>, t: seq<Terminal>, b: seq<Binding>)
    ensures forall x :: x in s ==> x.id in StepIds(s)
    ensures forall x :: x in t ==> x.id in TerminalIds(t)
    ensures forall x :: x in b ==> x.id in BindingIds(b)
  {
    forall x | x in s
      ensures x.id in StepIds(s)
    {
      var k :| 0 <= k < |s| && s[k] == x;
      assert StepIds(s)[k] == x.id;
    }
    forall x | x in t
      ensures x.id in TerminalIds(t)
    {
      var k :| 0 <= k < |t| && t[k] == x;
      assert TerminalIds(t)[k] == x.id;
    }
    forall x | x in b
      ensures x.id in BindingIds(b)
    {
      var k :| 0 <= k < |b| && b[k] == x;
      assert BindingIds(b)[k] == x.id;
    }
  }

  lemma LoadedIndex(flow: Flow, ctx: Context, x: Step)
    requires Loaded(flow, ctx) && x in flow.steps
    ensures x.id in ctx.index && ctx.steps[ctx.index[x.id]] == x
  {
    var k :| 0 <= k < |flow.steps| && flow.steps[k] == x;
    assert flow.steps[k].id in ctx.index;
  }

  lemma LoadedHolds(flow: Flow, ctx: Context, tree: Block)
    requires Loaded(flow, ctx) && NoDup(AllIds(tree))
    requires flow.steps == Steps(tree) && flow.terminals == Terminals(tree) && flow.bindings == Bindings(map[], tree)
    ensures Holds(ctx, tree)
    ensures forall x :: x in ctx.index ==> x !in ctx.bindings && x !in ctx.terminals
  {
    hide AllIds, Steps, Terminals, Bindings;
    KindsApart(map[], tree);
    IdsIn(flow.steps, flow.terminals, flow.bindings);
    forall x | x in ctx.index
      ensures x in StepIds(flow.steps)
    {
      assert ctx.steps[ctx.index[x]] in flow.steps;
    }
    forall x | x in flow.steps
      ensures IsStep(ctx, x)
    {
      LoadedIndex(flow, ctx, x);
    }
    ListsHold(ctx, map[], tree);
  }

  // ----- Bodies name later steps -----

  /** The steps of the block stand in the list from `lo` on, and no other ids do. */
  ghost predicate StandsAt(ctx: Context, steps: seq<Step>, lo: nat)
    requires ContextOk(ctx)
  {
    lo + |steps| <= |ctx.steps| && forall i :: 0 <= i < |steps| ==>
      ctx.steps[lo + i] == steps[i] && steps[i].id in ctx.index && ctx.index[steps[i].id] == lo + i
  }

  lemma StandsParts(ctx: Context, a: seq<Step>, b: seq<Step>, lo: nat)
    requires ContextOk(ctx) && StandsAt(ctx, a + b, lo)
    ensures StandsAt(ctx, a, lo) && StandsAt(ctx, b, lo + |a|)
  {
    assert forall i :: 0 <= i < |a| ==> (a + b)[i] == a[i];
    assert forall i :: 0 <= i < |b| ==> (a + b)[|a| + i] == b[i];
  }

  ghost predicate RankedAt(ctx: Context, k: nat)
    requires ContextOk(ctx)
  {
    k < |ctx.steps| && (ctx.steps[k].BranchStep? ==> BodiesAbove(ctx, ctx.steps[k].cases, ctx.steps[k].elseBody, k + 1))
  }

  lemma {:induction false} BlockRanked(ctx: Context, b: Block, lo: nat)
    requires ContextOk(ctx) && Holds(ctx, b) && StandsAt(ctx, Steps(b), lo)
    requires forall x :: x in ctx.index ==> x !in ctx.bindings && x !in ctx.terminals
    ensures Above(ctx, BodyIds(b), lo)
    ensures forall k :: lo <= k < lo + |Steps(b)| ==> RankedAt(ctx, k)
    decreases b
  {
    if b.BCons? {
      StandsParts(ctx, NodeSteps(b.head), Steps(b.tail), lo);
      NodeRanked(ctx, b.head, lo);
      BlockRanked(ctx, b.tail, lo + |NodeSteps(b.head)|);
    }
  }

  lemma {:induction false} NodeRanked(ctx: Context, n: Node, lo: nat)
    requires ContextOk(ctx) && HoldsNode(ctx, n) && StandsAt(ctx, NodeSteps(n), lo)
    requires forall x :: x in ctx.index ==> x !in ctx.bindings && x !in ctx.terminals
    ensures n.id in ctx.index ==> ctx.index[n.id] >= lo
    ensures forall k :: lo <= k < lo + |NodeSteps(n)| ==> RankedAt(ctx, k)
    decreases n
  {
    match n
    case BranchN(id, arms) =>
      StandsParts(ctx, [FlatBranch(id, arms)], ArmSteps(arms), lo);
      ArmsRanked(ctx, arms, 0, lo + 1);
      assert [FlatBranch(id, arms)][0] == FlatBranch(id, arms);
      assert ctx.steps[lo + 0] == FlatBranch(id, arms);
      assert RankedAt(ctx, lo);
    case CallN(id, call) =>
      assert NodeSteps(n)[0] == CallStep(id, call);
      assert ctx.steps[lo + 0] == CallStep(id, call) && RankedAt(ctx, lo);
    case _ =>
  }

  lemma {:induction false} ArmsRanked(ctx: Context, arms: NodeArms, k: nat, lo: nat)
    requires ContextOk(ctx) && HoldsArms(ctx, arms) && StandsAt(ctx, ArmSteps(arms), lo)
    requires forall x :: x in ctx.index ==> x !in ctx.bindings && x !in ctx.terminals
    ensures BodiesAbove(ctx, FlatCases(arms, k), BodyIds(ElseBlock(arms)), lo)
    ensures forall k :: lo <= k < lo + |ArmSteps(arms)| ==> RankedAt(ctx, k)
    decreases arms
  {
    match arms
    case CaseN(_, body, rest) =>
      StandsParts(ctx, Steps(body), ArmSteps(rest), lo);
      BlockRanked(ctx, body, lo);
      ArmsRanked(ctx, rest, k + 1, lo + |Steps(body)|);
    case ElseN(body) =>
      BlockRanked(ctx, body, lo);
  }

  lemma TreeRanked(flow: Flow, ctx: Context, tree: Block)
    requires Loaded(flow, ctx) && flow.steps == Steps(tree) && Holds(ctx, tree)
    requires forall x :: x in ctx.index ==> x !in ctx.bindings && x !in ctx.terminals
    ensures Ranked(ctx) && Above(ctx, BodyIds(tree), 0)
  {
    hide Holds, Steps, BodyIds;
    assert StandsAt(ctx, Steps(tree), 0);
    BlockRanked(ctx, tree, 0);
    assert forall id :: id in ctx.index ==> RankedAt(ctx, ctx.index[id]);
  }

  // ----- The refinement -----

  lemma {:induction false} SequenceRefines(ctx: Context, b: Block, lo: nat, incoming: seq<Pos>, g: Building)
    requires ContextOk(ctx) && Ranked(ctx) && Above(ctx, BodyIds(b), lo) && Holds(ctx, b)
    ensures WalkSequence(ctx, BodyIds(b), lo, incoming, g) == LowerBlock(ctx, b, incoming, g)
    decreases b
  {
    if b.BCons? {
      var ids := BodyIds(b);
      assert ids[0] == b.head.id && ids[1..] == BodyIds(b.tail);
      var r := LowerNode(ctx, b.head, incoming, g);
      match b.head {
        case BranchN(id, arms) =>
          var h := AppendEdges(g.(visited := g.visited + {id}), incoming, id);
          if h.Ok? {
            CasesRefine(ctx, id, arms, 0, ctx.index[id] + 1, h.value);
          }
        case _ =>
      }
      if r.Ok? {
        SequenceRefines(ctx, b.tail, lo, r.value.1, r.value.0);
      }
    }
  }

  lemma {:induction false} CasesRefine(ctx: Context, id: Id, arms: NodeArms, i: nat, lo: nat, g: Building)
    requires ContextOk(ctx) && Ranked(ctx) && HoldsArms(ctx, arms) && lo <= |ctx.steps|
    requires BodiesAbove(ctx, FlatCases(arms, i), BodyIds(ElseBlock(arms)), lo)
    ensures WalkCases(ctx, id, FlatCases(arms, i), BodyIds(ElseBlock(arms)), lo, g) == LowerArms(ctx, id, arms, i, g)
    decreases arms
  {
    match arms
    case CaseN(cond, body, rest) =>
      var cases := FlatCases(arms, i);
      assert cases[0] == FlatCase(CaseId(i), cond, BodyIds(body)) && cases[1..] == FlatCases(rest, i + 1);
      SequenceRefines(ctx, body, lo, [Pos(id, CaseId(i))], g);
      var r := LowerBlock(ctx, body, [Pos(id, CaseId(i))], g);
      if r.Ok? {
        CasesRefine(ctx, id, rest, i + 1, lo, r.value.0);
      }
    case ElseN(body) =>
      SequenceRefines(ctx, body, lo, [Pos(id, FALSE)], g);
  }
}
