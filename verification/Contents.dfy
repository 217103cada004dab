/**
 What the first stage keeps of a program: its calls, branches with their conditions, plain assignments and outputs, in
 the order of the text, without the code after a `return` or `reply` of the same list.
 */
module Contents {
  import opened Prelude
  import opened Pseudocode
  import opened FlowSemantics
  import opened Elaboration
  import opened Scoping
  import opened ReachingProducers
  import opened Correctness
  import PathExactness

  datatype Item =
    | CallItem(call: CallInfo)
    | BranchItem(conds: seq<Condition>)
    | BindItem(target: string, value: Value)
    | EndItem(output: Output)

  // ----- Of the source -----

  function Conds(arms: Arms): seq<Condition> {
    match arms
    case Case(cond, _, rest) => [cond] + Conds(rest)
    case Else(_) => []
  }

  predicate EndsList(s: Stmt, terminals: set<string>) {
    s.ReturnStmt? || (s.CallStmt? && IsTerminalCall(s.call, terminals))
  }

  function Items(p: Stmts, tail: bool, terminals: set<string>): seq<Item>
    decreases p
  {
    match p
    case SNil => []
    case SCons(s, rest) =>
      StmtItems(s, tail && rest.SNil?, terminals) + if EndsList(s, terminals) then [] else Items(rest, tail, terminals)
  }

  /** The last call or assignment of a program is its output. */
  function StmtItems(s: Stmt, last: bool, terminals: set<string>): seq<Item>
    decreases s
  {
    match s
    case CallStmt(call) =>
      if IsTerminalCall(call, terminals) then [EndItem(Output(Reply, None, FirstValue(call)))]
      else
        [CallItem(call)] +
        (if !last then []
         else if call.target.Some? then [EndItem(Output(LastAssign, call.target, Some(Var(call.target.value))))]
         else [EndItem(Output(LastCall, None, None))])
    case AssignStmt(t, v) => [BindItem(t, v)] + if last then [EndItem(Output(LastAssign, Some(t), Some(v)))] else []
    case ReturnStmt(v) => [EndItem(Output(Return, None, v))]
    case IfStmt(arms) => [BranchItem(Conds(arms))] + ArmItems(arms, last, terminals)
  }

  function ArmItems(arms: Arms, last: bool, terminals: set<string>): seq<Item>
    decreases arms
  {
    match arms
    case Case(_, body, rest) => Items(body, last, terminals) + ArmItems(rest, last, terminals)
    case Else(body) => Items(body, last, terminals)
  }

  // ----- Of the tree -----

  function NodeConds(arms: NodeArms): seq<Condition> {
    match arms
    case CaseN(cond, _, rest) => [cond] + NodeConds(rest)
    case ElseN(_) => []
  }

  function BlockItems(b: Block): seq<Item>
    decreases b
  {
    match b
    case BNil => []
    case BCons(n, rest) => NodeItems(n) + BlockItems(rest)
  }

  function NodeItems(n: Node): seq<Item>
    decreases n
  {
    match n
    case CallN(_, call) => [CallItem(call)]
    case BindN(_, t, v) => [BindItem(t, v)]
    case TermN(_, output, _, _) => [EndItem(output)]
    case BranchN(_, arms) => [BranchItem(NodeConds(arms))] + ArmsItems(arms)
  }

  function ArmsItems(arms: NodeArms): seq<Item>
    decreases arms
  {
    match arms
    case CaseN(_, body, rest) => BlockItems(body) + ArmsItems(rest)
    case ElseN(body) => BlockItems(body)
  }

  lemma {:induction false} AppendItems(a: Block, b: Block)
    ensures BlockItems(Append(a, b)) == BlockItems(a) + BlockItems(b)
    decreases a
  {
    hide NodeItems;
    if a.BCons? {
      AppendItems(a.tail, b);
      Assoc(NodeItems(a.head), BlockItems(a.tail), BlockItems(b));
    }
  }

  lemma {:induction false} ElabKeepsItems(c: Counters, p: Stmts, tail: bool, terminals: set<string>)
    ensures BlockItems(Elab(c, p, tail, terminals).1) == Items(p, tail, terminals)
    decreases p
  {
    match p
    case SNil =>
    case SCons(s, rest) =>
      var last := tail && rest.SNil?;
      var piece := ElabStmt(c, s, last, terminals);
      StmtKeepsItems(c, s, last, terminals);
      if piece.ends {
        assert StmtItems(s, last, terminals) + [] == StmtItems(s, last, terminals);
      } else {
        ElabKeepsItems(piece.next, rest, tail, terminals);
        AppendItems(piece.block, Elab(piece.next, rest, tail, terminals).1);
      }
  }

  lemma {:induction false} StmtKeepsItems(c: Counters, s: Stmt, last: bool, terminals: set<string>)
    ensures var piece := ElabStmt(c, s, last, terminals);
            BlockItems(piece.block) == StmtItems(s, last, terminals) && piece.ends == EndsList(s, terminals)
    decreases s
  {
    var b := ElabStmt(c, s, last, terminals).block;
    assert b.tail.BCons? ==> BlockItems(b.tail) == NodeItems(b.tail.head) + [];
    match s
    case IfStmt(arms) => ArmsKeepItems(CountBranch(c), arms, last, terminals);
    case _ =>
  }

  lemma {:induction false} ArmsKeepItems(c: Counters, arms: Arms, last: bool, terminals: set<string>)
    ensures var nodes := ElabArms(c, arms, last, terminals).1;
            ArmsItems(nodes) == ArmItems(arms, last, terminals) && NodeConds(nodes) == Conds(arms)
    decreases arms
  {
    match arms
    case Case(_, body, rest) =>
      ElabKeepsItems(c, body, last, terminals);
      ArmsKeepItems(Elab(c, body, last, terminals).0, rest, last, terminals);
    case Else(body) => ElabKeepsItems(c, body, last, terminals);
  }

  // ----- Of the three lists -----

  function Only(items: seq<Item>, keep: Item -> bool): seq<Item> {
    if items == [] then [] else (if keep(items[0]) then [items[0]] else []) + Only(items[1..], keep)
  }

  lemma {:induction false} OnlyConcat(a: seq<Item>, b: seq<Item>, keep: Item -> bool)
    ensures Only(a + b, keep) == Only(a, keep) + Only(b, keep)
    decreases |a|
  {
    if a == [] {
      assert a + b == b;
    } else {
      assert (a + b)[1..] == a[1..] + b;
      OnlyConcat(a[1..], b, keep);
    }
  }

  function FlatConds(cases: seq<FlatCase>): (r: seq<Condition>)
    ensures |r| == |cases|
  {
    seq(|cases|, i requires 0 <= i < |cases| => cases[i].cond)
  }

  function OfSteps(steps: seq<Step>): (r: seq<Item>)
    ensures |r| == |steps|
  {
    seq(|steps|, i requires 0 <= i < |steps| =>
      match steps[i]
      case CallStep(_, call) => CallItem(call)
      case BranchStep(_, cases, _) => BranchItem(FlatConds(cases)))
  }

  function OfBindings(bs: seq<Binding>): (r: seq<Item>)
    ensures |r| == |bs|
  {
    seq(|bs|, i requires 0 <= i < |bs| => BindItem(bs[i].target, bs[i].value))
  }

  function OfTerminals(ts: seq<Terminal>): (r: seq<Item>)
    ensures |r| == |ts|
  {
    seq(|ts|, i requires 0 <= i < |ts| => EndItem(ts[i].output))
  }

  const IsStepItem := (x: Item) => x.CallItem? || x.BranchItem?
  const IsBindItem := (x: Item) => x.BindItem?
  const IsEndItem := (x: Item) => x.EndItem?

  /** The lists hold the items, each kind in its own list, in order. */
  ghost predicate Hold(steps: seq<Step>, bs: seq<Binding>, ts: seq<Terminal>, items: seq<Item>) {
    OfSteps(steps) == Only(items, IsStepItem) && OfBindings(bs) == Only(items, IsBindItem) && OfTerminals(ts) == Only(items, IsEndItem)
  }

  lemma HoldConcat(a: seq<Step>, x: seq<Binding>, t: seq<Terminal>, items: seq<Item>, b: seq<Step>, y: seq<Binding>, u: seq<Terminal>, more: seq<Item>)
    requires Hold(a, x, t, items) && Hold(b, y, u, more)
    ensures Hold(a + b, x + y, t + u, items + more)
  {
    OnlyConcat(items, more, IsStepItem);
    OnlyConcat(items, more, IsBindItem);
    OnlyConcat(items, more, IsEndItem);
    assert OfSteps(a + b) == OfSteps(a) + OfSteps(b);
    assert OfBindings(x + y) == OfBindings(x) + OfBindings(y);
    assert OfTerminals(t + u) == OfTerminals(t) + OfTerminals(u);
  }

  lemma HoldNothing()
    ensures Hold([], [], [], [])
  {
  }

  lemma {:induction false} BlockHeld(p: Producers, b: Block)
    ensures Hold(Steps(b), Bindings(p, b), Terminals(b), BlockItems(b))
    decreases b
  {
    hide Hold;
    if b.BNil? {
      HoldNothing();
    } else {
      NodeHeld(p, b.head);
      BlockHeld(AfterNode(p, b.head), b.tail);
      HoldConcat(NodeSteps(b.head), NodeBindings(p, b.head), NodeTerminals(b.head), NodeItems(b.head),
                 Steps(b.tail), Bindings(AfterNode(p, b.head), b.tail), Terminals(b.tail), BlockItems(b.tail));
    }
  }

  lemma LeafHeld(p: Producers, n: Node)
    requires !n.BranchN?
    ensures Hold(NodeSteps(n), NodeBindings(p, n), NodeTerminals(n), NodeItems(n))
  {
    assert NodeItems(n)[1..] == [];
  }

  lemma {:induction false} NodeHeld(p: Producers, n: Node)
    ensures Hold(NodeSteps(n), NodeBindings(p, n), NodeTerminals(n), NodeItems(n))
    decreases n
  {
    hide Hold;
    match n
    case BranchN(id, arms) =>
      ArmsHeld(p, arms);
      FlatCondsAre(arms, 0);
      OneBranchHeld(FlatBranch(id, arms), NodeConds(arms));
      HoldConcat([FlatBranch(id, arms)], [], [], [BranchItem(NodeConds(arms))], ArmSteps(arms), ArmBindings(p, arms), ArmTerminals(arms), ArmsItems(arms));
      assert [] + ArmBindings(p, arms) == ArmBindings(p, arms) && [] + ArmTerminals(arms) == ArmTerminals(arms);
    case _ => LeafHeld(p, n);
  }

  lemma OneBranchHeld(s: Step, conds: seq<Condition>)
    requires s.BranchStep? && FlatConds(s.cases) == conds
    ensures Hold([s], [], [], [BranchItem(conds)])
  {
    var items := [BranchItem(conds)];
    assert items[1..] == [];
  }

  lemma {:induction false} FlatCondsAre(arms: NodeArms, i: nat)
    ensures FlatConds(FlatCases(arms, i)) == NodeConds(arms)
    decreases arms
  {
    if arms.CaseN? {
      FlatCondsAre(arms.rest, i + 1);
      var rest := FlatCases(arms.rest, i + 1);
      assert FlatConds(FlatCases(arms, i)) == [arms.cond] + FlatConds(rest);
    }
  }

  lemma {:induction false} ArmsHeld(p: Producers, arms: NodeArms)
    ensures Hold(ArmSteps(arms), ArmBindings(p, arms), ArmTerminals(arms), ArmsItems(arms))
    decreases arms
  {
    hide Hold;
    match arms
    case CaseN(_, body, rest) =>
      BlockHeld(p, body);
      ArmsHeld(p, rest);
      HoldConcat(Steps(body), Bindings(p, body), Terminals(body), BlockItems(body), ArmSteps(rest), ArmBindings(p, rest), ArmTerminals(rest), ArmsItems(rest));
    case ElseN(body) => BlockHeld(p, body);
  }

  /**
   The steps of a compiled program are its calls and branches, with their conditions, in the order of the text; its
   bindings are its plain assignments, and its terminals its outputs.
   */
  lemma NothingIsLost(p: Program, flow: Flow)
    requires Semantics(p) == Ok(flow)
    ensures Hold(flow.steps, flow.bindings, flow.terminals, Items(p.body, true, p.terminals))
  {
    CompiledLists(p, flow);
    BlockHeld(map[], Tree(p));
    ElabKeepsItems(ZERO, p.body, true, p.terminals);
  }

  // ----- The sources that bindings record -----

  /** The sources of a binding are, for each name in its value, the calls it depends on over the static paths to it. */
  ghost predicate Records(b: Binding, v: Value, es: iset<Env>) {
    b.value == v && (forall name :: name in b.sources <==> name in Refs(v)) &&
    forall name, x :: name in Refs(v) ==> (x in b.sources[name] <==> exists e :: e in es && Origin(e, name, x))
  }

  ghost predicate RecordsIn(b: Block, es: iset<Env>, bs: seq<Binding>)
    decreases b
  {
    match b
    case BNil => bs == []
    case BCons(n, rest) => exists k :: 0 <= k <= |bs| && RecordsAt(n, es, bs[..k]) && RecordsIn(rest, AfterAll(n, es), bs[k..])
  }

  ghost predicate RecordsAt(n: Node, es: iset<Env>, bs: seq<Binding>)
    decreases n
  {
    match n
    case BindN(_, _, v) => |bs| == 1 && Records(bs[0], v, es)
    case BranchN(_, arms) => RecordsOf(arms, es, bs)
    case _ => bs == []
  }

  ghost predicate RecordsOf(arms: NodeArms, es: iset<Env>, bs: seq<Binding>)
    decreases arms
  {
    match arms
    case CaseN(_, body, rest) => exists k :: 0 <= k <= |bs| && RecordsIn(body, es, bs[..k]) && RecordsOf(rest, es, bs[k..])
    case ElseN(body) => RecordsIn(body, es, bs)
  }

  lemma ExactAfterNode(p: Producers, es: iset<Env>, n: Node)
    requires Exact(p, es)
    ensures Exact(AfterNode(p, n), AfterAll(n, es))
  {
    var one := BCons(n, BNil);
    ProducersExact(p, es, one);
    PathExactness.ReachedOne(n, es);
    assert After(p, one) == AfterNode(p, n);
  }

  lemma {:induction false} BindingsRecord(p: Producers, es: iset<Env>, b: Block)
    requires Exact(p, es)
    ensures RecordsIn(b, es, Bindings(p, b))
    decreases b
  {
    hide Exact, AfterAll, NodeBindings, AfterNode;
    match b
    case BNil =>
    case BCons(n, rest) =>
      NodeRecords(p, es, n);
      ExactAfterNode(p, es, n);
      BindingsRecord(AfterNode(p, n), AfterAll(n, es), rest);
      var x, y := NodeBindings(p, n), Bindings(AfterNode(p, n), rest);
      assert (x + y)[..|x|] == x && (x + y)[|x|..] == y;
  }

  lemma {:induction false} NodeRecords(p: Producers, es: iset<Env>, n: Node)
    requires Exact(p, es)
    ensures RecordsAt(n, es, NodeBindings(p, n))
    decreases n
  {
    match n
    case BindN(id, t, v) =>
      forall name, x | name in Refs(v)
        ensures x in GetOr(p, name, []) <==> exists e :: e in es && Origin(e, name, x)
      {
        assert x in GetOr(p, name, []) <==> Lists(p, name, x);
      }
    case BranchN(_, arms) => ArmsRecord(p, es, arms);
    case _ =>
  }

  lemma {:induction false} ArmsRecord(p: Producers, es: iset<Env>, arms: NodeArms)
    requires Exact(p, es)
    ensures RecordsOf(arms, es, ArmBindings(p, arms))
    decreases arms
  {
    hide Exact;
    match arms
    case CaseN(_, body, rest) =>
      BindingsRecord(p, es, body);
      ArmsRecord(p, es, rest);
      var x, y := Bindings(p, body), ArmBindings(p, rest);
      assert (x + y)[..|x|] == x && (x + y)[|x|..] == y;
    case ElseN(body) => BindingsRecord(p, es, body);
  }

  lemma SourcesExactly(p: Program, flow: Flow)
    requires Semantics(p) == Ok(flow)
    ensures RecordsIn(Tree(p), iset{map[]}, flow.bindings)
  {
    CompiledLists(p, flow);
    PathExactness.NothingHere();
    hide Semantics, Tree;
    BindingsRecord(map[], iset{map[]}, Tree(p));
  }
}
