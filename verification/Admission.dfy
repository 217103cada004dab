/** Exactly which programs both stages accept. */
module Admission {
  import opened Prelude
  import opened Text
  import opened Pseudocode
  import opened FlowSemantics
  import opened Elaboration
  import opened Identity
  import opened Scoping
  import opened ReachingProducers
  import opened WorkflowGraph
  import opened Lowering
  import opened Partition
  import opened Refinement
  import opened GraphSpec
  import opened Correctness
  import opened StructuredOutputs
  import opened Conditions
  import opened Warnings
  import opened Redundancy

  // ----- What the graph builder asks of the parts of a program -----

  predicate AtMostOne(variables: Producers, name: string) {
    |GetOr(variables, name, [])| <= 1
  }

  /** No unparsed expression, and no variable that several calls may have produced. */
  predicate Renders(v: Value, variables: Producers) {
    match v
    case Var(name) => AtMostOne(variables, name)
    case Const(_) => true
    case Template(parts) => PartsRender(parts, variables)
    case Raw(_) => false
  }

  predicate PartsRender(parts: seq<Part>, variables: Producers) {
    forall p :: p in parts ==> !p.RawPart? && (p.VarPart? ==> AtMostOne(variables, p.name))
  }

  predicate IsFielded(c: Comparison) {
    c.key.Some? && c.key.value != ""
  }

  datatype Kind = Numeral | Truth | Other

  function KindOf(c: Comparison): Kind {
    match c.value
    case Some(Const(IntConst(_))) => Numeral
    case Some(Const(FloatConst(_))) => Numeral
    case Some(Const(BoolConst(_))) => Truth
    case _ => Other
  }

  /** A field that is compared with numerals, or an input that is declared to be a number. */
  predicate IsNumeric(flow: Flow, c: Comparison) {
    if IsFielded(c) then KindOf(c).Numeral?
    else GetOr(flow.variables, c.name, []) == [] && Input(c.name, "number") in flow.inputs
  }

  /** A field comes from one call; comparisons are with constants, and order is for numbers. */
  predicate Admits(flow: Flow, c: Comparison) {
    (if IsFielded(c) then |GetOr(flow.variables, c.name, [])| == 1 else AtMostOne(flow.variables, c.name)) &&
    (c.op.Truthy? || c.op.Falsy? || (c.value.Some? && c.value.value.Const?)) &&
    (c.op.Lt? || c.op.Le? || c.op.Gt? || c.op.Ge? ==> IsNumeric(flow, c))
  }

  ghost predicate StepAdmitted(flow: Flow, s: Step) {
    match s
    case CallStep(_, call) => EndsWith(call.func, "Group") && forall v :: v in CallValues(call) ==> Renders(v, flow.variables)
    case BranchStep(_, cases, _) => forall c :: c in cases ==> c.cond.Parsed? && forall d :: d in c.cond.comparisons ==> Admits(flow, d)
  }

  predicate SameField(flow: Flow, c: Comparison, d: Comparison) {
    IsFielded(c) && IsFielded(d) && c.key == d.key && GetOr(flow.variables, c.name, []) == GetOr(flow.variables, d.name, [])
  }

  /** A field of a call is compared with constants of one kind. */
  ghost predicate FieldsAgree(flow: Flow) {
    forall c, d :: c in AllComparisons(flow.steps) && d in AllComparisons(flow.steps) && SameField(flow, c, d) ==> KindOf(c) == KindOf(d)
  }

  // ----- The exits that are pending, and the terminals that are entered -----

  function Exits(b: Block, incoming: seq<Pos>): seq<Pos>
    decreases b
  {
    match b
    case BNil => incoming
    case BCons(n, rest) => Exits(rest, ExitsAt(n, incoming))
  }

  function ExitsAt(n: Node, incoming: seq<Pos>): seq<Pos>
    decreases n
  {
    match n
    case CallN(id, _) => [Pos(id, SOURCE)]
    case BindN(_, _, _) => incoming
    case TermN(_, _, _, _) => []
    case BranchN(id, arms) => ExitsOf(id, arms, 0)
  }

  function ExitsOf(id: Id, arms: NodeArms, i: nat): seq<Pos>
    decreases arms
  {
    match arms
    case CaseN(_, body, rest) => Exits(body, [Pos(id, CaseId(i))]) + ExitsOf(id, rest, i + 1)
    case ElseN(body) => Exits(body, [Pos(id, FALSE)])
  }

  /** An edge into a terminal. */
  datatype Entry = Entry(t: Terminal, from: Id, alone: bool)

  function EntriesInto(t: Terminal, incoming: seq<Pos>, alone: bool): (es: seq<Entry>)
    ensures |es| == |incoming|
  {
    seq(|incoming|, i requires 0 <= i < |incoming| => Entry(t, incoming[i].node, alone))
  }

  function Entries(b: Block, incoming: seq<Pos>): seq<Entry>
    decreases b
  {
    match b
    case BNil => []
    case BCons(n, rest) => EntriesAt(n, incoming) + Entries(rest, ExitsAt(n, incoming))
  }

  function EntriesAt(n: Node, incoming: seq<Pos>): seq<Entry>
    decreases n
  {
    match n
    case TermN(id, output, step, _) => EntriesInto(Terminal(id, output, step), incoming, |incoming| == 1)
    case BranchN(id, arms) => EntriesOf(id, arms, 0)
    case _ => []
  }

  function EntriesOf(id: Id, arms: NodeArms, i: nat): seq<Entry>
    decreases arms
  {
    match arms
    case CaseN(_, body, rest) => Entries(body, [Pos(id, CaseId(i))]) + EntriesOf(id, rest, i + 1)
    case ElseN(body) => Entries(body, [Pos(id, FALSE)])
  }

  /** A terminal puts out the step before it, or one variable that at most one call produces, or else the step before it. */
  predicate PutsOut(variables: Producers, e: Entry) {
    match e.t.outputStep
    case Some(step) => step == e.from
    case None =>
      var names := OptRefs(e.t.output.value);
      |names| == 1 && (AtMostOne(variables, names[0]) || e.from in GetOr(variables, names[0], []))
  }

  /** The id of the end node for an edge into a terminal. */
  function EndIdFor(e: Entry): Id {
    if e.alone then e.t.id else e.t.id + "_" + e.from
  }

  function EndIds(es: seq<Entry>): (ids: seq<Id>)
    ensures |ids| == |es|
  {
    seq(|es|, i requires 0 <= i < |es| => EndIdFor(es[i]))
  }

  lemma EndIdsConcat(a: seq<Entry>, b: seq<Entry>)
    ensures EndIds(a + b) == EndIds(a) + EndIds(b)
  {
  }

  // ----- Lowering succeeds exactly when the end nodes can be made -----

  predicate Outputs(ctx: Context, e: Entry)
    requires ContextOk(ctx)
  {
    TerminalOutput(ctx, e.t, e.from).Ok?
  }

  /** Lowering goes through for these edges into terminals, and adds their end nodes. */
  ghost predicate Adds(ctx: Context, es: seq<Entry>, g: Building, r: Result<Building, GraphError>)
    requires ContextOk(ctx)
  {
    (r.Ok? <==> (forall e :: e in es ==> Outputs(ctx, e)) && NoDup(NodeIdsOf(g.nodes) + EndIds(es))) &&
    (r.Ok? ==> NodeIdsOf(r.value.nodes) == NodeIdsOf(g.nodes) + EndIds(es))
  }

  ghost predicate Stand(g: Building, ps: seq<Pos>) {
    forall p :: p in ps ==> p.node in NodeIdsOf(g.nodes)
  }

  lemma AddsThen(ctx: Context, a: seq<Entry>, b: seq<Entry>, g: Building, h: Building, r: Result<Building, GraphError>)
    requires ContextOk(ctx) && Adds(ctx, a, g, Ok(h)) && Adds(ctx, b, h, r)
    ensures Adds(ctx, a + b, g, r)
  {
    EndIdsConcat(a, b);
    Assoc(NodeIdsOf(g.nodes), EndIds(a), EndIds(b));
    assert forall e :: e in a + b <==> e in a || e in b;
  }

  lemma AddsFails(ctx: Context, a: seq<Entry>, b: seq<Entry>, g: Building, e: GraphError)
    requires ContextOk(ctx) && Adds(ctx, a, g, Err(e))
    ensures Adds(ctx, a + b, g, Err(e))
  {
    EndIdsConcat(a, b);
    Assoc(NodeIdsOf(g.nodes), EndIds(a), EndIds(b));
    assert forall e :: e in a ==> e in a + b;
    if NoDup(NodeIdsOf(g.nodes) + EndIds(a + b)) {
      NoDupParts(NodeIdsOf(g.nodes) + EndIds(a), EndIds(b));
    }
  }

  lemma AddsNothing(ctx: Context, g: Building, h: Building)
    requires ContextOk(ctx) && NoDup(NodeIdsOf(g.nodes)) && h.nodes == g.nodes
    ensures Adds(ctx, [], g, Ok(h))
  {
    assert NodeIdsOf(g.nodes) + EndIds([]) == NodeIdsOf(g.nodes);
  }

  lemma AddsOne(ctx: Context, t: Terminal, from: Pos, alone: bool, g: Building)
    requires ContextOk(ctx) && NoDup(NodeIdsOf(g.nodes)) && from.node in NodeIdsOf(g.nodes) && (alone ==> t.id !in g.counts)
    ensures Adds(ctx, [Entry(t, from.node, alone)], g, AppendEnd(ctx, t, from, alone, g))
    ensures AppendEnd(ctx, t, from, alone, g).Ok? ==> AppendEnd(ctx, t, from, alone, g).value.counts.Keys == g.counts.Keys + {t.id}
  {
    var e := Entry(t, from.node, alone);
    var es, ids := [e], NodeIdsOf(g.nodes);
    assert EndIds(es) == [EndIdFor(e)] && e in es;
    if TerminalOutput(ctx, t, from.node).Ok? {
      var out := TerminalOutput(ctx, t, from.node).value;
      var count := GetOr(g.counts, t.id, 0) + 1;
      var id := EndId(t.id, from.node, alone, count);
      assert id == EndIdFor(e);
      var g0 := g.(counts := g.counts[t.id := count]);
      var n := EndNode(id, OutputName(t), out.0, DifyType(out.1));
      HasNodeId(g0, id);
      if id in ids {
        SharedTwice(ids, [id], id);
      } else {
        NoDupConcat(ids, [id]);
        var g1 := g0.(nodes := g.nodes + [n]);
        assert NodeIdsOf(g1.nodes) == ids + [id];
        HasNodeId(g1, from.node);
        HasNodeId(g1, id);
      }
    }
  }

  lemma SharedTwice<T>(a: seq<T>, b: seq<T>, x: T)
    requires x in a && x in b
    ensures !NoDup(a + b)
  {
    var i :| 0 <= i < |a| && a[i] == x;
    var j :| 0 <= j < |b| && b[j] == x;
    assert (a + b)[i] == (a + b)[|a| + j];
  }

  lemma {:induction false} AddsEnds(ctx: Context, t: Terminal, incoming: seq<Pos>, alone: bool, g: Building)
    requires ContextOk(ctx) && NoDup(NodeIdsOf(g.nodes)) && Stand(g, incoming) && (alone ==> |incoming| <= 1 && (incoming != [] ==> t.id !in g.counts))
    ensures Adds(ctx, EntriesInto(t, incoming, alone), g, AppendEnds(ctx, t, incoming, alone, g))
    ensures AppendEnds(ctx, t, incoming, alone, g).Ok? ==> AppendEnds(ctx, t, incoming, alone, g).value.counts.Keys <= g.counts.Keys + {t.id}
    decreases |incoming|
  {
    hide Outputs, AppendEnd;
    var es := EntriesInto(t, incoming, alone);
    if incoming == [] {
      AddsNothing(ctx, g, g);
    } else {
      var r := AppendEnd(ctx, t, incoming[0], alone, g);
      var first, rest := [Entry(t, incoming[0].node, alone)], EntriesInto(t, incoming[1..], alone);
      assert es == first + rest && incoming[0] in incoming;
      AddsOne(ctx, t, incoming[0], alone, g);
      match r
      case Err(e) => AddsFails(ctx, first, rest, g, e);
      case Ok(h) =>
        assert forall q :: q in incoming[1..] ==> q in incoming;
        AddsEnds(ctx, t, incoming[1..], alone, h);
        AddsThen(ctx, first, rest, g, h, AppendEnds(ctx, t, incoming[1..], alone, h));
    }
  }

  lemma {:induction false} EdgesSucceed(g: Building, incoming: seq<Pos>, target: Id)
    requires Stand(g, incoming) && target in NodeIdsOf(g.nodes)
    ensures AppendEdges(g, incoming, target).Ok? && AppendEdges(g, incoming, target).value.nodes == g.nodes
    ensures AppendEdges(g, incoming, target).value.counts == g.counts
    decreases |incoming|
  {
    if incoming != [] {
      assert incoming[0] in incoming && forall q :: q in incoming[1..] ==> q in incoming;
      HasNodeId(g, incoming[0].node);
      HasNodeId(g, target);
      EdgesSucceed(AppendEdge(g, incoming[0], target).value, incoming[1..], target);
    }
  }

  /** The nodes of these steps are there, and these terminals have not been entered. */
  ghost predicate Prepares(g: Building, steps: seq<Step>, ts: seq<Terminal>) {
    NoDup(NodeIdsOf(g.nodes)) && (forall s :: s in steps ==> s.id in NodeIdsOf(g.nodes)) &&
    NoDup(TerminalIds(ts)) && forall t :: t in ts ==> t.id !in g.counts
  }

  ghost predicate LowersTo(ctx: Context, es: seq<Entry>, exits: seq<Pos>, g: Building, r: Lowered, ts: seq<Terminal>)
    requires ContextOk(ctx)
  {
    Adds(ctx, es, g, if r.Ok? then Ok(r.value.0) else Err(r.error)) &&
    (r.Ok? ==> r.value.1 == exits && Stand(r.value.0, exits) && forall x :: x in r.value.0.counts ==> x in g.counts || x in TerminalIds(ts))
  }

  lemma TerminalIdsConcat(a: seq<Terminal>, b: seq<Terminal>)
    ensures TerminalIds(a + b) == TerminalIds(a) + TerminalIds(b)
    ensures forall t :: t in a ==> t.id in TerminalIds(a)
  {
    forall t | t in a
      ensures t.id in TerminalIds(a)
    {
      var i :| 0 <= i < |a| && a[i] == t;
      assert TerminalIds(a)[i] == t.id;
    }
  }

  lemma PreparesFirst(g: Building, a: seq<Step>, b: seq<Step>, t: seq<Terminal>, u: seq<Terminal>)
    requires Prepares(g, a + b, t + u)
    ensures Prepares(g, a, t)
  {
    TerminalIdsConcat(t, u);
    NoDupParts(TerminalIds(t), TerminalIds(u));
    assert forall s :: s in a ==> s in a + b;
    assert forall x :: x in t ==> x in t + u;
  }

  lemma PreparesNext(ctx: Context, g: Building, h: Building, a: seq<Step>, b: seq<Step>, t: seq<Terminal>, u: seq<Terminal>, es: seq<Entry>)
    requires ContextOk(ctx) && Prepares(g, a + b, t + u) && Adds(ctx, es, g, Ok(h))
    requires forall x :: x in h.counts ==> x in g.counts || x in TerminalIds(t)
    ensures Prepares(h, b, u)
  {
    TerminalIdsConcat(t, u);
    TerminalIdsConcat(u, []);
    NoDupParts(TerminalIds(t), TerminalIds(u));
    assert forall s :: s in b ==> s in a + b;
    assert forall x :: x in u ==> x in t + u;
  }

  lemma LowersThen(
    ctx: Context, a: seq<Entry>, b: seq<Entry>, mid: seq<Pos>, exits: seq<Pos>, g: Building, h: Building, r: Lowered, t: seq<Terminal>, u: seq<Terminal>)
    requires ContextOk(ctx) && LowersTo(ctx, a, mid, g, Ok((h, mid)), t) && LowersTo(ctx, b, exits, h, r, u)
    ensures LowersTo(ctx, a + b, exits, g, r, t + u)
  {
    hide Adds, Stand;
    TerminalIdsConcat(t, u);
    AddsThen(ctx, a, b, g, h, if r.Ok? then Ok(r.value.0) else Err(r.error));
  }

  lemma LowersFails(ctx: Context, a: seq<Entry>, b: seq<Entry>, mid: seq<Pos>, exits: seq<Pos>, g: Building, e: GraphError, t: seq<Terminal>, u: seq<Terminal>)
    requires ContextOk(ctx) && LowersTo(ctx, a, mid, g, Err(e), t)
    ensures LowersTo(ctx, a + b, exits, g, Err(e), t + u)
  {
    AddsFails(ctx, a, b, g, e);
  }

  lemma {:induction false} BlockLowers(ctx: Context, b: Block, incoming: seq<Pos>, g: Building)
    requires ContextOk(ctx) && Prepares(g, Steps(b), Terminals(b)) && Stand(g, incoming)
    ensures LowersTo(ctx, Entries(b, incoming), Exits(b, incoming), g, LowerBlock(ctx, b, incoming, g), Terminals(b))
    decreases b
  {
    hide LowersTo, Prepares, Stand, NodeSteps, NodeTerminals, LowerNode, EntriesAt, ExitsAt;
    match b
    case BNil => NothingLowers(ctx, incoming, g);
    case BCons(n, rest) =>
      PreparesFirst(g, NodeSteps(n), Steps(rest), NodeTerminals(n), Terminals(rest));
      NodeLowers(ctx, n, incoming, g);
      var r, mid := LowerNode(ctx, n, incoming, g), ExitsAt(n, incoming);
      var a, more := EntriesAt(n, incoming), Entries(rest, mid);
      match r
      case Err(e) => LowersFails(ctx, a, more, mid, Exits(rest, mid), g, e, NodeTerminals(n), Terminals(rest));
      case Ok((h, exits)) =>
        LoweredOk(ctx, a, mid, g, h, exits, NodeTerminals(n));
        PreparesNext(ctx, g, h, NodeSteps(n), Steps(rest), NodeTerminals(n), Terminals(rest), a);
        BlockLowers(ctx, rest, mid, h);
        LowersThen(ctx, a, more, mid, Exits(rest, mid), g, h, LowerBlock(ctx, rest, mid, h), NodeTerminals(n), Terminals(rest));
  }

  lemma LoweredOk(ctx: Context, es: seq<Entry>, exits: seq<Pos>, g: Building, h: Building, found: seq<Pos>, ts: seq<Terminal>)
    requires ContextOk(ctx) && LowersTo(ctx, es, exits, g, Ok((h, found)), ts)
    ensures found == exits && Stand(h, exits) && Adds(ctx, es, g, Ok(h))
    ensures forall x :: x in h.counts ==> x in g.counts || x in TerminalIds(ts)
  {
  }

  lemma NothingLowers(ctx: Context, incoming: seq<Pos>, g: Building)
    requires ContextOk(ctx) && Prepares(g, [], []) && Stand(g, incoming)
    ensures LowersTo(ctx, [], incoming, g, Ok((g, incoming)), [])
  {
    AddsNothing(ctx, g, g);
  }

  lemma {:induction false} NodeLowers(ctx: Context, n: Node, incoming: seq<Pos>, g: Building)
    requires ContextOk(ctx) && Prepares(g, NodeSteps(n), NodeTerminals(n)) && Stand(g, incoming)
    ensures LowersTo(ctx, EntriesAt(n, incoming), ExitsAt(n, incoming), g, LowerNode(ctx, n, incoming, g), NodeTerminals(n))
    decreases n
  {
    match n
    case BindN(_, _, _) => AddsNothing(ctx, g, g);
    case TermN(id, output, step, _) => TerminalLowers(ctx, Terminal(id, output, step), incoming, g);
    case CallN(id, call) => CallLowers(ctx, id, call, incoming, g);
    case BranchN(id, arms) =>
      var h := BranchEnters(ctx, id, arms, incoming, g);
      ArmsLower(ctx, id, arms, 0, h);
      SameNodesLower(ctx, EntriesOf(id, arms, 0), ExitsOf(id, arms, 0), g, h, LowerArms(ctx, id, arms, 0, h), ArmTerminals(arms));
  }

  lemma TerminalLowers(ctx: Context, t: Terminal, incoming: seq<Pos>, g: Building)
    requires ContextOk(ctx) && Prepares(g, [], [t]) && Stand(g, incoming)
    ensures var r := AppendEnds(ctx, t, incoming, |incoming| == 1, g);
            LowersTo(ctx, EntriesInto(t, incoming, |incoming| == 1), [], g, if r.Ok? then Ok((r.value, [])) else Err(r.error), [t])
  {
    assert t in [t] && TerminalIds([t]) == [t.id];
    AddsEnds(ctx, t, incoming, |incoming| == 1, g);
    hide AppendEnds, EntriesInto, Adds;
  }

  lemma CallLowers(ctx: Context, id: Id, call: CallInfo, incoming: seq<Pos>, g: Building)
    requires ContextOk(ctx) && Prepares(g, [CallStep(id, call)], []) && Stand(g, incoming)
    ensures LowersTo(ctx, [], [Pos(id, SOURCE)], g, LowerNode(ctx, CallN(id, call), incoming, g), [])
  {
    assert CallStep(id, call) in [CallStep(id, call)];
    var g0 := g.(visited := g.visited + {id});
    EdgesSucceed(g0, incoming, id);
    AddsNothing(ctx, g, AppendEdges(g0, incoming, id).value);
  }

  lemma BranchEnters(ctx: Context, id: Id, arms: NodeArms, incoming: seq<Pos>, g: Building) returns (h: Building)
    requires ContextOk(ctx) && Prepares(g, [FlatBranch(id, arms)] + ArmSteps(arms), ArmTerminals(arms)) && Stand(g, incoming)
    ensures AppendEdges(g.(visited := g.visited + {id}), incoming, id) == Ok(h) && h.nodes == g.nodes && h.counts == g.counts
    ensures Prepares(h, ArmSteps(arms), ArmTerminals(arms)) && id in NodeIdsOf(h.nodes)
  {
    var all := [FlatBranch(id, arms)] + ArmSteps(arms);
    assert all[0] == FlatBranch(id, arms) && forall s :: s in ArmSteps(arms) ==> s in all;
    assert FlatBranch(id, arms) in all;
    EdgesSucceed(g.(visited := g.visited + {id}), incoming, id);
    h := AppendEdges(g.(visited := g.visited + {id}), incoming, id).value;
  }

  lemma SameNodesLower(ctx: Context, es: seq<Entry>, exits: seq<Pos>, g: Building, h: Building, r: Lowered, ts: seq<Terminal>)
    requires ContextOk(ctx) && h.nodes == g.nodes && h.counts == g.counts && LowersTo(ctx, es, exits, h, r, ts)
    ensures LowersTo(ctx, es, exits, g, r, ts)
  {
  }

  lemma {:induction false} ArmsLower(ctx: Context, id: Id, arms: NodeArms, i: nat, g: Building)
    requires ContextOk(ctx) && Prepares(g, ArmSteps(arms), ArmTerminals(arms)) && id in NodeIdsOf(g.nodes)
    ensures LowersTo(ctx, EntriesOf(id, arms, i), ExitsOf(id, arms, i), g, LowerArms(ctx, id, arms, i, g), ArmTerminals(arms))
    decreases arms
  {
    hide LowersTo, Prepares, LowerBlock, Entries, Exits;
    match arms
    case CaseN(_, body, rest) =>
      var entry := [Pos(id, CaseId(i))];
      PreparesFirst(g, Steps(body), ArmSteps(rest), Terminals(body), ArmTerminals(rest));
      BlockLowers(ctx, body, entry, g);
      var r, mid, a := LowerBlock(ctx, body, entry, g), Exits(body, entry), Entries(body, entry);
      match r {
        case Err(e) => LowersFails(ctx, a, EntriesOf(id, rest, i + 1), mid, ExitsOf(id, arms, i), g, e, Terminals(body), ArmTerminals(rest));
        case Ok((h, exits)) =>
          LoweredOk(ctx, a, mid, g, h, exits, Terminals(body));
          PreparesNext(ctx, g, h, Steps(body), ArmSteps(rest), Terminals(body), ArmTerminals(rest), a);
          KeepsNode(ctx, a, g, h, id);
          ArmsLower(ctx, id, rest, i + 1, h);
          CaseLowers(ctx, a, EntriesOf(id, rest, i + 1), mid, ExitsOf(id, rest, i + 1), g, h, LowerArms(ctx, id, rest, i + 1, h),
                     Terminals(body), ArmTerminals(rest));
      }
    case ElseN(body) =>
      BlockLowers(ctx, body, [Pos(id, FALSE)], g);
  }

  lemma KeepsNode(ctx: Context, es: seq<Entry>, g: Building, h: Building, id: Id)
    requires ContextOk(ctx) && Adds(ctx, es, g, Ok(h)) && id in NodeIdsOf(g.nodes)
    ensures id in NodeIdsOf(h.nodes)
  {
  }

  /** The exits of a case stay pending while the rest is lowered. */
  lemma CaseLowers(
    ctx: Context, a: seq<Entry>, b: seq<Entry>, mid: seq<Pos>, exits: seq<Pos>, g: Building, h: Building, r: Lowered, t: seq<Terminal>, u: seq<Terminal>)
    requires ContextOk(ctx) && LowersTo(ctx, a, mid, g, Ok((h, mid)), t) && LowersTo(ctx, b, exits, h, r, u)
    ensures LowersTo(ctx, a + b, mid + exits, g, if r.Ok? then Ok((r.value.0, mid + r.value.1)) else r, t + u)
  {
    TerminalIdsConcat(t, u);
    AddsThen(ctx, a, b, g, h, if r.Ok? then Ok(r.value.0) else Err(r.error));
  }

  // ----- Producers are calls -----

  ghost predicate OnlyThese(p: Producers, ids: set<Id>) {
    forall v, x :: Lists(p, v, x) ==> x in ids
  }

  ghost function CallIds(steps: seq<Step>): set<Id> {
    set s | s in steps && s.CallStep? :: s.id
  }

  lemma {:induction false} AfterOnly(p: Producers, b: Block, ids: set<Id>)
    requires OnlyThese(p, ids) && CallIds(Steps(b)) <= ids
    ensures OnlyThese(After(p, b), ids)
    decreases b
  {
    if b.BCons? {
      assert forall s :: s in NodeSteps(b.head) || s in Steps(b.tail) ==> s in Steps(b);
      AfterNodeOnly(p, b.head, ids);
      AfterOnly(AfterNode(p, b.head), b.tail, ids);
    }
  }

  lemma {:induction false} AfterNodeOnly(p: Producers, n: Node, ids: set<Id>)
    requires OnlyThese(p, ids) && CallIds(NodeSteps(n)) <= ids
    ensures OnlyThese(AfterNode(p, n), ids)
    decreases n
  {
    match n
    case CallN(id, call) =>
      assert CallStep(id, call) in NodeSteps(n) && id in CallIds(NodeSteps(n));
      forall v, x | Lists(AfterNode(p, n), v, x)
        ensures x in ids
      {
        assert call.target != Some(v) ==> Lists(p, v, x);
      }
    case BindN(_, t, value) =>
      forall x | x in Inherited(p, Refs(value), [])
        ensures x in ids
      {
        InheritedMembers(p, Refs(value), [], x);
        var m :| m in Refs(value) && m in p && x in p[m];
        assert Lists(p, m, x);
      }
      forall v, x | Lists(AfterNode(p, n), v, x)
        ensures x in ids
      {
        assert v != t ==> Lists(p, v, x);
      }
    case TermN(_, _, _, _) =>
    case BranchN(id, arms) =>
      assert forall s :: s in ArmSteps(arms) ==> s in NodeSteps(n);
      ArmsOnly(p, arms, ids);
      MergedOnly(AfterArms(p, arms), ids);
  }

  lemma MergedOnly(ms: seq<Producers>, ids: set<Id>)
    requires forall i :: 0 <= i < |ms| ==> OnlyThese(ms[i], ids)
    ensures OnlyThese(MergeAll(map[], ms), ids)
  {
    forall v, x | Lists(MergeAll(map[], ms), v, x)
      ensures x in ids
    {
      MergeAllMembers(map[], ms, v);
      assert x in GetOr(MergeAll(map[], ms), v, []);
      var i :| 0 <= i < |ms| && x in GetOr(ms[i], v, []);
      assert Lists(ms[i], v, x);
    }
  }

  lemma {:induction false} ArmsOnly(p: Producers, arms: NodeArms, ids: set<Id>)
    requires OnlyThese(p, ids) && CallIds(ArmSteps(arms)) <= ids
    ensures forall i :: 0 <= i < |AfterArms(p, arms)| ==> OnlyThese(AfterArms(p, arms)[i], ids)
    decreases arms
  {
    match arms
    case CaseN(_, body, rest) =>
      assert forall s :: s in Steps(body) || s in ArmSteps(rest) ==> s in ArmSteps(arms);
      AfterOnly(p, body, ids);
      ArmsOnly(p, rest, ids);
    case ElseN(body) => AfterOnly(p, body, ids);
  }

  // ----- Terminals that put out a step put out a call -----

  ghost predicate StepsOut(ts: seq<Terminal>, steps: seq<Step>) {
    forall t :: t in ts && t.outputStep.Some? ==> t.outputStep.value in CallIds(steps)
  }

  lemma StepsOutConcat(t: seq<Terminal>, u: seq<Terminal>, a: seq<Step>, b: seq<Step>)
    requires StepsOut(t, a) && StepsOut(u, b)
    ensures StepsOut(t + u, a + b)
  {
    assert CallIds(a + b) == CallIds(a) + CallIds(b);
  }

  lemma {:induction false} ElabStepsOut(c: Counters, p: Stmts, tail: bool, terminals: set<string>)
    ensures var b := Elab(c, p, tail, terminals).1; StepsOut(Terminals(b), Steps(b))
    decreases p
  {
    hide StepsOut;
    match p
    case SNil => NothingOut();
    case SCons(s, rest) =>
      var piece := ElabStmt(c, s, tail && rest.SNil?, terminals);
      StmtStepsOut(c, s, tail && rest.SNil?, terminals);
      if !piece.ends {
        var b := Elab(piece.next, rest, tail, terminals).1;
        ElabStepsOut(piece.next, rest, tail, terminals);
        AppendTerminals(piece.block, b);
        AppendSteps(piece.block, b);
        StepsOutConcat(Terminals(piece.block), Terminals(b), Steps(piece.block), Steps(b));
      }
  }

  lemma NothingOut()
    ensures StepsOut([], [])
  {
  }

  lemma {:induction false} StmtStepsOut(c: Counters, s: Stmt, last: bool, terminals: set<string>)
    ensures var b := ElabStmt(c, s, last, terminals).block; StepsOut(Terminals(b), Steps(b))
    decreases s
  {
    var b := ElabStmt(c, s, last, terminals).block;
    match s
    case IfStmt(arms) =>
      ArmsStepsOut(CountBranch(c), arms, last, terminals);
      var n := b.head;
      assert Terminals(b) == ArmTerminals(n.arms) + [] && Steps(b) == NodeSteps(n) + [];
      assert forall q :: q in ArmSteps(n.arms) ==> q in Steps(b);
    case _ => LeafStepsOut(b);
  }

  /** A terminal after a call may put out that call. */
  lemma LeafStepsOut(b: Block)
    requires b.BCons? && !b.head.BranchN? && (b.head.TermN? ==> b.head.outputStep.None? && b.tail.BNil?)
    requires b.tail.BNil? || (b.tail.head.TermN? && b.tail.tail.BNil?)
    requires b.tail.BCons? && b.tail.head.outputStep.Some? ==> b.head.CallN? && b.tail.head.outputStep.value == b.head.id
    ensures StepsOut(Terminals(b), Steps(b))
  {
    assert Terminals(b) == NodeTerminals(b.head) + Terminals(b.tail) && Steps(b) == NodeSteps(b.head) + Steps(b.tail);
    assert b.tail.BCons? ==> Terminals(b.tail) == NodeTerminals(b.tail.head) + [];
    if b.head.CallN? {
      assert Steps(b)[0] == CallStep(b.head.id, b.head.call) && b.head.id in CallIds(Steps(b));
    }
  }

  lemma {:induction false} ArmsStepsOut(c: Counters, arms: Arms, last: bool, terminals: set<string>)
    ensures var nodes := ElabArms(c, arms, last, terminals).1; StepsOut(ArmTerminals(nodes), ArmSteps(nodes))
    decreases arms
  {
    hide StepsOut;
    match arms
    case Case(_, body, rest) =>
      var (c1, b) := Elab(c, body, last, terminals);
      var r := ElabArms(c1, rest, last, terminals).1;
      ElabStepsOut(c, body, last, terminals);
      ArmsStepsOut(c1, rest, last, terminals);
      StepsOutConcat(Terminals(b), ArmTerminals(r), Steps(b), ArmSteps(r));
    case Else(body) => ElabStepsOut(c, body, last, terminals);
  }

  // ----- The parts are built exactly when they are admitted -----

  /** What holds of the context of a compiled program that calls groups only. */
  ghost predicate Sound(flow: Flow, ctx: Context) {
    ContextOk(ctx) && ctx.steps == flow.steps && ctx.variables == flow.variables &&
    (forall x :: x in CallIds(flow.steps) ==> IsCall(ctx, x) && x != START) &&
    OnlyThese(flow.variables, CallIds(flow.steps)) && StepsOut(flow.terminals, flow.steps)
  }

  lemma ProducerIsCall(flow: Flow, ctx: Context, name: string, x: Id)
    requires Sound(flow, ctx) && x in GetOr(flow.variables, name, [])
    ensures IsCall(ctx, x) && SourceOutput(ctx, x).Ok? && SourceOutput(ctx, x).value.1 != NumberTy
  {
    assert Lists(flow.variables, name, x);
  }

  lemma VariableBuilt(flow: Flow, ctx: Context, name: string)
    requires Sound(flow, ctx)
    ensures VariableOutput(ctx, name).Ok? <==> AtMostOne(flow.variables, name)
  {
    var sources := GetOr(flow.variables, name, []);
    if |sources| == 1 {
      ProducerIsCall(flow, ctx, name, sources[0]);
    }
  }

  lemma {:induction false} PartsBuilt(flow: Flow, ctx: Context, parts: seq<Part>)
    requires Sound(flow, ctx)
    ensures RenderParts(ctx, parts).Ok? <==> PartsRender(parts, flow.variables)
    decreases |parts|
  {
    if parts != [] {
      hide Sound, VariableOutput, AtMostOne, PartsRender;
      PartsCons(parts, flow.variables);
      PartsBuilt(flow, ctx, parts[1..]);
      if parts[0].VarPart? {
        VariableBuilt(flow, ctx, parts[0].name);
      }
    }
  }

  lemma PartsCons(parts: seq<Part>, variables: Producers)
    requires parts != []
    ensures PartsRender(parts, variables) <==>
            !parts[0].RawPart? && (parts[0].VarPart? ==> AtMostOne(variables, parts[0].name)) && PartsRender(parts[1..], variables)
  {
    hide AtMostOne;
    var rest := parts[1..];
    assert parts == [parts[0]] + rest;
    if PartsRender(parts, variables) {
      assert parts[0] in parts && forall p :: p in rest ==> p in parts;
    }
    if !parts[0].RawPart? && (parts[0].VarPart? ==> AtMostOne(variables, parts[0].name)) && PartsRender(rest, variables) {
      forall p | p in parts
        ensures !p.RawPart? && (p.VarPart? ==> AtMostOne(variables, p.name))
      {
        assert p == parts[0] || p in rest;
      }
    }
  }

  lemma ValueBuilt(flow: Flow, ctx: Context, v: Value)
    requires Sound(flow, ctx)
    ensures RenderValue(ctx, v).Ok? <==> Renders(v, flow.variables)
  {
    match v
    case Template(parts) => PartsBuilt(flow, ctx, parts);
    case Var(name) => VariableBuilt(flow, ctx, name);
    case _ =>
  }

  lemma {:induction false} ArgsBuilt(flow: Flow, ctx: Context, args: seq<Value>)
    requires Sound(flow, ctx)
    ensures RenderArgs(ctx, args).Ok? <==> forall i :: 0 <= i < |args| ==> Renders(args[i], flow.variables)
    decreases |args|
  {
    if args != [] {
      hide Sound, RenderValue, Renders;
      ValueBuilt(flow, ctx, args[0]);
      var rest := args[1..];
      ArgsBuilt(flow, ctx, rest);
      assert forall i :: 0 <= i < |rest| ==> rest[i] == args[i + 1];
      assert forall i :: 1 <= i < |args| ==> args[i] == rest[i - 1];
    }
  }

  lemma {:induction false} KwargsBuilt(flow: Flow, ctx: Context, kwargs: seq<Kwarg>)
    requires Sound(flow, ctx)
    ensures RenderKwargs(ctx, kwargs).Ok? <==> forall i :: 0 <= i < |kwargs| ==> Renders(kwargs[i].value, flow.variables)
    decreases |kwargs|
  {
    if kwargs != [] {
      hide Sound, RenderValue, Renders;
      ValueBuilt(flow, ctx, kwargs[0].value);
      var rest := kwargs[1..];
      KwargsBuilt(flow, ctx, rest);
      assert forall i :: 0 <= i < |rest| ==> rest[i] == kwargs[i + 1];
      assert forall i :: 1 <= i < |kwargs| ==> kwargs[i] == rest[i - 1];
    }
  }

  lemma PromptBuilt(flow: Flow, ctx: Context, call: CallInfo)
    requires Sound(flow, ctx)
    ensures RenderPrompt(ctx, call).Ok? <==> forall v :: v in CallValues(call) ==> Renders(v, flow.variables)
  {
    hide Sound, RenderArgs, RenderKwargs, RenderValue, Renders;
    ArgsBuilt(flow, ctx, call.args);
    KwargsBuilt(flow, ctx, call.kwargs);
    var values := CallValues(call);
    assert forall i :: 0 <= i < |call.args| ==> values[i] == call.args[i];
    assert forall i :: 0 <= i < |call.kwargs| ==> values[|call.args| + i] == call.kwargs[i].value;
    if forall v :: v in values ==> Renders(v, flow.variables) {
      forall i | 0 <= i < |call.args|
        ensures Renders(call.args[i], flow.variables)
      {
        assert values[i] in values;
      }
      forall i | 0 <= i < |call.kwargs|
        ensures Renders(call.kwargs[i].value, flow.variables)
      {
        assert values[|call.args| + i] in values;
      }
    }
    if |call.kwargs| == 1 {
      ValueBuilt(flow, ctx, call.kwargs[0].value);
    }
  }

  // ----- Conditions -----

  lemma KindIsType(c: Comparison)
    ensures KindOf(c).Numeral? <==> SchemaType(c) == NumberTy
    ensures KindOf(c).Truth? <==> SchemaType(c) == BooleanTy
    ensures IsFielded(c) <==> HasKey(c)
  {
  }

  lemma SourceBuilt(p: Program, flow: Flow, ctx: Context, c: Comparison)
    requires Semantics(p) == Ok(flow) && Sound(flow, ctx) && KnownFields(flow, ctx) && ctx.inputTypes == InputTypes(flow.inputs, map[])
    requires c in AllComparisons(flow.steps)
    ensures ConditionSource(ctx, c).Ok? <==> if IsFielded(c) then |GetOr(flow.variables, c.name, [])| == 1 else AtMostOne(flow.variables, c.name)
    ensures ConditionSource(ctx, c).Ok? ==> (ConditionSource(ctx, c).value.1 == NumberTy <==> IsNumeric(flow, c))
  {
    var sources := GetOr(flow.variables, c.name, []);
    KindIsType(c);
    if HasKey(c) {
      assert StructuredOutputs.ReadsField(flow.variables, c, sources[0], c.key.value, SchemaType(c)) by {
        assert sources == [sources[0]];
      }
      assert Has(ctx.fields, sources[0], c.key.value, SchemaType(c));
    } else if sources == [] {
      NumericInput(p, flow, ctx, c.name);
    } else if |sources| == 1 {
      ProducerIsCall(flow, ctx, c.name, sources[0]);
    }
  }

  lemma NumericInput(p: Program, flow: Flow, ctx: Context, name: string)
    requires Semantics(p) == Ok(flow) && ctx.inputTypes == InputTypes(flow.inputs, map[])
    ensures InputSchemaType(ctx, name) == NumberTy <==> Input(name, "number") in flow.inputs
  {
    InputType(p, flow, ctx, name);
    assert "number"[0] == 'n' && "string"[0] == 's' && "file"[0] == 'f' && "array[file]"[0] == 'a';
  }

  lemma ConditionBuilds(p: Program, flow: Flow, ctx: Context, id: Id, caseId: string, index: nat, c: Comparison)
    requires Semantics(p) == Ok(flow) && Sound(flow, ctx) && KnownFields(flow, ctx) && ctx.inputTypes == InputTypes(flow.inputs, map[])
    requires c in AllComparisons(flow.steps)
    ensures BuildCondition(ctx, id, caseId, index, c).Ok? <==> Admits(flow, c)
  {
    SourceBuilt(p, flow, ctx, c);
    hide Sound, KnownFields, ConditionSource, AtMostOne, IsNumeric, Semantics;
  }

  lemma {:induction false} ConditionsBuild(p: Program, flow: Flow, ctx: Context, id: Id, caseId: string, index: nat, cs: seq<Comparison>)
    requires Semantics(p) == Ok(flow) && Sound(flow, ctx) && KnownFields(flow, ctx) && ctx.inputTypes == InputTypes(flow.inputs, map[])
    requires forall c :: c in cs ==> c in AllComparisons(flow.steps)
    ensures BuildConditions(ctx, id, caseId, index, cs).Ok? <==> forall i :: 0 <= i < |cs| ==> Admits(flow, cs[i])
    decreases |cs|
  {
    if cs != [] {
      hide Sound, KnownFields, BuildCondition, Admits, Semantics;
      var rest := cs[1..];
      ConditionBuilds(p, flow, ctx, id, caseId, index, cs[0]);
      ConditionsBuild(p, flow, ctx, id, caseId, index + 1, rest);
      assert forall i :: 0 <= i < |rest| ==> rest[i] == cs[i + 1];
      assert forall i :: 1 <= i < |cs| ==> cs[i] == rest[i - 1];
    }
  }

  ghost predicate CaseAdmitted(flow: Flow, c: FlatCase) {
    c.cond.Parsed? && forall d :: d in c.cond.comparisons ==> Admits(flow, d)
  }

  lemma {:induction false} CasesBuild(p: Program, flow: Flow, ctx: Context, id: Id, cases: seq<FlatCase>)
    requires Semantics(p) == Ok(flow) && Sound(flow, ctx) && KnownFields(flow, ctx) && ctx.inputTypes == InputTypes(flow.inputs, map[])
    requires forall c :: c in CaseComparisons(cases) ==> c in AllComparisons(flow.steps)
    ensures BuildCases(ctx, id, cases).Ok? <==> forall i :: 0 <= i < |cases| ==> CaseAdmitted(flow, cases[i])
    decreases |cases|
  {
    if cases != [] {
      hide Sound, KnownFields, BuildConditions, Admits, Semantics;
      var rest := cases[1..];
      if cases[0].cond.Parsed? {
        ConditionsBuild(p, flow, ctx, id, cases[0].caseId, 0, cases[0].cond.comparisons);
        CasesBuild(p, flow, ctx, id, rest);
        assert CaseAdmitted(flow, cases[0]) <==> BuildConditions(ctx, id, cases[0].caseId, 0, cases[0].cond.comparisons).Ok?;
      }
      assert forall i :: 0 <= i < |rest| ==> rest[i] == cases[i + 1];
      assert forall i :: 1 <= i < |cases| ==> cases[i] == rest[i - 1];
    }
  }

  lemma StepBuilds(p: Program, flow: Flow, ctx: Context, s: Step)
    requires Semantics(p) == Ok(flow) && Sound(flow, ctx) && KnownFields(flow, ctx) && ctx.inputTypes == InputTypes(flow.inputs, map[])
    requires s in flow.steps && CallOk(s)
    ensures BuildStepNode(ctx, s).Ok? <==> StepAdmitted(flow, s)
  {
    match s
    case CallStep(_, call) => PromptBuilt(flow, ctx, call);
    case BranchStep(id, cases, _) =>
      forall c | c in CaseComparisons(cases)
        ensures c in AllComparisons(flow.steps)
      {
        var i, j := ComparisonOfCase(cases, c);
        StepHasComparison(flow.steps, s, i, j);
      }
      CasesBuild(p, flow, ctx, id, cases);
      hide Sound, KnownFields, BuildCases, Admits, Semantics;
      assert (forall i :: 0 <= i < |cases| ==> CaseAdmitted(flow, cases[i])) <==> forall c :: c in cases ==> CaseAdmitted(flow, c);
  }

  // ----- Structured outputs -----

  predicate AllParsed(cases: seq<FlatCase>) {
    forall c :: c in cases ==> c.cond.Parsed?
  }

  lemma {:induction false} CasesInfer(ctx: Context, id: Id, cases: seq<FlatCase>)
    requires ContextOk(ctx)
    ensures AllParsed(cases) ==> InferCases(ctx, id, cases) == InferComparisons(ctx, CaseComparisons(cases))
    ensures InferCases(ctx, id, cases).Ok? ==> AllParsed(cases)
    decreases |cases|
  {
    hide InferComparison;
    if cases != [] {
      assert cases == [cases[0]] + cases[1..];
      if cases[0].cond.Parsed? {
        InferConcat(ctx, cases[0].cond.comparisons, CaseComparisons(cases[1..]));
        var r := InferComparisons(ctx, cases[0].cond.comparisons);
        if r.Ok? {
          CasesInfer(r.value, id, cases[1..]);
        }
      } else {
        assert cases[0] in cases;
      }
    }
  }

  ghost predicate StepsParsed(steps: seq<Step>) {
    forall s :: s in steps && s.BranchStep? ==> AllParsed(s.cases)
  }

  lemma {:induction false} StepsInfer(ctx: Context, steps: seq<Step>)
    requires ContextOk(ctx)
    ensures StepsParsed(steps) ==> InferSteps(ctx, steps) == InferComparisons(ctx, AllComparisons(steps))
    ensures InferSteps(ctx, steps).Ok? ==> StepsParsed(steps)
    decreases |steps|
  {
    hide InferComparisons, AllParsed;
    if steps == [] {
      NoneInferred(ctx);
    } else {
      var rest := AllComparisons(steps[1..]);
      assert steps == [steps[0]] + steps[1..];
      if steps[0].CallStep? {
        StepsInfer(ctx, steps[1..]);
        assert AllComparisons(steps) == [] + rest == rest;
      } else {
        CasesInfer(ctx, steps[0].id, steps[0].cases);
        InferConcat(ctx, CaseComparisons(steps[0].cases), rest);
        assert steps[0] in steps;
        var r := InferCases(ctx, steps[0].id, steps[0].cases);
        if r.Ok? {
          StepsInfer(r.value, steps[1..]);
        }
      }
    }
  }

  lemma NoneInferred(ctx: Context)
    requires ContextOk(ctx)
    ensures InferComparisons(ctx, []) == Ok(ctx)
  {
  }

  /** Each field has one type, in the fields and in the comparisons together. */
  ghost predicate Consistent(fields: map<Id, Fields>, variables: Producers, cs: seq<Comparison>) {
    forall c, id, key, ty, ty' :: c in cs && Met(fields, variables, cs, c, id, key, ty, ty') ==> ty == ty'
  }

  ghost predicate Met(fields: map<Id, Fields>, variables: Producers, cs: seq<Comparison>, c: Comparison, id: Id, key: string, ty: Ty, ty': Ty) {
    StructuredOutputs.ReadsField(variables, c, id, key, ty) && (Has(fields, id, key, ty') || SomeReadsField(variables, cs, id, key, ty'))
  }

  ghost predicate FromCalls(ctx: Context, cs: seq<Comparison>)
    requires ContextOk(ctx)
  {
    forall c :: c in cs && HasKey(c) ==> |GetOr(ctx.variables, c.name, [])| == 1 && IsCall(ctx, GetOr(ctx.variables, c.name, [])[0])
  }

  lemma OneInfers(ctx: Context, c: Comparison)
    requires ContextOk(ctx)
    ensures InferComparison(ctx, c).Ok? <==>
            (HasKey(c) ==> |GetOr(ctx.variables, c.name, [])| == 1 && IsCall(ctx, GetOr(ctx.variables, c.name, [])[0])) &&
            forall id, key, ty, ty' :: StructuredOutputs.ReadsField(ctx.variables, c, id, key, ty) && Has(ctx.fields, id, key, ty') ==> ty == ty'
  {
    if HasKey(c) && |GetOr(ctx.variables, c.name, [])| == 1 {
      var id := GetOr(ctx.variables, c.name, [])[0];
      assert GetOr(ctx.variables, c.name, []) == [id];
      assert StructuredOutputs.ReadsField(ctx.variables, c, id, c.key.value, SchemaType(c));
      var fields := GetOr(ctx.fields, id, map[]);
      if c.key.value in fields {
        assert Has(ctx.fields, id, c.key.value, fields[c.key.value]);
      }
    }
  }

  lemma {:induction false} ComparisonsInfer(ctx: Context, cs: seq<Comparison>)
    requires ContextOk(ctx) && NonemptyFields(ctx.fields)
    ensures InferComparisons(ctx, cs).Ok? <==> FromCalls(ctx, cs) && Consistent(ctx.fields, ctx.variables, cs)
    decreases |cs|
  {
    hide StructuredOutputs.ReadsField, Has, HasKey, IsCall, InferComparison;
    if cs != [] {
      var c, rest := cs[0], cs[1..];
      assert cs == [c] + rest && c in cs;
      OneInfers(ctx, c);
      if FromCalls(ctx, cs) && Consistent(ctx.fields, ctx.variables, cs) {
        FirstFits(ctx, cs, c);
      }
      var r := InferComparison(ctx, c);
      if r.Ok? {
        OneInferred(ctx, c);
        ComparisonsInfer(r.value, rest);
        assert FromCalls(ctx, cs) <==> FromCalls(r.value, rest) by {
          assert forall x :: IsCall(r.value, x) == IsCall(ctx, x) by {
            SameCalls(ctx, r.value);
          }
        }
        ConsistentNext(ctx.fields, r.value.fields, ctx.variables, c, rest);
      }
    }
  }

  lemma FirstFits(ctx: Context, cs: seq<Comparison>, c: Comparison)
    requires ContextOk(ctx) && FromCalls(ctx, cs) && Consistent(ctx.fields, ctx.variables, cs) && c in cs
    ensures HasKey(c) ==> |GetOr(ctx.variables, c.name, [])| == 1 && IsCall(ctx, GetOr(ctx.variables, c.name, [])[0])
    ensures forall id, key, ty, ty' :: StructuredOutputs.ReadsField(ctx.variables, c, id, key, ty) && Has(ctx.fields, id, key, ty') ==> ty == ty'
  {
    hide Has, StructuredOutputs.ReadsField, SomeReadsField;
    forall id, key, ty, ty' | StructuredOutputs.ReadsField(ctx.variables, c, id, key, ty) && Has(ctx.fields, id, key, ty')
      ensures ty == ty'
    {
      assert Met(ctx.fields, ctx.variables, cs, c, id, key, ty, ty');
    }
  }

  lemma SameCalls(ctx: Context, other: Context)
    requires ContextOk(ctx) && other == ctx.(fields := other.fields)
    ensures forall x :: IsCall(other, x) == IsCall(ctx, x)
  {
  }

  lemma ConsistentNext(fields: map<Id, Fields>, next: map<Id, Fields>, variables: Producers, c: Comparison, rest: seq<Comparison>)
    requires forall id, key, ty :: Has(next, id, key, ty) <==> Has(fields, id, key, ty) || StructuredOutputs.ReadsField(variables, c, id, key, ty)
    requires forall id, key, ty, ty' :: StructuredOutputs.ReadsField(variables, c, id, key, ty) && Has(fields, id, key, ty') ==> ty == ty'
    ensures Consistent(fields, variables, [c] + rest) <==> Consistent(next, variables, rest)
  {
    hide Has;
    var cs := [c] + rest;
    assert forall d :: d in cs <==> d == c || d in rest;
    forall id, key, ty
      ensures SomeReadsField(variables, cs, id, key, ty) <==> StructuredOutputs.ReadsField(variables, c, id, key, ty) || SomeReadsField(variables, rest, id, key, ty)
    {
    }
    assert forall id, key, ty, ty' :: StructuredOutputs.ReadsField(variables, c, id, key, ty) && StructuredOutputs.ReadsField(variables, c, id, key, ty') ==> ty == ty';
    hide StructuredOutputs.ReadsField, SomeReadsField;
    if Consistent(fields, variables, cs) {
      forall d, id, key, ty, ty' | d in rest && Met(next, variables, rest, d, id, key, ty, ty')
        ensures ty == ty'
      {
        assert Met(fields, variables, cs, d, id, key, ty, ty');
      }
    }
    if Consistent(next, variables, rest) {
      forall d, id, key, ty, ty' | d in cs && Met(fields, variables, cs, d, id, key, ty, ty')
        ensures ty == ty'
      {
        ConsistentPair(next, variables, c, rest, d, id, key, ty, ty');
      }
    }
  }

  lemma ConsistentPair(next: map<Id, Fields>, variables: Producers, c: Comparison, rest: seq<Comparison>, d: Comparison, id: Id, key: string, ty: Ty, ty': Ty)
    requires Consistent(next, variables, rest) && StructuredOutputs.ReadsField(variables, d, id, key, ty) && (d == c || d in rest)
    requires StructuredOutputs.ReadsField(variables, c, id, key, ty) ==> Has(next, id, key, ty)
    requires Has(next, id, key, ty') || SomeReadsField(variables, rest, id, key, ty')
    requires StructuredOutputs.ReadsField(variables, c, id, key, ty) && Has(next, id, key, ty') ==> ty == ty'
    ensures ty == ty'
  {
    if d in rest {
      assert Met(next, variables, rest, d, id, key, ty, ty');
    } else if SomeReadsField(variables, rest, id, key, ty') {
      var e :| e in rest && StructuredOutputs.ReadsField(variables, e, id, key, ty');
      assert Met(next, variables, rest, e, id, key, ty', ty);
    }
  }

  // ----- Stage by stage -----

  lemma {:induction false} StepsIndexed(steps: seq<Step>, i: nat, index: map<Id, nat>)
    requires i <= |steps| && NoDup(StepIds(steps)) && forall s :: s in steps ==> CallOk(s)
    requires forall k :: i <= k < |steps| ==> steps[k].id !in index
    ensures IndexSteps(steps, i, index).Ok?
    decreases |steps| - i
  {
    if i < |steps| {
      assert steps[i] in steps;
      forall k | i + 1 <= k < |steps|
        ensures steps[k].id !in index[steps[i].id := i]
      {
        assert StepIds(steps)[i] != StepIds(steps)[k];
      }
      StepsIndexed(steps, i + 1, index[steps[i].id := i]);
    }
  }

  lemma {:induction false} BindingsIndexed(bs: seq<Binding>, acc: set<Id>)
    requires NoDup(BindingIds(bs)) && forall x :: x in BindingIds(bs) ==> x !in acc
    ensures IndexBindings(bs, acc).Ok?
    decreases |bs|
  {
    if bs != [] {
      var rest := BindingIds(bs[1..]);
      assert BindingIds(bs) == [bs[0].id] + rest;
      NoDupParts([bs[0].id], rest);
      assert bs[0].id in [bs[0].id];
      BindingsIndexed(bs[1..], acc + {bs[0].id});
    }
  }

  lemma {:induction false} TerminalsIndexed(ts: seq<Terminal>, acc: map<Id, Terminal>)
    requires NoDup(TerminalIds(ts)) && forall x :: x in TerminalIds(ts) ==> x !in acc
    ensures IndexTerminals(ts, acc).Ok?
    decreases |ts|
  {
    if ts != [] {
      var rest := TerminalIds(ts[1..]);
      assert TerminalIds(ts) == [ts[0].id] + rest;
      NoDupParts([ts[0].id], rest);
      assert ts[0].id in [ts[0].id];
      TerminalsIndexed(ts[1..], acc[ts[0].id := ts[0]]);
    }
  }

  lemma LoadsExactly(p: Program, flow: Flow)
    requires Semantics(p) == Ok(flow)
    ensures Load(flow).Ok? <==> flow.warnings == [] && forall s :: s in flow.steps ==> CallOk(s)
  {
    CompiledLists(p, flow);
    if Load(flow).Ok? {
      LoadFacts(flow);
      forall s | s in flow.steps
        ensures CallOk(s)
      {
        var k :| 0 <= k < |flow.steps| && flow.steps[k] == s;
        assert CallOk(flow.steps[k]);
      }
    }
    if flow.warnings == [] && forall s :: s in flow.steps ==> CallOk(s) {
      WarningsExactly(p, flow);
      assert GroupCalls(Tree(p));
      hide Semantics, Tree;
      UniqueIds(p);
      KindsApart(map[], Tree(p));
      StepsIndexed(flow.steps, 0, map[]);
      BindingsIndexed(flow.bindings, {});
      TerminalsIndexed(flow.terminals, map[]);
      IndexTerminalsFacts(flow.terminals, map[]);
      assert flow.terminals[0] in flow.terminals;
    }
  }

  lemma SoundContext(p: Program, flow: Flow, ctx: Context)
    requires Semantics(p) == Ok(flow) && Load(flow).Ok? && Loaded(flow, ctx)
    ensures Sound(flow, ctx)
  {
    LoadedIds(p, flow);
    CompiledLists(p, flow);
    ElabStepsOut(ZERO, p.body, true, p.terminals);
    AnalyzeProducers(EmptyScope(p.parsed), Tree(p), true);
    AfterOnly(map[], Tree(p), CallIds(flow.steps));
    hide Semantics, Load;
    forall x | x in CallIds(flow.steps)
      ensures IsCall(ctx, x) && x != START
    {
      var s :| s in flow.steps && s.CallStep? && s.id == x;
      var k :| 0 <= k < |flow.steps| && flow.steps[k] == s;
      UseSitesInside(Tree(p), s);
    }
  }

  lemma UseSitesInside(b: Block, s: Step)
    requires s in Steps(b)
    ensures s.id in AllIds(b)
  {
    KindsPartition(map[], b);
    var i :| 0 <= i < |Steps(b)| && Steps(b)[i] == s;
    assert StepIds(Steps(b))[i] == s.id;
    assert s.id in multiset(StepIds(Steps(b)));
    assert s.id in multiset(AllIds(b));
  }

  /** Each field that a comparison reads comes from one call and is compared with constants of one kind. */
  ghost predicate Inferable(flow: Flow) {
    StepsParsed(flow.steps) && FieldsAgree(flow) &&
    forall c :: c in AllComparisons(flow.steps) && IsFielded(c) ==> |GetOr(flow.variables, c.name, [])| == 1
  }

  lemma InfersExactly(flow: Flow, ctx: Context)
    requires Sound(flow, ctx) && ctx.fields == map[]
    ensures InferSteps(ctx, flow.steps).Ok? <==> Inferable(flow)
  {
    var cs := AllComparisons(flow.steps);
    StepsInfer(ctx, flow.steps);
    ComparisonsInfer(ctx, cs);
    hide InferSteps, InferComparisons;
    forall c | c in cs
      ensures (HasKey(c) ==> |GetOr(ctx.variables, c.name, [])| == 1 && IsCall(ctx, GetOr(ctx.variables, c.name, [])[0])) <==>
              (IsFielded(c) ==> |GetOr(flow.variables, c.name, [])| == 1)
    {
      KindIsType(c);
      var sources := GetOr(flow.variables, c.name, []);
      if |sources| == 1 {
        ProducerIsCall(flow, ctx, c.name, sources[0]);
      }
    }
    if FromCalls(ctx, cs) {
      AgreeExactly(flow, cs);
    }
  }

  lemma AgreeExactly(flow: Flow, cs: seq<Comparison>)
    requires cs == AllComparisons(flow.steps)
    requires forall c :: c in cs && HasKey(c) ==> |GetOr(flow.variables, c.name, [])| == 1
    ensures Consistent(map[], flow.variables, cs) <==> FieldsAgree(flow)
  {
    hide AllComparisons;
    if Consistent(map[], flow.variables, cs) {
      forall c, d | c in cs && d in cs && SameField(flow, c, d)
        ensures KindOf(c) == KindOf(d)
      {
        KindIsType(c);
        KindIsType(d);
        SchemaTypes(c);
        SchemaTypes(d);
        var id := GetOr(flow.variables, c.name, [])[0];
        assert StructuredOutputs.ReadsField(flow.variables, d, id, d.key.value, SchemaType(d));
        assert Met(map[], flow.variables, cs, c, id, c.key.value, SchemaType(c), SchemaType(d));
      }
    }
    if FieldsAgree(flow) {
      forall c, id, key, ty, ty' | c in cs && Met(map[], flow.variables, cs, c, id, key, ty, ty')
        ensures ty == ty'
      {
        var d :| d in cs && StructuredOutputs.ReadsField(flow.variables, d, id, key, ty');
        KindIsType(c);
        KindIsType(d);
        SchemaTypes(c);
        SchemaTypes(d);
        assert SameField(flow, c, d);
      }
    }
  }

  lemma SchemaTypes(c: Comparison)
    ensures SchemaType(c) == NumberTy || SchemaType(c) == BooleanTy || SchemaType(c) == StringTy
  {
  }

  lemma {:induction false} NodesAppend(ctx: Context, steps: seq<Step>, g: Building)
    requires ContextOk(ctx) && NoDup(NodeIdsOf(g.nodes) + StepIds(steps))
    ensures AppendStepNodes(ctx, steps, g).Ok? <==> forall i :: 0 <= i < |steps| ==> BuildStepNode(ctx, steps[i]).Ok?
    ensures AppendStepNodes(ctx, steps, g).Ok? ==>
              var h := AppendStepNodes(ctx, steps, g).value;
              NodeIdsOf(h.nodes) == NodeIdsOf(g.nodes) + StepIds(steps) && h.counts == g.counts
    decreases |steps|
  {
    var ids := NodeIdsOf(g.nodes);
    if steps == [] {
      assert ids + StepIds(steps) == ids;
    } else {
      hide BuildStepNode;
      var first, rest := steps[0], steps[1..];
      assert StepIds(steps) == [first.id] + StepIds(rest);
      Assoc(ids, [first.id], StepIds(rest));
      assert forall i :: 0 <= i < |rest| ==> rest[i] == steps[i + 1];
      assert forall i :: 1 <= i < |steps| ==> steps[i] == rest[i - 1];
      if BuildStepNode(ctx, first).Ok? {
        var n := BuildStepNode(ctx, first).value;
        BuiltId(ctx, first, n);
        NoDupParts(ids, [first.id] + StepIds(rest));
        assert first.id in [first.id] + StepIds(rest);
        HasNodeId(g, first.id);
        var h := g.(nodes := g.nodes + [n]);
        assert NodeIdsOf(h.nodes) == ids + [first.id];
        NodesAppend(ctx, rest, h);
      }
    }
  }

  lemma BuiltId(ctx: Context, s: Step, n: GNode)
    requires ContextOk(ctx) && BuildStepNode(ctx, s) == Ok(n)
    ensures n.id == s.id
  {
  }

  lemma EndPuts(flow: Flow, ctx: Context, e: Entry)
    requires Sound(flow, ctx) && e.t in flow.terminals
    ensures Outputs(ctx, e) <==> PutsOut(flow.variables, e)
  {
    if e.t.outputStep.Some? {
      assert e.t.outputStep.value in CallIds(flow.steps);
    } else if |OptRefs(e.t.output.value)| == 1 {
      var name := OptRefs(e.t.output.value)[0];
      var sources := GetOr(flow.variables, name, []);
      forall x | x in sources
        ensures SourceOutput(ctx, x).Ok?
      {
        ProducerIsCall(flow, ctx, name, x);
      }
      if |sources| == 1 {
        assert sources[0] in sources;
      }
    }
  }

  lemma {:induction false} EntriesAreTerminals(b: Block, incoming: seq<Pos>)
    ensures forall e :: e in Entries(b, incoming) ==> e.t in Terminals(b)
    decreases b
  {
    if b.BCons? {
      EntriesAtAreTerminals(b.head, incoming);
      EntriesAreTerminals(b.tail, ExitsAt(b.head, incoming));
    }
  }

  lemma {:induction false} EntriesAtAreTerminals(n: Node, incoming: seq<Pos>)
    ensures forall e :: e in EntriesAt(n, incoming) ==> e.t in NodeTerminals(n)
    decreases n
  {
    if n.BranchN? {
      EntriesOfAreTerminals(n.id, n.arms, 0);
    }
  }

  lemma {:induction false} EntriesOfAreTerminals(id: Id, arms: NodeArms, i: nat)
    ensures forall e :: e in EntriesOf(id, arms, i) ==> e.t in ArmTerminals(arms)
    decreases arms
  {
    match arms
    case CaseN(_, body, rest) =>
      EntriesAreTerminals(body, [Pos(id, CaseId(i))]);
      EntriesOfAreTerminals(id, rest, i + 1);
    case ElseN(body) => EntriesAreTerminals(body, [Pos(id, FALSE)]);
  }

  // ----- The program as a whole -----

  function AllEntries(p: Program): seq<Entry> {
    Entries(Tree(p), [ENTRY])
  }

  ghost predicate StepsAdmitted(flow: Flow) {
    forall s :: s in flow.steps ==> StepAdmitted(flow, s)
  }

  /** Each edge into a terminal can put something out, and no two nodes get the same id. */
  ghost predicate EndsAdmitted(p: Program, flow: Flow) {
    (forall e :: e in AllEntries(p) ==> PutsOut(flow.variables, e)) && NoDup(([START] + StepIds(flow.steps)) + EndIds(AllEntries(p)))
  }

  ghost predicate Admitted(p: Program, flow: Flow) {
    flow.warnings == [] && StepsAdmitted(flow) && FieldsAgree(flow) && EndsAdmitted(p, flow)
  }

  lemma AdmittedStepsInfer(flow: Flow)
    requires StepsAdmitted(flow) && FieldsAgree(flow)
    ensures Inferable(flow) && forall s :: s in flow.steps ==> CallOk(s)
  {
    forall s | s in flow.steps
      ensures CallOk(s) && (s.BranchStep? ==> AllParsed(s.cases))
    {
      assert StepAdmitted(flow, s);
    }
    forall c | c in AllComparisons(flow.steps) && IsFielded(c)
      ensures |GetOr(flow.variables, c.name, [])| == 1
    {
      var s, i, j := ComparisonOfStep(flow.steps, c);
      assert StepAdmitted(flow, s);
      assert s.cases[i] in s.cases && c in s.cases[i].cond.comparisons;
      assert Admits(flow, c);
    }
  }

  lemma PreparesExactly(p: Program, flow: Flow)
    requires Semantics(p) == Ok(flow) && Walkable(flow)
    ensures Prepared(flow).Ok? <==> flow.warnings == [] && StepsAdmitted(flow) && FieldsAgree(flow)
  {
    LoadsExactly(p, flow);
    if StepsAdmitted(flow) && FieldsAgree(flow) {
      AdmittedStepsInfer(flow);
    }
    if Load(flow).Ok? {
      var ctx0 := Load(flow).value;
      LoadFacts(flow);
      SoundContext(p, flow, ctx0);
      FreshFields(flow, ctx0);
      InfersExactly(flow, ctx0);
      if InferSteps(ctx0, flow.steps).Ok? {
        var ctx := InferSteps(ctx0, flow.steps).value;
        NodesExactly(p, flow, ctx0, ctx);
      }
      hide Semantics, Load, InferSteps, AppendStepNodes, StepsAdmitted, FieldsAgree, Sound, Loaded, Walkable;
    }
  }

  lemma FreshFields(flow: Flow, ctx: Context)
    requires Load(flow) == Ok(ctx)
    ensures ctx.fields == map[] && ctx.inputTypes == InputTypes(flow.inputs, map[])
  {
  }

  lemma StepsBuild(p: Program, flow: Flow, ctx0: Context, ctx: Context)
    requires Semantics(p) == Ok(flow) && Load(flow) == Ok(ctx0) && Sound(flow, ctx0) && InferSteps(ctx0, flow.steps) == Ok(ctx)
    ensures Sound(flow, ctx) && ContextOk(ctx)
    ensures (forall i :: 0 <= i < |flow.steps| ==> BuildStepNode(ctx, flow.steps[i]).Ok?) <==> StepsAdmitted(flow)
  {
    FreshFields(flow, ctx0);
    InferredFields(flow, ctx0, ctx);
    LoadsExactly(p, flow);
    StillSound(flow, ctx0, ctx);
    hide Semantics, Load, InferSteps, Sound, KnownFields, StepAdmitted, BuildStepNode, CallOk;
    forall s | s in flow.steps
      ensures BuildStepNode(ctx, s).Ok? <==> StepAdmitted(flow, s)
    {
      StepBuilds(p, flow, ctx, s);
    }
  }

  lemma NodesExactly(p: Program, flow: Flow, ctx0: Context, ctx: Context)
    requires Semantics(p) == Ok(flow) && Load(flow) == Ok(ctx0) && Loaded(flow, ctx0) && Sound(flow, ctx0)
    requires InferSteps(ctx0, flow.steps) == Ok(ctx)
    ensures AppendStepNodes(ctx, flow.steps, StartBuilding(flow)).Ok? <==> StepsAdmitted(flow)
    ensures AppendStepNodes(ctx, flow.steps, StartBuilding(flow)).Ok? ==>
              var g := AppendStepNodes(ctx, flow.steps, StartBuilding(flow)).value;
              NodeIdsOf(g.nodes) == [START] + StepIds(flow.steps) && g.counts == map[]
  {
    hide Semantics, Load, InferSteps, AppendStepNodes, Sound, StepsAdmitted, BuildStepNode, Loaded, NoDup;
    StepsBuild(p, flow, ctx0, ctx);
    StepIdsDistinct(p, flow);
    assert NodeIdsOf(StartBuilding(flow).nodes) == [START];
    NodesAppend(ctx, flow.steps, StartBuilding(flow));
  }

  lemma StillSound(flow: Flow, ctx0: Context, ctx: Context)
    requires Sound(flow, ctx0) && ctx == ctx0.(fields := ctx.fields)
    ensures Sound(flow, ctx)
  {
    assert forall x :: IsCall(ctx, x) == IsCall(ctx0, x);
  }

  lemma StepIdsDistinct(p: Program, flow: Flow)
    requires Semantics(p) == Ok(flow) && Load(flow).Ok?
    ensures NoDup([START] + StepIds(flow.steps)) && NoDup(TerminalIds(flow.terminals))
  {
    LoadedIds(p, flow);
    CompiledLists(p, flow);
    hide Semantics, Load;
    KindsApart(map[], Tree(p));
    forall x | x in StepIds(flow.steps)
      ensures x != START
    {
      var i :| 0 <= i < |flow.steps| && StepIds(flow.steps)[i] == x;
      UseSitesInside(Tree(p), flow.steps[i]);
    }
    NoDupConcat([START], StepIds(flow.steps));
  }

  /** What is known of the context and the graph when the walk starts. */
  ghost predicate AtStart(flow: Flow, ctx: Context, g: Building) {
    Sound(flow, ctx) && NodeIdsOf(g.nodes) == [START] + StepIds(flow.steps) && g.counts == map[] &&
    NoDup([START] + StepIds(flow.steps)) && NoDup(TerminalIds(flow.terminals))
  }

  lemma PreparedAtStart(p: Program, flow: Flow, ctx: Context, g: Building)
    requires Semantics(p) == Ok(flow) && Walkable(flow) && Prepared(flow) == Ok((ctx, g)) && ContextOk(ctx)
    ensures AtStart(flow, ctx, g)
  {
    var ctx0 := Load(flow).value;
    LoadFacts(flow);
    SoundContext(p, flow, ctx0);
    NodesExactly(p, flow, ctx0, ctx);
    StepIdsDistinct(p, flow);
    StillLoaded(flow, ctx0, ctx);
    SoundContext(p, flow, ctx);
    hide Semantics, Loaded, Sound, NoDup;
  }

  lemma LowersExactly(p: Program, flow: Flow, ctx: Context, g: Building)
    requires Semantics(p) == Ok(flow) && Walkable(flow) && Prepared(flow) == Ok((ctx, g)) && ContextOk(ctx)
    ensures Lowers(p, ctx, g).Ok? <==> EndsAdmitted(p, flow)
  {
    PreparedAtStart(p, flow, ctx, g);
    CompiledLists(p, flow);
    hide Semantics, Prepared, Walkable, Tree, Sound;
    StepsStand(flow.steps, [START], g);
    assert ENTRY.node in [START];
    BlockLowers(ctx, Tree(p), [ENTRY], g);
    EntriesAreTerminals(Tree(p), [ENTRY]);
    hide Outputs, PutsOut, LowerBlock, Entries, Stand, ContextOk;
    forall e | e in AllEntries(p)
      ensures Outputs(ctx, e) <==> PutsOut(flow.variables, e)
    {
      EndPuts(flow, ctx, e);
    }
  }

  lemma StepsStand(steps: seq<Step>, before: seq<Id>, g: Building)
    requires NodeIdsOf(g.nodes) == before + StepIds(steps)
    ensures forall s :: s in steps ==> s.id in NodeIdsOf(g.nodes)
    ensures forall x :: x in before ==> x in NodeIdsOf(g.nodes)
  {
    forall s | s in steps
      ensures s.id in NodeIdsOf(g.nodes)
    {
      var i :| 0 <= i < |steps| && steps[i] == s;
      assert StepIds(steps)[i] == s.id;
    }
  }

  /**
   A program whose branches have no empty case bodies is accepted by both stages if and only if the first stage compiles
   it without a fatal warning; its calls are groups, with arguments that could be parsed and variables that at most one
   call produces; its conditions could be parsed and compare such variables, or fields of one call, with constants, by
   order for numbers alone, and each field with constants of one kind; each edge into a terminal can put something out;
   and no two nodes get the same id.
   */
  lemma AcceptedExactly(p: Program)
    requires Grammatical(p.body)
    ensures Pipeline(p).Ok? <==> Semantics(p).Ok? && Admitted(p, Semantics(p).value)
  {
    if Semantics(p).Ok? {
      var flow := Semantics(p).value;
      CompiledIsWalkable(p, flow);
      PreparesExactly(p, flow);
      if Prepared(flow).Ok? {
        var (ctx, g) := Prepared(flow).value;
        PreparedOk(flow);
        LowersExactly(p, flow, ctx, g);
        PreparedIsReady(p, flow);
        ReadyWalks(p, flow, ctx, g);
        hide Semantics, Prepared, Walkable, Ready, LowerBlock, Admitted, EndsAdmitted, StepsAdmitted, FieldsAgree, WalkSequence, Checked;
        if Lowers(p, ctx, g).Ok? {
          var (h, exits) := Lowers(p, ctx, g).value;
          ChecksAreRedundant(p, flow, ctx, g, h, exits);
        }
      }
    }
  }
}
