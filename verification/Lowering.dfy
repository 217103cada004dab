/**
 The graph builder as a function: loading the flat form, inferring structured outputs, rendering nodes, and lowering
 the bodies to edges and end nodes.
 */
module Lowering {
  import opened Prelude
  import opened Text
  import opened Pseudocode
  import opened FlowSemantics
  import opened WorkflowGraph

  datatype GraphError =
    | UnsafeWarnings
    | UnsupportedFunction(func: string)
    | DuplicateObject(id: Id)
    | NoTerminals
    | UnparsedCondition(id: Id)
    | NotOneProducer(name: string)
    | NotGroupCall(id: Id)
    | IncompatibleTypes(name: string, key: string)
    | SeveralProducers(name: string)
    | UnsupportedExpression
    | UnsupportedOperator(op: CmpOp)
    | UnknownObject(id: Id)
    | OutputStepMismatch(id: Id)
    | NoOutputValue(id: Id)
    | NotOneVariable(id: Id)
    | UnmatchedSource(name: string, source: Id)
    | DuplicateNode(id: Id)
    | UnknownNode(id: Id)
    | FallsOff
    | Unreferenced(ids: set<Id>)
    | DirectedCycle
    | StartCount
    | NoEndNode

  type Fields = map<string, Ty>

  /** What the builder has loaded. `index` says where in `steps` each id stands. */
  datatype Context = Context(
    steps: seq<Step>,
    index: map<Id, nat>,
    bindings: set<Id>,
    terminals: map<Id, Terminal>,
    variables: map<string, seq<Id>>,
    inputTypes: map<string, string>,
    fields: map<Id, Fields>)

  const STRUCTURED := "structured_output"
  const TEXT := "text"

  // ----- Loading -----

  predicate CallOk(s: Step) {
    s.CallStep? ==> EndsWith(s.call.func, "Group")
  }

  function IndexSteps(steps: seq<Step>, i: nat, index: map<Id, nat>): Result<map<Id, nat>, GraphError>
    requires i <= |steps|
    decreases |steps| - i
  {
    if i == |steps| then Ok(index)
    else if !CallOk(steps[i]) then Err(UnsupportedFunction(steps[i].call.func))
    else if steps[i].id in index then Err(DuplicateObject(steps[i].id))
    else IndexSteps(steps, i + 1, index[steps[i].id := i])
  }

  function IndexBindings(bs: seq<Binding>, acc: set<Id>): Result<set<Id>, GraphError>
    decreases |bs|
  {
    if bs == [] then Ok(acc)
    else if bs[0].id in acc then Err(DuplicateObject(bs[0].id))
    else IndexBindings(bs[1..], acc + {bs[0].id})
  }

  function IndexTerminals(ts: seq<Terminal>, acc: map<Id, Terminal>): Result<map<Id, Terminal>, GraphError>
    decreases |ts|
  {
    if ts == [] then Ok(acc)
    else if ts[0].id in acc then Err(DuplicateObject(ts[0].id))
    else IndexTerminals(ts[1..], acc[ts[0].id := ts[0]])
  }

  function InputTypes(inputs: seq<Input>, acc: map<string, string>): map<string, string>
    decreases |inputs|
  {
    if inputs == [] then acc else InputTypes(inputs[1..], acc[inputs[0].name := inputs[0].ty])
  }

  /** All modelled warnings are fatal. */
  function Load(flow: Flow): Result<Context, GraphError> {
    if flow.warnings != [] then Err(UnsafeWarnings)
    else
      var index :- IndexSteps(flow.steps, 0, map[]);
      var bindings :- IndexBindings(flow.bindings, {});
      var terminals :- IndexTerminals(flow.terminals, map[]);
      if terminals == map[] then Err(NoTerminals)
      else
        Ok(Context(flow.steps, index, bindings, terminals, flow.variables, InputTypes(flow.inputs, map[]), map[]))
  }

  predicate ContextOk(ctx: Context) {
    forall id :: id in ctx.index ==> ctx.index[id] < |ctx.steps| && ctx.steps[ctx.index[id]].id == id
  }

  predicate IsCall(ctx: Context, id: Id)
    requires ContextOk(ctx)
  {
    id in ctx.index && ctx.steps[ctx.index[id]].CallStep?
  }

  // ----- Structured outputs -----

  /** A comparison that reads a field: `x.get("")` counts as reading the whole value. */
  predicate HasKey(c: Comparison) {
    c.key.Some? && c.key.value != ""
  }

  function SchemaType(c: Comparison): Ty {
    match c.value
    case Some(Const(IntConst(_))) => NumberTy
    case Some(Const(FloatConst(_))) => NumberTy
    case Some(Const(BoolConst(_))) => BooleanTy
    case _ => StringTy
  }

  function SingleSource(ctx: Context, name: string): Result<Id, GraphError> {
    var sources := GetOr(ctx.variables, name, []);
    if |sources| == 1 then Ok(sources[0]) else Err(NotOneProducer(name))
  }

  function InferComparison(ctx: Context, c: Comparison): Result<Context, GraphError>
    requires ContextOk(ctx)
  {
    if !HasKey(c) then Ok(ctx)
    else
      var source :- SingleSource(ctx, c.name);
      if !IsCall(ctx, source) then Err(NotGroupCall(source))
      else
        var fields := GetOr(ctx.fields, source, map[]);
        if c.key.value in fields && fields[c.key.value] != SchemaType(c) then Err(IncompatibleTypes(c.name, c.key.value))
        else Ok(ctx.(fields := ctx.fields[source := fields[c.key.value := SchemaType(c)]]))
  }

  function InferComparisons(ctx: Context, cs: seq<Comparison>): (r: Result<Context, GraphError>)
    requires ContextOk(ctx)
    ensures r.Ok? ==> r.value == ctx.(fields := r.value.fields)
    decreases |cs|
  {
    if cs == [] then Ok(ctx)
    else
      var ctx1 :- InferComparison(ctx, cs[0]);
      InferComparisons(ctx1, cs[1..])
  }

  function InferCases(ctx: Context, id: Id, cases: seq<FlatCase>): (r: Result<Context, GraphError>)
    requires ContextOk(ctx)
    ensures r.Ok? ==> r.value == ctx.(fields := r.value.fields)
    decreases |cases|
  {
    if cases == [] then Ok(ctx)
    else if cases[0].cond.Unparsed? then Err(UnparsedCondition(id))
    else
      var ctx1 :- InferComparisons(ctx, cases[0].cond.comparisons);
      InferCases(ctx1, id, cases[1..])
  }

  function InferSteps(ctx: Context, steps: seq<Step>): (r: Result<Context, GraphError>)
    requires ContextOk(ctx)
    ensures r.Ok? ==> r.value == ctx.(fields := r.value.fields)
    decreases |steps|
  {
    if steps == [] then Ok(ctx)
    else if steps[0].CallStep? then InferSteps(ctx, steps[1..])
    else
      var ctx1 :- InferCases(ctx, steps[0].id, steps[0].cases);
      InferSteps(ctx1, steps[1..])
  }

  // ----- Selectors -----

  function SourceOutput(ctx: Context, id: Id): Result<(Selector, Ty), GraphError>
    requires ContextOk(ctx)
  {
    if id == START || !IsCall(ctx, id) then Err(NotGroupCall(id))
    else if GetOr(ctx.fields, id, map[]) != map[] then Ok(([id, STRUCTURED], ObjectTy))
    else Ok(([id, TEXT], StringTy))
  }

  function VariableOutput(ctx: Context, name: string): Result<(Selector, Ty), GraphError>
    requires ContextOk(ctx)
  {
    var sources := GetOr(ctx.variables, name, []);
    if sources == [] then Ok(([START, name], StringTy))
    else if |sources| != 1 then Err(SeveralProducers(name))
    else SourceOutput(ctx, sources[0])
  }

  // ----- Prompts -----

  function ConstantText(c: Constant): string {
    match c
    case NullConst => ""
    case BoolConst(b) => if b then "true" else "false"
    case _ => c.text
  }

  function RenderParts(ctx: Context, parts: seq<Part>): Result<seq<Fragment>, GraphError>
    requires ContextOk(ctx)
    decreases |parts|
  {
    if parts == [] then Ok([])
    else
      match parts[0]
      case TextPart(text) =>
        var rest :- RenderParts(ctx, parts[1..]);
        Ok([Lit(text)] + rest)
      case VarPart(name) =>
        var out :- VariableOutput(ctx, name);
        var rest :- RenderParts(ctx, parts[1..]);
        Ok([Ref(out.0)] + rest)
      case RawPart(_) => Err(UnsupportedExpression)
  }

  function RenderValue(ctx: Context, v: Value): Result<seq<Fragment>, GraphError>
    requires ContextOk(ctx)
  {
    match v
    case Template(parts) => RenderParts(ctx, parts)
    case Var(name) =>
      var out :- VariableOutput(ctx, name);
      Ok([Ref(out.0)])
    case Const(c) => Ok([Lit(ConstantText(c))])
    case Raw(_) => Err(UnsupportedExpression)
  }

  predicate IsBlank(line: seq<Fragment>) {
    forall f :: f in line ==> f == Lit("")
  }

  /** Positional arguments that render to nothing are left out. */
  function RenderArgs(ctx: Context, args: seq<Value>): Result<seq<seq<Fragment>>, GraphError>
    requires ContextOk(ctx)
    decreases |args|
  {
    if args == [] then Ok([])
    else
      var line :- RenderValue(ctx, args[0]);
      var rest :- RenderArgs(ctx, args[1..]);
      Ok(if IsBlank(line) then rest else [line] + rest)
  }

  function RenderKwargs(ctx: Context, kwargs: seq<Kwarg>): Result<seq<seq<Fragment>>, GraphError>
    requires ContextOk(ctx)
    decreases |kwargs|
  {
    if kwargs == [] then Ok([])
    else
      var line :- RenderValue(ctx, kwargs[0].value);
      var rest :- RenderKwargs(ctx, kwargs[1..]);
      Ok([[Lit(kwargs[0].key + ": ")] + line] + rest)
  }

  function JoinLines(lines: seq<seq<Fragment>>): seq<Fragment> {
    if lines == [] then []
    else if |lines| == 1 then lines[0]
    else lines[0] + [Lit("\n")] + JoinLines(lines[1..])
  }

  function RenderPrompt(ctx: Context, call: CallInfo): Result<seq<Fragment>, GraphError>
    requires ContextOk(ctx)
  {
    if call.args == [] && |call.kwargs| == 1 && call.kwargs[0].key == "task" then RenderValue(ctx, call.kwargs[0].value)
    else
      var args :- RenderArgs(ctx, call.args);
      var kwargs :- RenderKwargs(ctx, call.kwargs);
      Ok(JoinLines(args + kwargs))
  }

  // ----- Conditions -----

  function InputSchemaType(ctx: Context, name: string): Ty {
    match GetOr(ctx.inputTypes, name, "paragraph")
    case "number" => NumberTy
    case "file" => FileTy
    case "file-list" => FileListTy
    case _ => StringTy
  }

  function ConditionOperator(op: CmpOp, ty: Ty): Result<string, GraphError> {
    match op
    case Truthy => Ok("not empty")
    case Falsy => Ok("empty")
    case Eq => Ok(if ty.NumberTy? then "=" else "is")
    case Ne => Ok(if ty.NumberTy? then "≠" else "is not")
    case Gt => if ty.NumberTy? then Ok(">") else Err(UnsupportedOperator(op))
    case Ge => if ty.NumberTy? then Ok("≥") else Err(UnsupportedOperator(op))
    case Lt => if ty.NumberTy? then Ok("<") else Err(UnsupportedOperator(op))
    case Le => if ty.NumberTy? then Ok("≤") else Err(UnsupportedOperator(op))
    case In => Ok("in")
    case NotIn => Ok("not in")
    case Is => Ok("is")
    case IsNot => Ok("is not")
  }

  function ConditionConstant(c: Comparison): Result<ConditionValue, GraphError> {
    if c.op.Truthy? || c.op.Falsy? then Ok(TextValue(""))
    else
      match c.value
      case Some(Const(BoolConst(b))) => Ok(BoolValue(b))
      case Some(Const(NullConst)) => Ok(TextValue(""))
      case Some(Const(k)) => Ok(TextValue(k.text))
      case _ => Err(UnsupportedExpression)
  }

  /** What a comparison reads: the field of a structured output, an input, or the whole output of a call. */
  function ConditionSource(ctx: Context, c: Comparison): Result<(Selector, Ty), GraphError>
    requires ContextOk(ctx)
  {
    if HasKey(c) then
      var source :- SingleSource(ctx, c.name);
      Ok(([source, STRUCTURED, c.key.value], GetOr(GetOr(ctx.fields, source, map[]), c.key.value, StringTy)))
    else
      var sources := GetOr(ctx.variables, c.name, []);
      if sources == [] then Ok(([START, c.name], InputSchemaType(ctx, c.name)))
      else if |sources| == 1 then SourceOutput(ctx, sources[0])
      else Err(SeveralProducers(c.name))
  }

  function BuildCondition(ctx: Context, id: Id, caseId: string, index: nat, c: Comparison): Result<GraphCondition, GraphError>
    requires ContextOk(ctx)
  {
    var out :- ConditionSource(ctx, c);
    var operator :- ConditionOperator(c.op, out.1);
    var value :- ConditionConstant(c);
    Ok(GraphCondition(id + "_" + caseId + "_" + Dec(index), DifyType(out.1), out.0, operator, value))
  }

  function BuildConditions(ctx: Context, id: Id, caseId: string, index: nat, cs: seq<Comparison>): (r: Result<seq<GraphCondition>, GraphError>)
    requires ContextOk(ctx)
    ensures r.Ok? ==> |r.value| == |cs|
    decreases |cs|
  {
    if cs == [] then Ok([])
    else
      var c :- BuildCondition(ctx, id, caseId, index, cs[0]);
      var rest :- BuildConditions(ctx, id, caseId, index + 1, cs[1..]);
      Ok([c] + rest)
  }

  function BuildCases(ctx: Context, id: Id, cases: seq<FlatCase>): (r: Result<seq<GraphCase>, GraphError>)
    requires ContextOk(ctx)
    ensures r.Ok? ==> |r.value| == |cases| && forall i :: 0 <= i < |cases| ==> r.value[i].caseId == cases[i].caseId
    decreases |cases|
  {
    if cases == [] then Ok([])
    else if cases[0].cond.Unparsed? then Err(UnparsedCondition(id))
    else
      var conditions :- BuildConditions(ctx, id, cases[0].caseId, 0, cases[0].cond.comparisons);
      var rest :- BuildCases(ctx, id, cases[1..]);
      Ok([GraphCase(cases[0].caseId, cases[0].cond.logical, conditions)] + rest)
  }

  // ----- Nodes -----

  function StartType(ty: string): string {
    match ty
    case "number" => "number"
    case "file" => "file"
    case "file-list" => "file-list"
    case "select" => "select"
    case _ => "text-input"
  }

  function StartVariables(inputs: seq<Input>): seq<StartVariable> {
    seq(|inputs|, i requires 0 <= i < |inputs| => StartVariable(inputs[i].name, StartType(inputs[i].ty)))
  }

  function BuildStepNode(ctx: Context, s: Step): (r: Result<GNode, GraphError>)
    requires ContextOk(ctx)
    ensures r.Ok? ==> r.value.id == s.id && (if s.CallStep? then r.value.LlmNode? else r.value.IfElseNode?)
  {
    match s
    case CallStep(id, call) =>
      var prompt :- RenderPrompt(ctx, call);
      Ok(LlmNode(id, call.func, prompt, GetOr(ctx.fields, id, map[])))
    case BranchStep(id, cases, _) =>
      var built :- BuildCases(ctx, id, cases);
      Ok(IfElseNode(id, built))
  }

  /** The part of the builder's state that the walk over the bodies changes. */
  datatype Building = Building(nodes: seq<GNode>, edges: seq<Edge>, visited: set<Id>, counts: map<Id, nat>)

  predicate HasNode(g: Building, id: Id) {
    exists i :: 0 <= i < |g.nodes| && g.nodes[i].id == id
  }

  function AppendNode(g: Building, n: GNode): Result<Building, GraphError> {
    if HasNode(g, n.id) then Err(DuplicateNode(n.id)) else Ok(g.(nodes := g.nodes + [n]))
  }

  function AppendStepNodes(ctx: Context, steps: seq<Step>, g: Building): Result<Building, GraphError>
    requires ContextOk(ctx)
    decreases |steps|
  {
    if steps == [] then Ok(g)
    else
      var n :- BuildStepNode(ctx, steps[0]);
      var g1 :- AppendNode(g, n);
      AppendStepNodes(ctx, steps[1..], g1)
  }

  // ----- Edges and end nodes -----

  function AppendEdge(g: Building, from: Pos, target: Id): Result<Building, GraphError> {
    if !HasNode(g, from.node) then Err(UnknownNode(from.node))
    else if !HasNode(g, target) then Err(UnknownNode(target))
    else
      var e := Edge(from.node, from.handle, target);
      if e in g.edges then Ok(g) else Ok(g.(edges := g.edges + [e]))
  }

  function AppendEdges(g: Building, incoming: seq<Pos>, target: Id): Result<Building, GraphError>
    decreases |incoming|
  {
    if incoming == [] then Ok(g)
    else
      var g1 :- AppendEdge(g, incoming[0], target);
      AppendEdges(g1, incoming[1..], target)
  }

  /** What an end node reads when the walk enters it from `source`. */
  function TerminalOutput(ctx: Context, t: Terminal, source: Id): Result<(Selector, Ty), GraphError>
    requires ContextOk(ctx)
  {
    match t.outputStep
    case Some(step) => if step != source then Err(OutputStepMismatch(t.id)) else SourceOutput(ctx, step)
    case None =>
      if t.output.value.None? then Err(NoOutputValue(t.id))
      else
        var names := Refs(t.output.value.value);
        if |names| != 1 then Err(NotOneVariable(t.id))
        else
          var sources := GetOr(ctx.variables, names[0], []);
          if sources == [] then Ok(([START, names[0]], StringTy))
          else if |sources| == 1 then SourceOutput(ctx, sources[0])
          else if source !in sources then Err(UnmatchedSource(names[0], source))
          else SourceOutput(ctx, source)
  }

  function EndId(t: Id, source: Id, alone: bool, count: nat): Id {
    if !alone then t + "_" + source
    else if count > 1 then t + "_" + Dec(count)
    else t
  }

  function OutputName(t: Terminal): string {
    if t.output.name.Some? && t.output.name.value != "" then t.output.name.value else "result"
  }

  /** One end node per incoming edge. */
  function AppendEnd(ctx: Context, t: Terminal, from: Pos, alone: bool, g: Building): Result<Building, GraphError>
    requires ContextOk(ctx)
  {
    var out :- TerminalOutput(ctx, t, from.node);
    var count := GetOr(g.counts, t.id, 0) + 1;
    var id := EndId(t.id, from.node, alone, count);
    var g1 :- AppendNode(g.(counts := g.counts[t.id := count]), EndNode(id, OutputName(t), out.0, DifyType(out.1)));
    AppendEdge(g1, from, id)
  }

  function AppendEnds(ctx: Context, t: Terminal, incoming: seq<Pos>, alone: bool, g: Building): Result<Building, GraphError>
    requires ContextOk(ctx)
    decreases |incoming|
  {
    if incoming == [] then Ok(g)
    else
      var g1 :- AppendEnd(ctx, t, incoming[0], alone, g);
      AppendEnds(ctx, t, incoming[1..], alone, g1)
  }

  // ----- The walk over the bodies, by ids -----

  type Lowered = Result<(Building, seq<Pos>), GraphError>

  predicate Above(ctx: Context, ids: seq<Id>, lo: nat) {
    forall x :: x in ids && x in ctx.index ==> ctx.index[x] >= lo
  }

  predicate BodiesAbove(ctx: Context, cases: seq<FlatCase>, elseBody: seq<Id>, lo: nat) {
    (forall i :: 0 <= i < |cases| ==> Above(ctx, cases[i].body, lo)) && Above(ctx, elseBody, lo)
  }

  /** A branch comes before the steps of its bodies, as the contract says. */
  predicate Ranked(ctx: Context)
    requires ContextOk(ctx)
  {
    forall id :: id in ctx.index && ctx.steps[ctx.index[id]].BranchStep? ==>
      BodiesAbove(ctx, ctx.steps[ctx.index[id]].cases, ctx.steps[ctx.index[id]].elseBody, ctx.index[id] + 1)
  }

  /** `lo` bounds the steps that can still occur; it only serves to show that the walk ends. */
  function WalkSequence(ctx: Context, ids: seq<Id>, lo: nat, incoming: seq<Pos>, g: Building): Lowered
    requires ContextOk(ctx) && Ranked(ctx) && Above(ctx, ids, lo)
    decreases |ctx.steps| - lo, 0, |ids|
  {
    if ids == [] then Ok((g, incoming))
    else
      var id := ids[0];
      if id in ctx.bindings then WalkSequence(ctx, ids[1..], lo, incoming, g)
      else if id in ctx.terminals then
        var g1 :- AppendEnds(ctx, ctx.terminals[id], incoming, |incoming| == 1, g);
        WalkSequence(ctx, ids[1..], lo, [], g1)
      else if id !in ctx.index then Err(UnknownObject(id))
      else
        var g1 :- AppendEdges(g.(visited := g.visited + {id}), incoming, id);
        match ctx.steps[ctx.index[id]]
        case CallStep(_, _) => WalkSequence(ctx, ids[1..], lo, [Pos(id, SOURCE)], g1)
        case BranchStep(_, cases, elseBody) =>
          var r :- WalkCases(ctx, id, cases, elseBody, ctx.index[id] + 1, g1);
          WalkSequence(ctx, ids[1..], lo, r.1, r.0)
  }

  function WalkCases(ctx: Context, id: Id, cases: seq<FlatCase>, elseBody: seq<Id>, lo: nat, g: Building): Lowered
    requires ContextOk(ctx) && Ranked(ctx) && BodiesAbove(ctx, cases, elseBody, lo) && lo <= |ctx.steps|
    decreases |ctx.steps| - lo, 1, |cases|
  {
    if cases == [] then WalkSequence(ctx, elseBody, lo, [Pos(id, FALSE)], g)
    else
      var r :- WalkSequence(ctx, cases[0].body, lo, [Pos(id, cases[0].caseId)], g);
      var q :- WalkCases(ctx, id, cases[1..], elseBody, lo, r.0);
      Ok((q.0, r.1 + q.1))
  }

  // ----- The same walk over the tree -----

  function LowerBlock(ctx: Context, b: Block, incoming: seq<Pos>, g: Building): Lowered
    requires ContextOk(ctx)
    decreases b
  {
    match b
    case BNil => Ok((g, incoming))
    case BCons(n, rest) =>
      var r :- LowerNode(ctx, n, incoming, g);
      LowerBlock(ctx, rest, r.1, r.0)
  }

  function LowerNode(ctx: Context, n: Node, incoming: seq<Pos>, g: Building): Lowered
    requires ContextOk(ctx)
    decreases n
  {
    match n
    case BindN(_, _, _) => Ok((g, incoming))
    case TermN(id, output, step, _) =>
      var g1 :- AppendEnds(ctx, Terminal(id, output, step), incoming, |incoming| == 1, g);
      Ok((g1, []))
    case CallN(id, _) =>
      var g1 :- AppendEdges(g.(visited := g.visited + {id}), incoming, id);
      Ok((g1, [Pos(id, SOURCE)]))
    case BranchN(id, arms) =>
      var g1 :- AppendEdges(g.(visited := g.visited + {id}), incoming, id);
      LowerArms(ctx, id, arms, 0, g1)
  }

  function LowerArms(ctx: Context, id: Id, arms: NodeArms, i: nat, g: Building): Lowered
    requires ContextOk(ctx)
    decreases arms
  {
    match arms
    case CaseN(_, body, rest) =>
      var r :- LowerBlock(ctx, body, [Pos(id, CaseId(i))], g);
      var q :- LowerArms(ctx, id, rest, i + 1, r.0);
      Ok((q.0, r.1 + q.1))
    case ElseN(body) =>
      LowerBlock(ctx, body, [Pos(id, FALSE)], g)
  }
}
