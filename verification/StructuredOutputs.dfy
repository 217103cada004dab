/**
 Structured outputs: a call declares a field exactly when some condition reads it, with the condition's type, and a
 selector of a whole output goes to the structured output just when the call declares a field.
 */
module StructuredOutputs {
  import opened Prelude
  import opened Text
  import opened Pseudocode
  import opened FlowSemantics
  import opened WorkflowGraph
  import opened Lowering
  import opened Refinement
  import opened GraphSpec
  import opened ControlFlow
  import opened Correctness
  import opened Shape
  import opened Dataflow

  // ----- All comparisons of a flow, in the order in which they are inferred from -----

  function CaseComparisons(cases: seq<FlatCase>): seq<Comparison> {
    if cases == [] then []
    else (if cases[0].cond.Parsed? then cases[0].cond.comparisons else []) + CaseComparisons(cases[1..])
  }

  function AllComparisons(steps: seq<Step>): seq<Comparison> {
    if steps == [] then []
    else (if steps[0].BranchStep? then CaseComparisons(steps[0].cases) else []) + AllComparisons(steps[1..])
  }

  lemma {:induction false} InferConcat(ctx: Context, a: seq<Comparison>, b: seq<Comparison>)
    requires ContextOk(ctx)
    ensures InferComparisons(ctx, a + b) ==
            match InferComparisons(ctx, a)
            case Err(e) => Err(e)
            case Ok(c) => InferComparisons(c, b)
    decreases |a|
  {
    if a == [] {
      assert a + b == b;
    } else {
      assert (a + b)[1..] == a[1..] + b;
      match InferComparison(ctx, a[0])
      case Ok(c) => InferConcat(c, a[1..], b);
      case Err(_) =>
    }
  }

  lemma {:induction false} InferCasesFlat(ctx: Context, id: Id, cases: seq<FlatCase>)
    requires ContextOk(ctx) && InferCases(ctx, id, cases).Ok?
    ensures InferComparisons(ctx, CaseComparisons(cases)) == InferCases(ctx, id, cases)
    decreases |cases|
  {
    if cases != [] {
      var c := InferComparisons(ctx, cases[0].cond.comparisons).value;
      InferCasesFlat(c, id, cases[1..]);
      InferConcat(ctx, cases[0].cond.comparisons, CaseComparisons(cases[1..]));
    }
  }

  lemma {:induction false} InferStepsFlat(ctx: Context, steps: seq<Step>)
    requires ContextOk(ctx) && InferSteps(ctx, steps).Ok?
    ensures InferComparisons(ctx, AllComparisons(steps)) == InferSteps(ctx, steps)
    decreases |steps|
  {
    if steps != [] {
      var rest := AllComparisons(steps[1..]);
      if steps[0].CallStep? {
        InferStepsFlat(ctx, steps[1..]);
        assert AllComparisons(steps) == [] + rest == rest;
      } else {
        var c := InferCases(ctx, steps[0].id, steps[0].cases).value;
        InferCasesFlat(ctx, steps[0].id, steps[0].cases);
        InferStepsFlat(c, steps[1..]);
        InferConcat(ctx, CaseComparisons(steps[0].cases), rest);
      }
    }
  }

  // ----- What is inferred -----

  predicate Has(fields: map<Id, Fields>, id: Id, key: string, ty: Ty) {
    id in fields && key in fields[id] && fields[id][key] == ty
  }

  /** The comparison reads this field, of the one call that its variable comes from. */
  predicate ReadsField(variables: map<string, seq<Id>>, c: Comparison, id: Id, key: string, ty: Ty) {
    HasKey(c) && c.key.value == key && GetOr(variables, c.name, []) == [id] && SchemaType(c) == ty
  }

  ghost predicate SomeReadsField(variables: map<string, seq<Id>>, cs: seq<Comparison>, id: Id, key: string, ty: Ty) {
    exists c :: c in cs && ReadsField(variables, c, id, key, ty)
  }

  predicate NonemptyFields(fields: map<Id, Fields>) {
    forall id :: id in fields ==> fields[id] != map[]
  }

  lemma {:induction false} InferredExactly(ctx: Context, cs: seq<Comparison>)
    requires ContextOk(ctx) && InferComparisons(ctx, cs).Ok? && NonemptyFields(ctx.fields)
    ensures var r := InferComparisons(ctx, cs).value;
            NonemptyFields(r.fields) &&
            (forall id, key, ty :: Has(r.fields, id, key, ty) <==> Has(ctx.fields, id, key, ty) || SomeReadsField(ctx.variables, cs, id, key, ty)) &&
            forall c :: c in cs && HasKey(c) ==> |GetOr(ctx.variables, c.name, [])| == 1 && IsCall(ctx, GetOr(ctx.variables, c.name, [])[0])
    decreases |cs|
  {
    if cs != [] {
      var c1 := InferComparison(ctx, cs[0]).value;
      OneInferred(ctx, cs[0]);
      InferredExactly(c1, cs[1..]);
      var r := InferComparisons(ctx, cs).value;
      assert cs == [cs[0]] + cs[1..];
      forall id, key, ty
        ensures Has(r.fields, id, key, ty) <==> Has(ctx.fields, id, key, ty) || SomeReadsField(ctx.variables, cs, id, key, ty)
      {
        assert SomeReadsField(ctx.variables, cs, id, key, ty) <==>
               ReadsField(ctx.variables, cs[0], id, key, ty) || SomeReadsField(ctx.variables, cs[1..], id, key, ty);
      }
    }
  }

  lemma OneInferred(ctx: Context, c: Comparison)
    requires ContextOk(ctx) && InferComparison(ctx, c).Ok? && NonemptyFields(ctx.fields)
    ensures var r := InferComparison(ctx, c).value;
            NonemptyFields(r.fields) && r == ctx.(fields := r.fields) &&
            (forall id, key, ty :: Has(r.fields, id, key, ty) <==> Has(ctx.fields, id, key, ty) || ReadsField(ctx.variables, c, id, key, ty)) &&
            (HasKey(c) ==> |GetOr(ctx.variables, c.name, [])| == 1 && IsCall(ctx, GetOr(ctx.variables, c.name, [])[0]))
  {
    if HasKey(c) {
      var source := GetOr(ctx.variables, c.name, [])[0];
      assert GetOr(ctx.variables, c.name, []) == [source];
      var fields := GetOr(ctx.fields, source, map[]);
      assert c.key.value in fields[c.key.value := SchemaType(c)];
    }
  }

  // ----- Comparisons and the conditions of the graph -----

  lemma {:induction false} ComparisonOfCase(cases: seq<FlatCase>, c: Comparison) returns (i: nat, j: nat)
    requires c in CaseComparisons(cases)
    ensures i < |cases| && cases[i].cond.Parsed? && j < |cases[i].cond.comparisons| && cases[i].cond.comparisons[j] == c
    decreases |cases|
  {
    if cases[0].cond.Parsed? && c in cases[0].cond.comparisons {
      i := 0;
      j :| 0 <= j < |cases[0].cond.comparisons| && cases[0].cond.comparisons[j] == c;
    } else {
      i, j := ComparisonOfCase(cases[1..], c);
      i := i + 1;
    }
  }

  lemma {:induction false} ComparisonOfStep(steps: seq<Step>, c: Comparison) returns (s: Step, i: nat, j: nat)
    requires c in AllComparisons(steps)
    ensures s in steps && s.BranchStep? && i < |s.cases|
    ensures s.cases[i].cond.Parsed? && j < |s.cases[i].cond.comparisons| && s.cases[i].cond.comparisons[j] == c
    decreases |steps|
  {
    if steps[0].BranchStep? && c in CaseComparisons(steps[0].cases) {
      s := steps[0];
      i, j := ComparisonOfCase(s.cases, c);
    } else {
      s, i, j := ComparisonOfStep(steps[1..], c);
    }
  }

  lemma {:induction false} CaseHasComparison(cases: seq<FlatCase>, i: nat, j: nat)
    requires i < |cases| && cases[i].cond.Parsed? && j < |cases[i].cond.comparisons|
    ensures cases[i].cond.comparisons[j] in CaseComparisons(cases)
    decreases |cases|
  {
    if i > 0 {
      CaseHasComparison(cases[1..], i - 1, j);
    }
  }

  lemma {:induction false} StepHasComparison(steps: seq<Step>, s: Step, i: nat, j: nat)
    requires s in steps && s.BranchStep? && i < |s.cases| && s.cases[i].cond.Parsed? && j < |s.cases[i].cond.comparisons|
    ensures s.cases[i].cond.comparisons[j] in AllComparisons(steps)
    decreases |steps|
  {
    if s == steps[0] {
      CaseHasComparison(s.cases, i, j);
    } else {
      StepHasComparison(steps[1..], s, i, j);
    }
  }

  lemma {:induction false} ConditionBuilt(ctx: Context, id: Id, caseId: string, index: nat, cs: seq<Comparison>, j: nat)
    requires ContextOk(ctx) && BuildConditions(ctx, id, caseId, index, cs).Ok? && j < |cs|
    ensures BuildCondition(ctx, id, caseId, index + j, cs[j]) == Ok(BuildConditions(ctx, id, caseId, index, cs).value[j])
    decreases |cs|
  {
    hide BuildCondition;
    if j > 0 {
      ConditionBuilt(ctx, id, caseId, index + 1, cs[1..], j - 1);
    }
  }

  /** Condition `j` of case `i` is built from comparison `j` of case `i`. */
  lemma {:induction false} CaseBuilt(ctx: Context, id: Id, cases: seq<FlatCase>, i: nat)
    requires ContextOk(ctx) && BuildCases(ctx, id, cases).Ok? && i < |cases|
    ensures var m := BuildCases(ctx, id, cases).value;
            cases[i].cond.Parsed? && |m[i].conditions| == |cases[i].cond.comparisons| &&
            forall j :: 0 <= j < |m[i].conditions| ==> FromComparison(ctx, m[i].conditions[j], cases[i].cond.comparisons[j])
    decreases |cases|
  {
    if i > 0 {
      CaseBuilt(ctx, id, cases[1..], i - 1);
    } else {
      var cs := cases[0].cond.comparisons;
      forall j | 0 <= j < |cs|
        ensures FromComparison(ctx, BuildConditions(ctx, id, cases[0].caseId, 0, cs).value[j], cs[j])
      {
        ConditionBuilt(ctx, id, cases[0].caseId, 0, cs, j);
      }
    }
  }

  predicate FromComparison(ctx: Context, n: GraphCondition, c: Comparison)
    requires ContextOk(ctx)
  {
    ConditionSource(ctx, c).Ok? && n.selector == ConditionSource(ctx, c).value.0 && n.varType == DifyType(ConditionSource(ctx, c).value.1)
  }

  // ----- The accepted graph -----

  /** The fields in the context are those that the comparisons of the flow read. */
  ghost predicate KnownFields(flow: Flow, ctx: Context) {
    ContextOk(ctx) && ctx.steps == flow.steps && ctx.variables == flow.variables && NonemptyFields(ctx.fields) &&
    (forall id, key, ty :: Has(ctx.fields, id, key, ty) <==> SomeReadsField(flow.variables, AllComparisons(flow.steps), id, key, ty)) &&
    forall c :: c in AllComparisons(flow.steps) && HasKey(c) ==>
      |GetOr(flow.variables, c.name, [])| == 1 && IsCall(ctx, GetOr(flow.variables, c.name, [])[0])
  }

  ghost predicate HasStepNodes(flow: Flow, ctx: Context, nodes: seq<GNode>)
    requires ContextOk(ctx)
  {
    forall s :: s in flow.steps ==> exists m :: m in nodes && BuildStepNode(ctx, s) == Ok(m)
  }

  ghost predicate FromStep(flow: Flow, ctx: Context, m: GNode)
    requires ContextOk(ctx)
  {
    exists s :: s in flow.steps && BuildStepNode(ctx, s) == Ok(m)
  }

  ghost predicate KnownNodes(flow: Flow, ctx: Context, nodes: seq<GNode>)
    requires ContextOk(ctx)
  {
    forall m :: m in nodes ==> (m.StartNode? && m.id == START) || FromStep(flow, ctx, m) || EndFor(ctx, flow.terminals, m)
  }

  /** All that is known of an accepted graph's context and nodes. */
  ghost predicate Inferred(flow: Flow, ctx: Context, graph: Graph) {
    KnownFields(flow, ctx) && HasStepNodes(flow, ctx, graph.nodes) && KnownNodes(flow, ctx, graph.nodes)
  }

  lemma InferredFields(flow: Flow, ctx0: Context, ctx: Context)
    requires ContextOk(ctx0) && ctx0.fields == map[] && ctx0.steps == flow.steps && ctx0.variables == flow.variables
    requires InferSteps(ctx0, flow.steps) == Ok(ctx)
    ensures KnownFields(flow, ctx)
  {
    hide SomeReadsField, InferSteps, InferComparisons, HasKey;
    InferStepsFlat(ctx0, flow.steps);
    InferredExactly(ctx0, AllComparisons(flow.steps));
    assert forall id, key, ty :: !Has(ctx0.fields, id, key, ty);
    assert forall id :: IsCall(ctx0, id) == IsCall(ctx, id);
  }

  lemma LoadedFirst(p: Program, flow: Flow, ctx: Context, g: Building) returns (ctx0: Context)
    requires Ready(p, flow, ctx, g)
    ensures ContextOk(ctx0) && ctx0.fields == map[] && ctx0.steps == flow.steps && ctx0.variables == flow.variables
    ensures InferSteps(ctx0, flow.steps) == Ok(ctx)
  {
    hide Holds, Ranked, Above, GraphOk, AppendStepNodes, InferSteps, Loaded, NoDup;
    ctx0 := Load(flow).value;
  }

  lemma FieldsInferred(p: Program, flow: Flow, ctx: Context, g: Building)
    requires Ready(p, flow, ctx, g)
    ensures KnownFields(flow, ctx)
  {
    var ctx0 := LoadedFirst(p, flow, ctx, g);
    hide *;
    InferredFields(flow, ctx0, ctx);
  }

  lemma PreparedKnown(flow: Flow, ctx: Context, g: Building)
    requires ContextOk(ctx) && StepNodesAt(ctx, flow.steps, StartBuilding(flow).nodes, g.nodes)
    ensures KnownNodes(flow, ctx, g.nodes) && HasStepNodes(flow, ctx, g.nodes)
  {
    hide BuildStepNode;
    forall m | m in g.nodes
      ensures (m.StartNode? && m.id == START) || FromStep(flow, ctx, m)
    {
      var i :| 0 <= i < |g.nodes| && g.nodes[i] == m;
      if i == 0 {
        assert m == StartBuilding(flow).nodes[0];
      } else {
        assert BuildStepNode(ctx, flow.steps[i - 1]) == Ok(g.nodes[1 + (i - 1)]) && flow.steps[i - 1] in flow.steps;
      }
    }
    forall s | s in flow.steps
      ensures exists m :: m in g.nodes && BuildStepNode(ctx, s) == Ok(m)
    {
      var k :| 0 <= k < |flow.steps| && flow.steps[k] == s;
      assert BuildStepNode(ctx, flow.steps[k]) == Ok(g.nodes[1 + k]);
    }
  }

  lemma AddedKnown(flow: Flow, ctx: Context, g: Building, h: Building)
    requires ContextOk(ctx) && OnlyEnds(ctx, flow.terminals, g, h)
    requires KnownNodes(flow, ctx, g.nodes) && HasStepNodes(flow, ctx, g.nodes)
    ensures KnownNodes(flow, ctx, h.nodes) && HasStepNodes(flow, ctx, h.nodes)
  {
    hide EndFor, BuildStepNode, FromStep;
    assert forall m :: m in g.nodes ==> m in h.nodes;
  }

  /** The graph is what the walk over the bodies makes in this context. */
  ghost predicate IsLowered(p: Program, flow: Flow, ctx: Context, graph: Graph) {
    exists g: Building, h: Building :: Ready(p, flow, ctx, g) && Lowers(p, ctx, g) == Ok((h, [])) && graph == Graph(h.nodes, h.edges)
  }

  lemma AcceptedIsInferred(p: Program, flow: Flow, graph: Graph) returns (ctx: Context)
    requires Pipeline(p) == Ok((flow, graph))
    ensures Inferred(flow, ctx, graph) && IsLowered(p, flow, ctx, graph)
  {
    var g, h;
    ctx, g, h := AcceptedFacts(p, flow, graph);
    PreparedNodes(p, flow, ctx, g);
    FlowOfReady(p, flow, ctx, g);
    FieldsInferred(p, flow, ctx, g);
    assert IsLowered(p, flow, ctx, graph);
    hide *;
    assert ContextOk(ctx) && StepNodesAt(ctx, flow.steps, StartBuilding(flow).nodes, g.nodes);
    PreparedKnown(flow, ctx, g);
    LoweredKnown(p, flow, ctx, g, h);
    InferredFrom(flow, ctx, graph, h);
  }

  lemma LoweredKnown(p: Program, flow: Flow, ctx: Context, g: Building, h: Building)
    requires ContextOk(ctx) && Lowers(p, ctx, g) == Ok((h, [])) && flow.terminals == Terminals(Tree(p))
    requires KnownNodes(flow, ctx, g.nodes) && HasStepNodes(flow, ctx, g.nodes)
    ensures KnownNodes(flow, ctx, h.nodes) && HasStepNodes(flow, ctx, h.nodes)
  {
    hide KnownNodes, HasStepNodes, LowerBlock, OnlyEnds;
    BlockAddsEnds(ctx, Tree(p), [ENTRY], g);
    AddedKnown(flow, ctx, g, h);
  }

  lemma InferredFrom(flow: Flow, ctx: Context, graph: Graph, h: Building)
    requires KnownFields(flow, ctx) && KnownNodes(flow, ctx, h.nodes) && HasStepNodes(flow, ctx, h.nodes)
    requires graph == Graph(h.nodes, h.edges)
    ensures Inferred(flow, ctx, graph)
  {
  }

  // ----- Consistency -----

  /** Some condition in the graph reads this field of this node, as this type. */
  ghost predicate ConditionReads(graph: Graph, id: Id, key: string, ty: Ty) {
    exists m, i, j :: m in graph.nodes && ConditionAt(m, i, j) && m.cases[i].conditions[j].selector == [id, STRUCTURED, key] &&
      m.cases[i].conditions[j].varType == DifyType(ty)
  }

  predicate ConditionAt(m: GNode, i: int, j: int) {
    m.IfElseNode? && 0 <= i < |m.cases| && 0 <= j < |m.cases[i].conditions|
  }

  lemma TypesDiffer(a: Ty, b: Ty)
    ensures DifyType(a) == DifyType(b) ==> a == b
  {
    assert |"string"| == 6 && |"number"| == 6 && |"boolean"| == 7 && |"object"| == 6 && |"file"| == 4 && |"array[file]"| == 11;
    assert "string"[0] == 's' && "number"[0] == 'n' && "object"[0] == 'o';
  }

  /**
   A call node declares a field with a type if and only if some condition in the graph reads that field of that node
   with that type.
   */
  lemma SchemasAreExact(p: Program, flow: Flow, graph: Graph, n: GNode, key: string, ty: Ty)
    requires Pipeline(p) == Ok((flow, graph)) && n in graph.nodes && n.LlmNode?
    ensures key in n.schema && n.schema[key] == ty <==> ConditionReads(graph, n.id, key, ty)
  {
    var ctx := AcceptedIsInferred(p, flow, graph);
    hide Pipeline;
    SchemaIsFields(flow, ctx, graph, n);
    if Has(ctx.fields, n.id, key, ty) {
      FieldIsRead(flow, ctx, graph, n.id, key, ty);
    }
    if ConditionReads(graph, n.id, key, ty) {
      ReadIsField(flow, ctx, graph, n.id, key, ty);
    }
  }

  lemma SchemaIsFields(flow: Flow, ctx: Context, graph: Graph, n: GNode)
    requires Inferred(flow, ctx, graph) && n in graph.nodes && n.LlmNode?
    ensures n.schema == GetOr(ctx.fields, n.id, map[])
  {
    assert FromStep(flow, ctx, n);
  }

  lemma FieldIsRead(flow: Flow, ctx: Context, graph: Graph, id: Id, key: string, ty: Ty)
    requires Inferred(flow, ctx, graph) && Has(ctx.fields, id, key, ty)
    ensures ConditionReads(graph, id, key, ty)
  {
    assert SomeReadsField(flow.variables, AllComparisons(flow.steps), id, key, ty);
    var c :| c in AllComparisons(flow.steps) && ReadsField(flow.variables, c, id, key, ty);
    var s, i, j := ComparisonOfStep(flow.steps, c);
    var m :| m in graph.nodes && BuildStepNode(ctx, s) == Ok(m);
    CaseBuilt(ctx, s.id, s.cases, i);
    assert FromComparison(ctx, m.cases[i].conditions[j], c);
    assert ConditionAt(m, i, j);
  }

  lemma ReadIsField(flow: Flow, ctx: Context, graph: Graph, id: Id, key: string, ty: Ty)
    requires Inferred(flow, ctx, graph) && ConditionReads(graph, id, key, ty)
    ensures Has(ctx.fields, id, key, ty)
  {
    var m, i, j :| m in graph.nodes && ConditionAt(m, i, j) && m.cases[i].conditions[j].selector == [id, STRUCTURED, key] &&
      m.cases[i].conditions[j].varType == DifyType(ty);
    var s, c := ConditionStands(flow, ctx, graph, m, i, j);
    var sources := GetOr(ctx.variables, c.name, []);
    assert HasKey(c) by {
      assert |ConditionSource(ctx, c).value.0| == 3;
    }
    assert sources == [id];
    assert ReadsField(flow.variables, c, id, key, SchemaType(c));
    assert Has(ctx.fields, id, key, SchemaType(c));
    TypesDiffer(ty, SchemaType(c));
  }

  lemma ConditionStands(flow: Flow, ctx: Context, graph: Graph, m: GNode, i: nat, j: nat) returns (s: Step, c: Comparison)
    requires Inferred(flow, ctx, graph) && m in graph.nodes && ConditionAt(m, i, j)
    ensures c in AllComparisons(flow.steps) && FromComparison(ctx, m.cases[i].conditions[j], c)
  {
    assert FromStep(flow, ctx, m);
    s :| s in flow.steps && BuildStepNode(ctx, s) == Ok(m);
    CaseBuilt(ctx, s.id, s.cases, i);
    c := s.cases[i].cond.comparisons[j];
    StepHasComparison(flow.steps, s, i, j);
  }

  // ----- Selectors -----

  /** What the nodes of the graph select. */
  ghost predicate Selects(n: GNode, selector: Selector) {
    match n
    case StartNode(_, _) => false
    case LlmNode(_, _, prompt, _) => Ref(selector) in prompt
    case IfElseNode(_, _) => exists i, j :: ConditionAt(n, i, j) && n.cases[i].conditions[j].selector == selector
    case EndNode(_, _, end, _) => end == selector
  }

  /** An input, a declared field of a call, or a whole output: the structured one just when the call declares a field. */
  ghost predicate WellSelected(graph: Graph, selector: Selector) {
    (|selector| == 2 && selector[0] == START) ||
    exists n :: n in graph.nodes && n.LlmNode? && SelectsFrom(n, selector)
  }

  predicate SelectsFrom(n: GNode, selector: Selector)
    requires n.LlmNode?
  {
    if |selector| == 3 then selector[0] == n.id && selector[1] == "structured_output" && selector[2] in n.schema
    else selector == [n.id, if n.schema == map[] then "text" else "structured_output"]
  }

  lemma WholeOutput(flow: Flow, ctx: Context, graph: Graph, id: Id)
    requires Inferred(flow, ctx, graph) && SourceOutput(ctx, id).Ok?
    ensures WellSelected(graph, SourceOutput(ctx, id).value.0)
  {
    var s := ctx.steps[ctx.index[id]];
    assert s in flow.steps;
    var m :| m in graph.nodes && BuildStepNode(ctx, s) == Ok(m);
    assert SelectsFrom(m, SourceOutput(ctx, id).value.0);
  }

  lemma FieldOutput(flow: Flow, ctx: Context, graph: Graph, c: Comparison)
    requires Inferred(flow, ctx, graph) && c in AllComparisons(flow.steps) && ConditionSource(ctx, c).Ok?
    ensures WellSelected(graph, ConditionSource(ctx, c).value.0)
  {
    if HasKey(c) {
      var id := GetOr(ctx.variables, c.name, [])[0];
      var s := ctx.steps[ctx.index[id]];
      assert s in flow.steps;
      var m :| m in graph.nodes && BuildStepNode(ctx, s) == Ok(m);
      assert ReadsField(flow.variables, c, id, c.key.value, SchemaType(c));
      assert Has(ctx.fields, id, c.key.value, SchemaType(c));
      assert SelectsFrom(m, [id, STRUCTURED, c.key.value]);
    } else if GetOr(ctx.variables, c.name, []) != [] {
      WholeOutput(flow, ctx, graph, GetOr(ctx.variables, c.name, [])[0]);
    }
  }

  /** Every selector of an accepted graph fits the schema of the node that it names. */
  lemma SelectorsFitSchemas(p: Program, flow: Flow, graph: Graph, n: GNode, selector: Selector)
    requires Pipeline(p) == Ok((flow, graph)) && n in graph.nodes && Selects(n, selector)
    ensures WellSelected(graph, selector)
  {
    var ctx := AcceptedIsInferred(p, flow, graph);
    hide Pipeline, WellSelected, Inferred;
    NodeSelects(flow, ctx, graph, n, selector);
  }

  lemma NodeSelects(flow: Flow, ctx: Context, graph: Graph, n: GNode, selector: Selector)
    requires Inferred(flow, ctx, graph) && n in graph.nodes && Selects(n, selector)
    ensures WellSelected(graph, selector)
  {
    match n
    case LlmNode(_, _, _, _) => PromptSelects(flow, ctx, graph, n, selector);
    case IfElseNode(_, _) =>
      var i, j :| ConditionAt(n, i, j) && n.cases[i].conditions[j].selector == selector;
      var _, c := ConditionStands(flow, ctx, graph, n, i, j);
      FieldOutput(flow, ctx, graph, c);
    case EndNode(_, _, _, _) => EndSelectsWell(flow, ctx, graph, n);
  }

  lemma PromptSelects(flow: Flow, ctx: Context, graph: Graph, n: GNode, selector: Selector)
    requires Inferred(flow, ctx, graph) && n in graph.nodes && n.LlmNode? && Ref(selector) in n.prompt
    ensures WellSelected(graph, selector)
  {
    assert FromStep(flow, ctx, n);
    var s :| s in flow.steps && BuildStepNode(ctx, s) == Ok(n);
    PromptRefers(ctx, s.call);
    RefListed(n.prompt, selector);
    var j :| 0 <= j < |RefsIn(n.prompt)| && RefsIn(n.prompt)[j] == selector;
    var name := OccurringValues(CallValues(s.call))[j];
    assert IsOutput(ctx, name, selector);
    if GetOr(ctx.variables, name, []) != [] {
      WholeOutput(flow, ctx, graph, GetOr(ctx.variables, name, [])[0]);
    }
  }

  lemma EndSelectsWell(flow: Flow, ctx: Context, graph: Graph, n: GNode)
    requires Inferred(flow, ctx, graph) && n in graph.nodes && n.EndNode?
    ensures WellSelected(graph, n.selector)
  {
    assert EndFor(ctx, flow.terminals, n);
    var t, at, alone :| t in flow.terminals && MadeFrom(ctx, n, t, at, alone);
    if t.outputStep.Some? {
      WholeOutput(flow, ctx, graph, at.node);
    } else {
      var sources := GetOr(ctx.variables, Refs(t.output.value.value)[0], []);
      if |sources| == 1 {
        WholeOutput(flow, ctx, graph, sources[0]);
      } else if sources != [] {
        WholeOutput(flow, ctx, graph, at.node);
      }
    }
  }
}
