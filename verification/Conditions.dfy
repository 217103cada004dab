/**
 What generated conditions test. Comparisons of the source have a meaning by their operator and constant, conditions of
 the graph one by the text of their operator and their value; in an accepted graph the two agree, so that a branch takes
 the arm of the first case that holds in the source.
 */
module Conditions {
  import opened Prelude
  import opened Text
  import opened Pseudocode
  import opened FlowSemantics
  import opened Compile
  import opened WorkflowGraph
  import opened Lowering
  import opened Correctness
  import ControlFlow
  import Shape
  import opened GraphSpec
  import opened StructuredOutputs

  // ----- Values at run time -----

  datatype Datum = TextD(text: string) | NumberD(n: real) | BoolD(b: bool) | OtherD(empty: bool)

  datatype Operand = TextO(text: string) | BoolO(b: bool)

  /** How numerals are read and numbers written, and what is inside what; nothing is assumed of it. */
  datatype Reading = Reading(num: string -> real, show: real -> string, inside: (Datum, Operand) -> bool)

  predicate IsEmpty(v: Datum) {
    match v
    case TextD(text) => text == ""
    case NumberD(n) => n == 0.0
    case BoolD(b) => !b
    case OtherD(empty) => empty
  }

  // ----- The meaning of a source condition -----

  /** Numerals stand for themselves, and `None` for the empty text. */
  function OperandOf(c: Constant): Operand {
    match c
    case StrConst(text) => TextO(text)
    case IntConst(numeral) => TextO(numeral)
    case FloatConst(numeral) => TextO(numeral)
    case BoolConst(b) => BoolO(b)
    case NullConst => TextO("")
  }

  /** Numbers are equal by value. */
  predicate Equal(v: Datum, o: Operand, r: Reading) {
    match v
    case TextD(text) => o == TextO(text)
    case NumberD(n) => o.TextO? && n == r.num(o.text)
    case BoolD(b) => o == BoolO(b)
    case OtherD(_) => false
  }

  /** Numbers are identical as they are written. */
  predicate Identical(v: Datum, o: Operand, r: Reading) {
    match v
    case NumberD(n) => o == TextO(r.show(n))
    case _ => Equal(v, o, r)
  }

  predicate Ordered(v: Datum, o: Operand) {
    v.NumberD? && o.TextO?
  }

  predicate OperatorHolds(op: CmpOp, v: Datum, o: Operand, r: Reading) {
    match op
    case Eq => Equal(v, o, r)
    case Ne => !Equal(v, o, r)
    case Lt => Ordered(v, o) && v.n < r.num(o.text)
    case Le => Ordered(v, o) && v.n <= r.num(o.text)
    case Gt => Ordered(v, o) && v.n > r.num(o.text)
    case Ge => Ordered(v, o) && v.n >= r.num(o.text)
    case In => r.inside(v, o)
    case NotIn => !r.inside(v, o)
    case Is => Identical(v, o, r)
    case IsNot => !Identical(v, o, r)
    case Truthy => !IsEmpty(v)
    case Falsy => IsEmpty(v)
  }

  /** Comparisons with anything but a constant are refused. */
  predicate ComparisonHolds(c: Comparison, v: Datum, r: Reading) {
    match c.value
    case Some(Const(k)) => OperatorHolds(c.op, v, OperandOf(k), r)
    case _ => OperatorHolds(c.op, v, TextO(""), r)
  }

  /** The values of variables and of their fields. */
  type Valuation = (string, Option<string>) -> Datum

  function ValueOf(c: Comparison, val: Valuation): Datum {
    val(c.name, if c.key == Some("") then None else c.key)
  }

  predicate CondHolds(c: Condition, val: Valuation, r: Reading) {
    match c
    case Parsed(And, cs) => forall d :: 0 <= d < |cs| ==> ComparisonHolds(cs[d], ValueOf(cs[d], val), r)
    case Parsed(Or, cs) => exists d :: 0 <= d < |cs| && ComparisonHolds(cs[d], ValueOf(cs[d], val), r)
    case Unparsed(_) => false
  }

  /** The number of the first case that holds, or of the else body. */
  function ArmTaken(cases: seq<FlatCase>, val: Valuation, r: Reading): nat {
    if cases == [] || CondHolds(cases[0].cond, val, r) then 0 else 1 + ArmTaken(cases[1..], val, r)
  }

  // ----- The meaning of a condition of the graph -----

  function OperandIn(value: ConditionValue): Operand {
    match value
    case TextValue(text) => TextO(text)
    case BoolValue(b) => BoolO(b)
  }

  predicate Compares(v: Datum, o: Operand, r: Reading, holds: (real, real) -> bool) {
    v.NumberD? && o.TextO? && holds(v.n, r.num(o.text))
  }

  /** The operators by their texts; those of arithmetic are for numbers alone. */
  predicate Tests(operator: string, v: Datum, o: Operand, r: Reading) {
    if operator == "empty" then IsEmpty(v)
    else if operator == "not empty" then !IsEmpty(v)
    else if operator == "=" then Compares(v, o, r, (x, y) => x == y)
    else if operator == "≠" then v.NumberD? && !Compares(v, o, r, (x, y) => x == y)
    else if operator == "<" then Compares(v, o, r, (x, y) => x < y)
    else if operator == "≤" then Compares(v, o, r, (x, y) => x <= y)
    else if operator == ">" then Compares(v, o, r, (x, y) => x > y)
    else if operator == "≥" then Compares(v, o, r, (x, y) => x >= y)
    else if operator == "is" then Same(v, o, r)
    else if operator == "is not" then !Same(v, o, r)
    else if operator == "in" then r.inside(v, o)
    else operator == "not in" && !r.inside(v, o)
  }

  /** Same text, same truth value, or a number that is written like this. */
  predicate Same(v: Datum, o: Operand, r: Reading) {
    (v.TextD? && o == TextO(v.text)) || (v.BoolD? && o == BoolO(v.b)) || (v.NumberD? && o == TextO(r.show(v.n)))
  }

  predicate CaseHolds(c: GraphCase, at: Selector -> Datum, r: Reading) {
    match c.logical
    case And => forall d :: 0 <= d < |c.conditions| ==> ConditionHolds(c.conditions[d], at, r)
    case Or => exists d :: 0 <= d < |c.conditions| && ConditionHolds(c.conditions[d], at, r)
  }

  predicate ConditionHolds(c: GraphCondition, at: Selector -> Datum, r: Reading) {
    Tests(c.operator, at(c.selector), OperandIn(c.value), r)
  }

  function HandleTaken(cases: seq<GraphCase>, at: Selector -> Datum, r: Reading): string {
    if cases == [] then FALSE
    else if CaseHolds(cases[0], at, r) then cases[0].caseId
    else HandleTaken(cases[1..], at, r)
  }

  /** The value is of the type that the condition declares. */
  predicate IsOfType(v: Datum, ty: string) {
    if ty == "number" then v.NumberD?
    else if ty == "string" then v.TextD?
    else if ty == "boolean" then v.BoolD?
    else v.OtherD?
  }

  // ----- They agree -----

  lemma TypedAs(v: Datum, ty: Ty)
    ensures IsOfType(v, DifyType(ty)) <==>
            match ty
            case NumberTy => v.NumberD?
            case StringTy => v.TextD?
            case BooleanTy => v.BoolD?
            case _ => v.OtherD?
  {
    assert "number"[0] == 'n' && "string"[0] == 's' && "boolean"[0] == 'b' && "object"[0] == 'o' && "file"[0] == 'f' && "array[file]"[0] == 'a';
  }

  /** No two operators have the same text. */
  lemma TestsAre(v: Datum, o: Operand, r: Reading)
    ensures Tests("empty", v, o, r) <==> IsEmpty(v)
    ensures Tests("not empty", v, o, r) <==> !IsEmpty(v)
    ensures Tests("=", v, o, r) <==> v.NumberD? && o.TextO? && v.n == r.num(o.text)
    ensures Tests("≠", v, o, r) <==> v.NumberD? && !(o.TextO? && v.n == r.num(o.text))
    ensures Tests("<", v, o, r) <==> v.NumberD? && o.TextO? && v.n < r.num(o.text)
    ensures Tests("≤", v, o, r) <==> v.NumberD? && o.TextO? && v.n <= r.num(o.text)
    ensures Tests(">", v, o, r) <==> v.NumberD? && o.TextO? && v.n > r.num(o.text)
    ensures Tests("≥", v, o, r) <==> v.NumberD? && o.TextO? && v.n >= r.num(o.text)
    ensures Tests("is", v, o, r) <==> Same(v, o, r)
    ensures Tests("is not", v, o, r) <==> !Same(v, o, r)
    ensures Tests("in", v, o, r) <==> r.inside(v, o)
    ensures Tests("not in", v, o, r) <==> !r.inside(v, o)
  {
    assert "="[0] == '=' && "≠"[0] == '≠' && "<"[0] == '<' && "≤"[0] == '≤' && ">"[0] == '>' && "≥"[0] == '≥';
    assert "is"[1] == 's' && "in"[1] == 'n' && "is not"[0] == 'i' && "not in"[0] == 'n' && |"is"| == 2 && |"in"| == 2;
    assert |"empty"| == 5 && |"not empty"| == 9 && |"is not"| == 6 && |"not in"| == 6 && |"="| == 1;
  }

  lemma OperatorTests(op: CmpOp, ty: Ty, v: Datum, o: Operand, r: Reading)
    requires ConditionOperator(op, ty).Ok? && IsOfType(v, DifyType(ty))
    ensures Tests(ConditionOperator(op, ty).value, v, o, r) <==> OperatorHolds(op, v, o, r)
  {
    TypedAs(v, ty);
    TestsAre(v, o, r);
    hide Tests, IsOfType, DifyType, IsEmpty;
  }

  /** Whether a value is empty does not depend on what it is compared with. */
  lemma EmptyTests(op: CmpOp, v: Datum, a: Operand, b: Operand, r: Reading)
    requires op.Truthy? || op.Falsy?
    ensures OperatorHolds(op, v, a, r) <==> OperatorHolds(op, v, b, r)
  {
  }

  lemma ConditionMeans(ctx: Context, id: Id, caseId: string, index: nat, c: Comparison, v: Datum, r: Reading)
    requires ContextOk(ctx) && BuildCondition(ctx, id, caseId, index, c).Ok?
    requires IsOfType(v, BuildCondition(ctx, id, caseId, index, c).value.varType)
    ensures var built := BuildCondition(ctx, id, caseId, index, c).value;
            Tests(built.operator, v, OperandIn(built.value), r) <==> ComparisonHolds(c, v, r)
  {
    var built := BuildCondition(ctx, id, caseId, index, c).value;
    var ty := ConditionSource(ctx, c).value.1;
    OperatorTests(c.op, ty, v, OperandIn(built.value), r);
    hide Tests, OperatorHolds, IsOfType, ConditionSource;
    if c.op.Truthy? || c.op.Falsy? {
      EmptyTests(c.op, v, OperandIn(built.value), TextO(""), r);
      if c.value.Some? && c.value.value.Const? {
        EmptyTests(c.op, v, OperandIn(built.value), OperandOf(c.value.value.constant), r);
      }
    } else {
      assert OperandIn(built.value) == OperandOf(c.value.value.constant);
    }
  }

  /** Each condition selects a value of its declared type, and it is the value of what the comparison at its place reads. */
  ghost predicate Supplies(at: Selector -> Datum, val: Valuation, cs: seq<Comparison>, conditions: seq<GraphCondition>) {
    forall d :: 0 <= d < |cs| && d < |conditions| ==>
      at(conditions[d].selector) == ValueOf(cs[d], val) && IsOfType(at(conditions[d].selector), conditions[d].varType)
  }

  lemma {:induction false} ConditionsMean(
    ctx: Context, id: Id, caseId: string, index: nat, cs: seq<Comparison>, d: nat, at: Selector -> Datum, val: Valuation, r: Reading)
    requires ContextOk(ctx) && BuildConditions(ctx, id, caseId, index, cs).Ok? && d < |cs|
    requires Supplies(at, val, cs, BuildConditions(ctx, id, caseId, index, cs).value)
    ensures ConditionHolds(BuildConditions(ctx, id, caseId, index, cs).value[d], at, r) <==> ComparisonHolds(cs[d], ValueOf(cs[d], val), r)
    decreases |cs|
  {
    hide IsOfType, ValueOf, ComparisonHolds, Tests, BuildCondition;
    var built := BuildConditions(ctx, id, caseId, index, cs).value;
    if d > 0 {
      var rest := BuildConditions(ctx, id, caseId, index + 1, cs[1..]).value;
      assert forall k :: 0 <= k < |rest| ==> rest[k] == built[k + 1] && cs[1..][k] == cs[k + 1];
      ConditionsMean(ctx, id, caseId, index + 1, cs[1..], d - 1, at, val, r);
    } else {
      ConditionMeans(ctx, id, caseId, index, cs[0], at(built[0].selector), r);
    }
  }

  lemma CaseMeans(ctx: Context, id: Id, c: FlatCase, built: GraphCase, at: Selector -> Datum, val: Valuation, r: Reading)
    requires ContextOk(ctx) && c.cond.Parsed? && BuildConditions(ctx, id, c.caseId, 0, c.cond.comparisons).Ok?
    requires built == GraphCase(c.caseId, c.cond.logical, BuildConditions(ctx, id, c.caseId, 0, c.cond.comparisons).value)
    requires Supplies(at, val, c.cond.comparisons, built.conditions)
    ensures CaseHolds(built, at, r) <==> CondHolds(c.cond, val, r)
  {
    hide Supplies, ConditionHolds, ComparisonHolds, ValueOf, BuildConditions;
    var cs := c.cond.comparisons;
    forall d | 0 <= d < |cs|
      ensures ConditionHolds(built.conditions[d], at, r) <==> ComparisonHolds(cs[d], ValueOf(cs[d], val), r)
    {
      ConditionsMean(ctx, id, c.caseId, 0, cs, d, at, val, r);
    }
  }

  ghost predicate SuppliesAll(at: Selector -> Datum, val: Valuation, cases: seq<FlatCase>, built: seq<GraphCase>) {
    forall c :: 0 <= c < |cases| && c < |built| && cases[c].cond.Parsed? ==> Supplies(at, val, cases[c].cond.comparisons, built[c].conditions)
  }

  /** Case by case, and for the node as a whole. */
  ghost predicate Agree(at: Selector -> Datum, val: Valuation, r: Reading, cases: seq<FlatCase>, built: seq<GraphCase>) {
    |built| == |cases| && (forall c :: 0 <= c < |cases| ==> (CaseHolds(built[c], at, r) <==> CondHolds(cases[c].cond, val, r))) &&
    HandleTaken(built, at, r) ==
      (if ArmTaken(cases, val, r) < |cases| then cases[ArmTaken(cases, val, r)].caseId else FALSE)
  }

  lemma {:induction false} CasesMean(ctx: Context, id: Id, cases: seq<FlatCase>, at: Selector -> Datum, val: Valuation, r: Reading)
    requires ContextOk(ctx) && BuildCases(ctx, id, cases).Ok? && SuppliesAll(at, val, cases, BuildCases(ctx, id, cases).value)
    ensures Agree(at, val, r, cases, BuildCases(ctx, id, cases).value)
    decreases |cases|
  {
    hide Supplies, CaseHolds, CondHolds, BuildConditions;
    if cases != [] {
      var built := BuildCases(ctx, id, cases).value;
      var rest := BuildCases(ctx, id, cases[1..]).value;
      assert built == [built[0]] + rest && built[1..] == rest;
      CaseMeans(ctx, id, cases[0], built[0], at, val, r);
      assert SuppliesAll(at, val, cases[1..], rest) by {
        assert forall c :: 0 <= c < |rest| ==> rest[c] == built[c + 1] && cases[1..][c] == cases[c + 1];
      }
      CasesMean(ctx, id, cases[1..], at, val, r);
      forall c | 0 <= c < |cases|
        ensures CaseHolds(built[c], at, r) <==> CondHolds(cases[c].cond, val, r)
      {
        if c > 0 {
          var k := c - 1;
          assert CaseHolds(rest[k], at, r) <==> CondHolds(cases[1..][k].cond, val, r);
        }
      }
    }
  }

  /**
   In an accepted graph, for any values at the selectors and any values of variables and fields: when each condition of a
   branch selects the value that the comparison at its place reads, of the declared type, each case of the node holds if
   and only if the source condition does, and the node is left as the source takes its arms.
   */
  lemma BranchesTestWhatConditionsSay(
    p: Program, flow: Flow, graph: Graph, s: Step, n: GNode, at: Selector -> Datum, val: Valuation, r: Reading)
    requires Pipeline(p) == Ok((flow, graph)) && s in flow.steps && s.BranchStep? && n in graph.nodes && n.id == s.id
    requires n.IfElseNode? ==> SuppliesAll(at, val, s.cases, n.cases)
    ensures n.IfElseNode? && Agree(at, val, r, s.cases, n.cases)
  {
    var ctx := NodeOfStep(p, flow, graph, s, n);
    hide Pipeline, Agree, SuppliesAll;
    CasesMean(ctx, s.id, s.cases, at, val, r);
  }

  // ----- The types that conditions declare -----

  /**
   A field has the type of the constant that it is compared with; an input its declared type; and the whole output of a
   call is an object when the call declares a field.
   */
  ghost predicate TypeFits(flow: Flow, graph: Graph, c: Comparison, ty: string) {
    var sources := GetOr(flow.variables, c.name, []);
    if c.key.Some? && c.key.value != "" then
      ty == match c.value
            case Some(Const(IntConst(_))) => "number"
            case Some(Const(FloatConst(_))) => "number"
            case Some(Const(BoolConst(_))) => "boolean"
            case _ => "string"
    else if sources == [] then
      if Input(c.name, "number") in flow.inputs then ty == "number"
      else if Input(c.name, "file") in flow.inputs then ty == "file"
      else if Input(c.name, "file-list") in flow.inputs then ty == "array[file]"
      else ty == "string"
    else exists m :: m in graph.nodes && m.LlmNode? && m.id == sources[0] && ty == if m.schema == map[] then "string" else "object"
  }

  lemma {:induction false} LoadedTypes(inputs: seq<Input>, acc: map<string, string>, name: string, ty: string)
    requires forall i :: i in inputs && i.name == name ==> i.ty == ty
    ensures Input(name, ty) in inputs ==> name in InputTypes(inputs, acc) && InputTypes(inputs, acc)[name] == ty
    ensures Input(name, ty) !in inputs ==> GetOr(InputTypes(inputs, acc), name, "") == GetOr(acc, name, "") && (name in InputTypes(inputs, acc) <==> name in acc)
    decreases |inputs|
  {
    if inputs != [] {
      assert inputs == [inputs[0]] + inputs[1..];
      LoadedTypes(inputs[1..], acc[inputs[0].name := inputs[0].ty], name, ty);
    }
  }

  lemma InputType(p: Program, flow: Flow, ctx: Context, name: string)
    requires Semantics(p) == Ok(flow) && ctx.inputTypes == InputTypes(flow.inputs, map[])
    ensures var ty := DifyType(InputSchemaType(ctx, name));
            if Input(name, "number") in flow.inputs then ty == "number"
            else if Input(name, "file") in flow.inputs then ty == "file"
            else if Input(name, "file-list") in flow.inputs then ty == "array[file]"
            else ty == "string"
  {
    var ty := GuessType(p.types, name);
    LoadedTypes(flow.inputs, map[], name, ty);
    assert "number"[0] == 'n' && "paragraph"[0] == 'p' && |"file"| == 4 && |"file-list"| == 9;
  }

  /** The type that each condition of an accepted graph declares. */
  lemma ConditionTypes(p: Program, flow: Flow, graph: Graph, s: Step, n: GNode, i: nat, j: nat)
    requires Pipeline(p) == Ok((flow, graph)) && s in flow.steps && s.BranchStep? && n in graph.nodes && n.id == s.id
    requires i < |s.cases| && s.cases[i].cond.Parsed? && j < |s.cases[i].cond.comparisons|
    ensures n.IfElseNode? && i < |n.cases| && j < |n.cases[i].conditions|
    ensures TypeFits(flow, graph, s.cases[i].cond.comparisons[j], n.cases[i].conditions[j].varType)
  {
    var ctx := NodeOfStep(p, flow, graph, s, n);
    var ctx' := AcceptedIsInferred(p, flow, graph);
    SameContext(p, flow, graph, ctx, ctx');
    TypesLoaded(flow, ctx);
    CaseBuilt(ctx, s.id, s.cases, i);
    var c := s.cases[i].cond.comparisons[j];
    StepHasComparison(flow.steps, s, i, j);
    AcceptedSemantics(p, flow, graph);
    hide Pipeline, Semantics, TypeFits, Prepared, Walkable, IsLowered, InputSchemaType, Inferred, BuildCases;
    ComparisonTyped(p, flow, graph, ctx, c, DifyType(ConditionSource(ctx, c).value.1));
  }

  lemma AcceptedSemantics(p: Program, flow: Flow, graph: Graph)
    requires Pipeline(p) == Ok((flow, graph))
    ensures Semantics(p) == Ok(flow)
  {
  }

  lemma SameContext(p: Program, flow: Flow, graph: Graph, ctx: Context, other: Context)
    requires Walkable(flow) && Prepared(flow).Ok? && Prepared(flow).value.0 == ctx && IsLowered(p, flow, other, graph)
    ensures ctx == other
  {
    hide Prepared;
  }

  lemma TypesLoaded(flow: Flow, ctx: Context)
    requires Walkable(flow) && Prepared(flow).Ok? && Prepared(flow).value.0 == ctx
    ensures ctx.inputTypes == InputTypes(flow.inputs, map[])
  {
    hide InferSteps, AppendStepNodes;
  }

  lemma ComparisonTyped(p: Program, flow: Flow, graph: Graph, ctx: Context, c: Comparison, ty: string)
    requires Semantics(p) == Ok(flow) && Inferred(flow, ctx, graph) && ctx.inputTypes == InputTypes(flow.inputs, map[])
    requires c in AllComparisons(flow.steps) && ConditionSource(ctx, c).Ok? && ty == DifyType(ConditionSource(ctx, c).value.1)
    ensures TypeFits(flow, graph, c, ty)
  {
    var sources := GetOr(flow.variables, c.name, []);
    if HasKey(c) {
      assert ReadsField(flow.variables, c, sources[0], c.key.value, SchemaType(c)) by {
        assert sources == [sources[0]];
      }
      assert Has(ctx.fields, sources[0], c.key.value, SchemaType(c));
    } else if sources == [] {
      InputType(p, flow, ctx, c.name);
    } else {
      OutputTyped(flow, graph, ctx, sources[0]);
    }
  }

  lemma OutputTyped(flow: Flow, graph: Graph, ctx: Context, id: Id)
    requires Inferred(flow, ctx, graph) && SourceOutput(ctx, id).Ok?
    ensures exists m :: m in graph.nodes && m.LlmNode? && m.id == id &&
                        DifyType(SourceOutput(ctx, id).value.1) == if m.schema == map[] then "string" else "object"
  {
    var s := ctx.steps[ctx.index[id]];
    assert s in flow.steps;
    var m :| m in graph.nodes && BuildStepNode(ctx, s) == Ok(m);
    SchemaIsFields(flow, ctx, graph, m);
  }

  /** The start node declares the inputs in order; types that it does not know are plain text. */
  lemma StartDeclaresInputs(p: Program, flow: Flow, graph: Graph)
    requires Pipeline(p) == Ok((flow, graph))
    ensures |graph.nodes| > 0 && graph.nodes[0].StartNode? && |graph.nodes[0].variables| == |flow.inputs|
    ensures forall i :: 0 <= i < |flow.inputs| ==>
              graph.nodes[0].variables[i].name == flow.inputs[i].name &&
              graph.nodes[0].variables[i].ty ==
                if flow.inputs[i].ty in {"number", "file", "file-list", "select"} then flow.inputs[i].ty else "text-input"
  {
    var ctx, g, h := AcceptedFacts(p, flow, graph);
    PreparedNodes(p, flow, ctx, g);
    hide Pipeline, Ready, LowerBlock, GraphOk;
    ControlFlow.BlockGrows(ctx, Tree(p), [ENTRY], g);
    assert h.nodes[0] == g.nodes[0] == StartBuilding(flow).nodes[0];
  }

  ghost predicate EndIsTyped(graph: Graph, n: GNode)
    requires n.EndNode?
  {
    (n.valueType == "string" && |n.selector| == 2 && n.selector[0] == START) ||
    exists m :: m in graph.nodes && m.LlmNode? && |n.selector| > 0 && m.id == n.selector[0] &&
      n.valueType == if m.schema == map[] then "string" else "object"
  }

  /** An end node declares an object when it puts out the whole of a call that declares a field, and text otherwise. */
  lemma EndTypes(p: Program, flow: Flow, graph: Graph, n: GNode)
    requires Pipeline(p) == Ok((flow, graph)) && n in graph.nodes && n.EndNode?
    ensures EndIsTyped(graph, n)
  {
    var ctx := AcceptedIsInferred(p, flow, graph);
    hide Pipeline, IsLowered, EndIsTyped;
    assert Shape.EndFor(ctx, flow.terminals, n);
    var t, at, alone :| t in flow.terminals && ControlFlow.MadeFrom(ctx, n, t, at, alone);
    EndTyped(flow, graph, ctx, n, t, at, alone);
  }

  lemma EndTyped(flow: Flow, graph: Graph, ctx: Context, n: GNode, t: Terminal, at: Pos, alone: bool)
    requires Inferred(flow, ctx, graph) && n.EndNode? && ControlFlow.MadeFrom(ctx, n, t, at, alone)
    ensures EndIsTyped(graph, n)
  {
    hide Inferred, IsCall, KnownFields, KnownNodes;
    if t.outputStep.Some? {
      SourceTyped(flow, graph, ctx, n, at.node);
    } else {
      var sources := GetOr(ctx.variables, Refs(t.output.value.value)[0], []);
      if |sources| == 1 {
        SourceTyped(flow, graph, ctx, n, sources[0]);
      } else if sources != [] {
        SourceTyped(flow, graph, ctx, n, at.node);
      }
    }
  }

  lemma SourceTyped(flow: Flow, graph: Graph, ctx: Context, n: GNode, id: Id)
    requires Inferred(flow, ctx, graph) && n.EndNode? && SourceOutput(ctx, id).Ok?
    requires n.selector == SourceOutput(ctx, id).value.0 && n.valueType == DifyType(SourceOutput(ctx, id).value.1)
    ensures EndIsTyped(graph, n)
  {
    OutputTyped(flow, graph, ctx, id);
  }

  // ----- The ids of conditions -----

  /** Branch, number of the case from one on, and number of the condition from zero on. */
  function ConditionId(branch: Id, i: nat, j: nat): string {
    ((branch + "_case") + "_" + Dec(i + 1)) + "_" + Dec(j)
  }

  lemma ConditionIdApart(a: Id, i: nat, j: nat, b: Id, k: nat, l: nat)
    requires ConditionId(a, i, j) == ConditionId(b, k, l)
    ensures a == b && i == k && j == l
  {
    DecPlain(j);
    DecPlain(l);
    DecPlain(i + 1);
    DecPlain(k + 1);
    var x, y := (a + "_case") + "_" + Dec(i + 1), (b + "_case") + "_" + Dec(k + 1);
    SplitLast(x, Dec(j), y, Dec(l));
    SplitLast(a + "_case", Dec(i + 1), b + "_case", Dec(k + 1));
    DecInjective(j, l);
    DecInjective(i + 1, k + 1);
    assert a == (a + "_case")[..|a + "_case"| - 5] == (b + "_case")[..|b + "_case"| - 5] == b;
  }

  lemma ConditionIdIs(branch: Id, i: nat, j: nat)
    ensures branch + "_" + CaseId(i) + "_" + Dec(j) == ConditionId(branch, i, j)
  {
    assert "_" + "case_" == "_case" + "_";
    assert branch + "_" + ("case_" + Dec(i + 1)) == branch + ("_" + "case_") + Dec(i + 1);
    assert branch + ("_case" + "_") + Dec(i + 1) == (branch + "_case") + "_" + Dec(i + 1);
  }

  /** The id of condition `j` of case `i`; no two conditions of a graph have the same, by `ConditionIdApart`. */
  lemma ConditionIds(p: Program, flow: Flow, graph: Graph, s: Step, n: GNode, i: nat, j: nat)
    requires Pipeline(p) == Ok((flow, graph)) && s in flow.steps && s.BranchStep? && n in graph.nodes && n.id == s.id
    requires i < |s.cases| && s.cases[i].cond.Parsed? && j < |s.cases[i].cond.comparisons|
    ensures n.IfElseNode? && i < |n.cases| && j < |n.cases[i].conditions| && n.cases[i].conditions[j].id == ConditionId(n.id, i, j)
  {
    var ctx := NodeOfStep(p, flow, graph, s, n);
    CompiledCase(p, flow, graph, s, i);
    hide Pipeline, BuildCondition;
    CaseBuilt(ctx, s.id, s.cases, i);
    BuiltIds(ctx, s.id, s.cases, i, j);
    ConditionIdIs(s.id, i, j);
  }

  lemma CompiledCase(p: Program, flow: Flow, graph: Graph, s: Step, i: nat)
    requires Pipeline(p) == Ok((flow, graph)) && s in flow.steps && s.BranchStep? && i < |s.cases|
    ensures s.cases[i].caseId == CaseId(i)
  {
    AcceptedSemantics(p, flow, graph);
    CompiledLists(p, flow);
    hide Pipeline, Semantics;
    BranchOfBlock(Tree(p), s, i);
  }

  lemma {:induction false} BranchOfBlock(b: Block, s: Step, i: nat)
    requires s in Steps(b) && s.BranchStep? && i < |s.cases|
    ensures s.cases[i].caseId == CaseId(i)
    decreases b
  {
    if s in NodeSteps(b.head) {
      if b.head.BranchN? {
        BranchOfNode(b.head.id, b.head.arms, s, i);
      }
    } else {
      BranchOfBlock(b.tail, s, i);
    }
  }

  lemma {:induction false} BranchOfNode(id: Id, arms: NodeArms, s: Step, i: nat)
    requires s in NodeSteps(BranchN(id, arms)) && s.BranchStep? && i < |s.cases|
    ensures s.cases[i].caseId == CaseId(i)
    decreases arms, 1
  {
    if s == FlatBranch(id, arms) {
      FlatCasesAre(arms, 0);
    } else {
      BranchOfArms(arms, s, i);
    }
  }

  lemma {:induction false} BranchOfArms(arms: NodeArms, s: Step, i: nat)
    requires s in ArmSteps(arms) && s.BranchStep? && i < |s.cases|
    ensures s.cases[i].caseId == CaseId(i)
    decreases arms, 0
  {
    match arms
    case CaseN(_, body, rest) =>
      if s in Steps(body) {
        BranchOfBlock(body, s, i);
      } else {
        BranchOfArms(rest, s, i);
      }
    case ElseN(body) => BranchOfBlock(body, s, i);
  }

  lemma {:induction false} BuiltIds(ctx: Context, id: Id, cases: seq<FlatCase>, i: nat, j: nat)
    requires ContextOk(ctx) && BuildCases(ctx, id, cases).Ok? && i < |cases| && cases[i].cond.Parsed? && j < |cases[i].cond.comparisons|
    ensures j < |BuildCases(ctx, id, cases).value[i].conditions|
    ensures BuildCases(ctx, id, cases).value[i].conditions[j].id == id + "_" + cases[i].caseId + "_" + Dec(j)
    decreases |cases|
  {
    if i > 0 {
      BuiltIds(ctx, id, cases[1..], i - 1, j);
    } else {
      ConditionBuilt(ctx, id, cases[0].caseId, 0, cases[0].cond.comparisons, j);
    }
  }
}
