/**
 The data flow of accepted programs: variables are assigned before they are read, and the selectors of the graph name
 the calls that the values come from.
 */
module Dataflow {
  import opened Prelude
  import opened Text
  import opened Pseudocode
  import opened FlowSemantics
  import opened Elaboration
  import opened Scoping
  import opened DefiniteAssignment
  import opened OriginTracking
  import opened Compile
  import opened WorkflowGraph
  import opened Lowering
  import opened Correctness

  // ----- Assigned before read -----

  ghost predicate ReadsDefined(acts: seq<Act>, inputs: seq<string>) {
    forall k :: 0 <= k < |acts| && acts[k].Read? ==> Write(acts[k].name) in acts[..k] || acts[k].name in inputs
  }

  ghost predicate InputsUnwritten(acts: seq<Act>, inputs: seq<string>) {
    forall n :: n in inputs ==> Write(n) !in acts
  }

  lemma CompiledScope(p: Program, flow: Flow) returns (s: Scope)
    requires Semantics(p) == Ok(flow)
    ensures Analyze(EmptyScope(p.parsed), Tree(p), true) == Ok(s) && ScopeOk(s)
    ensures flow == FlowOf(Tree(p), s, p.types) && InputNames(flow.inputs) == s.inputs
  {
    s := Analyze(EmptyScope(p.parsed), Tree(p), true).value;
    AnalyzeOk(EmptyScope(p.parsed), Tree(p), true);
  }

  /** What holds of every run, at the places where it reads and writes. */
  ghost predicate TraceSound(t: seq<Event>, inputs: seq<string>) {
    ReadsKnown(t, inputs) && Tracked(t, {}, {}) && forall n :: n in inputs ==> n !in Written(t)
  }

  lemma RunsAreSound(p: Program, flow: Flow, picks: seq<nat>)
    requires Semantics(p) == Ok(flow) && forall w :: w in flow.warnings ==> !w.PossiblyUndefined?
    ensures TraceSound(RunBlock(Tree(p), Initial(picks)).trace, InputNames(flow.inputs))
  {
    var s := CompiledScope(p, flow);
    assert forall w :: w in s.warnings ==> w in flow.warnings;
    BlockSound(EmptyScope(p.parsed), Tree(p), true, Initial(picks));
    RunTracked(Tree(p), Initial(picks), {}, {});
  }

  /**
   Without a "possibly undefined" warning every name read on any run of the source has been written earlier on that
   run or is an input, and no run ever writes an input.
   */
  lemma SourceReadsDefined(p: Program, flow: Flow, picks: seq<nat>)
    requires Semantics(p) == Ok(flow) && forall w :: w in flow.warnings ==> !w.PossiblyUndefined?
    ensures var acts := Run(p.body, p.terminals, picks).acts;
            ReadsDefined(acts, InputNames(flow.inputs)) && InputsUnwritten(acts, InputNames(flow.inputs))
  {
    var t := RunBlock(Tree(p), Initial(picks)).trace;
    RunsAreSound(p, flow, picks);
    TreeRunsAsSource(ZERO, p.body, true, p.terminals, Initial(picks));
    var acts := Run(p.body, p.terminals, picks).acts;
    assert acts == ForgetEvents(t);
    forall k | 0 <= k < |acts| && acts[k].Read?
      ensures Write(acts[k].name) in acts[..k] || acts[k].name in InputNames(flow.inputs)
    {
      assert t[k].ReadEv? && t[k].name == acts[k].name;
      if acts[k].name !in InputNames(flow.inputs) {
        assert acts[k].name in Written(t[..k]);
        var j :| 0 <= j < k && t[..k][j].WriteEv? && t[..k][j].name == acts[k].name;
        assert acts[..k][j] == Write(acts[k].name);
      }
    }
    forall n | n in InputNames(flow.inputs)
      ensures Write(n) !in acts
    {
      forall j | 0 <= j < |acts|
        ensures acts[j] != Write(n)
      {
        assert t[j].WriteEv? ==> t[j].name in Written(t);
      }
    }
  }

  // ----- Where the values read come from -----

  /**
   The conditions under which one final map of producers serves all places: no name is assigned that may already be
   assigned, and every plain assignment copies a variable that some call has produced.
   */
  predicate Resolvable(p: Program, flow: Flow) {
    SingleAssign(Tree(p), {}) && CopiesOnly(flow.bindings)
  }

  /** The selector names the one call that the value read at `t[k]` comes from, or the input that it is. */
  ghost predicate SelectsOrigin(t: seq<Event>, k: nat, selector: Selector, inputs: seq<string>)
    requires k < |t| && t[k].ReadEv?
  {
    var name := t[k].name;
    (selector == [START, name] && name in inputs && name !in Written(t[..k])) ||
    (|selector| >= 2 && name in t[k].env && t[k].env[name] == {selector[0]} && selector[0] in CalledIn(t[..k]))
  }

  lemma RunsHaveOrigins(p: Program, flow: Flow, picks: seq<nat>)
    requires Semantics(p) == Ok(flow) && flow.warnings == [] && NoDup(AllIds(Tree(p))) && Resolvable(p, flow)
    ensures TraceOk(RunBlock(Tree(p), Initial(picks)).trace, flow.variables, InputNames(flow.inputs))
    ensures AllProduced(flow.variables)
  {
    var s := CompiledScope(p, flow);
    var s0 := EmptyScope(p.parsed);
    AnalyzeProducers(s0, Tree(p), true);
    ProducedAfter(map[], Tree(p));
    assert s.warnings == [];
    assert s0.producers.Keys == {};
    BlockOrigins(s0, Tree(p), true, Initial(picks), flow.variables, InputNames(flow.inputs));
  }

  lemma WrittenPrefix(t: seq<Event>, k: nat)
    requires k <= |t|
    ensures Written(t[..k]) <= Written(t)
  {
    assert t == t[..k] + t[k..];
    WrittenConcat(t[..k], t[k..]);
  }

  // ----- Which variable each reference in a prompt stands for -----

  predicate IsOutput(ctx: Context, name: string, selector: Selector)
    requires ContextOk(ctx)
  {
    VariableOutput(ctx, name).Ok? && VariableOutput(ctx, name).value.0 == selector
  }

  /** The variables that occur in a value, in order and as often as they occur. */
  function Occurring(v: Value): seq<string> {
    match v
    case Var(name) => [name]
    case Template(parts) => OccurringParts(parts)
    case _ => []
  }

  function OccurringParts(parts: seq<Part>): seq<string> {
    if parts == [] then [] else (if parts[0].VarPart? then [parts[0].name] else []) + OccurringParts(parts[1..])
  }

  function OccurringValues(values: seq<Value>): seq<string> {
    if values == [] then [] else Occurring(values[0]) + OccurringValues(values[1..])
  }

  /** The references in a text, in order. */
  function RefsIn(text: seq<Fragment>): seq<Selector> {
    if text == [] then [] else (if text[0].Ref? then [text[0].selector] else []) + RefsIn(text[1..])
  }

  lemma {:induction false} RefListed(text: seq<Fragment>, selector: Selector)
    ensures selector in RefsIn(text) <==> Ref(selector) in text
    decreases |text|
  {
    if text != [] {
      assert text == [text[0]] + text[1..];
      RefListed(text[1..], selector);
    }
  }

  function RefsInLines(lines: seq<seq<Fragment>>): seq<Selector> {
    if lines == [] then [] else RefsIn(lines[0]) + RefsInLines(lines[1..])
  }

  /** Reference number `j` is the output of variable number `j`. */
  ghost predicate StandFor(ctx: Context, names: seq<string>, selectors: seq<Selector>)
    requires ContextOk(ctx)
  {
    |names| == |selectors| && forall j :: 0 <= j < |names| ==> IsOutput(ctx, names[j], selectors[j])
  }

  lemma StandForConcat(ctx: Context, a: seq<string>, b: seq<string>, s: seq<Selector>, t: seq<Selector>)
    requires ContextOk(ctx) && StandFor(ctx, a, s) && StandFor(ctx, b, t)
    ensures StandFor(ctx, a + b, s + t)
  {
  }

  lemma {:induction false} RefsInConcat(a: seq<Fragment>, b: seq<Fragment>)
    ensures RefsIn(a + b) == RefsIn(a) + RefsIn(b)
    decreases |a|
  {
    if a == [] {
      assert a + b == b;
    } else {
      assert (a + b)[1..] == a[1..] + b;
      RefsInConcat(a[1..], b);
    }
  }

  lemma {:induction false} PartsStandFor(ctx: Context, parts: seq<Part>)
    requires ContextOk(ctx) && RenderParts(ctx, parts).Ok?
    ensures StandFor(ctx, OccurringParts(parts), RefsIn(RenderParts(ctx, parts).value))
    decreases |parts|
  {
    if parts != [] {
      PartsStandFor(ctx, parts[1..]);
      var text := RenderParts(ctx, parts).value;
      assert text[1..] == RenderParts(ctx, parts[1..]).value;
      StandForConcat(ctx, if parts[0].VarPart? then [parts[0].name] else [], OccurringParts(parts[1..]),
                     if text[0].Ref? then [text[0].selector] else [], RefsIn(text[1..]));
    }
  }

  lemma ValueStandsFor(ctx: Context, v: Value)
    requires ContextOk(ctx) && RenderValue(ctx, v).Ok?
    ensures StandFor(ctx, Occurring(v), RefsIn(RenderValue(ctx, v).value))
  {
    if v.Template? {
      PartsStandFor(ctx, v.parts);
    }
  }

  lemma {:induction false} BlankRefs(line: seq<Fragment>)
    requires IsBlank(line)
    ensures RefsIn(line) == []
    decreases |line|
  {
    if line != [] {
      assert line[0] in line && forall f :: f in line[1..] ==> f in line;
      BlankRefs(line[1..]);
    }
  }

  lemma {:induction false} ArgsStandFor(ctx: Context, args: seq<Value>)
    requires ContextOk(ctx) && RenderArgs(ctx, args).Ok?
    ensures StandFor(ctx, OccurringValues(args), RefsInLines(RenderArgs(ctx, args).value))
    decreases |args|
  {
    if args != [] {
      var line, rest := RenderValue(ctx, args[0]).value, RenderArgs(ctx, args[1..]).value;
      ValueStandsFor(ctx, args[0]);
      ArgsStandFor(ctx, args[1..]);
      StandForConcat(ctx, Occurring(args[0]), OccurringValues(args[1..]), RefsIn(line), RefsInLines(rest));
      if IsBlank(line) {
        BlankRefs(line);
        assert [] + RefsInLines(rest) == RefsInLines(rest);
      } else {
        assert ([line] + rest)[1..] == rest;
      }
    }
  }

  lemma {:induction false} KwargsStandFor(ctx: Context, kwargs: seq<Kwarg>)
    requires ContextOk(ctx) && RenderKwargs(ctx, kwargs).Ok?
    ensures StandFor(ctx, OccurringValues(KwValues(kwargs)), RefsInLines(RenderKwargs(ctx, kwargs).value))
    decreases |kwargs|
  {
    if kwargs != [] {
      var line, rest := RenderValue(ctx, kwargs[0].value).value, RenderKwargs(ctx, kwargs[1..]).value;
      var key := [Lit(kwargs[0].key + ": ")];
      ValueStandsFor(ctx, kwargs[0].value);
      KwargsStandFor(ctx, kwargs[1..]);
      StandForConcat(ctx, Occurring(kwargs[0].value), OccurringValues(KwValues(kwargs[1..])), RefsIn(line), RefsInLines(rest));
      assert KwValues(kwargs)[1..] == KwValues(kwargs[1..]);
      assert (key + line)[1..] == line && ([key + line] + rest)[1..] == rest;
    }
  }

  lemma {:induction false} JoinRefs(lines: seq<seq<Fragment>>)
    ensures RefsIn(JoinLines(lines)) == RefsInLines(lines)
    decreases |lines|
  {
    if |lines| == 1 {
      assert lines[1..] == [];
    } else if lines != [] {
      JoinRefs(lines[1..]);
      var rest := JoinLines(lines[1..]);
      assert ([Lit("\n")] + rest)[1..] == rest;
      RefsInConcat(lines[0], [Lit("\n")] + rest);
      assert lines[0] + [Lit("\n")] + rest == lines[0] + ([Lit("\n")] + rest);
    }
  }

  lemma {:induction false} LinesConcat(a: seq<seq<Fragment>>, b: seq<seq<Fragment>>)
    ensures RefsInLines(a + b) == RefsInLines(a) + RefsInLines(b)
    decreases |a|
  {
    if a == [] {
      assert a + b == b;
    } else {
      assert (a + b)[1..] == a[1..] + b;
      LinesConcat(a[1..], b);
    }
  }

  lemma {:induction false} OccurringConcat(a: seq<Value>, b: seq<Value>)
    ensures OccurringValues(a + b) == OccurringValues(a) + OccurringValues(b)
    decreases |a|
  {
    if a == [] {
      assert a + b == b;
    } else {
      assert (a + b)[1..] == a[1..] + b;
      OccurringConcat(a[1..], b);
    }
  }

  /**
   The references in a prompt, in order, are the outputs of the variables that occur in the call's arguments, in order:
   positional ones first, with the arguments that render to nothing and the names of keywords contributing none.
   */
  lemma PromptRefers(ctx: Context, call: CallInfo)
    requires ContextOk(ctx) && RenderPrompt(ctx, call).Ok?
    ensures StandFor(ctx, OccurringValues(CallValues(call)), RefsIn(RenderPrompt(ctx, call).value))
  {
    OccurringConcat(call.args, KwValues(call.kwargs));
    if call.args == [] && |call.kwargs| == 1 && call.kwargs[0].key == "task" {
      ValueStandsFor(ctx, call.kwargs[0].value);
      assert KwValues(call.kwargs)[1..] == [];
      assert OccurringValues(KwValues(call.kwargs)) == Occurring(call.kwargs[0].value);
    } else {
      var a, b := RenderArgs(ctx, call.args).value, RenderKwargs(ctx, call.kwargs).value;
      ArgsStandFor(ctx, call.args);
      KwargsStandFor(ctx, call.kwargs);
      JoinRefs(a + b);
      LinesConcat(a, b);
      StandForConcat(ctx, OccurringValues(call.args), OccurringValues(KwValues(call.kwargs)), RefsInLines(a), RefsInLines(b));
    }
  }

  /** The variables that occur in a call's arguments are names that the call reads. */
  lemma {:induction false} OccurringAreRefs(values: seq<Value>)
    ensures forall x :: x in OccurringValues(values) ==> x in ValueRefs(values)
    decreases |values|
  {
    if values != [] {
      OccurringAreRefs(values[1..]);
      if values[0].Template? {
        PartVarsAreNames(values[0].parts);
      }
    }
  }

  lemma {:induction false} PartVarsAreNames(parts: seq<Part>)
    ensures forall x :: x in OccurringParts(parts) ==> x in PartNames(parts)
    decreases |parts|
  {
    if parts != [] {
      PartVarsAreNames(parts[1..]);
    }
  }

  // ----- Which variable each condition compares -----

  predicate IsSource(ctx: Context, c: Comparison, selector: Selector)
    requires ContextOk(ctx)
  {
    ConditionSource(ctx, c).Ok? && ConditionSource(ctx, c).value.0 == selector
  }

  lemma {:induction false} ConditionsRefer(ctx: Context, id: Id, caseId: string, index: nat, cs: seq<Comparison>, i: nat)
    requires ContextOk(ctx) && BuildConditions(ctx, id, caseId, index, cs).Ok? && i < |cs|
    ensures IsSource(ctx, cs[i], BuildConditions(ctx, id, caseId, index, cs).value[i].selector)
    decreases |cs|
  {
    if i > 0 {
      ConditionsRefer(ctx, id, caseId, index + 1, cs[1..], i - 1);
    }
  }

  /** The case at this place has one condition for each comparison, in order, that reads what the comparison names. */
  ghost predicate CaseStandsFor(ctx: Context, c: FlatCase, built: GraphCase)
    requires ContextOk(ctx)
  {
    c.cond.Parsed? && |built.conditions| == |c.cond.comparisons| &&
    forall j :: 0 <= j < |built.conditions| ==> IsSource(ctx, c.cond.comparisons[j], built.conditions[j].selector)
  }

  lemma {:induction false} CasesRefer(ctx: Context, id: Id, cases: seq<FlatCase>, i: nat)
    requires ContextOk(ctx) && BuildCases(ctx, id, cases).Ok? && i < |cases|
    ensures CaseStandsFor(ctx, cases[i], BuildCases(ctx, id, cases).value[i])
    decreases |cases|
  {
    if i > 0 {
      CasesRefer(ctx, id, cases[1..], i - 1);
    } else {
      var cs := cases[0].cond.comparisons;
      forall j | 0 <= j < |cs|
        ensures IsSource(ctx, cs[j], BuildConditions(ctx, id, cases[0].caseId, 0, cs).value[j].selector)
      {
        ConditionsRefer(ctx, id, cases[0].caseId, 0, cs, j);
      }
    }
  }

  lemma {:induction false} ComparisonNamed(cs: seq<Comparison>, j: nat)
    requires j < |cs|
    ensures cs[j].name in ComparisonRefs(cs)
    decreases |cs|
  {
    if j > 0 {
      ComparisonNamed(cs[1..], j - 1);
    }
  }
}
