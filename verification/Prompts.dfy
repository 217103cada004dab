/**
 What a generated prompt says: with the references filled in, it is the text of the call's arguments, one line for each
 positional argument that is not empty and one for each keyword.
 */
module Prompts {
  import opened Prelude
  import opened Text
  import opened Pseudocode
  import opened FlowSemantics
  import opened WorkflowGraph
  import opened Lowering
  import Refinement
  import opened Correctness
  import opened Dataflow

  // ----- The text of a call, given the texts of its variables -----

  function ConstText(c: Constant): string {
    match c
    case StrConst(text) => text
    case IntConst(text) => text
    case FloatConst(text) => text
    case BoolConst(true) => "true"
    case BoolConst(false) => "false"
    case NullConst => ""
  }

  /** An expression that could not be parsed has no text; the graph builder refuses it. */
  function PartText(p: Part, val: string -> string): string {
    match p
    case TextPart(text) => text
    case VarPart(name) => val(name)
    case RawPart(_) => ""
  }

  function PartsText(parts: seq<Part>, val: string -> string): string {
    if parts == [] then "" else PartText(parts[0], val) + PartsText(parts[1..], val)
  }

  function ValueText(v: Value, val: string -> string): string {
    match v
    case Var(name) => val(name)
    case Const(c) => ConstText(c)
    case Template(parts) => PartsText(parts, val)
    case Raw(_) => ""
  }

  /** Nothing is written for the value, whatever the variables hold. */
  predicate WritesNothing(v: Value) {
    match v
    case Var(_) => false
    case Const(c) => ConstText(c) == ""
    case Template(parts) => AllEmpty(parts)
    case Raw(_) => false
  }

  predicate AllEmpty(parts: seq<Part>) {
    forall p :: p in parts ==> p == TextPart("")
  }

  function ArgumentLines(args: seq<Value>, val: string -> string): seq<string> {
    if args == [] then []
    else (if WritesNothing(args[0]) then [] else [ValueText(args[0], val)]) + ArgumentLines(args[1..], val)
  }

  function KeywordLines(kwargs: seq<Kwarg>, val: string -> string): seq<string> {
    seq(|kwargs|, i requires 0 <= i < |kwargs| => kwargs[i].key + ": " + ValueText(kwargs[i].value, val))
  }

  function InLines(lines: seq<string>): string {
    if lines == [] then ""
    else if |lines| == 1 then lines[0]
    else lines[0] + "\n" + InLines(lines[1..])
  }

  /** A single keyword argument `task` is the whole text. */
  function CallText(call: CallInfo, val: string -> string): string {
    if call.args == [] && |call.kwargs| == 1 && call.kwargs[0].key == "task" then ValueText(call.kwargs[0].value, val)
    else InLines(ArgumentLines(call.args, val) + KeywordLines(call.kwargs, val))
  }

  // ----- The text of a prompt, given the texts that the selectors stand for -----

  function PromptText(prompt: seq<Fragment>, at: Selector -> string): string {
    if prompt == [] then ""
    else (match prompt[0] case Lit(text) => text case Ref(selector) => at(selector)) + PromptText(prompt[1..], at)
  }

  function LineTexts(lines: seq<seq<Fragment>>, at: Selector -> string): (r: seq<string>)
    ensures |r| == |lines|
  {
    seq(|lines|, i requires 0 <= i < |lines| => PromptText(lines[i], at))
  }

  lemma {:induction false} PromptTextConcat(a: seq<Fragment>, b: seq<Fragment>, at: Selector -> string)
    ensures PromptText(a + b, at) == PromptText(a, at) + PromptText(b, at)
    decreases |a|
  {
    if a == [] {
      assert a + b == b;
    } else {
      assert (a + b)[1..] == a[1..] + b;
      PromptTextConcat(a[1..], b, at);
    }
  }

  lemma {:induction false} JoinText(lines: seq<seq<Fragment>>, at: Selector -> string)
    ensures PromptText(JoinLines(lines), at) == InLines(LineTexts(lines, at))
    decreases |lines|
  {
    var texts := LineTexts(lines, at);
    if |lines| > 1 {
      var rest := lines[1..];
      JoinText(rest, at);
      assert texts[1..] == LineTexts(rest, at);
      var mark := [Lit("\n")];
      PromptTextConcat(lines[0] + mark, JoinLines(rest), at);
      PromptTextConcat(lines[0], mark, at);
      assert mark[1..] == [];
    }
  }

  // ----- The two agree -----

  /** The selector of each of these variables stands for its text. */
  ghost predicate Fills(ctx: Context, names: seq<string>, val: string -> string, at: Selector -> string)
    requires ContextOk(ctx)
  {
    forall x, selector :: x in names && IsOutput(ctx, x, selector) ==> at(selector) == val(x)
  }

  lemma FillsParts(ctx: Context, a: seq<string>, b: seq<string>, val: string -> string, at: Selector -> string)
    requires ContextOk(ctx) && Fills(ctx, a + b, val, at)
    ensures Fills(ctx, a, val, at) && Fills(ctx, b, val, at)
  {
    assert forall x :: x in a || x in b ==> x in a + b;
  }

  lemma {:induction false} PartsSay(ctx: Context, parts: seq<Part>, val: string -> string, at: Selector -> string)
    requires ContextOk(ctx) && RenderParts(ctx, parts).Ok? && Fills(ctx, OccurringParts(parts), val, at)
    ensures PromptText(RenderParts(ctx, parts).value, at) == PartsText(parts, val)
    ensures IsBlank(RenderParts(ctx, parts).value) <==> AllEmpty(parts)
    decreases |parts|
  {
    hide IsBlank, AllEmpty, Fills;
    if parts == [] {
      NothingIsBlank();
    } else {
      var text := RenderParts(ctx, parts).value;
      var first := if parts[0].VarPart? then [parts[0].name] else [];
      FillsParts(ctx, first, OccurringParts(parts[1..]), val, at);
      PartsSay(ctx, parts[1..], val, at);
      assert text[1..] == RenderParts(ctx, parts[1..]).value;
      BlankCons(text);
      EmptyCons(parts);
      if parts[0].VarPart? {
        FilledOne(ctx, parts[0].name, text[0].selector, val, at);
      }
    }
  }

  lemma FilledOne(ctx: Context, name: string, selector: Selector, val: string -> string, at: Selector -> string)
    requires ContextOk(ctx) && Fills(ctx, [name], val, at) && IsOutput(ctx, name, selector)
    ensures at(selector) == val(name)
  {
    assert name in [name];
  }

  lemma NothingIsBlank()
    ensures IsBlank([]) && AllEmpty([])
  {
  }

  lemma EmptyCons(parts: seq<Part>)
    requires parts != []
    ensures AllEmpty(parts) <==> parts[0] == TextPart("") && AllEmpty(parts[1..])
  {
    var rest := parts[1..];
    if AllEmpty(parts) {
      assert parts[0] in parts;
      assert forall p :: p in parts[1..] ==> p in parts;
    }
    if parts[0] == TextPart("") && AllEmpty(parts[1..]) {
      forall p | p in parts
        ensures p == TextPart("")
      {
        assert parts == [parts[0]] + rest && (p == parts[0] || p in rest);
      }
    }
  }

  lemma BlankCons(text: seq<Fragment>)
    requires text != []
    ensures IsBlank(text) <==> text[0] == Lit("") && IsBlank(text[1..])
  {
    var rest := text[1..];
    if IsBlank(text) {
      assert text[0] in text;
      assert forall f :: f in text[1..] ==> f in text;
    }
    if text[0] == Lit("") && IsBlank(text[1..]) {
      forall f | f in text
        ensures f == Lit("")
      {
        assert text == [text[0]] + rest && (f == text[0] || f in rest);
      }
    }
  }

  lemma ValueSays(ctx: Context, v: Value, val: string -> string, at: Selector -> string)
    requires ContextOk(ctx) && RenderValue(ctx, v).Ok? && Fills(ctx, Occurring(v), val, at)
    ensures PromptText(RenderValue(ctx, v).value, at) == ValueText(v, val)
    ensures IsBlank(RenderValue(ctx, v).value) <==> WritesNothing(v)
  {
    var text := RenderValue(ctx, v).value;
    match v
    case Template(parts) => PartsSay(ctx, parts, val, at);
    case Var(name) =>
      assert IsOutput(ctx, name, text[0].selector) && text[1..] == [];
      BlankCons(text);
    case Const(c) =>
      assert text[1..] == [];
      BlankCons(text);
    case Raw(_) =>
  }

  lemma {:induction false} ArgsSay(ctx: Context, args: seq<Value>, val: string -> string, at: Selector -> string)
    requires ContextOk(ctx) && RenderArgs(ctx, args).Ok? && Fills(ctx, OccurringValues(args), val, at)
    ensures LineTexts(RenderArgs(ctx, args).value, at) == ArgumentLines(args, val)
    decreases |args|
  {
    hide IsBlank, WritesNothing, RenderValue, ValueText, Fills, PromptText;
    if args != [] {
      FillsParts(ctx, Occurring(args[0]), OccurringValues(args[1..]), val, at);
      ValueSays(ctx, args[0], val, at);
      ArgsSay(ctx, args[1..], val, at);
      LinesCons(RenderValue(ctx, args[0]).value, RenderArgs(ctx, args[1..]).value, at);
    }
  }

  lemma LinesCons(line: seq<Fragment>, rest: seq<seq<Fragment>>, at: Selector -> string)
    ensures LineTexts([line] + rest, at) == [PromptText(line, at)] + LineTexts(rest, at)
  {
    hide PromptText;
  }

  lemma {:induction false} KwargsSay(ctx: Context, kwargs: seq<Kwarg>, val: string -> string, at: Selector -> string)
    requires ContextOk(ctx) && RenderKwargs(ctx, kwargs).Ok? && Fills(ctx, OccurringValues(KwValues(kwargs)), val, at)
    ensures LineTexts(RenderKwargs(ctx, kwargs).value, at) == KeywordLines(kwargs, val)
    decreases |kwargs|
  {
    if kwargs != [] {
      hide RenderValue, ValueText, Fills, PromptText, LineTexts, KeywordLines, Occurring;
      var k := kwargs[0];
      KeywordsCons(kwargs, val);
      FillsParts(ctx, Occurring(k.value), OccurringValues(KwValues(kwargs[1..])), val, at);
      ValueSays(ctx, k.value, val, at);
      KwargsSay(ctx, kwargs[1..], val, at);
      var line := RenderValue(ctx, k.value).value;
      KeyedLine(k.key, line, at);
      LinesCons([Lit(k.key + ": ")] + line, RenderKwargs(ctx, kwargs[1..]).value, at);
    } else {
      NoLines(val, at);
    }
  }

  lemma NoLines(val: string -> string, at: Selector -> string)
    ensures LineTexts([], at) == [] && KeywordLines([], val) == []
  {
  }

  lemma KeywordsCons(kwargs: seq<Kwarg>, val: string -> string)
    requires kwargs != []
    ensures KeywordLines(kwargs, val) == [kwargs[0].key + ": " + ValueText(kwargs[0].value, val)] + KeywordLines(kwargs[1..], val)
    ensures OccurringValues(KwValues(kwargs)) == Occurring(kwargs[0].value) + OccurringValues(KwValues(kwargs[1..]))
  {
    hide ValueText, Occurring;
    assert KwValues(kwargs)[1..] == KwValues(kwargs[1..]);
  }

  lemma KeyedLine(key: string, line: seq<Fragment>, at: Selector -> string)
    ensures PromptText([Lit(key + ": ")] + line, at) == key + ": " + PromptText(line, at)
  {
    assert ([Lit(key + ": ")] + line)[1..] == line;
  }

  lemma PromptSays(ctx: Context, call: CallInfo, val: string -> string, at: Selector -> string)
    requires ContextOk(ctx) && RenderPrompt(ctx, call).Ok? && Fills(ctx, OccurringValues(CallValues(call)), val, at)
    ensures PromptText(RenderPrompt(ctx, call).value, at) == CallText(call, val)
  {
    OccurringConcat(call.args, KwValues(call.kwargs));
    FillsParts(ctx, OccurringValues(call.args), OccurringValues(KwValues(call.kwargs)), val, at);
    if call.args == [] && |call.kwargs| == 1 && call.kwargs[0].key == "task" {
      assert KwValues(call.kwargs)[1..] == [];
      assert OccurringValues(KwValues(call.kwargs)) == Occurring(call.kwargs[0].value);
      ValueSays(ctx, call.kwargs[0].value, val, at);
    } else {
      hide RenderArgs, RenderKwargs, PromptText, ArgumentLines, KeywordLines, Fills, OccurringValues, JoinLines, InLines, LineTexts;
      var a, b := RenderArgs(ctx, call.args).value, RenderKwargs(ctx, call.kwargs).value;
      ArgsSay(ctx, call.args, val, at);
      KwargsSay(ctx, call.kwargs, val, at);
      JoinText(a + b, at);
      TextsConcat(a, b, at);
    }
  }

  lemma TextsConcat(a: seq<seq<Fragment>>, b: seq<seq<Fragment>>, at: Selector -> string)
    ensures LineTexts(a + b, at) == LineTexts(a, at) + LineTexts(b, at)
  {
    hide PromptText;
  }

  /** Each selector stands for the text of the variable at its place. */
  ghost predicate HasTexts(names: seq<string>, selectors: seq<Selector>, val: string -> string, at: Selector -> string) {
    forall j :: 0 <= j < |names| && j < |selectors| ==> at(selectors[j]) == val(names[j])
  }

  /**
   In an accepted graph, for any texts of the variables and any texts at the selectors: when each reference in the prompt
   of a call stands for the text of the variable at its place in the arguments, the prompt says what the call says.
   */
  lemma PromptsSayWhatCallsSay(p: Program, flow: Flow, graph: Graph, id: Id, call: CallInfo, n: GNode, val: string -> string, at: Selector -> string)
    requires Pipeline(p) == Ok((flow, graph)) && CallStep(id, call) in flow.steps && n in graph.nodes && n.id == id
    requires n.LlmNode? ==> HasTexts(OccurringValues(CallValues(call)), RefsIn(n.prompt), val, at)
    ensures n.LlmNode? && n.func == call.func && |RefsIn(n.prompt)| == |OccurringValues(CallValues(call))|
    ensures PromptText(n.prompt, at) == CallText(call, val)
  {
    hide *;
    var ctx := NodeOfStep(p, flow, graph, CallStep(id, call), n);
    PromptOf(flow, ctx, id, call, n);
    PromptRefers(ctx, call);
    FilledInOrder(ctx, OccurringValues(CallValues(call)), RefsIn(n.prompt), val, at);
    PromptSays(ctx, call, val, at);
  }

  lemma PromptOf(flow: Flow, ctx: Context, id: Id, call: CallInfo, n: GNode)
    requires Refinement.Loaded(flow, ctx) && BuildStepNode(ctx, CallStep(id, call)) == Ok(n)
    ensures ContextOk(ctx) && n.LlmNode? && n.func == call.func && RenderPrompt(ctx, call) == Ok(n.prompt)
  {
  }

  lemma FilledInOrder(ctx: Context, names: seq<string>, selectors: seq<Selector>, val: string -> string, at: Selector -> string)
    requires ContextOk(ctx) && StandFor(ctx, names, selectors)
    requires HasTexts(names, selectors, val, at)
    ensures |names| == |selectors| && Fills(ctx, names, val, at)
  {
    forall x, selector | x in names && IsOutput(ctx, x, selector)
      ensures at(selector) == val(x)
    {
      var j :| 0 <= j < |names| && names[j] == x;
      assert IsOutput(ctx, names[j], selectors[j]);
    }
  }
}
