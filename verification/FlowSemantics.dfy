/**
 Flow Semantics Contract v1: the flat object lists that the semantics builder emits and the graph builder reads,
 and the tree of identified objects that such lists are a flattening of.
 */
module FlowSemantics {
  import opened Prelude
  import opened Text
  import opened Pseudocode

  // ----- The contract's flat form -----

  datatype FlatCase = FlatCase(caseId: string, cond: Condition, body: seq<Id>)

  datatype Step =
    | CallStep(id: Id, call: CallInfo)
    | BranchStep(id: Id, cases: seq<FlatCase>, elseBody: seq<Id>)

  datatype Binding = Binding(id: Id, target: string, value: Value, sources: map<string, seq<Id>>)

  datatype Terminal = Terminal(id: Id, output: Output, outputStep: Option<Id>)

  datatype Input = Input(name: string, ty: string)

  /** The four kinds of warning after which no graph is generated. */
  datatype Warning = Unstructured | PossiblyUndefined(name: string) | NoElseAtTail | NoOutput

  datatype Flow = Flow(
    body: seq<Id>,
    inputs: seq<Input>,
    steps: seq<Step>,
    bindings: seq<Binding>,
    terminals: seq<Terminal>,
    variables: map<string, seq<Id>>,
    warnings: seq<Warning>)

  function InputNames(inputs: seq<Input>): (r: seq<string>)
    ensures |r| == |inputs|
  {
    seq(|inputs|, i requires 0 <= i < |inputs| => inputs[i].name)
  }

  function CaseId(i: nat): string {
    "case_" + Dec(i + 1)
  }

  // ----- The tree form -----

  datatype Node =
    | CallN(id: Id, call: CallInfo)
    | BindN(id: Id, target: string, value: Value)
    | TermN(id: Id, output: Output, outputStep: Option<Id>, names: seq<string>)
    | BranchN(id: Id, arms: NodeArms)

  datatype Block = BNil | BCons(head: Node, tail: Block)

  datatype NodeArms =
    | CaseN(cond: Condition, body: Block, rest: NodeArms)
    | ElseN(orelse: Block)

  function Append(a: Block, b: Block): Block {
    match a
    case BNil => b
    case BCons(n, rest) => BCons(n, Append(rest, b))
  }

  function ArmCount(arms: NodeArms): nat {
    match arms
    case CaseN(_, _, rest) => 1 + ArmCount(rest)
    case ElseN(_) => 0
  }

  // ----- Flattening -----

  function BodyIds(b: Block): seq<Id> {
    match b
    case BNil => []
    case BCons(n, rest) => [n.id] + BodyIds(rest)
  }

  function FlatCases(arms: NodeArms, i: nat): seq<FlatCase> {
    match arms
    case CaseN(cond, body, rest) => [FlatCase(CaseId(i), cond, BodyIds(body))] + FlatCases(rest, i + 1)
    case ElseN(_) => []
  }

  function ElseBlock(arms: NodeArms): Block {
    match arms
    case CaseN(_, _, rest) => ElseBlock(rest)
    case ElseN(body) => body
  }

  function FlatBranch(id: Id, arms: NodeArms): Step {
    BranchStep(id, FlatCases(arms, 0), BodyIds(ElseBlock(arms)))
  }

  /** Every step, a branch before the steps of its bodies. */
  function Steps(b: Block): seq<Step> {
    match b
    case BNil => []
    case BCons(n, rest) => NodeSteps(n) + Steps(rest)
  }

  function NodeSteps(n: Node): seq<Step> {
    match n
    case CallN(id, call) => [CallStep(id, call)]
    case BranchN(id, arms) => [FlatBranch(id, arms)] + ArmSteps(arms)
    case _ => []
  }

  function ArmSteps(arms: NodeArms): seq<Step> {
    match arms
    case CaseN(_, body, rest) => Steps(body) + ArmSteps(rest)
    case ElseN(body) => Steps(body)
  }

  function Terminals(b: Block): seq<Terminal> {
    match b
    case BNil => []
    case BCons(n, rest) => NodeTerminals(n) + Terminals(rest)
  }

  function NodeTerminals(n: Node): seq<Terminal> {
    match n
    case TermN(id, output, step, _) => [Terminal(id, output, step)]
    case BranchN(_, arms) => ArmTerminals(arms)
    case _ => []
  }

  function ArmTerminals(arms: NodeArms): seq<Terminal> {
    match arms
    case CaseN(_, body, rest) => Terminals(body) + ArmTerminals(rest)
    case ElseN(body) => Terminals(body)
  }

  /** The ids of all objects of a block, in the order in which they are numbered. */
  function AllIds(b: Block): seq<Id> {
    match b
    case BNil => []
    case BCons(n, rest) => NodeIds(n) + AllIds(rest)
  }

  function NodeIds(n: Node): seq<Id> {
    [n.id] + if n.BranchN? then ArmIds(n.arms) else []
  }

  function ArmIds(arms: NodeArms): seq<Id> {
    match arms
    case CaseN(_, body, rest) => AllIds(body) + ArmIds(rest)
    case ElseN(body) => AllIds(body)
  }

  // ----- Appending blocks -----

  lemma {:induction false} AppendNil(b: Block)
    ensures Append(b, BNil) == b
  {
    if b.BCons? {
      AppendNil(b.tail);
    }
  }

  lemma {:induction false} AppendIds(a: Block, b: Block)
    ensures AllIds(Append(a, b)) == AllIds(a) + AllIds(b)
  {
    hide NodeIds;
    if a.BCons? {
      AppendIds(a.tail, b);
      Assoc(NodeIds(a.head), AllIds(a.tail), AllIds(b));
    }
  }

  lemma {:induction false} AppendSteps(a: Block, b: Block)
    ensures Steps(Append(a, b)) == Steps(a) + Steps(b)
  {
    hide NodeSteps;
    if a.BCons? {
      AppendSteps(a.tail, b);
      Assoc(NodeSteps(a.head), Steps(a.tail), Steps(b));
    }
  }

  lemma {:induction false} AppendTerminals(a: Block, b: Block)
    ensures Terminals(Append(a, b)) == Terminals(a) + Terminals(b)
  {
    hide NodeTerminals;
    if a.BCons? {
      AppendTerminals(a.tail, b);
      Assoc(NodeTerminals(a.head), Terminals(a.tail), Terminals(b));
    }
  }

  lemma {:induction false} AppendBodyIds(a: Block, b: Block)
    ensures BodyIds(Append(a, b)) == BodyIds(a) + BodyIds(b)
  {
    if a.BCons? {
      AppendBodyIds(a.tail, b);
      Assoc([a.head.id], BodyIds(a.tail), BodyIds(b));
    }
  }

  // ----- Runs of the tree -----

  /** A place from which the run goes on: the step executed last and the handle by which it is left. */
  datatype Pos = Pos(node: Id, handle: string)

  const START := "start"
  const SOURCE := "source"
  const FALSE := "false"

  datatype Hop = CallHop(id: Id, call: CallInfo) | BranchHop(id: Id, arm: nat, handle: string)

  /** For each variable, the calls that its value depends on. */
  type Env = map<string, set<Id>>

  datatype Event =
    | ReadEv(consumer: Id, name: string, env: Env, at: Pos)
    | WriteEv(consumer: Id, name: string)
    | CallEv(id: Id, call: CallInfo)

  datatype RunState = RunState(env: Env, at: Pos, picks: seq<nat>)

  datatype TreeRun = TreeRun(path: seq<Hop>, trace: seq<Event>, after: RunState, stop: Option<Terminal>)

  function ReadEvents(consumer: Id, names: seq<string>, s: RunState): (t: seq<Event>)
    ensures |t| == |names|
  {
    seq(|names|, i requires 0 <= i < |names| => ReadEv(consumer, names[i], s.env, s.at))
  }

  function DepsOf(env: Env, names: seq<string>): set<Id> {
    set x, n | n in names && n in env && x in env[n] :: x
  }

  function RunBlock(b: Block, s: RunState): TreeRun
    decreases b
  {
    match b
    case BNil => TreeRun([], [], s, None)
    case BCons(n, rest) =>
      var r := RunNode(n, s);
      if r.stop.Some? then r
      else
        var q := RunBlock(rest, r.after);
        TreeRun(r.path + q.path, r.trace + q.trace, q.after, q.stop)
  }

  function RunNode(n: Node, s: RunState): TreeRun
    decreases n
  {
    match n
    case CallN(id, call) =>
      var seen := ReadEvents(id, CallRefs(call), s) + [CallEv(id, call)];
      var there := s.(at := Pos(id, SOURCE));
      (match call.target
       case Some(t) => TreeRun([CallHop(id, call)], seen + [WriteEv(id, t)], there.(env := s.env[t := {id}]), None)
       case None => TreeRun([CallHop(id, call)], seen, there, None))
    case BindN(id, t, v) =>
      TreeRun([], ReadEvents(id, Refs(v), s) + [WriteEv(id, t)], s.(env := s.env[t := DepsOf(s.env, Refs(v))]), None)
    case TermN(id, output, step, names) =>
      TreeRun([], ReadEvents(id, names, s), s, Some(Terminal(id, output, step)))
    case BranchN(id, arms) =>
      RunArms(id, arms, 0, Head(s.picks), s.(picks := Tail(s.picks)))
  }

  function RunArms(id: Id, arms: NodeArms, i: nat, pick: nat, s: RunState): TreeRun
    decreases arms
  {
    match arms
    case CaseN(cond, body, rest) =>
      var r := if pick == i then Entering(id, i, CaseId(i), RunBlock(body, s.(at := Pos(id, CaseId(i)))))
               else RunArms(id, rest, i + 1, pick, s);
      r.(trace := ReadEvents(id, CondRefs(cond), s) + r.trace)
    case ElseN(body) =>
      Entering(id, i, FALSE, RunBlock(body, s.(at := Pos(id, FALSE))))
  }

  function Entering(id: Id, arm: nat, handle: string, r: TreeRun): TreeRun {
    r.(path := [BranchHop(id, arm, handle)] + r.path)
  }

  function Initial(picks: seq<nat>): RunState {
    RunState(map[], Pos(START, SOURCE), picks)
  }

  // ----- The run of the source that a run of the tree stands for -----

  function ForgetHops(path: seq<Hop>): (v: seq<Visit>)
    ensures |v| == |path|
  {
    seq(|path|, i requires 0 <= i < |path| => if path[i].CallHop? then Called(path[i].call) else Chose(path[i].arm))
  }

  function ForgetEvents(trace: seq<Event>): (a: seq<Act>)
    ensures |a| == |trace|
  {
    seq(|trace|, i requires 0 <= i < |trace| =>
      match trace[i]
      case ReadEv(_, name, _, _) => Read(name)
      case WriteEv(_, name) => Write(name)
      case CallEv(_, call) => Invoke(call))
  }

  /** A run of the tree with all ids forgotten. */
  function Forget(r: TreeRun): Exec {
    Exec(ForgetHops(r.path), ForgetEvents(r.trace),
         if r.stop.Some? then Some(r.stop.value.output) else None, r.after.picks)
  }
}
