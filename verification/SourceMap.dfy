/**
 The source map: every node of a generated graph is decoded back to the object of the flow that it was made from.
 */
module SourceMap {
  import opened Prelude
  import opened Text
  import opened FlowSemantics
  import opened WorkflowGraph
  import opened Partition

  datatype Entry =
    | StartEntry(inputs: seq<string>)
    | CallEntry(id: Id, func: string, target: Option<string>, fields: map<string, Ty>)
    | BranchEntry(id: Id, caseHandles: set<string>, elseHandle: string)
    | TerminalEntry(id: Id, producer: Option<Id>)

  datatype MapError =
    | DuplicateId(id: Id)
    | EmptyId
    | NotAStart
    | WrongKind(id: Id)
    | NotAnEnd(id: Id)
    | NoObject(id: Id)
    | MissingSteps(ids: set<Id>)
    | MissingTerminals(ids: set<Id>)

  // ----- Decoding the id of an end node -----

  /** The node id is the terminal id with something appended. */
  predicate Extends(node: Id, terminal: Id) {
    StartsWith(node, terminal + "_")
  }

  /** The terminal that an id stands for: the id itself, or else the longest terminal id that it extends. */
  ghost predicate Decodes(node: Id, terminals: seq<Id>, r: Option<Id>) {
    if node in terminals then r == Some(node)
    else
      match r
      case Some(t) => t in terminals && Extends(node, t) && forall u :: u in terminals && Extends(node, u) ==> |u| <= |t|
      case None => forall u :: u in terminals ==> !Extends(node, u)
  }

  predicate LongestFirst(s: seq<Id>) {
    forall i, j :: 0 <= i < j < |s| ==> |s[i]| >= |s[j]|
  }

  function Insert(id: Id, s: seq<Id>): (r: seq<Id>)
    requires LongestFirst(s)
    ensures LongestFirst(r) && forall x :: x in r <==> x == id || x in s
  {
    if s == [] || |id| > |s[0]| then [id] + s
    else
      assert s == [s[0]] + s[1..];
      assert forall x :: x in s ==> |s[0]| >= |x|;
      [s[0]] + Insert(id, s[1..])
  }

  function SortByLength(ids: seq<Id>): (r: seq<Id>)
    ensures LongestFirst(r) && forall x :: x in r <==> x in ids
  {
    if ids == [] then []
    else
      assert ids == ids[..|ids| - 1] + [ids[|ids| - 1]];
      Insert(ids[|ids| - 1], SortByLength(ids[..|ids| - 1]))
  }

  method TerminalSemanticId(node: Id, terminals: seq<Id>) returns (r: Option<Id>)
    ensures Decodes(node, terminals, r)
  {
    if node in terminals {
      return Some(node);
    }
    var sorted := SortByLength(terminals);
    var i := 0;
    while i < |sorted|
      invariant 0 <= i <= |sorted| && forall k :: 0 <= k < i ==> !Extends(node, sorted[k])
    {
      if Extends(node, sorted[i]) {
        forall u | u in terminals && Extends(node, u)
          ensures |u| <= |sorted[i]|
        {
          var k :| 0 <= k < |sorted| && sorted[k] == u;
        }
        assert sorted[i] in sorted;
        return Some(sorted[i]);
      }
      i := i + 1;
    }
    return None;
  }

  lemma DecodesOnce(node: Id, terminals: seq<Id>, r: Option<Id>, q: Option<Id>)
    requires Decodes(node, terminals, r) && Decodes(node, terminals, q)
    ensures r == q
  {
    if node !in terminals && r.Some? && q.Some? {
      assert |r.value| == |q.value|;
      assert r.value == node[..|r.value|] == q.value;
    }
  }

  // ----- One node -----

  function BranchCaseHandles(cases: seq<FlatCase>): (r: set<string>)
    ensures forall h :: h in r <==> exists i :: 0 <= i < |cases| && cases[i].caseId == h
  {
    set i | 0 <= i < |cases| :: cases[i].caseId
  }

  function StepKind(s: Step): string {
    if s.CallStep? then "llm" else "if-else"
  }

  function EndNodeProducer(n: GNode): Option<Id> {
    if n.EndNode? && n.selector != [] then Some(n.selector[0]) else None
  }

  function Schema(n: GNode): map<string, Ty> {
    if n.LlmNode? then n.schema else map[]
  }

  function StepEntry(s: Step, n: GNode): Entry {
    match s
    case CallStep(id, call) => CallEntry(id, call.func, call.target, Schema(n))
    case BranchStep(id, cases, _) => BranchEntry(id, BranchCaseHandles(cases), FALSE)
  }

  /** The node is mapped to this entry. */
  ghost predicate MapsTo(n: GNode, steps: seq<Step>, terminals: seq<Id>, inputs: seq<string>, e: Entry) {
    n.id != "" &&
    if n.id == START then NodeType(n) == "start" && e == StartEntry(inputs)
    else if exists s :: s in steps && s.id == n.id then
      exists s :: s in steps && s.id == n.id && NodeType(n) == StepKind(s) && e == StepEntry(s, n)
    else NodeType(n) == "end" && exists t :: Decodes(n.id, terminals, Some(t)) && e == TerminalEntry(t, EndNodeProducer(n))
  }

  predicate OfNode(e: MapError) {
    e.EmptyId? || e.NotAStart? || e.WrongKind? || e.NotAnEnd? || e.NoObject?
  }

  /** The node cannot be mapped, for this reason. */
  ghost predicate Rejected(n: GNode, steps: seq<Step>, terminals: seq<Id>, e: MapError) {
    if n.id == "" then e == EmptyId
    else if n.id == START then NodeType(n) != "start" && e == NotAStart
    else if exists s :: s in steps && s.id == n.id then
      e == WrongKind(n.id) && exists s :: s in steps && s.id == n.id && NodeType(n) != StepKind(s)
    else if Decodes(n.id, terminals, None) then e == NoObject(n.id)
    else NodeType(n) != "end" && e == NotAnEnd(n.id)
  }

  predicate Indexed(ids: seq<Id>, index: map<Id, nat>) {
    (forall k :: 0 <= k < |ids| ==> ids[k] in index && index[ids[k]] == k) && forall x :: x in index ==> x in ids
  }

  method IndexObjects(ids: seq<Id>) returns (r: Result<map<Id, nat>, MapError>)
    ensures r.Ok? <==> NoDup(ids)
    ensures r.Ok? ==> Indexed(ids, r.value)
    ensures r.Err? ==> r.error.DuplicateId?
  {
    var index: map<Id, nat> := map[];
    var i := 0;
    while i < |ids|
      invariant 0 <= i <= |ids| && NoDup(ids[..i]) && Indexed(ids[..i], index)
    {
      assert ids[..i + 1] == ids[..i] + [ids[i]];
      if ids[i] in index {
        assert ids[index[ids[i]]] == ids[i];
        return Err(DuplicateId(ids[i]));
      }
      index := index[ids[i] := i];
      i := i + 1;
    }
    assert ids[..i] == ids;
    return Ok(index);
  }

  method MapNode(n: GNode, steps: seq<Step>, index: map<Id, nat>, terminals: seq<Id>, inputs: seq<string>)
    returns (r: Result<Entry, MapError>)
    requires Indexed(StepIds(steps), index)
    ensures match r case Ok(e) => MapsTo(n, steps, terminals, inputs, e) case Err(e) => Rejected(n, steps, terminals, e) && OfNode(e)
  {
    if n.id == "" {
      return Err(EmptyId);
    }
    if n.id == START {
      if NodeType(n) != "start" {
        return Err(NotAStart);
      }
      return Ok(StartEntry(inputs));
    }
    if n.id in index {
      var s := steps[index[n.id]];
      assert StepIds(steps)[index[n.id]] == s.id && s in steps && s.id == n.id;
      if NodeType(n) != StepKind(s) {
        return Err(WrongKind(n.id));
      }
      return Ok(StepEntry(s, n));
    }
    forall s | s in steps
      ensures s.id != n.id
    {
      var k :| 0 <= k < |steps| && steps[k] == s;
      assert StepIds(steps)[k] == s.id;
    }
    var terminal := TerminalSemanticId(n.id, terminals);
    if terminal.Some? {
      if NodeType(n) != "end" {
        if Decodes(n.id, terminals, None) {
          DecodesOnce(n.id, terminals, None, terminal);
        }
        return Err(NotAnEnd(n.id));
      }
      return Ok(TerminalEntry(terminal.value, EndNodeProducer(n)));
    }
    return Err(NoObject(n.id));
  }

  // ----- All nodes -----

  ghost predicate AllMapped(nodes: seq<GNode>, steps: seq<Step>, terminals: seq<Id>, inputs: seq<string>, m: map<Id, Entry>) {
    (forall n :: n in nodes ==> n.id in m) &&
    forall x :: x in m ==> exists n :: n in nodes && n.id == x && MapsTo(n, steps, terminals, inputs, m[x])
  }

  /** Fails at the first node that cannot be mapped; otherwise every node has an entry, made from a node of its id. */
  method MappingForGraphNodes(nodes: seq<GNode>, steps: seq<Step>, index: map<Id, nat>, terminals: seq<Id>, inputs: seq<string>)
    returns (r: Result<map<Id, Entry>, MapError>)
    requires Indexed(StepIds(steps), index)
    ensures match r
            case Ok(m) => AllMapped(nodes, steps, terminals, inputs, m)
            case Err(e) => OfNode(e) && exists n :: n in nodes && Rejected(n, steps, terminals, e)
  {
    hide MapsTo, Rejected;
    var m: map<Id, Entry> := map[];
    var i := 0;
    while i < |nodes|
      invariant 0 <= i <= |nodes| && AllMapped(nodes[..i], steps, terminals, inputs, m)
    {
      var one := MapNode(nodes[i], steps, index, terminals, inputs);
      if one.Err? {
        assert nodes[i] in nodes;
        return Err(one.error);
      }
      assert nodes[..i + 1] == nodes[..i] + [nodes[i]];
      OneMapped(nodes[..i], nodes[i], steps, terminals, inputs, m, one.value);
      m := m[nodes[i].id := one.value];
      i := i + 1;
    }
    assert nodes[..i] == nodes;
    return Ok(m);
  }

  lemma OneMapped(nodes: seq<GNode>, n: GNode, steps: seq<Step>, terminals: seq<Id>, inputs: seq<string>, m: map<Id, Entry>, e: Entry)
    requires AllMapped(nodes, steps, terminals, inputs, m) && MapsTo(n, steps, terminals, inputs, e)
    ensures AllMapped(nodes + [n], steps, terminals, inputs, m[n.id := e])
  {
    hide MapsTo;
    var m' := m[n.id := e];
    forall x | x in m'
      ensures exists k :: k in nodes + [n] && k.id == x && MapsTo(k, steps, terminals, inputs, m'[x])
    {
      if x == n.id {
        assert n in nodes + [n];
      } else {
        var k :| k in nodes && k.id == x && MapsTo(k, steps, terminals, inputs, m[x]);
        assert k in nodes + [n];
      }
    }
  }

  // ----- The whole map -----

  function StepsOf(m: map<Id, Entry>): set<Id> {
    set x | x in m && (m[x].CallEntry? || m[x].BranchEntry?) :: m[x].id
  }

  function TerminalsOf(m: map<Id, Entry>): set<Id> {
    set x | x in m && m[x].TerminalEntry? :: m[x].id
  }

  ghost predicate Mapped(flow: Flow, graph: Graph, m: map<Id, Entry>) {
    AllMapped(graph.nodes, flow.steps, TerminalIds(flow.terminals), InputNames(flow.inputs), m)
  }

  function UnmappedSteps(flow: Flow, m: map<Id, Entry>): set<Id> {
    (set x | x in StepIds(flow.steps)) - StepsOf(m)
  }

  function UnmappedTerminals(flow: Flow, m: map<Id, Entry>): set<Id> {
    (set x | x in TerminalIds(flow.terminals)) - TerminalsOf(m)
  }

  /** Why no map is made. */
  ghost predicate Refused(flow: Flow, graph: Graph, e: MapError) {
    match e
    case DuplicateId(_) => !NoDup(StepIds(flow.steps)) || !NoDup(TerminalIds(flow.terminals))
    case MissingSteps(ids) => exists m :: Mapped(flow, graph, m) && ids == UnmappedSteps(flow, m) != {}
    case MissingTerminals(ids) => exists m :: Mapped(flow, graph, m) && ids == UnmappedTerminals(flow, m) != {}
    case _ => exists n :: n in graph.nodes && Rejected(n, flow.steps, TerminalIds(flow.terminals), e)
  }

  /** Every node has its entry, and every step and every terminal has a node. */
  ghost predicate IsSourceMap(flow: Flow, graph: Graph, m: map<Id, Entry>) {
    Mapped(flow, graph, m) && UnmappedSteps(flow, m) == {} && UnmappedTerminals(flow, m) == {}
  }

  method BuildSourceMap(flow: Flow, graph: Graph) returns (r: Result<map<Id, Entry>, MapError>)
    ensures match r case Ok(m) => IsSourceMap(flow, graph, m) case Err(e) => Refused(flow, graph, e)
  {
    hide AllMapped, Rejected, StepsOf, TerminalsOf;
    var ids := TerminalIds(flow.terminals);
    var steps := IndexObjects(StepIds(flow.steps));
    if steps.Err? {
      return Err(steps.error);
    }
    var terminals := IndexObjects(ids);
    if terminals.Err? {
      return Err(terminals.error);
    }
    r := MappingForGraphNodes(graph.nodes, flow.steps, steps.value, ids, InputNames(flow.inputs));
    if r.Err? {
      return;
    }
    var missingSteps := steps.value.Keys - StepsOf(r.value);
    assert missingSteps == UnmappedSteps(flow, r.value);
    if missingSteps != {} {
      return Err(MissingSteps(missingSteps));
    }
    var missingTerminals := terminals.value.Keys - TerminalsOf(r.value);
    assert missingTerminals == UnmappedTerminals(flow, r.value);
    if missingTerminals != {} {
      return Err(MissingTerminals(missingTerminals));
    }
  }
}
