/** The graph builder as the source runs it: one object that loads a flow and appends nodes and edges to its lists. */
module FlowGraphBuilding {
  import opened Prelude
  import opened Text
  import opened Pseudocode
  import opened FlowSemantics
  import opened WorkflowGraph
  import opened Lowering
  import opened Layout
  import opened GraphSpec

  /** The graph with its layout. */
  datatype Draft = Draft(graph: Graph, positions: map<Id, Position>)

  /**
   Every node stands in the column of its longest path, at its number in that column; so along every edge the layout
   leads to the right, and no two nodes share a position.
   */
  ghost predicate LaidOut(g: Graph, positions: map<Id, Position>) {
    (exists d :: InColumns(NetOf(g.nodes, g.edges), d, positions)) &&
    (forall e :: e in g.edges ==> e.source in positions && e.target in positions && positions[e.source].x < positions[e.target].x) &&
    forall m, n :: m in g.nodes && n in g.nodes && m.id != n.id ==>
      m.id in positions && n.id in positions && positions[m.id] != positions[n.id]
  }

  ghost predicate InColumns(net: Net, d: Depths, positions: map<Id, Position>) {
    (forall n :: n in net.nodes ==> LongestTo(net, n, Depth(d, n))) && Placed(net.nodes, d, positions)
  }

  /** The look-up tables agree with the lists. */
  ghost predicate Tables(nodes: seq<GNode>, edges: seq<Edge>, nodeTypes: map<Id, string>, seenEdges: set<Edge>) {
    (forall id :: id in nodeTypes <==> HasNode(Building(nodes, edges, {}, map[]), id)) &&
    (forall n :: n in nodes ==> n.id in nodeTypes && nodeTypes[n.id] == NodeType(n)) &&
    forall e :: e in seenEdges <==> e in edges
  }

  lemma EmptyTables()
    ensures Tables([], [], map[], {})
  {
  }

  lemma Known(g: Building, nodeTypes: map<Id, string>, seenEdges: set<Edge>)
    requires Tables(g.nodes, g.edges, nodeTypes, seenEdges)
    ensures forall id :: id in nodeTypes <==> HasNode(g, id)
    ensures forall e :: e in seenEdges <==> e in g.edges
  {
    assert forall id :: HasNode(g, id) <==> HasNode(Building(g.nodes, g.edges, {}, map[]), id);
  }

  lemma NodeAdded(g: Building, nodeTypes: map<Id, string>, seenEdges: set<Edge>, n: GNode)
    requires Tables(g.nodes, g.edges, nodeTypes, seenEdges) && n.id !in nodeTypes
    ensures Tables(g.nodes + [n], g.edges, nodeTypes[n.id := NodeType(n)], seenEdges)
  {
    var b := Building(g.nodes, g.edges, {}, map[]);
    var h := b.(nodes := g.nodes + [n]);
    forall id
      ensures HasNode(h, id) <==> HasNode(b, id) || id == n.id
    {
      if HasNode(b, id) {
        var i :| 0 <= i < |b.nodes| && b.nodes[i].id == id;
        assert h.nodes[i].id == id;
      }
      if id == n.id {
        assert h.nodes[|b.nodes|].id == id;
      }
    }
  }

  lemma EdgeAdded(g: Building, nodeTypes: map<Id, string>, seenEdges: set<Edge>, e: Edge)
    requires Tables(g.nodes, g.edges, nodeTypes, seenEdges)
    ensures Tables(g.nodes, g.edges + [e], nodeTypes, seenEdges + {e})
  {
    assert forall id :: HasNode(Building(g.nodes, g.edges, {}, map[]), id) <==> HasNode(Building(g.nodes, g.edges + [e], {}, map[]), id);
  }

  class FlowGraphBuilder {
    var steps: seq<Step>
    var index: map<Id, nat>
    var bindings: set<Id>
    var terminals: map<Id, Terminal>
    var variables: map<string, seq<Id>>
    var inputTypes: map<string, string>
    var structuredFields: map<Id, Fields>
    var nodes: seq<GNode>
    var edges: seq<Edge>
    var nodeTypes: map<Id, string>
    var seenEdges: set<Edge>
    var visitedSteps: set<Id>
    var terminalNodeCount: map<Id, nat>
    var positions: map<Id, Position>

    constructor ()
      ensures Valid() && Ctx() == Context([], map[], {}, map[], map[], map[], map[]) && State() == Building([], [], {}, map[])
    {
      steps, index, bindings, terminals, variables, inputTypes, structuredFields := [], map[], {}, map[], map[], map[], map[];
      nodes, edges, nodeTypes, seenEdges, visitedSteps, terminalNodeCount, positions := [], [], map[], {}, {}, map[], map[];
    }

    function Ctx(): Context
      reads `steps, `index, `bindings, `terminals, `variables, `inputTypes, `structuredFields
    {
      Context(steps, index, bindings, terminals, variables, inputTypes, structuredFields)
    }

    function State(): Building
      reads `nodes, `edges, `visitedSteps, `terminalNodeCount
    {
      Building(nodes, edges, visitedSteps, terminalNodeCount)
    }

    ghost predicate Valid()
      reads `nodes, `edges, `nodeTypes, `seenEdges
    {
      Tables(nodes, edges, nodeTypes, seenEdges)
    }

    method ResetBuildState()
      modifies this
      ensures Valid() && Ctx() == Context([], map[], {}, map[], map[], map[], map[]) && State() == Building([], [], {}, map[])
    {
      hide Tables;
      EmptyTables();
      ResetLoaded();
      ResetGraph();
    }

    method ResetLoaded()
      modifies `steps, `index, `bindings, `terminals, `variables, `inputTypes, `structuredFields
      ensures Ctx() == Context([], map[], {}, map[], map[], map[], map[])
    {
      steps, index, bindings, terminals, variables, inputTypes, structuredFields := [], map[], {}, map[], map[], map[], map[];
    }

    method ResetGraph()
      modifies `nodes, `edges, `nodeTypes, `seenEdges, `visitedSteps, `terminalNodeCount, `positions
      ensures nodes == [] && edges == [] && nodeTypes == map[] && seenEdges == {} && visitedSteps == {} && terminalNodeCount == map[]
    {
      nodes, edges, nodeTypes, seenEdges, visitedSteps, terminalNodeCount, positions := [], [], map[], {}, {}, map[], map[];
    }

    // ----- Loading -----

    method LoadSemantics(flow: Flow) returns (r: Result<(), GraphError>)
      requires Ctx() == Context([], map[], {}, map[], map[], map[], map[])
      modifies `steps, `index, `bindings, `terminals, `variables, `inputTypes
      ensures match Load(flow) case Ok(ctx) => r == Ok(()) && Ctx() == ctx case Err(e) => r == Err(e)
    {
      if flow.warnings != [] {
        return Err(UnsafeWarnings);
      }
      LoadInputs(flow.inputs);
      r := LoadSteps(flow.steps);
      if r.Err? {
        return;
      }
      r := IndexBindings(flow.bindings);
      if r.Err? {
        return;
      }
      r := IndexTerminals(flow.terminals);
      if r.Err? {
        return;
      }
      if terminals == map[] {
        return Err(NoTerminals);
      }
      variables := flow.variables;
    }

    method LoadInputs(inputs: seq<Input>)
      modifies `inputTypes
      ensures inputTypes == InputTypes(inputs, old(inputTypes))
    {
      var i := 0;
      while i < |inputs|
        invariant 0 <= i <= |inputs| && InputTypes(inputs[i..], inputTypes) == InputTypes(inputs, old(inputTypes))
      {
        inputTypes := inputTypes[inputs[i].name := inputs[i].ty];
        i := i + 1;
      }
    }

    method LoadSteps(all: seq<Step>) returns (r: Result<(), GraphError>)
      requires steps == [] && index == map[]
      modifies `steps, `index
      ensures match IndexSteps(all, 0, map[]) case Ok(x) => r == Ok(()) && index == x && steps == all case Err(e) => r == Err(e)
    {
      var i := 0;
      while i < |all|
        invariant 0 <= i <= |all| && IndexSteps(all, i, index) == IndexSteps(all, 0, map[])
        invariant steps == all[..i]
      {
        var step := all[i];
        if !CallOk(step) {
          return Err(UnsupportedFunction(step.call.func));
        }
        if step.id in index {
          return Err(DuplicateObject(step.id));
        }
        index := index[step.id := i];
        steps := steps + [step];
        i := i + 1;
      }
      return Ok(());
    }

    method IndexBindings(all: seq<Binding>) returns (r: Result<(), GraphError>)
      requires bindings == {}
      modifies `bindings
      ensures match Lowering.IndexBindings(all, {}) case Ok(x) => r == Ok(()) && bindings == x case Err(e) => r == Err(e)
    {
      var i := 0;
      while i < |all|
        invariant 0 <= i <= |all| && Lowering.IndexBindings(all[i..], bindings) == Lowering.IndexBindings(all, {})
      {
        if all[i].id in bindings {
          return Err(DuplicateObject(all[i].id));
        }
        bindings := bindings + {all[i].id};
        i := i + 1;
      }
      return Ok(());
    }

    method IndexTerminals(all: seq<Terminal>) returns (r: Result<(), GraphError>)
      requires terminals == map[]
      modifies `terminals
      ensures match Lowering.IndexTerminals(all, map[]) case Ok(x) => r == Ok(()) && terminals == x case Err(e) => r == Err(e)
    {
      var i := 0;
      while i < |all|
        invariant 0 <= i <= |all| && Lowering.IndexTerminals(all[i..], terminals) == Lowering.IndexTerminals(all, map[])
      {
        if all[i].id in terminals {
          return Err(DuplicateObject(all[i].id));
        }
        terminals := terminals[all[i].id := all[i]];
        i := i + 1;
      }
      return Ok(());
    }

    // ----- Structured outputs -----

    method InferField(c: Comparison) returns (r: Result<(), GraphError>)
      requires ContextOk(Ctx())
      modifies `structuredFields
      ensures match InferComparison(old(Ctx()), c) case Ok(ctx) => r == Ok(()) && Ctx() == ctx case Err(e) => r == Err(e)
    {
      if c.key.None? || c.key.value == "" {
        return Ok(());
      }
      var source := SingleSource(Ctx(), c.name);
      if source.Err? {
        return Err(source.error);
      }
      if source.value !in index || !steps[index[source.value]].CallStep? {
        return Err(NotGroupCall(source.value));
      }
      var fields := if source.value in structuredFields then structuredFields[source.value] else map[];
      if c.key.value in fields && fields[c.key.value] != SchemaType(c) {
        return Err(IncompatibleTypes(c.name, c.key.value));
      }
      structuredFields := structuredFields[source.value := fields[c.key.value := SchemaType(c)]];
      return Ok(());
    }

    method InferStructuredOutputs() returns (r: Result<(), GraphError>)
      requires ContextOk(Ctx())
      modifies `structuredFields
      ensures match InferSteps(old(Ctx()), steps) case Ok(ctx) => r == Ok(()) && Ctx() == ctx case Err(e) => r == Err(e)
    {
      var i := 0;
      while i < |steps|
        invariant 0 <= i <= |steps| && ContextOk(Ctx()) && InferSteps(Ctx(), steps[i..]) == InferSteps(old(Ctx()), steps)
      {
        if steps[i].BranchStep? {
          var one := InferBranch(steps[i].id, steps[i].cases);
          if one.Err? {
            return Err(one.error);
          }
        }
        i := i + 1;
      }
      return Ok(());
    }

    method InferBranch(id: Id, cases: seq<FlatCase>) returns (r: Result<(), GraphError>)
      requires ContextOk(Ctx())
      modifies `structuredFields
      ensures match InferCases(old(Ctx()), id, cases) case Ok(ctx) => r == Ok(()) && Ctx() == ctx case Err(e) => r == Err(e)
    {
      var i := 0;
      while i < |cases|
        invariant 0 <= i <= |cases| && ContextOk(Ctx()) && InferCases(Ctx(), id, cases[i..]) == InferCases(old(Ctx()), id, cases)
      {
        if cases[i].cond.Unparsed? {
          return Err(UnparsedCondition(id));
        }
        var cs := cases[i].cond.comparisons;
        ghost var before := Ctx();
        var j := 0;
        while j < |cs|
          invariant 0 <= j <= |cs| && ContextOk(Ctx()) && InferComparisons(Ctx(), cs[j..]) == InferComparisons(before, cs)
        {
          var one := InferField(cs[j]);
          if one.Err? {
            return Err(one.error);
          }
          j := j + 1;
        }
        i := i + 1;
      }
      return Ok(());
    }

    // ----- Nodes and edges -----

    method AppendNode(n: GNode) returns (r: Result<(), GraphError>)
      requires Valid()
      modifies `nodes, `nodeTypes
      ensures Valid()
      ensures match Lowering.AppendNode(old(State()), n) case Ok(g) => r == Ok(()) && State() == g case Err(e) => r == Err(e)
    {
      hide Tables;
      Known(State(), nodeTypes, seenEdges);
      if n.id in nodeTypes {
        return Err(DuplicateNode(n.id));
      }
      NodeAdded(State(), nodeTypes, seenEdges, n);
      nodeTypes := nodeTypes[n.id := NodeType(n)];
      nodes := nodes + [n];
      return Ok(());
    }

    method AppendEdge(source: Id, handle: string, target: Id) returns (r: Result<(), GraphError>)
      requires Valid()
      modifies `edges, `seenEdges
      ensures Valid()
      ensures match Lowering.AppendEdge(old(State()), Pos(source, handle), target)
              case Ok(g) => r == Ok(()) && State() == g
              case Err(e) => r == Err(e)
    {
      hide Tables;
      Known(State(), nodeTypes, seenEdges);
      if source !in nodeTypes {
        return Err(UnknownNode(source));
      }
      if target !in nodeTypes {
        return Err(UnknownNode(target));
      }
      var e := Edge(source, handle, target);
      if e in seenEdges {
        return Ok(());
      }
      EdgeAdded(State(), nodeTypes, seenEdges, e);
      seenEdges := seenEdges + {e};
      edges := edges + [e];
      return Ok(());
    }

    method AppendStepNodes() returns (r: Result<(), GraphError>)
      requires Valid() && ContextOk(Ctx())
      modifies `nodes, `nodeTypes
      ensures Valid()
      ensures match Lowering.AppendStepNodes(Ctx(), steps, old(State())) case Ok(g) => r == Ok(()) && State() == g case Err(e) => r == Err(e)
    {
      var i := 0;
      while i < |steps|
        invariant 0 <= i <= |steps| && Valid()
        invariant Lowering.AppendStepNodes(Ctx(), steps[i..], State()) == Lowering.AppendStepNodes(Ctx(), steps, old(State()))
      {
        var n := BuildStepNode(Ctx(), steps[i]);
        if n.Err? {
          return Err(n.error);
        }
        var one := AppendNode(n.value);
        if one.Err? {
          return Err(one.error);
        }
        i := i + 1;
      }
      return Ok(());
    }

    method AppendTerminalNodes(t: Terminal, incoming: seq<Pos>) returns (r: Result<(), GraphError>)
      requires Valid() && ContextOk(Ctx())
      modifies `nodes, `nodeTypes, `edges, `seenEdges, `terminalNodeCount
      ensures Valid()
      ensures match AppendEnds(Ctx(), t, incoming, |incoming| == 1, old(State()))
              case Ok(g) => r == Ok(()) && State() == g
              case Err(e) => r == Err(e)
    {
      hide Tables, AppendEnd, ContextOk;
      var i := 0;
      while i < |incoming|
        invariant 0 <= i <= |incoming| && Valid()
        invariant AppendEnds(Ctx(), t, incoming[i..], |incoming| == 1, State()) ==
                  AppendEnds(Ctx(), t, incoming, |incoming| == 1, old(State()))
      {
        var one := AppendEndNode(t, incoming[i], |incoming| == 1);
        if one.Err? {
          return Err(one.error);
        }
        i := i + 1;
      }
      return Ok(());
    }

    method AppendEndNode(t: Terminal, from: Pos, alone: bool) returns (r: Result<(), GraphError>)
      requires Valid() && ContextOk(Ctx())
      modifies `nodes, `nodeTypes, `edges, `seenEdges, `terminalNodeCount
      ensures Valid()
      ensures match AppendEnd(Ctx(), t, from, alone, old(State()))
              case Ok(g) => r == Ok(()) && State() == g
              case Err(e) => r == Err(e)
    {
      hide Tables, ContextOk, TerminalOutput, HasNode, DifyType, OutputName, EndId;
      var out := TerminalOutput(Ctx(), t, from.node);
      if out.Err? {
        return Err(out.error);
      }
      var id := AddEndNode(t, from.node, alone, out.value.0, out.value.1);
      if id.Err? {
        return Err(id.error);
      }
      r := AppendEdge(from.node, from.handle, id.value);
    }

    method AddEndNode(t: Terminal, source: Id, alone: bool, selector: Selector, ty: Ty) returns (r: Result<Id, GraphError>)
      requires Valid()
      modifies `nodes, `nodeTypes, `terminalNodeCount
      ensures Valid()
      ensures var count := GetOr(old(terminalNodeCount), t.id, 0) + 1;
              var id := EndId(t.id, source, alone, count);
              match Lowering.AppendNode(old(State()).(counts := old(terminalNodeCount)[t.id := count]),
                                        EndNode(id, OutputName(t), selector, DifyType(ty)))
              case Ok(g) => r == Ok(id) && State() == g
              case Err(e) => r == Err(e)
    {
      hide Tables, HasNode, DifyType, OutputName, EndId;
      var count := GetOr(terminalNodeCount, t.id, 0) + 1;
      terminalNodeCount := terminalNodeCount[t.id := count];
      var id := EndNodeId(t.id, source, alone, count);
      var one := AppendNode(EndNode(id, OutputName(t), selector, DifyType(ty)));
      if one.Err? {
        return Err(one.error);
      }
      return Ok(id);
    }

    static method EndNodeId(t: Id, source: Id, alone: bool, count: nat) returns (id: Id)
      ensures id == EndId(t, source, alone, count)
    {
      id := if alone then t else t + "_" + source;
      if count > 1 && id == t {
        id := t + "_" + Dec(count);
      }
    }

    method AppendIncoming(incoming: seq<Pos>, target: Id) returns (r: Result<(), GraphError>)
      requires Valid()
      modifies `edges, `seenEdges
      ensures Valid()
      ensures match AppendEdges(old(State()), incoming, target) case Ok(g) => r == Ok(()) && State() == g case Err(e) => r == Err(e)
    {
      var i := 0;
      while i < |incoming|
        invariant 0 <= i <= |incoming| && Valid()
        invariant AppendEdges(State(), incoming[i..], target) == AppendEdges(old(State()), incoming, target)
      {
        var one := AppendEdge(incoming[i].node, incoming[i].handle, target);
        if one.Err? {
          return Err(one.error);
        }
        i := i + 1;
      }
      return Ok(());
    }

    // ----- The walk -----

    method WalkSequence(ids: seq<Id>, ghost lo: nat, incoming: seq<Pos>) returns (r: Result<seq<Pos>, GraphError>)
      requires Valid() && ContextOk(Ctx()) && Ranked(Ctx()) && Above(Ctx(), ids, lo)
      modifies `nodes, `nodeTypes, `edges, `seenEdges, `visitedSteps, `terminalNodeCount
      ensures Valid()
      ensures match Lowering.WalkSequence(Ctx(), ids, lo, incoming, old(State()))
              case Ok(w) => r == Ok(w.1) && State() == w.0
              case Err(e) => r == Err(e)
      decreases |steps| - lo, 1
    {
      hide Tables, Ranked, ContextOk, Above, Lowering.WalkSequence;
      var exits := incoming;
      var i := 0;
      ghost var ctx, g0 := Ctx(), State();
      assert ids[0..] == ids;
      while i < |ids|
        invariant 0 <= i <= |ids| && Valid() && Above(ctx, ids[i..], lo)
        invariant Lowering.WalkSequence(ctx, ids[i..], lo, exits, State()) ==
                  Lowering.WalkSequence(ctx, ids, lo, incoming, g0)
      {
        SequenceHead(ctx, ids[i..], lo, exits, State());
        assert ids[i..][0] == ids[i] && ids[i..][1..] == ids[i + 1..];
        var one := WalkObject(ids[i], lo, exits);
        if one.Err? {
          return Err(one.error);
        }
        exits := one.value;
        i := i + 1;
      }
      assert ids[i..] == [];
      SequenceEmpty(ctx, lo, exits, State());
      return Ok(exits);
    }

    /** One object of a body: bindings are skipped, a terminal uses the pending exits up, a step takes them over. */
    method WalkObject(id: Id, ghost lo: nat, incoming: seq<Pos>) returns (r: Result<seq<Pos>, GraphError>)
      requires Valid() && ContextOk(Ctx()) && Ranked(Ctx()) && Above(Ctx(), [id], lo)
      modifies `nodes, `nodeTypes, `edges, `seenEdges, `visitedSteps, `terminalNodeCount
      ensures Valid()
      ensures match Lowering.WalkSequence(Ctx(), [id], lo, incoming, old(State()))
              case Ok(w) => r == Ok(w.1) && State() == w.0
              case Err(e) => r == Err(e)
      decreases |steps| - lo, 0
    {
      OneObject(Ctx(), id, lo, incoming, State());
      hide Lowering.WalkSequence, Ranked, Tables, Above, WalkStepOf;
      if id in bindings {
        return Ok(incoming);
      }
      if id in terminals {
        var ended := AppendTerminalNodes(terminals[id], incoming);
        if ended.Err? {
          return Err(ended.error);
        }
        return Ok([]);
      }
      if id !in index {
        return Err(UnknownObject(id));
      }
      r := WalkStep(id, incoming);
    }

    method WalkStep(id: Id, incoming: seq<Pos>) returns (r: Result<seq<Pos>, GraphError>)
      requires Valid() && ContextOk(Ctx()) && Ranked(Ctx()) && id in index
      modifies `nodes, `nodeTypes, `edges, `seenEdges, `visitedSteps, `terminalNodeCount
      ensures Valid()
      ensures match WalkStepOf(Ctx(), id, incoming, old(State()))
              case Ok(w) => r == Ok(w.1) && State() == w.0
              case Err(e) => r == Err(e)
      decreases |steps| - index[id] - 1, 3
    {
      hide WalkCases, Ranked, Tables;
      visitedSteps := visitedSteps + {id};
      var wired := AppendIncoming(incoming, id);
      if wired.Err? {
        return Err(wired.error);
      }
      match steps[index[id]]
      case CallStep(_, _) => return Ok([Pos(id, SOURCE)]);
      case BranchStep(_, cases, elseBody) => r := WalkBranch(id, cases, elseBody);
    }

    method WalkBranch(id: Id, cases: seq<FlatCase>, elseBody: seq<Id>) returns (r: Result<seq<Pos>, GraphError>)
      requires Valid() && ContextOk(Ctx()) && Ranked(Ctx()) && id in index && steps[index[id]] == BranchStep(id, cases, elseBody)
      modifies `nodes, `nodeTypes, `edges, `seenEdges, `visitedSteps, `terminalNodeCount
      ensures Valid()
      ensures match WalkCases(Ctx(), id, cases, elseBody, index[id] + 1, old(State()))
              case Ok(w) => r == Ok(w.1) && State() == w.0
              case Err(e) => r == Err(e)
      decreases |steps| - index[id] - 1, 2
    {
      hide Tables, Lowering.WalkSequence, WalkCases, WithExits;
      ghost var ctx, lo, g0 := Ctx(), index[id] + 1, State();
      BranchAbove(ctx, id);
      hide Ranked, ContextOk, Above;
      var exits: seq<Pos> := [];
      var i := 0;
      while i < |cases|
        invariant 0 <= i <= |cases| && Valid() && BodiesAbove(ctx, cases[i..], elseBody, lo)
        invariant WithExits([], WalkCases(ctx, id, cases, elseBody, lo, g0)) ==
                  WithExits(exits, WalkCases(ctx, id, cases[i..], elseBody, lo, State()))
      {
        assert cases[i..][0] == cases[i] && cases[i..][1..] == cases[i + 1..];
        ExitsStep(ctx, id, cases[i..], elseBody, lo, State(), exits);
        var one := WalkSequence(cases[i].body, lo, [Pos(id, cases[i].caseId)]);
        if one.Err? {
          NoExits(WalkCases(ctx, id, cases, elseBody, lo, g0));
          return Err(one.error);
        }
        exits := exits + one.value;
        i := i + 1;
      }
      assert cases[i..] == [];
      NoExits(WalkCases(ctx, id, cases, elseBody, lo, g0));
      LastExits(ctx, id, elseBody, lo, State(), exits);
      var last := WalkSequence(elseBody, lo, [Pos(id, FALSE)]);
      if last.Err? {
        return Err(last.error);
      }
      return Ok(exits + last.value);
    }

    // ----- Layout and checks -----

    method ApplyTopologicalLayout() returns (r: Result<(), GraphError>)
      requires Valid() && GraphOk(State())
      modifies `positions
      ensures r == if Cyclic(NetOf(nodes, edges)) then Err(DirectedCycle) else Ok(())
      ensures r.Ok? ==> LaidOut(Graph(nodes, edges), positions)
    {
      NetIsOk(State());
      var net := NetOf(nodes, edges);
      var depths := TopologicalDepths(net, START);
      if depths.None? {
        return Err(DirectedCycle);
      }
      positions := PlaceNodes(net.nodes, depths.value);
      PositionsOk(net, depths.value, positions);
      assert InColumns(net, depths.value, positions);
      EdgesLaidOut(Graph(nodes, edges), positions);
      return Ok(());
    }

    method ValidateGraph() returns (r: Result<(), GraphError>)
      requires Valid() && GraphOk(State())
      ensures r == if CountStart(nodes) != 1 then Err(StartCount) else if !HasEnd(nodes) then Err(NoEndNode) else Ok(())
    {
      hide Tables, GraphOk, CountStart, HasEnd;
      var starts, ends := CountTypes();
      if starts != 1 {
        return Err(StartCount);
      }
      if ends < 1 {
        return Err(NoEndNode);
      }
      CheckEdges();
      return Ok(());
    }

    method CountTypes() returns (starts: nat, ends: nat)
      requires Valid()
      ensures starts == CountStart(nodes) && (ends >= 1 <==> HasEnd(nodes))
    {
      hide Tables;
      starts, ends := 0, 0;
      var i := 0;
      while i < |nodes|
        invariant 0 <= i <= |nodes| && starts == CountStart(nodes[..i]) && (ends >= 1 <==> HasEnd(nodes[..i]))
      {
        TypeKnown(nodes, edges, nodeTypes, seenEdges, i);
        CountSnoc(nodes[..i], nodes[i]);
        assert nodes[..i + 1] == nodes[..i] + [nodes[i]];
        if nodeTypes[nodes[i].id] == "start" {
          starts := starts + 1;
        }
        if nodeTypes[nodes[i].id] == "end" {
          ends := ends + 1;
        }
        i := i + 1;
      }
      assert nodes[..i] == nodes;
    }

    /** The last check finds nothing, because edges are only ever added between known nodes. */
    method CheckEdges()
      requires Valid() && GraphOk(State())
    {
      Known(State(), nodeTypes, seenEdges);
      hide Tables, HasNode;
      var i := 0;
      while i < |edges|
        invariant 0 <= i <= |edges|
      {
        var e := edges[i];
        assert e in edges;
        assert e.source in nodeTypes && e.target in nodeTypes;
        i := i + 1;
      }
    }

    // ----- The build -----

    method Prepare(flow: Flow) returns (r: Result<(), GraphError>)
      requires Walkable(flow)
      modifies this
      ensures Valid()
      ensures match Prepared(flow) case Ok(p) => r == Ok(()) && Ctx() == p.0 && State() == p.1 case Err(e) => r == Err(e)
    {
      NothingLoaded(flow);
      hide Tables, HasNode, Load, InferSteps, Lowering.AppendStepNodes, Ranked, Above;
      ResetBuildState();
      r := LoadSemantics(flow);
      if r.Err? {
        return;
      }
      r := InferStructuredOutputs();
      if r.Err? {
        return;
      }
      r := AppendNode(StartNode(START, StartVariables(flow.inputs)));
      assert r.Ok? && State() == StartBuilding(flow);
      r := AppendStepNodes();
    }

    /** Nodes and edges come out as the function says; and when they do, the layout is right. */
    method Build(flow: Flow) returns (r: Result<Draft, GraphError>)
      requires Walkable(flow)
      modifies this
      ensures match Built(flow)
              case Ok(g) => r.Ok? && r.value.graph == g && LaidOut(g, r.value.positions)
              case Err(e) => r == Err(e)
    {
      var prepared := Prepare(flow);
      if prepared.Err? {
        return Err(prepared.error);
      }
      PreparedOk(flow);
      hide Tables, HasNode, Prepared, Lowering.WalkSequence, Ranked, Above, GraphOk, LaidOut, ContextOk, Walkable, Checked;
      ghost var ctx, g := Ctx(), State();
      PreparedSteps(flow);
      var exits := WalkSequence(flow.body, 0, [Pos(START, SOURCE)]);
      if exits.Err? {
        return Err(exits.error);
      }
      SequenceOk(ctx, flow.body, 0, [Pos(START, SOURCE)], g);
      r := Finish(flow, exits.value);
    }

    /** The checks after the walk, with the layout between them. */
    method Finish(ghost flow: Flow, exits: seq<Pos>) returns (r: Result<Draft, GraphError>)
      requires Valid() && GraphOk(State()) && steps == flow.steps
      modifies `positions
      ensures match Checked(flow, State(), exits)
              case Ok(g) => r.Ok? && r.value.graph == g && LaidOut(g, r.value.positions)
              case Err(e) => r == Err(e)
    {
      hide Tables, HasNode, GraphOk, Cyclic, CountStart, HasEnd, LaidOut;
      if exits != [] {
        return Err(FallsOff);
      }
      var missing := (set s | s in steps :: s.id) - visitedSteps;
      if missing != {} {
        return Err(Unreferenced(missing));
      }
      var laid := ApplyTopologicalLayout();
      if laid.Err? {
        return Err(laid.error);
      }
      var checked := ValidateGraph();
      if checked.Err? {
        return Err(checked.error);
      }
      return Ok(Draft(Graph(nodes, edges), positions));
    }
  }

  lemma PreparedSteps(flow: Flow)
    requires Walkable(flow) && Prepared(flow).Ok?
    ensures Prepared(flow).value.0.steps == flow.steps
  {
    PreparedOk(flow);
    NothingLoaded(flow);
  }

  lemma NothingLoaded(flow: Flow)
    ensures Load(flow).Ok? ==> Load(flow).value.steps == flow.steps
    ensures !HasNode(Building([], [], {}, map[]), START)
  {
  }

  lemma SequenceEmpty(ctx: Context, lo: nat, incoming: seq<Pos>, g: Building)
    requires ContextOk(ctx) && Ranked(ctx) && Above(ctx, [], lo)
    ensures Lowering.WalkSequence(ctx, [], lo, incoming, g) == Ok((g, incoming))
  {
  }

  lemma SequenceHead(ctx: Context, ids: seq<Id>, lo: nat, incoming: seq<Pos>, g: Building)
    requires ContextOk(ctx) && Ranked(ctx) && Above(ctx, ids, lo) && ids != []
    ensures Above(ctx, [ids[0]], lo) && Above(ctx, ids[1..], lo)
    ensures var one := Lowering.WalkSequence(ctx, [ids[0]], lo, incoming, g);
            Lowering.WalkSequence(ctx, ids, lo, incoming, g) ==
              if one.Err? then Err(one.error) else Lowering.WalkSequence(ctx, ids[1..], lo, one.value.1, one.value.0)
  {
    hide Ranked;
    assert [ids[0]][1..] == [];
  }

  /** A step of a body: its edges from the pending exits, then for a branch its bodies. */
  function WalkStepOf(ctx: Context, id: Id, incoming: seq<Pos>, g: Building): Lowered
    requires ContextOk(ctx) && Ranked(ctx) && id in ctx.index
  {
    var g1 :- AppendEdges(g.(visited := g.visited + {id}), incoming, id);
    match ctx.steps[ctx.index[id]]
    case CallStep(_, _) => Ok((g1, [Pos(id, SOURCE)]))
    case BranchStep(_, cases, elseBody) => WalkCases(ctx, id, cases, elseBody, ctx.index[id] + 1, g1)
  }

  lemma OneObject(ctx: Context, id: Id, lo: nat, incoming: seq<Pos>, g: Building)
    requires ContextOk(ctx) && Ranked(ctx) && Above(ctx, [id], lo)
    ensures id in ctx.index ==> lo <= ctx.index[id] < |ctx.steps|
    ensures Lowering.WalkSequence(ctx, [id], lo, incoming, g) ==
            if id in ctx.bindings then Ok((g, incoming))
            else if id in ctx.terminals then
              var e := AppendEnds(ctx, ctx.terminals[id], incoming, |incoming| == 1, g);
              if e.Err? then Err(e.error) else Ok((e.value, []))
            else if id !in ctx.index then Err(UnknownObject(id))
            else WalkStepOf(ctx, id, incoming, g)
  {
    assert [id][0] == id && [id][1..] == [];
    assert id in [id];
  }

  lemma BranchAbove(ctx: Context, id: Id)
    requires ContextOk(ctx) && Ranked(ctx) && id in ctx.index && ctx.steps[ctx.index[id]].BranchStep?
    ensures BodiesAbove(ctx, ctx.steps[ctx.index[id]].cases, ctx.steps[ctx.index[id]].elseBody, ctx.index[id] + 1)
    ensures ctx.index[id] + 1 <= |ctx.steps|
  {
  }

  function WithExits(exits: seq<Pos>, w: Lowered): Lowered {
    if w.Err? then w else Ok((w.value.0, exits + w.value.1))
  }

  lemma LastExits(ctx: Context, id: Id, elseBody: seq<Id>, lo: nat, g: Building, exits: seq<Pos>)
    requires ContextOk(ctx) && Ranked(ctx) && BodiesAbove(ctx, [], elseBody, lo) && lo <= |ctx.steps|
    ensures WithExits(exits, WalkCases(ctx, id, [], elseBody, lo, g)) ==
            WithExits(exits, WalkSequence(ctx, elseBody, lo, [Pos(id, FALSE)], g))
    ensures forall w :: WithExits(exits, w) == if w.Ok? then Ok((w.value.0, exits + w.value.1)) else w
  {
  }

  lemma NoExits(w: Lowered)
    ensures WithExits([], w) == w
  {
    if w.Ok? {
      assert [] + w.value.1 == w.value.1;
    }
  }

  lemma ExitsStep(ctx: Context, id: Id, cases: seq<FlatCase>, elseBody: seq<Id>, lo: nat, g: Building, exits: seq<Pos>)
    requires ContextOk(ctx) && Ranked(ctx) && BodiesAbove(ctx, cases, elseBody, lo) && lo <= |ctx.steps| && cases != []
    ensures var one := Lowering.WalkSequence(ctx, cases[0].body, lo, [Pos(id, cases[0].caseId)], g);
            WithExits(exits, WalkCases(ctx, id, cases, elseBody, lo, g)) ==
              if one.Err? then Err(one.error)
              else WithExits(exits + one.value.1, WalkCases(ctx, id, cases[1..], elseBody, lo, one.value.0))
  {
    var one := Lowering.WalkSequence(ctx, cases[0].body, lo, [Pos(id, cases[0].caseId)], g);
    if one.Ok? {
      var q := WalkCases(ctx, id, cases[1..], elseBody, lo, one.value.0);
      if q.Ok? {
        Assoc(exits, one.value.1, q.value.1);
      }
    }
  }

  lemma TypeKnown(nodes: seq<GNode>, edges: seq<Edge>, nodeTypes: map<Id, string>, seenEdges: set<Edge>, i: nat)
    requires Tables(nodes, edges, nodeTypes, seenEdges) && i < |nodes|
    ensures nodes[i].id in nodeTypes && (nodeTypes[nodes[i].id] == "start" <==> nodes[i].StartNode?)
    ensures nodeTypes[nodes[i].id] == "end" <==> nodes[i].EndNode?
  {
    assert nodes[i] in nodes;
    TypesApart(nodes[i]);
  }

  lemma TypesApart(n: GNode)
    ensures NodeType(n) == "start" <==> n.StartNode?
    ensures NodeType(n) == "end" <==> n.EndNode?
  {
    assert |"start"| == 5 && |"end"| == 3 && |"llm"| == 3 && "llm"[0] == 'l' && |"if-else"| == 7;
  }

  lemma {:induction false} CountSnoc(nodes: seq<GNode>, n: GNode)
    ensures CountStart(nodes + [n]) == CountStart(nodes) + if n.StartNode? then 1 else 0
    ensures HasEnd(nodes + [n]) <==> HasEnd(nodes) || n.EndNode?
    decreases |nodes|
  {
    if HasEnd(nodes) {
      var i :| 0 <= i < |nodes| && nodes[i].EndNode?;
      assert (nodes + [n])[i].EndNode?;
    }
    assert (nodes + [n])[|nodes|] == n;
    if nodes == [] {
      assert [] + [n] == [n] && [n][1..] == [];
    } else {
      assert (nodes + [n])[1..] == nodes[1..] + [n];
      CountSnoc(nodes[1..], n);
    }
  }

  lemma EdgesLaidOut(g: Graph, positions: map<Id, Position>)
    requires var net := NetOf(g.nodes, g.edges);
             (forall e :: e in net.edges ==> e.0 in positions && e.1 in positions && positions[e.0].x < positions[e.1].x) &&
             (forall n :: n in net.nodes ==> n in positions) && (exists d :: InColumns(net, d, positions)) &&
             forall m, n :: m in net.nodes && n in net.nodes && m != n ==> positions[m] != positions[n]
    ensures LaidOut(g, positions)
  {
    var net := NetOf(g.nodes, g.edges);
    forall e | e in g.edges
      ensures (e.source, e.target) in net.edges
    {
      var k :| 0 <= k < |g.edges| && g.edges[k] == e;
      assert net.edges[k] == (e.source, e.target);
    }
    forall n | n in g.nodes
      ensures n.id in net.nodes
    {
      var k :| 0 <= k < |g.nodes| && g.nodes[k] == n;
      assert net.nodes[k] == n.id;
    }
  }
}
