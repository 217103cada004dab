/** The semantics builder as the source runs it: one object whose fields the walk over the statements updates. */
module SemanticsBuilding {
  import opened Prelude
  import opened Text
  import opened Pseudocode
  import opened FlowSemantics
  import opened Elaboration
  import opened Scoping
  import opened Compile

  /** The objects that a walk adds. */
  datatype Objects = Objects(steps: seq<Step>, bindings: seq<Binding>, terminals: seq<Terminal>)

  function Added(o: Objects, p: Producers, b: Block): Objects {
    Objects(o.steps + Steps(b), o.bindings + Bindings(p, b), o.terminals + Terminals(b))
  }

  class SemanticsBuilder {
    var steps: seq<Step>
    var producers: Producers
    var definite: set<string>
    var inputs: seq<string>
    var terminals: seq<Terminal>
    var bindings: seq<Binding>
    var warnings: seq<Warning>
    var everAssigned: set<string>
    var warned: set<string>
    var idCount: map<string, nat>
    var branchCount: nat
    var termCount: nat
    var bindingCount: nat
    const terminalFunctions: set<string>
    const inputTypes: map<string, string>

    constructor (terminalFunctions: set<string>, inputTypes: map<string, string>)
      ensures Here() == EmptyScope([]) && Counts() == ZERO && Made() == Objects([], [], [])
      ensures this.terminalFunctions == terminalFunctions && this.inputTypes == inputTypes
    {
      steps, producers, definite, inputs, terminals, bindings := [], map[], {}, [], [], [];
      warnings, everAssigned, warned := [], {}, {};
      idCount, branchCount, termCount, bindingCount := map[], 0, 0, 0;
      this.terminalFunctions, this.inputTypes := terminalFunctions, inputTypes;
    }

    function Here(): Scope
      reads this
    {
      Scope(definite, producers, inputs, everAssigned, warned, warnings)
    }

    function Counts(): Counters
      reads this
    {
      Counters(idCount, branchCount, termCount, bindingCount)
    }

    function Made(): Objects
      reads this
    {
      Objects(steps, bindings, terminals)
    }

    // ----- Variable references -----

    method RegisterRefs(names: seq<string>)
      modifies `inputs, `warned, `warnings
      ensures Here() == Scoping.RegisterRefs(old(Here()), names)
    {
      var i := 0;
      while i < |names|
        invariant 0 <= i <= |names|
        invariant Scoping.RegisterRefs(Here(), names[i..]) == Scoping.RegisterRefs(old(Here()), names)
      {
        var name := names[i];
        if name !in definite {
          if name in producers || name in everAssigned {
            if name !in warned {
              warnings := warnings + [PossiblyUndefined(name)];
              warned := warned + {name};
            }
          } else if name !in inputs {
            inputs := inputs + [name];
          }
        }
        i := i + 1;
      }
    }

    method RegisterValues(values: seq<Value>)
      modifies `inputs, `warned, `warnings
      ensures Here() == Scoping.RegisterRefs(old(Here()), ValueRefs(values))
    {
      var i := 0;
      assert values[0..] == values;
      while i < |values|
        invariant 0 <= i <= |values|
        invariant Scoping.RegisterRefs(Here(), ValueRefs(values[i..])) == Scoping.RegisterRefs(old(Here()), ValueRefs(values))
      {
        assert values[i..][1..] == values[i + 1..];
        RegisterAppend(Here(), Refs(values[i]), ValueRefs(values[i + 1..]));
        RegisterRefs(Refs(values[i]));
        i := i + 1;
      }
    }

    method RegisterCondition(c: Condition)
      modifies `inputs, `warned, `warnings
      ensures Here() == RegisterCond(old(Here()), c)
    {
      RegisterRefs(CondRefs(c));
      if c.Parsed? {
        ghost var s1 := Here();
        var i := 0;
        while i < |c.comparisons|
          invariant 0 <= i <= |c.comparisons|
          invariant RegisterComparisons(Here(), c.comparisons[i..]) == RegisterComparisons(s1, c.comparisons)
        {
          RegisterRefs(OptRefs(c.comparisons[i].value));
          i := i + 1;
        }
      }
    }

    method ValidateAssignmentTarget(target: string) returns (r: Result<(), ScopeError>)
      ensures match CheckTarget(Here(), target)
              case Ok(_) => r == Ok(())
              case Err(e) => r == Err(e)
    {
      if target in definite {
        return Err(Reassigned(target));
      }
      if target in inputs {
        return Err(OverwritesInput(target));
      }
      return Ok(());
    }

    method WarnRawValues(values: seq<Value>)
      modifies `warnings
      ensures Here() == WarnRaw(old(Here()), values)
    {
      var i := 0;
      while i < |values|
        invariant 0 <= i <= |values|
        invariant WarnRaw(Here(), values[i..]) == WarnRaw(old(Here()), values)
      {
        if values[i].Raw? {
          warnings := warnings + [Unstructured];
        }
        i := i + 1;
      }
    }

    method NewId(func: string) returns (id: Id)
      modifies `idCount
      ensures id == CallId(old(Counts()), func) && Counts() == CountCall(old(Counts()), func)
    {
      var base := Lower(func);
      idCount := idCount[base := GetOr(idCount, base, 0) + 1];
      var n := idCount[base];
      id := if n == 1 then base else base + "_" + Dec(n);
    }

    // ----- Statements -----

    method AddTerminal(output: Output, step: Option<Id>) returns (id: Id)
      modifies `inputs, `warned, `warnings, `termCount, `terminals
      ensures id == TermId(old(Counts())) && Counts() == CountTerm(old(Counts()))
      ensures Here() == Scoping.RegisterRefs(old(Here()), OptRefs(output.value))
      ensures terminals == old(terminals) + [Terminal(id, output, step)]
    {
      if output.value.Some? {
        RegisterRefs(Refs(output.value.value));
      }
      termCount := termCount + 1;
      id := Numbered("terminal", termCount);
      terminals := terminals + [Terminal(id, output, step)];
    }

    method AddCall(call: CallInfo) returns (r: Result<Id, ScopeError>)
      modifies `inputs, `warned, `warnings, `idCount, `steps, `producers, `definite, `everAssigned
      ensures var a := AnalyzeCall(old(Here()), CallId(old(Counts()), call.func), call);
              if a.Ok? then r == Ok(CallId(old(Counts()), call.func)) && Here() == a.value else r == Err(a.error)
      ensures r.Ok? ==> Counts() == CountCall(old(Counts()), call.func)
      ensures r.Ok? ==> steps == old(steps) + [CallStep(r.value, call)]
    {
      RegisterValues(CallValues(call));
      WarnRawKeeps(Here(), CallValues(call));
      hide Scoping.RegisterRefs, WarnRaw, CallId, CountCall, CallRefs, CallValues;
      if call.target.Some? {
        var ok := ValidateAssignmentTarget(call.target.value);
        if ok.Err? {
          return Err(ok.error);
        }
      }
      WarnRawValues(CallValues(call));
      var id := NewId(call.func);
      steps := steps + [CallStep(id, call)];
      if call.target.Some? {
        Define(call.target.value, [id]);
      }
      return Ok(id);
    }

    /** The variable now has these producers, on every path to here. */
    method Define(target: string, ids: seq<Id>)
      modifies `producers, `definite, `everAssigned
      ensures Here() == Assign(old(Here()), target, ids)
    {
      producers := producers[target := ids];
      definite := definite + {target};
      everAssigned := everAssigned + {target};
    }

    method PlainAssign(target: string, value: Value) returns (r: Result<Id, ScopeError>)
      modifies `inputs, `warned, `warnings, `bindingCount, `bindings, `producers, `definite, `everAssigned
      ensures var a := AnalyzeBind(old(Here()), target, value);
              if a.Ok? then r == Ok(BindId(old(Counts()))) && Here() == a.value else r == Err(a.error)
      ensures r.Ok? ==> Counts() == old(Counts()).(bindings := old(Counts()).bindings + 1)
      ensures r.Ok? ==> bindings == old(bindings) + [Binding(r.value, target, value, Sources(old(producers), Refs(value)))]
    {
      ghost var s0 := Here();
      RegisterRefs(Refs(value));
      var ok := ValidateAssignmentTarget(target);
      if ok.Err? {
        return Err(ok.error);
      }
      RegisterKeeps(s0, Refs(value));
      WarnRawKeeps(Here(), [value]);
      WarnRawValues([value]);
      hide Scoping.RegisterRefs, WarnRaw, Sources, Inherited;
      var id := NewBinding(target, value);
      var inherited := InheritProducers(Refs(value));
      Define(target, inherited);
      return Ok(id);
    }

    method NewBinding(target: string, value: Value) returns (id: Id)
      modifies `bindingCount, `bindings
      ensures id == BindId(old(Counts())) && Counts() == old(Counts()).(bindings := old(Counts()).bindings + 1)
      ensures bindings == old(bindings) + [Binding(id, target, value, Sources(producers, Refs(value)))]
    {
      bindingCount := bindingCount + 1;
      id := Numbered("binding", bindingCount);
      bindings := bindings + [Binding(id, target, value, Sources(producers, Refs(value)))];
    }

    method InheritProducers(names: seq<string>) returns (acc: seq<Id>)
      ensures acc == Inherited(producers, names, [])
    {
      acc := [];
      var i := 0;
      while i < |names|
        invariant 0 <= i <= |names|
        invariant Inherited(producers, names[i..], acc) == Inherited(producers, names, [])
      {
        acc := ExtendUnique(acc, GetOr(producers, names[i], []));
        i := i + 1;
      }
    }

    // ----- Sequences and branches -----

    method Walk(body: Stmts, tail: bool) returns (r: Result<seq<Id>, ScopeError>)
      modifies this
      ensures var t := Elab(old(Counts()), body, tail, terminalFunctions);
              var a := Analyze(old(Here()), t.1, tail);
              if a.Ok? then
                r == Ok(BodyIds(t.1)) && Here() == a.value && Counts() == t.0 && Made() == Added(old(Made()), old(producers), t.1)
              else r == Err(a.error)
      decreases body, 0
    {
      var ids: seq<Id> := [];
      var rest := body;
      ghost var start, done := Now(Counts(), Here(), Made()), BNil;
      StartProgress(start, body, tail, terminalFunctions);
      while rest.SCons?
        invariant rest == body || rest < body
        invariant Progress(start, body, tail, terminalFunctions, done, Now(Counts(), Here(), Made()), rest)
        invariant ids == BodyIds(done)
        decreases rest
      {
        var stmt, last := rest.head, tail && rest.tail.SNil?;
        Advance(start, body, tail, terminalFunctions, done, Now(Counts(), Here(), Made()), rest);
        ghost var block := ElabStmt(Counts(), stmt, last, terminalFunctions).block;
        var one := WalkStmt(stmt, last);
        if one.Err? {
          return Err(one.error);
        }
        AppendBodyIds(done, block);
        ids := ids + one.value;
        done := Append(done, block);
        if Ends(stmt, terminalFunctions) {
          assert Progress(start, body, tail, terminalFunctions, done, Now(Counts(), Here(), Made()), SNil);
          break;
        }
        rest := rest.tail;
      }
      assert Progress(start, body, tail, terminalFunctions, done, Now(Counts(), Here(), Made()), SNil);
      AppendNil(done);
      return Ok(ids);
    }

    method WalkStmt(stmt: Stmt, last: bool) returns (r: Result<seq<Id>, ScopeError>)
      modifies this
      ensures var piece := ElabStmt(old(Counts()), stmt, last, terminalFunctions);
              var a := Analyze(old(Here()), piece.block, last);
              if a.Ok? then
                r == Ok(BodyIds(piece.block)) && Here() == a.value && Counts() == piece.next &&
                Made() == Added(old(Made()), old(producers), piece.block)
              else r == Err(a.error)
      decreases stmt
    {
      ghost var n := ElabStmt(Counts(), stmt, last, terminalFunctions).block.head;
      OneBlock(Here(), n, last);
      OneAdded(Made(), producers, n);
      match stmt
      case CallStmt(call) =>
        if IsTerminalCall(call, terminalFunctions) {
          r := WalkReply(call);
        } else {
          r := WalkCall(call, last);
        }
      case AssignStmt(target, value) => r := WalkAssign(target, value, last);
      case IfStmt(arms) =>
        var id := AddBranch(arms, last);
        if id.Err? {
          return Err(id.error);
        }
        return Ok([id.value]);
      case ReturnStmt(value) => r := WalkReturn(value);
    }

    method WalkCall(call: CallInfo, last: bool) returns (r: Result<seq<Id>, ScopeError>)
      requires !IsTerminalCall(call, terminalFunctions)
      modifies this
      ensures var piece := ElabStmt(old(Counts()), CallStmt(call), last, terminalFunctions);
              var a := Analyze(old(Here()), piece.block, last);
              if a.Ok? then
                r == Ok(BodyIds(piece.block)) && Here() == a.value && Counts() == piece.next &&
                Made() == Added(old(Made()), old(producers), piece.block)
              else r == Err(a.error)
    {
      ghost var c0, o0, p0 := Counts(), Made(), producers;
      ghost var block := ElabStmt(c0, CallStmt(call), last, terminalFunctions).block;
      ghost var n := block.head;
      if last {
        TwoBlock(Here(), n, block.tail.head, last);
      } else {
        OneBlock(Here(), n, last);
      }
      var id := AddCall(call);
      if id.Err? {
        return Err(id.error);
      }
      OneAdded(o0, p0, n);
      if !last {
        return Ok([id.value]);
      }
      var output := if call.target.Some? then Output(LastAssign, call.target, Some(Var(call.target.value))) else Output(LastCall, None, None);
      var term := AddTerminal(output, if call.target.Some? then None else Some(id.value));
      TwoAdded(o0, p0, n, block.tail.head);
      return Ok([id.value, term]);
    }

    method WalkAssign(target: string, value: Value, last: bool) returns (r: Result<seq<Id>, ScopeError>)
      modifies this
      ensures var piece := ElabStmt(old(Counts()), AssignStmt(target, value), last, terminalFunctions);
              var a := Analyze(old(Here()), piece.block, last);
              if a.Ok? then
                r == Ok(BodyIds(piece.block)) && Here() == a.value && Counts() == piece.next &&
                Made() == Added(old(Made()), old(producers), piece.block)
              else r == Err(a.error)
    {
      ghost var c0, o0, p0 := Counts(), Made(), producers;
      ghost var block := ElabStmt(c0, AssignStmt(target, value), last, terminalFunctions).block;
      ghost var n := block.head;
      if last {
        r := WalkLastAssign(target, value);
      } else {
        OneBlock(Here(), n, last);
        hide AnalyzeBind, Added, Analyze;
        var id := PlainAssign(target, value);
        if id.Err? {
          return Err(id.error);
        }
        OneAdded(o0, p0, n);
        return Ok([id.value]);
      }
    }

    /** The assignment that ends the program, and the terminal that puts its value out. */
    method WalkLastAssign(target: string, value: Value) returns (r: Result<seq<Id>, ScopeError>)
      modifies this
      ensures var piece := ElabStmt(old(Counts()), AssignStmt(target, value), true, terminalFunctions);
              var a := Analyze(old(Here()), piece.block, true);
              if a.Ok? then
                r == Ok(BodyIds(piece.block)) && Here() == a.value && Counts() == piece.next &&
                Made() == Added(old(Made()), old(producers), piece.block)
              else r == Err(a.error)
    {
      ghost var c0, o0, p0 := Counts(), Made(), producers;
      ghost var block := ElabStmt(c0, AssignStmt(target, value), true, terminalFunctions).block;
      ghost var n := block.head;
      TwoBlock(Here(), n, block.tail.head, true);
      OneAdded(o0, p0, n);
      TwoAdded(o0, p0, n, block.tail.head);
      hide AnalyzeBind, Added, BodyIds, Analyze, Scoping.RegisterRefs, Refs, Sources;
      var id := PlainAssign(target, value);
      if id.Err? {
        return Err(id.error);
      }
      var term := AddTerminal(Output(LastAssign, Some(target), Some(value)), None);
      return Ok([id.value, term]);
    }

    method WalkReply(call: CallInfo) returns (r: Result<seq<Id>, ScopeError>)
      modifies `inputs, `warned, `warnings, `termCount, `terminals
      ensures var n := TermNode(old(Counts()), Output(Reply, None, FirstValue(call)), None, CallRefs(call));
              r == Ok([n.id]) && Counts() == CountTerm(old(Counts())) &&
              Here() == Scoping.RegisterRefs(old(Here()), n.names) && terminals == old(terminals) + NodeTerminals(n)
    {
      RegisterValues(CallValues(call));
      FirstValueRefs(call);
      RegisterTwice(old(Here()), CallRefs(call), OptRefs(FirstValue(call)));
      var id := AddTerminal(Output(Reply, None, FirstValue(call)), None);
      return Ok([id]);
    }

    method WalkReturn(value: Option<Value>) returns (r: Result<seq<Id>, ScopeError>)
      modifies `inputs, `warned, `warnings, `termCount, `terminals
      ensures var n := TermNode(old(Counts()), Output(Return, None, value), None, OptRefs(value));
              r == Ok([n.id]) && Counts() == CountTerm(old(Counts())) &&
              Here() == Scoping.RegisterRefs(old(Here()), n.names) && terminals == old(terminals) + NodeTerminals(n)
    {
      if value.Some? {
        RegisterRefs(Refs(value.value));
      }
      RegisterTwice(old(Here()), OptRefs(value), OptRefs(value));
      var id := AddTerminal(Output(Return, None, value), None);
      return Ok([id]);
    }

    method AddBranch(arms: Arms, last: bool) returns (r: Result<Id, ScopeError>)
      modifies this
      ensures var t := ElabArms(CountBranch(old(Counts())), arms, last, terminalFunctions);
              var n := BranchN(BranchId(old(Counts())), t.1);
              var a := AnalyzeNode(old(Here()), n, last);
              if a.Ok? then
                r == Ok(n.id) && Here() == a.value && Counts() == t.0 && Made() == Added(old(Made()), old(producers), BCons(n, BNil))
              else r == Err(a.error)
      decreases arms, 2
    {
      hide ElabArms, AnalyzeArms, AnalyzeNode, Added, FlatBranch;
      ghost var o0, c1, s0 := Made(), CountBranch(Counts()), Here();
      branchCount := branchCount + 1;
      var id := Numbered("branch", branchCount);
      steps := steps + [BranchStep(id, [], [])];  // the branch comes before the steps of its bodies
      ghost var job := ArmsJob(c1, s0, Snapshot(s0), arms, last, terminalFunctions);
      BranchAdded(job, o0, id);
      BranchNode(s0, id, JobNodes(job).1, last);
      var paths := WalkArms(id, arms, last);
      if paths.Err? {
        return Err(paths.error);
      }
      JoinPaths(paths.value);
      return Ok(id);
    }

    /** Assigned is what all arms assign; produced is what any arm produces. */
    method JoinPaths(paths: seq<Arm>)
      requires paths != []
      modifies `definite, `producers
      ensures Here() == Join(old(Here()), paths)
    {
      definite := IntersectAll(ArmSets(paths));
      producers := MergeProducers(ArmMaps(paths));
    }

    /** Each arm starts from the scope before the branch; its body goes into the branch step, which is the last one so far. */
    method WalkArms(id: Id, arms: Arms, last: bool) returns (r: Result<seq<Arm>, ScopeError>)
      requires steps != [] && steps[|steps| - 1] == BranchStep(id, [], [])
      modifies this
      ensures var job := ArmsJob(old(Counts()), old(Here()), Snapshot(old(Here())), arms, last, terminalFunctions);
              var f := JobNodes(job);
              var m := ArmsAdded(Objects([], [], []), job.start.producers, f.1);
              var a := AnalyzeArms(job.scope, job.start, f.1, last);
              if a.Ok? then
                r == Ok(a.value.1) && Here() == Restore(a.value.0, Snapshot(Here())) && Counts() == f.0 &&
                steps == old(steps[..|steps| - 1]) + [FlatBranch(id, f.1)] + m.steps &&
                bindings == old(bindings) + m.bindings && terminals == old(terminals) + m.terminals
              else r == Err(a.error)
      decreases arms, 1
    {
      hide ArmsProgress, Elab, Analyze, AnalyzeArms, ArmsAdded, FlatCases, ElabArms;
      var start := Snapshot(Here());
      ghost var o0 := Objects(steps[..|steps| - 1], bindings, terminals);
      ghost var job := ArmsJob(Counts(), Here(), start, arms, last, terminalFunctions);
      StartArms(job);
      var at := |steps| - 1;
      var some, rest, made := WalkCases(id, at, start, arms, last, job, o0);
      if some.Err? {
        return Err(some.error);
      }
      var (cases, paths) := some.value;
      FinishArms(job, ArmsNow(Counts(), Here(), cases, paths, made), rest);
      var elseArm := WalkElse(id, at, start, rest.orelse, last, cases, o0, made);
      if elseArm.Err? {
        return Err(elseArm.error);
      }
      return Ok(paths + [elseArm.value]);
    }

    method WalkElse(id: Id, at: nat, start: Arm, orelse: Stmts, last: bool, cases: seq<FlatCase>, ghost o0: Objects, ghost made: Objects)
      returns (r: Result<Arm, ScopeError>)
      requires steps == o0.steps + [BranchStep(id, cases, [])] + made.steps && at == |o0.steps|
      modifies this
      ensures var t := Elab(old(Counts()), orelse, last, terminalFunctions);
              var a := Analyze(Restore(old(Here()), start), t.1, last);
              if a.Ok? then
                r == Ok(Snapshot(a.value)) && Counts() == t.0 &&
                Here() == (if last && orelse.SNil? then a.value.(warnings := a.value.warnings + [NoElseAtTail]) else a.value) &&
                steps == o0.steps + [BranchStep(id, cases, BodyIds(t.1))] + (made.steps + Steps(t.1)) &&
                bindings == old(bindings) + Bindings(start.producers, t.1) && terminals == old(terminals) + Terminals(t.1)
              else r == Err(a.error)
      decreases orelse, 2
    {
      hide Elab, Analyze, Steps, Bindings, Terminals, BodyIds;
      ghost var block := Elab(Counts(), orelse, last, terminalFunctions).1;
      var elseBody := WalkArm(start, None, orelse, last);
      if elseBody.Err? {
        return Err(elseBody.error);
      }
      FinishBranch(at, BranchStep(id, cases, []), BranchStep(id, cases, elseBody.value), o0.steps, made.steps, Steps(block));
      r := Ok(Snapshot(Here()));
      if last && orelse.SNil? {
        warnings := warnings + [NoElseAtTail];
      }
    }

    /** Replaces the branch step, which stands at `at`, by a more complete one. */
    method FinishBranch(at: nat, ghost old0: Step, new0: Step, ghost before: seq<Step>, ghost made: seq<Step>, ghost more: seq<Step>)
      requires at == |before| && steps == before + [old0] + made + more
      modifies `steps
      ensures steps == before + [new0] + (made + more)
    {
      Assoc(before + [old0], made, more);
      ReplaceAt(before, old0, made + more, new0);
      steps := steps[at := new0];
    }

    method WalkCases(id: Id, at: nat, start: Arm, arms: Arms, last: bool, ghost job: ArmsJob, ghost o0: Objects)
      returns (r: Result<(seq<FlatCase>, seq<Arm>), ScopeError>, rest: Arms, ghost made: Objects)
      requires steps == o0.steps + [BranchStep(id, [], [])] && bindings == o0.bindings && terminals == o0.terminals
      requires at == |o0.steps| && job.start == start && job.last == last && job.terminals == terminalFunctions
      requires ArmsProgress(job, ArmsNow(Counts(), Here(), [], [], Objects([], [], [])), arms)
      modifies this
      ensures r.Ok? ==>
                ArmsProgress(job, ArmsNow(Counts(), Here(), r.value.0, r.value.1, made), rest) && rest.Else? &&
                (rest == arms || rest < arms)
      ensures r.Ok? ==> steps == o0.steps + [BranchStep(id, r.value.0, [])] + made.steps
      ensures r.Ok? ==> bindings == o0.bindings + made.bindings && terminals == o0.terminals + made.terminals
      ensures r.Err? ==> AnalyzeArms(job.scope, job.start, JobNodes(job).1, job.last) == Err(r.error)
      decreases arms, 0
    {
      hide ArmsProgress, Elab, Analyze, AnalyzeArms;
      made := Objects([], [], []);
      var paths: seq<Arm> := [];
      var cases: seq<FlatCase> := [];
      rest := arms;
      while rest.Case?
        invariant rest == arms || rest < arms
        invariant ArmsProgress(job, ArmsNow(Counts(), Here(), cases, paths, made), rest)
        invariant steps == o0.steps + [BranchStep(id, cases, [])] + made.steps
        invariant bindings == o0.bindings + made.bindings && terminals == o0.terminals + made.terminals
        decreases rest
      {
        AdvanceArms(job, ArmsNow(Counts(), Here(), cases, paths, made), rest);
        ghost var block := Elab(Counts(), rest.body, last, terminalFunctions).1;
        var body := WalkArm(start, Some(rest.cond), rest.body, last);
        if body.Err? {
          return Err(body.error), rest, made;
        }
        paths := paths + [Snapshot(Here())];
        var more := cases + [FlatCase(CaseId(|cases|), rest.cond, body.value)];
        FinishBranch(at, BranchStep(id, cases, []), BranchStep(id, more, []), o0.steps, made.steps, Steps(block));
        cases := more;
        made := Added(made, start.producers, block);
        rest := rest.rest;
      }
      return Ok((cases, paths)), rest, made;
    }

    /** One arm: from the scope at the branch, the condition if it has one, then the body. */
    method WalkArm(start: Arm, cond: Option<Condition>, body: Stmts, last: bool) returns (r: Result<seq<Id>, ScopeError>)
      modifies this
      ensures var s := Restore(old(Here()), start);
              var t := Elab(old(Counts()), body, last, terminalFunctions);
              var a := Analyze(if cond.Some? then RegisterCond(s, cond.value) else s, t.1, last);
              if a.Ok? then
                r == Ok(BodyIds(t.1)) && Here() == a.value && Counts() == t.0 && Made() == Added(old(Made()), start.producers, t.1)
              else r == Err(a.error)
      decreases body, 1
    {
      definite, producers := start.definite, start.producers;
      if cond.Some? {
        RegisterCondKeeps(Here(), cond.value);
        RegisterCondition(cond.value);
      }
      r := Walk(body, last);
    }

    // ----- The whole program -----

    /** A builder is used once. */
    method Build(body: Stmts, parsed: seq<Warning>) returns (r: Result<Flow, ScopeError>)
      requires Here() == EmptyScope([]) && Counts() == ZERO && Made() == Objects([], [], [])
      modifies this
      ensures r == Compiled(body, parsed, terminalFunctions, inputTypes)
    {
      warnings := warnings + parsed;
      assert Here() == EmptyScope(parsed);
      if body.SNil? {
        return Err(EmptyProgram);
      }
      var root := Walk(body, true);
      if root.Err? {
        return Err(root.error);
      }
      ghost var tree := TreeOf(body, terminalFunctions);
      assert steps == Steps(tree) && bindings == Bindings(map[], tree) && terminals == Terminals(tree);
      if terminals == [] {
        warnings := warnings + [NoOutput];
      }
      return Ok(Flow(root.value, TypedInputs(inputTypes, inputs), steps, bindings, terminals, producers, warnings));
    }
  }

  // ----- The loop over the arms of a branch -----

  datatype ArmsJob = ArmsJob(counts: Counters, scope: Scope, start: Arm, arms: Arms, last: bool, terminals: set<string>)

  datatype ArmsNow = ArmsNow(counts: Counters, scope: Scope, cases: seq<FlatCase>, paths: seq<Arm>, made: Objects)

  function ArmsAdded(o: Objects, p: Producers, arms: NodeArms): Objects {
    Objects(o.steps + ArmSteps(arms), o.bindings + ArmBindings(p, arms), o.terminals + ArmTerminals(arms))
  }

  function Prepend(paths: seq<Arm>, r: Result<(Scope, seq<Arm>), ScopeError>): Result<(Scope, seq<Arm>), ScopeError> {
    if r.Ok? then Ok((r.value.0, paths + r.value.1)) else r
  }

  function JobNodes(job: ArmsJob): (Counters, NodeArms) {
    ElabArms(job.counts, job.arms, job.last, job.terminals)
  }

  ghost predicate ArmsProgress(job: ArmsJob, now: ArmsNow, rest: Arms) {
    var f := JobNodes(job);
    var t := ElabArms(now.counts, rest, job.last, job.terminals);
    f.0 == t.0 && ElseBlock(f.1) == ElseBlock(t.1) &&
    FlatCases(f.1, 0) == now.cases + FlatCases(t.1, |now.cases|) &&
    ArmsAdded(Objects([], [], []), job.start.producers, f.1) == ArmsAdded(now.made, job.start.producers, t.1) &&
    AnalyzeArms(job.scope, job.start, f.1, job.last) == Prepend(now.paths, AnalyzeArms(now.scope, job.start, t.1, job.last))
  }

  lemma ReplaceAt<T>(before: seq<T>, x: T, after: seq<T>, y: T)
    ensures (before + [x] + after)[|before| := y] == before + [y] + after
  {
  }

  lemma BranchNode(s: Scope, id: Id, f: NodeArms, last: bool)
    ensures AnalyzeNode(s, BranchN(id, f), last) ==
            (var r := AnalyzeArms(s, Snapshot(s), f, last); if r.Ok? then Ok(Join(r.value.0, r.value.1)) else Err(r.error))
  {
  }

  lemma StartArms(job: ArmsJob)
    ensures ArmsProgress(job, ArmsNow(job.counts, job.scope, [], [], Objects([], [], [])), job.arms)
  {
    var f := JobNodes(job);
    var a := AnalyzeArms(job.scope, job.start, f.1, job.last);
    assert [] + FlatCases(f.1, 0) == FlatCases(f.1, 0);
    if a.Ok? {
      assert [] + a.value.1 == a.value.1;
    }
  }

  lemma AdvanceArms(job: ArmsJob, now: ArmsNow, rest: Arms)
    requires rest.Case? && ArmsProgress(job, now, rest)
    ensures var t := Elab(now.counts, rest.body, job.last, job.terminals);
            var a := Analyze(RegisterCond(Restore(now.scope, job.start), rest.cond), t.1, job.last);
            if a.Err? then AnalyzeArms(job.scope, job.start, JobNodes(job).1, job.last) == Err(a.error)
            else ArmsProgress(job,
                   ArmsNow(t.0, a.value, now.cases + [FlatCase(CaseId(|now.cases|), rest.cond, BodyIds(t.1))],
                           now.paths + [Snapshot(a.value)], Added(now.made, job.start.producers, t.1)), rest.rest)
  {
    var t := Elab(now.counts, rest.body, job.last, job.terminals);
    var a := Analyze(RegisterCond(Restore(now.scope, job.start), rest.cond), t.1, job.last);
    var u := ElabArms(t.0, rest.rest, job.last, job.terminals);
    Assoc(now.cases, [FlatCase(CaseId(|now.cases|), rest.cond, BodyIds(t.1))], FlatCases(u.1, |now.cases| + 1));
    Assoc(now.made.steps, Steps(t.1), ArmSteps(u.1));
    Assoc(now.made.bindings, Bindings(job.start.producers, t.1), ArmBindings(job.start.producers, u.1));
    Assoc(now.made.terminals, Terminals(t.1), ArmTerminals(u.1));
    if a.Ok? {
      var r := AnalyzeArms(a.value, job.start, u.1, job.last);
      if r.Ok? {
        Assoc(now.paths, [Snapshot(a.value)], r.value.1);
      }
    }
  }

  lemma FinishArms(job: ArmsJob, now: ArmsNow, rest: Arms)
    requires rest.Else? && ArmsProgress(job, now, rest)
    ensures var t := Elab(now.counts, rest.orelse, job.last, job.terminals);
            var a := Analyze(Restore(now.scope, job.start), t.1, job.last);
            var f := JobNodes(job);
            f.0 == t.0 && ElseBlock(f.1) == t.1 && FlatCases(f.1, 0) == now.cases &&
            ArmsAdded(Objects([], [], []), job.start.producers, f.1) == Added(now.made, job.start.producers, t.1) &&
            (t.1.BNil? <==> rest.orelse.SNil?) &&
            AnalyzeArms(job.scope, job.start, f.1, job.last) ==
              if a.Err? then Err(a.error)
              else Ok((if job.last && t.1.BNil? then a.value.(warnings := a.value.warnings + [NoElseAtTail]) else a.value,
                       now.paths + [Snapshot(a.value)]))
  {
    ElabNonempty(now.counts, rest.orelse, job.last, job.terminals);
  }

  lemma BranchAdded(job: ArmsJob, o: Objects, id: Id)
    ensures var f := JobNodes(job).1;
            var m := ArmsAdded(Objects([], [], []), job.start.producers, f);
            Added(o, job.start.producers, BCons(BranchN(id, f), BNil)) ==
              Objects(o.steps + [FlatBranch(id, f)] + m.steps, o.bindings + m.bindings, o.terminals + m.terminals)
  {
    var f := JobNodes(job).1;
    OneAdded(o, job.start.producers, BranchN(id, f));
    Assoc(o.steps, [FlatBranch(id, f)], ArmSteps(f));
    assert [] + ArmSteps(f) == ArmSteps(f);
    assert [] + ArmBindings(job.start.producers, f) == ArmBindings(job.start.producers, f);
    assert [] + ArmTerminals(f) == ArmTerminals(f);
  }

  // ----- The loop over a statement list -----

  datatype Now = Now(counts: Counters, scope: Scope, made: Objects)

  /** After `reply(...)` and `return` the rest of the list is unreachable. */
  predicate Ends(s: Stmt, terminals: set<string>) {
    s.ReturnStmt? || (s.CallStmt? && IsTerminalCall(s.call, terminals))
  }

  /** `done` has been walked, and what is left to do yields the rest of the result. */
  ghost predicate Progress(start: Now, p: Stmts, tail: bool, terminals: set<string>, done: Block, now: Now, rest: Stmts) {
    var t0, t := Elab(start.counts, p, tail, terminals), Elab(now.counts, rest, tail, terminals);
    t0 == (t.0, Append(done, t.1)) &&
    Analyze(start.scope, t0.1, tail) == Analyze(now.scope, t.1, tail) &&
    now.scope.producers == After(start.scope.producers, done) &&
    now.made == Added(start.made, start.scope.producers, done)
  }

  lemma StartProgress(start: Now, p: Stmts, tail: bool, terminals: set<string>)
    ensures Progress(start, p, tail, terminals, BNil, start, p)
  {
    var o, q := start.made, start.scope.producers;
    assert o.steps + [] == o.steps && o.bindings + [] == o.bindings && o.terminals + [] == o.terminals;
  }

  lemma Advance(start: Now, p: Stmts, tail: bool, terminals: set<string>, done: Block, now: Now, rest: Stmts)
    requires rest.SCons? && Progress(start, p, tail, terminals, done, now, rest)
    ensures var last := tail && rest.tail.SNil?;
            var piece := ElabStmt(now.counts, rest.head, last, terminals);
            var a := Analyze(now.scope, piece.block, last);
            if a.Err? then Analyze(start.scope, Elab(start.counts, p, tail, terminals).1, tail) == a
            else Progress(start, p, tail, terminals, Append(done, piece.block),
                          Now(piece.next, a.value, Added(now.made, now.scope.producers, piece.block)),
                          if Ends(rest.head, terminals) then SNil else rest.tail)
  {
    var last := tail && rest.tail.SNil?;
    var piece := ElabStmt(now.counts, rest.head, last, terminals);
    WalkOneStep(now.counts, now.scope, rest, tail, terminals);
    EndsPiece(now.counts, rest.head, last, terminals);
    var t1 := if piece.ends then (piece.next, BNil) else Elab(piece.next, rest.tail, tail, terminals);
    AppendAssoc(done, piece.block, t1.1);
    AppendNil(Append(done, piece.block));
    var a := Analyze(now.scope, piece.block, last);
    if a.Ok? {
      AnalyzeProducers(now.scope, piece.block, last);
      AfterAppend(start.scope.producers, done, piece.block);
      MoreAdded(start.made, start.scope.producers, done, piece.block);
    }
  }

  lemma EndsPiece(c: Counters, s: Stmt, last: bool, terminals: set<string>)
    ensures ElabStmt(c, s, last, terminals).ends == Ends(s, terminals)
  {
  }

  /** What the first statement of a list contributes to the walk of the list. */
  lemma WalkOneStep(c: Counters, s: Scope, p: Stmts, tail: bool, terminals: set<string>)
    requires p.SCons?
    ensures var last := tail && p.tail.SNil?;
            var piece := ElabStmt(c, p.head, last, terminals);
            var t1 := if piece.ends then (piece.next, BNil) else Elab(piece.next, p.tail, tail, terminals);
            var a := Analyze(s, piece.block, last);
            Elab(c, p, tail, terminals) == (t1.0, Append(piece.block, t1.1)) &&
            Analyze(s, Append(piece.block, t1.1), tail) == (if a.Ok? then Analyze(a.value, t1.1, tail) else a)
  {
    var last := tail && p.tail.SNil?;
    var piece := ElabStmt(c, p.head, last, terminals);
    AppendNil(piece.block);
    if piece.ends {
      assert piece.block.head.TermN? && piece.block.tail.BNil?;
    } else {
      ElabNonempty(piece.next, p.tail, tail, terminals);
      var b := Elab(piece.next, p.tail, tail, terminals).1;
      if b.BCons? {
        AnalyzeAppend(s, piece.block, b, tail);
      }
    }
  }

  lemma MoreAdded(o: Objects, p: Producers, a: Block, b: Block)
    ensures Added(Added(o, p, a), After(p, a), b) == Added(o, p, Append(a, b))
  {
    AppendSteps(a, b);
    AppendTerminals(a, b);
    AfterAppend(p, a, b);
    Assoc(o.steps, Steps(a), Steps(b));
    Assoc(o.bindings, Bindings(p, a), Bindings(After(p, a), b));
    Assoc(o.terminals, Terminals(a), Terminals(b));
  }

  lemma {:induction false} AppendAssoc(a: Block, b: Block, c: Block)
    ensures Append(Append(a, b), c) == Append(a, Append(b, c))
  {
    if a.BCons? {
      AppendAssoc(a.tail, b, c);
    }
  }

  lemma {:induction false} RegisterAppend(s: Scope, a: seq<string>, b: seq<string>)
    ensures RegisterRefs(s, a + b) == RegisterRefs(RegisterRefs(s, a), b)
    decreases |a|
  {
    if a == [] {
      assert a + b == b;
    } else {
      assert (a + b)[1..] == a[1..] + b;
      RegisterAppend(RegisterRef(s, a[0]), a[1..], b);
    }
  }

  lemma OneAdded(o: Objects, p: Producers, n: Node)
    ensures Added(o, p, BCons(n, BNil)) ==
            Objects(o.steps + NodeSteps(n), o.bindings + NodeBindings(p, n), o.terminals + NodeTerminals(n))
  {
    var b := BCons(n, BNil);
    assert Steps(b) == NodeSteps(n) + Steps(BNil) == NodeSteps(n);
    assert Bindings(p, b) == NodeBindings(p, n) + Bindings(AfterNode(p, n), BNil) == NodeBindings(p, n);
    assert Terminals(b) == NodeTerminals(n) + Terminals(BNil) == NodeTerminals(n);
  }

  lemma OneBlock(s: Scope, n: Node, tail: bool)
    ensures BodyIds(BCons(n, BNil)) == [n.id]
    ensures Analyze(s, BCons(n, BNil), tail) == AnalyzeNode(s, n, tail)
  {
    assert BodyIds(BCons(n, BNil)) == [n.id] + BodyIds(BNil);
    assert Analyze(s, BCons(n, BNil), tail) ==
           (var a := AnalyzeNode(s, n, tail); if a.Ok? then Analyze(a.value, BNil, tail) else a);
  }

  lemma TwoBlock(s: Scope, n: Node, t: Node, tail: bool)
    requires t.TermN?
    ensures BodyIds(BCons(n, BCons(t, BNil))) == [n.id, t.id]
    ensures Analyze(s, BCons(n, BCons(t, BNil)), tail) ==
            (var a := AnalyzeNode(s, n, false); if a.Ok? then Ok(RegisterRefs(a.value, t.names)) else a)
  {
    assert BodyIds(BCons(n, BCons(t, BNil))) == [n.id] + BodyIds(BCons(t, BNil));
    var a := AnalyzeNode(s, n, false);
    if a.Ok? {
      OneBlock(a.value, t, tail);
    } else {
      OneBlock(s, t, tail);
    }
  }

  lemma TwoAdded(o: Objects, p: Producers, n: Node, t: Node)
    requires t.TermN?
    ensures Added(o, p, BCons(n, BCons(t, BNil))) ==
            Added(o, p, BCons(n, BNil)).(terminals := Added(o, p, BCons(n, BNil)).terminals + NodeTerminals(t))
  {
    OneAdded(o, p, n);
    OneAdded(Added(o, p, BCons(n, BNil)), After(p, BCons(n, BNil)), t);
    MoreAdded(o, p, BCons(n, BNil), BCons(t, BNil));
  }

  predicate Settled(s: Scope, name: string) {
    RegisterRef(s, name) == s
  }

  /** Registering names again changes nothing. */
  lemma {:induction false} RegisterAgain(s: Scope, names: seq<string>)
    requires forall n :: n in names ==> Settled(s, n)
    ensures RegisterRefs(s, names) == s
    decreases |names|
  {
    if names != [] {
      assert names[0] in names;
      RegisterAgain(s, names[1..]);
    }
  }

  lemma {:induction false} RegisterSettles(s: Scope, names: seq<string>, n: string)
    requires n in names || Settled(s, n)
    ensures Settled(RegisterRefs(s, names), n)
    decreases |names|
  {
    if names != [] {
      assert Settled(RegisterRef(s, names[0]), names[0]);
      assert names == [names[0]] + names[1..];
      RegisterSettles(RegisterRef(s, names[0]), names[1..], n);
    }
  }

  lemma FirstValueRefs(call: CallInfo)
    ensures forall n :: n in OptRefs(FirstValue(call)) ==> n in CallRefs(call)
  {
    var values := CallValues(call);
    if values != [] {
      assert ValueRefs(values) == Refs(values[0]) + ValueRefs(values[1..]);
    }
  }

  lemma RegisterTwice(s: Scope, names: seq<string>, again: seq<string>)
    requires forall n :: n in again ==> n in names
    ensures RegisterRefs(RegisterRefs(s, names), again) == RegisterRefs(s, names)
  {
    forall n | n in again
      ensures Settled(RegisterRefs(s, names), n)
    {
      RegisterSettles(s, names, n);
    }
    RegisterAgain(RegisterRefs(s, names), again);
  }

  /** `acc` extended by the ids of `more` that are not in it yet, one after the other. */
  method ExtendUnique(acc: seq<Id>, more: seq<Id>) returns (r: seq<Id>)
    ensures r == AddNew(acc, more)
  {
    r := acc;
    var i := 0;
    while i < |more|
      invariant 0 <= i <= |more|
      invariant AddNew(r, more[i..]) == AddNew(acc, more)
    {
      if more[i] !in r {
        r := r + [more[i]];
      }
      i := i + 1;
    }
  }

  /** The producers of the arms joined name by name, arm after arm. */
  method MergeProducers(paths: seq<Producers>) returns (merged: Producers)
    ensures merged == MergeAll(map[], paths)
  {
    merged := map[];
    var i := 0;
    while i < |paths|
      invariant 0 <= i <= |paths|
      invariant MergeAll(merged, paths[i..]) == MergeAll(map[], paths)
    {
      merged := MergeInto(merged, paths[i]);
      i := i + 1;
    }
  }

  /** The join of two maps with the names in `todo` still to be joined. */
  function Merging(acc: Producers, more: Producers, todo: set<string>): Producers {
    map name | name in acc.Keys + (more.Keys - todo) ::
      if name in todo && name in acc then acc[name] else AddNew(GetOr(acc, name, []), GetOr(more, name, []))
  }

  lemma MergingSteps(acc: Producers, more: Producers, todo: set<string>, name: string)
    requires name in todo && todo <= more.Keys
    ensures Merging(acc, more, todo - {name}) == Merging(acc, more, todo)[name := AddNew(GetOr(Merging(acc, more, todo), name, []), more[name])]
  {
  }

  lemma MergingEnds(acc: Producers, more: Producers)
    ensures Merging(acc, more, more.Keys) == acc && Merging(acc, more, {}) == Merge(acc, more)
  {
  }

  method MergeInto(acc: Producers, more: Producers) returns (merged: Producers)
    ensures merged == Merge(acc, more)
  {
    MergingEnds(acc, more);
    hide Merging, Merge;
    merged := acc;
    var todo := more.Keys;
    while todo != {}
      invariant todo <= more.Keys && merged == Merging(acc, more, todo)
      decreases todo
    {
      var name :| name in todo;
      MergingSteps(acc, more, todo, name);
      var ids := ExtendUnique(GetOr(merged, name, []), more[name]);
      merged := merged[name := ids];
      todo := todo - {name};
    }
  }
}
