/** Exactly when the first stage gives each of its fatal warnings, apart from those about undefined variables. */
module Warnings {
  import opened Prelude
  import opened Pseudocode
  import opened FlowSemantics
  import opened Scoping
  import opened WorkflowGraph
  import opened Refinement
  import opened ControlFlow
  import opened Correctness
  import opened ReachingProducers

  // ----- Values that could not be parsed -----

  predicate SomeRaw(values: seq<Value>) {
    exists v :: v in values && v.Raw?
  }

  predicate RawIn(b: Block)
    decreases b
  {
    match b
    case BNil => false
    case BCons(n, rest) => RawAt(n) || RawIn(rest)
  }

  predicate RawAt(n: Node)
    decreases n
  {
    match n
    case CallN(_, call) => SomeRaw(CallValues(call))
    case BindN(_, _, v) => v.Raw?
    case TermN(_, _, _, _) => false
    case BranchN(_, arms) => RawInArms(arms)
  }

  predicate RawInArms(arms: NodeArms)
    decreases arms
  {
    match arms
    case CaseN(_, body, rest) => RawIn(body) || RawInArms(rest)
    case ElseN(body) => RawIn(body)
  }

  /** Some plain assignment has such a value, or some call such an argument. */
  ghost predicate RawListed(steps: seq<Step>, bs: seq<Binding>) {
    (exists b :: b in bs && b.value.Raw?) || exists s :: s in steps && s.CallStep? && SomeRaw(CallValues(s.call))
  }

  lemma RawListedConcat(a: seq<Step>, b: seq<Step>, x: seq<Binding>, y: seq<Binding>)
    ensures RawListed(a + b, x + y) <==> RawListed(a, x) || RawListed(b, y)
  {
  }

  lemma {:induction false} RawIsListed(p: Producers, b: Block)
    ensures RawIn(b) <==> RawListed(Steps(b), Bindings(p, b))
    decreases b
  {
    hide RawListed;
    if b.BNil? {
      NothingRaw();
    } else {
      RawNodeIsListed(p, b.head);
      RawIsListed(AfterNode(p, b.head), b.tail);
      RawListedConcat(NodeSteps(b.head), Steps(b.tail), NodeBindings(p, b.head), Bindings(AfterNode(p, b.head), b.tail));
    }
  }

  lemma NothingRaw()
    ensures !RawListed([], [])
  {
  }

  lemma {:induction false} RawNodeIsListed(p: Producers, n: Node)
    ensures RawAt(n) <==> RawListed(NodeSteps(n), NodeBindings(p, n))
    decreases n
  {
    match n
    case CallN(id, call) => assert CallStep(id, call) in NodeSteps(n);
    case BindN(id, t, v) => assert Binding(id, t, v, Sources(p, Refs(v))) in NodeBindings(p, n);
    case TermN(_, _, _, _) =>
    case BranchN(id, arms) =>
      RawArmsAreListed(p, arms);
      BranchIsNotRaw(FlatBranch(id, arms));
      RawListedConcat([FlatBranch(id, arms)], ArmSteps(arms), [], ArmBindings(p, arms));
      assert [] + ArmBindings(p, arms) == ArmBindings(p, arms);
  }

  lemma BranchIsNotRaw(s: Step)
    requires s.BranchStep?
    ensures !RawListed([s], [])
  {
  }

  lemma {:induction false} RawArmsAreListed(p: Producers, arms: NodeArms)
    ensures RawInArms(arms) <==> RawListed(ArmSteps(arms), ArmBindings(p, arms))
    decreases arms
  {
    hide RawListed;
    match arms
    case CaseN(_, body, rest) =>
      RawIsListed(p, body);
      RawArmsAreListed(p, rest);
      RawListedConcat(Steps(body), ArmSteps(rest), Bindings(p, body), ArmBindings(p, rest));
    case ElseN(body) => RawIsListed(p, body);
  }

  // ----- The end of the program -----

  /** The last object is a branch with an empty else body, or some arm of it ends so. */
  predicate OpenTail(b: Block)
    decreases b
  {
    b.BCons? && if b.tail.BNil? then b.head.BranchN? && OpenArms(b.head.arms) else OpenTail(b.tail)
  }

  predicate OpenArms(arms: NodeArms)
    decreases arms
  {
    match arms
    case CaseN(_, body, rest) => OpenTail(body) || OpenArms(rest)
    case ElseN(body) => body.BNil? || OpenTail(body)
  }

  /** The static path `r` comes to the end of the block with a terminal. */
  ghost predicate Finishes(b: Block, r: Route)
    decreases b
  {
    b.BCons? && if b.tail.BNil? then FinishesNode(b.head, r) else Finishes(b.tail, if b.head.BranchN? then Next(r) else r)
  }

  ghost predicate FinishesNode(n: Node, r: Route)
    decreases n
  {
    n.TermN? || (n.BranchN? && FinishesArm(n.arms, ArmOf(r), Inside(r)))
  }

  ghost predicate FinishesArm(arms: NodeArms, arm: nat, r: Route)
    decreases arms
  {
    match arms
    case CaseN(_, body, rest) => if arm == 0 then Finishes(body, r) else FinishesArm(rest, arm - 1, r)
    case ElseN(body) => Finishes(body, r)
  }

  lemma {:induction false} ClosedFinishes(b: Block, r: Route)
    requires Closed(b)
    ensures Finishes(b, r)
    decreases b
  {
    if b.tail.BCons? {
      ClosedFinishes(b.tail, if b.head.BranchN? then Next(r) else r);
    } else if b.head.BranchN? {
      ClosedArmFinishes(b.head.arms, ArmOf(r), Inside(r));
      assert FinishesNode(b.head, r);
    }
  }

  lemma {:induction false} ClosedArmFinishes(arms: NodeArms, arm: nat, r: Route)
    requires ClosedArms(arms)
    ensures FinishesArm(arms, arm, r)
    decreases arms
  {
    match arms
    case CaseN(_, body, rest) =>
      if arm == 0 {
        ClosedFinishes(body, r);
      } else {
        ClosedArmFinishes(rest, arm - 1, r);
      }
    case ElseN(body) => ClosedFinishes(body, r);
  }

  lemma {:induction false} OpenHasPath(b: Block) returns (r: Route)
    requires !Closed(b)
    ensures !Finishes(b, r)
    decreases b
  {
    r := Straight;
    if b.BCons? {
      if b.tail.BCons? {
        r := OpenHasPath(b.tail);
        if b.head.BranchN? {
          r := Turn(0, Straight, r);
        }
      } else if b.head.BranchN? {
        var arm, inside := OpenArmHasPath(b.head.arms);
        r := Turn(arm, inside, Straight);
        assert !FinishesNode(b.head, r);
      }
    }
  }

  lemma {:induction false} OpenArmHasPath(arms: NodeArms) returns (arm: nat, r: Route)
    requires !ClosedArms(arms)
    ensures !FinishesArm(arms, arm, r)
    decreases arms
  {
    match arms
    case CaseN(_, body, rest) =>
      if Closed(body) {
        arm, r := OpenArmHasPath(rest);
        arm := arm + 1;
      } else {
        r := OpenHasPath(body);
        arm := 0;
      }
    case ElseN(body) =>
      r := OpenHasPath(body);
      arm := 0;
  }

  /** A block is closed when all static paths through it end in a terminal, and only then. */
  lemma ClosedExactly(b: Block)
    ensures Closed(b) <==> forall r :: Finishes(b, r)
  {
    if Closed(b) {
      forall r
        ensures Finishes(b, r)
      {
        ClosedFinishes(b, r);
      }
    } else {
      var r := OpenHasPath(b);
    }
  }

  // ----- What adds which warning -----

  /** But for undefined variables, the two scopes have given the same warnings. */
  ghost predicate SameKinds(s: Scope, t: Scope) {
    forall w: Warning :: !w.PossiblyUndefined? ==> (w in s.warnings <==> w in t.warnings)
  }

  lemma {:induction false} RegisterSameKinds(s: Scope, names: seq<string>)
    ensures SameKinds(s, RegisterRefs(s, names))
    decreases |names|
  {
    if names != [] {
      RegisterSameKinds(RegisterRef(s, names[0]), names[1..]);
    }
  }

  lemma {:induction false} ComparisonsSameKinds(s: Scope, cs: seq<Comparison>)
    ensures SameKinds(s, RegisterComparisons(s, cs))
    decreases |cs|
  {
    if cs != [] {
      RegisterSameKinds(s, OptRefs(cs[0].value));
      ComparisonsSameKinds(RegisterRefs(s, OptRefs(cs[0].value)), cs[1..]);
    }
  }

  lemma CondSameKinds(s: Scope, c: Condition)
    ensures SameKinds(s, RegisterCond(s, c))
  {
    RegisterSameKinds(s, CondRefs(c));
    if c.Parsed? {
      ComparisonsSameKinds(RegisterRefs(s, CondRefs(c)), c.comparisons);
    }
  }

  lemma {:induction false} WarnRawExactly(s: Scope, values: seq<Value>)
    ensures Unstructured in WarnRaw(s, values).warnings <==> Unstructured in s.warnings || SomeRaw(values)
    ensures forall w :: w != Unstructured ==> (w in WarnRaw(s, values).warnings <==> w in s.warnings)
    decreases |values|
  {
    if values != [] {
      assert values == [values[0]] + values[1..];
      WarnRawExactly(if values[0].Raw? then s.(warnings := s.warnings + [Unstructured]) else s, values[1..]);
    }
  }

  /** `t` has given the warnings of `s` and these. */
  ghost predicate Adds(s: Scope, t: Scope, raw: bool, open: bool) {
    (Unstructured in t.warnings <==> Unstructured in s.warnings || raw) &&
    (NoElseAtTail in t.warnings <==> NoElseAtTail in s.warnings || open) &&
    (NoOutput in t.warnings <==> NoOutput in s.warnings)
  }

  lemma {:induction false} BlockAdds(s: Scope, b: Block, tail: bool)
    requires Analyze(s, b, tail).Ok?
    ensures Adds(s, Analyze(s, b, tail).value, RawIn(b), tail && OpenTail(b))
    decreases b
  {
    if b.BCons? {
      NodeAdds(s, b.head, tail && b.tail.BNil?);
      BlockAdds(AnalyzeNode(s, b.head, tail && b.tail.BNil?).value, b.tail, tail);
    }
  }

  lemma {:induction false} NodeAdds(s: Scope, n: Node, last: bool)
    requires AnalyzeNode(s, n, last).Ok?
    ensures Adds(s, AnalyzeNode(s, n, last).value, RawAt(n), last && n.BranchN? && OpenArms(n.arms))
    decreases n
  {
    match n
    case CallN(_, call) =>
      RegisterSameKinds(s, CallRefs(call));
      WarnRawExactly(RegisterRefs(s, CallRefs(call)), CallValues(call));
    case BindN(_, _, v) =>
      RegisterSameKinds(s, Refs(v));
      WarnRawExactly(RegisterRefs(s, Refs(v)), [v]);
      assert SomeRaw([v]) <==> v.Raw? by {
        assert v in [v];
      }
    case TermN(_, _, _, names) => RegisterSameKinds(s, names);
    case BranchN(_, arms) => ArmsAdd(s, Snapshot(s), arms, last);
  }

  lemma {:induction false} ArmsAdd(s: Scope, start: Arm, arms: NodeArms, last: bool)
    requires AnalyzeArms(s, start, arms, last).Ok?
    ensures Adds(s, AnalyzeArms(s, start, arms, last).value.0, RawInArms(arms), last && OpenArms(arms))
    decreases arms
  {
    match arms
    case CaseN(cond, body, rest) =>
      var s0 := RegisterCond(Restore(s, start), cond);
      CondSameKinds(Restore(s, start), cond);
      BlockAdds(s0, body, last);
      ArmsAdd(Analyze(s0, body, last).value, start, rest, last);
    case ElseN(body) =>
      BlockAdds(Restore(s, start), body, last);
  }

  /**
   The warnings of a compiled program, exactly. "Cannot be structured" is given by the text parser, or when the value of
   some plain assignment or an argument of some call could not be parsed; "no else" when the last object is a branch
   without else, or an arm of it ends so; "no output" when there is no terminal.
   */
  lemma WarningsExactly(p: Program, flow: Flow)
    requires Semantics(p) == Ok(flow)
    ensures Unstructured in flow.warnings <==>
              Unstructured in p.parsed || (exists b :: b in flow.bindings && b.value.Raw?) ||
              exists s :: s in flow.steps && s.CallStep? && exists v :: v in CallValues(s.call) && v.Raw?
    ensures NoElseAtTail in flow.warnings <==> NoElseAtTail in p.parsed || OpenTail(Tree(p))
    ensures NoOutput in flow.warnings <==> NoOutput in p.parsed || flow.terminals == []
  {
    CompiledLists(p, flow);
    var s := Analyze(EmptyScope(p.parsed), Tree(p), true).value;
    assert flow.warnings == if flow.terminals == [] then s.warnings + [NoOutput] else s.warnings;
    hide Analyze, Semantics, Tree;
    BlockAdds(EmptyScope(p.parsed), Tree(p), true);
    RawIsListed(map[], Tree(p));
  }

  /** The graph builder accepts no flow with a value that could not be parsed. */
  lemma AcceptedIsStructured(p: Program, flow: Flow, graph: Graph)
    requires Pipeline(p) == Ok((flow, graph))
    ensures forall b :: b in flow.bindings ==> !b.value.Raw?
    ensures forall s, v :: s in flow.steps && s.CallStep? && v in CallValues(s.call) ==> !v.Raw?
    ensures flow.terminals != [] && !OpenTail(Tree(p))
  {
    var ctx, g, h := AcceptedFacts(p, flow, graph);
    assert flow.warnings == [];
    hide Ready, Loaded;
    AcceptedIsCompiled(p, flow, graph);
    WarningsExactly(p, flow);
  }

  lemma AcceptedIsCompiled(p: Program, flow: Flow, graph: Graph)
    requires Pipeline(p) == Ok((flow, graph))
    ensures Semantics(p) == Ok(flow)
  {
  }
}
