/** Accepted programs for which the side conditions of the data-flow theorems fail, and with them the conclusions. */
module Pitfalls {
  import opened Prelude
  import opened Text
  import opened Pseudocode
  import opened FlowSemantics
  import opened Elaboration
  import opened Identity
  import opened Scoping
  import opened Compile
  import opened WorkflowGraph
  import opened Lowering
  import opened Refinement
  import opened Correctness
  import opened UseSites
  import opened GraphSpec
  import OriginTracking
  import Redundancy
  import Endings
  import SourceMap
  import Decoding

  function Call(func: string, target: Option<string>, args: seq<Value>): Stmt {
    CallStmt(CallInfo(func, target, args, []))
  }

  lemma LowerIs(s: string, r: string)
    requires |s| == |r| && forall i :: 0 <= i < |s| ==> r[i] == LowerChar(s[i])
    ensures Lower(s) == r
  {
  }

  // ----- A name assigned in one arm and again after the branch -----

  const ASKED := Parsed(And, [Comparison("q", None, Truthy, None)])

  /** `if q: x = AGroup(); BGroup(x)`, then `x = CGroup()`. */
  const REASSIGNED := SCons(
    IfStmt(Case(ASKED, SCons(Call("AGroup", Some("x"), []), SCons(Call("BGroup", None, [Var("x")]), SNil)), Else(SNil))),
    SCons(Call("CGroup", Some("x"), []), SNil))

  const CALL_A := CallInfo("AGroup", Some("x"), [], [])
  const CALL_B := CallInfo("BGroup", None, [Var("x")], [])
  const CALL_C := CallInfo("CGroup", Some("x"), [], [])

  const REASSIGNED_TREE := BCons(
    BranchN("branch_1", CaseN(ASKED, BCons(CallN("agroup", CALL_A), BCons(CallN("bgroup", CALL_B), BNil)), ElseN(BNil))),
    BCons(CallN("cgroup", CALL_C),
          BCons(TermN("terminal_1", Output(LastAssign, Some("x"), Some(Var("x"))), None, ["x"]), BNil)))

  lemma ReassignedTree()
    ensures Elab(ZERO, REASSIGNED, true, {}).1 == REASSIGNED_TREE
  {
    LowerIs("AGroup", "agroup");
    LowerIs("BGroup", "bgroup");
    LowerIs("CGroup", "cgroup");
    var c1 := CountBranch(ZERO);
    var c2 := CountCall(c1, "AGroup");
    var c3 := CountCall(c2, "BGroup");
    var body := REASSIGNED.head.arms.body;
    assert ElabStmt(c1, body.head, false, {}) == Piece(c2, BCons(CallN("agroup", CALL_A), BNil), false);
    assert ElabStmt(c2, body.tail.head, false, {}) == Piece(c3, BCons(CallN("bgroup", CALL_B), BNil), false);
    assert Elab(c2, body.tail, false, {}) == (c3, BCons(CallN("bgroup", CALL_B), BNil));
    assert Elab(c1, body, false, {}) == (c3, BCons(CallN("agroup", CALL_A), BCons(CallN("bgroup", CALL_B), BNil)));
    assert ElabArms(c1, REASSIGNED.head.arms, false, {}) == (c3, REASSIGNED_TREE.head.arms);
    assert ElabStmt(ZERO, REASSIGNED.head, false, {}) == Piece(c3, BCons(REASSIGNED_TREE.head, BNil), false) by {
      assert BranchId(ZERO) == "branch_1";
    }
    var c4 := CountCall(c3, "CGroup");
    assert ElabStmt(c3, REASSIGNED.tail.head, true, {}) == Piece(CountTerm(c4), REASSIGNED_TREE.tail, false) by {
      assert TermId(c4) == "terminal_1";
    }
    assert Elab(c3, REASSIGNED.tail, true, {}).1 == REASSIGNED_TREE.tail;
  }

  const REASSIGNING := Program(REASSIGNED, [], {}, map[])

  const NOTHING := EmptyScope([])

  lemma ReassignedBranch() returns (s: Scope)
    ensures AnalyzeNode(NOTHING, REASSIGNED_TREE.head, false) == Ok(s)
    ensures s.definite == {} && s.inputs == ["q"] && s.warnings == []
  {
    var arms := REASSIGNED_TREE.head.arms;
    var start := Snapshot(NOTHING);
    var s1 := NOTHING.(inputs := ["q"]);
    assert Restore(NOTHING, start) == NOTHING;
    assert RegisterCond(NOTHING, ASKED) == s1 by {
      assert ComparisonRefs(ASKED.comparisons) == ["q"];
      assert SortedSet(["q"]) == ["q"];
      assert RegisterRefs(NOTHING, ["q"]) == s1;
    }
    var s2 := Assign(s1, "x", ["agroup"]);
    assert AnalyzeCall(s1, "agroup", CALL_A) == Ok(s2);
    assert CallRefs(CALL_B) == ["x"];
    assert AnalyzeCall(s2, "bgroup", CALL_B) == Ok(s2);
    assert Analyze(s1, arms.body, false) == Ok(s2);
    var s3 := Restore(s2, start);
    assert AnalyzeArms(s2, start, arms.rest, false) == Ok((s3, [start]));
    assert AnalyzeArms(NOTHING, start, arms, false) == Ok((s3, [Snapshot(s2)] + [start]));
    s := AnalyzeNode(NOTHING, REASSIGNED_TREE.head, false).value;
  }

  lemma ReassignedScope() returns (s: Scope)
    ensures Analyze(NOTHING, REASSIGNED_TREE, true) == Ok(s)
    ensures s.producers == map["x" := ["cgroup"]] && s.warnings == []
  {
    var t := REASSIGNED_TREE;
    var s4 := ReassignedBranch();
    hide AnalyzeNode;
    s := Assign(s4, "x", ["cgroup"]);
    assert AnalyzeNode(s4, t.tail.head, false) == Ok(s) by {
      ReassignedLast(s4);
    }
    assert AnalyzeNode(s, t.tail.tail.head, true) == Ok(s) by {
      ReassignedLast(s4);
    }
    AnalyzeProducers(NOTHING, t, true);
    OriginTracking.KeysAfter(map[], t);
  }

  lemma ReassignedLast(s: Scope)
    requires s.definite == {} && s.inputs == ["q"]
    ensures AnalyzeNode(s, REASSIGNED_TREE.tail.head, false) == Ok(Assign(s, "x", ["cgroup"]))
    ensures AnalyzeNode(Assign(s, "x", ["cgroup"]), REASSIGNED_TREE.tail.tail.head, true) == Ok(Assign(s, "x", ["cgroup"]))
  {
  }

  lemma ReassignedFlow() returns (flow: Flow)
    ensures Semantics(REASSIGNING) == Ok(flow) && flow.warnings == []
    ensures flow.variables == map["x" := ["cgroup"]] && Tree(REASSIGNING) == REASSIGNED_TREE
  {
    ReassignedTree();
    var s := ReassignedScope();
    flow := FlowOf(REASSIGNED_TREE, s, map[]);
    hide Analyze;
    assert Terminals(REASSIGNED_TREE) == [Terminal("terminal_1", Output(LastAssign, Some("x"), Some(Var("x"))), None)];
  }

  lemma ReassignedBody(s: RunState)
    requires s.env == map[]
    ensures var r := RunBlock(REASSIGNED_TREE.head.arms.body, s);
            r.stop.None? && |r.trace| > 2 && r.trace[2] == ReadEv("bgroup", "x", map["x" := {"agroup"}], Pos("agroup", SOURCE)) &&
            r.path == [CallHop("agroup", CALL_A), CallHop("bgroup", CALL_B)]
  {
    var b := REASSIGNED_TREE.head.arms.body;
    var e: Env := map["x" := {"agroup"}];
    var one := RunNode(b.head, s);
    assert CallRefs(CALL_A) == [] && CallRefs(CALL_B) == ["x"];
    assert one == TreeRun([CallHop("agroup", CALL_A)], [CallEv("agroup", CALL_A), WriteEv("agroup", "x")], RunState(e, Pos("agroup", SOURCE), s.picks), None);
    var two := RunNode(b.tail.head, one.after);
    assert two.trace[0] == ReadEv("bgroup", "x", e, Pos("agroup", SOURCE)) && two.stop.None? && two.path == [CallHop("bgroup", CALL_B)];
    Elaboration.RunOne(b.tail.head, one.after);
    hide RunNode;
    assert RunBlock(b, s).trace == one.trace + two.trace;
  }

  lemma ReassignedRest(s: RunState)
    ensures RunBlock(REASSIGNED_TREE.tail, s).path == [CallHop("cgroup", CALL_C)]
  {
  }

  lemma ReassignedRun()
    ensures var r := RunBlock(REASSIGNED_TREE, Initial([0]));
            |r.trace| > 3 && r.trace[3] == ReadEv("bgroup", "x", map["x" := {"agroup"}], Pos("agroup", SOURCE)) &&
            r.path == [BranchHop("branch_1", 0, "case_1"), CallHop("agroup", CALL_A), CallHop("bgroup", CALL_B), CallHop("cgroup", CALL_C)]
  {
    var t := REASSIGNED_TREE;
    var arms := t.head.arms;
    var s0 := RunState(map[], ENTRY, []);
    assert Initial([0]) == s0.(picks := [0]) && Tail([0]) == [];
    assert CondRefs(ASKED) == ["q"] by {
      assert ComparisonRefs(ASKED.comparisons) == ["q"];
    }
    assert CaseId(0) == "case_1";
    var s1 := s0.(at := Pos("branch_1", "case_1"));
    ReassignedBody(s1);
    hide RunBlock;
    var body := RunBlock(arms.body, s1);
    var w := RunArms("branch_1", arms, 0, 0, s0);
    assert w.trace == ReadEvents("branch_1", ["q"], s0) + body.trace && w.path == [BranchHop("branch_1", 0, "case_1")] + body.path;
    assert w.trace[3] == body.trace[2];
    assert RunNode(t.head, Initial([0])) == w;
    ReassignedRest(w.after);
    RunFirst(t.head, t.tail, Initial([0]));
  }

  lemma RunFirst(n: Node, rest: Block, s: RunState)
    requires RunNode(n, s).stop.None?
    ensures var r := RunNode(n, s);
            var q := RunBlock(rest, r.after);
            RunBlock(BCons(n, rest), s) == TreeRun(r.path + q.path, r.trace + q.trace, q.after, q.stop)
  {
  }

  lemma GroupsHaveIds(p: Program)
    requires GroupCalls(Tree(p))
    ensures NoDup(AllIds(Tree(p)))
  {
    UniqueIds(p);
  }

  /** One wrong read on one run is enough. */
  lemma WrongRead(p: Program, flow: Flow, picks: seq<nat>, k: nat, s: Step)
    requires Semantics(p) == Ok(flow) && GroupCalls(Tree(p)) && s in flow.steps
    requires var t := RunBlock(Tree(p), Initial(picks)).trace;
             k < |t| && t[k].ReadEv? && t[k].consumer == s.id && t[k].name in StepNames(s) &&
             !Right(t[k].env, t[k].name, StepChoice(flow.variables, t[k].name))
    ensures !FinalMapFits(p, flow)
  {
    GroupsHaveIds(p);
    FinalMapIsRightExactly(p, flow);
    var uses := UsesOf(flow.steps, flow.terminals);
    var e := RunBlock(Tree(p), Initial(picks)).trace[k];
    assert (e.consumer, e.name) in uses.steps;
    assert !ReadRight(e, uses, flow.variables);
    assert !TraceRight(RunBlock(Tree(p), Initial(picks)).trace, uses, flow.variables);
  }

  lemma IsGroup(call: CallInfo, stem: string)
    requires call.func == stem + "Group"
    ensures EndsWith(call.func, "Group")
  {
  }

  lemma ReassignedSteps()
    ensures GroupCalls(REASSIGNED_TREE) && CallStep("bgroup", CALL_B) in Steps(REASSIGNED_TREE)
    ensures StepNames(CallStep("bgroup", CALL_B)) == ["x"]
  {
    IsGroup(CALL_A, "A");
    IsGroup(CALL_B, "B");
    IsGroup(CALL_C, "C");
    hide EndsWith, FlatCases;
    var arms := REASSIGNED_TREE.head.arms;
    var a, b, c := CallStep("agroup", CALL_A), CallStep("bgroup", CALL_B), CallStep("cgroup", CALL_C);
    assert ArmSteps(arms) == [a, b] + [];
    var all := Steps(REASSIGNED_TREE);
    assert all == [FlatBranch("branch_1", arms), a, b, c];
    assert all[2] == b;
    assert StepNames(b) == ["x"] by {
      assert CallRefs(CALL_B) == ["x"];
    }
  }

  lemma ReassignedTwice()
    ensures !OriginTracking.SingleAssign(REASSIGNED_TREE, {})
  {
    assert !OriginTracking.SingleNode(REASSIGNED_TREE.tail.head, {"x"});
    assert OriginTracking.NodeTargets(REASSIGNED_TREE.head) == {"x"};
  }

  /**
   An accepted program without warnings in which a call reads `x` from "agroup" while every context of the graph
   builder resolves `x` to "cgroup", a call that is made later.
   */
  lemma ReassignedNameIsMisresolved() returns (flow: Flow)
    ensures Semantics(REASSIGNING) == Ok(flow) && flow.warnings == []
    ensures var r := RunBlock(Tree(REASSIGNING), Initial([0]));
            |r.trace| > 3 && r.trace[3] == ReadEv("bgroup", "x", map["x" := {"agroup"}], Pos("agroup", SOURCE)) &&
            r.path == [BranchHop("branch_1", 0, "case_1"), CallHop("agroup", CALL_A), CallHop("bgroup", CALL_B), CallHop("cgroup", CALL_C)]
    ensures forall ctx :: Loaded(flow, ctx) && VariableOutput(ctx, "x").Ok? ==> VariableOutput(ctx, "x").value.0[0] == "cgroup"
    ensures !OriginTracking.SingleAssign(Tree(REASSIGNING), {}) && !FinalMapFits(REASSIGNING, flow)
  {
    flow := ReassignedFlow();
    hide RunBlock, OriginTracking.SingleAssign, FinalMapFits, Tree, GroupCalls;
    ReassignedRun();
    ReassignedTwice();
    ReassignedSteps();
    SemanticSteps(REASSIGNING, flow);
    Different("agroup", "cgroup");
    WrongRead(REASSIGNING, flow, [0], 3, CallStep("bgroup", CALL_B));
  }

  lemma SemanticSteps(p: Program, flow: Flow)
    requires Semantics(p) == Ok(flow)
    ensures flow.steps == Steps(Tree(p))
  {
  }

  lemma Different(a: string, b: string)
    requires |a| > 0 && |b| > 0 && a[0] != b[0]
    ensures !Right(map["x" := {a}], "x", StepChoice(map["x" := [b]], "x"))
  {
    assert a in {a};
  }

  // ----- A copy of a constant -----

  const CALL_Y := CallInfo("AGroup", Some("y"), [Var("x")], [])

  /** `x = "hi"`, then `y = AGroup(x)`. */
  const CONSTANT := SCons(AssignStmt("x", Const(StrConst("hi"))), SCons(CallStmt(CALL_Y), SNil))

  const CONSTANT_TREE := BCons(
    BindN("binding_1", "x", Const(StrConst("hi"))),
    BCons(CallN("agroup", CALL_Y),
          BCons(TermN("terminal_1", Output(LastAssign, Some("y"), Some(Var("y"))), None, ["y"]), BNil)))

  const CONSTANTS := Program(CONSTANT, [], {}, map[])

  lemma ConstantTree()
    ensures Elab(ZERO, CONSTANT, true, {}).1 == CONSTANT_TREE
  {
    LowerIs("AGroup", "agroup");
    var c1 := ZERO.(bindings := 1);
    var c2 := CountCall(c1, "AGroup");
    assert ElabStmt(ZERO, CONSTANT.head, false, {}) == Piece(c1, BCons(CONSTANT_TREE.head, BNil), false) by {
      assert BindId(ZERO) == "binding_1";
    }
    assert ElabStmt(c1, CONSTANT.tail.head, true, {}) == Piece(CountTerm(c2), CONSTANT_TREE.tail, false) by {
      assert TermId(c2) == "terminal_1";
    }
    assert Elab(c1, CONSTANT.tail, true, {}).1 == CONSTANT_TREE.tail;
  }

  lemma ConstantRun()
    ensures var t := RunBlock(CONSTANT_TREE, Initial([])).trace;
            |t| > 1 && t[1] == ReadEv("agroup", "x", map["x" := {}], ENTRY)
    ensures GroupCalls(CONSTANT_TREE) && CallStep("agroup", CALL_Y) in Steps(CONSTANT_TREE)
    ensures StepNames(CallStep("agroup", CALL_Y)) == ["x"]
  {
    IsGroup(CALL_Y, "A");
    assert CallRefs(CALL_Y) == ["x"];
    var r := RunNode(CONSTANT_TREE.head, Initial([]));
    assert DepsOf(map[], []) == {};
    assert r.trace == [WriteEv("binding_1", "x")] && r.after == RunState(map["x" := {}], ENTRY, []);
    var q := RunBlock(CONSTANT_TREE.tail, r.after);
    assert q.trace[0] == ReadEv("agroup", "x", map["x" := {}], ENTRY);
  }

  lemma ConstantFlow() returns (flow: Flow)
    ensures Semantics(CONSTANTS) == Ok(flow) && flow.warnings == [] && flow.inputs == [] && Tree(CONSTANTS) == CONSTANT_TREE
    ensures flow.variables == map["x" := [], "y" := ["agroup"]]
  {
    ConstantTree();
    var t := CONSTANT_TREE;
    var s1 := Assign(NOTHING, "x", []);
    assert AnalyzeNode(NOTHING, t.head, false) == Ok(s1);
    var s2 := Assign(s1, "y", ["agroup"]);
    assert CallRefs(CALL_Y) == ["x"];
    assert AnalyzeNode(s1, t.tail.head, false) == Ok(s2);
    assert AnalyzeNode(s2, t.tail.tail.head, true) == Ok(s2);
    hide AnalyzeNode;
    assert Analyze(s1, t.tail, true) == Ok(s2);
    flow := FlowOf(t, s2, map[]);
    assert Terminals(t) == [Terminal("terminal_1", Output(LastAssign, Some("y"), Some(Var("y"))), None)];
  }

  /** An accepted program without warnings and without inputs in which a call argument is resolved to an input. */
  lemma ConstantIsMisresolved() returns (flow: Flow)
    ensures Semantics(CONSTANTS) == Ok(flow) && flow.warnings == [] && flow.inputs == []
    ensures CALL_Y.args == [Var("x")] && forall ctx :: Loaded(flow, ctx) ==> VariableOutput(ctx, "x") == Ok(([START, "x"], StringTy))
    ensures !FinalMapFits(CONSTANTS, flow)
  {
    flow := ConstantFlow();
    hide RunBlock, FinalMapFits, GroupCalls, Tree, Semantics;
    ConstantRun();
    SemanticSteps(CONSTANTS, flow);
    WrongRead(CONSTANTS, flow, [], 1, CallStep("agroup", CALL_Y));
  }

  // ----- A constant in one arm, a call in the other -----

  const CALL_X := CallInfo("AGroup", Some("x"), [], [])

  /** `if q: x = "hi"`, `else: x = AGroup()`, then `BGroup(x)`. */
  const MIXED := SCons(
    IfStmt(Case(ASKED, SCons(AssignStmt("x", Const(StrConst("hi"))), SNil), Else(SCons(CallStmt(CALL_X), SNil)))),
    SCons(CallStmt(CALL_B), SNil))

  const MIXED_TREE := BCons(
    BranchN("branch_1", CaseN(ASKED, BCons(BindN("binding_1", "x", Const(StrConst("hi"))), BNil), ElseN(BCons(CallN("agroup", CALL_X), BNil)))),
    BCons(CallN("bgroup", CALL_B), BCons(TermN("terminal_1", Output(LastCall, None, None), Some("bgroup"), []), BNil)))

  const MIXING := Program(MIXED, [], {}, map[])

  lemma MixedTree()
    ensures Elab(ZERO, MIXED, true, {}).1 == MIXED_TREE
  {
    LowerIs("AGroup", "agroup");
    LowerIs("BGroup", "bgroup");
    var c1 := CountBranch(ZERO);
    var c2 := c1.(bindings := 1);
    var c3 := CountCall(c2, "AGroup");
    var c4 := CountCall(c3, "BGroup");
    var arms, nodes := MIXED.head.arms, MIXED_TREE.head.arms;
    assert ElabStmt(c1, arms.body.head, false, {}) == Piece(c2, nodes.body, false) by {
      assert BindId(c1) == "binding_1";
    }
    assert Elab(c1, arms.body, false, {}) == (c2, nodes.body);
    assert ElabStmt(c2, CallStmt(CALL_X), false, {}) == Piece(c3, nodes.rest.orelse, false);
    assert Elab(c2, arms.rest.orelse, false, {}) == (c3, nodes.rest.orelse);
    assert ElabArms(c2, arms.rest, false, {}) == (c3, nodes.rest);
    assert ElabArms(c1, arms, false, {}) == (c3, nodes);
    assert ElabStmt(ZERO, MIXED.head, false, {}) == Piece(c3, BCons(MIXED_TREE.head, BNil), false) by {
      assert BranchId(ZERO) == "branch_1";
    }
    assert ElabStmt(c3, CallStmt(CALL_B), true, {}) == Piece(CountTerm(c4), MIXED_TREE.tail, false) by {
      assert TermId(c4) == "terminal_1";
    }
    assert Elab(c3, MIXED.tail, true, {}).1 == MIXED_TREE.tail;
  }

  lemma MixedBranch() returns (s: Scope)
    ensures AnalyzeNode(NOTHING, MIXED_TREE.head, false) == Ok(s)
    ensures s.definite == {"x"} && s.inputs == ["q"] && s.warnings == [] && s.producers == map["x" := ["agroup"]]
  {
    var arms := MIXED_TREE.head.arms;
    var start := Snapshot(NOTHING);
    var s1 := NOTHING.(inputs := ["q"]);
    assert Restore(NOTHING, start) == NOTHING;
    assert RegisterCond(NOTHING, ASKED) == s1 by {
      assert ComparisonRefs(ASKED.comparisons) == ["q"];
      assert SortedSet(["q"]) == ["q"];
      assert RegisterRefs(NOTHING, ["q"]) == s1;
    }
    var s2 := Assign(s1, "x", []);
    assert AnalyzeNode(s1, arms.body.head, false) == Ok(s2);
    assert Analyze(s1, arms.body, false) == Ok(s2);
    var s3 := Restore(s2, start);
    var s4 := Assign(s3, "x", ["agroup"]);
    assert CallRefs(CALL_X) == [];
    assert AnalyzeNode(s3, CallN("agroup", CALL_X), false) == Ok(s4);
    assert Analyze(s3, arms.rest.orelse, false) == Ok(s4);
    assert AnalyzeArms(s2, start, arms.rest, false) == Ok((s4, [Snapshot(s4)]));
    assert AnalyzeArms(NOTHING, start, arms, false) == Ok((s4, [Snapshot(s2)] + [Snapshot(s4)]));
    s := AnalyzeNode(NOTHING, MIXED_TREE.head, false).value;
    MixedJoin(s4, Snapshot(s2), Snapshot(s4));
  }

  lemma MixedJoin(s: Scope, a: Arm, b: Arm)
    requires a == Arm({"x"}, map["x" := []]) && b == Arm({"x"}, map["x" := ["agroup"]])
    ensures Join(s, [a] + [b]) == s.(definite := {"x"}, producers := map["x" := ["agroup"]])
  {
    var ms := ArmMaps([a] + [b]);
    assert ms == [a.producers, b.producers] && ms[1..] == [b.producers] && [b.producers][1..] == [];
    assert AddNew([], ["agroup"]) == ["agroup"] by {
      assert ["agroup"][1..] == [] && [] + ["agroup"] == ["agroup"];
    }
    assert Merge(map[], a.producers) == map["x" := []];
    assert Merge(map["x" := []], b.producers) == map["x" := ["agroup"]];
    assert MergeAll(map["x" := []], [b.producers]) == MergeAll(map["x" := ["agroup"]], []);
    assert MergeAll(map[], ms) == map["x" := ["agroup"]];
    var sets := ArmSets([a] + [b]);
    assert sets == [{"x"}, {"x"}] && sets[1..] == [{"x"}];
    assert IntersectAll(sets[1..]) == {"x"};
    assert IntersectAll(sets) == {"x"};
  }

  lemma MixedScope() returns (s: Scope)
    ensures Analyze(NOTHING, MIXED_TREE, true) == Ok(s) && s.warnings == [] && s.producers == map["x" := ["agroup"]]
  {
    var t := MIXED_TREE;
    s := MixedBranch();
    assert CallRefs(CALL_B) == ["x"];
    assert AnalyzeNode(s, t.tail.head, false) == Ok(s);
    assert AnalyzeNode(s, t.tail.tail.head, true) == Ok(s);
    hide AnalyzeNode;
    assert Analyze(s, t.tail, true) == Ok(s);
  }

  lemma MixedFlow() returns (flow: Flow)
    ensures Semantics(MIXING) == Ok(flow) && flow.warnings == []
    ensures flow.variables == map["x" := ["agroup"]] && Tree(MIXING) == MIXED_TREE
  {
    MixedTree();
    var t := MIXED_TREE;
    var s := MixedScope();
    hide Analyze;
    flow := FlowOf(t, s, map[]);
    assert Terminals(t) == [Terminal("terminal_1", Output(LastCall, None, None), Some("bgroup"))];
  }

  lemma MixedBody(s: RunState)
    requires s.env == map[]
    ensures RunBlock(MIXED_TREE.head.arms.body, s) == TreeRun([], [WriteEv("binding_1", "x")], s.(env := map["x" := {}]), None)
  {
    var n := MIXED_TREE.head.arms.body.head;
    assert DepsOf(map[], []) == {};
    Elaboration.RunOne(n, s);
  }

  lemma MixedRest(s: RunState)
    ensures var r := RunBlock(MIXED_TREE.tail, s);
            |r.trace| > 0 && r.trace[0] == ReadEv("bgroup", "x", s.env, s.at) && r.path == [CallHop("bgroup", CALL_B)]
  {
    assert CallRefs(CALL_B) == ["x"];
  }

  lemma MixedRun()
    ensures var r := RunBlock(MIXED_TREE, Initial([0]));
            |r.trace| > 2 && r.trace[2] == ReadEv("bgroup", "x", map["x" := {}], Pos("branch_1", "case_1")) &&
            r.path == [BranchHop("branch_1", 0, "case_1"), CallHop("bgroup", CALL_B)]
  {
    var t := MIXED_TREE;
    var arms := t.head.arms;
    var s0 := RunState(map[], ENTRY, []);
    assert Initial([0]) == s0.(picks := [0]) && Tail([0]) == [];
    assert CondRefs(ASKED) == ["q"] by {
      assert ComparisonRefs(ASKED.comparisons) == ["q"];
    }
    assert CaseId(0) == "case_1";
    var s1 := s0.(at := Pos("branch_1", "case_1"));
    MixedBody(s1);
    var body := RunBlock(arms.body, s1);
    var w := RunArms("branch_1", arms, 0, 0, s0);
    assert w.trace == ReadEvents("branch_1", ["q"], s0) + body.trace && w.path == [BranchHop("branch_1", 0, "case_1")] + [];
    assert RunNode(t.head, Initial([0])) == w;
    MixedRest(w.after);
    hide RunNode;
    var rest := RunBlock(t.tail, w.after);
    assert RunBlock(t, Initial([0])).trace == w.trace + rest.trace;
  }

  lemma MixedSteps()
    ensures GroupCalls(MIXED_TREE) && CallStep("bgroup", CALL_B) in Steps(MIXED_TREE)
    ensures StepNames(CallStep("bgroup", CALL_B)) == ["x"]
  {
    IsGroup(CALL_X, "A");
    IsGroup(CALL_B, "B");
    hide EndsWith, FlatCases;
    var arms := MIXED_TREE.head.arms;
    var a, b := CallStep("agroup", CALL_X), CallStep("bgroup", CALL_B);
    assert ArmSteps(arms) == [] + [a];
    var all := Steps(MIXED_TREE);
    assert all == [FlatBranch("branch_1", arms), a, b];
    assert all[2] == b;
    assert StepNames(b) == ["x"] by {
      assert CallRefs(CALL_B) == ["x"];
    }
  }

  /**
   An accepted program without warnings in which the final map lists one call for `x`, which is also all that the
   analysis lists at its one use; still on one of its runs the use is reached with no call made before.
   */
  lemma MixedIsMisresolved() returns (flow: Flow)
    ensures Semantics(MIXING) == Ok(flow) && flow.warnings == [] && flow.variables == map["x" := ["agroup"]]
    ensures RunBlock(Tree(MIXING), Initial([0])).path == [BranchHop("branch_1", 0, "case_1"), CallHop("bgroup", CALL_B)]
    ensures forall ctx :: Loaded(flow, ctx) && VariableOutput(ctx, "x").Ok? ==> VariableOutput(ctx, "x").value.0[0] == "agroup"
    ensures !FinalMapFits(MIXING, flow)
  {
    flow := MixedFlow();
    hide RunBlock, FinalMapFits, Tree, GroupCalls, Semantics;
    MixedRun();
    MixedSteps();
    SemanticSteps(MIXING, flow);
    WrongRead(MIXING, flow, [0], 2, CallStep("bgroup", CALL_B));
  }

  // ----- A terminal that nothing gets to -----

  const PUT_Q := Output(Return, None, Some(Var("q")))
  const RETURN_Q := ReturnStmt(Some(Var("q")))

  /** `if q: return q`, `else: return q`, then `return q`. */
  const UNREACHED := SCons(IfStmt(Case(ASKED, SCons(RETURN_Q, SNil), Else(SCons(RETURN_Q, SNil)))), SCons(RETURN_Q, SNil))

  const UNREACHING := Program(UNREACHED, [], {}, map[])

  const T1 := Terminal("terminal_1", PUT_Q, None)
  const T2 := Terminal("terminal_2", PUT_Q, None)
  const T3 := Terminal("terminal_3", PUT_Q, None)

  function TermOf(t: Terminal): Node {
    TermN(t.id, t.output, t.outputStep, ["q"])
  }

  const UNREACHED_ARMS := CaseN(ASKED, BCons(TermOf(T1), BNil), ElseN(BCons(TermOf(T2), BNil)))
  const UNREACHED_TREE := BCons(BranchN("branch_1", UNREACHED_ARMS), BCons(TermOf(T3), BNil))

  const UNREACHED_STEP := BranchStep("branch_1", [FlatCase("case_1", ASKED, ["terminal_1"])], ["terminal_2"])

  const UNREACHED_FLOW := Flow(["branch_1", "terminal_3"], [Input("q", DEFAULT_TYPE)], [UNREACHED_STEP], [], [T1, T2, T3], map[], [])

  lemma UnreachedTree()
    ensures Tree(UNREACHING) == UNREACHED_TREE
  {
    var c1 := CountBranch(ZERO);
    var c2 := CountTerm(c1);
    var c3 := CountTerm(c2);
    var arms := UNREACHED.head.arms;
    assert TermId(c1) == "terminal_1" && TermId(c2) == "terminal_2" && TermId(c3) == "terminal_3" && BranchId(ZERO) == "branch_1";
    assert OptRefs(Some(Var("q"))) == ["q"];
    assert Elab(c1, arms.body, false, {}) == (c2, BCons(TermOf(T1), BNil));
    assert Elab(c2, arms.rest.orelse, false, {}) == (c3, BCons(TermOf(T2), BNil));
    assert ElabArms(c2, arms.rest, false, {}) == (c3, UNREACHED_ARMS.rest);
    assert ElabArms(c1, arms, false, {}) == (c3, UNREACHED_ARMS);
    assert ElabStmt(ZERO, UNREACHED.head, false, {}) == Piece(c3, BCons(UNREACHED_TREE.head, BNil), false);
    assert Elab(c3, UNREACHED.tail, true, {}).1 == UNREACHED_TREE.tail;
  }

  lemma UnreachedScope() returns (s: Scope)
    ensures Analyze(NOTHING, UNREACHED_TREE, true) == Ok(s) && s.inputs == ["q"] && s.warnings == [] && s.producers == map[]
  {
    var arms := UNREACHED_ARMS;
    var start := Snapshot(NOTHING);
    s := NOTHING.(inputs := ["q"]);
    assert Restore(NOTHING, start) == NOTHING && Restore(s, start) == s;
    assert RegisterCond(NOTHING, ASKED) == s by {
      assert ComparisonRefs(ASKED.comparisons) == ["q"];
      assert SortedSet(["q"]) == ["q"];
      assert RegisterRefs(NOTHING, ["q"]) == s;
    }
    assert RegisterRefs(s, ["q"]) == s;
    assert Analyze(s, arms.body, false) == Ok(s) && Analyze(s, arms.rest.orelse, false) == Ok(s);
    assert AnalyzeArms(s, start, arms.rest, false) == Ok((s, [start]));
    assert AnalyzeArms(NOTHING, start, arms, false) == Ok((s, [start] + [start]));
    NothingJoins(s, start);
    assert AnalyzeNode(NOTHING, UNREACHED_TREE.head, false) == Ok(s);
    assert AnalyzeNode(s, UNREACHED_TREE.tail.head, true) == Ok(s);
    hide AnalyzeNode;
    assert Analyze(s, UNREACHED_TREE.tail, true) == Ok(s);
  }

  lemma NothingJoins(s: Scope, a: Arm)
    requires a == Arm({}, map[]) && s.definite == {} && s.producers == map[]
    ensures Join(s, [a] + [a]) == s
  {
    var ms := ArmMaps([a] + [a]);
    assert ms == [map[], map[]] && ms[1..] == [map[]];
    assert Merge(map[], map[]) == map[];
    assert MergeAll(map[], [map[]]) == MergeAll(Merge(map[], map[]), []);
    assert MergeAll(map[], ms) == map[];
    var sets := ArmSets([a] + [a]);
    assert sets == [{}, {}] && sets[1..] == [{}];
    assert IntersectAll(sets) == {};
  }

  lemma UnreachedSteps()
    ensures Steps(UNREACHED_TREE) == [UNREACHED_STEP]
  {
    var t := UNREACHED_TREE;
    assert CaseId(0) == "case_1";
    assert FlatCases(UNREACHED_ARMS.rest, 1) == [] && BodyIds(UNREACHED_ARMS.body) == ["terminal_1"];
    assert BodyIds(ElseBlock(UNREACHED_ARMS)) == ["terminal_2"];
    assert FlatBranch("branch_1", UNREACHED_ARMS) == UNREACHED_STEP;
    assert ArmSteps(UNREACHED_ARMS) == [];
    assert Steps(t.tail) == [] && NodeSteps(t.head) == [UNREACHED_STEP] + [];
  }

  lemma UnreachedLists()
    ensures Terminals(UNREACHED_TREE) == [T1, T2, T3] && Bindings(map[], UNREACHED_TREE) == []
    ensures BodyIds(UNREACHED_TREE) == UNREACHED_FLOW.body
  {
    assert ArmTerminals(UNREACHED_ARMS) == [T1] + [T2];
    assert ArmBindings(map[], UNREACHED_ARMS) == [];
  }

  lemma UnreachedInputs()
    ensures TypedInputs(map[], ["q"]) == [Input("q", DEFAULT_TYPE)]
  {
    assert Lower("q") == "q";
    assert !Contains("q", "file");
  }

  lemma UnreachedFlow()
    ensures Semantics(UNREACHING) == Ok(UNREACHED_FLOW)
  {
    UnreachedTree();
    var s := UnreachedScope();
    UnreachedInputs();
    UnreachedSteps();
    UnreachedLists();
    hide Analyze, TypedInputs, Steps, Terminals, Bindings, BodyIds;
    assert FlowOf(UNREACHED_TREE, s, map[]) == UNREACHED_FLOW;
  }

  /** The context that the flow is loaded into. */
  const UNREACHED_CTX := Context([UNREACHED_STEP], map["branch_1" := 0], {}, map["terminal_1" := T1, "terminal_2" := T2, "terminal_3" := T3],
                                 map[], map["q" := DEFAULT_TYPE], map[])

  lemma UnreachedLoads()
    ensures Load(UNREACHED_FLOW) == Ok(UNREACHED_CTX)
  {
    var f := UNREACHED_FLOW;
    assert IndexSteps(f.steps, 0, map[]) == Ok(map["branch_1" := 0]) by {
      assert IndexSteps(f.steps, 1, map["branch_1" := 0]) == Ok(map["branch_1" := 0]);
    }
    assert IndexTerminals(f.terminals, map[]) == Ok(UNREACHED_CTX.terminals) by {
      TerminalIdsDiffer();
      assert f.terminals[1..] == [T2, T3] && [T2, T3][1..] == [T3] && [T3][1..] == [];
      assert IndexTerminals([T3], map["terminal_1" := T1, "terminal_2" := T2]) == Ok(UNREACHED_CTX.terminals);
      assert IndexTerminals([T2, T3], map["terminal_1" := T1]) == Ok(UNREACHED_CTX.terminals);
    }
    assert InputTypes(f.inputs, map[]) == map["q" := DEFAULT_TYPE] by {
      assert f.inputs[1..] == [];
    }
  }

  lemma TerminalIdsDiffer()
    ensures T1.id != T2.id && T1.id != T3.id && T2.id != T3.id
  {
    assert T1.id[9] == '1' && T2.id[9] == '2' && T3.id[9] == '3';
  }

  const UNREACHED_NODE := IfElseNode("branch_1", [GraphCase("case_1", And,
    [GraphCondition("branch_1" + "_" + "case_1" + "_" + Dec(0), "string", [START, "q"], "not empty", TextValue(""))])])

  lemma UnreachedNode()
    ensures ContextOk(UNREACHED_CTX) && BuildStepNode(UNREACHED_CTX, UNREACHED_STEP) == Ok(UNREACHED_NODE)
  {
    var ctx, cs := UNREACHED_CTX, ASKED.comparisons;
    assert InputSchemaType(ctx, "q") == StringTy by {
      assert DEFAULT_TYPE[0] == 'p' && "number"[0] == 'n' && "file"[0] == 'f' && "file-list"[0] == 'f';
    }
    assert ConditionSource(ctx, cs[0]) == Ok(([START, "q"], StringTy));
    assert BuildCondition(ctx, "branch_1", "case_1", 0, cs[0]) == Ok(UNREACHED_NODE.cases[0].conditions[0]);
    assert cs[1..] == [];
    var none: seq<GraphCondition> := [];
    assert BuildConditions(ctx, "branch_1", "case_1", 1, cs[1..]) == Ok(none);
    assert [UNREACHED_NODE.cases[0].conditions[0]] + none == UNREACHED_NODE.cases[0].conditions;
    assert BuildConditions(ctx, "branch_1", "case_1", 0, cs) == Ok(UNREACHED_NODE.cases[0].conditions);
    var cases: seq<GraphCase> := [];
    assert BuildCases(ctx, "branch_1", UNREACHED_STEP.cases[1..]) == Ok(cases);
    assert [UNREACHED_NODE.cases[0]] + cases == UNREACHED_NODE.cases;
  }

  const UNREACHED_START := StartNode(START, [StartVariable("q", "text-input")])

  const UNREACHED_NODES := [UNREACHED_START, UNREACHED_NODE]

  lemma UnreachedInfers()
    ensures ContextOk(UNREACHED_CTX) && InferSteps(UNREACHED_CTX, [UNREACHED_STEP]) == Ok(UNREACHED_CTX)
  {
    var ctx, cs := UNREACHED_CTX, ASKED.comparisons;
    assert cs[1..] == [];
    assert InferComparisons(ctx, cs) == Ok(ctx);
    assert UNREACHED_STEP.cases[1..] == [];
    assert InferCases(ctx, "branch_1", UNREACHED_STEP.cases) == Ok(ctx);
    assert [UNREACHED_STEP][1..] == [];
  }

  lemma UnreachedStarts()
    ensures StartBuilding(UNREACHED_FLOW) == Building([UNREACHED_START], [], {}, map[])
  {
    assert StartVariables(UNREACHED_FLOW.inputs) == UNREACHED_START.variables by {
      assert DEFAULT_TYPE[0] == 'p' && "number"[0] == 'n' && "file"[0] == 'f' && "file-list"[0] == 'f' && "select"[0] == 's';
    }
  }

  lemma UnreachedAppends()
    requires ContextOk(UNREACHED_CTX)
    ensures AppendStepNodes(UNREACHED_CTX, [UNREACHED_STEP], Building([UNREACHED_START], [], {}, map[])) ==
            Ok(Building(UNREACHED_NODES, [], {}, map[]))
  {
    var g := Building([UNREACHED_START], [], {}, map[]);
    UnreachedNode();
    hide BuildStepNode;
    assert AppendNode(g, UNREACHED_NODE) == Ok(g.(nodes := UNREACHED_NODES)) by {
      assert UNREACHED_NODE.id[0] != START[0];
      assert g.nodes + [UNREACHED_NODE] == UNREACHED_NODES;
    }
    assert [UNREACHED_STEP][1..] == [];
  }

  lemma UnreachedPrepared()
    ensures Walkable(UNREACHED_FLOW) && Prepared(UNREACHED_FLOW) == Ok((UNREACHED_CTX, Building(UNREACHED_NODES, [], {}, map[])))
  {
    UnreachedFlow();
    CompiledIsWalkable(UNREACHING, UNREACHED_FLOW);
    hide Walkable, Semantics, Load, InferSteps, AppendStepNodes, StartBuilding, ContextOk;
    UnreachedLoads();
    UnreachedInfers();
    UnreachedStarts();
    UnreachedAppends();
  }

  lemma PutsQ(t: Terminal, source: Id)
    requires t.output == PUT_Q && t.outputStep.None? && ContextOk(UNREACHED_CTX)
    ensures TerminalOutput(UNREACHED_CTX, t, source) == Ok(([START, "q"], StringTy))
  {
    assert Refs(Var("q")) == ["q"];
  }

  /** An end node of its own for a terminal that one exit leads to. */
  lemma EndsOne(t: Terminal, from: Pos, g: Building)
    requires ContextOk(UNREACHED_CTX) && t.output == PUT_Q && t.outputStep.None? && HasNode(g, from.node) && !HasNode(g, t.id)
    requires t.id !in g.counts && forall e :: e in g.edges ==> e.target != t.id
    ensures AppendEnds(UNREACHED_CTX, t, [from], true, g) ==
            Ok(Building(g.nodes + [EndNode(t.id, "result", [START, "q"], "string")], g.edges + [Edge(from.node, from.handle, t.id)],
                        g.visited, g.counts[t.id := 1]))
  {
    PutsQ(t, from.node);
    var n := EndNode(t.id, "result", [START, "q"], "string");
    var h := g.(counts := g.counts[t.id := 1], nodes := g.nodes + [n]);
    assert HasNode(h, from.node) by {
      var i :| 0 <= i < |g.nodes| && g.nodes[i].id == from.node;
      assert h.nodes[i].id == from.node;
    }
    assert HasNode(h, t.id) by {
      assert h.nodes[|g.nodes|].id == t.id;
    }
    assert [from][1..] == [];
  }

  /** The graph when the branch has been entered, and after each of its arms. */
  const ENTERED_1 := Building(UNREACHED_NODES, [Edge(START, SOURCE, "branch_1")], {"branch_1"}, map[])

  function AfterEnd(g: Building, t: Terminal, handle: string): Building {
    Building(g.nodes + [EndNode(t.id, "result", [START, "q"], "string")], g.edges + [Edge("branch_1", handle, t.id)],
             g.visited, g.counts[t.id := 1])
  }

  const ENTERED_2 := AfterEnd(ENTERED_1, T1, "case_1")
  const ENTERED_3 := AfterEnd(ENTERED_2, T2, FALSE)

  lemma UnreachedEnters()
    ensures AppendEdges(Building(UNREACHED_NODES, [], {"branch_1"}, map[]), [ENTRY], "branch_1") == Ok(ENTERED_1)
  {
    var g := Building(UNREACHED_NODES, [], {"branch_1"}, map[]);
    assert g.nodes[0].id == START && g.nodes[1].id == "branch_1";
    assert [] + [Edge(START, SOURCE, "branch_1")] == [Edge(START, SOURCE, "branch_1")];
    assert AppendEdge(g, ENTRY, "branch_1") == Ok(ENTERED_1);
    assert [ENTRY][1..] == [];
  }

  lemma FirstEnds()
    requires ContextOk(UNREACHED_CTX)
    ensures AppendEnds(UNREACHED_CTX, T1, [Pos("branch_1", "case_1")], true, ENTERED_1) == Ok(ENTERED_2)
  {
    assert T1.id[0] == 't' && "branch_1"[0] == 'b' && START[0] == 's';
    assert ENTERED_1.nodes[1].id == "branch_1";
    EndsOne(T1, Pos("branch_1", "case_1"), ENTERED_1);
  }

  lemma SecondEnds()
    requires ContextOk(UNREACHED_CTX)
    ensures AppendEnds(UNREACHED_CTX, T2, [Pos("branch_1", FALSE)], true, ENTERED_2) == Ok(ENTERED_3)
  {
    TerminalIdsDiffer();
    assert T2.id[0] == 't' && "branch_1"[0] == 'b' && START[0] == 's';
    assert ENTERED_2.nodes[1].id == "branch_1";
    EndsOne(T2, Pos("branch_1", FALSE), ENTERED_2);
  }

  lemma EndLowers(t: Terminal, from: Pos, g: Building, h: Building)
    requires ContextOk(UNREACHED_CTX) && AppendEnds(UNREACHED_CTX, t, [from], true, g) == Ok(h)
    ensures LowerBlock(UNREACHED_CTX, BCons(TermOf(t), BNil), [from], g) == Ok((h, []))
  {
  }

  lemma UnreachedArmsLower()
    requires ContextOk(UNREACHED_CTX)
    ensures LowerArms(UNREACHED_CTX, "branch_1", UNREACHED_ARMS, 0, ENTERED_1) == Ok((ENTERED_3, []))
  {
    FirstEnds();
    SecondEnds();
    EndLowers(T1, Pos("branch_1", "case_1"), ENTERED_1, ENTERED_2);
    EndLowers(T2, Pos("branch_1", FALSE), ENTERED_2, ENTERED_3);
    hide LowerBlock;
    assert CaseId(0) == "case_1";
    var none: seq<Pos> := [];
    assert none + none == none;
  }

  lemma UnreachedLowers() returns (h: Building)
    requires ContextOk(UNREACHED_CTX)
    ensures LowerBlock(UNREACHED_CTX, UNREACHED_TREE, [ENTRY], Building(UNREACHED_NODES, [], {}, map[])) == Ok((h, []))
  {
    h := ENTERED_3;
    UnreachedEnters();
    UnreachedArmsLower();
    NoEnd(T3, h);
    hide AppendEnds, AppendEdges, LowerArms;
    assert {} + {"branch_1"} == {"branch_1"};
    assert LowerNode(UNREACHED_CTX, UNREACHED_TREE.head, [ENTRY], Building(UNREACHED_NODES, [], {}, map[])) == Ok((h, []));
    assert LowerNode(UNREACHED_CTX, TermOf(T3), [], h) == Ok((h, []));
  }

  lemma NoEnd(t: Terminal, g: Building)
    requires ContextOk(UNREACHED_CTX)
    ensures AppendEnds(UNREACHED_CTX, t, [], false, g) == Ok(g)
  {
  }

  lemma BuiltFrom(p: Program, flow: Flow, ctx: Context, g: Building, h: Building, exits: seq<Pos>)
    requires Semantics(p) == Ok(flow) && Walkable(flow) && Prepared(flow) == Ok((ctx, g))
    requires ContextOk(ctx) && Ranked(ctx) && Above(ctx, flow.body, 0) && WalkSequence(ctx, flow.body, 0, [ENTRY], g) == Ok((h, exits))
    requires Checked(flow, h, exits) == Ok(Graph(h.nodes, h.edges))
    ensures Pipeline(p) == Ok((flow, Graph(h.nodes, h.edges)))
  {
    hide Semantics, Walkable, Prepared, WalkSequence, Checked;
  }

  lemma UnreachedReady(g: Building)
    requires g == Building(UNREACHED_NODES, [], {}, map[])
    ensures Ready(UNREACHING, UNREACHED_FLOW, UNREACHED_CTX, g)
  {
    UnreachedFlow();
    UnreachedPrepared();
    hide Semantics, Prepared, Walkable, Ready;
    PreparedIsReady(UNREACHING, UNREACHED_FLOW);
  }

  lemma UnreachedWalk() returns (h: Building)
    ensures Ready(UNREACHING, UNREACHED_FLOW, UNREACHED_CTX, Building(UNREACHED_NODES, [], {}, map[]))
    ensures Lowers(UNREACHING, UNREACHED_CTX, Building(UNREACHED_NODES, [], {}, map[])) == Ok((h, []))
  {
    UnreachedReady(Building(UNREACHED_NODES, [], {}, map[]));
    UnreachedInfers();
    UnreachedTree();
    h := UnreachedLowers();
  }

  lemma UnreachedIsGrammatical()
    ensures Redundancy.Grammatical(UNREACHING.body)
  {
  }

  lemma UnreachedBuilds() returns (graph: Graph)
    ensures Pipeline(UNREACHING) == Ok((UNREACHED_FLOW, graph))
  {
    hide *;
    var f, ctx, g := UNREACHED_FLOW, UNREACHED_CTX, Building(UNREACHED_NODES, [], {}, map[]);
    UnreachedFlow();
    UnreachedPrepared();
    UnreachedIsGrammatical();
    var h := UnreachedWalk();
    ReadyWalks(UNREACHING, f, ctx, g);
    Redundancy.ChecksAreRedundant(UNREACHING, f, ctx, g, h, []);
    BuiltFrom(UNREACHING, f, ctx, g, h, []);
    graph := Graph(h.nodes, h.edges);
  }

  lemma NotEntered()
    ensures T3 !in Endings.Entered(UNREACHED_TREE, true) && T3 in UNREACHED_FLOW.terminals
  {
    TerminalIdsDiffer();
    assert Endings.EnteredArms(UNREACHED_ARMS) == [T1] + [T2];
    assert UNREACHED_FLOW.terminals[2] == T3;
  }

  /** A program that both stages accept and for whose graph no source map is made: nothing gets to its last terminal. */
  lemma UnreachedIsNotMapped() returns (graph: Graph)
    ensures Pipeline(UNREACHING) == Ok((UNREACHED_FLOW, graph))
    ensures forall m :: !SourceMap.IsSourceMap(UNREACHED_FLOW, graph, m)
  {
    hide *;
    graph := UnreachedBuilds();
    UnreachedTree();
    NotEntered();
    forall m
      ensures !SourceMap.IsSourceMap(UNREACHED_FLOW, graph, m)
    {
      if SourceMap.IsSourceMap(UNREACHED_FLOW, graph, m) {
        var ctx := Decoding.SourceMapInverts(UNREACHING, UNREACHED_FLOW, graph, Ok(m));
      }
    }
  }

  // ----- Functions that are not groups -----

  const WORK := CallInfo("Work", None, [], [])
  const WORK_2 := CallInfo("Work_2", None, [], [])

  /** `Work(); Work(); Work_2()`. */
  const WORKING := Program(SCons(CallStmt(WORK), SCons(CallStmt(WORK), SCons(CallStmt(WORK_2), SNil))), [], {}, map[])

  const WORK_TREE := BCons(CallN("work", WORK), BCons(CallN("work_2", WORK), BCons(CallN("work_2", WORK_2),
    BCons(TermN("terminal_1", Output(LastCall, None, None), Some("work_2"), []), BNil))))

  lemma WorkTree()
    ensures Tree(WORKING) == WORK_TREE
  {
    LowerIs("Work", "work");
    LowerIs("Work_2", "work_2");
    var p := WORKING.body;
    var c1 := CountCall(ZERO, "Work");
    var c2 := CountCall(c1, "Work");
    var c3 := CountCall(c2, "Work_2");
    assert ElabStmt(ZERO, CallStmt(WORK), false, {}) == Piece(c1, BCons(CallN("work", WORK), BNil), false);
    assert ElabStmt(c1, CallStmt(WORK), false, {}) == Piece(c2, BCons(CallN("work_2", WORK), BNil), false) by {
      assert CallId(c1, "Work") == "work_2";
    }
    assert ElabStmt(c2, CallStmt(WORK_2), true, {}) == Piece(CountTerm(c3), WORK_TREE.tail.tail, false) by {
      assert TermId(c3) == "terminal_1";
    }
    assert Elab(c2, p.tail.tail, true, {}) == (CountTerm(c3), WORK_TREE.tail.tail);
    assert Elab(c1, p.tail, true, {}) == (CountTerm(c3), WORK_TREE.tail);
  }

  lemma WorkFlow() returns (flow: Flow)
    ensures Semantics(WORKING) == Ok(flow) && flow.warnings == []
  {
    WorkTree();
    assert CallRefs(WORK) == [] && CallRefs(WORK_2) == [];
    assert Analyze(NOTHING, WORK_TREE.tail.tail, true) == Ok(NOTHING);
    assert Analyze(NOTHING, WORK_TREE.tail, true) == Ok(NOTHING);
    assert Analyze(NOTHING, WORK_TREE, true) == Ok(NOTHING);
    flow := FlowOf(WORK_TREE, NOTHING, map[]);
    assert Terminals(WORK_TREE) == [Terminal("terminal_1", Output(LastCall, None, None), Some("work_2"))];
  }

  lemma WorkIds()
    ensures AllIds(WORK_TREE) == ["work", "work_2", "work_2", "terminal_1"] && !NoDup(AllIds(WORK_TREE))
  {
    var ids := AllIds(WORK_TREE);
    assert ids == ["work"] + (["work_2"] + (["work_2"] + (["terminal_1"] + [])));
    assert ids[1] == ids[2];
  }

  /** The second and the third call of this program get the same id: a called name is the id of a repeated call. */
  lemma IdsCanCollide() returns (flow: Flow)
    ensures Semantics(WORKING) == Ok(flow) && flow.warnings == []
    ensures AllIds(Tree(WORKING)) == ["work", "work_2", "work_2", "terminal_1"]
    ensures !NamesApart(TallyOf(flow.steps, flow.terminals, flow.bindings))
  {
    flow := WorkFlow();
    hide Tree, Semantics, NamesApart, TallyOf, AllIds, NoDup;
    WorkTree();
    WorkIds();
    IdsAreDistinctExactly(WORKING, flow);
  }
}
