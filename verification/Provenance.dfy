/**
 Selectors in the graph, by dominance: on every walk the node that a selector names has been passed before the node
 that uses it, and is the one origin of the value that the program reads there.
 */
module Provenance {
  import opened Prelude
  import opened Text
  import opened Pseudocode
  import opened FlowSemantics
  import opened Elaboration
  import opened Scoping
  import opened DefiniteAssignment
  import opened WorkflowGraph
  import opened Lowering
  import opened Partition
  import opened Refinement
  import opened GraphSpec
  import opened ControlFlow
  import opened Correctness
  import opened Dataflow
  import opened UseSites

  // ----- What a run reads at each of its hops -----

  function CallsOf(path: seq<Hop>): set<Id> {
    set i | 0 <= i < |path| && path[i].CallHop? :: path[i].id
  }

  /** At hop number `i` the run reads `name`, with only calls of earlier hops made. */
  ghost predicate ReadAt(r: TreeRun, i: nat, name: string)
    requires i < |r.path|
  {
    exists k :: 0 <= k < |r.trace| && ReadsAs(r.trace, k, r.path[i].id, name) && CalledIn(r.trace[..k]) <= CallsOf(r.path[..i])
  }

  predicate ReadsAs(t: seq<Event>, k: nat, consumer: Id, name: string)
    requires k < |t|
  {
    t[k].ReadEv? && t[k].consumer == consumer && t[k].name == name
  }

  /** The step was taken as this hop, and then reads `name`: a branch evaluates its conditions up to the arm taken. */
  predicate StepReads(s: Step, hop: Hop, name: string) {
    s.id == hop.id &&
    match s
    case CallStep(_, call) => hop.CallHop? && name in CallRefs(call)
    case BranchStep(_, cases, _) =>
      hop.BranchHop? && exists c :: 0 <= c < |cases| && c <= hop.arm && name in CondRefs(cases[c].cond)
  }

  ghost predicate HopsRead(r: TreeRun, steps: seq<Step>) {
    CalledIn(r.trace) <= CallsOf(r.path) &&
    forall i :: 0 <= i < |r.path| ==> HopReads(r, i, steps)
  }

  ghost predicate HopReads(r: TreeRun, i: nat, steps: seq<Step>)
    requires i < |r.path|
  {
    exists s :: s in steps && s.id == r.path[i].id && (s.CallStep? <==> r.path[i].CallHop?) &&
      forall name :: StepReads(s, r.path[i], name) ==> ReadAt(r, i, name)
  }

  ghost function Then(r: TreeRun, q: TreeRun): TreeRun {
    TreeRun(r.path + q.path, r.trace + q.trace, q.after, q.stop)
  }

  lemma CallsConcat(a: seq<Hop>, b: seq<Hop>)
    ensures CallsOf(a + b) == CallsOf(a) + CallsOf(b)
  {
    var c := a + b;
    assert forall i :: 0 <= i < |a| ==> c[i] == a[i];
    assert forall i :: 0 <= i < |b| ==> c[|a| + i] == b[i];
    assert forall i :: |a| <= i < |c| ==> c[i] == b[i - |a|];
  }

  lemma ReadAtFirst(r: TreeRun, q: TreeRun, i: nat, name: string)
    requires i < |r.path| && ReadAt(r, i, name)
    ensures ReadAt(Then(r, q), i, name)
  {
    var k :| 0 <= k < |r.trace| && ReadsAs(r.trace, k, r.path[i].id, name) && CalledIn(r.trace[..k]) <= CallsOf(r.path[..i]);
    var w := Then(r, q);
    assert w.trace[..k] == r.trace[..k] && w.path[..i] == r.path[..i];
    assert ReadsAs(w.trace, k, w.path[i].id, name);
  }

  lemma ReadAtSecond(r: TreeRun, q: TreeRun, i: nat, name: string)
    requires CalledIn(r.trace) <= CallsOf(r.path) && i < |q.path| && ReadAt(q, i, name)
    ensures ReadAt(Then(r, q), |r.path| + i, name)
  {
    var k :| 0 <= k < |q.trace| && ReadsAs(q.trace, k, q.path[i].id, name) && CalledIn(q.trace[..k]) <= CallsOf(q.path[..i]);
    var w := Then(r, q);
    assert w.trace[..|r.trace| + k] == r.trace + q.trace[..k];
    assert w.path[..|r.path| + i] == r.path + q.path[..i];
    WrittenConcat(r.trace, q.trace[..k]);
    CallsConcat(r.path, q.path[..i]);
    assert ReadsAs(w.trace, |r.trace| + k, w.path[|r.path| + i].id, name);
  }

  lemma HopsReadConcat(r: TreeRun, q: TreeRun, a: seq<Step>, b: seq<Step>)
    requires HopsRead(r, a) && HopsRead(q, b)
    ensures HopsRead(Then(r, q), a + b)
  {
    hide ReadAt;
    var w := Then(r, q);
    WrittenConcat(r.trace, q.trace);
    CallsConcat(r.path, q.path);
    forall i | 0 <= i < |w.path|
      ensures HopReads(w, i, a + b)
    {
      if i < |r.path| {
        assert HopReads(r, i, a);
        var s :| s in a && s.id == r.path[i].id && (s.CallStep? <==> r.path[i].CallHop?) &&
          forall name :: StepReads(s, r.path[i], name) ==> ReadAt(r, i, name);
        forall name | StepReads(s, w.path[i], name)
          ensures ReadAt(w, i, name)
        {
          ReadAtFirst(r, q, i, name);
        }
        assert s in a + b;
      } else {
        var j := i - |r.path|;
        assert HopReads(q, j, b) && w.path[i] == q.path[j];
        var s :| s in b && s.id == q.path[j].id && (s.CallStep? <==> q.path[j].CallHop?) &&
          forall name :: StepReads(s, q.path[j], name) ==> ReadAt(q, j, name);
        forall name | StepReads(s, w.path[i], name)
          ensures ReadAt(w, i, name)
        {
          ReadAtSecond(r, q, j, name);
        }
        assert s in a + b;
      }
    }
  }

  lemma MoreSteps(r: TreeRun, a: seq<Step>, b: seq<Step>)
    requires HopsRead(r, a) && forall s :: s in a ==> s in b
    ensures HopsRead(r, b)
  {
    forall i | 0 <= i < |r.path|
      ensures HopReads(r, i, b)
    {
      assert HopReads(r, i, a);
    }
  }

  lemma {:induction false} BlockHopsRead(b: Block, s: RunState)
    ensures HopsRead(RunBlock(b, s), Steps(b))
    decreases b
  {
    if b.BCons? {
      var r := RunNode(b.head, s);
      NodeHopsRead(b.head, s);
      if r.stop.None? {
        BlockHopsRead(b.tail, r.after);
        HopsReadConcat(r, RunBlock(b.tail, r.after), NodeSteps(b.head), Steps(b.tail));
      } else {
        MoreSteps(r, NodeSteps(b.head), Steps(b));
      }
    }
  }

  lemma {:induction false} NodeHopsRead(n: Node, s: RunState)
    ensures HopsRead(RunNode(n, s), NodeSteps(n))
    decreases n
  {
    match n
    case CallN(id, call) => CallHopsRead(id, call, s);
    case BranchN(id, arms) =>
      var q := s.(picks := Tail(s.picks));
      var r := RunArms(id, arms, 0, Head(s.picks), q);
      ArmHopsRead(id, arms, 0, Head(s.picks), q);
      assert FlatBranch(id, arms) in NodeSteps(n);
      forall i | 0 <= i < |r.path|
        ensures HopReads(r, i, NodeSteps(n))
      {
        if i > 0 {
          assert HopReads(r, i, ArmSteps(arms));
        }
      }
    case _ =>
  }

  lemma CallHopsRead(id: Id, call: CallInfo, s: RunState)
    ensures HopsRead(RunNode(CallN(id, call), s), [CallStep(id, call)])
  {
    var r := RunNode(CallN(id, call), s);
    var seen := ReadEvents(id, CallRefs(call), s);
    assert CalledIn(r.trace) <= {id} && r.path[0] == CallHop(id, call);
    assert CallsOf(r.path) == {id};
    forall name | StepReads(CallStep(id, call), r.path[0], name)
      ensures ReadAt(r, 0, name)
    {
      var k :| 0 <= k < |CallRefs(call)| && CallRefs(call)[k] == name;
      assert r.trace[k] == seen[k];
      assert r.trace[..k] == seen[..k] && CalledIn(seen[..k]) == {};
      assert ReadsAs(r.trace, k, id, name);
    }
  }

  /** The first hop of a branch reads its conditions up to the arm taken; the other hops are those of the arm. */
  ghost predicate BranchReads(r: TreeRun, id: Id, arms: NodeArms, i: nat) {
    r.path != [] && r.path[0].BranchHop? && r.path[0].id == id && r.path[0].arm >= i &&
    CalledIn(r.trace) <= CallsOf(r.path) &&
    (forall name :: StepReads(BranchStep(id, FlatCases(arms, i), []), r.path[0].(arm := r.path[0].arm - i), name) ==> ReadAt(r, 0, name)) &&
    forall j :: 0 < j < |r.path| ==> HopReads(r, j, ArmSteps(arms))
  }

  lemma {:induction false} ArmHopsRead(id: Id, arms: NodeArms, i: nat, pick: nat, s: RunState)
    ensures BranchReads(RunArms(id, arms, i, pick, s), id, arms, i)
    decreases arms
  {
    match arms
    case CaseN(cond, body, rest) =>
      var r: TreeRun;
      if pick == i {
        BlockHopsRead(body, s.(at := Pos(id, CaseId(i))));
        r := EnteringReads(id, i, CaseId(i), body, s);
        MoreLater(r, Steps(body), ArmSteps(arms));
      } else {
        r := RunArms(id, rest, i + 1, pick, s);
        ArmHopsRead(id, rest, i + 1, pick, s);
        MoreLater(r, ArmSteps(rest), ArmSteps(arms));
      }
      CondHopsRead(id, cond, body, rest, i, s, r);
    case ElseN(body) =>
      BlockHopsRead(body, s.(at := Pos(id, FALSE)));
      var r := EnteringReads(id, i, FALSE, body, s);
  }

  lemma MoreLater(r: TreeRun, a: seq<Step>, b: seq<Step>)
    requires (forall j :: 0 < j < |r.path| ==> HopReads(r, j, a)) && forall s :: s in a ==> s in b
    ensures forall j :: 0 < j < |r.path| ==> HopReads(r, j, b)
  {
    forall j | 0 < j < |r.path|
      ensures HopReads(r, j, b)
    {
      assert HopReads(r, j, a);
    }
  }

  lemma EnteringReads(id: Id, i: nat, handle: string, body: Block, s: RunState) returns (r: TreeRun)
    requires HopsRead(RunBlock(body, s.(at := Pos(id, handle))), Steps(body))
    ensures r == Entering(id, i, handle, RunBlock(body, s.(at := Pos(id, handle))))
    ensures r.path != [] && r.path[0] == BranchHop(id, i, handle) && CalledIn(r.trace) <= CallsOf(r.path)
    ensures forall j :: 0 < j < |r.path| ==> HopReads(r, j, Steps(body))
  {
    var q := RunBlock(body, s.(at := Pos(id, handle)));
    r := Entering(id, i, handle, q);
    var first := TreeRun([BranchHop(id, i, handle)], [], q.after, None);
    var step := BranchStep(id, [], []);
    assert HopsRead(first, [step]) by {
      assert step in [step];
      assert HopReads(first, 0, [step]);
    }
    HopsReadConcat(first, q, [step], Steps(body));
    assert Then(first, q).trace == r.trace;
    assert Then(first, q) == r;
    forall j | 0 < j < |r.path|
      ensures HopReads(r, j, Steps(body))
    {
      LaterHop(first, q, r, j, Steps(body));
    }
  }

  /** After a first hop without reads the hops read what they did. */
  lemma LaterHop(first: TreeRun, q: TreeRun, r: TreeRun, j: nat, steps: seq<Step>)
    requires HopsRead(q, steps) && r == Then(first, q) && |first.path| == 1 && first.trace == [] && 0 < j < |r.path|
    ensures HopReads(r, j, steps)
  {
    hide ReadAt;
    var m := j - 1;
    assert HopReads(q, m, steps) && r.path[j] == q.path[m];
    var t :| t in steps && t.id == q.path[m].id && (t.CallStep? <==> q.path[m].CallHop?) &&
      forall name :: StepReads(t, q.path[m], name) ==> ReadAt(q, m, name);
    forall name | StepReads(t, r.path[j], name)
      ensures ReadAt(r, j, name)
    {
      NoCallsYet(first);
      ReadAtSecond(first, q, m, name);
    }
  }

  lemma NoCallsYet(r: TreeRun)
    requires r.trace == []
    ensures CalledIn(r.trace) <= CallsOf(r.path)
  {
  }

  /** The reads of a condition come before the rest of the branch. */
  lemma CondHopsRead(id: Id, cond: Condition, body: Block, rest: NodeArms, i: nat, s: RunState, r: TreeRun)
    requires r.path != [] && r.path[0].BranchHop? && r.path[0].id == id && CalledIn(r.trace) <= CallsOf(r.path)
    requires if r.path[0].arm == i then true else BranchReads(r, id, rest, i + 1)
    requires forall j :: 0 < j < |r.path| ==> HopReads(r, j, ArmSteps(CaseN(cond, body, rest)))
    ensures BranchReads(r.(trace := ReadEvents(id, CondRefs(cond), s) + r.trace), id, CaseN(cond, body, rest), i)
  {
    var arms := CaseN(cond, body, rest);
    var seen := ReadEvents(id, CondRefs(cond), s);
    var w := r.(trace := seen + r.trace);
    assert CalledIn(seen) == {};
    WrittenConcat(seen, r.trace);
    forall j, name | 0 <= j < |r.path| && ReadAt(r, j, name)
      ensures ReadAt(w, j, name)
    {
      Delayed(seen, r, j, name);
    }
    forall name | StepReads(BranchStep(id, FlatCases(arms, i), []), w.path[0].(arm := w.path[0].arm - i), name)
      ensures ReadAt(w, 0, name)
    {
      var cases := FlatCases(arms, i);
      var c :| 0 <= c < |cases| && c <= w.path[0].arm - i && name in CondRefs(cases[c].cond);
      if c == 0 {
        var k :| 0 <= k < |CondRefs(cond)| && CondRefs(cond)[k] == name;
        assert w.trace[k] == seen[k] && w.trace[..k] == seen[..k] && CalledIn(seen[..k]) == {};
        assert ReadsAs(w.trace, k, id, name);
      } else {
        assert FlatCases(rest, i + 1)[c - 1] == cases[c];
        assert StepReads(BranchStep(id, FlatCases(rest, i + 1), []), r.path[0].(arm := r.path[0].arm - (i + 1)), name);
      }
    }
    forall j | 0 < j < |w.path|
      ensures HopReads(w, j, ArmSteps(arms))
    {
      assert HopReads(r, j, ArmSteps(arms));
    }
  }

  lemma Delayed(seen: seq<Event>, r: TreeRun, i: nat, name: string)
    requires CalledIn(seen) == {} && i < |r.path| && ReadAt(r, i, name)
    ensures ReadAt(r.(trace := seen + r.trace), i, name)
  {
    var k :| 0 <= k < |r.trace| && ReadsAs(r.trace, k, r.path[i].id, name) && CalledIn(r.trace[..k]) <= CallsOf(r.path[..i]);
    var w := r.(trace := seen + r.trace);
    assert w.trace[..|seen| + k] == seen + r.trace[..k];
    WrittenConcat(seen, r.trace[..k]);
    assert ReadsAs(w.trace, |seen| + k, r.path[i].id, name);
  }

  // ----- The end of a run -----

  /** A terminal that puts out a value has read the names in it at the last place of the run. */
  ghost predicate StopReads(r: TreeRun) {
    r.stop.Some? ==> forall name :: name in OptRefs(r.stop.value.output.value) ==> StopRead(r, name)
  }

  ghost predicate StopRead(r: TreeRun, name: string)
    requires r.stop.Some?
  {
    exists k :: 0 <= k < |r.trace| && r.trace[k] == ReadEv(r.stop.value.id, name, r.after.env, r.after.at)
  }

  /** Terminals read what they put out. */
  ghost predicate TermsRead(b: Block)
    decreases b
  {
    match b
    case BNil => true
    case BCons(n, rest) => TermReads(n) && TermsRead(rest)
  }

  ghost predicate TermReads(n: Node)
    decreases n
  {
    match n
    case TermN(_, output, step, names) =>
      (forall x :: x in OptRefs(output.value) ==> x in names) && (step.Some? ==> output.value.None?)
    case BranchN(_, arms) => ArmTermsRead(arms)
    case _ => true
  }

  ghost predicate ArmTermsRead(arms: NodeArms)
    decreases arms
  {
    match arms
    case CaseN(_, body, rest) => TermsRead(body) && ArmTermsRead(rest)
    case ElseN(body) => TermsRead(body)
  }

  lemma {:induction false} TermsReadAppend(a: Block, b: Block)
    requires TermsRead(a) && TermsRead(b)
    ensures TermsRead(Append(a, b))
    decreases a
  {
    if a.BCons? {
      TermsReadAppend(a.tail, b);
    }
  }

  lemma {:induction false} ElabTermsRead(c: Counters, p: Stmts, tail: bool, terminals: set<string>)
    ensures TermsRead(Elab(c, p, tail, terminals).1)
    decreases p
  {
    if p.SCons? {
      var piece := ElabStmt(c, p.head, tail && p.tail.SNil?, terminals);
      StmtTermsRead(c, p.head, tail && p.tail.SNil?, terminals);
      if !piece.ends {
        ElabTermsRead(piece.next, p.tail, tail, terminals);
        TermsReadAppend(piece.block, Elab(piece.next, p.tail, tail, terminals).1);
      }
    }
  }

  lemma {:induction false} StmtTermsRead(c: Counters, s: Stmt, last: bool, terminals: set<string>)
    ensures TermsRead(ElabStmt(c, s, last, terminals).block)
    decreases s
  {
    match s
    case CallStmt(call) =>
      if IsTerminalCall(call, terminals) {
        var values := CallValues(call);
        if values != [] {
          assert ValueRefs(values) == Refs(values[0]) + ValueRefs(values[1..]);
        }
      }
    case IfStmt(arms) => ArmsTermsRead(CountBranch(c), arms, last, terminals);
    case _ =>
  }

  lemma {:induction false} ArmsTermsRead(c: Counters, arms: Arms, last: bool, terminals: set<string>)
    ensures ArmTermsRead(ElabArms(c, arms, last, terminals).1)
    decreases arms
  {
    match arms
    case Case(_, body, rest) =>
      ElabTermsRead(c, body, last, terminals);
      ArmsTermsRead(Elab(c, body, last, terminals).0, rest, last, terminals);
    case Else(body) =>
      ElabTermsRead(c, body, last, terminals);
  }

  lemma LaterStopReads(t: seq<Event>, r: TreeRun)
    requires StopReads(r)
    ensures StopReads(r.(trace := t + r.trace))
  {
    if r.stop.Some? {
      forall name | name in OptRefs(r.stop.value.output.value)
        ensures StopRead(r.(trace := t + r.trace), name)
      {
        assert StopRead(r, name);
        var k :| 0 <= k < |r.trace| && r.trace[k] == ReadEv(r.stop.value.id, name, r.after.env, r.after.at);
        assert (t + r.trace)[|t| + k] == r.trace[k];
      }
    }
  }

  lemma {:induction false} BlockStopReads(b: Block, s: RunState)
    requires TermsRead(b)
    ensures StopReads(RunBlock(b, s))
    decreases b
  {
    if b.BCons? {
      var r := RunNode(b.head, s);
      NodeStopReads(b.head, s);
      if r.stop.None? {
        BlockStopReads(b.tail, r.after);
        LaterStopReads(r.trace, RunBlock(b.tail, r.after));
      }
    }
  }

  lemma {:induction false} NodeStopReads(n: Node, s: RunState)
    requires TermReads(n)
    ensures StopReads(RunNode(n, s))
    decreases n
  {
    match n
    case TermN(id, output, step, names) =>
      forall name | name in OptRefs(output.value)
        ensures StopRead(RunNode(n, s), name)
      {
        var k :| 0 <= k < |names| && names[k] == name;
        assert RunNode(n, s).trace[k] == ReadEv(id, name, s.env, s.at);
      }
    case BranchN(id, arms) => ArmStopReads(id, arms, 0, Head(s.picks), s.(picks := Tail(s.picks)));
    case _ =>
  }

  lemma {:induction false} ArmStopReads(id: Id, arms: NodeArms, i: nat, pick: nat, s: RunState)
    requires ArmTermsRead(arms)
    ensures StopReads(RunArms(id, arms, i, pick, s))
    decreases arms
  {
    match arms
    case CaseN(cond, body, rest) =>
      var r: TreeRun;
      if pick == i {
        BlockStopReads(body, s.(at := Pos(id, CaseId(i))));
        LaterStopReads([], RunBlock(body, s.(at := Pos(id, CaseId(i)))));
        r := Entering(id, i, CaseId(i), RunBlock(body, s.(at := Pos(id, CaseId(i)))));
        assert [] + r.trace == r.trace;
        assert StopReads(r);
      } else {
        ArmStopReads(id, rest, i + 1, pick, s);
        r := RunArms(id, rest, i + 1, pick, s);
      }
      LaterStopReads(ReadEvents(id, CondRefs(cond), s), r);
    case ElseN(body) =>
      BlockStopReads(body, s.(at := Pos(id, FALSE)));
      var r := RunBlock(body, s.(at := Pos(id, FALSE)));
      assert StopReads(Entering(id, i, FALSE, r)) by {
        if r.stop.Some? {
          forall name | name in OptRefs(r.stop.value.output.value)
            ensures StopRead(Entering(id, i, FALSE, r), name)
          {
            assert StopRead(r, name);
          }
        }
      }
  }

  // ----- The selectors of the graph -----

  /** At hop number `i` the program reads `name`, and the selector names its one origin, made at an earlier hop. */
  ghost predicate RightAt(r: TreeRun, i: nat, name: string, selector: Selector, inputs: seq<string>)
    requires i < |r.path|
  {
    exists k :: 0 <= k < |r.trace| && ReadsAs(r.trace, k, r.path[i].id, name) && CalledIn(r.trace[..k]) <= CallsOf(r.path[..i]) &&
      SelectsOrigin(r.trace, k, selector, inputs)
  }

  /**
   The node of the step selects rightly at hop number `i`: reference number `j` of a prompt for variable number `j` of
   the call's arguments, and condition number `d` of case number `c` for the variable of that comparison, as far as the
   run evaluates the cases.
   */
  ghost predicate StepRight(r: TreeRun, i: nat, s: Step, n: GNode, inputs: seq<string>)
    requires i < |r.path|
  {
    match s
    case CallStep(_, call) =>
      n.LlmNode? && AllRightAt(r, i, OccurringValues(CallValues(call)), RefsIn(n.prompt), inputs)
    case BranchStep(_, cases, _) =>
      n.IfElseNode? && |n.cases| == |cases| && r.path[i].BranchHop? &&
      forall c :: 0 <= c < |cases| && c <= r.path[i].arm ==> CaseRight(r, i, cases[c], n.cases[c], inputs)
  }

  ghost predicate AllRightAt(r: TreeRun, i: nat, names: seq<string>, selectors: seq<Selector>, inputs: seq<string>)
    requires i < |r.path|
  {
    |names| == |selectors| && forall j :: 0 <= j < |names| ==> RightAt(r, i, names[j], selectors[j], inputs)
  }

  ghost predicate CaseRight(r: TreeRun, i: nat, c: FlatCase, built: GraphCase, inputs: seq<string>)
    requires i < |r.path|
  {
    c.cond.Parsed? && |built.conditions| == |c.cond.comparisons| &&
    forall d :: 0 <= d < |built.conditions| ==> RightAt(r, i, c.cond.comparisons[d].name, built.conditions[d].selector, inputs)
  }

  /** The selector is what the choice says: the start and the name, or an output of the call. */
  predicate Takes(selector: Selector, name: string, c: Choice) {
    match c
    case FromStart => selector == [START, name]
    case FromCall(id) => |selector| >= 2 && selector[0] == id
    case Refused => false
  }

  lemma RightSelects(t: seq<Event>, k: nat, c: Choice, inputs: seq<string>, selector: Selector)
    requires TraceSound(t, inputs) && k < |t| && t[k].ReadEv? && Right(t[k].env, t[k].name, c) && Takes(selector, t[k].name, c)
    ensures SelectsOrigin(t, k, selector, inputs)
  {
    WrittenPrefix(t, k);
    assert Within(t[k].env, {} + Written(t[..k]), {} + CalledIn(t[..k]));
  }

  /** A variable that the step resolves is read at the hop, and a selector for it names its origin there. */
  lemma UseIsRight(r: TreeRun, i: nat, s: Step, uses: Uses, final: Producers, name: string, selector: Selector, inputs: seq<string>)
    requires TraceRight(r.trace, uses, final) && TraceSound(r.trace, inputs)
    requires i < |r.path| && ReadAt(r, i, name) && s.id == r.path[i].id
    requires (s.id, name) in uses.steps && Takes(selector, name, StepChoice(final, name))
    ensures RightAt(r, i, name, selector, inputs)
  {
    var k :| 0 <= k < |r.trace| && ReadsAs(r.trace, k, r.path[i].id, name) && CalledIn(r.trace[..k]) <= CallsOf(r.path[..i]);
    assert ReadRight(r.trace[k], uses, final);
    RightSelects(r.trace, k, StepChoice(final, name), inputs, selector);
  }

  lemma OutputTakes(ctx: Context, name: string, selector: Selector)
    requires ContextOk(ctx) && IsOutput(ctx, name, selector)
    ensures Takes(selector, name, StepChoice(ctx.variables, name))
  {
  }

  lemma SourceTakes(ctx: Context, c: Comparison, selector: Selector)
    requires ContextOk(ctx) && IsSource(ctx, c, selector)
    ensures Takes(selector, c.name, StepChoice(ctx.variables, c.name))
  {
  }

  /** All that holds of a run and of the step taken at one of its hops. */
  ghost predicate HopKnown(ctx: Context, r: TreeRun, i: nat, s: Step, n: GNode, uses: Uses, inputs: seq<string>) {
    ContextOk(ctx) && TraceRight(r.trace, uses, ctx.variables) && TraceSound(r.trace, inputs) &&
    i < |r.path| && s.id == r.path[i].id && (s.CallStep? <==> r.path[i].CallHop?) && BuildStepNode(ctx, s) == Ok(n) &&
    (forall name :: StepReads(s, r.path[i], name) ==> ReadAt(r, i, name)) &&
    forall name :: name in StepNames(s) ==> (s.id, name) in uses.steps
  }

  lemma CallRight(ctx: Context, r: TreeRun, i: nat, s: Step, n: GNode, uses: Uses, inputs: seq<string>)
    requires HopKnown(ctx, r, i, s, n, uses, inputs) && s.CallStep?
    ensures StepRight(r, i, s, n, inputs)
  {
    hide TraceRight, TraceSound, ReadAt, RightAt, IsOutput, Takes;
    var values := CallValues(s.call);
    PromptRefers(ctx, s.call);
    OccurringAreRefs(values);
    var names, selectors := OccurringValues(values), RefsIn(n.prompt);
    forall j | 0 <= j < |names|
      ensures RightAt(r, i, names[j], selectors[j], inputs)
    {
      assert names[j] in names;
      assert StepReads(s, r.path[i], names[j]) && names[j] in StepNames(s);
      assert IsOutput(ctx, names[j], selectors[j]);
      OutputTakes(ctx, names[j], selectors[j]);
      UseIsRight(r, i, s, uses, ctx.variables, names[j], selectors[j], inputs);
    }
  }

  lemma BranchRight(ctx: Context, r: TreeRun, i: nat, s: Step, n: GNode, uses: Uses, inputs: seq<string>)
    requires HopKnown(ctx, r, i, s, n, uses, inputs) && s.BranchStep?
    ensures StepRight(r, i, s, n, inputs)
  {
    hide TraceRight, TraceSound, ReadAt, RightAt, IsSource, Takes;
    forall c | 0 <= c < |s.cases| && c <= r.path[i].arm
      ensures CaseRight(r, i, s.cases[c], n.cases[c], inputs)
    {
      CasesRefer(ctx, s.id, s.cases, c);
      var cs, conditions := s.cases[c].cond.comparisons, n.cases[c].conditions;
      forall d | 0 <= d < |cs|
        ensures RightAt(r, i, cs[d].name, conditions[d].selector, inputs)
      {
        ComparisonUsed(s.cases, c, d);
        assert StepReads(s, r.path[i], cs[d].name) && cs[d].name in StepNames(s);
        assert IsSource(ctx, cs[d], conditions[d].selector);
        SourceTakes(ctx, cs[d], conditions[d].selector);
        UseIsRight(r, i, s, uses, ctx.variables, cs[d].name, conditions[d].selector, inputs);
      }
    }
  }

  lemma {:induction false} ComparisonUsed(cases: seq<FlatCase>, c: nat, d: nat)
    requires c < |cases| && cases[c].cond.Parsed? && d < |cases[c].cond.comparisons|
    ensures cases[c].cond.comparisons[d].name in CondRefs(cases[c].cond)
    ensures cases[c].cond.comparisons[d].name in CaseNames(cases)
    decreases |cases|
  {
    ComparisonNamed(cases[c].cond.comparisons, d);
    if c > 0 {
      ComparisonUsed(cases[1..], c - 1, d);
    } else {
      assert CondNames(cases[0].cond)[d] == cases[0].cond.comparisons[d].name;
    }
  }

  lemma StepNode(p: Program, flow: Flow, ctx: Context, g: Building, h: Building, s: Step) returns (m: GNode)
    requires Ready(p, flow, ctx, g) && Grew(g, h) && s in flow.steps
    ensures m in h.nodes && BuildStepNode(ctx, s) == Ok(m)
  {
    hide Holds, Ranked, BuildStepNode;
    PreparedNodes(p, flow, ctx, g);
    var k :| 0 <= k < |flow.steps| && flow.steps[k] == s;
    m := g.nodes[1 + k];
    assert BuildStepNode(ctx, flow.steps[k]) == Ok(g.nodes[1 + k]);
    assert h.nodes[1 + k] == m;
  }

  /**
   Whenever the final map fits every use, then at any hop of any run each selector of the node passed there, place by
   place, names the one call that the value of the variable at that place comes from, made at an earlier hop; or it
   names an input, never assigned before.
   */
  lemma SelectorsAreOrigins(p: Program, flow: Flow, graph: Graph, picks: seq<nat>)
    requires Pipeline(p) == Ok((flow, graph)) && FinalMapFits(p, flow)
    ensures var r := RunBlock(Tree(p), Initial(picks));
            forall i, s, n :: 0 <= i < |r.path| && s in flow.steps && n in graph.nodes && s.id == n.id == r.path[i].id ==>
              StepRight(r, i, s, n, InputNames(flow.inputs))
  {
    var ctx, g, h := AcceptedFacts(p, flow, graph);
    hide Ready, Lowers, StepRight, FinalMapFits, HopsRead, TraceRight, TraceSound, BuildStepNode, Pipeline, GraphOk, NetOf;
    BlockGrows(ctx, Tree(p), [ENTRY], g);
    var r := RunBlock(Tree(p), Initial(picks));
    BlockHopsRead(Tree(p), Initial(picks));
    RunIsRight(p, flow, ctx, g, picks);
    ReadyIds(p, flow, ctx, g);
    forall i, s, n | 0 <= i < |r.path| && s in flow.steps && n in graph.nodes && s.id == n.id == r.path[i].id
      ensures StepRight(r, i, s, n, InputNames(flow.inputs))
    {
      var m := StepNode(p, flow, ctx, g, h, s);
      SameNode(h, m, n);
      HopRight(ctx, r, i, flow, s, n);
    }
  }

  lemma HopRight(ctx: Context, r: TreeRun, i: nat, flow: Flow, s: Step, n: GNode)
    requires ContextOk(ctx) && ctx.variables == flow.variables && NoDup(StepIds(flow.steps)) && HopsRead(r, flow.steps)
    requires TraceRight(r.trace, UsesOf(flow.steps, flow.terminals), flow.variables) && TraceSound(r.trace, InputNames(flow.inputs))
    requires i < |r.path| && s in flow.steps && s.id == r.path[i].id && BuildStepNode(ctx, s) == Ok(n)
    ensures StepRight(r, i, s, n, InputNames(flow.inputs))
  {
    hide StepRight, TraceRight, TraceSound, BuildStepNode, ReadAt;
    OwnHop(r, i, flow.steps, s);
    var uses := UsesOf(flow.steps, flow.terminals);
    assert HopKnown(ctx, r, i, s, n, uses, InputNames(flow.inputs));
    if s.CallStep? {
      CallRight(ctx, r, i, s, n, uses, InputNames(flow.inputs));
    } else {
      BranchRight(ctx, r, i, s, n, uses, InputNames(flow.inputs));
    }
  }

  lemma ReadyIds(p: Program, flow: Flow, ctx: Context, g: Building)
    requires Ready(p, flow, ctx, g)
    ensures NoDup(StepIds(flow.steps))
  {
    FlowOfReady(p, flow, ctx, g);
    KindsApart(map[], Tree(p));
  }

  /** With distinct ids, the step that reads at a hop is the one with the hop's id. */
  lemma OwnHop(r: TreeRun, i: nat, steps: seq<Step>, s: Step)
    requires HopsRead(r, steps) && i < |r.path| && NoDup(StepIds(steps)) && s in steps && s.id == r.path[i].id
    ensures (s.CallStep? <==> r.path[i].CallHop?) && forall name :: StepReads(s, r.path[i], name) ==> ReadAt(r, i, name)
  {
    hide ReadAt, NoDup;
    assert HopReads(r, i, steps);
    var q :| q in steps && q.id == r.path[i].id && (q.CallStep? <==> r.path[i].CallHop?) &&
      forall name :: StepReads(q, r.path[i], name) ==> ReadAt(r, i, name);
    SameStepId(steps, q, s);
  }

  lemma SameStepId(steps: seq<Step>, q: Step, s: Step)
    requires NoDup(StepIds(steps)) && q in steps && s in steps && q.id == s.id
    ensures q == s
  {
    var j :| 0 <= j < |steps| && steps[j] == q;
    var k :| 0 <= k < |steps| && steps[k] == s;
    assert StepIds(steps)[j] == StepIds(steps)[k];
  }

  lemma RunIsRight(p: Program, flow: Flow, ctx: Context, g: Building, picks: seq<nat>)
    requires Ready(p, flow, ctx, g) && FinalMapFits(p, flow)
    ensures ContextOk(ctx) && ctx.variables == flow.variables && flow.steps == Steps(Tree(p))
    ensures TraceRight(RunBlock(Tree(p), Initial(picks)).trace, UsesOf(flow.steps, flow.terminals), flow.variables)
    ensures TraceSound(RunBlock(Tree(p), Initial(picks)).trace, InputNames(flow.inputs))
  {
    FlowOfReady(p, flow, ctx, g);
    FinalMapIsRightExactly(p, flow);
    RunsAreSound(p, flow, picks);
  }

  lemma RightDominates(r: TreeRun, i: nat, name: string, selector: Selector, inputs: seq<string>)
    requires i < |r.path| && RightAt(r, i, name, selector, inputs)
    ensures |selector| > 0 && (selector[0] == START || selector[0] in CallsOf(r.path[..i]))
  {
  }

  /** The node reads this selector when it is passed as this hop. */
  predicate UsesAt(n: GNode, hop: Hop, selector: Selector) {
    n.id == hop.id &&
    ((n.LlmNode? && hop.CallHop? && selector in RefsIn(n.prompt)) ||
     (n.IfElseNode? && hop.BranchHop? &&
      exists c, d :: 0 <= c < |n.cases| && c <= hop.arm && 0 <= d < |n.cases[c].conditions| && n.cases[c].conditions[d].selector == selector))
  }

  /** What a node uses it uses at some place, and rightly. */
  lemma UseHasPlace(r: TreeRun, i: nat, s: Step, n: GNode, selector: Selector, inputs: seq<string>) returns (name: string)
    requires i < |r.path| && StepRight(r, i, s, n, inputs) && UsesAt(n, r.path[i], selector)
    ensures RightAt(r, i, name, selector, inputs)
  {
    hide RightAt;
    match s
    case CallStep(_, call) =>
      var j :| 0 <= j < |RefsIn(n.prompt)| && RefsIn(n.prompt)[j] == selector;
      name := OccurringValues(CallValues(call))[j];
    case BranchStep(_, cases, _) =>
      var c, d :| 0 <= c < |n.cases| && c <= r.path[i].arm && 0 <= d < |n.cases[c].conditions| && n.cases[c].conditions[d].selector == selector;
      assert CaseRight(r, i, cases[c], n.cases[c], inputs);
      name := cases[c].cond.comparisons[d].name;
  }

  /** In the graph alone: on the walk of any branch outcomes, a node that a selector names has been passed before its use. */
  lemma SelectorsDominate(p: Program, flow: Flow, graph: Graph, picks: seq<nat>)
    returns (path: seq<Hop>, end: GNode)
    requires Pipeline(p) == Ok((flow, graph)) && FinalMapFits(p, flow)
    ensures IsWalk(graph, picks, path, end)
    ensures forall i, n, selector :: 0 <= i < |path| && n in graph.nodes && UsesAt(n, path[i], selector) ==>
              |selector| > 0 && (selector[0] == START || selector[0] in CallsOf(path[..i]))
  {
    hide *;
    var dest, ctx;
    path, dest, end, ctx := ControlFlowPreserved(p, flow, graph, picks);
    SelectorsAreOrigins(p, flow, graph, picks);
    BlockHopsRead(Tree(p), Initial(picks));
    SemanticsLists(p, flow, graph);
    RightIsPassed(RunBlock(Tree(p), Initial(picks)), flow.steps, graph.nodes, InputNames(flow.inputs));
  }

  lemma RightIsPassed(r: TreeRun, steps: seq<Step>, nodes: seq<GNode>, inputs: seq<string>)
    requires HopsRead(r, steps)
    requires forall i, s, n :: 0 <= i < |r.path| && s in steps && n in nodes && s.id == n.id == r.path[i].id ==> StepRight(r, i, s, n, inputs)
    ensures forall i, n, selector :: 0 <= i < |r.path| && n in nodes && UsesAt(n, r.path[i], selector) ==>
              |selector| > 0 && (selector[0] == START || selector[0] in CallsOf(r.path[..i]))
  {
    hide HopsRead, StepRight, UsesAt;
    forall i, n, selector | 0 <= i < |r.path| && n in nodes && UsesAt(n, r.path[i], selector)
      ensures |selector| > 0 && (selector[0] == START || selector[0] in CallsOf(r.path[..i]))
    {
      var s := StepAtHop(r, i, steps);
      UseHasId(n, r.path[i], selector);
      var name := UseHasPlace(r, i, s, n, selector, inputs);
      RightDominates(r, i, name, selector, inputs);
    }
  }

  lemma StepAtHop(r: TreeRun, i: nat, steps: seq<Step>) returns (s: Step)
    requires HopsRead(r, steps) && i < |r.path|
    ensures s in steps && s.id == r.path[i].id
  {
    assert HopReads(r, i, steps);
    s :| s in steps && s.id == r.path[i].id;
  }

  lemma UseHasId(n: GNode, hop: Hop, selector: Selector)
    requires UsesAt(n, hop, selector)
    ensures n.id == hop.id
  {
  }

  // ----- The selectors of the end nodes -----

  lemma {:induction false} StandsAtLastHop(g: Graph, from: Pos, picks: seq<nat>, path: seq<Hop>, dest: Pos, left: seq<nat>)
    requires Follows(g, from, picks, path, dest, left)
    ensures dest == if path == [] then from else Leaving(path[|path| - 1])
    decreases |path|
  {
    if path != [] {
      StandsAtLastHop(g, Leaving(path[0]), Picked(path[0], picks), path[1..], dest, left);
    }
  }

  /** The run reads this name at its last place, and the selector names the one origin of the value. */
  ghost predicate OutputRead(r: TreeRun, dest: Pos, name: string, selector: Selector, inputs: seq<string>) {
    exists k :: 0 <= k < |r.trace| && r.trace[k].ReadEv? && r.trace[k].name == name && r.trace[k].env == r.after.env &&
      r.trace[k].at == dest && SelectsOrigin(r.trace, k, selector, inputs)
  }

  /**
   What the end node puts out is what the run puts out: the value of the one variable in the output, selected by its
   one origin on this run, or the output of the call that the run made last.
   */
  ghost predicate EndSelects(r: TreeRun, dest: Pos, output: Output, selector: Selector, inputs: seq<string>) {
    match output.value
    case Some(v) => |Refs(v)| == 1 && OutputRead(r, dest, Refs(v)[0], selector, inputs)
    case None => |selector| == 2 && r.path != [] && r.path[|r.path| - 1].id == selector[0] == dest.node
  }

  lemma EndTakes(ctx: Context, t: Terminal, end: GNode, dest: Pos, alone: bool)
    requires ContextOk(ctx) && MadeFrom(ctx, end, t, dest, alone) && t.outputStep.None?
    ensures |OptRefs(t.output.value)| == 1
    ensures var name := OptRefs(t.output.value)[0]; Takes(end.selector, name, EndChoice(ctx.variables, name, dest.node))
  {
  }

  lemma EndOutput(ctx: Context, r: TreeRun, end: GNode, alone: bool, uses: Uses, inputs: seq<string>)
    requires ContextOk(ctx) && r.stop.Some? && MadeFrom(ctx, end, r.stop.value, r.after.at, alone)
    requires r.stop.value.outputStep.Some? ==> r.stop.value.output.value.None?
    requires TraceRight(r.trace, uses, ctx.variables) && TraceSound(r.trace, inputs) && StopReads(r)
    requires forall name :: name in EndNames(r.stop.value.output) ==> (r.stop.value.id, name) in uses.ends
    requires r.after.at == if r.path == [] then ENTRY else Leaving(r.path[|r.path| - 1])
    ensures EndSelects(r, r.after.at, r.stop.value.output, end.selector, inputs)
  {
    var t, dest := r.stop.value, r.after.at;
    if t.output.value.Some? {
      EndTakes(ctx, t, end, dest, alone);
      var name := OptRefs(t.output.value)[0];
      assert StopRead(r, name);
      var k :| 0 <= k < |r.trace| && r.trace[k] == ReadEv(t.id, name, r.after.env, dest);
      assert ReadRight(r.trace[k], uses, ctx.variables);
      RightSelects(r.trace, k, EndChoice(ctx.variables, name, dest.node), inputs, end.selector);
    }
  }

  lemma EndSelectorsAreOrigins(p: Program, flow: Flow, graph: Graph, picks: seq<nat>)
    returns (path: seq<Hop>, dest: Pos, end: GNode)
    requires Pipeline(p) == Ok((flow, graph)) && FinalMapFits(p, flow)
    ensures IsWalk(graph, picks, path, end) && path == RunBlock(Tree(p), Initial(picks)).path
    ensures Run(p.body, p.terminals, picks).output.Some?
    ensures EndSelects(RunBlock(Tree(p), Initial(picks)), dest, Run(p.body, p.terminals, picks).output.value, end.selector, InputNames(flow.inputs))
    ensures end.output == match Run(p.body, p.terminals, picks).output.value.name
                          case None => "result"
                          case Some(name) => if name == "" then "result" else name
  {
    var ctx;
    path, dest, end, ctx := ControlFlowPreserved(p, flow, graph, picks);
    var ctx', g, h := AcceptedFacts(p, flow, graph);
    RunIsRight(p, flow, ctx', g, picks);
    ElabTermsRead(ZERO, p.body, true, p.terminals);
    BlockStopReads(Tree(p), Initial(picks));
    LoadedContext(flow, ctx);
    var r := RunBlock(Tree(p), Initial(picks));
    SemanticsLists(p, flow, graph);
    hide *;
    var alone := StopNode(flow, ctx, end, r, dest);
    TermsSplit(Tree(p), r.stop.value);
    StandsAtLastHop(graph, ENTRY, picks, path, dest, r.after.picks);
    EndUsed(flow.steps, flow.terminals, r.stop.value);
    EndOutput(ctx, r, end, alone, UsesOf(flow.steps, flow.terminals), InputNames(flow.inputs));
  }

  lemma EndUsed(steps: seq<Step>, ts: seq<Terminal>, t: Terminal)
    requires t in ts
    ensures forall name :: name in EndNames(t.output) ==> (t.id, name) in UsesOf(steps, ts).ends
  {
  }

  lemma LoadedContext(flow: Flow, ctx: Context)
    requires Loaded(flow, ctx)
    ensures ContextOk(ctx) && ctx.variables == flow.variables
  {
  }

  lemma StopNode(flow: Flow, ctx: Context, end: GNode, r: TreeRun, dest: Pos) returns (alone: bool)
    requires ContextOk(ctx) && EndOf(flow, ctx, end, r, dest)
    ensures r.stop.Some? && r.stop.value in flow.terminals && dest == r.after.at && MadeFrom(ctx, end, r.stop.value, dest, alone)
    ensures end.output == match r.stop.value.output.name case None => "result" case Some(name) => if name == "" then "result" else name
  {
    alone :| MadeFrom(ctx, end, r.stop.value, r.after.at, alone);
  }

  /** A terminal that names an output step has no output value. */
  lemma {:induction false} TermsSplit(b: Block, t: Terminal)
    requires TermsRead(b) && t in Terminals(b)
    ensures t.outputStep.Some? ==> t.output.value.None?
    decreases b
  {
    if t in NodeTerminals(b.head) {
      match b.head
      case BranchN(_, arms) => ArmTermsSplit(arms, t);
      case _ =>
    } else {
      TermsSplit(b.tail, t);
    }
  }

  lemma {:induction false} ArmTermsSplit(arms: NodeArms, t: Terminal)
    requires ArmTermsRead(arms) && t in ArmTerminals(arms)
    ensures t.outputStep.Some? ==> t.output.value.None?
    decreases arms
  {
    match arms
    case CaseN(_, body, rest) =>
      if t in Terminals(body) {
        TermsSplit(body, t);
      } else {
        ArmTermsSplit(rest, t);
      }
    case ElseN(body) => TermsSplit(body, t);
  }
}
