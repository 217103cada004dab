/**
 Exactly when the final map of producers is the right one to resolve a variable with at the place of its use.

 The graph builder resolves every call argument, every condition and every output of the program with the map that is
 left at the end. A forward analysis of the program says what all runs that get to a use have in common; the final map
 is right for all uses on all runs if and only if it fits that.
 */
module UseSites {
  import opened Prelude
  import opened Text
  import opened Pseudocode
  import opened FlowSemantics
  import opened Scoping
  import opened ReachingProducers
  import opened OriginTracking
  import opened Correctness
  import opened Dataflow
  import opened RunFacts

  // ----- What the graph builder takes a variable from -----

  datatype Choice = FromStart | FromCall(id: Id) | Refused

  /** At a call or a condition. */
  function StepChoice(final: Producers, name: string): Choice {
    var sources := GetOr(final, name, []);
    if sources == [] then FromStart else if |sources| == 1 then FromCall(sources[0]) else Refused
  }

  /** At a terminal that is entered from the step `last`. */
  function EndChoice(final: Producers, name: string, last: Id): Choice {
    var sources := GetOr(final, name, []);
    if |sources| > 1 && last in sources then FromCall(last) else StepChoice(final, name)
  }

  /** The choice is the one origin of the value, or the start for a name that has not been assigned. */
  predicate Right(e: Env, name: string, c: Choice) {
    match c
    case FromStart => name !in e
    case FromCall(id) => name in e && e[name] == {id}
    case Refused => true
  }

  /** The variables that a step's selectors stand for: those of a call's arguments and those that conditions compare. */
  function StepNames(s: Step): seq<string> {
    match s
    case CallStep(_, call) => CallRefs(call)
    case BranchStep(_, cases, _) => CaseNames(cases)
  }

  function CaseNames(cases: seq<FlatCase>): seq<string> {
    if cases == [] then [] else CondNames(cases[0].cond) + CaseNames(cases[1..])
  }

  function CondNames(c: Condition): seq<string> {
    if c.Parsed? then seq(|c.comparisons|, i requires 0 <= i < |c.comparisons| => c.comparisons[i].name) else []
  }

  /** The variable that a terminal puts out; without one the graph builder refuses the terminal or takes a step's output. */
  function EndNames(output: Output): seq<string> {
    if |OptRefs(output.value)| == 1 then OptRefs(output.value) else []
  }

  /** The names that each step, and each terminal, resolves. */
  datatype Uses = Uses(steps: set<(Id, string)>, ends: set<(Id, string)>)

  function UsesOf(steps: seq<Step>, ts: seq<Terminal>): Uses {
    Uses(set s, name | s in steps && name in StepNames(s) :: (s.id, name),
         set t, name | t in ts && name in EndNames(t.output) :: (t.id, name))
  }

  predicate ReadRight(e: Event, uses: Uses, final: Producers) {
    e.ReadEv? ==>
      ((e.consumer, e.name) in uses.steps ==> Right(e.env, e.name, StepChoice(final, e.name))) &&
      ((e.consumer, e.name) in uses.ends ==> Right(e.env, e.name, EndChoice(final, e.name, e.at.node)))
  }

  /** At every place of the run where a call, a condition or a terminal reads a variable that it resolves. */
  ghost predicate TraceRight(t: seq<Event>, uses: Uses, final: Producers) {
    forall k :: 0 <= k < |t| ==> ReadRight(t[k], uses, final)
  }

  // ----- The final map fits -----

  predicate Fits(f: Facts, name: string, c: Choice) {
    match c
    case FromStart => name !in f.may
    case FromCall(id) => f.sure({name}) && name in f.may && f.may[name] == {id}
    case Refused => true
  }

  predicate AllFit(f: Place, names: seq<string>, final: Producers) {
    forall m, name :: m in f && name in names ==> Fits(f[m], name, StepChoice(final, name))
  }

  /** At every call, condition and output the final map fits the facts there. */
  predicate UsesFit(f: Place, b: Block, final: Producers)
    decreases b
  {
    match b
    case BNil => true
    case BCons(n, rest) => UseFits(f, n, final) && UsesFit(PlaceAfterNode(f, n), rest, final)
  }

  predicate UseFits(f: Place, n: Node, final: Producers)
    decreases n
  {
    match n
    case CallN(_, call) => AllFit(f, CallRefs(call), final)
    case BindN(_, _, _) => true
    case TermN(_, output, _, names) =>
      forall m, name :: m in f && name in EndNames(output) && name in names ==> Fits(f[m], name, EndChoice(final, name, m))
    case BranchN(id, arms) => AllFit(f, CaseNames(FlatCases(arms, 0)), final) && ArmUsesFit(Gathered(f, id), arms, final)
  }

  predicate ArmUsesFit(f: Place, arms: NodeArms, final: Producers)
    decreases arms
  {
    match arms
    case CaseN(_, body, rest) => UsesFit(f, body, final) && ArmUsesFit(f, rest, final)
    case ElseN(body) => UsesFit(f, body, final)
  }

  // ----- One use -----

  /** The final map fits the facts just when it is right in all states. */
  lemma FitsExactly(f: Facts, ss: States, name: string, c: Choice)
    requires Sums(f, ss) && Inhabited(ss)
    ensures Fits(f, name, c) <==> forall s :: s in ss ==> Right(s.env, name, c)
  {
    match c
    case FromStart => assert name in f.may <==> Assigns(ss, name);
    case FromCall(id) => CallFitsExactly(f, ss, name, id);
    case Refused =>
  }

  lemma CallFitsExactly(f: Facts, ss: States, name: string, id: Id)
    requires Sums(f, ss) && Inhabited(ss)
    ensures Fits(f, name, FromCall(id)) <==> forall s :: s in ss ==> name in s.env && s.env[name] == {id}
  {
    assert f.sure({name}) <==> AlwaysDepends(ss, {name});
    if Fits(f, name, FromCall(id)) {
      forall s | s in ss
        ensures name in s.env && s.env[name] == {id}
      {
        assert Depends(s.env, {name});
        forall x | x in s.env[name]
          ensures x == id
        {
          assert Origin(s.env, name, x) && Originates(ss, name, x) && Origin(f.may, name, x);
        }
      }
    }
    if forall s :: s in ss ==> name in s.env && s.env[name] == {id} {
      forall s | s in ss
        ensures Depends(s.env, {name})
      {
        assert name in {name} && s.env[name] != {};
      }
      var s0 :| s0 in ss;
      assert Origin(s0.env, name, id) && Originates(ss, name, id) && Origin(f.may, name, id);
      forall x | x in f.may[name]
        ensures x == id
      {
        assert Origin(f.may, name, x) && Originates(ss, name, x);
      }
    }
  }

  ghost predicate AllRight(ss: States, names: seq<string>, final: Producers) {
    forall s, name :: s in ss && name in names ==> Right(s.env, name, StepChoice(final, name))
  }

  lemma AllFitExactly(f: Place, ss: States, names: seq<string>, final: Producers)
    requires Exactly(f, ss)
    ensures AllFit(f, names, final) <==> AllRight(ss, names, final)
  {
    hide Exactly, Sums, Fits, Right, StepChoice;
    forall m, name | m in f && name in names
      ensures Fits(f[m], name, StepChoice(final, name)) <==> forall s :: s in At(ss, m) ==> Right(s.env, name, StepChoice(final, name))
    {
      PlaceHas(f, ss, m);
      FitsExactly(f[m], At(ss, m), name, StepChoice(final, name));
    }
    forall s | s in ss
      ensures s.at.node in f && s in At(ss, s.at.node)
    {
      Located(f, ss, s);
    }
  }

  lemma PlaceHas(f: Place, ss: States, m: Id)
    requires Exactly(f, ss) && m in f
    ensures Sums(f[m], At(ss, m)) && Inhabited(At(ss, m))
  {
  }

  ghost predicate EndRight(ss: States, output: Output, names: seq<string>, final: Producers) {
    forall s, name :: s in ss && name in EndNames(output) && name in names ==> Right(s.env, name, EndChoice(final, name, s.at.node))
  }

  lemma EndFitsExactly(f: Place, ss: States, id: Id, output: Output, step: Option<Id>, names: seq<string>, final: Producers)
    requires Exactly(f, ss)
    ensures UseFits(f, TermN(id, output, step, names), final) <==> EndRight(ss, output, names, final)
  {
    hide Exactly, Sums, Fits, Right, EndChoice;
    forall m, name | m in f && name in EndNames(output) && name in names
      ensures Fits(f[m], name, EndChoice(final, name, m)) <==> forall s :: s in At(ss, m) ==> Right(s.env, name, EndChoice(final, name, m))
    {
      PlaceHas(f, ss, m);
      FitsExactly(f[m], At(ss, m), name, EndChoice(final, name, m));
    }
    forall s | s in ss
      ensures s.at.node in f && s in At(ss, s.at.node)
    {
      Located(f, ss, s);
    }
  }

  // ----- All uses of a block, on all runs -----

  /** `uses` has of the objects of the block just what they resolve. */
  ghost predicate Marked(b: Block, uses: Uses)
    decreases b
  {
    match b
    case BNil => true
    case BCons(n, rest) => MarkedNode(n, uses) && Marked(rest, uses)
  }

  ghost predicate MarkedNode(n: Node, uses: Uses)
    decreases n
  {
    Marks(n.id, OwnNames(n), OwnEnds(n), uses) && (n.BranchN? ==> MarkedArms(n.arms, uses))
  }

  ghost predicate MarkedArms(arms: NodeArms, uses: Uses)
    decreases arms
  {
    match arms
    case CaseN(_, body, rest) => Marked(body, uses) && MarkedArms(rest, uses)
    case ElseN(body) => Marked(body, uses)
  }

  ghost predicate Marks(id: Id, names: seq<string>, ends: seq<string>, uses: Uses) {
    forall name :: ((id, name) in uses.steps <==> name in names) && ((id, name) in uses.ends <==> name in ends)
  }

  function OwnNames(n: Node): seq<string> {
    match n
    case CallN(_, call) => CallRefs(call)
    case BranchN(_, arms) => CaseNames(FlatCases(arms, 0))
    case _ => []
  }

  function OwnEnds(n: Node): seq<string> {
    if n.TermN? then EndNames(n.output) else []
  }

  ghost predicate RunsRight(ss: States, b: Block, uses: Uses, final: Producers) {
    forall s :: Among(s, ss) ==> TraceRight(RunBlock(b, s).trace, uses, final)
  }

  ghost predicate NodeRunsRight(ss: States, n: Node, uses: Uses, final: Producers) {
    forall s :: Among(s, ss) ==> TraceRight(RunNode(n, s).trace, uses, final)
  }

  lemma TraceRightConcat(t: seq<Event>, u: seq<Event>, uses: Uses, final: Producers)
    ensures TraceRight(t + u, uses, final) <==> TraceRight(t, uses, final) && TraceRight(u, uses, final)
  {
    hide ReadRight;
    var w := t + u;
    assert forall k :: 0 <= k < |t| ==> w[k] == t[k];
    assert forall k :: 0 <= k < |u| ==> w[|t| + k] == u[k];
    assert forall k :: |t| <= k < |w| ==> w[k] == u[k - |t|];
  }

  /** The runs through a block are right when they are right through its first node and from there on. */
  lemma RunsSplit(ss: States, n: Node, rest: Block, uses: Uses, final: Producers)
    ensures RunsRight(ss, BCons(n, rest), uses, final) <==>
            NodeRunsRight(ss, n, uses, final) && RunsRight(PastNode(n, ss), rest, uses, final)
  {
    hide Among, TraceRight, PastNode;
    var b := BCons(n, rest);
    forall s | Among(s, ss)
      ensures var r := RunNode(n, s);
              TraceRight(RunBlock(b, s).trace, uses, final) <==>
              TraceRight(r.trace, uses, final) && (r.stop.None? ==> TraceRight(RunBlock(rest, r.after).trace, uses, final))
      ensures RunNode(n, s).stop.None? ==> Among(RunNode(n, s).after, PastNode(n, ss))
    {
      var r := RunNode(n, s);
      RunGetsPastNode(n, ss, s);
      if r.stop.None? {
        TraceRightConcat(r.trace, RunBlock(rest, r.after).trace, uses, final);
      }
    }
    if RunsRight(ss, b, uses, final) {
      forall s' | Among(s', PastNode(n, ss))
        ensures TraceRight(RunBlock(rest, s').trace, uses, final)
      {
        var s := ComesFrom(n, ss, s');
        assert RunNode(n, s).after == s';
      }
    }
  }

  lemma ComesFrom(n: Node, ss: States, s': RunState) returns (s: RunState)
    requires Among(s', PastNode(n, ss))
    ensures Among(s, ss) && RunNode(n, s).stop.None? && RunNode(n, s).after == s'
  {
    var q :| q in PastNode(n, ss) && q == s'.(picks := q.picks);
    var s0, picks := PastNodeIsReached(n, ss, q, s'.picks);
    s := s0.(picks := picks);
    assert s0 in ss && s0 == s.(picks := s0.picks);
  }

  lemma ReadsRight(id: Id, names: seq<string>, s: RunState, uses: Uses, final: Producers)
    ensures TraceRight(ReadEvents(id, names, s), uses, final) <==>
            forall name :: name in names ==> ReadRight(ReadEv(id, name, s.env, s.at), uses, final)
  {
    hide ReadRight;
    var t := ReadEvents(id, names, s);
    assert forall k :: 0 <= k < |t| ==> t[k] == ReadEv(id, names[k], s.env, s.at);
  }

  lemma NoReads(t: seq<Event>, uses: Uses, final: Producers)
    requires forall k :: 0 <= k < |t| ==> !t[k].ReadEv?
    ensures TraceRight(t, uses, final)
  {
  }

  /** All that a node reads before it does anything. */
  function OwnReads(n: Node): seq<string> {
    match n
    case CallN(_, call) => CallRefs(call)
    case BindN(_, _, v) => Refs(v)
    case TermN(_, _, _, names) => names
    case BranchN(_, _) => []
  }

  lemma LeafTrace(n: Node, s: RunState, uses: Uses, final: Producers)
    requires !n.BranchN?
    ensures TraceRight(RunNode(n, s).trace, uses, final) <==> TraceRight(ReadEvents(n.id, OwnReads(n), s), uses, final)
  {
    hide TraceRight;
    var seen := ReadEvents(n.id, OwnReads(n), s);
    var rest := RunNode(n, s).trace[|seen|..];
    assert RunNode(n, s).trace == seen + rest;
    TraceRightConcat(seen, rest, uses, final);
    NoReads(rest, uses, final);
  }

  ghost predicate LeafRight(n: Node, s: RunState, uses: Uses, final: Producers) {
    forall name :: name in OwnReads(n) ==> ReadRight(ReadEv(n.id, name, s.env, s.at), uses, final)
  }

  lemma LeafExact(f: Place, ss: States, n: Node, uses: Uses, final: Producers)
    requires Exactly(f, ss) && !n.BranchN? && Marks(n.id, OwnNames(n), OwnEnds(n), uses)
    ensures UseFits(f, n, final) <==> NodeRunsRight(ss, n, uses, final)
  {
    hide Exactly, LeafRight, RunNode, TraceRight, Among, Marks, AllFit, AllRight;
    match n {
      case CallN(id, call) =>
        AllFitExactly(f, ss, CallRefs(call), final);
        CallReadsRight(ss, id, call, uses, final);
      case TermN(id, output, step, names) =>
        EndFitsExactly(f, ss, id, output, step, names, final);
        EndReadsRight(ss, n, uses, final);
      case BindN(_, _, _) => BindReadsRight(ss, n, uses, final);
    }
    forall s
      ensures TraceRight(RunNode(n, s).trace, uses, final) <==> LeafRight(n, s, uses, final)
    {
      LeafTraceRight(n, s, uses, final);
    }
  }

  lemma LeafTraceRight(n: Node, s: RunState, uses: Uses, final: Producers)
    requires !n.BranchN?
    ensures TraceRight(RunNode(n, s).trace, uses, final) <==> LeafRight(n, s, uses, final)
  {
    LeafTrace(n, s, uses, final);
    ReadsRight(n.id, OwnReads(n), s, uses, final);
  }

  lemma CallReadsRight(ss: States, id: Id, call: CallInfo, uses: Uses, final: Producers)
    requires Marks(id, CallRefs(call), [], uses)
    ensures AllRight(ss, CallRefs(call), final) <==> forall s :: Among(s, ss) ==> LeafRight(CallN(id, call), s, uses, final)
  {
    hide Right, StepChoice;
    forall s | s in ss
      ensures Among(s, ss)
    {
      IsAmong(s, ss);
    }
    if forall s :: Among(s, ss) ==> LeafRight(CallN(id, call), s, uses, final) {
      forall s, name | s in ss && name in CallRefs(call)
        ensures Right(s.env, name, StepChoice(final, name))
      {
        assert LeafRight(CallN(id, call), s, uses, final);
        assert ReadRight(ReadEv(id, name, s.env, s.at), uses, final);
      }
    }
  }

  lemma EndReadIs(n: Node, s: RunState, name: string, uses: Uses, final: Producers)
    requires n.TermN? && Marks(n.id, [], EndNames(n.output), uses)
    ensures ReadRight(ReadEv(n.id, name, s.env, s.at), uses, final) <==>
            (name in EndNames(n.output) ==> Right(s.env, name, EndChoice(final, name, s.at.node)))
  {
    hide Right, EndChoice, StepChoice, EndNames;
  }

  lemma EndReadsRight(ss: States, n: Node, uses: Uses, final: Producers)
    requires n.TermN? && Marks(n.id, [], EndNames(n.output), uses)
    ensures EndRight(ss, n.output, n.names, final) <==> forall s :: Among(s, ss) ==> LeafRight(n, s, uses, final)
  {
    hide Right, EndChoice, EndNames, ReadRight, Marks, Among;
    forall s: RunState, name
      ensures ReadRight(ReadEv(n.id, name, s.env, s.at), uses, final) <==>
              (name in EndNames(n.output) ==> Right(s.env, name, EndChoice(final, name, s.at.node)))
    {
      EndReadIs(n, s, name, uses, final);
    }
    if EndRight(ss, n.output, n.names, final) {
      forall s, name | Among(s, ss) && name in OwnReads(n)
        ensures ReadRight(ReadEv(n.id, name, s.env, s.at), uses, final)
      {
        var q := Member(s, ss);
        assert name in EndNames(n.output) ==> Right(q.env, name, EndChoice(final, name, q.at.node));
      }
    }
    forall s | s in ss
      ensures Among(s, ss)
    {
      IsAmong(s, ss);
    }
    if forall s :: Among(s, ss) ==> LeafRight(n, s, uses, final) {
      forall s, name | s in ss && name in EndNames(n.output) && name in n.names
        ensures Right(s.env, name, EndChoice(final, name, s.at.node))
      {
        assert LeafRight(n, s, uses, final);
      }
    }
  }

  lemma Member(s: RunState, ss: States) returns (q: RunState)
    requires Among(s, ss)
    ensures q in ss && q.env == s.env && q.at == s.at
  {
    q :| q in ss && q == s.(picks := q.picks);
  }

  lemma BindReadsRight(ss: States, n: Node, uses: Uses, final: Producers)
    requires n.BindN? && Marks(n.id, [], [], uses)
    ensures forall s :: LeafRight(n, s, uses, final)
  {
  }

  lemma {:induction false} UsesExact(f: Place, ss: States, b: Block, uses: Uses, final: Producers)
    requires Exactly(f, ss) && Marked(b, uses)
    ensures UsesFit(f, b, final) <==> RunsRight(ss, b, uses, final)
    decreases b
  {
    hide Exactly, RunsRight, NodeRunsRight, PlaceAfterNode, PastNode, Marks;
    match b
    case BNil => NothingReads(ss, uses, final);
    case BCons(n, rest) =>
      UseExact(f, ss, n, uses, final);
      PlaceNodeIsExact(f, ss, n);
      UsesExact(PlaceAfterNode(f, n), PastNode(n, ss), rest, uses, final);
      RunsSplit(ss, n, rest, uses, final);
  }

  lemma NothingReads(ss: States, uses: Uses, final: Producers)
    ensures RunsRight(ss, BNil, uses, final)
  {
  }

  lemma {:induction false} UseExact(f: Place, ss: States, n: Node, uses: Uses, final: Producers)
    requires Exactly(f, ss) && MarkedNode(n, uses)
    ensures UseFits(f, n, final) <==> NodeRunsRight(ss, n, uses, final)
    decreases n
  {
    if n.BranchN? {
      hide Exactly, NodeRunsRight, AllFit, AllRight, Gathered, BodiesRight, PlaceAfterNode, Marks;
      var names := CaseNames(FlatCases(n.arms, 0));
      AllFitExactly(f, ss, names, final);
      BodiesExact(f, ss, n.id, n.arms, 0, uses, final);
      BranchRunsSplit(ss, n.id, n.arms, uses, final);
    } else {
      LeafExact(f, ss, n, uses, final);
    }
  }

  // ----- The uses of a branch -----

  ghost predicate BodiesRight(ss: States, id: Id, arms: NodeArms, i: nat, uses: Uses, final: Producers)
    decreases arms
  {
    match arms
    case CaseN(_, body, rest) => RunsRight(Entered(ss, Pos(id, CaseId(i))), body, uses, final) && BodiesRight(ss, id, rest, i + 1, uses, final)
    case ElseN(body) => RunsRight(Entered(ss, Pos(id, FALSE)), body, uses, final)
  }

  lemma {:induction false} BodiesExact(f: Place, ss: States, id: Id, arms: NodeArms, i: nat, uses: Uses, final: Producers)
    requires Exactly(f, ss) && MarkedArms(arms, uses)
    ensures ArmUsesFit(Gathered(f, id), arms, final) <==> BodiesRight(ss, id, arms, i, uses, final)
    decreases arms
  {
    hide Exactly, RunsRight, Gathered, UsesFit;
    match arms
    case CaseN(_, body, rest) =>
      GatheredExact(f, ss, Pos(id, CaseId(i)));
      UsesExact(Gathered(f, id), Entered(ss, Pos(id, CaseId(i))), body, uses, final);
      BodiesExact(f, ss, id, rest, i + 1, uses, final);
    case ElseN(body) =>
      GatheredExact(f, ss, Pos(id, FALSE));
      UsesExact(Gathered(f, id), Entered(ss, Pos(id, FALSE)), body, uses, final);
  }

  ghost predicate ArmRunRight(id: Id, arms: NodeArms, i: nat, pick: nat, s: RunState, uses: Uses, final: Producers) {
    TraceRight(RunArms(id, arms, i, pick, s).trace, uses, final)
  }

  ghost predicate ArmRunsRight(ss: States, id: Id, arms: NodeArms, i: nat, uses: Uses, final: Producers) {
    forall s, pick: nat :: Among(s, ss) && pick >= i ==> ArmRunRight(id, arms, i, pick, s, uses, final)
  }

  /** All that conditions of this branch read and some condition of it compares is right. */
  ghost predicate ConditionsRight(ss: States, id: Id, uses: Uses, final: Producers) {
    forall s, name :: Among(s, ss) ==> ReadRight(ReadEv(id, name, s.env, s.at), uses, final)
  }

  lemma BranchRunsSplit(ss: States, id: Id, arms: NodeArms, uses: Uses, final: Producers)
    requires Marks(id, CaseNames(FlatCases(arms, 0)), [], uses)
    ensures NodeRunsRight(ss, BranchN(id, arms), uses, final) <==>
            AllRight(ss, CaseNames(FlatCases(arms, 0)), final) && BodiesRight(ss, id, arms, 0, uses, final)
  {
    hide Among, TraceRight, BodiesRight, Right, StepChoice, CaseNames, FlatCases;
    var names := CaseNames(FlatCases(arms, 0));
    NodeRunsAreArmRuns(ss, id, arms, uses, final);
    NamesAreConditions(ss, id, names, uses, final);
    if ArmRunsRight(ss, id, arms, 0, uses, final) {
      ArmRunsReadNames(ss, id, arms, 0, uses, final);
      forall s, name | s in ss && name in names
        ensures Right(s.env, name, StepChoice(final, name))
      {
        IsAmong(s, ss);
        assert ReadRight(ReadEv(id, name, s.env, s.at), uses, final);
      }
    }
    if ConditionsRight(ss, id, uses, final) {
      ArmRunsSplit(ss, id, arms, 0, uses, final);
    }
  }

  lemma IsAmong(s: RunState, ss: States)
    requires s in ss
    ensures Among(s, ss)
  {
    assert s == s.(picks := s.picks);
  }

  lemma NodeRunsAreArmRuns(ss: States, id: Id, arms: NodeArms, uses: Uses, final: Producers)
    ensures NodeRunsRight(ss, BranchN(id, arms), uses, final) <==> ArmRunsRight(ss, id, arms, 0, uses, final)
  {
    hide TraceRight, RunArms, Among;
    if NodeRunsRight(ss, BranchN(id, arms), uses, final) {
      forall s, pick: nat | Among(s, ss)
        ensures ArmRunRight(id, arms, 0, pick, s, uses, final)
      {
        var q := s.(picks := [pick] + s.picks);
        OtherPicks(s, ss, q.picks);
        assert Tail(q.picks) == s.picks && q.(picks := s.picks) == s;
        assert RunNode(BranchN(id, arms), q) == RunArms(id, arms, 0, pick, s);
      }
    }
    if ArmRunsRight(ss, id, arms, 0, uses, final) {
      forall s | Among(s, ss)
        ensures TraceRight(RunNode(BranchN(id, arms), s).trace, uses, final)
      {
        OtherPicks(s, ss, Tail(s.picks));
        assert ArmRunRight(id, arms, 0, Head(s.picks), s.(picks := Tail(s.picks)), uses, final);
      }
    }
  }

  lemma OtherPicks(s: RunState, ss: States, picks: seq<nat>)
    requires Among(s, ss)
    ensures Among(s.(picks := picks), ss)
  {
    var q :| q in ss && q == s.(picks := q.picks);
    assert q == s.(picks := picks).(picks := q.picks);
  }

  lemma NamesAreConditions(ss: States, id: Id, names: seq<string>, uses: Uses, final: Producers)
    requires Marks(id, names, [], uses)
    ensures AllRight(ss, names, final) <==> ConditionsRight(ss, id, uses, final)
  {
    hide Right, StepChoice;
    forall s | s in ss
      ensures Among(s, ss)
    {
      IsAmong(s, ss);
    }
    if ConditionsRight(ss, id, uses, final) {
      forall s, name | s in ss && name in names
        ensures Right(s.env, name, StepChoice(final, name))
      {
        assert ReadRight(ReadEv(id, name, s.env, s.at), uses, final);
      }
    }
  }

  /** A run through a branch reads its first condition and then goes into the body or on to the rest. */
  lemma ArmRunStarts(id: Id, cond: Condition, body: Block, rest: NodeArms, i: nat, pick: nat, s: RunState, uses: Uses, final: Producers)
    ensures ArmRunRight(id, CaseN(cond, body, rest), i, pick, s, uses, final) <==>
            (forall name :: name in CondRefs(cond) ==> ReadRight(ReadEv(id, name, s.env, s.at), uses, final)) &&
            if pick == i then TraceRight(RunBlock(body, s.(at := Pos(id, CaseId(i)))).trace, uses, final)
            else ArmRunRight(id, rest, i + 1, pick, s, uses, final)
  {
    hide TraceRight, ReadRight;
    var seen := ReadEvents(id, CondRefs(cond), s);
    var q := if pick == i then RunBlock(body, s.(at := Pos(id, CaseId(i)))).trace else RunArms(id, rest, i + 1, pick, s).trace;
    assert RunArms(id, CaseN(cond, body, rest), i, pick, s).trace == seen + q;
    ReadsRight(id, CondRefs(cond), s, uses, final);
    TraceRightConcat(seen, q, uses, final);
  }

  /** Some run evaluates each condition of the branch. */
  lemma {:induction false} ArmRunsReadNames(ss: States, id: Id, arms: NodeArms, i: nat, uses: Uses, final: Producers)
    requires ArmRunsRight(ss, id, arms, i, uses, final)
    ensures forall s, name :: Among(s, ss) && name in CaseNames(FlatCases(arms, i)) ==> ReadRight(ReadEv(id, name, s.env, s.at), uses, final)
    decreases arms
  {
    hide Among, TraceRight, ReadRight, ArmRunRight, CaseNames, FlatCases;
    match arms
    case CaseN(cond, body, rest) =>
      var j := i + 1;
      forall s, pick: nat | Among(s, ss) && pick >= j
        ensures ArmRunRight(id, rest, j, pick, s, uses, final)
      {
        assert ArmRunRight(id, arms, i, pick, s, uses, final);
        ArmRunStarts(id, cond, body, rest, i, pick, s, uses, final);
      }
      ArmRunsReadNames(ss, id, rest, i + 1, uses, final);
      FirstNames(cond, body, rest, i);
      CondNamesAreRefs(cond);
      forall s, name | Among(s, ss) && name in CondNames(cond)
        ensures ReadRight(ReadEv(id, name, s.env, s.at), uses, final)
      {
        assert ArmRunRight(id, arms, i, i, s, uses, final);
        ArmRunStarts(id, cond, body, rest, i, i, s, uses, final);
      }
    case ElseN(body) => NoNames(body, i);
  }

  lemma NoNames(body: Block, i: nat)
    ensures CaseNames(FlatCases(ElseN(body), i)) == []
  {
  }

  lemma FirstNames(cond: Condition, body: Block, rest: NodeArms, i: nat)
    ensures CaseNames(FlatCases(CaseN(cond, body, rest), i)) == CondNames(cond) + CaseNames(FlatCases(rest, i + 1))
  {
    var cases := FlatCases(CaseN(cond, body, rest), i);
    assert cases[1..] == FlatCases(rest, i + 1);
  }

  lemma CondNamesAreRefs(c: Condition)
    ensures forall name :: name in CondNames(c) ==> name in CondRefs(c)
  {
    if c.Parsed? {
      forall name | name in CondNames(c)
        ensures name in CondRefs(c)
      {
        var j :| 0 <= j < |c.comparisons| && c.comparisons[j].name == name;
        ComparisonNamed(c.comparisons, j);
      }
    }
  }

  /** With the conditions right, a branch is right when its bodies are. */
  lemma {:induction false} ArmRunsSplit(ss: States, id: Id, arms: NodeArms, i: nat, uses: Uses, final: Producers)
    requires ConditionsRight(ss, id, uses, final)
    ensures ArmRunsRight(ss, id, arms, i, uses, final) <==> BodiesRight(ss, id, arms, i, uses, final)
    decreases arms
  {
    hide Among, TraceRight, ReadRight, ArmRunRight;
    match arms
    case CaseN(cond, body, rest) =>
      forall s, pick: nat | Among(s, ss)
        ensures ArmRunRight(id, arms, i, pick, s, uses, final) <==>
                if pick == i then TraceRight(RunBlock(body, s.(at := Pos(id, CaseId(i)))).trace, uses, final)
                else ArmRunRight(id, rest, i + 1, pick, s, uses, final)
      {
        ArmRunStarts(id, cond, body, rest, i, pick, s, uses, final);
      }
      EnteredRuns(ss, Pos(id, CaseId(i)), body, uses, final);
      ArmRunsSplit(ss, id, rest, i + 1, uses, final);
      CaseRunsSplit(ss, id, arms, i, uses, final);
    case ElseN(body) =>
      EnteredRuns(ss, Pos(id, FALSE), body, uses, final);
      ElseRuns(ss, id, body, i, uses, final);
  }

  lemma CaseRunsSplit(ss: States, id: Id, arms: NodeArms, i: nat, uses: Uses, final: Producers)
    requires arms.CaseN?
    requires forall s, pick: nat :: Among(s, ss) ==>
               (ArmRunRight(id, arms, i, pick, s, uses, final) <==>
                if pick == i then TraceRight(RunBlock(arms.body, s.(at := Pos(id, CaseId(i)))).trace, uses, final)
                else ArmRunRight(id, arms.rest, i + 1, pick, s, uses, final))
    ensures ArmRunsRight(ss, id, arms, i, uses, final) <==>
            (forall s :: Among(s, ss) ==> TraceRight(RunBlock(arms.body, s.(at := Pos(id, CaseId(i)))).trace, uses, final)) &&
            ArmRunsRight(ss, id, arms.rest, i + 1, uses, final)
  {
    hide Among, TraceRight, ArmRunRight;
    if ArmRunsRight(ss, id, arms, i, uses, final) {
      forall s | Among(s, ss)
        ensures TraceRight(RunBlock(arms.body, s.(at := Pos(id, CaseId(i)))).trace, uses, final)
      {
        assert ArmRunRight(id, arms, i, i, s, uses, final);
      }
      var j := i + 1;
      forall s, pick: nat | Among(s, ss) && pick >= j
        ensures ArmRunRight(id, arms.rest, j, pick, s, uses, final)
      {
        assert ArmRunRight(id, arms, i, pick, s, uses, final);
      }
    }
  }

  lemma ElseRuns(ss: States, id: Id, body: Block, i: nat, uses: Uses, final: Producers)
    ensures ArmRunsRight(ss, id, ElseN(body), i, uses, final) <==>
            forall s :: Among(s, ss) ==> TraceRight(RunBlock(body, s.(at := Pos(id, FALSE))).trace, uses, final)
  {
    hide Among, TraceRight;
    if ArmRunsRight(ss, id, ElseN(body), i, uses, final) {
      forall s | Among(s, ss)
        ensures TraceRight(RunBlock(body, s.(at := Pos(id, FALSE))).trace, uses, final)
      {
        assert ArmRunRight(id, ElseN(body), i, i, s, uses, final);
      }
    }
  }

  lemma EnteredRuns(ss: States, at: Pos, body: Block, uses: Uses, final: Producers)
    ensures RunsRight(Entered(ss, at), body, uses, final) <==>
            forall s :: Among(s, ss) ==> TraceRight(RunBlock(body, s.(at := at)).trace, uses, final)
  {
    hide TraceRight, RunBlock;
    forall s | Among(s, ss)
      ensures Among(s.(at := at), Entered(ss, at))
    {
      EnteredAmong(ss, s, at);
    }
    forall s | Among(s, Entered(ss, at))
      ensures exists q :: Among(q, ss) && q.(at := at) == s
    {
      var w :| w in Entered(ss, at) && w == s.(picks := w.picks);
      var q :| q in ss && q.(at := at) == w;
      var v := q.(picks := s.picks);
      assert v.(picks := q.picks) == q && v.(at := at) == s;
      assert Among(v, ss);
    }
  }

  // ----- The uses of a whole program -----

  ghost predicate Inside(steps: seq<Step>, ts: seq<Terminal>, ids: seq<Id>) {
    (forall s :: s in steps ==> s.id in ids) && forall t :: t in ts ==> t.id in ids
  }

  lemma {:induction false} BlockInside(b: Block)
    ensures Inside(Steps(b), Terminals(b), AllIds(b))
    decreases b
  {
    if b.BCons? {
      NodeInside(b.head);
      BlockInside(b.tail);
    }
  }

  lemma {:induction false} NodeInside(n: Node)
    ensures Inside(NodeSteps(n), NodeTerminals(n), NodeIds(n))
    decreases n
  {
    if n.BranchN? {
      ArmsInside(n.arms);
    }
  }

  lemma {:induction false} ArmsInside(arms: NodeArms)
    ensures Inside(ArmSteps(arms), ArmTerminals(arms), ArmIds(arms))
    decreases arms
  {
    match arms
    case CaseN(_, body, rest) =>
      BlockInside(body);
      ArmsInside(rest);
    case ElseN(body) => BlockInside(body);
  }

  /** Of these ids the uses are those of the given objects. */
  ghost predicate Covers(uses: Uses, steps: seq<Step>, ts: seq<Terminal>, ids: seq<Id>) {
    Inside(steps, ts, ids) &&
    forall id, name :: id in ids ==>
      ((id, name) in uses.steps <==> (id, name) in UsesOf(steps, ts).steps) &&
      ((id, name) in uses.ends <==> (id, name) in UsesOf(steps, ts).ends)
  }

  lemma Narrow(uses: Uses, a: seq<Step>, b: seq<Step>, t: seq<Terminal>, u: seq<Terminal>, ids: seq<Id>, more: seq<Id>)
    requires NoDup(ids + more) && Inside(a, t, ids) && Inside(b, u, more) && Covers(uses, a + b, t + u, ids + more)
    ensures Covers(uses, a, t, ids) && Covers(uses, b, u, more)
  {
    NoDupParts(ids, more);
    forall id, name
      ensures id in ids ==> ((id, name) in UsesOf(a + b, t + u).steps <==> (id, name) in UsesOf(a, t).steps)
      ensures id in ids ==> ((id, name) in UsesOf(a + b, t + u).ends <==> (id, name) in UsesOf(a, t).ends)
      ensures id in more ==> ((id, name) in UsesOf(a + b, t + u).steps <==> (id, name) in UsesOf(b, u).steps)
      ensures id in more ==> ((id, name) in UsesOf(a + b, t + u).ends <==> (id, name) in UsesOf(b, u).ends)
    {
    }
  }

  lemma {:induction false} CoveredIsMarked(b: Block, uses: Uses)
    requires NoDup(AllIds(b)) && Covers(uses, Steps(b), Terminals(b), AllIds(b))
    ensures Marked(b, uses)
    decreases b
  {
    hide Covers, NoDup, Inside;
    if b.BCons? {
      NodeInside(b.head);
      BlockInside(b.tail);
      NoDupParts(NodeIds(b.head), AllIds(b.tail));
      Narrow(uses, NodeSteps(b.head), Steps(b.tail), NodeTerminals(b.head), Terminals(b.tail), NodeIds(b.head), AllIds(b.tail));
      CoveredNodeIsMarked(b.head, uses);
      CoveredIsMarked(b.tail, uses);
    }
  }

  lemma {:induction false} CoveredNodeIsMarked(n: Node, uses: Uses)
    requires NoDup(NodeIds(n)) && Covers(uses, NodeSteps(n), NodeTerminals(n), NodeIds(n))
    ensures MarkedNode(n, uses)
    decreases n
  {
    match n
    case BranchN(id, arms) =>
      ArmsInside(arms);
      NoDupParts([id], ArmIds(arms));
      assert [] + ArmTerminals(arms) == ArmTerminals(arms);
      Narrow(uses, [FlatBranch(id, arms)], ArmSteps(arms), [], ArmTerminals(arms), [id], ArmIds(arms));
      CoveredOne(uses, [FlatBranch(id, arms)], [], n);
      CoveredArmsAreMarked(arms, uses);
    case _ =>
      assert [n.id] + [] == [n.id];
      CoveredOne(uses, NodeSteps(n), NodeTerminals(n), n);
  }

  lemma CoveredOne(uses: Uses, steps: seq<Step>, ts: seq<Terminal>, n: Node)
    requires Covers(uses, steps, ts, [n.id])
    requires steps == if n.CallN? then [CallStep(n.id, n.call)] else if n.BranchN? then [FlatBranch(n.id, n.arms)] else []
    requires ts == if n.TermN? then [Terminal(n.id, n.output, n.outputStep)] else []
    ensures Marks(n.id, OwnNames(n), OwnEnds(n), uses)
  {
    forall name
      ensures (n.id, name) in UsesOf(steps, ts).steps <==> name in OwnNames(n)
      ensures (n.id, name) in UsesOf(steps, ts).ends <==> name in OwnEnds(n)
    {
    }
    assert n.id in [n.id];
  }

  lemma {:induction false} CoveredArmsAreMarked(arms: NodeArms, uses: Uses)
    requires NoDup(ArmIds(arms)) && Covers(uses, ArmSteps(arms), ArmTerminals(arms), ArmIds(arms))
    ensures MarkedArms(arms, uses)
    decreases arms
  {
    hide Covers, NoDup, Inside;
    match arms
    case CaseN(_, body, rest) =>
      BlockInside(body);
      ArmsInside(rest);
      NoDupParts(AllIds(body), ArmIds(rest));
      Narrow(uses, Steps(body), ArmSteps(rest), Terminals(body), ArmTerminals(rest), AllIds(body), ArmIds(rest));
      CoveredIsMarked(body, uses);
      CoveredArmsAreMarked(rest, uses);
    case ElseN(body) => CoveredIsMarked(body, uses);
  }

  lemma ProgramMarked(p: Program, flow: Flow)
    requires Semantics(p) == Ok(flow) && NoDup(AllIds(Tree(p)))
    ensures Marked(Tree(p), UsesOf(flow.steps, flow.terminals))
  {
    CompiledLists(p, flow);
    BlockInside(Tree(p));
    CoveredIsMarked(Tree(p), UsesOf(flow.steps, flow.terminals));
  }

  lemma EntryIsExact()
    ensures Exactly(Entry(), iset{Initial([])})
  {
    var f := Facts(map[], names => false);
    var ss: States := iset{Initial([])};
    assert Initial([]) in ss && Initial([]).at.node == START && Initial([]).env == map[];
    OnePlace(f, ss, START);
    assert map[START := f].Keys == Entry().Keys;
  }

  /** Every use of a variable on every run: the map left at the end of the program gives the right call, or the start. */
  ghost predicate AlwaysRight(p: Program, flow: Flow) {
    forall picks :: TraceRight(RunBlock(Tree(p), Initial(picks)).trace, UsesOf(flow.steps, flow.terminals), flow.variables)
  }

  /** The final map fits the facts at every use in the program. */
  predicate FinalMapFits(p: Program, flow: Flow) {
    UsesFit(Entry(), Tree(p), flow.variables)
  }

  /**
   The graph builder resolves every call argument, every condition and every output that it does not refuse rightly on
   all runs if and only if, at each of them, the final map lists for the name one call, the name depends on no other
   call on any run that gets there, and on every such run it depends on that one; or lists none, and no such run assigns
   the name. Where several calls meet at a terminal this is asked for each step from which it is entered; at a call or a
   condition several calls are refused.
   */
  lemma FinalMapIsRightExactly(p: Program, flow: Flow)
    requires Semantics(p) == Ok(flow) && NoDup(AllIds(Tree(p)))
    ensures FinalMapFits(p, flow) <==> AlwaysRight(p, flow)
  {
    var ss: States := iset{Initial([])};
    var uses := UsesOf(flow.steps, flow.terminals);
    ProgramMarked(p, flow);
    EntryIsExact();
    UsesExact(Entry(), ss, Tree(p), uses, flow.variables);
    RunsFromEntry(Tree(p), uses, flow.variables);
  }

  lemma RunsFromEntry(b: Block, uses: Uses, final: Producers)
    ensures RunsRight(iset{Initial([])}, b, uses, final) <==> forall picks :: TraceRight(RunBlock(b, Initial(picks)).trace, uses, final)
  {
    hide TraceRight, RunBlock;
    var ss: States := iset{Initial([])};
    forall s
      ensures Among(s, ss) <==> s == Initial(s.picks)
    {
      assert Initial([]) in ss;
      assert s == Initial(s.picks) ==> Initial([]) == s.(picks := Initial([]).picks);
    }
    forall picks
      ensures Among(Initial(picks), ss)
    {
      assert Initial(picks).picks == picks;
    }
  }

  /** Single assignment and plain copies of produced variables are enough. */
  lemma ResolvableIsRight(p: Program, flow: Flow)
    requires Semantics(p) == Ok(flow) && flow.warnings == [] && NoDup(AllIds(Tree(p))) && Resolvable(p, flow)
    ensures FinalMapFits(p, flow)
  {
    forall picks
      ensures TraceRight(RunBlock(Tree(p), Initial(picks)).trace, UsesOf(flow.steps, flow.terminals), flow.variables)
    {
      RunsHaveOrigins(p, flow, picks);
      OriginsAreRight(RunBlock(Tree(p), Initial(picks)).trace, UsesOf(flow.steps, flow.terminals), flow.variables, InputNames(flow.inputs));
    }
    FinalMapIsRightExactly(p, flow);
  }

  lemma OriginsAreRight(t: seq<Event>, uses: Uses, final: Producers, inputs: seq<string>)
    requires TraceOk(t, final, inputs) && AllProduced(final)
    ensures TraceRight(t, uses, final)
  {
    forall k | 0 <= k < |t| && t[k].ReadEv?
      ensures ReadRight(t[k], uses, final)
    {
      assert ReadOk(t[k], final, inputs);
    }
  }
}
