/** The objects of a program, over the three lists and over the bodies: each id occurs once in either. */
module Partition {
  import opened Prelude
  import opened Text
  import opened Pseudocode
  import opened FlowSemantics
  import opened Scoping

  function StepIds(steps: seq<Step>): (r: seq<Id>)
    ensures |r| == |steps|
  {
    seq(|steps|, i requires 0 <= i < |steps| => steps[i].id)
  }

  function TerminalIds(ts: seq<Terminal>): (r: seq<Id>)
    ensures |r| == |ts|
  {
    seq(|ts|, i requires 0 <= i < |ts| => ts[i].id)
  }

  function BindingIds(bs: seq<Binding>): (r: seq<Id>)
    ensures |r| == |bs|
  {
    seq(|bs|, i requires 0 <= i < |bs| => bs[i].id)
  }

  // ----- By kind -----

  ghost function Kinds(s: seq<Step>, t: seq<Terminal>, b: seq<Binding>): multiset<Id> {
    multiset(StepIds(s)) + multiset(TerminalIds(t)) + multiset(BindingIds(b))
  }

  lemma KindsConcat(s: seq<Step>, t: seq<Terminal>, b: seq<Binding>, s': seq<Step>, t': seq<Terminal>, b': seq<Binding>)
    ensures Kinds(s + s', t + t', b + b') == Kinds(s, t, b) + Kinds(s', t', b')
  {
    assert StepIds(s + s') == StepIds(s) + StepIds(s');
    assert TerminalIds(t + t') == TerminalIds(t) + TerminalIds(t');
    assert BindingIds(b + b') == BindingIds(b) + BindingIds(b');
  }

  lemma {:induction false} KindsPartition(p: Producers, b: Block)
    ensures Kinds(Steps(b), Terminals(b), Bindings(p, b)) == multiset(AllIds(b))
    decreases b
  {
    hide Kinds;
    match b
    case BNil =>
      NoKinds();
    case BCons(n, rest) =>
      NodeKinds(p, n);
      KindsPartition(AfterNode(p, n), rest);
      KindsConcat(NodeSteps(n), NodeTerminals(n), NodeBindings(p, n), Steps(rest), Terminals(rest), Bindings(AfterNode(p, n), rest));
      assert multiset(NodeIds(n) + AllIds(rest)) == multiset(NodeIds(n)) + multiset(AllIds(rest));
  }

  lemma NoKinds()
    ensures Kinds([], [], []) == multiset([])
  {
  }

  lemma {:induction false} NodeKinds(p: Producers, n: Node)
    ensures Kinds(NodeSteps(n), NodeTerminals(n), NodeBindings(p, n)) == multiset(NodeIds(n))
    decreases n
  {
    match n
    case BranchN(id, arms) =>
      hide Kinds, ArmSteps, ArmTerminals, ArmBindings, ArmIds;
      ArmKinds(p, arms);
      BranchKinds(id, ArmSteps(arms), FlatBranch(id, arms), ArmTerminals(arms), ArmBindings(p, arms), ArmIds(arms));
    case _ => LeafKinds(p, n);
  }

  lemma LeafKinds(p: Producers, n: Node)
    requires !n.BranchN?
    ensures Kinds(NodeSteps(n), NodeTerminals(n), NodeBindings(p, n)) == multiset(NodeIds(n))
  {
    var s, t, b := NodeSteps(n), NodeTerminals(n), NodeBindings(p, n);
    assert StepIds(s) + TerminalIds(t) + BindingIds(b) == [n.id] == NodeIds(n);
    Sum(StepIds(s) + TerminalIds(t), BindingIds(b));
    Sum(StepIds(s), TerminalIds(t));
  }

  lemma BranchKinds(id: Id, s: seq<Step>, first: Step, t: seq<Terminal>, b: seq<Binding>, ids: seq<Id>)
    requires first.id == id && Kinds(s, t, b) == multiset(ids)
    ensures Kinds([first] + s, t, b) == multiset([id] + ids)
  {
    KindsConcat([first], [], [], s, t, b);
    assert [] + t == t && [] + b == b;
    assert StepIds([first]) == [id];
    assert Kinds([first], [], []) == multiset{id};
    assert multiset([id] + ids) == multiset{id} + multiset(ids);
  }

  lemma {:induction false} ArmKinds(p: Producers, arms: NodeArms)
    ensures Kinds(ArmSteps(arms), ArmTerminals(arms), ArmBindings(p, arms)) == multiset(ArmIds(arms))
    decreases arms
  {
    hide Kinds;
    match arms
    case CaseN(_, body, rest) =>
      KindsPartition(p, body);
      ArmKinds(p, rest);
      KindsConcat(Steps(body), Terminals(body), Bindings(p, body), ArmSteps(rest), ArmTerminals(rest), ArmBindings(p, rest));
      assert multiset(AllIds(body) + ArmIds(rest)) == multiset(AllIds(body)) + multiset(ArmIds(rest));
    case ElseN(body) =>
      KindsPartition(p, body);
  }

  /** With no id repeated, the three lists have no id in common and repeat none. */
  lemma KindsApart(p: Producers, b: Block)
    requires NoDup(AllIds(b))
    ensures var s, t, c := StepIds(Steps(b)), TerminalIds(Terminals(b)), BindingIds(Bindings(p, b));
            NoDup(s) && NoDup(t) && NoDup(c) &&
            forall x :: !(x in s && x in t) && !(x in s && x in c) && !(x in t && x in c)
  {
    KindsPartition(p, b);
    var s, t, c := StepIds(Steps(b)), TerminalIds(Terminals(b)), BindingIds(Bindings(p, b));
    var all := (s + t) + c;
    assert multiset(all) == multiset(AllIds(b));
    forall x
      ensures multiset(all)[x] <= 1
    {
      NoDupCounts(AllIds(b), x);
    }
    CountsNoDup(all);
    NoDupParts(s + t, c);
    NoDupParts(s, t);
  }

  lemma CountsNoDup<T>(s: seq<T>)
    requires forall x :: multiset(s)[x] <= 1
    ensures NoDup(s)
  {
    forall i, j | 0 <= i < j < |s|
      ensures s[i] != s[j]
    {
      var a, b := s[..j], s[j..];
      assert s == a + b;
      assert multiset(s) == multiset(a) + multiset(b);
      assert s[j] == b[0] && b[0] in b;
      assert multiset(s)[s[j]] <= 1 && multiset(b)[s[j]] >= 1;
      assert s[j] !in multiset(a);
      assert s[i] == a[i] && a[i] in a;
    }
  }

  // ----- By body -----

  function CaseBodies(cases: seq<FlatCase>): seq<Id> {
    if cases == [] then [] else cases[0].body + CaseBodies(cases[1..])
  }

  function StepBodies(s: Step): seq<Id> {
    match s
    case CallStep(_, _) => []
    case BranchStep(_, cases, elseBody) => CaseBodies(cases) + elseBody
  }

  /** All bodies of all branches, one after the other. */
  function Bodies(steps: seq<Step>): seq<Id> {
    if steps == [] then [] else StepBodies(steps[0]) + Bodies(steps[1..])
  }

  lemma {:induction false} BodiesConcat(a: seq<Step>, b: seq<Step>)
    ensures Bodies(a + b) == Bodies(a) + Bodies(b)
    decreases |a|
  {
    if a == [] {
      assert a + b == b;
    } else {
      assert (a + b)[1..] == a[1..] + b;
      BodiesConcat(a[1..], b);
      Assoc(StepBodies(a[0]), Bodies(a[1..]), Bodies(b));
    }
  }

  lemma Sum<T>(a: seq<T>, b: seq<T>)
    ensures multiset(a + b) == multiset(a) + multiset(b)
  {
  }

  /** Two partitions side by side. */
  lemma SideBySide(b: multiset<Id>, s: multiset<Id>, a: multiset<Id>, l: multiset<Id>, t: multiset<Id>, r: multiset<Id>)
    requires b + s == a && l + t == r
    ensures (b + l) + (s + t) == a + r
  {
    assert (b + l) + (s + t) == (b + s) + (l + t);
  }

  /** Root body and branch bodies together have every object of the block once. */
  lemma {:induction false} BodiesPartition(b: Block)
    ensures multiset(BodyIds(b)) + multiset(Bodies(Steps(b))) == multiset(AllIds(b))
    decreases b
  {
    hide Bodies, NodeSteps, NodeIds;
    match b
    case BNil => NoBodies();
    case BCons(n, rest) =>
      BodiesPartition(rest);
      NodeBodiesPartition(n);
      BodiesConcat(NodeSteps(n), Steps(rest));
      Sum(Bodies(NodeSteps(n)), Bodies(Steps(rest)));
      Sum([n.id], BodyIds(rest));
      Sum(NodeIds(n), AllIds(rest));
      SideBySide(multiset([n.id]), multiset(Bodies(NodeSteps(n))), multiset(NodeIds(n)),
                 multiset(BodyIds(rest)), multiset(Bodies(Steps(rest))), multiset(AllIds(rest)));
  }

  lemma NoBodies()
    ensures Bodies([]) == []
  {
  }

  lemma BodiesOne(s: Step)
    ensures Bodies([s]) == StepBodies(s)
  {
    assert StepBodies(s) + [] == StepBodies(s) && [s][1..] == [];
  }

  lemma {:induction false} NodeBodiesPartition(n: Node)
    ensures multiset([n.id]) + multiset(Bodies(NodeSteps(n))) == multiset(NodeIds(n))
    decreases n
  {
    hide Bodies, ArmSteps, ArmIds, FlatCases;
    match n
    case BranchN(id, arms) =>
      ArmBodiesPartition(arms, 0);
      var s := FlatBranch(id, arms);
      BodiesConcat([s], ArmSteps(arms));
      BodiesOne(s);
      Sum(StepBodies(s), Bodies(ArmSteps(arms)));
      Sum([id], ArmIds(arms));
    case CallN(id, call) => BodiesOne(CallStep(id, call));
    case _ => NoBodies();
  }

  lemma FirstCase(cond: Condition, body: Block, rest: NodeArms, i: nat)
    ensures CaseBodies(FlatCases(CaseN(cond, body, rest), i)) == BodyIds(body) + CaseBodies(FlatCases(rest, i + 1))
  {
    var cases := FlatCases(CaseN(cond, body, rest), i);
    assert cases[1..] == FlatCases(rest, i + 1);
  }

  lemma {:induction false} ArmBodiesPartition(arms: NodeArms, i: nat)
    ensures multiset(CaseBodies(FlatCases(arms, i)) + BodyIds(ElseBlock(arms))) + multiset(Bodies(ArmSteps(arms))) ==
            multiset(ArmIds(arms))
    decreases arms
  {
    hide Bodies, Steps, BodyIds, AllIds, CaseBodies, FlatCases;
    match arms
    case CaseN(cond, body, rest) =>
      BodiesPartition(body);
      ArmBodiesPartition(rest, i + 1);
      FirstCase(cond, body, rest, i);
      var later := CaseBodies(FlatCases(rest, i + 1)) + BodyIds(ElseBlock(rest));
      Assoc(BodyIds(body), CaseBodies(FlatCases(rest, i + 1)), BodyIds(ElseBlock(rest)));
      Sum(BodyIds(body), later);
      BodiesConcat(Steps(body), ArmSteps(rest));
      Sum(Bodies(Steps(body)), Bodies(ArmSteps(rest)));
      Sum(AllIds(body), ArmIds(rest));
      SideBySide(multiset(BodyIds(body)), multiset(Bodies(Steps(body))), multiset(AllIds(body)),
                 multiset(later), multiset(Bodies(ArmSteps(rest))), multiset(ArmIds(rest)));
    case ElseN(body) =>
      BodiesPartition(body);
      NoCases(body, i);
  }

  lemma NoCases(body: Block, i: nat)
    ensures CaseBodies(FlatCases(ElseN(body), i)) + BodyIds(body) == BodyIds(body)
  {
  }
}
