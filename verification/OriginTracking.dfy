/**
 What the *final* producer map says about the variables read in the middle of a run.

 The graph builder resolves every variable with the map that is left at the end of the program. That is sound when
 each name is assigned once (arms of one branch may share a name) and each plain assignment copies a variable that
 has producers: then every variable read has exactly one origin on the run so far, the final map lists it, and if
 the step executed last is listed too, it is that origin.
 */
module OriginTracking {
  import opened Prelude
  import opened Text
  import opened Pseudocode
  import opened FlowSemantics
  import opened Scoping
  import opened DefiniteAssignment
  import opened ReachingProducers

  // ----- The conditions -----

  function Targets(b: Block): set<string> {
    match b
    case BNil => {}
    case BCons(n, rest) => NodeTargets(n) + Targets(rest)
  }

  function NodeTargets(n: Node): set<string> {
    match n
    case CallN(_, call) => if call.target.Some? then {call.target.value} else {}
    case BindN(_, t, _) => {t}
    case TermN(_, _, _, _) => {}
    case BranchN(_, arms) => ArmTargets(arms)
  }

  function ArmTargets(arms: NodeArms): set<string> {
    match arms
    case CaseN(_, body, rest) => Targets(body) + ArmTargets(rest)
    case ElseN(body) => Targets(body)
  }

  /** No name is assigned that has been assigned before, in this arm or before the branch. */
  predicate SingleAssign(b: Block, before: set<string>)
    decreases b
  {
    match b
    case BNil => true
    case BCons(n, rest) => SingleNode(n, before) && SingleAssign(rest, before + NodeTargets(n))
  }

  predicate SingleNode(n: Node, before: set<string>)
    decreases n
  {
    match n
    case BranchN(_, arms) => SingleArms(arms, before)
    case _ => NodeTargets(n) !! before
  }

  predicate SingleArms(arms: NodeArms, before: set<string>)
    decreases arms
  {
    match arms
    case CaseN(_, body, rest) => SingleAssign(body, before) && SingleArms(rest, before)
    case ElseN(body) => SingleAssign(body, before)
  }

  predicate IsCopy(b: Binding) {
    b.value.Var? && GetOr(b.sources, b.value.name, []) != []
  }

  /** Every plain assignment copies one variable that some call has produced. */
  predicate CopiesOnly(bs: seq<Binding>) {
    forall b :: b in bs ==> IsCopy(b)
  }

  // ----- What stays as it is while a block is analysed -----

  lemma {:induction false} KeysAfter(p: Producers, b: Block)
    ensures After(p, b).Keys == p.Keys + Targets(b)
    decreases b
  {
    if b.BCons? {
      if b.head.BranchN? {
        KeysAfterArms(p, b.head.arms);
      }
      KeysAfter(AfterNode(p, b.head), b.tail);
    }
  }

  lemma {:induction false} KeysAfterArms(p: Producers, arms: NodeArms)
    ensures MergeAll(map[], AfterArms(p, arms)).Keys == p.Keys + ArmTargets(arms)
    decreases arms, 1
  {
    MergeKeys(map[], AfterArms(p, arms));
    ArmKeys(p, arms);
  }

  ghost function AllKeys(maps: seq<Producers>): set<string> {
    if maps == [] then {} else maps[0].Keys + AllKeys(maps[1..])
  }

  lemma {:induction false} MergeKeys(acc: Producers, maps: seq<Producers>)
    ensures MergeAll(acc, maps).Keys == acc.Keys + AllKeys(maps)
    decreases |maps|
  {
    if maps != [] {
      MergeKeys(Merge(acc, maps[0]), maps[1..]);
    }
  }

  lemma {:induction false} ArmKeys(p: Producers, arms: NodeArms)
    ensures AllKeys(AfterArms(p, arms)) == p.Keys + ArmTargets(arms)
    decreases arms, 0
  {
    var ms := AfterArms(p, arms);
    match arms
    case CaseN(_, body, rest) =>
      KeysAfter(p, body);
      ArmKeys(p, rest);
      assert ms[0] == After(p, body) && ms[1..] == AfterArms(p, rest);
    case ElseN(body) =>
      KeysAfter(p, body);
      assert ms[0] == After(p, body) && ms[1..] == [];
  }

  ghost predicate SameFor(p: Producers, q: Producers, v: string) {
    v in p && v in q && forall x :: x in p[v] <==> x in q[v]
  }

  lemma {:induction false} Unchanged(p: Producers, b: Block, v: string)
    requires v in p && SingleAssign(b, p.Keys)
    ensures SameFor(p, After(p, b), v)
    decreases b
  {
    if b.BCons? {
      NodeUnchanged(p, b.head, v);
      KeysAfter(p, BCons(b.head, BNil));
      assert AfterNode(p, b.head).Keys == p.Keys + NodeTargets(b.head);
      Unchanged(AfterNode(p, b.head), b.tail, v);
    }
  }

  lemma {:induction false} NodeUnchanged(p: Producers, n: Node, v: string)
    requires v in p && SingleNode(n, p.Keys)
    ensures SameFor(p, AfterNode(p, n), v)
    decreases n
  {
    if n.BranchN? {
      var ms := AfterArms(p, n.arms);
      ArmsUnchanged(p, n.arms, v);
      MergeAllMembers(map[], ms, v);
      assert SameFor(p, ms[0], v);
      forall x
        ensures x in GetOr(MergeAll(map[], ms), v, []) <==> x in p[v]
      {
        assert forall i :: 0 <= i < |ms| ==> SameFor(p, ms[i], v) && GetOr(ms[i], v, []) == ms[i][v];
      }
    }
  }

  lemma {:induction false} ArmsUnchanged(p: Producers, arms: NodeArms, v: string)
    requires v in p && SingleArms(arms, p.Keys)
    ensures AfterArms(p, arms) != []
    ensures forall i :: 0 <= i < |AfterArms(p, arms)| ==> SameFor(p, AfterArms(p, arms)[i], v)
    decreases arms
  {
    match arms
    case CaseN(_, body, rest) =>
      Unchanged(p, body, v);
      ArmsUnchanged(p, rest, v);
    case ElseN(body) =>
      Unchanged(p, body, v);
  }

  // ----- Where listed ids come from -----

  lemma {:induction false} AfterIds(p: Producers, b: Block, v: string, x: Id)
    requires Lists(After(p, b), v, x)
    ensures x in AllIds(b) || exists w :: Lists(p, w, x)
    decreases b
  {
    match b
    case BNil =>
      assert Lists(p, v, x);
    case BCons(n, rest) =>
      AfterIds(AfterNode(p, n), rest, v, x);
      if x !in AllIds(rest) {
        var w :| Lists(AfterNode(p, n), w, x);
        NodeAfterIds(p, n, w, x);
      }
  }

  lemma {:induction false} NodeAfterIds(p: Producers, n: Node, v: string, x: Id)
    requires Lists(AfterNode(p, n), v, x)
    ensures x in NodeIds(n) || exists w :: Lists(p, w, x)
    decreases n
  {
    match n
    case CallN(id, call) =>
      if x != id {
        assert Lists(p, v, x);
      }
    case BindN(_, t, value) =>
      if v == t {
        InheritedMembers(p, Refs(value), [], x);
        var m :| m in Refs(value) && m in p && x in p[m];
        assert Lists(p, m, x);
      } else {
        assert Lists(p, v, x);
      }
    case TermN(_, _, _, _) =>
      assert Lists(p, v, x);
    case BranchN(_, arms) =>
      MergeAllMembers(map[], AfterArms(p, arms), v);
      assert x in GetOr(AfterNode(p, n), v, []);
      var k :| 0 <= k < |AfterArms(p, arms)| && x in GetOr(AfterArms(p, arms)[k], v, []);
      ArmAfterIds(p, arms, k, v, x);
      ArmIdsHave(arms, k);
  }

  function Bodies(arms: NodeArms): seq<Block> {
    match arms
    case CaseN(_, body, rest) => [body] + Bodies(rest)
    case ElseN(body) => [body]
  }

  lemma {:induction false} ArmAfterIds(p: Producers, arms: NodeArms, k: nat, v: string, x: Id)
    requires k < |AfterArms(p, arms)| && Lists(AfterArms(p, arms)[k], v, x)
    ensures |Bodies(arms)| == |AfterArms(p, arms)|
    ensures x in AllIds(Bodies(arms)[k]) || exists w :: Lists(p, w, x)
    decreases arms
  {
    match arms
    case CaseN(_, body, rest) =>
      BodiesCount(p, rest);
      if k == 0 {
        AfterIds(p, body, v, x);
      } else {
        ArmAfterIds(p, rest, k - 1, v, x);
      }
    case ElseN(body) =>
      AfterIds(p, body, v, x);
  }

  lemma {:induction false} BodiesCount(p: Producers, arms: NodeArms)
    ensures |Bodies(arms)| == |AfterArms(p, arms)| >= 1
    decreases arms
  {
    if arms.CaseN? {
      BodiesCount(p, arms.rest);
    }
  }

  lemma {:induction false} ArmIdsHave(arms: NodeArms, k: nat)
    requires k < |Bodies(arms)|
    ensures forall x :: x in AllIds(Bodies(arms)[k]) ==> x in ArmIds(arms)
    decreases arms
  {
    if arms.CaseN? && k > 0 {
      ArmIdsHave(arms.rest, k - 1);
    }
  }

  /** Two arms have no id in common, and each arm repeats none. */
  lemma {:induction false} ArmIdsApart(arms: NodeArms, i: nat, j: nat, x: Id)
    requires NoDup(ArmIds(arms)) && i < |Bodies(arms)| && j < |Bodies(arms)|
    requires x in AllIds(Bodies(arms)[i]) && x in AllIds(Bodies(arms)[j])
    ensures i == j
    decreases arms
  {
    if arms.CaseN? {
      NoDupParts(AllIds(arms.body), ArmIds(arms.rest));
      if i == 0 && j > 0 {
        ArmIdsHave(arms.rest, j - 1);
      } else if j == 0 && i > 0 {
        ArmIdsHave(arms.rest, i - 1);
      } else if i > 0 && j > 0 {
        ArmIdsApart(arms.rest, i - 1, j - 1, x);
      }
    }
  }

  // ----- Every listed variable has a producer -----

  ghost predicate AllProduced(p: Producers) {
    forall v :: v in p ==> p[v] != []
  }

  lemma CopyProduced(p: Producers, t: string, y: string)
    requires AllProduced(p) && GetOr(p, y, []) != []
    ensures Inherited(p, [y], []) == AddNew([], p[y]) != []
    ensures AllProduced(p[t := Inherited(p, [y], [])])
  {
    assert Inherited(p, [y], []) == Inherited(p, [], AddNew([], p[y]));
    assert p[y][0] in AddNew([], p[y]);
  }

  lemma BindingIsCopy(p: Producers, n: Node)
    requires n.BindN? && CopiesOnly(NodeBindings(p, n))
    ensures n.value.Var? && GetOr(p, n.value.name, []) != []
  {
    assert IsCopy(NodeBindings(p, n)[0]);
  }

  lemma {:induction false} ProducedAfter(p: Producers, b: Block)
    requires AllProduced(p) && CopiesOnly(Bindings(p, b))
    ensures AllProduced(After(p, b))
    decreases b
  {
    if b.BCons? {
      NodeProducedAfter(p, b.head);
      ProducedAfter(AfterNode(p, b.head), b.tail);
    }
  }

  lemma {:induction false} NodeProducedAfter(p: Producers, n: Node)
    requires AllProduced(p) && CopiesOnly(NodeBindings(p, n))
    ensures AllProduced(AfterNode(p, n))
    decreases n
  {
    match n
    case BindN(_, t, _) =>
      BindingIsCopy(p, n);
      CopyProduced(p, t, n.value.name);
    case BranchN(_, arms) =>
      var ms := AfterArms(p, arms);
      ArmsProducedAfter(p, arms);
      forall v | v in MergeAll(map[], ms)
        ensures MergeAll(map[], ms)[v] != []
      {
        MergeAllMembers(map[], ms, v);
        var i :| 0 <= i < |ms| && v in ms[i];
        assert ms[i][v][0] in GetOr(ms[i], v, []);
        assert ms[i][v][0] in GetOr(MergeAll(map[], ms), v, []);
      }
    case _ =>
  }

  lemma {:induction false} ArmsProducedAfter(p: Producers, arms: NodeArms)
    requires AllProduced(p) && CopiesOnly(ArmBindings(p, arms))
    ensures forall i :: 0 <= i < |AfterArms(p, arms)| ==> AllProduced(AfterArms(p, arms)[i])
    decreases arms
  {
    match arms
    case CaseN(_, body, rest) =>
      ProducedAfter(p, body);
      ArmsProducedAfter(p, rest);
    case ElseN(body) =>
      ProducedAfter(p, body);
  }

  // ----- The invariant of a run -----

  /** Along a run each variable has one origin, which is listed; a listed last step is the origin. */
  ghost predicate Tracks(a: Arm, s: RunState) {
    a.definite <= s.env.Keys &&
    Below(s.env, a.producers) &&
    (forall v :: v in s.env ==> exists m :: s.env[v] == {m}) &&
    (forall v :: Lists(a.producers, v, s.at.node) ==> Origin(s.env, v, s.at.node))
  }

  /** The final map has all that is listed here, and of the given ids lists no more for these variables. */
  ghost predicate Agrees(p: Producers, final: Producers, ids: set<Id>) {
    forall v :: v in p ==>
      v in final && (forall x :: x in p[v] ==> x in final[v]) && (forall x :: x in ids && x in final[v] ==> x in p[v])
  }

  ghost predicate Apart(p: Producers, ids: seq<Id>) {
    forall v, x :: Lists(p, v, x) ==> x !in ids
  }

  ghost function IdSet(ids: seq<Id>): set<Id> {
    set x | x in ids
  }

  /** A name read: listed in the final map just when it has a value from a call, and then with its one origin. */
  ghost predicate ReadOk(e: Event, final: Producers, inputs: seq<string>) {
    e.ReadEv? ==>
      (e.name in final <==> e.name in e.env) &&
      (e.name !in final ==> e.name in inputs) &&
      (e.name in final ==> exists m ::
         e.env[e.name] == {m} && m in final[e.name] && (e.at.node in final[e.name] ==> m == e.at.node))
  }

  ghost predicate TraceOk(t: seq<Event>, final: Producers, inputs: seq<string>) {
    forall k :: 0 <= k < |t| ==> ReadOk(t[k], final, inputs)
  }

  ghost predicate FinalOk(s: Scope, final: Producers, inputs: seq<string>) {
    NoneUndefined(s) && (forall n :: n in s.inputs ==> n in inputs) && forall n :: n in inputs ==> n !in final
  }

  lemma ReadsOk(consumer: Id, names: seq<string>, a: Arm, s: RunState, final: Producers, inputs: seq<string>)
    requires Tracks(a, s) && Agrees(a.producers, final, {s.at.node})
    requires forall n :: n in names ==> n in a.definite || n in inputs
    requires forall n :: n in inputs ==> n !in final
    ensures TraceOk(ReadEvents(consumer, names, s), final, inputs)
  {
    forall k | 0 <= k < |names|
      ensures ReadOk(ReadEv(consumer, names[k], s.env, s.at), final, inputs)
    {
      var v := names[k];
      assert v in names;
      assert v in s.env.Keys ==> v in a.producers.Keys && v in final;
      if v in final {
        var m :| s.env[v] == {m};
        assert Origin(s.env, v, m);
        assert Lists(a.producers, v, m);
        if s.at.node in final[v] {
          assert Lists(a.producers, v, s.at.node);
          assert Origin(s.env, v, s.at.node);
        }
        assert s.env[v] == {m} && m in final[v] && (s.at.node in final[v] ==> m == s.at.node);
      }
    }
  }

  lemma AgreesEarlier(p: Producers, b: Block, final: Producers, ids: set<Id>, fewer: set<Id>)
    requires SingleAssign(b, p.Keys) && Agrees(After(p, b), final, ids) && fewer <= ids
    ensures Agrees(p, final, fewer)
  {
    forall v | v in p
      ensures v in final && (forall x :: x in p[v] ==> x in final[v]) && (forall x :: x in fewer && x in final[v] ==> x in p[v])
    {
      Unchanged(p, b, v);
    }
  }

  // ----- The invariant is kept -----

  lemma TraceOkConcat(t: seq<Event>, u: seq<Event>, final: Producers, inputs: seq<string>)
    requires TraceOk(t, final, inputs) && TraceOk(u, final, inputs)
    ensures TraceOk(t + u, final, inputs)
  {
  }

  lemma AgreesFewer(p: Producers, final: Producers, ids: set<Id>, fewer: set<Id>)
    requires Agrees(p, final, ids) && fewer <= ids
    ensures Agrees(p, final, fewer)
  {
  }

  lemma FinalOkEarlier(s: Scope, t: Scope, final: Producers, inputs: seq<string>)
    requires Grows(s, t) && FinalOk(t, final, inputs)
    ensures FinalOk(s, final, inputs)
  {
    NoneUndefinedEarlier(s, t);
    assert forall n :: n in s.inputs ==> n in t.inputs;
  }

  ghost predicate BlockReady(s: Scope, b: Block, tail: bool, q: RunState, final: Producers, inputs: seq<string>) {
    ScopeOk(s) && Analyze(s, b, tail).Ok? && FinalOk(Analyze(s, b, tail).value, final, inputs) &&
    Tracks(Snapshot(s), q) && AllProduced(s.producers) &&
    SingleAssign(b, s.producers.Keys) && CopiesOnly(Bindings(s.producers, b)) &&
    NoDup(AllIds(b)) && Apart(s.producers, AllIds(b)) &&
    Agrees(After(s.producers, b), final, IdSet(AllIds(b)) + {q.at.node})
  }

  ghost predicate NodeReady(s: Scope, n: Node, last: bool, q: RunState, final: Producers, inputs: seq<string>) {
    ScopeOk(s) && AnalyzeNode(s, n, last).Ok? && FinalOk(AnalyzeNode(s, n, last).value, final, inputs) &&
    Tracks(Snapshot(s), q) && AllProduced(s.producers) &&
    SingleNode(n, s.producers.Keys) && CopiesOnly(NodeBindings(s.producers, n)) &&
    NoDup(NodeIds(n)) && Apart(s.producers, NodeIds(n)) &&
    Agrees(AfterNode(s.producers, n), final, IdSet(NodeIds(n)) + {q.at.node})
  }

  /** The reads of a run are right; if the run goes on, the invariant holds, and its last step is one of the given ids. */
  ghost predicate RunOk(r: TreeRun, after: Arm, ids: set<Id>, final: Producers, inputs: seq<string>) {
    TraceOk(r.trace, final, inputs) &&
    (r.stop.None? ==> Tracks(after, r.after) && r.after.at.node in ids)
  }

  lemma {:induction false} BlockOrigins(s: Scope, b: Block, tail: bool, q: RunState, final: Producers, inputs: seq<string>)
    requires BlockReady(s, b, tail, q, final, inputs)
    ensures RunOk(RunBlock(b, q), Snapshot(Analyze(s, b, tail).value), IdSet(AllIds(b)) + {q.at.node}, final, inputs)
    decreases b
  {
    if b.BCons? {
      var n, last := b.head, tail && b.tail.BNil?;
      HeadReady(s, b, tail, q, final, inputs);
      NodeOrigins(s, n, last, q, final, inputs);
      var r := RunNode(n, q);
      if r.stop.None? {
        RestReady(s, b, tail, q, final, inputs);
        BlockOrigins(AnalyzeNode(s, n, last).value, b.tail, tail, r.after, final, inputs);
        TraceOkConcat(r.trace, RunBlock(b.tail, r.after).trace, final, inputs);
      }
    }
  }

  lemma HeadReady(s: Scope, b: Block, tail: bool, q: RunState, final: Producers, inputs: seq<string>)
    requires b.BCons? && BlockReady(s, b, tail, q, final, inputs)
    ensures NodeReady(s, b.head, tail && b.tail.BNil?, q, final, inputs)
  {
    var n, last := b.head, tail && b.tail.BNil?;
    var s1 := AnalyzeNode(s, n, last).value;
    AnalyzeNodeOk(s, n, last);
    AnalyzeNodeProducers(s, n, last);
    AnalyzeOk(s1, b.tail, tail);
    FinalOkEarlier(s1, Analyze(s1, b.tail, tail).value, final, inputs);
    NoDupParts(NodeIds(n), AllIds(b.tail));
    KeysAfter(s.producers, BCons(n, BNil));
    assert s1.producers.Keys == s.producers.Keys + NodeTargets(n);
    AgreesEarlier(s1.producers, b.tail, final, IdSet(AllIds(b)) + {q.at.node}, IdSet(NodeIds(n)) + {q.at.node});
  }

  lemma RestReady(s: Scope, b: Block, tail: bool, q: RunState, final: Producers, inputs: seq<string>)
    requires b.BCons? && BlockReady(s, b, tail, q, final, inputs)
    requires var last := tail && b.tail.BNil?;
             AnalyzeNode(s, b.head, last).Ok? &&
             RunOk(RunNode(b.head, q), Snapshot(AnalyzeNode(s, b.head, last).value), IdSet(NodeIds(b.head)) + {q.at.node}, final, inputs)
    requires RunNode(b.head, q).stop.None?
    ensures BlockReady(AnalyzeNode(s, b.head, tail && b.tail.BNil?).value, b.tail, tail, RunNode(b.head, q).after, final, inputs)
  {
    var n, last, r := b.head, tail && b.tail.BNil?, RunNode(b.head, q);
    var s1 := AnalyzeNode(s, n, last).value;
    AnalyzeNodeOk(s, n, last);
    AnalyzeNodeProducers(s, n, last);
    NoDupParts(NodeIds(n), AllIds(b.tail));
    KeysAfter(s.producers, BCons(n, BNil));
    assert s1.producers.Keys == s.producers.Keys + NodeTargets(n);
    NodeProducedAfter(s.producers, n);
    forall v, x | Lists(s1.producers, v, x)
      ensures x !in AllIds(b.tail)
    {
      NodeAfterIds(s.producers, n, v, x);
      assert forall w :: Lists(s.producers, w, x) ==> x !in AllIds(b);
    }
    AgreesFewer(After(s1.producers, b.tail), final, IdSet(AllIds(b)) + {q.at.node}, IdSet(AllIds(b.tail)) + {r.after.at.node});
  }

  lemma {:induction false} NodeOrigins(s: Scope, n: Node, last: bool, q: RunState, final: Producers, inputs: seq<string>)
    requires NodeReady(s, n, last, q, final, inputs)
    ensures RunOk(RunNode(n, q), Snapshot(AnalyzeNode(s, n, last).value), IdSet(NodeIds(n)) + {q.at.node}, final, inputs)
    decreases n
  {
    assert SingleAssign(BCons(n, BNil), s.producers.Keys);
    AgreesEarlier(s.producers, BCons(n, BNil), final, IdSet(NodeIds(n)) + {q.at.node}, {q.at.node});
    match n
    case CallN(_, _) => CallOrigins(s, n, last, q, final, inputs);
    case BindN(_, _, _) => BindOrigins(s, n, last, q, final, inputs);
    case TermN(id, _, _, names) =>
      RegisterOk(s, names);
      ReadsOk(id, names, Snapshot(s), q, final, inputs);
    case BranchN(id, arms) =>
      BranchReady(s, n, last, q, final, inputs);
      var k := ArmsOrigins(s, Snapshot(s), arms, last, id, 0, Head(q.picks), q.(picks := Tail(q.picks)), final, inputs);
      BranchJoins(s, n, last, q, k);
  }

  lemma CallOrigins(s: Scope, n: Node, last: bool, q: RunState, final: Producers, inputs: seq<string>)
    requires n.CallN? && NodeReady(s, n, last, q, final, inputs) && Agrees(s.producers, final, {q.at.node})
    ensures RunOk(RunNode(n, q), Snapshot(AnalyzeNode(s, n, last).value), IdSet(NodeIds(n)) + {q.at.node}, final, inputs)
  {
    RegisterOk(s, CallRefs(n.call));
    var s1 := RegisterRefs(s, CallRefs(n.call));
    WarnRawOk(s1, CallValues(n.call));
    FinalOkEarlier(s1, AnalyzeNode(s, n, last).value, final, inputs);
    ReadsOk(n.id, CallRefs(n.call), Snapshot(s), q, final, inputs);
    CallTracks(Snapshot(s), q, n.id, n.call);
    var seen := ReadEvents(n.id, CallRefs(n.call), q);
    TraceOkConcat(seen, [CallEv(n.id, n.call)], final, inputs);
    if n.call.target.Some? {
      TraceOkConcat(seen + [CallEv(n.id, n.call)], [WriteEv(n.id, n.call.target.value)], final, inputs);
    }
  }

  lemma BindOrigins(s: Scope, n: Node, last: bool, q: RunState, final: Producers, inputs: seq<string>)
    requires n.BindN? && NodeReady(s, n, last, q, final, inputs) && Agrees(s.producers, final, {q.at.node})
    ensures RunOk(RunNode(n, q), Snapshot(AnalyzeNode(s, n, last).value), IdSet(NodeIds(n)) + {q.at.node}, final, inputs)
  {
    var names := Refs(n.value);
    RegisterOk(s, names);
    var s1 := RegisterRefs(s, names);
    WarnRawOk(s1, [n.value]);
    FinalOkEarlier(s1, AnalyzeNode(s, n, last).value, final, inputs);
    ReadsOk(n.id, names, Snapshot(s), q, final, inputs);
    BindingIsCopy(s.producers, n);
    var y := n.value.name;
    assert y in names && y in s.producers && y in s1.ever;
    CopyTracks(Snapshot(s), q, n.target, y);
    TraceOkConcat(ReadEvents(n.id, names, q), [WriteEv(n.id, n.target)], final, inputs);
  }

  lemma CallTracks(a: Arm, q: RunState, id: Id, call: CallInfo)
    requires Tracks(a, q) && Apart(a.producers, [id])
    ensures var r := RunNode(CallN(id, call), q);
            Tracks(if call.target.Some? then Arm(a.definite + {call.target.value}, a.producers[call.target.value := [id]]) else a, r.after)
  {
    assert forall v :: Lists(a.producers, v, id) ==> id !in [id];
    if call.target.Some? {
      var t := call.target.value;
      CallBelow(q.env, a.producers, t, id);
      var e, p := q.env[t := {id}], a.producers[t := [id]];
      assert e[t] == {id};
      forall v | v in e
        ensures exists m :: e[v] == {m}
      {
        if v != t {
          var m :| q.env[v] == {m};
          assert e[v] == {m};
        }
      }
      forall v | Lists(p, v, id)
        ensures Origin(e, v, id)
      {
        assert v != t ==> Lists(a.producers, v, id);
      }
    }
  }

  lemma CopyTracks(a: Arm, q: RunState, t: string, y: string)
    requires Tracks(a, q) && y in a.definite && y in a.producers && a.producers[y] != []
    ensures Tracks(Arm(a.definite + {t}, a.producers[t := Inherited(a.producers, [y], [])]),
                   q.(env := q.env[t := DepsOf(q.env, [y])]))
  {
    BindBelow(q.env, a.producers, t, [y]);
    assert DepsOf(q.env, [y]) == q.env[y];
    var p := a.producers[t := Inherited(a.producers, [y], [])];
    forall v | Lists(p, v, q.at.node)
      ensures Origin(q.env[t := DepsOf(q.env, [y])], v, q.at.node)
    {
      if v == t {
        InheritedMembers(a.producers, [y], [], q.at.node);
        assert Lists(a.producers, y, q.at.node);
        assert Origin(q.env, y, q.at.node);
      } else {
        assert Lists(a.producers, v, q.at.node);
      }
    }
  }

  // ----- Branches -----

  lemma ListedInOneArm(p: Producers, id: Id, arms: NodeArms, v: string, x: Id, j: nat)
    requires NoDup(ArmIds(arms)) && id !in ArmIds(arms) && Apart(p, [id] + ArmIds(arms))
    requires x in GetOr(MergeAll(map[], AfterArms(p, arms)), v, [])
    requires j < |Bodies(arms)| && (x in AllIds(Bodies(arms)[j]) || x == id)
    ensures |Bodies(arms)| == |AfterArms(p, arms)| && x in GetOr(AfterArms(p, arms)[j], v, [])
  {
    var ms := AfterArms(p, arms);
    BodiesCount(p, arms);
    MergeAllMembers(map[], ms, v);
    var i :| 0 <= i < |ms| && x in GetOr(ms[i], v, []);
    ArmIdsHave(arms, i);
    ArmIdsHave(arms, j);
    assert Lists(ms[i], v, x);
    ArmAfterIds(p, arms, i, v, x);
    assert forall w :: Lists(p, w, x) ==> x !in [id] + ArmIds(arms);
    if x in AllIds(Bodies(arms)[j]) {
      ArmIdsApart(arms, i, j, x);
    }
  }

  /** The final map agrees with the map at the end of each arm, for the ids of that arm. */
  lemma ArmsAgree(p: Producers, id: Id, arms: NodeArms, final: Producers, ids: set<Id>)
    requires Agrees(MergeAll(map[], AfterArms(p, arms)), final, ids) && IdSet([id] + ArmIds(arms)) <= ids
    requires NoDup(ArmIds(arms)) && id !in ArmIds(arms) && Apart(p, [id] + ArmIds(arms))
    ensures |Bodies(arms)| == |AfterArms(p, arms)|
    ensures forall j :: 0 <= j < |Bodies(arms)| ==> Agrees(AfterArms(p, arms)[j], final, IdSet(AllIds(Bodies(arms)[j])) + {id})
  {
    var ms := AfterArms(p, arms);
    var m := MergeAll(map[], ms);
    BodiesCount(p, arms);
    forall j, v | 0 <= j < |ms| && v in ms[j]
      ensures v in final && (forall x :: x in ms[j][v] ==> x in final[v]) &&
              forall x :: x in IdSet(AllIds(Bodies(arms)[j])) + {id} && x in final[v] ==> x in ms[j][v]
    {
      MergeAllMembers(map[], ms, v);
      assert GetOr(ms[j], v, []) == ms[j][v] && GetOr(m, v, []) == m[v];
      ArmIdsHave(arms, j);
      forall x | x in IdSet(AllIds(Bodies(arms)[j])) + {id} && x in final[v]
        ensures x in ms[j][v]
      {
        assert x in [id] + ArmIds(arms);
        ListedInOneArm(p, id, arms, v, x, j);
      }
    }
  }

  ghost predicate ArmsReady(
    s: Scope, start: Arm, arms: NodeArms, last: bool, id: Id, q: RunState, final: Producers, inputs: seq<string>)
  {
    ScopeOk(Restore(s, start)) && AnalyzeArms(s, start, arms, last).Ok? &&
    FinalOk(AnalyzeArms(s, start, arms, last).value.0, final, inputs) &&
    Tracks(start, q) && AllProduced(start.producers) &&
    SingleArms(arms, start.producers.Keys) && CopiesOnly(ArmBindings(start.producers, arms)) &&
    NoDup(ArmIds(arms)) && Apart(start.producers, [id] + ArmIds(arms)) &&
    Agrees(start.producers, final, {q.at.node}) &&
    |Bodies(arms)| == |AfterArms(start.producers, arms)| &&
    forall j :: 0 <= j < |Bodies(arms)| ==>
      Agrees(AfterArms(start.producers, arms)[j], final, IdSet(AllIds(Bodies(arms)[j])) + {id})
  }

  lemma BranchReady(s: Scope, n: Node, last: bool, q: RunState, final: Producers, inputs: seq<string>)
    requires n.BranchN? && NodeReady(s, n, last, q, final, inputs) && Agrees(s.producers, final, {q.at.node})
    ensures ArmsReady(s, Snapshot(s), n.arms, last, n.id, q.(picks := Tail(q.picks)), final, inputs)
  {
    var r := AnalyzeArms(s, Snapshot(s), n.arms, last).value;
    ArmsOk(s, Snapshot(s), n.arms, last);
    JoinOk(r.0, r.1);
    FinalOkEarlier(r.0, Join(r.0, r.1), final, inputs);
    NoDupParts([n.id], ArmIds(n.arms));
    ArmsAgree(s.producers, n.id, n.arms, final, IdSet(NodeIds(n)) + {q.at.node});
  }

  lemma BranchJoins(s: Scope, n: Node, last: bool, q: RunState, k: nat)
    requires n.BranchN? && AnalyzeNode(s, n, last).Ok?
    requires NoDup(NodeIds(n)) && Apart(s.producers, NodeIds(n)) && k < |Bodies(n.arms)|
    requires k < |AnalyzeArms(s, Snapshot(s), n.arms, last).value.1|
    ensures var r, a := RunNode(n, q), AnalyzeArms(s, Snapshot(s), n.arms, last).value.1[k];
            Tracks(a, r.after) && r.after.at.node in IdSet(AllIds(Bodies(n.arms)[k])) + {n.id} ==>
              Tracks(Snapshot(AnalyzeNode(s, n, last).value), r.after) && r.after.at.node in IdSet(NodeIds(n))
  {
    var r := AnalyzeArms(s, Snapshot(s), n.arms, last).value;
    var q' := RunNode(n, q).after;
    AnalyzeArmsProducers(s, Snapshot(s), n.arms, last);
    NoDupParts([n.id], ArmIds(n.arms));
    ArmIdsHave(n.arms, k);
    if Tracks(r.1[k], q') && q'.at.node in IdSet(AllIds(Bodies(n.arms)[k])) + {n.id} {
      JoinTracks(s.producers, n.id, n.arms, r.0, r.1, k, q');
    }
  }

  lemma JoinTracks(p: Producers, id: Id, arms: NodeArms, s: Scope, paths: seq<Arm>, k: nat, q: RunState)
    requires paths != [] && ArmMaps(paths) == AfterArms(p, arms)
    requires NoDup(ArmIds(arms)) && id !in ArmIds(arms) && Apart(p, [id] + ArmIds(arms))
    requires k < |paths| && k < |Bodies(arms)| && Tracks(paths[k], q)
    requires q.at.node in IdSet(AllIds(Bodies(arms)[k])) + {id}
    ensures Tracks(Snapshot(Join(s, paths)), q)
  {
    var j := Join(s, paths);
    assert ArmMaps(paths)[k] == paths[k].producers;
    forall v | v in j.definite
      ensures v in paths[k].definite
    {
      IntersectMembers(ArmSets(paths), v);
      assert v in ArmSets(paths)[k];
    }
    ArmBelow(q.env, ArmMaps(paths), k);
    forall v | Lists(j.producers, v, q.at.node)
      ensures Origin(q.env, v, q.at.node)
    {
      assert q.at.node in GetOr(j.producers, v, []);
      ListedInOneArm(p, id, arms, v, q.at.node, k);
      assert Lists(paths[k].producers, v, q.at.node);
    }
  }

  /** `k` is the arm that the run takes. */
  lemma {:induction false} ArmsOrigins(
    s: Scope, start: Arm, arms: NodeArms, last: bool, id: Id, i: nat, pick: nat, q: RunState,
    final: Producers, inputs: seq<string>) returns (k: nat)
    requires ArmsReady(s, start, arms, last, id, q, final, inputs)
    ensures var r, a := RunArms(id, arms, i, pick, q), AnalyzeArms(s, start, arms, last).value.1;
            k < |a| && k < |Bodies(arms)| && RunOk(r, a[k], IdSet(AllIds(Bodies(arms)[k])) + {id}, final, inputs)
    decreases arms
  {
    hide RegisterCond, CondRefs, BlockReady, RunOk, FinalOk, Agrees, Apart, Tracks, SingleArms, ScopeOk;
    match arms
    case CaseN(cond, body, rest) =>
      var s0 := RegisterCond(Restore(s, start), cond);
      var r: TreeRun;
      if pick == i {
        CaseReady(s, start, arms, last, id, CaseId(i), q, final, inputs);
        BlockOrigins(s0, body, last, q.(at := Pos(id, CaseId(i))), final, inputs);
        r := RunBlock(body, q.(at := Pos(id, CaseId(i))));
        k := 0;
      } else {
        LaterArmsReady(s, start, arms, last, id, q, final, inputs);
        k := ArmsOrigins(Analyze(s0, body, last).value, start, rest, last, id, i + 1, pick, q, final, inputs);
        r := RunArms(id, rest, i + 1, pick, q);
        k := k + 1;
      }
      CondReads(s, start, arms, last, id, q, final, inputs);
      LaterRunOk(ReadEvents(id, CondRefs(cond), q), r, RunArms(id, arms, i, pick, q),
                 AnalyzeArms(s, start, arms, last).value.1[k], IdSet(AllIds(Bodies(arms)[k])) + {id}, final, inputs);
    case ElseN(body) =>
      CaseReady(s, start, arms, last, id, FALSE, q, final, inputs);
      BlockOrigins(Restore(s, start), body, last, q.(at := Pos(id, FALSE)), final, inputs);
      k := 0;
      var r := RunBlock(body, q.(at := Pos(id, FALSE)));
      assert [] + r.trace == r.trace && TraceOk([], final, inputs);
      LaterRunOk([], r, RunArms(id, arms, i, pick, q), AnalyzeArms(s, start, arms, last).value.1[0], IdSet(AllIds(body)) + {id}, final, inputs);
  }

  /** A run with some more reads before it. */
  lemma LaterRunOk(seen: seq<Event>, r: TreeRun, w: TreeRun, after: Arm, ids: set<Id>, final: Producers, inputs: seq<string>)
    requires TraceOk(seen, final, inputs) && RunOk(r, after, ids, final, inputs)
    requires w.trace == seen + r.trace && w.stop == r.stop && w.after == r.after
    ensures RunOk(w, after, ids, final, inputs)
  {
    TraceOkConcat(seen, r.trace, final, inputs);
  }

  lemma EnterTracks(a: Arm, q: RunState, id: Id, handle: string)
    requires Tracks(a, q) && Apart(a.producers, [id])
    ensures Tracks(a, q.(at := Pos(id, handle)))
  {
    assert forall v :: Lists(a.producers, v, id) ==> id !in [id];
  }

  function FirstBody(arms: NodeArms): Block {
    if arms.CaseN? then arms.body else arms.orelse
  }

  function FirstScope(s: Scope, start: Arm, arms: NodeArms): Scope {
    if arms.CaseN? then RegisterCond(Restore(s, start), arms.cond) else Restore(s, start)
  }

  lemma FirstScopeOk(s: Scope, start: Arm, arms: NodeArms, last: bool, final: Producers, inputs: seq<string>)
    requires ScopeOk(Restore(s, start)) && AnalyzeArms(s, start, arms, last).Ok?
    requires FinalOk(AnalyzeArms(s, start, arms, last).value.0, final, inputs)
    ensures var s0 := FirstScope(s, start, arms);
            ScopeOk(s0) && Snapshot(s0) == start && Analyze(s0, FirstBody(arms), last).Ok? &&
            ScopeOk(Analyze(s0, FirstBody(arms), last).value) && s.ever <= Analyze(s0, FirstBody(arms), last).value.ever &&
            FinalOk(s0, final, inputs) && FinalOk(Analyze(s0, FirstBody(arms), last).value, final, inputs)
  {
    var s0 := FirstScope(s, start, arms);
    if arms.CaseN? {
      RegisterCondOk(Restore(s, start), arms.cond);
    }
    AnalyzeOk(s0, FirstBody(arms), last);
    var s1 := Analyze(s0, FirstBody(arms), last).value;
    if arms.CaseN? {
      ArmsOk(s1, start, arms.rest, last);
    }
    FinalOkEarlier(s1, AnalyzeArms(s, start, arms, last).value.0, final, inputs);
    FinalOkEarlier(s0, s1, final, inputs);
  }

  lemma CaseReady(
    s: Scope, start: Arm, arms: NodeArms, last: bool, id: Id, handle: string, q: RunState, final: Producers, inputs: seq<string>)
    requires ArmsReady(s, start, arms, last, id, q, final, inputs)
    ensures BlockReady(FirstScope(s, start, arms), FirstBody(arms), last, q.(at := Pos(id, handle)), final, inputs)
  {
    FirstScopeOk(s, start, arms, last, final, inputs);
    assert AfterArms(start.producers, arms)[0] == After(start.producers, FirstBody(arms));
    assert Bodies(arms)[0] == FirstBody(arms);
    if arms.CaseN? {
      NoDupParts(AllIds(arms.body), ArmIds(arms.rest));
    }
    EnterTracks(start, q, id, handle);
  }

  lemma LaterArmsReady(
    s: Scope, start: Arm, arms: NodeArms, last: bool, id: Id, q: RunState, final: Producers, inputs: seq<string>)
    requires arms.CaseN? && ArmsReady(s, start, arms, last, id, q, final, inputs)
    ensures ArmsReady(Analyze(FirstScope(s, start, arms), arms.body, last).value, start, arms.rest, last, id, q, final, inputs)
  {
    FirstScopeOk(s, start, arms, last, final, inputs);
    NoDupParts(AllIds(arms.body), ArmIds(arms.rest));
    var ms, bs := AfterArms(start.producers, arms), Bodies(arms);
    assert AfterArms(start.producers, arms.rest) == ms[1..] && Bodies(arms.rest) == bs[1..];
  }

  lemma CondReads(
    s: Scope, start: Arm, arms: NodeArms, last: bool, id: Id, q: RunState, final: Producers, inputs: seq<string>)
    requires arms.CaseN? && ArmsReady(s, start, arms, last, id, q, final, inputs)
    ensures TraceOk(ReadEvents(id, CondRefs(arms.cond), q), final, inputs)
  {
    FirstScopeOk(s, start, arms, last, final, inputs);
    RegisterCondOk(Restore(s, start), arms.cond);
    ReadsOk(id, CondRefs(arms.cond), start, q, final, inputs);
  }
}
