/**
 Soundness of the definite-assignment analysis: without a "possibly undefined" warning every variable read on any
 run has been assigned earlier on that run or is an input, and no input is ever assigned.
 */
module DefiniteAssignment {
  import opened Prelude
  import opened Text
  import opened Pseudocode
  import opened FlowSemantics
  import opened Scoping

  // ----- The environment of a run holds what the run has written so far -----

  ghost function Written(t: seq<Event>): set<string> {
    set i | 0 <= i < |t| && t[i].WriteEv? :: t[i].name
  }

  ghost function CalledIn(t: seq<Event>): set<Id> {
    set i | 0 <= i < |t| && t[i].CallEv? :: t[i].id
  }

  ghost predicate Within(env: Env, names: set<string>, ids: set<Id>) {
    env.Keys <= names && forall v :: v in env ==> env[v] <= ids
  }

  /** At each read, the environment has only names written and calls made before it. */
  ghost predicate Tracked(t: seq<Event>, names: set<string>, ids: set<Id>) {
    forall k :: 0 <= k < |t| && t[k].ReadEv? ==> Within(t[k].env, names + Written(t[..k]), ids + CalledIn(t[..k]))
  }

  lemma WrittenConcat(a: seq<Event>, b: seq<Event>)
    ensures Written(a + b) == Written(a) + Written(b)
    ensures CalledIn(a + b) == CalledIn(a) + CalledIn(b)
  {
    var c := a + b;
    assert forall i :: 0 <= i < |a| ==> c[i] == a[i];
    assert forall i :: 0 <= i < |b| ==> c[|a| + i] == b[i];
    assert forall i :: |a| <= i < |c| ==> c[i] == b[i - |a|];
  }

  lemma TrackedConcat(a: seq<Event>, b: seq<Event>, names: set<string>, ids: set<Id>)
    requires Tracked(a, names, ids) && Tracked(b, names + Written(a), ids + CalledIn(a))
    ensures Tracked(a + b, names, ids)
  {
    forall k | 0 <= k < |a + b| && (a + b)[k].ReadEv?
      ensures Within((a + b)[k].env, names + Written((a + b)[..k]), ids + CalledIn((a + b)[..k]))
    {
      if k < |a| {
        assert (a + b)[..k] == a[..k];
      } else {
        assert (a + b)[..k] == a + b[..k - |a|];
        WrittenConcat(a, b[..k - |a|]);
        assert (a + b)[k] == b[k - |a|];
      }
    }
  }

  lemma TrackedReads(consumer: Id, xs: seq<string>, s: RunState, names: set<string>, ids: set<Id>)
    requires Within(s.env, names, ids)
    ensures Tracked(ReadEvents(consumer, xs, s), names, ids)
    ensures Written(ReadEvents(consumer, xs, s)) == {} && CalledIn(ReadEvents(consumer, xs, s)) == {}
  {
  }

  ghost predicate TrackedRun(r: TreeRun, names: set<string>, ids: set<Id>) {
    Tracked(r.trace, names, ids) && Within(r.after.env, names + Written(r.trace), ids + CalledIn(r.trace))
  }

  lemma {:induction false} RunTracked(b: Block, s: RunState, names: set<string>, ids: set<Id>)
    requires Within(s.env, names, ids)
    ensures TrackedRun(RunBlock(b, s), names, ids)
    decreases b
  {
    if b.BCons? {
      var r := RunNode(b.head, s);
      NodeTracked(b.head, s, names, ids);
      if r.stop.None? {
        var q := RunBlock(b.tail, r.after);
        RunTracked(b.tail, r.after, names + Written(r.trace), ids + CalledIn(r.trace));
        TrackedConcat(r.trace, q.trace, names, ids);
        WrittenConcat(r.trace, q.trace);
        assert names + Written(r.trace) + Written(q.trace) == names + Written(r.trace + q.trace);
        assert ids + CalledIn(r.trace) + CalledIn(q.trace) == ids + CalledIn(r.trace + q.trace);
      }
    }
  }

  lemma {:induction false} NodeTracked(n: Node, s: RunState, names: set<string>, ids: set<Id>)
    requires Within(s.env, names, ids)
    ensures TrackedRun(RunNode(n, s), names, ids)
    decreases n
  {
    match n
    case CallN(id, call) =>
      var seen, made := ReadEvents(id, CallRefs(call), s), [CallEv(id, call)];
      TrackedReads(id, CallRefs(call), s, names, ids);
      TrackedConcat(seen, made, names, ids);
      WrittenConcat(seen, made);
      assert made[0].CallEv? && id in CalledIn(made);
      if call.target.Some? {
        var put := [WriteEv(id, call.target.value)];
        TrackedConcat(seen + made, put, names, ids);
        WrittenConcat(seen + made, put);
        assert put[0].WriteEv? && call.target.value in Written(put);
      }
    case BindN(id, t, v) =>
      var seen, put := ReadEvents(id, Refs(v), s), [WriteEv(id, t)];
      TrackedReads(id, Refs(v), s, names, ids);
      TrackedConcat(seen, put, names, ids);
      WrittenConcat(seen, put);
      assert put[0].WriteEv? && t in Written(put);
    case TermN(id, _, _, xs) =>
      TrackedReads(id, xs, s, names, ids);
    case BranchN(id, arms) =>
      ArmsTracked(id, arms, 0, Head(s.picks), s.(picks := Tail(s.picks)), names, ids);
  }

  lemma {:induction false} ArmsTracked(
    id: Id, arms: NodeArms, i: nat, pick: nat, s: RunState, names: set<string>, ids: set<Id>)
    requires Within(s.env, names, ids)
    ensures TrackedRun(RunArms(id, arms, i, pick, s), names, ids)
    decreases arms
  {
    match arms
    case CaseN(cond, body, rest) =>
      var r: TreeRun;
      if pick == i {
        RunTracked(body, s.(at := Pos(id, CaseId(i))), names, ids);
        r := RunBlock(body, s.(at := Pos(id, CaseId(i))));
      } else {
        ArmsTracked(id, rest, i + 1, pick, s, names, ids);
        r := RunArms(id, rest, i + 1, pick, s);
      }
      var seen := ReadEvents(id, CondRefs(cond), s);
      TrackedReads(id, CondRefs(cond), s, names, ids);
      assert names + {} == names && ids + {} == ids;
      TrackedConcat(seen, r.trace, names, ids);
      WrittenConcat(seen, r.trace);
    case ElseN(body) =>
      RunTracked(body, s.(at := Pos(id, FALSE)), names, ids);
  }

  // ----- What the analysis keeps -----

  ghost predicate ScopeOk(s: Scope) {
    s.definite <= s.producers.Keys <= s.ever &&
    (forall n :: n in s.inputs ==> n !in s.ever) &&
    (forall n :: n in s.warned ==> PossiblyUndefined(n) in s.warnings)
  }

  ghost predicate Grows(s: Scope, t: Scope) {
    s.inputs <= t.inputs && s.ever <= t.ever && s.warnings <= t.warnings
  }

  ghost predicate NoneUndefined(s: Scope) {
    forall w :: w in s.warnings ==> !w.PossiblyUndefined?
  }

  ghost predicate ArmOk(a: Arm, s: Scope) {
    a.definite <= a.producers.Keys <= s.ever
  }

  lemma {:induction false} RegisterOk(s: Scope, names: seq<string>)
    requires ScopeOk(s)
    ensures var r := RegisterRefs(s, names);
            ScopeOk(r) && Grows(s, r) && Snapshot(r) == Snapshot(s) && r.ever == s.ever &&
            (NoneUndefined(r) ==> forall n :: n in names ==> n in s.definite || n in r.inputs)
    decreases |names|
  {
    if names != [] {
      var s1 := RegisterRef(s, names[0]);
      RegisterOk(s1, names[1..]);
      var r := RegisterRefs(s, names);
      assert names == [names[0]] + names[1..];
      if names[0] !in s.definite && (names[0] in s.producers || names[0] in s.ever) {
        assert PossiblyUndefined(names[0]) in s1.warnings;
        assert PossiblyUndefined(names[0]) in r.warnings && !NoneUndefined(r);
      } else {
        assert names[0] in s.definite || names[0] in s1.inputs;
        assert names[0] in s1.inputs ==> names[0] in r.inputs;
        assert forall n :: n in names ==> n == names[0] || n in names[1..];
      }
    }
  }

  lemma {:induction false} RegisterComparisonsOk(s: Scope, cs: seq<Comparison>)
    requires ScopeOk(s)
    ensures var r := RegisterComparisons(s, cs);
            ScopeOk(r) && Grows(s, r) && Snapshot(r) == Snapshot(s) && r.ever == s.ever
    decreases |cs|
  {
    if cs != [] {
      RegisterOk(s, OptRefs(cs[0].value));
      RegisterComparisonsOk(RegisterRefs(s, OptRefs(cs[0].value)), cs[1..]);
    }
  }

  lemma RegisterCondOk(s: Scope, c: Condition)
    requires ScopeOk(s)
    ensures var r := RegisterCond(s, c);
            ScopeOk(r) && Grows(s, r) && Snapshot(r) == Snapshot(s) && r.ever == s.ever &&
            (NoneUndefined(r) ==> forall n :: n in CondRefs(c) ==> n in s.definite || n in r.inputs)
  {
    RegisterOk(s, CondRefs(c));
    var s1 := RegisterRefs(s, CondRefs(c));
    if c.Parsed? {
      RegisterComparisonsOk(s1, c.comparisons);
      assert forall w :: w in s1.warnings ==> w in RegisterCond(s, c).warnings;
    }
  }

  lemma {:induction false} AnalyzeOk(s: Scope, b: Block, tail: bool)
    requires ScopeOk(s) && Analyze(s, b, tail).Ok?
    ensures ScopeOk(Analyze(s, b, tail).value) && Grows(s, Analyze(s, b, tail).value)
    decreases b
  {
    if b.BCons? {
      AnalyzeNodeOk(s, b.head, tail && b.tail.BNil?);
      AnalyzeOk(AnalyzeNode(s, b.head, tail && b.tail.BNil?).value, b.tail, tail);
    }
  }

  lemma AssignOk(s: Scope, name: string, producers: seq<Id>)
    requires ScopeOk(s) && name !in s.inputs
    ensures ScopeOk(Assign(s, name, producers)) && Grows(s, Assign(s, name, producers))
  {
  }

  lemma WarnRawOk(s: Scope, values: seq<Value>)
    requires ScopeOk(s)
    ensures ScopeOk(WarnRaw(s, values)) && Grows(s, WarnRaw(s, values))
    ensures WarnRaw(s, values) == s.(warnings := WarnRaw(s, values).warnings)
  {
    WarnRawKeeps(s, values);
  }

  lemma {:induction false} AnalyzeNodeOk(s: Scope, n: Node, last: bool)
    requires ScopeOk(s) && AnalyzeNode(s, n, last).Ok?
    ensures ScopeOk(AnalyzeNode(s, n, last).value) && Grows(s, AnalyzeNode(s, n, last).value)
    decreases n
  {
    match n
    case CallN(id, call) =>
      RegisterOk(s, CallRefs(call));
      var s1 := RegisterRefs(s, CallRefs(call));
      WarnRawOk(s1, CallValues(call));
      if call.target.Some? {
        AssignOk(WarnRaw(s1, CallValues(call)), call.target.value, [id]);
      }
    case BindN(_, t, v) =>
      RegisterOk(s, Refs(v));
      var s1 := RegisterRefs(s, Refs(v));
      WarnRawOk(s1, [v]);
      AssignOk(WarnRaw(s1, [v]), t, Inherited(s1.producers, Refs(v), []));
    case TermN(_, _, _, names) =>
      RegisterOk(s, names);
    case BranchN(_, arms) =>
      ArmsOk(s, Snapshot(s), arms, last);
      var r := AnalyzeArms(s, Snapshot(s), arms, last).value;
      JoinOk(r.0, r.1);
  }

  lemma JoinOk(s: Scope, paths: seq<Arm>)
    requires paths != [] && ScopeOk(s) && forall a :: a in paths ==> ArmOk(a, s)
    ensures ScopeOk(Join(s, paths)) && Grows(s, Join(s, paths))
    ensures Join(s, paths).definite <= paths[0].definite
  {
    var j := Join(s, paths);
    forall v | v in j.definite
      ensures v in j.producers && v in paths[0].definite
    {
      IntersectMembers(ArmSets(paths), v);
      assert v in ArmSets(paths)[0] && paths[0] in paths;
      MergeAllMembers(map[], ArmMaps(paths), v);
      assert v in ArmMaps(paths)[0];
    }
    forall v | v in j.producers
      ensures v in s.ever
    {
      MergeAllMembers(map[], ArmMaps(paths), v);
      var i :| 0 <= i < |paths| && v in ArmMaps(paths)[i];
      assert paths[i] in paths;
    }
  }

  lemma {:induction false} ArmsOk(s: Scope, start: Arm, arms: NodeArms, last: bool)
    requires ScopeOk(Restore(s, start)) && AnalyzeArms(s, start, arms, last).Ok?
    ensures var r := AnalyzeArms(s, start, arms, last).value;
            ScopeOk(r.0) && Grows(s, r.0) && forall a :: a in r.1 ==> ArmOk(a, r.0)
    decreases arms
  {
    match arms
    case CaseN(cond, body, rest) =>
      var s0 := RegisterCond(Restore(s, start), cond);
      RegisterCondOk(Restore(s, start), cond);
      AnalyzeOk(s0, body, last);
      ArmsOk(Analyze(s0, body, last).value, start, rest, last);
    case ElseN(body) =>
      AnalyzeOk(Restore(s, start), body, last);
  }

  // ----- Soundness on runs -----

  ghost predicate ReadsKnown(t: seq<Event>, inputs: seq<string>) {
    forall k :: 0 <= k < |t| && t[k].ReadEv? ==> t[k].name in t[k].env || t[k].name in inputs
  }

  ghost predicate WritesEver(t: seq<Event>, ever: set<string>) {
    forall k :: 0 <= k < |t| && t[k].WriteEv? ==> t[k].name in ever
  }

  lemma NoneUndefinedEarlier(s: Scope, t: Scope)
    requires Grows(s, t) && NoneUndefined(t)
    ensures NoneUndefined(s)
  {
    assert forall w :: w in s.warnings ==> w in t.warnings;
  }

  ghost predicate SoundRun(r: TreeRun, s: Scope) {
    ReadsKnown(r.trace, s.inputs) && WritesEver(r.trace, s.ever)
  }

  lemma {:induction false} BlockSound(s: Scope, b: Block, tail: bool, q: RunState)
    requires ScopeOk(s) && Analyze(s, b, tail).Ok? && NoneUndefined(Analyze(s, b, tail).value)
    requires s.definite <= q.env.Keys
    ensures var r, s' := RunBlock(b, q), Analyze(s, b, tail).value;
            SoundRun(r, s') && (r.stop.None? ==> s'.definite <= r.after.env.Keys)
    decreases b
  {
    if b.BCons? {
      var last := tail && b.tail.BNil?;
      var s1 := AnalyzeNode(s, b.head, last).value;
      AnalyzeNodeOk(s, b.head, last);
      AnalyzeOk(s1, b.tail, tail);
      var s2 := Analyze(s1, b.tail, tail).value;
      NoneUndefinedEarlier(s1, s2);
      NodeSound(s, b.head, last, q);
      var r := RunNode(b.head, q);
      if r.stop.None? {
        BlockSound(s1, b.tail, tail, r.after);
      }
    }
  }

  lemma {:induction false} NodeSound(s: Scope, n: Node, last: bool, q: RunState)
    requires ScopeOk(s) && AnalyzeNode(s, n, last).Ok? && NoneUndefined(AnalyzeNode(s, n, last).value)
    requires s.definite <= q.env.Keys
    ensures var r, s' := RunNode(n, q), AnalyzeNode(s, n, last).value;
            SoundRun(r, s') && (r.stop.None? ==> s'.definite <= r.after.env.Keys)
    decreases n
  {
    match n
    case CallN(id, call) => CallSound(s, id, call, q);
    case BindN(id, t, v) => BindSound(s, id, t, v, q);
    case TermN(_, _, _, names) => RegisterOk(s, names);
    case BranchN(id, arms) =>
      var a, s' := AnalyzeArms(s, Snapshot(s), arms, last).value, AnalyzeNode(s, n, last).value;
      ArmsOk(s, Snapshot(s), arms, last);
      JoinOk(a.0, a.1);
      NoneUndefinedEarlier(a.0, s');
      var k := ArmsSound(s, Snapshot(s), arms, last, id, 0, Head(q.picks), q.(picks := Tail(q.picks)));
      JoinDefinite(a.0, a.1, k);
  }

  lemma CallSound(s: Scope, id: Id, call: CallInfo, q: RunState)
    requires ScopeOk(s) && AnalyzeCall(s, id, call).Ok? && NoneUndefined(AnalyzeCall(s, id, call).value)
    requires s.definite <= q.env.Keys
    ensures var r, s' := RunNode(CallN(id, call), q), AnalyzeCall(s, id, call).value;
            SoundRun(r, s') && s'.definite <= r.after.env.Keys
  {
    var s1, s' := RegisterRefs(s, CallRefs(call)), AnalyzeCall(s, id, call).value;
    RegisterOk(s, CallRefs(call));
    WarnRawOk(s1, CallValues(call));
    hide RegisterRefs, WarnRaw, ScopeOk, CallRefs, CallValues;
    NoneUndefinedEarlier(s1, s');
    CallRunSound(id, call, q, s');
  }

  /** What a call reads is known or an input; what it writes has been assigned. */
  lemma CallRunSound(id: Id, call: CallInfo, q: RunState, s': Scope)
    requires forall n :: n in CallRefs(call) ==> n in q.env || n in s'.inputs
    requires call.target.Some? ==> call.target.value in s'.ever
    ensures SoundRun(RunNode(CallN(id, call), q), s')
  {
    hide CallRefs;
  }

  lemma BindSound(s: Scope, id: Id, t: string, v: Value, q: RunState)
    requires ScopeOk(s) && AnalyzeBind(s, t, v).Ok? && NoneUndefined(AnalyzeBind(s, t, v).value)
    requires s.definite <= q.env.Keys
    ensures var r, s' := RunNode(BindN(id, t, v), q), AnalyzeBind(s, t, v).value;
            SoundRun(r, s') && s'.definite <= r.after.env.Keys
  {
    RegisterOk(s, Refs(v));
    var s1 := RegisterRefs(s, Refs(v));
    WarnRawOk(s1, [v]);
    NoneUndefinedEarlier(s1, AnalyzeBind(s, t, v).value);
  }

  lemma JoinDefinite(s: Scope, paths: seq<Arm>, k: nat)
    requires k < |paths|
    ensures Join(s, paths).definite <= paths[k].definite
  {
    forall v | v in Join(s, paths).definite
      ensures v in paths[k].definite
    {
      IntersectMembers(ArmSets(paths), v);
      assert v in ArmSets(paths)[k];
    }
  }

  /** The scopes before and after the first arm, when all arms together give no warning. */
  lemma FirstArm(s: Scope, start: Arm, arms: NodeArms, last: bool) returns (s0: Scope, s1: Scope)
    requires arms.CaseN? && ScopeOk(Restore(s, start)) && AnalyzeArms(s, start, arms, last).Ok?
    requires NoneUndefined(AnalyzeArms(s, start, arms, last).value.0)
    ensures var a := AnalyzeArms(s, start, arms, last).value;
            s0 == RegisterCond(Restore(s, start), arms.cond) && Analyze(s0, arms.body, last) == Ok(s1) &&
            ScopeOk(s0) && Snapshot(s0) == start && NoneUndefined(s1) && ScopeOk(Restore(s1, start)) &&
            AnalyzeArms(s1, start, arms.rest, last).Ok? && a.0 == AnalyzeArms(s1, start, arms.rest, last).value.0 &&
            a.1 == [Snapshot(s1)] + AnalyzeArms(s1, start, arms.rest, last).value.1 && Grows(s1, a.0) &&
            forall n :: n in CondRefs(arms.cond) ==> n in start.definite || n in a.0.inputs
  {
    s0 := RegisterCond(Restore(s, start), arms.cond);
    RegisterCondOk(Restore(s, start), arms.cond);
    AnalyzeOk(s0, arms.body, last);
    s1 := Analyze(s0, arms.body, last).value;
    ArmsOk(s1, start, arms.rest, last);
    var a := AnalyzeArms(s, start, arms, last).value;
    NoneUndefinedEarlier(s1, a.0);
    NoneUndefinedEarlier(s0, s1);
    assert forall n :: n in s0.inputs ==> n in a.0.inputs;
  }

  lemma MoreSound(t: seq<Event>, r: TreeRun, s: Scope, s': Scope)
    requires SoundRun(r, s) && Grows(s, s') && ReadsKnown(t, s'.inputs) && WritesEver(t, s'.ever)
    ensures SoundRun(r.(trace := t + r.trace), s')
  {
    assert forall n :: n in s.inputs ==> n in s'.inputs;
  }

  /** `k` is the arm that the run takes. */
  lemma {:induction false} ArmsSound(
    s: Scope, start: Arm, arms: NodeArms, last: bool, id: Id, i: nat, pick: nat, q: RunState) returns (k: nat)
    requires ScopeOk(Restore(s, start)) && AnalyzeArms(s, start, arms, last).Ok?
    requires NoneUndefined(AnalyzeArms(s, start, arms, last).value.0)
    requires start.definite <= q.env.Keys
    ensures var r, a := RunArms(id, arms, i, pick, q), AnalyzeArms(s, start, arms, last).value;
            SoundRun(r, a.0) && k < |a.1| && (r.stop.None? ==> a.1[k].definite <= r.after.env.Keys)
    decreases arms
  {
    hide Analyze, RegisterCond, ScopeOk, Grows, NoneUndefined, SoundRun;
    var a := AnalyzeArms(s, start, arms, last).value;
    match arms
    case CaseN(cond, body, rest) =>
      var s0, s1 := FirstArm(s, start, arms, last);
      var r: TreeRun;
      GrowsSame(a.0);
      if pick == i {
        BlockSound(s0, body, last, q.(at := Pos(id, CaseId(i))));
        r := Entering(id, i, CaseId(i), RunBlock(body, q.(at := Pos(id, CaseId(i)))));
        EnteringSound(id, i, CaseId(i), RunBlock(body, q.(at := Pos(id, CaseId(i)))), s1);
        k := 0;
        MoreSound(ReadEvents(id, CondRefs(cond), q), r, s1, a.0);
      } else {
        k := ArmsSound(s1, start, rest, last, id, i + 1, pick, q);
        k := k + 1;
        r := RunArms(id, rest, i + 1, pick, q);
        MoreSound(ReadEvents(id, CondRefs(cond), q), r, a.0, a.0);
      }
    case ElseN(body) =>
      ElseSound(s, start, body, last, a.0);
      BlockSound(Restore(s, start), body, last, q.(at := Pos(id, FALSE)));
      var r := RunBlock(body, q.(at := Pos(id, FALSE)));
      EnteringSound(id, i, FALSE, r, a.0);
      k := 0;
  }

  lemma GrowsSame(s: Scope)
    ensures Grows(s, s)
  {
  }

  lemma EnteringSound(id: Id, i: nat, handle: string, r: TreeRun, s: Scope)
    ensures SoundRun(r, s) ==> SoundRun(Entering(id, i, handle, r), s)
  {
  }

  lemma ElseSound(s: Scope, start: Arm, body: Block, last: bool, s': Scope)
    requires Analyze(Restore(s, start), body, last).Ok? && NoneUndefined(s')
    requires var s1 := Analyze(Restore(s, start), body, last).value;
             s' == if last && body.BNil? then s1.(warnings := s1.warnings + [NoElseAtTail]) else s1
    ensures var s1 := Analyze(Restore(s, start), body, last).value;
            NoneUndefined(s1) && forall r :: SoundRun(r, s1) == SoundRun(r, s')
  {
    NoneUndefinedEarlier(Analyze(Restore(s, start), body, last).value, s');
  }
}
