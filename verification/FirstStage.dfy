/**
 What the first stage makes of the names in a program, by what is assigned on the static paths to each place and by the
 order in which names are mentioned in the text: which assignments it rejects, which names become inputs, and for which
 it warns that they may be undefined.
 */
module FirstStage {
  import opened Prelude
  import opened Text
  import opened Pseudocode
  import opened FlowSemantics
  import opened Scoping
  import opened DefiniteAssignment
  import opened ReachingProducers
  import opened OriginTracking
  import opened Compile
  import opened Correctness
  import opened PathExactness
  import opened Warnings

  // ----- Names in the order of the text -----

  /** The reads and writes of a block in the order of the text, arm after arm. */
  function Mentions(b: Block): seq<Act>
    decreases b
  {
    match b
    case BNil => []
    case BCons(n, rest) => MentionsAt(n) + Mentions(rest)
  }

  function MentionsAt(n: Node): seq<Act>
    decreases n
  {
    match n
    case CallN(_, call) => Reads(CallRefs(call)) + if call.target.Some? then [Write(call.target.value)] else []
    case BindN(_, t, v) => Reads(Refs(v)) + [Write(t)]
    case TermN(_, _, _, names) => Reads(names)
    case BranchN(_, arms) => MentionsIn(arms)
  }

  function MentionsIn(arms: NodeArms): seq<Act>
    decreases arms
  {
    match arms
    case CaseN(cond, body, rest) => Reads(CondRefs(cond)) + (Mentions(body) + MentionsIn(rest))
    case ElseN(body) => Mentions(body)
  }

  function Named(acts: seq<Act>): set<string> {
    set i | 0 <= i < |acts| && !acts[i].Invoke? :: acts[i].name
  }

  /** The names that are read before they are mentioned otherwise, in order. */
  function FirstReads(acts: seq<Act>, seen: set<string>): seq<string> {
    if acts == [] then []
    else
      match acts[0]
      case Read(name) => (if name in seen then [] else [name]) + FirstReads(acts[1..], seen + {name})
      case Write(name) => FirstReads(acts[1..], seen + {name})
      case Invoke(_) => FirstReads(acts[1..], seen)
  }

  lemma NamedConcat(a: seq<Act>, b: seq<Act>)
    ensures Named(a + b) == Named(a) + Named(b)
  {
    var c := a + b;
    assert forall i :: 0 <= i < |a| ==> c[i] == a[i];
    assert forall i :: 0 <= i < |b| ==> c[|a| + i] == b[i];
    assert forall i :: |a| <= i < |c| ==> c[i] == b[i - |a|];
  }

  lemma NamedOne(a: Act)
    ensures Named([a]) == if a.Invoke? then {} else {a.name}
  {
    if !a.Invoke? {
      assert [a][0].name in Named([a]);
    }
  }

  lemma {:induction false} FirstReadsConcat(a: seq<Act>, b: seq<Act>, seen: set<string>)
    ensures FirstReads(a + b, seen) == FirstReads(a, seen) + FirstReads(b, seen + Named(a))
    decreases |a|
  {
    if a == [] {
      assert a + b == b && seen + Named(a) == seen;
    } else {
      var one, rest := [a[0]], a[1..];
      assert (a + b)[1..] == rest + b && a == one + rest;
      NamedConcat(one, rest);
      NamedOne(a[0]);
      var seen' := if a[0].Invoke? then seen else seen + {a[0].name};
      assert seen + Named(a) == seen' + Named(rest);
      FirstReadsConcat(rest, b, seen');
    }
  }

  lemma ReadsNamed(names: seq<string>)
    ensures Named(Reads(names)) == set n | n in names
  {
    var acts := Reads(names);
    forall n | n in names
      ensures n in Named(acts)
    {
      var i :| 0 <= i < |names| && names[i] == n;
      assert acts[i].name == n;
    }
  }

  // ----- Rejected assignments -----

  type Envs = iset<Env>

  /**
   An assignment is rejected when every static path to it has assigned the name, or else when the name has been read
   before and, in the order of the text, not been assigned.
   */
  ghost function WriteFault(t: string, es: Envs, ever: set<string>, seen: set<string>): Option<ScopeError> {
    if forall e :: e in es ==> t in e then Some(Reassigned(t))
    else if t in seen && t !in ever then Some(OverwritesInput(t))
    else None
  }

  /** The first one in a block, when `es` are the environments that reach it, and these names have been assigned, and seen. */
  ghost function FaultIn(b: Block, es: Envs, ever: set<string>, seen: set<string>): Option<ScopeError>
    decreases b
  {
    match b
    case BNil => None
    case BCons(n, rest) =>
      var f := FaultAt(n, es, ever, seen);
      if f.Some? then f else FaultIn(rest, AfterAll(n, es), ever + NodeTargets(n), seen + Named(MentionsAt(n)))
  }

  ghost function FaultAt(n: Node, es: Envs, ever: set<string>, seen: set<string>): Option<ScopeError>
    decreases n
  {
    match n
    case CallN(_, call) =>
      if call.target.None? then None
      else WriteFault(call.target.value, es, ever, seen + Named(Reads(CallRefs(call))))
    case BindN(_, t, v) => WriteFault(t, es, ever, seen + Named(Reads(Refs(v))))
    case TermN(_, _, _, _) => None
    case BranchN(_, arms) => FaultInArms(arms, es, ever, seen)
  }

  ghost function FaultInArms(arms: NodeArms, es: Envs, ever: set<string>, seen: set<string>): Option<ScopeError>
    decreases arms
  {
    match arms
    case CaseN(cond, body, rest) =>
      var seen' := seen + Named(Reads(CondRefs(cond)));
      var f := FaultIn(body, es, ever, seen');
      if f.Some? then f else FaultInArms(rest, es, ever + Targets(body), seen' + Named(Mentions(body)))
    case ElseN(body) => FaultIn(body, es, ever, seen)
  }

  // ----- Names that may be undefined -----

  /** Some static path to a read of `v` has not assigned it, although, in the order of the text, it has been assigned. */
  ghost predicate Misses(names: seq<string>, es: Envs, ever: set<string>, v: string) {
    v in names && v in ever && exists e :: e in es && v !in e
  }

  ghost predicate MissesIn(b: Block, es: Envs, ever: set<string>, v: string)
    decreases b
  {
    match b
    case BNil => false
    case BCons(n, rest) => MissesAt(n, es, ever, v) || MissesIn(rest, AfterAll(n, es), ever + NodeTargets(n), v)
  }

  ghost predicate MissesAt(n: Node, es: Envs, ever: set<string>, v: string)
    decreases n
  {
    match n
    case CallN(_, call) => Misses(CallRefs(call), es, ever, v)
    case BindN(_, _, value) => Misses(Refs(value), es, ever, v)
    case TermN(_, _, _, names) => Misses(names, es, ever, v)
    case BranchN(_, arms) => MissesInArms(arms, es, ever, v)
  }

  ghost predicate MissesInArms(arms: NodeArms, es: Envs, ever: set<string>, v: string)
    decreases arms
  {
    match arms
    case CaseN(cond, body, rest) =>
      Misses(CondRefs(cond), es, ever, v) || MissesIn(body, es, ever, v) || MissesInArms(rest, es, ever + Targets(body), v)
    case ElseN(body) => MissesIn(body, es, ever, v)
  }

  // ----- Reading names -----

  function Seen(s: Scope): set<string> {
    s.ever + set n | n in s.inputs
  }

  ghost predicate Warned(s: Scope, v: string) {
    PossiblyUndefined(v) in s.warnings
  }

  /** `t` comes from `s` by reading names. */
  ghost predicate HasRead(s: Scope, t: Scope, names: seq<string>) {
    ScopeOk(t) && Snapshot(t) == Snapshot(s) && t.ever == s.ever && Seen(t) == Seen(s) + Named(Reads(names)) &&
    t.inputs == s.inputs + FirstReads(Reads(names), Seen(s)) &&
    forall v :: Warned(t, v) <==> Warned(s, v) || (v in names && v in s.ever && v !in s.definite)
  }

  lemma ReadOne(s: Scope, name: string)
    requires ScopeOk(s)
    ensures HasRead(s, RegisterRef(s, name), [name])
  {
    var t := RegisterRef(s, name);
    assert RegisterRefs(s, [name]) == RegisterRefs(t, []);
    RegisterOk(s, [name]);
    assert Reads([name]) == [Read(name)] && [Read(name)][1..] == [];
    NamedOne(Read(name));
    assert FirstReads(Reads([name]), Seen(s)) == (if name in Seen(s) then [] else [name]) + [];
    assert s.inputs + [] == s.inputs;
    assert name in s.inputs ==> name in Seen(s);
  }

  lemma {:induction false} ReadAll(s: Scope, names: seq<string>)
    requires ScopeOk(s)
    ensures HasRead(s, RegisterRefs(s, names), names)
    decreases |names|
  {
    if names == [] {
      assert Named(Reads(names)) == {} && s.inputs + [] == s.inputs;
    } else {
      var one, rest := [names[0]], names[1..];
      var s1 := RegisterRef(s, names[0]);
      ReadOne(s, names[0]);
      ReadAll(s1, rest);
      ReadMore(s, s1, RegisterRefs(s, names), one, rest);
      assert names == one + rest;
    }
  }

  lemma ReadMore(s: Scope, s1: Scope, t: Scope, a: seq<string>, b: seq<string>)
    requires HasRead(s, s1, a) && HasRead(s1, t, b)
    ensures HasRead(s, t, a + b)
  {
    hide Seen, Named, FirstReads, ScopeOk, Warned;
    assert Reads(a + b) == Reads(a) + Reads(b);
    NamedConcat(Reads(a), Reads(b));
    FirstReadsConcat(Reads(a), Reads(b), Seen(s));
    Assoc(s.inputs, FirstReads(Reads(a), Seen(s)), FirstReads(Reads(b), Seen(s1)));
    forall v
      ensures Warned(t, v) <==> Warned(s, v) || (v in a + b && v in s.ever && v !in s.definite)
    {
      assert v in a + b <==> v in a || v in b;
    }
  }

  /** Reading a name again changes nothing. */
  ghost predicate Settled(s: Scope, name: string) {
    RegisterRef(s, name) == s
  }

  lemma SettledStays(s: Scope, name: string, other: string)
    requires Settled(s, name)
    ensures Settled(RegisterRef(s, other), name)
  {
  }

  lemma {:induction false} AllSettledStays(s: Scope, names: seq<string>, name: string)
    requires Settled(s, name)
    ensures Settled(RegisterRefs(s, names), name)
    decreases |names|
  {
    if names != [] {
      SettledStays(s, name, names[0]);
      AllSettledStays(RegisterRef(s, names[0]), names[1..], name);
    }
  }

  lemma {:induction false} AllSettled(s: Scope, names: seq<string>, name: string)
    requires name in names
    ensures Settled(RegisterRefs(s, names), name)
    decreases |names|
  {
    var s1 := RegisterRef(s, names[0]);
    if name == names[0] {
      AllSettledStays(s1, names[1..], name);
    } else {
      AllSettled(s1, names[1..], name);
    }
  }

  lemma {:induction false} NothingNew(s: Scope, names: seq<string>)
    requires forall n :: n in names ==> Settled(s, n)
    ensures RegisterRefs(s, names) == s
    decreases |names|
  {
    if names != [] {
      assert names[0] in names;
      NothingNew(s, names[1..]);
    }
  }

  lemma {:induction false} ComparisonsNew(s: Scope, cs: seq<Comparison>)
    requires forall n :: n in ComparisonRefs(cs) ==> Settled(s, n)
    ensures RegisterComparisons(s, cs) == s
    decreases |cs|
  {
    hide Settled;
    if cs != [] {
      assert forall n :: n in OptRefs(cs[0].value) || n in ComparisonRefs(cs[1..]) ==> n in ComparisonRefs(cs);
      NothingNew(s, OptRefs(cs[0].value));
      ComparisonsNew(s, cs[1..]);
    }
  }

  /** The right-hand sides of comparisons are among the names of the condition. */
  lemma CondReadsNames(s: Scope, c: Condition)
    ensures RegisterCond(s, c) == RegisterRefs(s, CondRefs(c))
  {
    if c.Parsed? {
      var s1 := RegisterRefs(s, CondRefs(c));
      forall n | n in ComparisonRefs(c.comparisons)
        ensures Settled(s1, n)
      {
        AllSettled(s, CondRefs(c), n);
      }
      ComparisonsNew(s1, c.comparisons);
    }
  }

  // ----- The analysis of a block -----

  /** The scope is exact for the environments that reach this place. */
  ghost predicate Stands(s: Scope, es: Envs) {
    ScopeOk(s) && Here(s.producers, s.definite, es)
  }

  ghost predicate Comes(s: Scope, t: Scope, acts: seq<Act>, targets: set<string>, missed: iset<string>) {
    t.ever == s.ever + targets && Seen(t) == Seen(s) + Named(acts) && t.inputs == s.inputs + FirstReads(acts, Seen(s)) &&
    forall v :: Warned(t, v) <==> Warned(s, v) || v in missed
  }

  lemma ComesThen(s: Scope, s1: Scope, t: Scope, a: seq<Act>, b: seq<Act>, x: set<string>, y: set<string>, m: iset<string>, k: iset<string>)
    requires Comes(s, s1, a, x, m) && Comes(s1, t, b, y, k)
    ensures Comes(s, t, a + b, x + y, m + k)
  {
    NamedConcat(a, b);
    FirstReadsConcat(a, b, Seen(s));
    assert t.ever == s.ever + (x + y);
    assert Seen(t) == Seen(s) + Named(a + b);
    assert t.inputs == s.inputs + FirstReads(a + b, Seen(s));
  }

  lemma ReadComes(s: Scope, t: Scope, names: seq<string>, es: Envs)
    requires HasRead(s, t, names) && Stands(s, es)
    ensures Comes(s, t, Reads(names), {}, iset v | Misses(names, es, s.ever, v))
    ensures Stands(t, es)
  {
    assert t.ever == s.ever + {};
    forall v
      ensures v in names && v in s.ever && v !in s.definite <==> Misses(names, es, s.ever, v)
    {
    }
  }

  /** The checks and the effect of an assignment after its reads. */
  lemma WriteComes(s: Scope, es: Envs, name: string, ids: seq<Id>, values: seq<Value>)
    requires Stands(s, es)
    ensures match CheckTarget(s, name)
            case Err(e) => WriteFault(name, es, s.ever, Seen(s)) == Some(e)
            case Ok(_) => WriteFault(name, es, s.ever, Seen(s)) == None &&
                          Comes(s, Assign(WarnRaw(s, values), name, ids), [Write(name)], {name}, iset{})
  {
    WarnRawKeeps(s, values);
    WarnRawExactly(s, values);
    assert name in s.definite <==> forall e :: e in es ==> name in e;
    assert name in s.inputs <==> name in Seen(s) && name !in s.ever;
    var t := Assign(WarnRaw(s, values), name, ids);
    NamedOne(Write(name));
    assert [Write(name)][1..] == [];
    assert FirstReads([Write(name)], Seen(s)) == [];
    assert Seen(t) == Seen(s) + {name};
    assert t.inputs == s.inputs + [];
    forall v
      ensures Warned(t, v) <==> Warned(s, v)
    {
      assert PossiblyUndefined(v) != Unstructured;
    }
  }

  ghost function Missed(b: Block, es: Envs, ever: set<string>): iset<string> {
    iset v | MissesIn(b, es, ever, v)
  }

  ghost function MissedAt(n: Node, es: Envs, ever: set<string>): iset<string> {
    iset v | MissesAt(n, es, ever, v)
  }

  ghost function MissedInArms(arms: NodeArms, es: Envs, ever: set<string>): iset<string> {
    iset v | MissesInArms(arms, es, ever, v)
  }

  /** The first fault is reported; without one the names are as the text says. */
  ghost predicate Judged(s: Scope, r: Result<Scope, ScopeError>, fault: Option<ScopeError>, acts: seq<Act>, targets: set<string>, missed: iset<string>) {
    match r
    case Err(e) => fault == Some(e)
    case Ok(t) => fault == None && Comes(s, t, acts, targets, missed)
  }

  lemma NodeStands(s: Scope, n: Node, last: bool, es: Envs)
    requires Stands(s, es) && AnalyzeNode(s, n, last).Ok?
    ensures Stands(AnalyzeNode(s, n, last).value, AfterAll(n, es))
  {
    AnalyzeNodeOk(s, n, last);
    AnalyzeNodeProducers(s, n, last);
    AnalyzeNodeDefinite(s, n, last);
    hide AnalyzeNode, Here, ScopeOk, AfterNode;
    HereAfterNode(s.producers, s.definite, es, n);
  }

  lemma {:induction false} BlockJudged(s: Scope, b: Block, tail: bool, es: Envs)
    requires Stands(s, es)
    ensures Judged(s, Analyze(s, b, tail), FaultIn(b, es, s.ever, Seen(s)), Mentions(b), Targets(b), Missed(b, es, s.ever))
    decreases b
  {
    hide Stands, Comes, AnalyzeNode, FaultAt, MissesAt, MentionsAt, NodeTargets, Seen, AfterAll;
    match b
    case BNil => NothingComes(s);
      assert Missed(b, es, s.ever) == iset{};
    case BCons(n, rest) =>
      var last := tail && rest.BNil?;
      NodeJudged(s, n, last, es);
      if AnalyzeNode(s, n, last).Ok? {
        var s1 := AnalyzeNode(s, n, last).value;
        NodeStands(s, n, last, es);
        SeenAfter(s, s1, MentionsAt(n), NodeTargets(n), MissedAt(n, es, s.ever));
        BlockJudged(s1, rest, tail, AfterAll(n, es));
        var m, k := MissedAt(n, es, s.ever), Missed(rest, AfterAll(n, es), s1.ever);
        assert Missed(b, es, s.ever) == m + k;
        if Analyze(s1, rest, tail).Ok? {
          ComesThen(s, s1, Analyze(s1, rest, tail).value, MentionsAt(n), Mentions(rest), NodeTargets(n), Targets(rest), m, k);
        }
      }
  }

  lemma NothingComes(s: Scope)
    ensures Comes(s, s, [], {}, iset{})
  {
    assert s.ever == s.ever + {} && Seen(s) == Seen(s) + Named([]) && s.inputs == s.inputs + [];
  }

  lemma SeenAfter(s: Scope, t: Scope, acts: seq<Act>, targets: set<string>, missed: iset<string>)
    requires Comes(s, t, acts, targets, missed)
    ensures t.ever == s.ever + targets && Seen(t) == Seen(s) + Named(acts)
  {
  }

  lemma {:induction false} NodeJudged(s: Scope, n: Node, last: bool, es: Envs)
    requires Stands(s, es)
    ensures Judged(s, AnalyzeNode(s, n, last), FaultAt(n, es, s.ever, Seen(s)), MentionsAt(n), NodeTargets(n), MissedAt(n, es, s.ever))
    decreases n
  {
    match n
    case CallN(id, call) => CallJudged(s, id, call, es);
    case BindN(id, t, v) => BindJudged(s, id, t, v, es);
    case TermN(_, _, _, names) =>
      ReadAll(s, names);
      ReadComes(s, RegisterRefs(s, names), names, es);
      assert MissedAt(n, es, s.ever) == iset v | Misses(names, es, s.ever, v);
    case BranchN(id, arms) =>
      ArmsJudged(s, Snapshot(s), arms, last, es);
      BranchJudged(s, id, arms, last, es);
  }

  lemma CallJudged(s: Scope, id: Id, call: CallInfo, es: Envs)
    requires Stands(s, es)
    ensures var n := CallN(id, call);
            Judged(s, AnalyzeCall(s, id, call), FaultAt(n, es, s.ever, Seen(s)), MentionsAt(n), NodeTargets(n), MissedAt(n, es, s.ever))
  {
    var n, names, values := CallN(id, call), CallRefs(call), CallValues(call);
    var s1 := RegisterRefs(s, names);
    var m := iset v | Misses(names, es, s.ever, v);
    ReadAll(s, names);
    ReadComes(s, s1, names, es);
    assert MissedAt(n, es, s.ever) == m;
    hide HasRead, Stands, Misses, CallRefs, CallValues;
    if call.target.Some? {
      var t := call.target.value;
      WriteComes(s1, es, t, [id], values);
      SeenAfter(s, s1, Reads(names), {}, m);
      if CheckTarget(s1, t).Ok? {
        ComesThen(s, s1, Assign(WarnRaw(s1, values), t, [id]), Reads(names), [Write(t)], {}, {t}, m, iset{});
        assert m + iset{} == m && {} + {t} == {t};
      }
    } else {
      OnlyRawWarned(s, s1, values, Reads(names), m);
      assert Reads(names) + [] == Reads(names);
    }
  }

  lemma OnlyRawWarned(s: Scope, s1: Scope, values: seq<Value>, acts: seq<Act>, m: iset<string>)
    requires Comes(s, s1, acts, {}, m)
    ensures Comes(s, WarnRaw(s1, values), acts, {}, m)
  {
    WarnRawKeeps(s1, values);
    WarnRawExactly(s1, values);
    forall v
      ensures Warned(WarnRaw(s1, values), v) <==> Warned(s1, v)
    {
      assert PossiblyUndefined(v) != Unstructured;
    }
  }

  lemma BindJudged(s: Scope, id: Id, t: string, v: Value, es: Envs)
    requires Stands(s, es)
    ensures var n := BindN(id, t, v);
            Judged(s, AnalyzeBind(s, t, v), FaultAt(n, es, s.ever, Seen(s)), MentionsAt(n), NodeTargets(n), MissedAt(n, es, s.ever))
  {
    var n, names := BindN(id, t, v), Refs(v);
    var s1 := RegisterRefs(s, names);
    var m := iset x | Misses(names, es, s.ever, x);
    ReadAll(s, names);
    ReadComes(s, s1, names, es);
    assert MissedAt(n, es, s.ever) == m;
    hide HasRead, Stands, Misses, Refs;
    var ids := Inherited(s1.producers, names, []);
    WriteComes(s1, es, t, ids, [v]);
    SeenAfter(s, s1, Reads(names), {}, m);
    if CheckTarget(s1, t).Ok? {
      ComesThen(s, s1, Assign(WarnRaw(s1, [v]), t, ids), Reads(names), [Write(t)], {}, {t}, m, iset{});
      assert m + iset{} == m && {} + {t} == {t};
    }
  }

  /** The arms one after the other; each starts from what was known before the branch. */
  ghost predicate ArmsAreJudged(s: Scope, r: Result<(Scope, seq<Arm>), ScopeError>, fault: Option<ScopeError>, acts: seq<Act>, targets: set<string>, missed: iset<string>) {
    match r
    case Err(e) => fault == Some(e)
    case Ok(a) => fault == None && Comes(s, a.0, acts, targets, missed)
  }

  lemma RestoreStands(s: Scope, start: Arm, es: Envs)
    requires ScopeOk(Restore(s, start)) && Here(start.producers, start.definite, es)
    ensures Stands(Restore(s, start), es) && Restore(s, start).ever == s.ever && Seen(Restore(s, start)) == Seen(s)
  {
  }

  /** The place in the program does not matter for names and warnings. */
  lemma RestoreComes(s: Scope, start: Arm, t: Scope, acts: seq<Act>, targets: set<string>, missed: iset<string>)
    requires Comes(Restore(s, start), t, acts, targets, missed)
    ensures Comes(s, t, acts, targets, missed)
  {
    assert Seen(Restore(s, start)) == Seen(s);
    assert forall v :: Warned(Restore(s, start), v) <==> Warned(s, v);
  }

  lemma {:induction false} ArmsJudged(s: Scope, start: Arm, arms: NodeArms, last: bool, es: Envs)
    requires ScopeOk(Restore(s, start)) && Here(start.producers, start.definite, es)
    ensures ArmsAreJudged(s, AnalyzeArms(s, start, arms, last), FaultInArms(arms, es, s.ever, Seen(s)), MentionsIn(arms),
                          ArmTargets(arms), MissedInArms(arms, es, s.ever))
    decreases arms
  {
    hide Stands, Comes, ScopeOk, Here, RegisterRefs, Seen;
    RestoreStands(s, start, es);
    var s0 := Restore(s, start);
    match arms
    case CaseN(cond, body, rest) =>
      var s1 := RegisterRefs(s0, CondRefs(cond));
      var m := iset v | Misses(CondRefs(cond), es, s.ever, v);
      CondReadsNames(s0, cond);
      CondComes(s, start, cond, es, s1);
      SeenAfter(s, s1, Reads(CondRefs(cond)), {}, m);
      assert s.ever + {} == s.ever;
      BlockJudged(s1, body, last, es);
      if Analyze(s1, body, last).Ok? {
        var s2 := Analyze(s1, body, last).value;
        LaterStart(s, start, s1, body, last, s2);
        var k := Missed(body, es, s.ever);
        SeenAfter(s1, s2, Mentions(body), Targets(body), k);
        ArmsJudged(s2, start, rest, last, es);
        if AnalyzeArms(s2, start, rest, last).Ok? {
          CaseComes(s, s1, s2, AnalyzeArms(s2, start, rest, last).value.0, cond, body, rest, es);
        }
      }
    case ElseN(body) =>
      BlockJudged(s0, body, last, es);
      if Analyze(s0, body, last).Ok? {
        var s1 := Analyze(s0, body, last).value;
        RestoreComes(s, start, s1, Mentions(body), Targets(body), Missed(body, es, s.ever));
        assert MissedInArms(arms, es, s.ever) == Missed(body, es, s.ever);
        TailWarned(s, s1, Mentions(body), Targets(body), Missed(body, es, s.ever));
      }
  }

  lemma CondComes(s: Scope, start: Arm, cond: Condition, es: Envs, s1: Scope)
    requires Stands(Restore(s, start), es) && s1 == RegisterRefs(Restore(s, start), CondRefs(cond))
    ensures Comes(s, s1, Reads(CondRefs(cond)), {}, iset v | Misses(CondRefs(cond), es, s.ever, v)) && Stands(s1, es) && ScopeOk(s1)
  {
    var s0 := Restore(s, start);
    ReadAll(s0, CondRefs(cond));
    ReadComes(s0, s1, CondRefs(cond), es);
    assert ScopeOk(s1);
    hide Stands, HasRead, Comes;
    RestoreComes(s, start, s1, Reads(CondRefs(cond)), {}, iset v | Misses(CondRefs(cond), es, s.ever, v));
  }

  lemma LaterStart(s: Scope, start: Arm, s1: Scope, body: Block, last: bool, s2: Scope)
    requires ScopeOk(Restore(s, start)) && ScopeOk(s1) && s.ever <= s1.ever && Analyze(s1, body, last) == Ok(s2)
    ensures ScopeOk(Restore(s2, start))
  {
    AnalyzeOk(s1, body, last);
  }

  lemma TailWarned(s: Scope, t: Scope, acts: seq<Act>, targets: set<string>, missed: iset<string>)
    requires Comes(s, t, acts, targets, missed)
    ensures Comes(s, t.(warnings := t.warnings + [NoElseAtTail]), acts, targets, missed)
  {
    var u := t.(warnings := t.warnings + [NoElseAtTail]);
    forall v
      ensures Warned(u, v) <==> Warned(t, v)
    {
      assert PossiblyUndefined(v) != NoElseAtTail;
    }
  }

  lemma CaseComes(s: Scope, s1: Scope, s2: Scope, t: Scope, cond: Condition, body: Block, rest: NodeArms, es: Envs)
    requires Comes(s, s1, Reads(CondRefs(cond)), {}, iset v | Misses(CondRefs(cond), es, s.ever, v)) && s1.ever == s.ever
    requires Comes(s1, s2, Mentions(body), Targets(body), Missed(body, es, s.ever)) && s2.ever == s.ever + Targets(body)
    requires Comes(s2, t, MentionsIn(rest), ArmTargets(rest), MissedInArms(rest, es, s2.ever))
    ensures var arms := CaseN(cond, body, rest); Comes(s, t, MentionsIn(arms), ArmTargets(arms), MissedInArms(arms, es, s.ever))
  {
    hide Comes;
    var arms := CaseN(cond, body, rest);
    var m := iset v | Misses(CondRefs(cond), es, s.ever, v);
    var k, l := Missed(body, es, s.ever), MissedInArms(rest, es, s2.ever);
    ComesThen(s1, s2, t, Mentions(body), MentionsIn(rest), Targets(body), ArmTargets(rest), k, l);
    ComesThen(s, s1, t, Reads(CondRefs(cond)), Mentions(body) + MentionsIn(rest), {}, Targets(body) + ArmTargets(rest), m, k + l);
    assert MissedInArms(arms, es, s.ever) == m + (k + l);
    assert {} + (Targets(body) + ArmTargets(rest)) == ArmTargets(arms);
  }

  lemma BranchJudged(s: Scope, id: Id, arms: NodeArms, last: bool, es: Envs)
    requires ArmsAreJudged(s, AnalyzeArms(s, Snapshot(s), arms, last), FaultInArms(arms, es, s.ever, Seen(s)), MentionsIn(arms),
                           ArmTargets(arms), MissedInArms(arms, es, s.ever))
    ensures var n := BranchN(id, arms);
            Judged(s, AnalyzeNode(s, n, last), FaultAt(n, es, s.ever, Seen(s)), MentionsAt(n), NodeTargets(n), MissedAt(n, es, s.ever))
  {
    var n := BranchN(id, arms);
    assert MissedAt(n, es, s.ever) == MissedInArms(arms, es, s.ever);
    if AnalyzeArms(s, Snapshot(s), arms, last).Ok? {
      var a := AnalyzeArms(s, Snapshot(s), arms, last).value;
      var t := Join(a.0, a.1);
      assert Seen(t) == Seen(a.0);
      assert forall v :: Warned(t, v) <==> Warned(a.0, v);
    }
  }

  // ----- Whole programs -----

  /**
   A program is rejected exactly when it is empty or some assignment is, with the error of the first one; otherwise the
   inputs are the names that the text reads before it mentions them otherwise, in that order; and "possibly undefined" is
   given for a name exactly when the text parser gave it or some static path to a read of it has not assigned it although
   the text before has.
   */
  lemma NamesExactly(p: Program)
    ensures var es := iset{map[]};
            match Semantics(p)
            case Err(e) => if p.body.SNil? then e == EmptyProgram else FaultIn(Tree(p), es, {}, {}) == Some(e)
            case Ok(flow) =>
              p.body.SCons? && FaultIn(Tree(p), es, {}, {}) == None && InputNames(flow.inputs) == FirstReads(Mentions(Tree(p)), {}) &&
              forall v :: PossiblyUndefined(v) in flow.warnings <==> PossiblyUndefined(v) in p.parsed || MissesIn(Tree(p), es, {}, v)
  {
    var s0 := EmptyScope(p.parsed);
    NothingHere();
    assert Seen(s0) == {};
    BlockJudged(s0, Tree(p), true, iset{map[]});
    if Semantics(p).Ok? {
      var s := Analyze(s0, Tree(p), true).value;
      var flow := Semantics(p).value;
      assert InputNames(flow.inputs) == s.inputs;
      assert s.inputs == [] + FirstReads(Mentions(Tree(p)), {});
      forall v
        ensures PossiblyUndefined(v) in flow.warnings <==> Warned(s, v)
      {
        assert PossiblyUndefined(v) != NoOutput;
      }
    }
  }

  /** An input has the type given for it, or else is a file when "file" occurs in its lower-cased name, or else a paragraph. */
  lemma InputTypesExactly(p: Program, flow: Flow, i: nat)
    requires Semantics(p) == Ok(flow) && i < |flow.inputs|
    ensures var input := flow.inputs[i];
            input.ty == if input.name in p.types then p.types[input.name]
                        else if exists a, b :: Lower(input.name) == a + "file" + b then "file"
                        else "paragraph"
  {
    var name := flow.inputs[i].name;
    ContainsExactly(Lower(name), "file");
  }

  lemma ContainsExactly(s: string, part: string)
    ensures Contains(s, part) <==> exists a, b :: s == a + part + b
  {
    if Contains(s, part) {
      var a, b := ContainedPart(s, part);
    }
    if a, b :| s == a + part + b {
      PartIsContained(s, a, part, b);
    }
  }

  lemma {:induction false} ContainedPart(s: string, part: string) returns (a: string, b: string)
    requires Contains(s, part)
    ensures s == a + part + b
    decreases |s|
  {
    if s[..|part|] == part {
      a, b := "", s[|part|..];
    } else {
      a, b := ContainedPart(s[1..], part);
      a := [s[0]] + a;
    }
  }

  lemma {:induction false} PartIsContained(s: string, a: string, part: string, b: string)
    requires s == a + part + b
    ensures Contains(s, part)
    decreases |s|
  {
    if a == "" {
      assert s[..|part|] == part;
    } else {
      assert s[1..] == a[1..] + part + b;
      PartIsContained(s[1..], a[1..], part, b);
    }
  }
}
