/**
 The two dataflow analyses of the semantics builder, on the tree: which variables are assigned on every path, and
 which calls may have produced each variable.
 */
module Scoping {
  import opened Prelude
  import opened Text
  import opened Pseudocode
  import opened FlowSemantics

  type Producers = map<string, seq<Id>>

  datatype ScopeError = Reassigned(name: string) | OverwritesInput(name: string) | EmptyProgram

  /**
   `definite` and `producers` belong to the place in the program; the other fields only grow:
   `ever` holds every name assigned anywhere so far, `warned` the names reported as possibly undefined.
   */
  datatype Scope = Scope(
    definite: set<string>,
    producers: Producers,
    inputs: seq<string>,
    ever: set<string>,
    warned: set<string>,
    warnings: seq<Warning>)

  function EmptyScope(pre: seq<Warning>): Scope {
    Scope({}, map[], [], {}, {}, pre)
  }

  // ----- Reading and assigning a variable -----

  function RegisterRef(s: Scope, name: string): Scope {
    if name in s.definite then s
    else if name in s.producers || name in s.ever then
      if name in s.warned then s
      else s.(warned := s.warned + {name}, warnings := s.warnings + [PossiblyUndefined(name)])
    else if name in s.inputs then s
    else s.(inputs := s.inputs + [name])
  }

  function RegisterRefs(s: Scope, names: seq<string>): Scope
    decreases |names|
  {
    if names == [] then s else RegisterRefs(RegisterRef(s, names[0]), names[1..])
  }

  function Assign(s: Scope, name: string, producers: seq<Id>): Scope {
    s.(definite := s.definite + {name}, producers := s.producers[name := producers], ever := s.ever + {name})
  }

  function CheckTarget(s: Scope, name: string): Result<Scope, ScopeError> {
    if name in s.definite then Err(Reassigned(name))
    else if name in s.inputs then Err(OverwritesInput(name))
    else Ok(s)
  }

  /** One warning for each value that could not be parsed. */
  function WarnRaw(s: Scope, values: seq<Value>): Scope
    decreases |values|
  {
    if values == [] then s
    else WarnRaw(if values[0].Raw? then s.(warnings := s.warnings + [Unstructured]) else s, values[1..])
  }

  function Sources(p: Producers, names: seq<string>): map<string, seq<Id>> {
    map name | name in names :: GetOr(p, name, [])
  }

  /** `acc` followed by the ids of `more` that it does not have yet. */
  function AddNew(acc: seq<Id>, more: seq<Id>): (r: seq<Id>)
    ensures forall x :: x in r <==> x in acc || x in more
    ensures NoDup(acc) ==> NoDup(r)
    ensures more == [] ==> r == acc
    decreases |more|
  {
    if more == [] then acc
    else
      assert more == [more[0]] + more[1..];
      AddNew(if more[0] in acc then acc else acc + [more[0]], more[1..])
  }

  /** What a plain assignment inherits: the producers of the variables in its value, each once. */
  function Inherited(p: Producers, names: seq<string>, acc: seq<Id>): seq<Id> {
    if names == [] then acc else Inherited(p, names[1..], AddNew(acc, GetOr(p, names[0], [])))
  }

  // ----- Joining the arms of a branch -----

  function IntersectAll(paths: seq<set<string>>): set<string>
    requires paths != []
  {
    if |paths| == 1 then paths[0] else paths[0] * IntersectAll(paths[1..])
  }

  function Merge(acc: Producers, more: Producers): Producers {
    map name | name in acc.Keys + more.Keys :: AddNew(GetOr(acc, name, []), GetOr(more, name, []))
  }

  function MergeAll(acc: Producers, paths: seq<Producers>): Producers
    decreases |paths|
  {
    if paths == [] then acc else MergeAll(Merge(acc, paths[0]), paths[1..])
  }

  datatype Arm = Arm(definite: set<string>, producers: Producers)

  function ArmSets(paths: seq<Arm>): seq<set<string>> {
    seq(|paths|, i requires 0 <= i < |paths| => paths[i].definite)
  }

  function ArmMaps(paths: seq<Arm>): seq<Producers> {
    seq(|paths|, i requires 0 <= i < |paths| => paths[i].producers)
  }

  function Join(s: Scope, paths: seq<Arm>): Scope
    requires paths != []
  {
    s.(definite := IntersectAll(ArmSets(paths)), producers := MergeAll(map[], ArmMaps(paths)))
  }

  function Restore(s: Scope, a: Arm): Scope {
    s.(definite := a.definite, producers := a.producers)
  }

  function Snapshot(s: Scope): Arm {
    Arm(s.definite, s.producers)
  }

  // ----- The analysis -----

  function RegisterCond(s: Scope, c: Condition): Scope {
    var s1 := RegisterRefs(s, CondRefs(c));
    if c.Parsed? then RegisterComparisons(s1, c.comparisons) else s1
  }

  function RegisterComparisons(s: Scope, cs: seq<Comparison>): Scope
    decreases |cs|
  {
    if cs == [] then s else RegisterComparisons(RegisterRefs(s, OptRefs(cs[0].value)), cs[1..])
  }

  function AnalyzeCall(s: Scope, id: Id, call: CallInfo): Result<Scope, ScopeError> {
    var s1 := RegisterRefs(s, CallRefs(call));
    match call.target
    case Some(t) =>
      var s2 :- CheckTarget(s1, t);
      Ok(Assign(WarnRaw(s2, CallValues(call)), t, [id]))
    case None => Ok(WarnRaw(s1, CallValues(call)))
  }

  function AnalyzeBind(s: Scope, t: string, v: Value): Result<Scope, ScopeError> {
    var s1 :- CheckTarget(RegisterRefs(s, Refs(v)), t);
    Ok(Assign(WarnRaw(s1, [v]), t, Inherited(s1.producers, Refs(v), [])))
  }

  function Analyze(s: Scope, b: Block, tail: bool): Result<Scope, ScopeError>
    decreases b
  {
    match b
    case BNil => Ok(s)
    case BCons(n, rest) =>
      var s1 :- AnalyzeNode(s, n, tail && rest.BNil?);
      Analyze(s1, rest, tail)
  }

  function AnalyzeNode(s: Scope, n: Node, last: bool): Result<Scope, ScopeError>
    decreases n
  {
    match n
    case CallN(id, call) => AnalyzeCall(s, id, call)
    case BindN(_, t, v) => AnalyzeBind(s, t, v)
    case TermN(_, _, _, names) =>
      Ok(RegisterRefs(s, names))
    case BranchN(_, arms) =>
      var r :- AnalyzeArms(s, Snapshot(s), arms, last);
      Ok(Join(r.0, r.1))
  }

  /** The scope after the last arm, and what each arm has assigned and produced. */
  function AnalyzeArms(s: Scope, start: Arm, arms: NodeArms, last: bool): (r: Result<(Scope, seq<Arm>), ScopeError>)
    ensures r.Ok? ==> r.value.1 != []
    decreases arms
  {
    match arms
    case CaseN(cond, body, rest) =>
      var s1 :- Analyze(RegisterCond(Restore(s, start), cond), body, last);
      var r :- AnalyzeArms(s1, start, rest, last);
      Ok((r.0, [Snapshot(s1)] + r.1))
    case ElseN(body) =>
      var s1 :- Analyze(Restore(s, start), body, last);
      Ok((if last && body.BNil? then s1.(warnings := s1.warnings + [NoElseAtTail]) else s1, [Snapshot(s1)]))
  }

  // ----- The producers alone -----

  /** The part of the analysis that says which calls may have produced a variable, without the checks. */
  function After(p: Producers, b: Block): Producers
    decreases b
  {
    match b
    case BNil => p
    case BCons(n, rest) => After(AfterNode(p, n), rest)
  }

  function AfterNode(p: Producers, n: Node): Producers
    decreases n
  {
    match n
    case CallN(id, call) => if call.target.Some? then p[call.target.value := [id]] else p
    case BindN(_, t, v) => p[t := Inherited(p, Refs(v), [])]
    case TermN(_, _, _, _) => p
    case BranchN(_, arms) => MergeAll(map[], AfterArms(p, arms))
  }

  function AfterArms(p: Producers, arms: NodeArms): seq<Producers>
    decreases arms
  {
    match arms
    case CaseN(_, body, rest) => [After(p, body)] + AfterArms(p, rest)
    case ElseN(body) => [After(p, body)]
  }

  /** The binding records, each with the producers that were current when it was made. */
  function Bindings(p: Producers, b: Block): seq<Binding>
    decreases b
  {
    match b
    case BNil => []
    case BCons(n, rest) => NodeBindings(p, n) + Bindings(AfterNode(p, n), rest)
  }

  function NodeBindings(p: Producers, n: Node): seq<Binding>
    decreases n
  {
    match n
    case BindN(id, t, v) => [Binding(id, t, v, Sources(p, Refs(v)))]
    case BranchN(_, arms) => ArmBindings(p, arms)
    case _ => []
  }

  function ArmBindings(p: Producers, arms: NodeArms): seq<Binding>
    decreases arms
  {
    match arms
    case CaseN(_, body, rest) => Bindings(p, body) + ArmBindings(p, rest)
    case ElseN(body) => Bindings(p, body)
  }

  // ----- Basic facts -----

  lemma {:induction false} RegisterKeeps(s: Scope, names: seq<string>)
    ensures var r := RegisterRefs(s, names);
            Snapshot(r) == Snapshot(s) && r.ever == s.ever
    decreases |names|
  {
    if names != [] {
      RegisterKeeps(RegisterRef(s, names[0]), names[1..]);
    }
  }

  lemma {:induction false} RegisterComparisonsKeeps(s: Scope, cs: seq<Comparison>)
    ensures var r := RegisterComparisons(s, cs);
            Snapshot(r) == Snapshot(s) && r.ever == s.ever
    decreases |cs|
  {
    if cs != [] {
      RegisterKeeps(s, OptRefs(cs[0].value));
      RegisterComparisonsKeeps(RegisterRefs(s, OptRefs(cs[0].value)), cs[1..]);
    }
  }

  lemma {:induction false} WarnRawKeeps(s: Scope, values: seq<Value>)
    ensures var r := WarnRaw(s, values); r == s.(warnings := r.warnings) && s.warnings <= r.warnings
    decreases |values|
  {
    if values != [] {
      WarnRawKeeps(if values[0].Raw? then s.(warnings := s.warnings + [Unstructured]) else s, values[1..]);
    }
  }

  lemma RegisterCondKeeps(s: Scope, c: Condition)
    ensures var r := RegisterCond(s, c);
            Snapshot(r) == Snapshot(s) && r.ever == s.ever
  {
    RegisterKeeps(s, CondRefs(c));
    if c.Parsed? {
      RegisterComparisonsKeeps(RegisterRefs(s, CondRefs(c)), c.comparisons);
    }
  }

  lemma {:induction false} AnalyzeProducers(s: Scope, b: Block, tail: bool)
    requires Analyze(s, b, tail).Ok?
    ensures Analyze(s, b, tail).value.producers == After(s.producers, b)
    decreases b
  {
    if b.BCons? {
      AnalyzeNodeProducers(s, b.head, tail && b.tail.BNil?);
      AnalyzeProducers(AnalyzeNode(s, b.head, tail && b.tail.BNil?).value, b.tail, tail);
    }
  }

  lemma {:induction false} AnalyzeNodeProducers(s: Scope, n: Node, last: bool)
    requires AnalyzeNode(s, n, last).Ok?
    ensures AnalyzeNode(s, n, last).value.producers == AfterNode(s.producers, n)
    decreases n
  {
    match n
    case CallN(_, call) =>
      RegisterKeeps(s, CallRefs(call));
      WarnRawKeeps(RegisterRefs(s, CallRefs(call)), CallValues(call));
    case BindN(_, _, v) =>
      RegisterKeeps(s, Refs(v));
      WarnRawKeeps(RegisterRefs(s, Refs(v)), [v]);
    case TermN(_, _, _, names) =>
      RegisterKeeps(s, names);
    case BranchN(_, arms) =>
      AnalyzeArmsProducers(s, Snapshot(s), arms, last);
  }

  lemma {:induction false} AnalyzeArmsProducers(s: Scope, start: Arm, arms: NodeArms, last: bool)
    requires AnalyzeArms(s, start, arms, last).Ok?
    ensures ArmMaps(AnalyzeArms(s, start, arms, last).value.1) == AfterArms(start.producers, arms)
    decreases arms
  {
    match arms
    case CaseN(cond, body, rest) =>
      RegisterCondKeeps(Restore(s, start), cond);
      AnalyzeProducers(RegisterCond(Restore(s, start), cond), body, last);
      AnalyzeArmsProducers(Analyze(RegisterCond(Restore(s, start), cond), body, last).value, start, rest, last);
    case ElseN(body) =>
      AnalyzeProducers(Restore(s, start), body, last);
  }

  lemma {:induction false} InheritedMembers(p: Producers, names: seq<string>, acc: seq<Id>, x: Id)
    ensures x in Inherited(p, names, acc) <==> x in acc || exists n :: n in names && n in p && x in p[n]
  {
    if names != [] {
      assert names == [names[0]] + names[1..];
      InheritedMembers(p, names[1..], AddNew(acc, GetOr(p, names[0], [])), x);
    }
  }

  lemma {:induction false} MergeAllKeys(acc: Producers, paths: seq<Producers>, v: string)
    ensures v in MergeAll(acc, paths) <==> v in acc || exists i :: 0 <= i < |paths| && v in paths[i]
    decreases |paths|
  {
    if paths != [] {
      MergeAllKeys(Merge(acc, paths[0]), paths[1..], v);
      var rest := paths[1..];
      assert forall i :: 0 <= i < |rest| ==> rest[i] == paths[i + 1];
      assert forall i :: 1 <= i < |paths| ==> paths[i] == rest[i - 1];
    }
  }

  lemma {:induction false} MergeAllIds(acc: Producers, paths: seq<Producers>, v: string, x: Id)
    ensures x in GetOr(MergeAll(acc, paths), v, []) <==>
            x in GetOr(acc, v, []) || exists i :: 0 <= i < |paths| && x in GetOr(paths[i], v, [])
    decreases |paths|
  {
    if paths != [] {
      var rest := paths[1..];
      MergeAllIds(Merge(acc, paths[0]), rest, v, x);
      assert x in GetOr(Merge(acc, paths[0]), v, []) <==> x in GetOr(acc, v, []) || x in GetOr(paths[0], v, []);
      hide GetOr, Merge;
      assert forall i :: 0 <= i < |rest| ==> rest[i] == paths[i + 1];
      assert forall i :: 1 <= i < |paths| ==> paths[i] == rest[i - 1];
    }
  }

  lemma MergeAllMembers(acc: Producers, paths: seq<Producers>, v: string)
    ensures v in MergeAll(acc, paths) <==> v in acc || exists i :: 0 <= i < |paths| && v in paths[i]
    ensures forall x :: x in GetOr(MergeAll(acc, paths), v, []) <==>
                          x in GetOr(acc, v, []) || exists i :: 0 <= i < |paths| && x in GetOr(paths[i], v, [])
  {
    MergeAllKeys(acc, paths, v);
    hide MergeAll, GetOr;
    forall x
      ensures x in GetOr(MergeAll(acc, paths), v, []) <==>
              x in GetOr(acc, v, []) || exists i :: 0 <= i < |paths| && x in GetOr(paths[i], v, [])
    {
      MergeAllIds(acc, paths, v, x);
    }
  }

  lemma {:induction false} IntersectMembers(paths: seq<set<string>>, v: string)
    requires paths != []
    ensures v in IntersectAll(paths) <==> forall i :: 0 <= i < |paths| ==> v in paths[i]
  {
    if |paths| > 1 {
      IntersectMembers(paths[1..], v);
      var rest := paths[1..];
      assert forall i :: 0 <= i < |rest| ==> rest[i] == paths[i + 1];
      assert forall i :: 1 <= i < |paths| ==> paths[i] == rest[i - 1];
    }
  }
}
