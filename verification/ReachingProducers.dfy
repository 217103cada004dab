/**
 Exactness of the reaching-producer analysis: at every place `producers[v]` lists, without repetition, exactly the
 calls that the value of `v` depends on over the static paths to that place.

 A static path chooses one arm at each branch and goes on after the branch even when that arm has ended the program;
 this is what the analysis joins over.
 */
module ReachingProducers {
  import opened Prelude
  import opened Text
  import opened Pseudocode
  import opened FlowSemantics
  import opened Scoping

  // ----- Static paths -----

  /** Which arm each branch of a block takes, in order, with the choices made inside the arm. */
  datatype Route = Straight | Turn(arm: nat, inside: Route, next: Route)

  function ArmOf(r: Route): nat {
    if r.Turn? then r.arm else 0
  }

  function Inside(r: Route): Route {
    if r.Turn? then r.inside else Straight
  }

  function Next(r: Route): Route {
    if r.Turn? then r.next else Straight
  }

  ghost function Along(b: Block, e: Env, r: Route): Env
    decreases b
  {
    match b
    case BNil => e
    case BCons(n, rest) => if n.BranchN? then Along(rest, AlongNode(n, e, r), Next(r)) else Along(rest, AlongNode(n, e, r), r)
  }

  ghost function AlongNode(n: Node, e: Env, r: Route): Env
    decreases n
  {
    match n
    case CallN(id, call) => if call.target.Some? then e[call.target.value := {id}] else e
    case BindN(_, t, v) => e[t := DepsOf(e, Refs(v))]
    case TermN(_, _, _, _) => e
    case BranchN(_, arms) => AlongArms(arms, ArmOf(r), e, Inside(r))
  }

  ghost function AlongArms(arms: NodeArms, arm: nat, e: Env, r: Route): Env
    decreases arms
  {
    match arms
    case CaseN(_, body, rest) => if arm == 0 then Along(body, e, r) else AlongArms(rest, arm - 1, e, r)
    case ElseN(body) => Along(body, e, r)
  }

  // ----- The analysis covers every static path, and every run -----

  predicate Origin(e: Env, v: string, x: Id) {
    v in e && x in e[v]
  }

  predicate Lists(p: Producers, v: string, x: Id) {
    v in p && x in p[v]
  }

  ghost predicate Below(e: Env, p: Producers) {
    e.Keys <= p.Keys && forall v, x :: Origin(e, v, x) ==> Lists(p, v, x)
  }

  lemma BindBelow(e: Env, p: Producers, t: string, names: seq<string>)
    requires Below(e, p)
    ensures Below(e[t := DepsOf(e, names)], p[t := Inherited(p, names, [])])
  {
    forall x | x in DepsOf(e, names)
      ensures x in Inherited(p, names, [])
    {
      var n :| n in names && n in e && x in e[n];
      assert Origin(e, n, x);
      assert Lists(p, n, x);
      InheritedMembers(p, names, [], x);
    }
    var e', p' := e[t := DepsOf(e, names)], p[t := Inherited(p, names, [])];
    forall v, x | Origin(e', v, x)
      ensures Lists(p', v, x)
    {
      if v != t {
        assert Origin(e, v, x);
      }
    }
  }

  lemma CallBelow(e: Env, p: Producers, t: string, id: Id)
    requires Below(e, p)
    ensures Below(e[t := {id}], p[t := [id]])
  {
    var e', p' := e[t := {id}], p[t := [id]];
    forall v, x | Origin(e', v, x)
      ensures Lists(p', v, x)
    {
      if v != t {
        assert Origin(e, v, x);
      }
    }
  }

  lemma ArmBelow(e: Env, maps: seq<Producers>, k: nat)
    requires k < |maps| && Below(e, maps[k])
    ensures Below(e, MergeAll(map[], maps))
  {
    var m := MergeAll(map[], maps);
    forall v | v in e
      ensures v in m && forall x :: x in maps[k][v] ==> x in m[v]
    {
      MergeAllMembers(map[], maps, v);
      assert v in maps[k] && GetOr(maps[k], v, []) == maps[k][v] && GetOr(m, v, []) == m[v];
    }
    forall v, x | Origin(e, v, x)
      ensures Lists(m, v, x)
    {
      assert Lists(maps[k], v, x);
    }
  }

  lemma {:induction false} AlongBelow(p: Producers, b: Block, e: Env, r: Route)
    requires Below(e, p)
    ensures Below(Along(b, e, r), After(p, b))
    decreases b
  {
    if b.BCons? {
      AlongNodeBelow(p, b.head, e, r);
      AlongBelow(AfterNode(p, b.head), b.tail, AlongNode(b.head, e, r), if b.head.BranchN? then Next(r) else r);
    }
  }

  lemma {:induction false} AlongNodeBelow(p: Producers, n: Node, e: Env, r: Route)
    requires Below(e, p)
    ensures Below(AlongNode(n, e, r), AfterNode(p, n))
    decreases n
  {
    match n
    case CallN(id, call) =>
      if call.target.Some? {
        CallBelow(e, p, call.target.value, id);
      }
    case BindN(_, t, v) => BindBelow(e, p, t, Refs(v));
    case TermN(_, _, _, _) =>
    case BranchN(_, arms) =>
      var k := AlongArmsBelow(p, arms, ArmOf(r), e, Inside(r));
      ArmBelow(AlongNode(n, e, r), AfterArms(p, arms), k);
  }

  lemma {:induction false} AlongArmsBelow(p: Producers, arms: NodeArms, arm: nat, e: Env, r: Route) returns (k: nat)
    requires Below(e, p)
    ensures k < |AfterArms(p, arms)| && Below(AlongArms(arms, arm, e, r), AfterArms(p, arms)[k])
    decreases arms
  {
    match arms
    case CaseN(_, body, rest) =>
      if arm == 0 {
        AlongBelow(p, body, e, r);
        k := 0;
      } else {
        k := AlongArmsBelow(p, rest, arm - 1, e, r);
        k := k + 1;
      }
    case ElseN(body) =>
      AlongBelow(p, body, e, r);
      k := 0;
  }

  /** A real run that falls through depends on no call that the analysis does not list. */
  lemma {:induction false} RunBelow(p: Producers, b: Block, s: RunState)
    requires Below(s.env, p)
    ensures RunBlock(b, s).stop.None? ==> Below(RunBlock(b, s).after.env, After(p, b))
    decreases b
  {
    if b.BCons? {
      RunNodeBelow(p, b.head, s);
      var r := RunNode(b.head, s);
      if r.stop.None? {
        RunBelow(AfterNode(p, b.head), b.tail, r.after);
      }
    }
  }

  lemma {:induction false} RunNodeBelow(p: Producers, n: Node, s: RunState)
    requires Below(s.env, p)
    ensures RunNode(n, s).stop.None? ==> Below(RunNode(n, s).after.env, AfterNode(p, n))
    decreases n
  {
    match n
    case CallN(id, call) =>
      if call.target.Some? {
        CallBelow(s.env, p, call.target.value, id);
      }
    case BindN(_, t, v) => BindBelow(s.env, p, t, Refs(v));
    case TermN(_, _, _, _) =>
    case BranchN(id, arms) =>
      var k := RunArmsBelow(p, id, arms, 0, Head(s.picks), s.(picks := Tail(s.picks)));
      if RunNode(n, s).stop.None? {
        ArmBelow(RunNode(n, s).after.env, AfterArms(p, arms), k);
      }
  }

  lemma {:induction false} RunArmsBelow(p: Producers, id: Id, arms: NodeArms, i: nat, pick: nat, s: RunState) returns (k: nat)
    requires Below(s.env, p)
    ensures k < |AfterArms(p, arms)|
    ensures var r := RunArms(id, arms, i, pick, s); r.stop.None? ==> Below(r.after.env, AfterArms(p, arms)[k])
    decreases arms
  {
    match arms
    case CaseN(_, body, rest) =>
      if pick == i {
        RunBelow(p, body, s.(at := Pos(id, CaseId(i))));
        k := 0;
      } else {
        k := RunArmsBelow(p, id, rest, i + 1, pick, s);
        k := k + 1;
      }
    case ElseN(body) =>
      RunBelow(p, body, s.(at := Pos(id, FALSE)));
      k := 0;
  }

  // ----- Every listed producer is the origin on some static path -----

  /** Each producer listed in `p` is an origin in some environment of the set. */
  ghost predicate Witnessed(p: Producers, es: iset<Env>) {
    (exists e :: e in es) && forall v, x :: Lists(p, v, x) ==> exists e :: e in es && Origin(e, v, x)
  }

  ghost function AfterAll(n: Node, es: iset<Env>): iset<Env> {
    iset e, r | e in es :: AlongNode(n, e, r)
  }

  lemma {:induction false} BlockWitness(p: Producers, es: iset<Env>, b: Block, v: string, x: Id) returns (e: Env, r: Route)
    requires Witnessed(p, es) && Lists(After(p, b), v, x)
    ensures e in es && Origin(Along(b, e, r), v, x)
    decreases b
  {
    match b
    case BNil =>
      e :| e in es && Origin(e, v, x);
      r := Straight;
    case BCons(n, rest) =>
      var es1 := AfterAll(n, es);
      forall w, y | Lists(AfterNode(p, n), w, y)
        ensures exists d :: d in es1 && Origin(d, w, y)
      {
        var d, q := NodeWitness(p, es, n, w, y);
        assert AlongNode(n, d, q) in es1;
      }
      var d0 :| d0 in es;
      assert AlongNode(n, d0, Straight) in es1;
      var e1, r1 := BlockWitness(AfterNode(p, n), es1, rest, v, x);
      var d, q :| d in es && AlongNode(n, d, q) == e1;
      e := d;
      r := if n.BranchN? then Turn(ArmOf(q), Inside(q), r1) else r1;
  }

  lemma {:induction false} NodeWitness(p: Producers, es: iset<Env>, n: Node, v: string, x: Id) returns (e: Env, r: Route)
    requires Witnessed(p, es) && Lists(AfterNode(p, n), v, x)
    ensures e in es && Origin(AlongNode(n, e, r), v, x)
    decreases n
  {
    r := Straight;
    match n
    case CallN(id, call) =>
      if call.target == Some(v) {
        e :| e in es;
      } else {
        assert Lists(p, v, x);
        e :| e in es && Origin(e, v, x);
      }
    case BindN(_, t, value) =>
      if v == t {
        InheritedMembers(p, Refs(value), [], x);
        var m :| m in Refs(value) && m in p && x in p[m];
        assert Lists(p, m, x);
        e :| e in es && Origin(e, m, x);
      } else {
        assert Lists(p, v, x);
        e :| e in es && Origin(e, v, x);
      }
    case TermN(_, _, _, _) =>
      e :| e in es && Origin(e, v, x);
    case BranchN(_, arms) =>
      MergeAllMembers(map[], AfterArms(p, arms), v);
      assert x in GetOr(AfterNode(p, n), v, []);
      var k :| 0 <= k < |AfterArms(p, arms)| && x in GetOr(AfterArms(p, arms)[k], v, []);
      var e1, r1 := ArmWitness(p, es, arms, k, v, x);
      e, r := e1, Turn(k, r1, Straight);
  }

  lemma {:induction false} ArmWitness(p: Producers, es: iset<Env>, arms: NodeArms, k: nat, v: string, x: Id) returns (e: Env, r: Route)
    requires Witnessed(p, es) && k < |AfterArms(p, arms)| && Lists(AfterArms(p, arms)[k], v, x)
    ensures e in es && Origin(AlongArms(arms, k, e, r), v, x)
    decreases arms
  {
    match arms
    case CaseN(_, body, rest) =>
      if k == 0 {
        e, r := BlockWitness(p, es, body, v, x);
      } else {
        e, r := ArmWitness(p, es, rest, k - 1, v, x);
      }
    case ElseN(body) =>
      e, r := BlockWitness(p, es, body, v, x);
  }

  // ----- No repetition -----

  ghost predicate Distinct(p: Producers) {
    forall v :: v in p ==> NoDup(p[v])
  }

  lemma {:induction false} InheritedDistinct(p: Producers, names: seq<string>, acc: seq<Id>)
    requires NoDup(acc)
    ensures NoDup(Inherited(p, names, acc))
    decreases |names|
  {
    if names != [] {
      InheritedDistinct(p, names[1..], AddNew(acc, GetOr(p, names[0], [])));
    }
  }

  lemma {:induction false} MergeAllDistinct(acc: Producers, maps: seq<Producers>)
    requires Distinct(acc)
    ensures Distinct(MergeAll(acc, maps))
    decreases |maps|
  {
    if maps != [] {
      forall v | v in Merge(acc, maps[0])
        ensures NoDup(Merge(acc, maps[0])[v])
      {
        assert NoDup(GetOr(acc, v, []));
      }
      MergeAllDistinct(Merge(acc, maps[0]), maps[1..]);
    }
  }

  lemma {:induction false} AfterDistinct(p: Producers, b: Block)
    requires Distinct(p)
    ensures Distinct(After(p, b))
    decreases b
  {
    if b.BCons? {
      match b.head {
        case BindN(_, _, v) => InheritedDistinct(p, Refs(v), []);
        case BranchN(_, arms) => MergeAllDistinct(map[], AfterArms(p, arms));
        case _ =>
      }
      AfterDistinct(AfterNode(p, b.head), b.tail);
    }
  }

  // ----- The two directions together -----

  /** `p` is exact for a set of environments: it lists a call for a variable just when some environment has it. */
  ghost predicate Exact(p: Producers, es: iset<Env>) {
    (exists e :: e in es) &&
    (forall e :: e in es ==> e.Keys <= p.Keys) &&
    forall v, x :: Lists(p, v, x) <==> exists e :: e in es && Origin(e, v, x)
  }

  /** The environments at the end of `b`, over all static paths from the given ones. */
  ghost function Reached(b: Block, es: iset<Env>): iset<Env> {
    iset e, r | e in es :: Along(b, e, r)
  }

  lemma ProducersExact(p: Producers, es: iset<Env>, b: Block)
    requires Exact(p, es)
    ensures Exact(After(p, b), Reached(b, es))
    ensures Distinct(p) ==> Distinct(After(p, b))
  {
    var e0 :| e0 in es;
    assert Along(b, e0, Straight) in Reached(b, es);
    forall e, r | e in es
      ensures Below(Along(b, e, r), After(p, b))
    {
      AlongBelow(p, b, e, r);
    }
    forall v, x | Lists(After(p, b), v, x)
      ensures exists e :: e in Reached(b, es) && Origin(e, v, x)
    {
      var e, r := BlockWitness(p, es, b, v, x);
      assert Along(b, e, r) in Reached(b, es);
    }
    if Distinct(p) {
      AfterDistinct(p, b);
    }
  }
}
