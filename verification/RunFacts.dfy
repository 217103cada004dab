/**
 What all runs that get to a place in a program have in common: for each step that may be the last one executed, the
 calls that each variable may depend on, and the sets of names of which some depends on a call on every run. A forward
 analysis of the tree finds these facts exactly.
 */
module RunFacts {
  import opened Prelude
  import opened Text
  import opened Pseudocode
  import opened FlowSemantics
  import opened ReachingProducers

  // ----- What all runs that get to a place have in common -----

  /**
   `may` has every variable assigned on some run, with the calls its value depends on over all of them; `sure` says of
   a set of names whether on every run one of them depends on a call.
   */
  datatype Facts = Facts(may: Env, sure: set<string> -> bool)

  /** The facts by the step executed last; a step that no run has last when it gets here is not listed. */
  type Place = map<Id, Facts>

  function NamesAt(f: Place): set<string> {
    set m, v | m in f && v in f[m].may :: v
  }

  function Pooled(f: Place): Facts {
    Facts(map v | v in NamesAt(f) :: set m, x | m in f && Origin(f[m].may, v, x) && x in f[m].may[v] :: x,
          names => forall m :: m in f ==> f[m].sure(names))
  }

  function Joined(f: Facts, g: Facts): Facts {
    Facts(map v | v in f.may.Keys + g.may.Keys :: GetOr(f.may, v, {}) + GetOr(g.may, v, {}),
          names => f.sure(names) && g.sure(names))
  }

  function Meet(f: Place, g: Place): Place {
    map m | m in f.Keys + g.Keys :: if m !in f then g[m] else if m !in g then f[m] else Joined(f[m], g[m])
  }

  function Called(f: Facts, t: string, id: Id): Facts {
    Facts(f.may[t := {id}], names => t in names || f.sure(names))
  }

  /** A plain assignment depends on a call just when one of the names in its value does. */
  function Before(names: set<string>, t: string, refs: seq<string>): set<string> {
    if t in names then (names - {t}) + set x | x in refs else names
  }

  function Copied(f: Facts, t: string, refs: seq<string>): Facts {
    Facts(f.may[t := DepsOf(f.may, refs)], names => f.sure(Before(names, t, refs)))
  }

  /** All runs together, at the step `id`. */
  function Gathered(f: Place, id: Id): Place {
    if |f| == 0 then f else map[id := Pooled(f)]
  }

  function PlaceAfter(f: Place, b: Block): Place
    decreases b
  {
    match b
    case BNil => f
    case BCons(n, rest) => PlaceAfter(PlaceAfterNode(f, n), rest)
  }

  function PlaceAfterNode(f: Place, n: Node): Place
    decreases n
  {
    match n
    case CallN(id, call) =>
      if |f| == 0 || call.target.None? then Gathered(f, id) else map[id := Called(Pooled(f), call.target.value, id)]
    case BindN(_, t, v) => map m | m in f :: Copied(f[m], t, Refs(v))
    case TermN(_, _, _, _) => map[]
    case BranchN(id, arms) => PlaceAfterArms(Gathered(f, id), arms)
  }

  function PlaceAfterArms(f: Place, arms: NodeArms): Place
    decreases arms
  {
    match arms
    case CaseN(_, body, rest) => Meet(PlaceAfter(f, body), PlaceAfterArms(f, rest))
    case ElseN(body) => PlaceAfter(f, body)
  }

  /** At the start of a program nothing is assigned. */
  function Entry(): Place {
    map[START := Facts(map[], names => false)]
  }

  // ----- The states in which runs get to a place -----

  type States = iset<RunState>

  ghost function Entered(ss: States, at: Pos): States {
    iset s | s in ss :: s.(at := at)
  }

  /** The states after a block over all runs that start in the given states; the picks that are left do not matter. */
  ghost function Past(b: Block, ss: States): States
    decreases b
  {
    match b
    case BNil => ss
    case BCons(n, rest) => Past(rest, PastNode(n, ss))
  }

  ghost function PastNode(n: Node, ss: States): States
    decreases n
  {
    match n
    case CallN(id, call) => iset s | s in ss :: AfterCall(s, id, call)
    case BindN(_, t, v) => iset s | s in ss :: AfterBind(s, t, v)
    case TermN(_, _, _, _) => iset{}
    case BranchN(id, arms) => PastArms(id, arms, 0, ss)
  }

  ghost function AfterCall(s: RunState, id: Id, call: CallInfo): RunState {
    RunState(if call.target.Some? then s.env[call.target.value := {id}] else s.env, Pos(id, SOURCE), s.picks)
  }

  ghost function AfterBind(s: RunState, t: string, v: Value): RunState {
    s.(env := s.env[t := DepsOf(s.env, Refs(v))])
  }

  ghost function PastArms(id: Id, arms: NodeArms, i: nat, ss: States): States
    decreases arms
  {
    match arms
    case CaseN(_, body, rest) => Past(body, Entered(ss, Pos(id, CaseId(i)))) + PastArms(id, rest, i + 1, ss)
    case ElseN(body) => Past(body, Entered(ss, Pos(id, FALSE)))
  }

  lemma {:induction false} PastIsReached(b: Block, ss: States, s': RunState, left: seq<nat>) returns (s: RunState, picks: seq<nat>)
    requires s' in Past(b, ss)
    ensures s in ss
    ensures var r := RunBlock(b, s.(picks := picks)); r.stop.None? && r.after == s'.(picks := left)
    decreases b
  {
    match b
    case BNil => s, picks := s', left;
    case BCons(n, rest) =>
      var s1, picks1 := PastIsReached(rest, PastNode(n, ss), s', left);
      s, picks := PastNodeIsReached(n, ss, s1, picks1);
  }

  lemma {:induction false} PastNodeIsReached(n: Node, ss: States, s': RunState, left: seq<nat>) returns (s: RunState, picks: seq<nat>)
    requires s' in PastNode(n, ss)
    ensures s in ss
    ensures var r := RunNode(n, s.(picks := picks)); r.stop.None? && r.after == s'.(picks := left)
    decreases n
  {
    match n
    case CallN(id, call) =>
      s :| s in ss && AfterCall(s, id, call) == s';
      picks := left;
    case BindN(_, t, v) =>
      s :| s in ss && AfterBind(s, t, v) == s';
      picks := left;
    case BranchN(id, arms) =>
      var pick, picks1;
      s, pick, picks1 := PastArmsIsReached(id, arms, 0, ss, s', left);
      picks := [pick] + picks1;
      assert Tail(picks) == picks1;
    case _ =>
      s, picks := s', left;
  }

  lemma {:induction false} PastArmsIsReached(id: Id, arms: NodeArms, i: nat, ss: States, s': RunState, left: seq<nat>)
    returns (s: RunState, pick: nat, picks: seq<nat>)
    requires s' in PastArms(id, arms, i, ss)
    ensures s in ss && pick >= i
    ensures var r := RunArms(id, arms, i, pick, s.(picks := picks)); r.stop.None? && r.after == s'.(picks := left)
    decreases arms
  {
    match arms
    case CaseN(_, body, rest) =>
      var at := Pos(id, CaseId(i));
      if s' in Past(body, Entered(ss, at)) {
        var s1;
        s1, picks := PastIsReached(body, Entered(ss, at), s', left);
        s :| s in ss && s.(at := at) == s1;
        pick := i;
        assert s.(picks := picks).(at := at) == s1.(picks := picks);
      } else {
        s, pick, picks := PastArmsIsReached(id, rest, i + 1, ss, s', left);
      }
    case ElseN(body) =>
      var at := Pos(id, FALSE);
      var s1;
      s1, picks := PastIsReached(body, Entered(ss, at), s', left);
      s :| s in ss && s.(at := at) == s1;
      pick := i;
      assert s.(picks := picks).(at := at) == s1.(picks := picks);
  }

  /** The states with their remaining picks forgotten. */
  ghost predicate Among(s: RunState, ss: States) {
    exists q :: q in ss && q == s.(picks := q.picks)
  }

  lemma {:induction false} RunGetsPast(b: Block, ss: States, s: RunState)
    requires Among(s, ss)
    ensures RunBlock(b, s).stop.None? ==> Among(RunBlock(b, s).after, Past(b, ss))
    decreases b
  {
    if b.BCons? {
      RunGetsPastNode(b.head, ss, s);
      if RunNode(b.head, s).stop.None? {
        RunGetsPast(b.tail, PastNode(b.head, ss), RunNode(b.head, s).after);
      }
    }
  }

  lemma {:induction false} RunGetsPastNode(n: Node, ss: States, s: RunState)
    requires Among(s, ss)
    ensures RunNode(n, s).stop.None? ==> Among(RunNode(n, s).after, PastNode(n, ss))
    decreases n
  {
    var q :| q in ss && q == s.(picks := q.picks);
    match n
    case CallN(id, call) => assert AfterCall(q, id, call) in PastNode(n, ss);
    case BindN(_, t, v) => assert AfterBind(q, t, v) in PastNode(n, ss);
    case BranchN(id, arms) =>
      RunGetsPastArms(id, arms, 0, Head(s.picks), ss, s.(picks := Tail(s.picks)));
    case _ =>
  }

  lemma EnteredAmong(ss: States, s: RunState, at: Pos)
    requires Among(s, ss)
    ensures Among(s.(at := at), Entered(ss, at))
  {
    var q :| q in ss && q == s.(picks := q.picks);
    assert q.(at := at) in Entered(ss, at);
  }

  lemma {:induction false} RunGetsPastArms(id: Id, arms: NodeArms, i: nat, pick: nat, ss: States, s: RunState)
    requires Among(s, ss)
    ensures RunArms(id, arms, i, pick, s).stop.None? ==> Among(RunArms(id, arms, i, pick, s).after, PastArms(id, arms, i, ss))
    decreases arms
  {
    hide Among;
    match arms
    case CaseN(_, body, rest) =>
      var at := Pos(id, CaseId(i));
      var here, later := Past(body, Entered(ss, at)), PastArms(id, rest, i + 1, ss);
      if pick == i {
        EnteredAmong(ss, s, at);
        RunGetsPast(body, Entered(ss, at), s.(at := at));
      } else {
        RunGetsPastArms(id, rest, i + 1, pick, ss, s);
      }
      AmongEither(RunArms(id, arms, i, pick, s).after, here, later);
    case ElseN(body) =>
      EnteredAmong(ss, s, Pos(id, FALSE));
      RunGetsPast(body, Entered(ss, Pos(id, FALSE)), s.(at := Pos(id, FALSE)));
  }

  lemma AmongEither(s: RunState, a: States, b: States)
    ensures Among(s, a) || Among(s, b) ==> Among(s, a + b)
  {
  }

  // ----- The facts are exact -----

  ghost predicate Assigns(ss: States, v: string) {
    exists s :: s in ss && v in s.env
  }

  ghost predicate Originates(ss: States, v: string, x: Id) {
    exists s :: s in ss && Origin(s.env, v, x)
  }

  /** Some name of the set depends on a call. */
  predicate Depends(e: Env, names: set<string>) {
    exists v :: v in names && v in e && e[v] != {}
  }

  ghost predicate AlwaysDepends(ss: States, names: set<string>) {
    forall s :: s in ss ==> Depends(s.env, names)
  }

  ghost predicate Sums(f: Facts, ss: States) {
    (forall v :: v in f.may <==> Assigns(ss, v)) &&
    (forall v, x :: Origin(f.may, v, x) <==> Originates(ss, v, x)) &&
    forall names :: f.sure(names) <==> AlwaysDepends(ss, names)
  }

  ghost function At(ss: States, m: Id): States {
    iset s | s in ss && s.at.node == m
  }

  ghost predicate Inhabited(ss: States) {
    exists s :: s in ss
  }

  /** The facts at a place are those of the states in which runs get to it. */
  ghost predicate Exactly(f: Place, ss: States) {
    forall m :: (m in f <==> Inhabited(At(ss, m))) && (m in f ==> Sums(f[m], At(ss, m)))
  }

  lemma Located(f: Place, ss: States, s: RunState)
    requires Exactly(f, ss) && s in ss
    ensures s.at.node in f && s in At(ss, s.at.node) && Sums(f[s.at.node], At(ss, s.at.node))
  {
    assert s in At(ss, s.at.node);
  }

  lemma PooledSums(f: Place, ss: States)
    requires Exactly(f, ss)
    ensures Sums(Pooled(f), ss)
    ensures |f| == 0 <==> !Inhabited(ss)
  {
    hide Exactly, Pooled, Assigns, Originates, AlwaysDepends;
    forall v
      ensures v in Pooled(f).may <==> Assigns(ss, v)
    {
      PooledAssigns(f, ss, v);
    }
    forall v, x
      ensures Origin(Pooled(f).may, v, x) <==> Originates(ss, v, x)
    {
      PooledOriginates(f, ss, v, x);
    }
    forall names
      ensures Pooled(f).sure(names) <==> AlwaysDepends(ss, names)
    {
      PooledDepends(f, ss, names);
    }
    SomewhereExact(f, ss);
  }

  lemma SomewhereExact(f: Place, ss: States)
    requires Exactly(f, ss)
    ensures |f| == 0 <==> !Inhabited(ss)
  {
    if Inhabited(ss) {
      var s :| s in ss;
      Located(f, ss, s);
    }
    if |f| > 0 {
      var m :| m in f;
      assert Inhabited(At(ss, m));
    }
  }

  lemma PooledAssigns(f: Place, ss: States, v: string)
    requires Exactly(f, ss)
    ensures v in Pooled(f).may <==> Assigns(ss, v)
  {
    if Assigns(ss, v) {
      var s :| s in ss && v in s.env;
      Located(f, ss, s);
      assert Assigns(At(ss, s.at.node), v);
    }
    if v in NamesAt(f) {
      var m :| m in f && v in f[m].may;
      assert Assigns(At(ss, m), v);
    }
  }

  lemma PooledOriginates(f: Place, ss: States, v: string, x: Id)
    requires Exactly(f, ss)
    ensures Origin(Pooled(f).may, v, x) <==> Originates(ss, v, x)
  {
    if Originates(ss, v, x) {
      var s :| s in ss && Origin(s.env, v, x);
      Located(f, ss, s);
      assert Originates(At(ss, s.at.node), v, x);
      assert Origin(f[s.at.node].may, v, x);
    }
    if Origin(Pooled(f).may, v, x) {
      var m :| m in f && Origin(f[m].may, v, x);
      assert Originates(At(ss, m), v, x);
    }
  }

  lemma PooledDepends(f: Place, ss: States, names: set<string>)
    requires Exactly(f, ss)
    ensures Pooled(f).sure(names) <==> AlwaysDepends(ss, names)
  {
    if AlwaysDepends(ss, names) {
      forall m | m in f
        ensures f[m].sure(names)
      {
        assert AlwaysDepends(At(ss, m), names);
      }
    }
    if Pooled(f).sure(names) {
      forall s | s in ss
        ensures Depends(s.env, names)
      {
        Located(f, ss, s);
        assert AlwaysDepends(At(ss, s.at.node), names);
      }
    }
  }

  lemma JoinedSums(f: Facts, g: Facts, ss: States, ts: States)
    requires Sums(f, ss) && Sums(g, ts)
    ensures Sums(Joined(f, g), ss + ts)
  {
    forall v
      ensures Assigns(ss + ts, v) <==> Assigns(ss, v) || Assigns(ts, v)
    {
      if Assigns(ss, v) {
        var s :| s in ss && v in s.env;
        assert s in ss + ts;
      }
      if Assigns(ts, v) {
        var s :| s in ts && v in s.env;
        assert s in ss + ts;
      }
    }
    forall v, x
      ensures Originates(ss + ts, v, x) <==> Originates(ss, v, x) || Originates(ts, v, x)
      ensures Origin(Joined(f, g).may, v, x) <==> Origin(f.may, v, x) || Origin(g.may, v, x)
    {
      if Originates(ss, v, x) {
        var s :| s in ss && Origin(s.env, v, x);
        assert s in ss + ts;
      }
      if Originates(ts, v, x) {
        var s :| s in ts && Origin(s.env, v, x);
        assert s in ss + ts;
      }
    }
    forall names
      ensures AlwaysDepends(ss + ts, names) <==> AlwaysDepends(ss, names) && AlwaysDepends(ts, names)
    {
      assert forall s :: s in ss || s in ts <==> s in ss + ts;
    }
  }

  lemma NoneSum(f: Facts, ss: States, ts: States)
    requires Sums(f, ss) && !Inhabited(ts)
    ensures Sums(f, ss + ts) && Sums(f, ts + ss)
  {
    assert ss + ts == ss && ts + ss == ss;
  }

  lemma MeetExact(f: Place, g: Place, ss: States, ts: States)
    requires Exactly(f, ss) && Exactly(g, ts)
    ensures Exactly(Meet(f, g), ss + ts)
  {
    hide Sums;
    forall m
      ensures m in Meet(f, g) <==> Inhabited(At(ss + ts, m))
      ensures m in Meet(f, g) ==> Sums(Meet(f, g)[m], At(ss + ts, m))
    {
      var a, b := At(ss, m), At(ts, m);
      assert At(ss + ts, m) == a + b;
      assert Inhabited(a + b) <==> Inhabited(a) || Inhabited(b) by {
        assert forall s :: s in a || s in b <==> s in a + b;
      }
      if m in f && m in g {
        JoinedSums(f[m], g[m], a, b);
      } else if m in f {
        NoneSum(f[m], a, b);
      } else if m in g {
        NoneSum(g[m], b, a);
      }
    }
  }

  /** All states stand at one step. */
  lemma OnePlace(f: Facts, ss: States, id: Id)
    requires Sums(f, ss) && Inhabited(ss) && forall s :: s in ss ==> s.at.node == id
    ensures Exactly(map[id := f], ss)
  {
    hide Sums;
    forall m
      ensures m == id ==> At(ss, m) == ss
      ensures m != id ==> !Inhabited(At(ss, m))
    {
    }
  }

  lemma NowhereExact(ss: States)
    requires !Inhabited(ss)
    ensures Exactly(map[], ss)
  {
  }

  lemma EnteredSums(f: Facts, ss: States, at: Pos)
    requires Sums(f, ss)
    ensures Sums(f, Entered(ss, at)) && (Inhabited(Entered(ss, at)) <==> Inhabited(ss))
  {
    var ts := Entered(ss, at);
    forall s | s in ss
      ensures s.(at := at) in ts
    {
    }
    forall v
      ensures Assigns(ts, v) <==> Assigns(ss, v)
    {
      if Assigns(ss, v) {
        var s :| s in ss && v in s.env;
        assert s.(at := at) in ts;
      }
    }
    forall v, x
      ensures Originates(ts, v, x) <==> Originates(ss, v, x)
    {
      if Originates(ss, v, x) {
        var s :| s in ss && Origin(s.env, v, x);
        assert s.(at := at) in ts;
      }
    }
    forall names
      ensures AlwaysDepends(ts, names) <==> AlwaysDepends(ss, names)
    {
      if AlwaysDepends(ts, names) {
        forall s | s in ss
          ensures Depends(s.env, names)
        {
          assert s.(at := at) in ts;
        }
      }
    }
  }

  lemma GatheredExact(f: Place, ss: States, at: Pos)
    requires Exactly(f, ss)
    ensures Exactly(Gathered(f, at.node), Entered(ss, at))
  {
    hide Exactly, Pooled, Sums;
    PooledSums(f, ss);
    EnteredSums(Pooled(f), ss, at);
    if |f| == 0 {
      assert f == map[];
      NowhereExact(Entered(ss, at));
    } else {
      OnePlace(Pooled(f), Entered(ss, at), at.node);
    }
  }

  lemma CalledSums(f: Facts, ss: States, t: string, id: Id, call: CallInfo)
    requires Sums(f, ss) && Inhabited(ss) && call.target == Some(t)
    ensures Sums(Called(f, t, id), PastNode(CallN(id, call), ss))
  {
    var ts := PastNode(CallN(id, call), ss);
    hide Assigns, Originates, AlwaysDepends, PastNode;
    forall v
      ensures Assigns(ts, v) <==> v == t || Assigns(ss, v)
    {
      CalledAssigns(ss, t, id, call, v);
    }
    forall v, x
      ensures Originates(ts, v, x) <==> if v == t then x == id else Originates(ss, v, x)
    {
      CalledOriginates(ss, t, id, call, v, x);
    }
    forall names
      ensures AlwaysDepends(ts, names) <==> t in names || AlwaysDepends(ss, names)
    {
      CalledDepends(ss, t, id, call, names);
    }
  }

  lemma CalledAssigns(ss: States, t: string, id: Id, call: CallInfo, v: string)
    requires Inhabited(ss) && call.target == Some(t)
    ensures Assigns(PastNode(CallN(id, call), ss), v) <==> v == t || Assigns(ss, v)
  {
    var s :| s in ss && (Assigns(ss, v) ==> v in s.env);
    assert AfterCall(s, id, call) in PastNode(CallN(id, call), ss);
  }

  lemma CalledOriginates(ss: States, t: string, id: Id, call: CallInfo, v: string, x: Id)
    requires Inhabited(ss) && call.target == Some(t)
    ensures Originates(PastNode(CallN(id, call), ss), v, x) <==> if v == t then x == id else Originates(ss, v, x)
  {
    var ts := PastNode(CallN(id, call), ss);
    var s :| s in ss && (Originates(ss, v, x) ==> Origin(s.env, v, x));
    assert AfterCall(s, id, call) in ts;
    if Originates(ss, v, x) || (v == t && x == id) {
      assert v != t || x == id ==> Origin(AfterCall(s, id, call).env, v, x);
    }
    if Originates(ts, v, x) {
      var q :| q in ts && Origin(q.env, v, x);
      var s1 :| s1 in ss && AfterCall(s1, id, call) == q;
      assert v != t ==> Origin(s1.env, v, x);
    }
  }

  lemma CalledDepends(ss: States, t: string, id: Id, call: CallInfo, names: set<string>)
    requires Inhabited(ss) && call.target == Some(t)
    ensures AlwaysDepends(PastNode(CallN(id, call), ss), names) <==> t in names || AlwaysDepends(ss, names)
  {
    var ts := PastNode(CallN(id, call), ss);
    hide Depends;
    forall s | s in ss
      ensures AfterCall(s, id, call) in ts
      ensures Depends(AfterCall(s, id, call).env, names) <==> t in names || Depends(s.env, names)
    {
      DependsAfter(s.env, t, {id}, names);
      if t !in names {
        assert names - {t} == names;
      }
    }
  }

  lemma AfterCallStands(ss: States, id: Id, call: CallInfo)
    ensures var ts := PastNode(CallN(id, call), ss); (Inhabited(ts) <==> Inhabited(ss)) && forall s :: s in ts ==> s.at.node == id
  {
    if Inhabited(ss) {
      var s :| s in ss;
      assert AfterCall(s, id, call) in PastNode(CallN(id, call), ss);
    }
  }

  lemma DependsAfter(e: Env, t: string, ids: set<Id>, names: set<string>)
    ensures Depends(e[t := ids], names) <==> (t in names && ids != {}) || Depends(e, names - {t})
  {
    var w := e[t := ids];
    if t in names && ids != {} {
      assert t in names && t in w && w[t] != {};
    }
    if Depends(e, names - {t}) {
      var v :| v in names - {t} && v in e && e[v] != {};
      assert v in names && v in w && w[v] != {};
    }
    if Depends(w, names) {
      var v :| v in names && v in w && w[v] != {};
      if v != t {
        assert v in names - {t} && v in e && e[v] != {};
      }
    }
  }

  lemma CopiedDepends(e: Env, t: string, refs: seq<string>, names: set<string>)
    ensures Depends(e[t := DepsOf(e, refs)], names) <==> Depends(e, Before(names, t, refs))
  {
    var ids := DepsOf(e, refs);
    var rs := set x | x in refs;
    DependsAfter(e, t, ids, names);
    assert ids != {} <==> Depends(e, rs) by {
      if ids != {} {
        var x :| x in ids;
        var n :| n in refs && n in e && x in e[n];
        assert n in rs && e[n] != {};
      }
      if Depends(e, rs) {
        var n :| n in rs && n in e && e[n] != {};
        var x :| x in e[n];
        assert x in ids;
      }
    }
    if t in names {
      assert Depends(e, (names - {t}) + rs) <==> Depends(e, names - {t}) || Depends(e, rs);
    } else {
      assert names - {t} == names;
    }
  }

  lemma CopiedSums(f: Facts, ss: States, id: Id, t: string, v: Value)
    requires Sums(f, ss) && Inhabited(ss)
    ensures Sums(Copied(f, t, Refs(v)), PastNode(BindN(id, t, v), ss)) && Inhabited(PastNode(BindN(id, t, v), ss))
  {
    var refs := Refs(v);
    var ts := PastNode(BindN(id, t, v), ss);
    var s0 :| s0 in ss;
    assert AfterBind(s0, t, v) in ts;
    forall s | s in ss
      ensures AfterBind(s, t, v) in ts
    {
    }
    forall w
      ensures Assigns(ts, w) <==> w == t || Assigns(ss, w)
    {
      if Assigns(ss, w) {
        var s :| s in ss && w in s.env;
        assert AfterBind(s, t, v) in ts;
      }
    }
    forall w, x
      ensures Originates(ts, w, x) <==> Origin(Copied(f, t, refs).may, w, x)
    {
      CopiedOriginates(f, ss, id, t, v, w, x);
    }
    forall names
      ensures AlwaysDepends(ts, names) <==> AlwaysDepends(ss, Before(names, t, refs))
    {
      forall s | s in ss
        ensures Depends(AfterBind(s, t, v).env, names) <==> Depends(s.env, Before(names, t, refs))
      {
        CopiedDepends(s.env, t, refs, names);
      }
    }
  }

  lemma CopiedOriginates(f: Facts, ss: States, id: Id, t: string, v: Value, w: string, x: Id)
    requires Sums(f, ss) && Inhabited(ss)
    ensures Originates(PastNode(BindN(id, t, v), ss), w, x) <==> Origin(Copied(f, t, Refs(v)).may, w, x)
  {
    if Originates(PastNode(BindN(id, t, v), ss), w, x) {
      CopiedHasOrigin(f, ss, id, t, v, w, x);
    }
    if Origin(Copied(f, t, Refs(v)).may, w, x) {
      CopiedComesFrom(f, ss, id, t, v, w, x);
    }
  }

  lemma CopiedHasOrigin(f: Facts, ss: States, id: Id, t: string, v: Value, w: string, x: Id)
    requires Sums(f, ss) && Originates(PastNode(BindN(id, t, v), ss), w, x)
    ensures Origin(Copied(f, t, Refs(v)).may, w, x)
  {
    var refs := Refs(v);
    var ts := PastNode(BindN(id, t, v), ss);
    var q :| q in ts && Origin(q.env, w, x);
    var s :| s in ss && AfterBind(s, t, v) == q;
    if w == t {
      var n :| n in refs && n in s.env && x in s.env[n];
      assert Origin(s.env, n, x) && Originates(ss, n, x) && Origin(f.may, n, x);
    } else {
      assert Origin(s.env, w, x) && Originates(ss, w, x) && Origin(f.may, w, x);
    }
  }

  lemma CopiedComesFrom(f: Facts, ss: States, id: Id, t: string, v: Value, w: string, x: Id)
    requires Sums(f, ss) && Origin(Copied(f, t, Refs(v)).may, w, x)
    ensures Originates(PastNode(BindN(id, t, v), ss), w, x)
  {
    var n := w;
    if w == t {
      n :| n in Refs(v) && n in f.may && x in f.may[n];
    }
    assert Origin(f.may, n, x);
    var s :| s in ss && Origin(s.env, n, x);
    assert AfterBind(s, t, v) in PastNode(BindN(id, t, v), ss) && Origin(AfterBind(s, t, v).env, w, x);
  }

  lemma {:induction false} PlaceIsExact(f: Place, ss: States, b: Block)
    requires Exactly(f, ss)
    ensures Exactly(PlaceAfter(f, b), Past(b, ss))
    decreases b
  {
    if b.BCons? {
      PlaceNodeIsExact(f, ss, b.head);
      PlaceIsExact(PlaceAfterNode(f, b.head), PastNode(b.head, ss), b.tail);
    }
  }

  lemma {:induction false} PlaceNodeIsExact(f: Place, ss: States, n: Node)
    requires Exactly(f, ss)
    ensures Exactly(PlaceAfterNode(f, n), PastNode(n, ss))
    decreases n
  {
    hide Exactly, Sums, Pooled;
    match n
    case CallN(id, call) => CallIsExact(f, ss, id, call);
    case BindN(id, t, v) => BindIsExact(f, ss, id, t, v);
    case TermN(_, _, _, _) => NowhereExact(iset{});
    case BranchN(id, arms) => PlaceArmsIsExact(f, ss, id, arms, 0);
  }

  lemma CallIsExact(f: Place, ss: States, id: Id, call: CallInfo)
    requires Exactly(f, ss)
    ensures Exactly(PlaceAfterNode(f, CallN(id, call)), PastNode(CallN(id, call), ss))
  {
    hide Exactly, Sums, Pooled;
    PooledSums(f, ss);
    if call.target.None? {
      GatheredExact(f, ss, Pos(id, SOURCE));
      assert PastNode(CallN(id, call), ss) == Entered(ss, Pos(id, SOURCE));
    } else {
      AfterCallStands(ss, id, call);
      if |f| == 0 {
        assert f == map[];
        NowhereExact(PastNode(CallN(id, call), ss));
      } else {
        CalledSums(Pooled(f), ss, call.target.value, id, call);
        OnePlace(Called(Pooled(f), call.target.value, id), PastNode(CallN(id, call), ss), id);
      }
    }
  }

  lemma BindIsExact(f: Place, ss: States, id: Id, t: string, v: Value)
    requires Exactly(f, ss)
    ensures Exactly(PlaceAfterNode(f, BindN(id, t, v)), PastNode(BindN(id, t, v), ss))
  {
    hide Sums, Copied;
    var ts := PastNode(BindN(id, t, v), ss);
    forall m
      ensures At(ts, m) == PastNode(BindN(id, t, v), At(ss, m))
    {
    }
    forall m | m in f
      ensures Inhabited(At(ts, m)) && Sums(Copied(f[m], t, Refs(v)), At(ts, m))
    {
      CopiedSums(f[m], At(ss, m), id, t, v);
    }
    forall m | Inhabited(At(ts, m))
      ensures m in f
    {
      var q :| q in At(ts, m);
      var s :| s in At(ss, m) && AfterBind(s, t, v) == q;
    }
  }

  lemma {:induction false} PlaceArmsIsExact(f: Place, ss: States, id: Id, arms: NodeArms, i: nat)
    requires Exactly(f, ss)
    ensures Exactly(PlaceAfterArms(Gathered(f, id), arms), PastArms(id, arms, i, ss))
    decreases arms
  {
    hide Exactly, Sums, Pooled, Gathered, Meet;
    match arms
    case CaseN(_, body, rest) =>
      GatheredExact(f, ss, Pos(id, CaseId(i)));
      PlaceIsExact(Gathered(f, id), Entered(ss, Pos(id, CaseId(i))), body);
      PlaceArmsIsExact(f, ss, id, rest, i + 1);
      MeetExact(PlaceAfter(Gathered(f, id), body), PlaceAfterArms(Gathered(f, id), rest),
                Past(body, Entered(ss, Pos(id, CaseId(i)))), PastArms(id, rest, i + 1, ss));
    case ElseN(body) =>
      GatheredExact(f, ss, Pos(id, FALSE));
      PlaceIsExact(Gathered(f, id), Entered(ss, Pos(id, FALSE)), body);
  }
}
