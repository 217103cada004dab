/**
 Exactness of both analyses together over all static paths: which calls may have produced a variable, which variables
 are assigned on some path, and which on every path.
 */
module PathExactness {
  import opened Prelude
  import opened Pseudocode
  import opened FlowSemantics
  import opened Scoping
  import opened ReachingProducers
  import opened OriginTracking
  import opened Correctness

  // ----- Names assigned on every path, and on one -----

  function Must(b: Block): set<string>
    decreases b
  {
    match b
    case BNil => {}
    case BCons(n, rest) => MustNode(n) + Must(rest)
  }

  function MustNode(n: Node): set<string>
    decreases n
  {
    match n
    case BranchN(_, arms) => MustArms(arms)
    case _ => NodeTargets(n)
  }

  function MustArms(arms: NodeArms): set<string>
    decreases arms
  {
    match arms
    case CaseN(_, body, rest) => Must(body) * MustArms(rest)
    case ElseN(body) => Must(body)
  }

  ghost predicate OnRoute(b: Block, r: Route, v: string)
    decreases b
  {
    match b
    case BNil => false
    case BCons(n, rest) => OnNodeRoute(n, r, v) || OnRoute(rest, if n.BranchN? then Next(r) else r, v)
  }

  ghost predicate OnNodeRoute(n: Node, r: Route, v: string)
    decreases n
  {
    match n
    case BranchN(_, arms) => OnArmRoute(arms, ArmOf(r), Inside(r), v)
    case _ => v in NodeTargets(n)
  }

  ghost predicate OnArmRoute(arms: NodeArms, arm: nat, r: Route, v: string)
    decreases arms
  {
    match arms
    case CaseN(_, body, rest) => if arm == 0 then OnRoute(body, r, v) else OnArmRoute(rest, arm - 1, r, v)
    case ElseN(body) => OnRoute(body, r, v)
  }

  lemma {:induction false} RouteKeys(b: Block, e: Env, r: Route, v: string)
    ensures v in Along(b, e, r) <==> v in e || OnRoute(b, r, v)
    decreases b
  {
    if b.BCons? {
      NodeRouteKeys(b.head, e, r, v);
      RouteKeys(b.tail, AlongNode(b.head, e, r), if b.head.BranchN? then Next(r) else r, v);
    }
  }

  lemma {:induction false} NodeRouteKeys(n: Node, e: Env, r: Route, v: string)
    ensures v in AlongNode(n, e, r) <==> v in e || OnNodeRoute(n, r, v)
    decreases n
  {
    if n.BranchN? {
      ArmRouteKeys(n.arms, ArmOf(r), e, Inside(r), v);
    }
  }

  lemma {:induction false} ArmRouteKeys(arms: NodeArms, arm: nat, e: Env, r: Route, v: string)
    ensures v in AlongArms(arms, arm, e, r) <==> v in e || OnArmRoute(arms, arm, r, v)
    decreases arms
  {
    match arms
    case CaseN(_, body, rest) =>
      if arm == 0 {
        RouteKeys(body, e, r, v);
      } else {
        ArmRouteKeys(rest, arm - 1, e, r, v);
      }
    case ElseN(body) => RouteKeys(body, e, r, v);
  }

  /** A route that assigns `v` if any does, or one that does not if some does not. */
  ghost function Search(b: Block, v: string, want: bool): Route
    decreases b
  {
    match b
    case BNil => Straight
    case BCons(n, rest) =>
      if n.BranchN? then var (arm, inside) := SearchArms(n.arms, v, want); Turn(arm, inside, Search(rest, v, want))
      else Search(rest, v, want)
  }

  ghost function SearchArms(arms: NodeArms, v: string, want: bool): (nat, Route)
    decreases arms
  {
    match arms
    case CaseN(_, body, rest) =>
      var r := Search(body, v, want);
      if OnRoute(body, r, v) == want then (0, r)
      else var (arm, inside) := SearchArms(rest, v, want); (arm + 1, inside)
    case ElseN(body) => (0, Search(body, v, want))
  }

  lemma {:induction false} SearchFinds(b: Block, v: string)
    ensures OnRoute(b, Search(b, v, true), v) <==> v in Targets(b)
    ensures OnRoute(b, Search(b, v, false), v) <==> v in Must(b)
    decreases b
  {
    if b.BCons? {
      if b.head.BranchN? {
        SearchFindsArm(b.head.arms, v);
      }
      SearchFinds(b.tail, v);
    }
  }

  lemma {:induction false} SearchFindsArm(arms: NodeArms, v: string)
    ensures var (arm, r) := SearchArms(arms, v, true); OnArmRoute(arms, arm, r, v) <==> v in ArmTargets(arms)
    ensures var (arm, r) := SearchArms(arms, v, false); OnArmRoute(arms, arm, r, v) <==> v in MustArms(arms)
    decreases arms
  {
    match arms
    case CaseN(_, body, rest) =>
      SearchFinds(body, v);
      SearchFindsArm(rest, v);
    case ElseN(body) => SearchFinds(body, v);
  }

  lemma {:induction false} RouteBounds(b: Block, r: Route, v: string)
    ensures v in Must(b) ==> OnRoute(b, r, v)
    ensures OnRoute(b, r, v) ==> v in Targets(b)
    decreases b
  {
    if b.BCons? {
      NodeRouteBounds(b.head, r, v);
      RouteBounds(b.tail, if b.head.BranchN? then Next(r) else r, v);
    }
  }

  lemma {:induction false} NodeRouteBounds(n: Node, r: Route, v: string)
    ensures v in MustNode(n) ==> OnNodeRoute(n, r, v)
    ensures OnNodeRoute(n, r, v) ==> v in NodeTargets(n)
    decreases n
  {
    if n.BranchN? {
      ArmRouteBounds(n.arms, ArmOf(r), Inside(r), v);
    }
  }

  lemma {:induction false} ArmRouteBounds(arms: NodeArms, arm: nat, r: Route, v: string)
    ensures v in MustArms(arms) ==> OnArmRoute(arms, arm, r, v)
    ensures OnArmRoute(arms, arm, r, v) ==> v in ArmTargets(arms)
    decreases arms
  {
    match arms
    case CaseN(_, body, rest) =>
      RouteBounds(body, r, v);
      if arm > 0 {
        ArmRouteBounds(rest, arm - 1, r, v);
      }
    case ElseN(body) => RouteBounds(body, r, v);
  }

  // ----- What is known at a place -----
  /**
   The static facts `p` and `d` at a place are exact for the environments that reach it: the producers are the origins,
   the listed names are those assigned on some path, and the definite ones those assigned on every path.
   */
  ghost predicate Here(p: Producers, d: set<string>, es: iset<Env>) {
    Exact(p, es) && Distinct(p) &&
    (forall v :: v in p <==> exists e :: e in es && v in e) &&
    forall v :: v in d <==> forall e :: e in es ==> v in e
  }

  /** Exactness is kept by a block: producers, possible names and definite names. */
  lemma HereAfter(p: Producers, d: set<string>, es: iset<Env>, b: Block)
    requires Here(p, d, es)
    ensures Here(After(p, b), d + Must(b), Reached(b, es))
  {
    ProducersExact(p, es, b);
    KeysAfter(p, b);
    forall v
      ensures v in After(p, b) <==> exists e :: e in Reached(b, es) && v in e
      ensures v in d + Must(b) <==> forall e :: e in Reached(b, es) ==> v in e
    {
      KeysReached(p, d, es, b, v);
    }
  }

  lemma HereAfterNode(p: Producers, d: set<string>, es: iset<Env>, n: Node)
    requires Here(p, d, es)
    ensures Here(AfterNode(p, n), d + MustNode(n), AfterAll(n, es))
  {
    hide Here, Reached, AfterAll;
    var one := BCons(n, BNil);
    HereAfter(p, d, es, one);
    ReachedOne(n, es);
    assert After(p, one) == AfterNode(p, n);
    assert d + Must(one) == d + MustNode(n);
  }

  lemma ReachedOne(n: Node, es: iset<Env>)
    ensures Reached(BCons(n, BNil), es) == AfterAll(n, es)
  {
    forall e, r
      ensures Along(BCons(n, BNil), e, r) == AlongNode(n, e, r)
    {
    }
  }

  lemma KeysReached(p: Producers, d: set<string>, es: iset<Env>, b: Block, v: string)
    requires Here(p, d, es) && After(p, b).Keys == p.Keys + Targets(b)
    ensures v in After(p, b) <==> exists e :: e in Reached(b, es) && v in e
    ensures v in d + Must(b) <==> forall e :: e in Reached(b, es) ==> v in e
  {
    var yes, no := Search(b, v, true), Search(b, v, false);
    SearchFinds(b, v);
    forall e, r | e in es
      ensures v in Along(b, e, r) <==> v in e || OnRoute(b, r, v)
      ensures v in Must(b) ==> OnRoute(b, r, v)
      ensures OnRoute(b, r, v) ==> v in Targets(b)
    {
      RouteKeys(b, e, r, v);
      RouteBounds(b, r, v);
    }
    var e0 :| e0 in es && (v in p ==> v in e0);
    assert Along(b, e0, yes) in Reached(b, es);
    var e1 :| e1 in es && (v !in d ==> v !in e1);
    assert Along(b, e1, no) in Reached(b, es);
  }

  lemma NothingHere()
    ensures Here(map[], {}, iset{map[]})
  {
    var e: Env := map[];
    assert e in iset{e};
  }

  // ----- The definite names of the analysis -----

  lemma {:induction false} AnalyzeDefinite(s: Scope, b: Block, tail: bool)
    requires Analyze(s, b, tail).Ok?
    ensures Analyze(s, b, tail).value.definite == s.definite + Must(b)
    decreases b
  {
    if b.BCons? {
      AnalyzeNodeDefinite(s, b.head, tail && b.tail.BNil?);
      AnalyzeDefinite(AnalyzeNode(s, b.head, tail && b.tail.BNil?).value, b.tail, tail);
    }
  }

  lemma {:induction false} AnalyzeNodeDefinite(s: Scope, n: Node, last: bool)
    requires AnalyzeNode(s, n, last).Ok?
    ensures AnalyzeNode(s, n, last).value.definite == s.definite + MustNode(n)
    decreases n
  {
    match n
    case CallN(_, call) =>
      RegisterKeeps(s, CallRefs(call));
      WarnRawKeeps(RegisterRefs(s, CallRefs(call)), CallValues(call));
    case BindN(_, _, v) =>
      RegisterKeeps(s, Refs(v));
      WarnRawKeeps(RegisterRefs(s, Refs(v)), [v]);
    case TermN(_, _, _, names) =>
      RegisterKeeps(s, names);
    case BranchN(_, arms) =>
      AnalyzeArmsDefinite(s, Snapshot(s), arms, last);
  }

  lemma {:induction false} AnalyzeArmsDefinite(s: Scope, start: Arm, arms: NodeArms, last: bool)
    requires AnalyzeArms(s, start, arms, last).Ok?
    ensures IntersectAll(ArmSets(AnalyzeArms(s, start, arms, last).value.1)) == start.definite + MustArms(arms)
    decreases arms
  {
    var sets := ArmSets(AnalyzeArms(s, start, arms, last).value.1);
    match arms
    case CaseN(cond, body, rest) =>
      RegisterCondKeeps(Restore(s, start), cond);
      var s1 := Analyze(RegisterCond(Restore(s, start), cond), body, last).value;
      AnalyzeDefinite(RegisterCond(Restore(s, start), cond), body, last);
      AnalyzeArmsDefinite(s1, start, rest, last);
      assert sets[1..] == ArmSets(AnalyzeArms(s1, start, rest, last).value.1);
    case ElseN(body) =>
      AnalyzeDefinite(Restore(s, start), body, last);
  }

  /**
   Both analyses are exact on compiled programs: over all paths, a call is listed as producer of a variable just when
   its value depends on it on some path, without repetition, and a variable is definite just when every path assigns it.
   */
  lemma AnalysesAreExact(p: Program, flow: Flow)
    requires Semantics(p) == Ok(flow)
    ensures var ends := Reached(Tree(p), iset{map[]});
            Here(flow.variables, Analyze(EmptyScope(p.parsed), Tree(p), true).value.definite, ends)
  {
    NothingHere();
    AnalyzeProducers(EmptyScope(p.parsed), Tree(p), true);
    AnalyzeDefinite(EmptyScope(p.parsed), Tree(p), true);
    HereAfter(map[], {}, iset{map[]}, Tree(p));
  }
}
