/**
 Ids are given out once: which numbers an elaboration gives out, and exactly when the texts made of them are distinct.
 */
module Identity {
  import opened Prelude
  import opened Text
  import opened Pseudocode
  import opened FlowSemantics
  import opened Elaboration
  import opened Scoping

  // ----- An id and the counter value that it was made from -----

  datatype Tag = CallTag(base: string, n: nat) | BranchTag(n: nat) | TermTag(n: nat) | BindTag(n: nat)

  function Render(t: Tag): Id {
    match t
    case CallTag(base, n) => CallName(base, n)
    case BranchTag(n) => Numbered("branch", n)
    case TermTag(n) => Numbered("terminal", n)
    case BindTag(n) => Numbered("binding", n)
  }

  predicate Given(c: Counters, t: Tag) {
    t.n >= 1 &&
    match t
    case CallTag(base, n) => n <= GetOr(c.calls, base, 0)
    case BranchTag(n) => n <= c.branches
    case TermTag(n) => n <= c.terminals
    case BindTag(n) => n <= c.bindings
  }

  function Base(t: Tag): string {
    match t
    case CallTag(base, _) => base
    case BranchTag(_) => "branch"
    case TermTag(_) => "terminal"
    case BindTag(_) => "binding"
  }

  /** The first call of a function gets the function's name; all other ids are numbered. */
  predicate Bare(t: Tag) {
    t.CallTag? && t.n == 1
  }

  lemma NumberedInjective(a: string, k: nat, b: string, m: nat)
    ensures Numbered(a, k) == Numbered(b, m) <==> a == b && k == m
  {
    if Numbered(a, k) == Numbered(b, m) {
      DecPlain(k);
      DecPlain(m);
      SplitLast(a, Dec(k), b, Dec(m));
      DecInjective(k, m);
    }
  }

  /** Two numbered ids are the same text just when base and number agree; a bare one may also be a numbered one. */
  lemma RenderEqual(t: Tag, u: Tag)
    ensures !Bare(t) && !Bare(u) ==> (Render(t) == Render(u) <==> Base(t) == Base(u) && t.n == u.n)
    ensures Bare(t) && !Bare(u) ==> (Render(t) == Render(u) <==> t.base == Numbered(Base(u), u.n))
    ensures Bare(t) && Bare(u) ==> (Render(t) == Render(u) <==> t == u)
  {
    NumberedInjective(Base(t), t.n, Base(u), u.n);
  }

  lemma KindsHaveBases(t: Tag, u: Tag)
    requires !t.CallTag? && !u.CallTag? && Base(t) == Base(u) && t.n == u.n
    ensures t == u
  {
    assert "branch"[0] == 'b' && "terminal"[0] == 't' && |"branch"| != |"binding"|;
  }

  /** A call of a group, or no call. */
  predicate Grouped(t: Tag) {
    t.CallTag? ==> EndsWith(t.base, "group")
  }

  lemma GroupEnds(s: string)
    requires EndsWith(s, "group")
    ensures s != "" && s[|s| - 1] == 'p'
  {
    assert s[|s| - 5..][4] == "group"[4];
  }

  lemma NumberedIsNoGroup(base: string, n: nat)
    ensures !EndsWith(Numbered(base, n), "group")
  {
    var s := Numbered(base, n);
    assert s[|s| - 1] == Dec(n)[|Dec(n)| - 1];
    if EndsWith(s, "group") {
      GroupEnds(s);
    }
  }

  lemma KindsAreNoGroups()
    ensures !EndsWith("branch", "group") && !EndsWith("terminal", "group") && !EndsWith("binding", "group") && !EndsWith(START, "group")
  {
    assert "branch"[5] == 'h' && "terminal"[7] == 'l' && START[4] == 't' && "binding"[2..][0] == 'n' && "group"[4] == 'p';
    assert "branch"[1..][4] == 'h' && "terminal"[3..][4] == 'l' && START[0..][4] == 't';
  }

  lemma RenderInjective(t: Tag, u: Tag)
    requires Grouped(t) && Grouped(u) && Render(t) == Render(u)
    ensures t == u
  {
    RenderEqual(t, u);
    RenderEqual(u, t);
    NumberedIsNoGroup(Base(t), t.n);
    NumberedIsNoGroup(Base(u), u.n);
    KindsAreNoGroups();
    if !t.CallTag? && !u.CallTag? {
      KindsHaveBases(t, u);
    }
  }

  lemma RenderIsNotStart(t: Tag)
    requires Grouped(t)
    ensures Render(t) != START && Render(t) != ""
  {
    KindsAreNoGroups();
    assert '_' in Numbered(Base(t), t.n) by {
      assert Numbered(Base(t), t.n)[|Base(t)|] == '_';
    }
    assert !Bare(t) ==> Render(t) != START;
  }

  // ----- The numbers that an elaboration gives out -----

  function Rendered(ts: seq<Tag>): (ids: seq<Id>)
    ensures |ids| == |ts|
  {
    seq(|ts|, i requires 0 <= i < |ts| => Render(ts[i]))
  }

  /** `ts` are the numbers given out between `c` and `d`, each once. */
  ghost predicate Numbers(c: Counters, d: Counters, ts: seq<Tag>) {
    NoDup(ts) && (forall t :: Given(c, t) ==> Given(d, t)) && forall t :: t in ts <==> Given(d, t) && !Given(c, t)
  }

  /** The objects of these ids got the numbers between `c` and `d`. */
  ghost predicate Numbering(c: Counters, d: Counters, ids: seq<Id>) {
    exists ts :: Numbers(c, d, ts) && ids == Rendered(ts)
  }

  lemma NoNumbers(c: Counters)
    ensures Numbering(c, c, [])
  {
    assert Numbers(c, c, []) && Rendered([]) == [];
  }

  lemma OneNumber(c: Counters, d: Counters, t: Tag)
    requires forall u :: Given(d, u) <==> Given(c, u) || u == t
    requires !Given(c, t)
    ensures Numbering(c, d, [Render(t)])
  {
    assert Numbers(c, d, [t]) && Rendered([t]) == [Render(t)];
  }

  lemma NumberingConcat(c: Counters, d: Counters, e: Counters, a: seq<Id>, b: seq<Id>)
    requires Numbering(c, d, a) && Numbering(d, e, b)
    ensures Numbering(c, e, a + b)
  {
    var ts :| Numbers(c, d, ts) && a == Rendered(ts);
    var us :| Numbers(d, e, us) && b == Rendered(us);
    NoDupConcat(ts, us);
    assert Numbers(c, e, ts + us);
    assert Rendered(ts + us) == Rendered(ts) + Rendered(us);
  }

  lemma NumberCall(c: Counters, func: string)
    ensures Numbering(c, CountCall(c, func), [CallId(c, func)])
  {
    OneNumber(c, CountCall(c, func), CallTag(Lower(func), GetOr(c.calls, Lower(func), 0) + 1));
  }

  lemma NumberTerm(c: Counters)
    ensures Numbering(c, CountTerm(c), [TermId(c)])
  {
    OneNumber(c, CountTerm(c), TermTag(c.terminals + 1));
  }

  /** Every object gets the next number of its kind: the ids of a block are those of all numbers given out for it, each once. */
  lemma {:induction false} ElabNumbers(c: Counters, p: Stmts, tail: bool, terminals: set<string>)
    ensures var (d, b) := Elab(c, p, tail, terminals); Numbering(c, d, AllIds(b))
    decreases p
  {
    hide Numbering;
    match p
    case SNil => NoNumbers(c);
    case SCons(stmt, rest) =>
      var piece := ElabStmt(c, stmt, tail && rest.SNil?, terminals);
      StmtNumbers(c, stmt, tail && rest.SNil?, terminals);
      if !piece.ends {
        var (d, b) := Elab(piece.next, rest, tail, terminals);
        AppendIds(piece.block, b);
        ElabNumbers(piece.next, rest, tail, terminals);
        NumberingConcat(c, piece.next, d, AllIds(piece.block), AllIds(b));
      }
  }

  lemma {:induction false} StmtNumbers(c: Counters, stmt: Stmt, last: bool, terminals: set<string>)
    ensures var piece := ElabStmt(c, stmt, last, terminals); Numbering(c, piece.next, AllIds(piece.block))
    decreases stmt
  {
    hide Numbering;
    var piece := ElabStmt(c, stmt, last, terminals);
    var n := piece.block.head;
    var first: Counters;
    match stmt {
      case CallStmt(call) =>
        if n.TermN? {
          first := CountTerm(c);
          NumberTerm(c);
        } else {
          first := CountCall(c, call.func);
          NumberCall(c, call.func);
        }
      case AssignStmt(t, v) =>
        first := c.(bindings := c.bindings + 1);
        OneNumber(c, first, BindTag(c.bindings + 1));
      case ReturnStmt(v) =>
        first := CountTerm(c);
        NumberTerm(c);
      case IfStmt(arms) =>
        var c1 := CountBranch(c);
        OneNumber(c, c1, BranchTag(c.branches + 1));
        ArmsNumbers(c1, arms, last, terminals);
        first := piece.next;
        NumberingConcat(c, c1, first, [n.id], ArmIds(n.arms));
    }
    assert NodeIds(n) + [] == NodeIds(n);
    assert Numbering(c, first, NodeIds(n)) by {
      assert !n.BranchN? ==> NodeIds(n) == [n.id];
    }
    if piece.block.tail.BCons? {
      NumberTerm(first);
      NumberingConcat(c, first, piece.next, NodeIds(n), [TermId(first)]);
      assert NodeIds(piece.block.tail.head) == [TermId(first)];
      assert AllIds(piece.block.tail) == [TermId(first)];
    }
  }

  lemma {:induction false} ArmsNumbers(c: Counters, arms: Arms, last: bool, terminals: set<string>)
    ensures var (d, nodes) := ElabArms(c, arms, last, terminals); Numbering(c, d, ArmIds(nodes))
    decreases arms
  {
    hide Numbering;
    match arms
    case Case(_, body, rest) =>
      var (c1, b) := Elab(c, body, last, terminals);
      var (c2, r) := ElabArms(c1, rest, last, terminals);
      ElabNumbers(c, body, last, terminals);
      ArmsNumbers(c1, rest, last, terminals);
      NumberingConcat(c, c1, c2, AllIds(b), ArmIds(r));
    case Else(body) =>
      ElabNumbers(c, body, last, terminals);
  }

  // ----- How many objects of each kind a block has -----

  /** The lower-cased names that calls are made under, with repetition, and the numbers of the other objects. */
  datatype Tally = Tally(calls: multiset<string>, branches: nat, terminals: nat, bindings: nat)

  function Plus(a: Tally, b: Tally): Tally {
    Tally(a.calls + b.calls, a.branches + b.branches, a.terminals + b.terminals, a.bindings + b.bindings)
  }

  const NONE := Tally(multiset{}, 0, 0, 0)

  lemma PlusAssoc(a: Tally, b: Tally, c: Tally)
    ensures Plus(Plus(a, b), c) == Plus(a, Plus(b, c))
  {
  }

  lemma PlusNone(a: Tally)
    ensures Plus(a, NONE) == a && Plus(NONE, a) == a
  {
  }

  lemma PlusCrosswise(a: Tally, b: Tally, c: Tally, d: Tally)
    ensures Plus(Plus(a, b), Plus(c, d)) == Plus(Plus(a, c), Plus(b, d))
  {
    assert (a.calls + b.calls) + (c.calls + d.calls) == (a.calls + c.calls) + (b.calls + d.calls);
  }

  function TallyStep(s: Step): Tally {
    if s.CallStep? then NONE.(calls := multiset{Lower(s.call.func)}) else NONE.(branches := 1)
  }

  function TallySteps(steps: seq<Step>): Tally {
    if steps == [] then NONE else Plus(TallyStep(steps[0]), TallySteps(steps[1..]))
  }

  function TallyOf(steps: seq<Step>, ts: seq<Terminal>, bs: seq<Binding>): Tally {
    Plus(TallySteps(steps), Tally(multiset{}, 0, |ts|, |bs|))
  }

  lemma {:induction false} TallyStepsConcat(a: seq<Step>, b: seq<Step>)
    ensures TallySteps(a + b) == Plus(TallySteps(a), TallySteps(b))
    decreases |a|
  {
    hide Plus, TallyStep;
    if a == [] {
      assert a + b == b;
      PlusNone(TallySteps(b));
    } else {
      assert (a + b)[1..] == a[1..] + b;
      TallyStepsConcat(a[1..], b);
      PlusAssoc(TallyStep(a[0]), TallySteps(a[1..]), TallySteps(b));
    }
  }

  lemma TallyConcat(a: seq<Step>, b: seq<Step>, t: seq<Terminal>, u: seq<Terminal>, x: seq<Binding>, y: seq<Binding>)
    ensures TallyOf(a + b, t + u, x + y) == Plus(TallyOf(a, t, x), TallyOf(b, u, y))
  {
    TallyStepsConcat(a, b);
    PlusCrosswise(TallySteps(a), TallySteps(b), Tally(multiset{}, 0, |t|, |x|), Tally(multiset{}, 0, |u|, |y|));
    assert Tally(multiset{}, 0, |t + u|, |x + y|) == Plus(Tally(multiset{}, 0, |t|, |x|), Tally(multiset{}, 0, |u|, |y|));
  }

  /** The same count, object by object. */
  function TallyBlock(b: Block): Tally
    decreases b
  {
    match b
    case BNil => NONE
    case BCons(n, rest) => Plus(TallyNode(n), TallyBlock(rest))
  }

  function TallyNode(n: Node): Tally
    decreases n
  {
    match n
    case CallN(_, call) => NONE.(calls := multiset{Lower(call.func)})
    case BindN(_, _, _) => NONE.(bindings := 1)
    case TermN(_, _, _, _) => NONE.(terminals := 1)
    case BranchN(_, arms) => Plus(NONE.(branches := 1), TallyArms(arms))
  }

  function TallyArms(arms: NodeArms): Tally
    decreases arms
  {
    match arms
    case CaseN(_, body, rest) => Plus(TallyBlock(body), TallyArms(rest))
    case ElseN(body) => TallyBlock(body)
  }

  lemma {:induction false} TalliesAgree(p: Producers, b: Block)
    ensures TallyOf(Steps(b), Terminals(b), Bindings(p, b)) == TallyBlock(b)
    decreases b
  {
    hide Plus, TallyOf;
    if b.BNil? {
      NothingTallied();
    } else {
      NodeTalliesAgree(p, b.head);
      TalliesAgree(AfterNode(p, b.head), b.tail);
      TallyConcat(NodeSteps(b.head), Steps(b.tail), NodeTerminals(b.head), Terminals(b.tail),
                  NodeBindings(p, b.head), Bindings(AfterNode(p, b.head), b.tail));
    }
  }

  lemma NothingTallied()
    ensures TallyOf([], [], []) == NONE
  {
    hide Plus;
    PlusNone(NONE);
  }

  lemma OneTallied(s: Step)
    ensures TallyOf([s], [], []) == TallyStep(s)
  {
    hide Plus, TallyStep;
    assert [s][1..] == [];
    assert TallySteps([s]) == Plus(TallyStep(s), NONE);
    PlusNone(TallyStep(s));
    assert Tally(multiset{}, 0, 0, 0) == NONE;
  }

  lemma LeafTallied(p: Producers, n: Node)
    requires !n.BranchN?
    ensures TallyOf(NodeSteps(n), NodeTerminals(n), NodeBindings(p, n)) == TallyNode(n)
  {
    hide Plus;
    if n.CallN? {
      OneTallied(CallStep(n.id, n.call));
    } else {
      PlusNone(TallyNode(n));
    }
  }


  lemma {:induction false} NodeTalliesAgree(p: Producers, n: Node)
    ensures TallyOf(NodeSteps(n), NodeTerminals(n), NodeBindings(p, n)) == TallyNode(n)
    decreases n
  {
    hide Plus, TallyOf;
    if n.BranchN? {
      ArmTalliesAgree(p, n.arms);
      var s := FlatBranch(n.id, n.arms);
      TallyConcat([s], ArmSteps(n.arms), [], ArmTerminals(n.arms), [], ArmBindings(p, n.arms));
      assert [] + ArmTerminals(n.arms) == ArmTerminals(n.arms) && [] + ArmBindings(p, n.arms) == ArmBindings(p, n.arms);
      OneTallied(s);
    } else {
      LeafTallied(p, n);
    }
  }

  lemma {:induction false} ArmTalliesAgree(p: Producers, arms: NodeArms)
    ensures TallyOf(ArmSteps(arms), ArmTerminals(arms), ArmBindings(p, arms)) == TallyArms(arms)
    decreases arms
  {
    hide Plus, TallyOf;
    match arms
    case CaseN(_, body, rest) =>
      TalliesAgree(p, body);
      ArmTalliesAgree(p, rest);
      TallyConcat(Steps(body), ArmSteps(rest), Terminals(body), ArmTerminals(rest), Bindings(p, body), ArmBindings(p, rest));
    case ElseN(body) => TalliesAgree(p, body);
  }

  lemma {:induction false} TallyAppend(a: Block, b: Block)
    ensures TallyBlock(Append(a, b)) == Plus(TallyBlock(a), TallyBlock(b))
    decreases a
  {
    hide Plus, TallyNode;
    if a.BNil? {
      PlusNone(TallyBlock(b));
    } else {
      TallyAppend(a.tail, b);
      PlusAssoc(TallyNode(a.head), TallyBlock(a.tail), TallyBlock(b));
    }
  }

  /** `d` counts what `c` does and the objects of the tally. */
  ghost predicate Counts(c: Counters, d: Counters, t: Tally) {
    (forall f :: GetOr(d.calls, f, 0) == GetOr(c.calls, f, 0) + t.calls[f]) && d.branches == c.branches + t.branches &&
    d.terminals == c.terminals + t.terminals && d.bindings == c.bindings + t.bindings
  }

  lemma CountsPlus(c: Counters, d: Counters, e: Counters, s: Tally, t: Tally)
    requires Counts(c, d, s) && Counts(d, e, t)
    ensures Counts(c, e, Plus(s, t))
  {
  }

  /** The counters count the objects of the tree; code that is dropped as unreachable is not counted. */
  lemma {:induction false} ElabCounts(c: Counters, p: Stmts, tail: bool, terminals: set<string>)
    ensures var (d, b) := Elab(c, p, tail, terminals); Counts(c, d, TallyBlock(b))
    decreases p
  {
    if p.SCons? {
      var piece := ElabStmt(c, p.head, tail && p.tail.SNil?, terminals);
      StmtCounts(c, p.head, tail && p.tail.SNil?, terminals);
      if !piece.ends {
        var (d, b) := Elab(piece.next, p.tail, tail, terminals);
        TallyAppend(piece.block, b);
        ElabCounts(piece.next, p.tail, tail, terminals);
        CountsPlus(c, piece.next, d, TallyBlock(piece.block), TallyBlock(b));
      }
    }
  }

  lemma CountsCall(c: Counters, func: string)
    ensures Counts(c, CountCall(c, func), NONE.(calls := multiset{Lower(func)}))
  {
  }

  lemma CountsTerm(c: Counters)
    ensures Counts(c, CountTerm(c), NONE.(terminals := 1))
    ensures Counts(c, c.(bindings := c.bindings + 1), NONE.(bindings := 1)) && Counts(c, CountBranch(c), NONE.(branches := 1))
  {
  }

  lemma {:induction false} StmtCounts(c: Counters, stmt: Stmt, last: bool, terminals: set<string>)
    ensures var piece := ElabStmt(c, stmt, last, terminals); Counts(c, piece.next, TallyBlock(piece.block))
    decreases stmt
  {
    hide Counts, Plus, CountCall, CountTerm, CountBranch, TallyBlock;
    var piece := ElabStmt(c, stmt, last, terminals);
    var n := piece.block.head;
    var first: Counters;
    CountsTerm(c);
    match stmt {
      case CallStmt(call) =>
        first := if n.TermN? then CountTerm(c) else CountCall(c, call.func);
        CountsCall(c, call.func);
      case AssignStmt(t, v) => first := c.(bindings := c.bindings + 1);
      case ReturnStmt(v) => first := CountTerm(c);
      case IfStmt(arms) =>
        first := piece.next;
        ArmsCount(CountBranch(c), arms, last, terminals);
        CountsPlus(c, CountBranch(c), first, NONE.(branches := 1), TallyArms(n.arms));
    }
    PieceCounts(c, first, piece.next, n, piece.block.tail);
  }

  /** One object, and its terminal when it ends the program. */
  lemma PieceCounts(c: Counters, first: Counters, next: Counters, n: Node, rest: Block)
    requires Counts(c, first, TallyNode(n))
    requires if rest.BNil? then next == first else rest.head.TermN? && rest.tail.BNil? && next == CountTerm(first)
    ensures Counts(c, next, TallyBlock(BCons(n, rest)))
  {
    hide Counts, Plus, CountTerm;
    PlusNone(TallyNode(n));
    if rest.BCons? {
      CountsTerm(first);
      PlusNone(TallyNode(rest.head));
      assert TallyBlock(rest) == NONE.(terminals := 1);
      CountsPlus(c, first, next, TallyNode(n), TallyBlock(rest));
    }
  }

  lemma {:induction false} ArmsCount(c: Counters, arms: Arms, last: bool, terminals: set<string>)
    ensures var (d, nodes) := ElabArms(c, arms, last, terminals); Counts(c, d, TallyArms(nodes))
    decreases arms
  {
    match arms
    case Case(_, body, rest) =>
      var (c1, b) := Elab(c, body, last, terminals);
      var (c2, r) := ElabArms(c1, rest, last, terminals);
      ElabCounts(c, body, last, terminals);
      ArmsCount(c1, rest, last, terminals);
      CountsPlus(c, c1, c2, TallyBlock(b), TallyArms(r));
    case Else(body) => ElabCounts(c, body, last, terminals);
  }

  // ----- Exactly when the ids are distinct -----

  /** No called name is an id of this kind, and no id of a repeated call is. */
  ghost predicate KindApart(calls: multiset<string>, base: string, count: nat) {
    forall k: nat :: 1 <= k <= count ==> Numbered(base, k) !in calls && (2 <= k ==> calls[base] < k)
  }

  /**
   On the called names alone, lower-cased: none is the start's id, none is the id of a repeated call, and neither they
   nor the ids of repeated calls are ids of branches, terminals or bindings.
   */
  ghost predicate NamesApart(t: Tally) {
    START !in t.calls &&
    (forall f, k: nat :: 2 <= k <= t.calls[f] ==> Numbered(f, k) !in t.calls) &&
    KindApart(t.calls, "branch", t.branches) && KindApart(t.calls, "terminal", t.terminals) && KindApart(t.calls, "binding", t.bindings)
  }

  ghost predicate IdsApart(ids: seq<Id>) {
    NoDup(ids) && START !in ids
  }

  lemma TagRendered(ts: seq<Tag>, t: Tag)
    requires t in ts
    ensures Render(t) in Rendered(ts)
  {
    var i :| 0 <= i < |ts| && ts[i] == t;
    assert Rendered(ts)[i] == Render(t);
  }

  lemma Twice(ts: seq<Tag>, t: Tag, u: Tag)
    requires t in ts && u in ts && t != u && Render(t) == Render(u)
    ensures !IdsApart(Rendered(ts))
  {
    var i :| 0 <= i < |ts| && ts[i] == t;
    var j :| 0 <= j < |ts| && ts[j] == u;
    var ids := Rendered(ts);
    assert ids[i] == ids[j];
  }

  /** The tags are those that the tally counts. */
  ghost predicate Tagged(ts: seq<Tag>, t: Tally) {
    NoDup(ts) &&
    (forall f, k: nat :: CallTag(f, k) in ts <==> 1 <= k <= t.calls[f]) &&
    (forall k: nat :: BranchTag(k) in ts <==> 1 <= k <= t.branches) &&
    (forall k: nat :: TermTag(k) in ts <==> 1 <= k <= t.terminals) &&
    forall k: nat :: BindTag(k) in ts <==> 1 <= k <= t.bindings
  }

  lemma KindIsApart(ts: seq<Tag>, t: Tally, kind: nat -> Tag, base: string, count: nat)
    requires Tagged(ts, t) && IdsApart(Rendered(ts))
    requires forall k: nat :: !kind(k).CallTag? && kind(k).n == k && Base(kind(k)) == base && (kind(k) in ts <==> 1 <= k <= count)
    ensures KindApart(t.calls, base, count)
  {
    forall k: nat | 1 <= k <= count
      ensures Numbered(base, k) !in t.calls
      ensures 2 <= k ==> t.calls[base] < k
    {
      var u := kind(k);
      assert u in ts;
      if Numbered(base, k) in t.calls {
        RenderEqual(CallTag(Numbered(base, k), 1), u);
        Twice(ts, CallTag(Numbered(base, k), 1), u);
      }
      if 2 <= k <= t.calls[base] {
        RenderEqual(CallTag(base, k), u);
        Twice(ts, CallTag(base, k), u);
      }
    }
  }

  lemma ApartNames(ts: seq<Tag>, t: Tally)
    requires Tagged(ts, t) && IdsApart(Rendered(ts))
    ensures NamesApart(t)
  {
    if START in t.calls {
      TagRendered(ts, CallTag(START, 1));
    }
    forall f, k: nat | 2 <= k <= t.calls[f]
      ensures Numbered(f, k) !in t.calls
    {
      if Numbered(f, k) in t.calls {
        RenderEqual(CallTag(Numbered(f, k), 1), CallTag(f, k));
        Twice(ts, CallTag(Numbered(f, k), 1), CallTag(f, k));
      }
    }
    KindIsApart(ts, t, (k: nat) => BranchTag(k), "branch", t.branches);
    KindIsApart(ts, t, (k: nat) => TermTag(k), "terminal", t.terminals);
    KindIsApart(ts, t, (k: nat) => BindTag(k), "binding", t.bindings);
  }

  lemma BareIsApart(ts: seq<Tag>, t: Tally, u: Tag, v: Tag)
    requires Tagged(ts, t) && NamesApart(t) && u in ts && v in ts && Bare(u) && !Bare(v)
    ensures Render(u) != Render(v)
  {
    RenderEqual(u, v);
    assert u == CallTag(u.base, 1) && u.base in t.calls;
    match v
    case CallTag(f, k) => assert 2 <= k <= t.calls[f];
    case BranchTag(k) =>
    case TermTag(k) =>
    case BindTag(k) =>
  }

  lemma CallIsApart(ts: seq<Tag>, t: Tally, u: Tag, v: Tag)
    requires Tagged(ts, t) && NamesApart(t) && u in ts && v in ts && u.CallTag? && !Bare(u) && !Bare(v) && !v.CallTag?
    ensures Render(u) != Render(v)
  {
    RenderEqual(u, v);
    assert u == CallTag(u.base, u.n);
    match v
    case BranchTag(k) =>
    case TermTag(k) =>
    case BindTag(k) =>
  }

  lemma TagsApart(ts: seq<Tag>, t: Tally, u: Tag, v: Tag)
    requires Tagged(ts, t) && NamesApart(t) && u in ts && v in ts && Render(u) == Render(v)
    ensures u == v
  {
    hide Tagged, NamesApart;
    RenderEqual(u, v);
    if Bare(u) && !Bare(v) {
      BareIsApart(ts, t, u, v);
    } else if Bare(v) && !Bare(u) {
      BareIsApart(ts, t, v, u);
    } else if !Bare(u) {
      if u.CallTag? && !v.CallTag? {
        CallIsApart(ts, t, u, v);
      } else if v.CallTag? && !u.CallTag? {
        CallIsApart(ts, t, v, u);
      } else if !u.CallTag? {
        KindsHaveBases(u, v);
      }
    }
  }

  lemma NamesMakeApart(ts: seq<Tag>, t: Tally)
    requires Tagged(ts, t) && NamesApart(t)
    ensures IdsApart(Rendered(ts))
  {
    var ids := Rendered(ts);
    forall i, j | 0 <= i < j < |ts|
      ensures ids[i] != ids[j]
    {
      assert ts[i] in ts && ts[j] in ts;
      if ids[i] == ids[j] {
        TagsApart(ts, t, ts[i], ts[j]);
      }
    }
    forall i | 0 <= i < |ts|
      ensures ids[i] != START
    {
      assert ts[i] in ts;
      if Bare(ts[i]) {
        assert ts[i] == CallTag(ts[i].base, 1);
      } else {
        NumberedIsNotStart(Base(ts[i]), ts[i].n);
      }
    }
  }

  lemma NumberedIsNotStart(base: string, n: nat)
    ensures Numbered(base, n) != START
  {
    assert Numbered(base, n)[|base|] == '_';
  }

  lemma NumbersAreTagged(d: Counters, ts: seq<Tag>, t: Tally)
    requires Numbers(ZERO, d, ts) && Counts(ZERO, d, t)
    ensures Tagged(ts, t)
  {
    forall f
      ensures GetOr(d.calls, f, 0) == t.calls[f]
    {
      assert GetOr(ZERO.calls, f, 0) == 0;
    }
  }

  /** The ids of a program are distinct, and none is the start's, exactly when the called names are apart. */
  lemma IdsApartExactly(p: Stmts, tail: bool, terminals: set<string>)
    ensures var b := Elab(ZERO, p, tail, terminals).1; IdsApart(AllIds(b)) <==> NamesApart(TallyBlock(b))
  {
    var (d, b) := Elab(ZERO, p, tail, terminals);
    ElabNumbers(ZERO, p, tail, terminals);
    ElabCounts(ZERO, p, tail, terminals);
    hide Rendered, IdsApart, NamesApart, NoDup, Numbers, Counts, Tagged, TallyBlock, AllIds, Elab;
    var ts :| Numbers(ZERO, d, ts) && AllIds(b) == Rendered(ts);
    NumbersAreTagged(d, ts, TallyBlock(b));
    if IdsApart(Rendered(ts)) {
      ApartNames(ts, TallyBlock(b));
    }
    if NamesApart(TallyBlock(b)) {
      NamesMakeApart(ts, TallyBlock(b));
    }
  }

  // ----- Programs that call groups only -----

  ghost predicate GroupCalls(b: Block) {
    forall s :: s in Steps(b) && s.CallStep? ==> EndsWith(s.call.func, "Group")
  }

  lemma {:induction false} CallsAreSteps(steps: seq<Step>, f: string)
    requires f in TallySteps(steps).calls
    ensures exists s :: s in steps && s.CallStep? && Lower(s.call.func) == f
    decreases |steps|
  {
    if steps[0].CallStep? && Lower(steps[0].call.func) == f {
      assert steps[0] in steps;
    } else {
      CallsAreSteps(steps[1..], f);
    }
  }

  lemma CallsAreGroups(b: Block, f: string)
    requires GroupCalls(b) && f in TallyBlock(b).calls
    ensures EndsWith(f, "group")
  {
    TalliesAgree(map[], b);
    CallsAreSteps(Steps(b), f);
    var s :| s in Steps(b) && s.CallStep? && Lower(s.call.func) == f;
    LowerKeepsGroup(s.call.func);
  }

  lemma GroupNamesAreApart(t: Tally)
    requires forall f :: f in t.calls ==> EndsWith(f, "group")
    ensures NamesApart(t)
  {
    KindsAreNoGroups();
    hide EndsWith, Numbered;
    assert forall base :: !EndsWith(base, "group") ==> t.calls[base] == 0;
    forall f, k: nat
      ensures Numbered(f, k) !in t.calls
    {
      NumberedIsNoGroup(f, k);
    }
  }

  lemma GroupsAreApart(b: Block)
    requires GroupCalls(b)
    ensures NamesApart(TallyBlock(b))
  {
    hide GroupCalls, TallyBlock, NamesApart, EndsWith;
    forall f | f in TallyBlock(b).calls
      ensures EndsWith(f, "group")
    {
      CallsAreGroups(b, f);
    }
    GroupNamesAreApart(TallyBlock(b));
  }

  /** The ids given out between `c` and `d` for groups: each made from a new number, and none repeated. */
  ghost predicate Fresh(c: Counters, d: Counters, ids: seq<Id>) {
    NoDup(ids) && forall id :: id in ids ==> IsNew(c, d, id)
  }

  ghost predicate IsNew(c: Counters, d: Counters, id: Id) {
    exists t :: Given(d, t) && !Given(c, t) && Grouped(t) && Render(t) == id
  }

  /** With groups only, the ids of a block are distinct, and were not given out before. */
  lemma ElabFresh(c: Counters, p: Stmts, tail: bool, terminals: set<string>)
    requires GroupCalls(Elab(c, p, tail, terminals).1)
    ensures var (d, b) := Elab(c, p, tail, terminals); Fresh(c, d, AllIds(b))
    ensures var (d, b) := Elab(c, p, tail, terminals); forall t :: Given(c, t) && Grouped(t) ==> Render(t) !in AllIds(b)
  {
    var (d, b) := Elab(c, p, tail, terminals);
    ElabNumbers(c, p, tail, terminals);
    ElabCounts(c, p, tail, terminals);
    hide Rendered, GroupCalls, TallyBlock, AllIds;
    var ts :| Numbers(c, d, ts) && AllIds(b) == Rendered(ts);
    forall t | t in ts
      ensures Grouped(t)
    {
      if t.CallTag? {
        assert t.base in TallyBlock(b).calls;
        CallsAreGroups(b, t.base);
      }
    }
    GroupsRender(c, d, ts);
  }

  lemma GroupsRender(c: Counters, d: Counters, ts: seq<Tag>)
    requires Numbers(c, d, ts) && forall t :: t in ts ==> Grouped(t)
    ensures Fresh(c, d, Rendered(ts)) && forall t :: Given(c, t) && Grouped(t) ==> Render(t) !in Rendered(ts)
  {
    hide Grouped, Given, Render;
    var ids := Rendered(ts);
    forall i | 0 <= i < |ts|
      ensures ts[i] in ts && IsNew(c, d, ids[i])
    {
      assert ts[i] in ts && Given(d, ts[i]) && Render(ts[i]) == ids[i];
    }
    GroupsDiffer(ts);
    forall t | Given(c, t) && Grouped(t)
      ensures Render(t) !in ids
    {
      OtherGroup(ts, t);
    }
  }

  lemma GroupsDiffer(ts: seq<Tag>)
    requires NoDup(ts) && forall t :: t in ts ==> Grouped(t)
    ensures NoDup(Rendered(ts))
  {
    hide Grouped, Render;
    var ids := Rendered(ts);
    forall i, j | 0 <= i < j < |ts|
      ensures ids[i] != ids[j]
    {
      assert ts[i] in ts && ts[j] in ts;
      if ids[i] == ids[j] {
        RenderInjective(ts[i], ts[j]);
      }
    }
  }

  lemma OtherGroup(ts: seq<Tag>, t: Tag)
    requires t !in ts && Grouped(t) && forall u :: u in ts ==> Grouped(u)
    ensures Render(t) !in Rendered(ts)
  {
    hide Grouped, Render;
    forall i | 0 <= i < |ts|
      ensures Render(t) != Rendered(ts)[i]
    {
      assert ts[i] in ts;
      if Render(t) == Rendered(ts)[i] {
        RenderInjective(t, ts[i]);
      }
    }
  }
}
