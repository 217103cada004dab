/**
 How the semantics builder numbers its objects: the tree of identified objects that it makes of a statement list,
 and the properties of the ids in it.
 */
module Elaboration {
  import opened Prelude
  import opened Text
  import opened Pseudocode
  import opened FlowSemantics

  /** How many ids of each kind have been given out: calls per lower-cased function name, and the three counters. */
  datatype Counters = Counters(calls: map<string, nat>, branches: nat, terminals: nat, bindings: nat)

  const ZERO := Counters(map[], 0, 0, 0)

  function Numbered(base: string, n: nat): Id {
    base + "_" + Dec(n)
  }

  function CallName(base: string, n: nat): Id {
    if n == 1 then base else Numbered(base, n)
  }

  function CallId(c: Counters, func: string): Id {
    CallName(Lower(func), GetOr(c.calls, Lower(func), 0) + 1)
  }

  function CountCall(c: Counters, func: string): Counters {
    c.(calls := c.calls[Lower(func) := GetOr(c.calls, Lower(func), 0) + 1])
  }

  function TermId(c: Counters): Id {
    Numbered("terminal", c.terminals + 1)
  }

  function BindId(c: Counters): Id {
    Numbered("binding", c.bindings + 1)
  }

  function BranchId(c: Counters): Id {
    Numbered("branch", c.branches + 1)
  }

  function CountBranch(c: Counters): Counters {
    c.(branches := c.branches + 1)
  }

  /** The terminal object that ends a block: `names` are the variables it reads. */
  function TermNode(c: Counters, output: Output, step: Option<Id>, names: seq<string>): Node {
    TermN(TermId(c), output, step, names)
  }

  function CountTerm(c: Counters): Counters {
    c.(terminals := c.terminals + 1)
  }

  /** The objects of one statement, and whether the rest of its list is unreachable and dropped. */
  datatype Piece = Piece(next: Counters, block: Block, ends: bool)

  function ElabStmt(c: Counters, s: Stmt, last: bool, terminals: set<string>): Piece
    decreases s
  {
    match s
    case CallStmt(call) =>
      if IsTerminalCall(call, terminals) then
        Piece(CountTerm(c), BCons(TermNode(c, Output(Reply, None, FirstValue(call)), None, CallRefs(call)), BNil), true)
      else
        var id := CallId(c, call.func);
        var c1 := CountCall(c, call.func);
        var node := CallN(id, call);
        if !last then Piece(c1, BCons(node, BNil), false)
        else
          (match call.target
           case Some(t) =>
             Piece(CountTerm(c1), BCons(node, BCons(TermNode(c1, Output(LastAssign, Some(t), Some(Var(t))), None, [t]), BNil)), false)
           case None =>
             Piece(CountTerm(c1), BCons(node, BCons(TermNode(c1, Output(LastCall, None, None), Some(id), []), BNil)), false))
    case AssignStmt(t, v) =>
      var c1 := c.(bindings := c.bindings + 1);
      var node := BindN(BindId(c), t, v);
      if !last then Piece(c1, BCons(node, BNil), false)
      else Piece(CountTerm(c1), BCons(node, BCons(TermNode(c1, Output(LastAssign, Some(t), Some(v)), None, Refs(v)), BNil)), false)
    case ReturnStmt(v) =>
      Piece(CountTerm(c), BCons(TermNode(c, Output(Return, None, v), None, OptRefs(v)), BNil), true)
    case IfStmt(arms) =>
      var (c1, nodes) := ElabArms(CountBranch(c), arms, last, terminals);
      Piece(c1, BCons(BranchN(BranchId(c), nodes), BNil), false)
  }

  function Elab(c: Counters, p: Stmts, tail: bool, terminals: set<string>): (Counters, Block)
    decreases p
  {
    match p
    case SNil => (c, BNil)
    case SCons(s, rest) =>
      var piece := ElabStmt(c, s, tail && rest.SNil?, terminals);
      if piece.ends then (piece.next, piece.block)
      else
        var (c1, b) := Elab(piece.next, rest, tail, terminals);
        (c1, Append(piece.block, b))
  }

  function ElabArms(c: Counters, arms: Arms, last: bool, terminals: set<string>): (Counters, NodeArms)
    decreases arms
  {
    match arms
    case Case(cond, body, rest) =>
      var (c1, b) := Elab(c, body, last, terminals);
      var (c2, r) := ElabArms(c1, rest, last, terminals);
      (c2, CaseN(cond, b, r))
    case Else(body) =>
      var (c1, b) := Elab(c, body, last, terminals);
      (c1, ElseN(b))
  }

  /** `reply` puts out its first positional argument, or without one its first keyword argument, or nothing, and ends its list. */
  lemma ReplyPutsOutFirst(c: Counters, call: CallInfo, last: bool, terminals: set<string>)
    requires call.target.None? && call.func in terminals
    ensures var value := if |call.args| > 0 then Some(call.args[0]) else if |call.kwargs| > 0 then Some(call.kwargs[0].value) else None;
            ElabStmt(c, CallStmt(call), last, terminals) ==
            Piece(CountTerm(c), BCons(TermN("terminal_" + Dec(c.terminals + 1), Output(Reply, None, value), None, CallRefs(call)), BNil), true)
  {
    assert |CallValues(call)| == |call.args| + |call.kwargs|;
    assert "terminal" + "_" == "terminal_";
  }

  // ----- The tree runs as the source does -----

  lemma {:induction false} RunAppend(a: Block, b: Block, s: RunState)
    ensures var r := RunBlock(a, s);
            RunBlock(Append(a, b), s) ==
              if r.stop.Some? then r
              else var q := RunBlock(b, r.after); TreeRun(r.path + q.path, r.trace + q.trace, q.after, q.stop)
  {
    if a.BCons? {
      var r := RunNode(a.head, s);
      if r.stop.None? {
        RunAppend(a.tail, b, r.after);
        var q := RunBlock(a.tail, r.after);
        if q.stop.None? {
          var w := RunBlock(b, q.after);
          assert r.path + (q.path + w.path) == (r.path + q.path) + w.path;
          assert r.trace + (q.trace + w.trace) == (r.trace + q.trace) + w.trace;
        }
      }
    } else {
      var q := RunBlock(b, s);
      assert [] + q.path == q.path && [] + q.trace == q.trace;
    }
  }

  lemma ForgetConcat(p: seq<Hop>, q: seq<Hop>, t: seq<Event>, u: seq<Event>)
    ensures ForgetHops(p + q) == ForgetHops(p) + ForgetHops(q)
    ensures ForgetEvents(t + u) == ForgetEvents(t) + ForgetEvents(u)
  {
  }

  lemma ForgetReads(consumer: Id, names: seq<string>, s: RunState)
    ensures ForgetEvents(ReadEvents(consumer, names, s)) == Reads(names)
  {
  }

  /** Every run of the source is the run of its tree under the same branch outcomes, ids forgotten. */
  lemma {:induction false} TreeRunsAsSource(c: Counters, p: Stmts, tail: bool, terminals: set<string>, s: RunState)
    ensures Forget(RunBlock(Elab(c, p, tail, terminals).1, s)) == ExecStmts(p, tail, terminals, s.picks)
    decreases p
  {
    match p
    case SNil =>
    case SCons(stmt, rest) =>
      var last := tail && rest.SNil?;
      var piece := ElabStmt(c, stmt, last, terminals);
      StmtRunsAsSource(c, stmt, last, terminals, s);
      var r := RunBlock(piece.block, s);
      if !piece.ends {
        var b := Elab(piece.next, rest, tail, terminals).1;
        RunAppend(piece.block, b, s);
        if r.stop.None? {
          TreeRunsAsSource(piece.next, rest, tail, terminals, r.after);
          var q := RunBlock(b, r.after);
          ForgetConcat(r.path, q.path, r.trace, q.trace);
        }
      }
  }

  lemma RunOne(n: Node, s: RunState)
    ensures RunBlock(BCons(n, BNil), s) == RunNode(n, s)
  {
    var r := RunNode(n, s);
    assert r.path + [] == r.path && r.trace + [] == r.trace;
  }

  /** A call or an assignment that ends the program is followed by its terminal. */
  lemma ForgetEnding(n: Node, t: Node, s: RunState)
    requires (n.CallN? || n.BindN?) && t.TermN?
    ensures var e := Forget(RunNode(n, s));
            Forget(RunBlock(BCons(n, BCons(t, BNil)), s)) == Exec(e.visits, e.acts + Reads(t.names), Some(t.output), e.picks)
  {
    var r := RunNode(n, s);
    RunOne(t, r.after);
    var q := RunNode(t, r.after);
    assert r.path + q.path == r.path;
    ForgetConcat(r.path, q.path, r.trace, q.trace);
    ForgetReads(t.id, t.names, r.after);
  }

  lemma ForgetCall(id: Id, call: CallInfo, s: RunState)
    ensures Forget(RunNode(CallN(id, call), s)) ==
            Exec([Called(call)],
                 Reads(CallRefs(call)) + [Invoke(call)] + (if call.target.Some? then [Write(call.target.value)] else []), None, s.picks)
  {
    ForgetReads(id, CallRefs(call), s);
    var seen := ReadEvents(id, CallRefs(call), s);
    ForgetConcat([], [], seen, [CallEv(id, call)]);
    if call.target.Some? {
      ForgetConcat([], [], seen + [CallEv(id, call)], [WriteEv(id, call.target.value)]);
    }
  }

  lemma ForgetBind(id: Id, t: string, v: Value, s: RunState)
    ensures Forget(RunNode(BindN(id, t, v), s)) == Exec([], Reads(Refs(v)) + [Write(t)], None, s.picks)
  {
    ForgetReads(id, Refs(v), s);
    ForgetConcat([], [], ReadEvents(id, Refs(v), s), [WriteEv(id, t)]);
  }

  lemma {:induction false} StmtRunsAsSource(c: Counters, stmt: Stmt, last: bool, terminals: set<string>, s: RunState)
    ensures var piece := ElabStmt(c, stmt, last, terminals);
            Forget(RunBlock(piece.block, s)) == ExecStmt(stmt, last, terminals, s.picks) &&
            (piece.ends ==> RunBlock(piece.block, s).stop.Some?)
    decreases stmt
  {
    var block := ElabStmt(c, stmt, last, terminals).block;
    var n := block.head;
    RunOne(n, s);
    match stmt
    case CallStmt(call) =>
      if n.TermN? {
        ForgetReads(n.id, n.names, s);
      } else {
        ForgetCall(n.id, call, s);
        if last {
          ForgetEnding(n, block.tail.head, s);
        }
      }
    case AssignStmt(t, v) =>
      ForgetBind(n.id, t, v, s);
      if last {
        ForgetEnding(n, block.tail.head, s);
      }
    case ReturnStmt(v) =>
      ForgetReads(n.id, n.names, s);
    case IfStmt(arms) =>
      ArmsRunAsSource(n.id, CountBranch(c), arms, 0, Head(s.picks), last, terminals, s.(picks := Tail(s.picks)));
  }

  lemma {:induction false} ArmsRunAsSource(
    id: Id, c: Counters, arms: Arms, i: nat, pick: nat, last: bool, terminals: set<string>, s: RunState)
    ensures Forget(RunArms(id, ElabArms(c, arms, last, terminals).1, i, pick, s)) ==
            ExecArms(arms, i, pick, last, terminals, s.picks)
    decreases arms
  {
    match arms
    case Case(cond, body, rest) =>
      var (c1, b) := Elab(c, body, last, terminals);
      var r: TreeRun;
      if pick == i {
        r := ForgetEntering(id, i, CaseId(i), b, s);
        TreeRunsAsSource(c, body, last, terminals, s.(at := Pos(id, CaseId(i))));
      } else {
        r := RunArms(id, ElabArms(c1, rest, last, terminals).1, i + 1, pick, s);
        ArmsRunAsSource(id, c1, rest, i + 1, pick, last, terminals, s);
      }
      ForgetReads(id, CondRefs(cond), s);
      ForgetConcat([], [], ReadEvents(id, CondRefs(cond), s), r.trace);
    case Else(body) =>
      var _ := ForgetEntering(id, i, FALSE, Elab(c, body, last, terminals).1, s);
      TreeRunsAsSource(c, body, last, terminals, s.(at := Pos(id, FALSE)));
  }

  lemma ForgetEntering(id: Id, i: nat, handle: string, b: Block, s: RunState) returns (r: TreeRun)
    ensures r == Entering(id, i, handle, RunBlock(b, s.(at := Pos(id, handle))))
    ensures Forget(r) == Choosing(i, Forget(RunBlock(b, s.(at := Pos(id, handle)))))
  {
    r := Entering(id, i, handle, RunBlock(b, s.(at := Pos(id, handle))));
    ForgetConcat([BranchHop(id, i, handle)], RunBlock(b, s.(at := Pos(id, handle))).path, [], []);
  }
}
