/**
 Nested conditionals become a flat list of cases: an `elif` is an `if` that is alone in the else body of another `if`.
 The flattened form runs as the nested one does, whatever the tests and the other statements do.
 */
module ElifFlattening {
  import opened Pseudocode
  import opened Redundancy

  datatype Source = Leaf(stmt: Stmt) | If(test: Condition, body: Sources, orelse: Sources)

  datatype Sources = Nil | Cons(head: Source, tail: Sources)

  /** The statement forms without a body. */
  predicate LeavesPlain(p: Sources)
    decreases p
  {
    p.Cons? ==> LeafPlain(p.head) && LeavesPlain(p.tail)
  }

  predicate LeafPlain(s: Source)
    decreases s
  {
    match s
    case Leaf(stmt) => !stmt.IfStmt?
    case If(_, body, orelse) => LeavesPlain(body) && LeavesPlain(orelse)
  }

  predicate IsElif(orelse: Sources) {
    orelse.Cons? && orelse.head.If? && orelse.tail.Nil?
  }

  // ----- The flattened form -----

  function Flat(p: Sources): Stmts
    decreases p
  {
    match p
    case Nil => SNil
    case Cons(s, rest) => SCons(FlatStmt(s), Flat(rest))
  }

  function FlatStmt(s: Source): Stmt
    decreases s
  {
    match s
    case Leaf(stmt) => stmt
    case If(_, _, _) => IfStmt(FlatArms(s))
  }

  function FlatArms(s: Source): Arms
    requires s.If?
    decreases s, 0
  {
    Case(s.test, Flat(s.body), if IsElif(s.orelse) then FlatArms(s.orelse.head) else Else(Flat(s.orelse)))
  }

  function ArmsFrom(cases: seq<(Condition, Stmts)>, rest: Arms): Arms {
    if cases == [] then rest else Case(cases[0].0, cases[0].1, ArmsFrom(cases[1..], rest))
  }

  lemma {:induction false} ArmsFromSnoc(cases: seq<(Condition, Stmts)>, c: (Condition, Stmts), rest: Arms)
    ensures ArmsFrom(cases + [c], rest) == ArmsFrom(cases, Case(c.0, c.1, rest))
    decreases |cases|
  {
    if cases == [] {
      assert [] + [c] == [c] && [c][1..] == [];
    } else {
      assert (cases + [c])[1..] == cases[1..] + [c];
      ArmsFromSnoc(cases[1..], c, rest);
    }
  }

  method Convert(p: Sources) returns (r: Stmts)
    ensures r == Flat(p)
    decreases p
  {
    match p
    case Nil => r := SNil;
    case Cons(s, rest) =>
      var first := ConvertStmt(s);
      var others := Convert(rest);
      r := SCons(first, others);
  }

  /** The loop goes down the chain of `elif`s, collecting a case for each. */
  method ConvertStmt(s: Source) returns (r: Stmt)
    ensures r == FlatStmt(s)
    decreases s
  {
    if s.Leaf? {
      return s.stmt;
    }
    var cases: seq<(Condition, Stmts)> := [];
    var cur := s;
    var body := Convert(cur.body);
    ArmsFromSnoc([], (cur.test, body), if IsElif(cur.orelse) then FlatArms(cur.orelse.head) else Else(Flat(cur.orelse)));
    cases := [(cur.test, body)];
    while IsElif(cur.orelse)
      invariant cur.If? && (cur == s || cur < s)
      invariant ArmsFrom(cases, if IsElif(cur.orelse) then FlatArms(cur.orelse.head) else Else(Flat(cur.orelse))) == FlatArms(s)
      decreases cur
    {
      cur := cur.orelse.head;
      body := Convert(cur.body);
      ArmsFromSnoc(cases, (cur.test, body), if IsElif(cur.orelse) then FlatArms(cur.orelse.head) else Else(Flat(cur.orelse)));
      cases := cases + [(cur.test, body)];
    }
    var orelse := Convert(cur.orelse);
    r := IfStmt(ArmsFrom(cases, Else(orelse)));
  }

  // ----- Meaning -----

  /** What the other statements do (and whether they end the program), and what a test yields and does. */
  datatype World<!S> = World(step: (Stmt, S) -> (S, bool), test: (Condition, S) -> (bool, S))

  function RunSources<S>(w: World<S>, p: Sources, s: S): (S, bool)
    decreases p
  {
    match p
    case Nil => (s, false)
    case Cons(head, rest) =>
      var (s1, ended) := RunSource(w, head, s);
      if ended then (s1, true) else RunSources(w, rest, s1)
  }

  function RunSource<S>(w: World<S>, p: Source, s: S): (S, bool)
    decreases p
  {
    match p
    case Leaf(stmt) => w.step(stmt, s)
    case If(test, body, orelse) =>
      var (yes, s1) := w.test(test, s);
      if yes then RunSources(w, body, s1) else RunSources(w, orelse, s1)
  }

  function RunStmts<S>(w: World<S>, p: Stmts, s: S): (S, bool)
    decreases p
  {
    match p
    case SNil => (s, false)
    case SCons(head, rest) =>
      var (s1, ended) := RunStmt(w, head, s);
      if ended then (s1, true) else RunStmts(w, rest, s1)
  }

  function RunStmt<S>(w: World<S>, p: Stmt, s: S): (S, bool)
    decreases p
  {
    if p.IfStmt? then RunCases(w, p.arms, s) else w.step(p, s)
  }

  /** The first case whose test holds is run, or else the else body. */
  function RunCases<S>(w: World<S>, arms: Arms, s: S): (S, bool)
    decreases arms
  {
    match arms
    case Case(test, body, rest) =>
      var (yes, s1) := w.test(test, s);
      if yes then RunStmts(w, body, s1) else RunCases(w, rest, s1)
    case Else(body) => RunStmts(w, body, s)
  }

  lemma {:induction false} FlatRunsAsNested<S>(w: World<S>, p: Sources, s: S)
    requires LeavesPlain(p)
    ensures RunStmts(w, Flat(p), s) == RunSources(w, p, s)
    decreases p
  {
    if p.Cons? {
      FlatStmtRuns(w, p.head, s);
      FlatRunsAsNested(w, p.tail, RunSource(w, p.head, s).0);
    }
  }

  lemma {:induction false} FlatStmtRuns<S>(w: World<S>, p: Source, s: S)
    requires LeafPlain(p)
    ensures RunStmt(w, FlatStmt(p), s) == RunSource(w, p, s)
    decreases p, 1
  {
    if p.If? {
      FlatArmsRun(w, p, s);
    }
  }

  lemma {:induction false} FlatArmsRun<S>(w: World<S>, p: Source, s: S)
    requires p.If? && LeafPlain(p)
    ensures RunCases(w, FlatArms(p), s) == RunSource(w, p, s)
    decreases p, 0
  {
    var s1 := w.test(p.test, s).1;
    FlatRunsAsNested(w, p.body, s1);
    if IsElif(p.orelse) {
      FlatArmsRun(w, p.orelse.head, s1);
      var (s2, ended) := RunSource(w, p.orelse.head, s1);
      assert RunSources(w, p.orelse.tail, s2) == (s2, false);
    } else {
      FlatRunsAsNested(w, p.orelse, s1);
    }
  }

  // ----- Shape -----

  /** The body of an `if` is not empty. */
  predicate BodiesFilled(p: Sources)
    decreases p
  {
    p.Cons? ==> BodyFilled(p.head) && BodiesFilled(p.tail)
  }

  predicate BodyFilled(s: Source)
    decreases s
  {
    s.If? ==> s.body.Cons? && BodiesFilled(s.body) && BodiesFilled(s.orelse)
  }

  /** No branch has an else body that is a single branch. */
  predicate Flattened(p: Stmts)
    decreases p
  {
    p.SCons? ==> (p.head.IfStmt? ==> FlattenedArms(p.head.arms)) && Flattened(p.tail)
  }

  predicate FlattenedArms(arms: Arms)
    decreases arms
  {
    match arms
    case Case(_, body, rest) => Flattened(body) && FlattenedArms(rest)
    case Else(body) => Flattened(body) && !(body.SCons? && body.head.IfStmt? && body.tail.SNil?)
  }

  lemma {:induction false} FlatShape(p: Sources)
    requires LeavesPlain(p)
    ensures Flattened(Flat(p)) && (BodiesFilled(p) ==> Grammatical(Flat(p)))
    decreases p
  {
    if p.Cons? {
      if p.head.If? {
        FlatArmsShape(p.head);
      }
      FlatShape(p.tail);
    }
  }

  lemma {:induction false} FlatArmsShape(s: Source)
    requires s.If? && LeafPlain(s)
    ensures FlattenedArms(FlatArms(s)) && (BodyFilled(s) ==> GrammaticalArms(FlatArms(s)))
    decreases s
  {
    FlatShape(s.body);
    if IsElif(s.orelse) {
      FlatArmsShape(s.orelse.head);
      assert BodiesFilled(s.orelse) ==> BodyFilled(s.orelse.head);
    } else {
      FlatShape(s.orelse);
      AloneOnlyAsElif(s.orelse);
    }
  }

  lemma AloneOnlyAsElif(p: Sources)
    requires LeavesPlain(p) && !IsElif(p)
    ensures var body := Flat(p); !(body.SCons? && body.head.IfStmt? && body.tail.SNil?)
  {
    if p.Cons? && p.tail.Nil? {
      assert LeafPlain(p.head);
    }
  }
}
