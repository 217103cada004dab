/**
 The structured statement list that the parser hands to the semantics builder, and what a run of it does.

 A run is driven by `picks`, the outcomes of the branches in the order in which they are executed: pick `k` takes
 case `k` when there is one and the else body otherwise. Every list of picks is a possible run.
 */
module Pseudocode {
  import opened Prelude

  // ----- Values and conditions -----

  datatype Constant =
    | StrConst(text: string)
    | IntConst(text: string)
    | FloatConst(text: string)
    | BoolConst(b: bool)
    | NullConst

  datatype Part =
    | TextPart(text: string)
    | VarPart(name: string)
    | RawPart(names: seq<string>)

  datatype Value =
    | Var(name: string)
    | Const(constant: Constant)
    | Template(parts: seq<Part>)
    | Raw(names: seq<string>)

  datatype Kwarg = Kwarg(key: string, value: Value)

  datatype CmpOp = Eq | Ne | Lt | Le | Gt | Ge | In | NotIn | Is | IsNot | Truthy | Falsy

  datatype Comparison = Comparison(name: string, key: Option<string>, op: CmpOp, value: Option<Value>)

  datatype Logical = And | Or

  datatype Condition =
    | Parsed(logical: Logical, comparisons: seq<Comparison>)
    | Unparsed(names: seq<string>)

  // ----- Statements -----

  datatype CallInfo = CallInfo(func: string, target: Option<string>, args: seq<Value>, kwargs: seq<Kwarg>)

  datatype Stmt =
    | CallStmt(call: CallInfo)
    | AssignStmt(target: string, value: Value)
    | IfStmt(arms: Arms)
    | ReturnStmt(result: Option<Value>)

  datatype Stmts = SNil | SCons(head: Stmt, tail: Stmts)

  /** The cases of a branch in order, then its else body (empty when the source has no else). */
  datatype Arms =
    | Case(cond: Condition, body: Stmts, rest: Arms)
    | Else(orelse: Stmts)

  function CaseCount(arms: Arms): nat {
    match arms
    case Case(_, _, rest) => 1 + CaseCount(rest)
    case Else(_) => 0
  }

  // ----- Referenced names: sorted and without repetition -----

  predicate StrLess(a: string, b: string) {
    b != "" && (a == "" || a[0] < b[0] || (a[0] == b[0] && StrLess(a[1..], b[1..])))
  }

  function InsertName(name: string, s: seq<string>): (r: seq<string>)
    ensures forall x :: x in r <==> x == name || x in s
  {
    if s == [] || StrLess(name, s[0]) then [name] + s
    else if name == s[0] then s
    else
      var r := [s[0]] + InsertName(name, s[1..]);
      assert s == [s[0]] + s[1..];
      r
  }

  function SortedSet(names: seq<string>): (r: seq<string>)
    ensures forall x :: x in r <==> x in names
  {
    if names == [] then []
    else
      assert names == [names[0]] + names[1..];
      InsertName(names[0], SortedSet(names[1..]))
  }

  lemma {:induction false} StrLessApart(a: string, b: string)
    ensures !(StrLess(a, b) && StrLess(b, a)) && !StrLess(a, a) && (a == b || StrLess(a, b) || StrLess(b, a))
    decreases |a|
  {
    if a != "" {
      StrLessApart(a[1..], if b == "" then "" else b[1..]);
      assert a == [a[0]] + a[1..] && (b != "" ==> b == [b[0]] + b[1..]);
    }
  }

  lemma {:induction false} StrLessTransitive(a: string, b: string, c: string)
    requires StrLess(a, b) && StrLess(b, c)
    ensures StrLess(a, c)
    decreases |a|
  {
    if a != "" && a[0] == b[0] == c[0] {
      StrLessTransitive(a[1..], b[1..], c[1..]);
    }
  }

  predicate Ascending(s: seq<string>) {
    forall i, j :: 0 <= i < j < |s| ==> StrLess(s[i], s[j])
  }

  lemma {:induction false} InsertAscends(name: string, s: seq<string>)
    requires Ascending(s)
    ensures Ascending(InsertName(name, s))
    decreases |s|
  {
    if s != [] {
      var first, rest := s[0], s[1..];
      StrLessApart(name, first);
      if StrLess(name, first) {
        forall j | 0 <= j < |s|
          ensures StrLess(name, s[j])
        {
          if j > 0 {
            StrLessTransitive(name, first, s[j]);
          }
        }
      } else if name != first {
        InsertAscends(name, rest);
        var r := InsertName(name, rest);
        forall x | x in r
          ensures StrLess(first, x)
        {
          if x != name {
            var j :| 0 <= j < |rest| && rest[j] == x;
            assert s[j + 1] == x;
          }
        }
        assert forall i :: 0 <= i < |r| ==> r[i] in r;
      }
    }
  }

  /** The names in a template or a condition stand in alphabetical order, each once. */
  lemma {:induction false} SortedAscends(names: seq<string>)
    ensures Ascending(SortedSet(names))
    decreases |names|
  {
    if names != [] {
      SortedAscends(names[1..]);
      InsertAscends(names[0], SortedSet(names[1..]));
    }
  }

  function PartNames(parts: seq<Part>): seq<string> {
    if parts == [] then [] else
    (match parts[0]
     case TextPart(_) => []
     case VarPart(name) => [name]
     case RawPart(names) => names) + PartNames(parts[1..])
  }

  function Refs(v: Value): seq<string> {
    match v
    case Var(name) => [name]
    case Const(_) => []
    case Template(parts) => SortedSet(PartNames(parts))
    case Raw(names) => names
  }

  function OptRefs(v: Option<Value>): seq<string> {
    if v.Some? then Refs(v.value) else []
  }

  function ValueRefs(values: seq<Value>): seq<string> {
    if values == [] then [] else Refs(values[0]) + ValueRefs(values[1..])
  }

  function KwValues(kwargs: seq<Kwarg>): seq<Value> {
    seq(|kwargs|, i requires 0 <= i < |kwargs| => kwargs[i].value)
  }

  /** Positional arguments, then keyword arguments. */
  function CallValues(call: CallInfo): seq<Value> {
    call.args + KwValues(call.kwargs)
  }

  function CallRefs(call: CallInfo): seq<string> {
    ValueRefs(CallValues(call))
  }

  function ComparisonRefs(cs: seq<Comparison>): seq<string> {
    if cs == [] then [] else [cs[0].name] + OptRefs(cs[0].value) + ComparisonRefs(cs[1..])
  }

  function CondRefs(c: Condition): seq<string> {
    match c
    case Parsed(_, cs) => SortedSet(ComparisonRefs(cs))
    case Unparsed(names) => names
  }

  // ----- Runs -----

  datatype Via = LastAssign | Return | Reply | LastCall

  /** What the program as a whole yields: how the end was reached and which value goes out under which name. */
  datatype Output = Output(via: Via, name: Option<string>, value: Option<Value>)

  datatype Visit = Called(call: CallInfo) | Chose(arm: nat)

  datatype Act = Read(name: string) | Write(name: string) | Invoke(call: CallInfo)

  datatype Exec = Exec(visits: seq<Visit>, acts: seq<Act>, output: Option<Output>, picks: seq<nat>)

  function Head(picks: seq<nat>): nat {
    if picks == [] then 0 else picks[0]
  }

  function Tail(picks: seq<nat>): seq<nat> {
    if picks == [] then [] else picks[1..]
  }

  function Reads(names: seq<string>): (acts: seq<Act>)
    ensures |acts| == |names|
  {
    seq(|names|, i requires 0 <= i < |names| => Read(names[i]))
  }

  /** The last statement of the program decides its output; `tail` says whether the end of this list is the end. */
  function ExecStmts(p: Stmts, tail: bool, terminals: set<string>, picks: seq<nat>): Exec {
    match p
    case SNil => Exec([], [], None, picks)
    case SCons(s, rest) =>
      var e := ExecStmt(s, tail && rest.SNil?, terminals, picks);
      if e.output.Some? then e
      else
        var f := ExecStmts(rest, tail, terminals, e.picks);
        Exec(e.visits + f.visits, e.acts + f.acts, f.output, f.picks)
  }

  function ExecStmt(s: Stmt, last: bool, terminals: set<string>, picks: seq<nat>): Exec {
    match s
    case CallStmt(call) =>
      if IsTerminalCall(call, terminals) then
        Exec([], Reads(CallRefs(call)), Some(Output(Reply, None, FirstValue(call))), picks)
      else
        var acts := Reads(CallRefs(call)) + [Invoke(call)];
        (match call.target
         case Some(t) =>
           if last then
             Exec([Called(call)], acts + [Write(t)] + [Read(t)], Some(Output(LastAssign, Some(t), Some(Var(t)))), picks)
           else
             Exec([Called(call)], acts + [Write(t)], None, picks)
         case None =>
           Exec([Called(call)], acts, if last then Some(Output(LastCall, None, None)) else None, picks))
    case AssignStmt(t, v) =>
      var acts := Reads(Refs(v)) + [Write(t)];
      if last then Exec([], acts + Reads(Refs(v)), Some(Output(LastAssign, Some(t), Some(v))), picks)
      else Exec([], acts, None, picks)
    case ReturnStmt(v) =>
      Exec([], Reads(OptRefs(v)), Some(Output(Return, None, v)), picks)
    case IfStmt(arms) =>
      ExecArms(arms, 0, Head(picks), last, terminals, Tail(picks))
  }

  function ExecArms(arms: Arms, i: nat, pick: nat, last: bool, terminals: set<string>, picks: seq<nat>): Exec {
    match arms
    case Case(cond, body, rest) =>
      var e := if pick == i then Choosing(i, ExecStmts(body, last, terminals, picks))
               else ExecArms(rest, i + 1, pick, last, terminals, picks);
      e.(acts := Reads(CondRefs(cond)) + e.acts)
    case Else(body) =>
      Choosing(i, ExecStmts(body, last, terminals, picks))
  }

  function Choosing(i: nat, e: Exec): Exec {
    e.(visits := [Chose(i)] + e.visits)
  }

  /** `reply(...)` as a statement of its own; `x = reply(...)` is an ordinary call. */
  predicate IsTerminalCall(call: CallInfo, terminals: set<string>) {
    call.target.None? && call.func in terminals
  }

  function FirstValue(call: CallInfo): Option<Value> {
    var values := CallValues(call);
    if values == [] then None else Some(values[0])
  }

  function Run(p: Stmts, terminals: set<string>, picks: seq<nat>): Exec {
    ExecStmts(p, true, terminals, picks)
  }
}
