/** The semantics builder as a function: from the statement list to the contract's flat form. */
module Compile {
  import opened Prelude
  import opened Text
  import opened Pseudocode
  import opened FlowSemantics
  import opened Elaboration
  import opened Scoping

  const FILE_TYPE := "file"
  const DEFAULT_TYPE := "paragraph"

  predicate Contains(s: string, part: string) {
    |s| >= |part| && (s[..|part|] == part || (s != "" && Contains(s[1..], part)))
  }

  function GuessType(types: map<string, string>, name: string): string {
    if name in types then types[name]
    else if Contains(Lower(name), "file") then FILE_TYPE
    else DEFAULT_TYPE
  }

  function TypedInputs(types: map<string, string>, names: seq<string>): seq<Input> {
    seq(|names|, i requires 0 <= i < |names| => Input(names[i], GuessType(types, names[i])))
  }

  function TreeOf(p: Stmts, terminals: set<string>): Block {
    Elab(ZERO, p, true, terminals).1
  }

  function FlowOf(tree: Block, s: Scope, types: map<string, string>): Flow {
    Flow(BodyIds(tree), TypedInputs(types, s.inputs), Steps(tree), Bindings(map[], tree), Terminals(tree), s.producers,
         if Terminals(tree) == [] then s.warnings + [NoOutput] else s.warnings)
  }

  /** `parsed` holds the warnings of the text parser, which come first. */
  function Compiled(p: Stmts, parsed: seq<Warning>, terminals: set<string>, types: map<string, string>): Result<Flow, ScopeError> {
    if p.SNil? then Err(EmptyProgram)
    else
      var s :- Analyze(EmptyScope(parsed), TreeOf(p, terminals), true);
      Ok(FlowOf(TreeOf(p, terminals), s, types))
  }

  lemma {:induction false} ElabNonempty(c: Counters, p: Stmts, tail: bool, terminals: set<string>)
    ensures Elab(c, p, tail, terminals).1.BNil? <==> p.SNil?
  {
    if p.SCons? {
      var piece := ElabStmt(c, p.head, tail && p.tail.SNil?, terminals);
      assert piece.block.BCons?;
    }
  }

  lemma {:induction false} AnalyzeAppend(s: Scope, a: Block, b: Block, tail: bool)
    requires b.BCons?
    ensures Analyze(s, Append(a, b), tail) ==
            match Analyze(s, a, false)
            case Err(e) => Err(e)
            case Ok(t) => Analyze(t, b, tail)
    decreases a
  {
    if a.BCons? {
      assert Append(a.tail, b).BCons?;
      match AnalyzeNode(s, a.head, false)
      case Ok(t) => AnalyzeAppend(t, a.tail, b, tail);
      case Err(_) =>
    }
  }

  lemma {:induction false} AfterAppend(p: Producers, a: Block, b: Block)
    ensures After(p, Append(a, b)) == After(After(p, a), b)
    ensures Bindings(p, Append(a, b)) == Bindings(p, a) + Bindings(After(p, a), b)
    decreases a
  {
    if a.BCons? {
      AfterAppend(AfterNode(p, a.head), a.tail, b);
      var rest := Bindings(After(p, a), b);
      assert NodeBindings(p, a.head) + (Bindings(AfterNode(p, a.head), a.tail) + rest) ==
             (NodeBindings(p, a.head) + Bindings(AfterNode(p, a.head), a.tail)) + rest;
    }
  }
}
