# Workflow compiler, load balancer, migration lock and env sync: a Dafny model

The project models four pieces of the repository and proves what they are for.

**The workflow compiler (`Dify_workflow`).** A small structured language (assignments, group calls, `if`/`elif`/`else`,
`return`, `reply`) is compiled in two stages. The first stage (`SemanticsBuilder`) numbers steps, bindings and terminals,
checks definite assignment, and computes for each variable the calls that may have produced it. The second stage
(`FlowGraphBuilder`) turns that into a graph of a start node, call nodes, if-else nodes and end nodes, joined by edges
that leave a node by a handle. A source map decodes the node ids again.

- The source has a run semantics driven by the outcomes of its branches (`Pseudocode`), the tree of identified objects
  has the same semantics with ids and an environment that says which calls each value depends on (`FlowSemantics`), and
  the graph has walks (`WorkflowGraph`). The three are proved equal, for all programs that both stages accept and all
  branch outcomes.
- Both stages are also written as the source runs them, as classes whose methods update fields
  (`SemanticsBuilding.SemanticsBuilder`, `FlowGraphBuilding.FlowGraphBuilder`), proved against the functions that the
  theorems are about.
- `Admission.AcceptedExactly` says which programs both stages accept. Prompts say what the calls say (`Prompts`), and
  branches test what the conditions say (`Conditions`).
- The graph builder resolves a variable with the producers that are left at the *end* of the program.
  `UseSites.FinalMapIsRightExactly` says exactly when that is right on all runs; under that condition every selector of
  the graph is the origin of the variable at its place (`Provenance`). `Pitfalls` has programs outside it.

**Round-robin load balancing** (`RoundRobin`), **the migration lock** (`MigrationLock`) and **the env-file sync**
(`EnvSync`) are one module each. Where a promised property does not hold in general, the module has the exact condition
as an if-and-only-if and a concrete input outside it.

File by file: `Prelude` and `Text` (shared facts, ids as text); `Pseudocode`, `ElifFlattening` (source language);
`FlowSemantics`, `Elaboration`, `Identity`, `Partition` (objects and ids); `Scoping`, `DefiniteAssignment`,
`ReachingProducers`, `OriginTracking`, `PathExactness` (the two analyses); `RunFacts`, `UseSites` (what runs have in
common, and the final map); `Compile`, `SemanticsBuilder`, `Contents`, `Warnings`, `FirstStage` (first stage);
`WorkflowGraph`, `Lowering`, `Refinement`, `Layout`, `GraphSpec`, `FlowGraphBuilder` (second stage); `ControlFlow`,
`Correctness`, `Shape`, `Endings`, `Redundancy`, `Dataflow`, `Prompts`, `Provenance`,
`StructuredOutputs`, `Conditions`, `Admission`, `Pitfalls` (theorems about both);
`SourceMap`, `Decoding` (the source map); `RoundRobin`, `MigrationLock`, `EnvSync`.

A word on two notions. A *run* takes the arms that the branch outcomes say and stops at the first terminal. A *static
path* also chooses an arm at each branch but goes on after an arm that has ended the program; this is what the producer
analysis joins over, so its exactness is stated for static paths, and for runs it is an over-approximation.

## Model

| member | source | states |
|---|---|---|
| Correctness.ControlFlowPreserved | Dify_workflow/T2_workflowgraph/workflow_graph_builder.py:397-471 | For every program both stages accept and every list of branch outcomes the graph has a walk from the start node that makes the calls and takes the arms of the source run, in order, and ends at an end node made from the very terminal object at which the run stops, with the output of the source run |
| Shape.EveryWalkIsTheRun | Dify_workflow/T2_workflowgraph/workflow_graph_builder.py:397-471 | Conversely every complete walk of the graph under these outcomes visits what the source run visits and ends at the end node made from the terminal at which the run stops |
| Shape.OneEdgePerHandle | Dify_workflow/T2_workflowgraph/workflow_graph_builder.py:397-436 | The edges of an accepted graph leave exactly the handles of its nodes, each once: one for the start and for a call, one per case and one for "false" for a branch, none for an end node |
| Shape.WalkContinues | Dify_workflow/T2_workflowgraph/workflow_graph_builder.py:602-632 | Wherever a walk from the start stands, an edge leads on, so only an end node stops it |
| Shape.WalksAreShort | Dify_workflow/T2_workflowgraph/workflow_graph_builder.py:640-662 | No walk visits a node twice, so every walk is shorter than the node list |
| Admission.AcceptedExactly | Dify_workflow/T2_workflowgraph/workflow_graph_builder.py:104-133 | A program is accepted by both stages if and only if the first stage compiles it without a fatal warning, and: calls are of groups, with parsed arguments and variables that at most one call produces; conditions are parsed and compare such variables, or fields of one call, with constants, by order for numbers only and each field with constants of one kind; each edge into a terminal can put something out; and no two nodes get the same id |
| Redundancy.ChecksAreRedundant | Dify_workflow/T2_workflowgraph/workflow_graph_builder.py:117-128 | When the first stage gives no fatal warning and the walk over the bodies succeeds, "no terminal", "steps not referenced", "directed cycle", "one start" and "some end" cannot fail |
| Redundancy.TreeCloses | Dify_workflow/T1_parser/pseudocode_parser.py:465-468 | Without the "no else at the tail" warning every path of the program ends in a terminal |
| Redundancy.TailWarningExactly | Dify_workflow/T1_parser/pseudocode_parser.py:465-468 | Conversely "no else at the tail" is given exactly when some static path through the program ends without a terminal |
| Warnings.WarningsExactly | Dify_workflow/T1_parser/pseudocode_parser.py:381-412 | "Cannot be structured" is given if and only if the text parser gave it, or the value of some plain assignment or an argument of some call step could not be parsed; "no else" if and only if the last object, or that of an arm at the end, is a branch without else; "no output" if and only if there is no terminal |
| Warnings.AcceptedIsStructured | Dify_workflow/T2_workflowgraph/workflow_graph_builder.py:157-168 | So no accepted graph comes from a flow with such a value, without a terminal, or with an open end |
| Redundancy.LoweredIsAcyclic | Dify_workflow/T2_workflowgraph/workflow_graph_builder.py:397-436 | Lowering a compiled program makes no directed cycle, whatever is pending at its end |
| Elaboration.TreeRunsAsSource | Dify_workflow/T1_parser/pseudocode_parser.py:315-378 | The objects that the first stage makes run as the statements do: same calls, arms, reads, writes and output under the same outcomes; code after `return` and `reply` is dropped without effect |
| Elaboration.ReplyPutsOutFirst | Dify_workflow/T1_parser/pseudocode_parser.py:325-338 | `reply` puts out its first positional argument, or else its first keyword argument, or nothing, and ends its list |
| Contents.NothingIsLost | Dify_workflow/T1_parser/pseudocode_parser.py:315-378 | Steps, bindings and terminals of a compiled program are its calls and branches with their conditions, its plain assignments, and its outputs, each kind in the order of the text, without what follows a `return` or `reply` in its list |
| Contents.SourcesExactly | Dify_workflow/T1_parser/pseudocode_parser.py:414-424 | The sources of each binding are, for each name in its value, exactly the calls it depends on over the static paths to the binding |
| Identity.RenderInjective | Dify_workflow/T1_parser/pseudocode_parser.py:559-563 | Two ids of group calls, branches, terminals or bindings are the same text only if kind, name and number agree |
| Identity.ElabNumbers | Dify_workflow/T1_parser/pseudocode_parser.py:315-378 | For any program, groups or not: the objects of a block get exactly the numbers that are given out for it, each once, and their ids are the texts of these |
| Identity.ElabFresh | Dify_workflow/T1_parser/pseudocode_parser.py:315-378 | With groups only, all ids given out in a block are distinct, made from new numbers, and not the text of a number given out before |
| Correctness.IdsAreDistinctExactly | Dify_workflow/T1_parser/pseudocode_parser.py:559-563 | For any program the first stage compiles: all ids are distinct and differ from "start" if and only if, among the lower-cased called names, none is "start", none is the id of a repeated call, and neither they nor the ids of repeated calls are ids of branches, terminals or bindings |
| Correctness.IdsArePartitioned | Dify_workflow/T1_parser/pseudocode_parser.py:435-463 | With groups only, all ids are distinct and differ from "start", and each occurs exactly once in the root body and the case and else bodies together |
| Partition.KindsPartition | Dify_workflow/T1_parser/pseudocode_parser.py:391-440 | Steps, terminals and bindings together are the objects of the program, each once |
| Partition.BodiesPartition | Dify_workflow/T1_parser/pseudocode_parser.py:447-463 | Root body and branch bodies together hold every object once |
| Pitfalls.IdsCanCollide | Dify_workflow/T1_parser/pseudocode_parser.py:559-563 | Outside that condition: `Work`, `Work`, `Work_2` compiles without a warning and gives one id to two calls |
| DefiniteAssignment.BlockSound | Dify_workflow/T1_parser/pseudocode_parser.py:435-479 | As long as no "possibly undefined" warning is given, each name a run reads is in its environment or an input, and definite names are assigned whenever the run falls through |
| DefiniteAssignment.AnalyzeOk | Dify_workflow/T1_parser/pseudocode_parser.py:514-533 | At all times no input has ever been assigned, and inputs, assigned names and warnings only grow |
| DefiniteAssignment.RunTracked | Dify_workflow/T1_parser/pseudocode_parser.py:398-433 | The environment of a run holds only names written and calls made earlier on that run |
| Dataflow.SourceReadsDefined | Dify_workflow/T1_parser/pseudocode_parser.py:514-533 | Without that warning every name read on any source run was written earlier on it or is an input, and no run writes an input |
| FirstStage.NamesExactly | Dify_workflow/T1_parser/pseudocode_parser.py:514-533 | A program is rejected, with the error of its first fault, exactly when an assignment is to a name that every static path to it has assigned, or that has been read and, in the order of the text, not been assigned; otherwise the inputs are the names that the text reads before it mentions them otherwise, in that order, and "possibly undefined" is given for a name exactly when some static path to a read of it has not assigned it although the text before has |
| FirstStage.InputTypesExactly | Dify_workflow/T1_parser/pseudocode_parser.py:565-568 | An input has the type given for it, or else is a file when its lower-cased name has "file" in it, or else a paragraph |
| Pseudocode.SortedAscends | Dify_workflow/T1_parser/pseudocode_parser.py:45-63 | Names in templates and conditions are in alphabetical order, each once |
| ReachingProducers.ProducersExact | Dify_workflow/T1_parser/pseudocode_parser.py:442-478 | From any place where it is exact, the analysis stays exact through a block: it lists a call for a variable just when the value depends on it on some static path, without repetition |
| ReachingProducers.BlockWitness | Dify_workflow/T1_parser/pseudocode_parser.py:442-478 | For each listed producer there is a static path on which it is an origin |
| ReachingProducers.RunBelow | Dify_workflow/T1_parser/pseudocode_parser.py:398-433 | A real run depends on no call that is not listed |
| PathExactness.AnalysesAreExact | Dify_workflow/T1_parser/pseudocode_parser.py:470-478 | Over all static paths of a compiled program: producers are exactly the origins, without repetition, listed names exactly those assigned on some path, definite names exactly those assigned on every path |
| PathExactness.HereAfter | Dify_workflow/T1_parser/pseudocode_parser.py:442-478 | From any place where producers, possible names and definite names are exact, they stay exact through any block |
| RunFacts.PlaceIsExact | Dify_workflow/T2_workflowgraph/workflow_graph_builder.py:545-553 | A forward analysis finds exactly, for the runs that get to a place (arms that have ended do not), by the step executed last: the calls each variable may depend on, and the sets of names of which some depends on a call on every such run; constants, templates and copies of inputs included |
| UseSites.FinalMapIsRightExactly | Dify_workflow/T2_workflowgraph/workflow_graph_builder.py:438-500 | For every compiled program with distinct ids: the final map resolves every call argument, every compared variable and every output that the graph builder does not refuse (for listing several calls) rightly on all runs if and only if at each of them it fits these facts: it lists one call, which the variable may depend on and nothing else, and on every run there it depends on a call; or it lists none, and no run there assigns the variable; where several calls meet at a terminal this is asked for each step it is entered from |
| UseSites.FitsExactly | Dify_workflow/T2_workflowgraph/workflow_graph_builder.py:545-553 | The same for one name at one place |
| UseSites.ResolvableIsRight | Dify_workflow/T2_workflowgraph/workflow_graph_builder.py:545-553 | Without warnings, assigning each name once on each path and copying only produced variables is enough for that condition |
| Pitfalls.ReassignedNameIsMisresolved | Dify_workflow/T2_workflowgraph/workflow_graph_builder.py:190-195 | Outside the condition: a program without warnings in which an arm reads `x` from "agroup" but the final map resolves `x` to "cgroup", called later |
| Pitfalls.ConstantIsMisresolved | Dify_workflow/T2_workflowgraph/workflow_graph_builder.py:545-549 | Outside the condition: a copy of a constant is resolved to an input that does not exist |
| Pitfalls.MixedIsMisresolved | Dify_workflow/T2_workflowgraph/workflow_graph_builder.py:545-553 | Outside the condition: with a constant in one arm and a call in the other, the variable is resolved to that call also on the run that has not made it |
| OriginTracking.BlockOrigins | Dify_workflow/T1_parser/pseudocode_parser.py:381-479 | With each name assigned once on each path and plain assignments copying produced variables, every name a run reads has exactly one origin, the final map lists it, and a listed last step is that origin |
| Dataflow.RunsHaveOrigins | Dify_workflow/T1_parser/pseudocode_parser.py:381-479 | The same for the whole program and its final producer map |
| Dataflow.PromptRefers | Dify_workflow/T2_workflowgraph/workflow_graph_builder.py:502-543 | Reference number j in a prompt is the output of variable number j in the call's arguments, positional ones first, and there are no others; left-out blank arguments and the single `task` argument included |
| Prompts.PromptsSayWhatCallsSay | Dify_workflow/T2_workflowgraph/workflow_graph_builder.py:502-543 | In an accepted graph, for any texts of variables and selectors that agree place by place, the text of a prompt is the text of the call: template texts and variables in order, constants, one line per positional argument that writes anything, then `key: value` lines, or a lone `task` alone |
| Conditions.BranchesTestWhatConditionsSay | Dify_workflow/T2_workflowgraph/workflow_graph_builder.py:326-395 | In an accepted graph, for any values of the declared types at the selectors that agree place by place with those of variables and fields, each case of a branch holds if and only if the source condition does, and the node is left by the handle of the first case that holds in the source |
| Conditions.OperatorTests | Dify_workflow/T2_workflowgraph/workflow_graph_builder.py:706-727 | The generated operator, by its text, tests on values of the declared type what the source operator says |
| Conditions.ConditionTypes | Dify_workflow/T2_workflowgraph/workflow_graph_builder.py:729-756 | A condition declares the type of the constant its field is compared with, the declared type of an input, or object for the whole output of a call that declares a field, and text otherwise |
| Conditions.ConditionIds | Dify_workflow/T2_workflowgraph/workflow_graph_builder.py:372-392 | The id of a condition is made of branch, case and position, from which these can be read back |
| Conditions.StartDeclaresInputs | Dify_workflow/T2_workflowgraph/workflow_graph_builder.py:259-283 | The start node declares the inputs in order; unknown types are plain text |
| Conditions.EndTypes | Dify_workflow/T2_workflowgraph/workflow_graph_builder.py:438-471 | An end node declares an object exactly when it puts out the whole of a call that declares a field |
| Provenance.SelectorsAreOrigins | Dify_workflow/T2_workflowgraph/workflow_graph_builder.py:511-562 | When the final map fits, at every hop of every run: reference number j of the prompt names the one call that the value of variable number j of the arguments comes from at that hop, and condition d of case c that of the variable of comparison d, each made at an earlier hop; or an input never assigned before |
| Provenance.SelectorsDominate | Dify_workflow/T2_workflowgraph/workflow_graph_builder.py:362-385 | In the graph alone, under the same condition: on the walk of any outcomes the node that a selector names is passed before its use |
| Provenance.EndSelectorsAreOrigins | Dify_workflow/T2_workflowgraph/workflow_graph_builder.py:438-500 | Under the same condition the end node reached selects the one origin, on this run, of the variable put out, also where several producers meet at the terminal; or the call made last; it is put out under the assigned name, or as "result" |
| StructuredOutputs.SchemasAreExact | Dify_workflow/T2_workflowgraph/workflow_graph_builder.py:225-258 | A call node declares a field with a type if and only if some condition in the graph reads that field of that node as that type |
| StructuredOutputs.SelectorsFitSchemas | Dify_workflow/T2_workflowgraph/workflow_graph_builder.py:555-562 | Every selector is an input, a declared field, or a whole output that is the structured one just when the node declares a field |
| StructuredOutputs.InferredExactly | Dify_workflow/T2_workflowgraph/workflow_graph_builder.py:241-258 | The inferred fields are exactly those the comparisons read, each from the single producer, which is a call |
| StructuredOutputs.InferStepsFlat | Dify_workflow/T2_workflowgraph/workflow_graph_builder.py:225-240 | Going through steps and cases is going through all comparisons in order |
| ControlFlow.BlockWalks | Dify_workflow/T2_workflowgraph/workflow_graph_builder.py:397-436 | A run that enters a block at a pending exit follows the edges of the lowered block, and leaves at one of its pending exits or at an end node of the terminal it reaches |
| ControlFlow.BlockConserves | Dify_workflow/T2_workflowgraph/workflow_graph_builder.py:397-436 | Conservation: every pending exit and every handle of a lowered step is used up by exactly one edge or is pending at the end |
| ControlFlow.BlockVisits | Dify_workflow/T2_workflowgraph/workflow_graph_builder.py:407-407 | Every step of a lowered block has been visited |
| ControlFlow.ClosedEnds | Dify_workflow/T2_workflowgraph/workflow_graph_builder.py:402-405 | A block whose paths all end in terminals leaves nothing pending |
| ControlFlow.BlockUp | Dify_workflow/T2_workflowgraph/workflow_graph_builder.py:408-413 | Edges lead from steps to later steps or to end nodes |
| ControlFlow.EndReached | Dify_workflow/T2_workflowgraph/workflow_graph_builder.py:438-471 | For each incoming exit of a terminal there is an end node made for it, with an edge from that exit |
| Refinement.SequenceRefines | Dify_workflow/T2_workflowgraph/workflow_graph_builder.py:397-436 | The walk over bodies of ids computes what the lowering of the tree computes |
| Refinement.LoadFacts | Dify_workflow/T2_workflowgraph/workflow_graph_builder.py:149-195 | Loading keeps exactly the objects of the flow, each under its id, and accepts only groups |
| Refinement.TreeRanked | Dify_workflow/T1_parser/pseudocode_parser.py:440-440 | A branch stands before all steps of its bodies, so the walk over the bodies ends |
| Correctness.CompiledIsWalkable | Dify_workflow/T1_parser/pseudocode_parser.py:435-463 | Every output of the first stage meets what the second stage's walk relies on |
| GraphSpec.SequenceOk | Dify_workflow/T2_workflowgraph/workflow_graph_builder.py:572-614 | Node ids stay distinct and edges join known nodes |
| Layout.TopologicalDepths | Dify_workflow/T2_workflowgraph/workflow_graph_builder.py:640-662 | For any graph, parallel edges and loops included, Kahn's algorithm fails just when there is a cycle; otherwise each depth is the length of the longest path to the node, which starts at a node without incoming edge |
| Layout.CountEdges | Dify_workflow/T2_workflowgraph/workflow_graph_builder.py:640-648 | Successors without repetition, and the number of distinct predecessors of each node |
| Layout.FollowEdge | Dify_workflow/T2_workflowgraph/workflow_graph_builder.py:655-660 | One edge of the inner loop keeps counters, queue and depths consistent |
| Layout.PlaceNodes | Dify_workflow/T2_workflowgraph/workflow_graph_builder.py:664-677 | Each node stands in the column of its depth, at its number in that column |
| Layout.PositionsOk | Dify_workflow/T2_workflowgraph/workflow_graph_builder.py:664-677 | x strictly increases along every edge, and no two nodes share a position |
| Layout.DepthsAreLongest | Dify_workflow/T2_workflowgraph/workflow_graph_builder.py:656-657 | Depths that are one more than the largest predecessor depth are longest paths, and rule out cycles |
| Layout.StuckIsCyclic | Dify_workflow/T2_workflowgraph/workflow_graph_builder.py:661-662 | Nodes that all wait for one another hold a cycle |
| SemanticsBuilding.SemanticsBuilder.Build | Dify_workflow/T1_parser/pseudocode_parser.py:293-312 | The builder object produces the flow, or the error, of the function that the theorems are about |
| SemanticsBuilding.SemanticsBuilder.Walk | Dify_workflow/T1_parser/pseudocode_parser.py:315-378 | The statement loop adds the objects of the list, returns its body, and leaves scope and counters as the analysis says; on an error it reports the first one |
| SemanticsBuilding.SemanticsBuilder.AddBranch | Dify_workflow/T1_parser/pseudocode_parser.py:435-479 | Snapshot, arms and merge: the branch step stands before the steps of its bodies, and the scope afterwards is the join of the arms |
| SemanticsBuilding.SemanticsBuilder.AddCall | Dify_workflow/T1_parser/pseudocode_parser.py:381-403 | Reads, checks and numbers a call; its target gets the call as only producer |
| SemanticsBuilding.SemanticsBuilder.PlainAssign | Dify_workflow/T1_parser/pseudocode_parser.py:405-433 | Records the binding with the current producers of its variables, which the target inherits |
| SemanticsBuilding.SemanticsBuilder.AddTerminal | Dify_workflow/T1_parser/pseudocode_parser.py:482-495 | Numbers a terminal and reads the names in its output |
| SemanticsBuilding.SemanticsBuilder.RegisterRefs | Dify_workflow/T1_parser/pseudocode_parser.py:514-527 | Each name is definite, warned about once, or an input |
| SemanticsBuilding.SemanticsBuilder.RegisterCondition | Dify_workflow/T1_parser/pseudocode_parser.py:506-512 | Reads the names of a condition, then those of its right-hand sides |
| SemanticsBuilding.SemanticsBuilder.ValidateAssignmentTarget | Dify_workflow/T1_parser/pseudocode_parser.py:529-533 | Rejects a target that is definite, then one that is an input |
| SemanticsBuilding.SemanticsBuilder.NewId | Dify_workflow/T1_parser/pseudocode_parser.py:559-563 | Counts per lower-cased name; the first id has no number |
| FlowGraphBuilding.FlowGraphBuilder.Build | Dify_workflow/T2_workflowgraph/workflow_graph_builder.py:104-133 | The builder object returns the graph, or the error, of the function that the theorems are about; with a graph comes a layout in which edges lead right and positions differ |
| FlowGraphBuilding.FlowGraphBuilder.LoadSemantics | Dify_workflow/T2_workflowgraph/workflow_graph_builder.py:149-195 | Loads the flow into the fields, with the same error for the first fault |
| FlowGraphBuilding.FlowGraphBuilder.InferStructuredOutputs | Dify_workflow/T2_workflowgraph/workflow_graph_builder.py:225-258 | Fills the structured fields comparison by comparison |
| FlowGraphBuilding.FlowGraphBuilder.WalkSequence | Dify_workflow/T2_workflowgraph/workflow_graph_builder.py:397-420 | The loop that threads pending exits through a body has the effect of the recursive lowering |
| FlowGraphBuilding.FlowGraphBuilder.WalkBranch | Dify_workflow/T2_workflowgraph/workflow_graph_builder.py:422-436 | Collects the exits of the cases and of the else body, in order |
| FlowGraphBuilding.FlowGraphBuilder.AppendTerminalNodes | Dify_workflow/T2_workflowgraph/workflow_graph_builder.py:438-471 | One end node and one edge per incoming exit; ids are split by source when there are several |
| FlowGraphBuilding.FlowGraphBuilder.AppendEdge | Dify_workflow/T2_workflowgraph/workflow_graph_builder.py:602-632 | Rejects unknown nodes, ignores a repeated edge, keeps the look-up tables in step |
| FlowGraphBuilding.FlowGraphBuilder.AppendNode | Dify_workflow/T2_workflowgraph/workflow_graph_builder.py:572-578 | Rejects a repeated id, keeps the look-up tables in step |
| FlowGraphBuilding.FlowGraphBuilder.ApplyTopologicalLayout | Dify_workflow/T2_workflowgraph/workflow_graph_builder.py:640-677 | Fails just on a directed cycle, and otherwise lays the graph out |
| FlowGraphBuilding.FlowGraphBuilder.ValidateGraph | Dify_workflow/T2_workflowgraph/workflow_graph_builder.py:679-690 | Counts start and end nodes; its check of the edges finds nothing |
| ElifFlattening.ConvertStmt | Dify_workflow/T1_parser/pseudocode_parser.py:234-249 | The loop down the chain of `elif`s ends and yields the flattened conditional |
| ElifFlattening.FlatRunsAsNested | Dify_workflow/T1_parser/pseudocode_parser.py:234-249 | For every nested program and every behaviour of tests and statements, tests with effects included, first-true-case over the flattened form does what the nested form does |
| ElifFlattening.FlatShape | Dify_workflow/T1_parser/pseudocode_parser.py:242-247 | No else body is left that is a single conditional, and case bodies are not empty when the source bodies are not |
| SourceMap.TerminalSemanticId | Dify_workflow/Pipeline/source_map.py:211-220 | The terminal id itself, or else the longest terminal id that the node id extends, or nothing |
| SourceMap.MapNode | Dify_workflow/Pipeline/source_map.py:128-174 | The entry of a node, or the reason for its rejection |
| SourceMap.MappingForGraphNodes | Dify_workflow/Pipeline/source_map.py:108-176 | Every node gets an entry, or some node is rejected |
| SourceMap.BuildSourceMap | Dify_workflow/Pipeline/source_map.py:31-85 | A map in which every step and terminal of the flow occurs, or the ids that do not |
| SourceMap.IndexObjects | Dify_workflow/Pipeline/source_map.py:233-244 | Succeeds just when no id is repeated |
| SourceMap.DecodesOnce | Dify_workflow/Pipeline/source_map.py:211-220 | An id decodes to at most one terminal, however the candidates are ordered |
| Decoding.EndIdDecodes | Dify_workflow/Pipeline/source_map.py:211-220 | Each end node id decodes to the terminal it was made from: `terminal_1_x` is not taken for `terminal_11` or the other way round |
| Decoding.NodeDecodes | Dify_workflow/Pipeline/source_map.py:108-176 | No node of an accepted graph is rejected; each entry names the object the node was made from |
| Decoding.SourceMapInverts | Dify_workflow/Pipeline/source_map.py:46-64 | For every accepted graph the map is made if and only if in the program some exit is pending at every terminal, and it inverts the generation; otherwise exactly the terminals at which none is are reported |
| Endings.BlockYields | Dify_workflow/T2_workflowgraph/workflow_graph_builder.py:397-471 | The end nodes added for a block are those of the terminals at which an exit is pending, each of which gets one; and exits are left pending just when the block's tree says so |
| Pitfalls.UnreachedIsNotMapped | Dify_workflow/Pipeline/source_map.py:46-64 | Outside the condition: a `return` after a branch whose arms have all returned passes both stages, and no source map is made |
| Decoding.BranchHandlesAreEdges | Dify_workflow/Pipeline/source_map.py:199-208 | The case handles and "false" in a branch's entry are the handles of the edges that leave the branch |
| RoundRobin.IndexIsModular | dify-main/api/core/model_manager.py:606-619 | Counter value c selects configuration (c - 1) mod n; the code's index is -1 just for the multiples of n above n, and means the last one |
| RoundRobin.TicksBelowTenMillion | dify-main/api/core/model_manager.py:606-611 | The counter goes up by one, and from 9999999 back to one |
| RoundRobin.ConsecutiveVisitAll | dify-main/api/core/model_manager.py:606-619 | n consecutive probes visit each configuration exactly once |
| RoundRobin.QuietSearchIsComplete | dify-main/api/core/model_manager.py:603-666 | With no other writer and no reset the search gives up only if all configurations are unavailable, and otherwise takes the first available one in cyclic order |
| RoundRobin.FetchIsSearch | dify-main/api/core/model_manager.py:603-666 | Whatever the other clients do, the loop finds the first available configuration among its at most n probes |
| RoundRobin.CompleteExactly | dify-main/api/core/model_manager.py:603-666 | Whatever the other clients do: the search gives up only when all configurations are unavailable, for every set of unavailable ones, if and only if no two of its n probes look at the same configuration |
| RoundRobin.QuietCompleteExactly | dify-main/api/core/model_manager.py:603-666 | With no other writer and n below the reset value: exactly when the counter is not reset between the probes, or is reset before the first one, or n divides the last value before the reset |
| RoundRobin.InterferenceMisses | dify-main/api/core/model_manager.py:606-630 | With another writer the one available configuration can be missed: two probes look at the same one |
| RoundRobin.ResetMisses | dify-main/api/core/model_manager.py:608-611 | So it can when the counter is reset in the middle: with two configurations, not with three |
| RoundRobin.LBModelManager.constructor | dify-main/api/core/model_manager.py:585-591 | Inherited configurations are dropped when there are no managed credentials |
| RoundRobin.LBModelManager.FetchNext | dify-main/api/core/model_manager.py:593-666 | Ends within n probes; no configurations is a division by zero |
| RoundRobin.LBModelManager.Cooldown | dify-main/api/core/model_manager.py:668-679 | Puts the configuration into cooldown for the given time |
| RoundRobin.RoundRobinInvoke | dify-main/api/core/model_manager.py:372-423 | Ends, and its answer, its calls and the counter and cooldowns it leaves are those of the retry protocol `Retry` |
| RoundRobin.InvokedAtMostOnce | dify-main/api/core/model_manager.py:372-423 | Each configuration is invoked at most once and none that was cooling down; rate-limited ones are cooled down for 60 seconds, other connection failures for 10; the answer is that of the last attempt |
| RoundRobin.CoolsOnlyFailures | dify-main/api/core/model_manager.py:372-423 | Each call is the invocation of its configuration in a round in which it passed the second policy check; and whatever starts to cool down does so for 60 seconds after a failed check or a rate limit, or for 10 after a refused connection |
| RoundRobin.GivesUpOnlyWhenAllFail | dify-main/api/core/model_manager.py:372-423 | When undisturbed the call gives up only with every configuration cooling down or not compliant |
| MigrationLock.LeaseSafeExactly | dify-main/api/libs/db_migration_lock.py:139-161 | All runs of the heartbeat loop in which no two renewals in a row are lost and calls take less than d keep the key with its holder, so that nobody else acquires it, if and only if two intervals and three calls fit into the time to live |
| MigrationLock.DefaultIsSafeExactly | dify-main/api/libs/db_migration_lock.py:72-76 | With the default interval and calls shorter than a ninth of the time to live: exactly from 0.3 seconds on |
| MigrationLock.HolderKeepsKey | dify-main/api/libs/db_migration_lock.py:139-161 | In every such run the heartbeat reaches each turn up to a stop with the key still the holder's and no operation of another client having taken effect; the key it leaves expires one time to live after the last renewal that was not lost, and it ends only when stopped |
| MigrationLock.HeartbeatTurn | dify-main/api/libs/db_migration_lock.py:150-161 | One turn: a lost call leaves the loop running with the key as it is, a renewal extends a key that is still owned, and a failed compare ends the loop |
| MigrationLock.LateRenewal | dify-main/api/libs/db_migration_lock.py:139-161 | A run that violates the bound, with the acquisition by another client that it lets through |
| MigrationLock.StaleHeartbeatIsHarmless | dify-main/api/libs/db_migration_lock.py:139-161 | A heartbeat that outlives its lock leaves the key of a later holder alone |
| MigrationLock.HeartbeatLoop | dify-main/api/libs/db_migration_lock.py:139-161 | The loop computes `Heartbeat`, of which the rows above speak: it renews turn by turn, goes on after errors, and ends when stopped or when the lock is no longer owned |
| MigrationLock.DbMigrationAutoRenewLock.Acquire | dify-main/api/libs/db_migration_lock.py:89-113 | Refuses a second acquisition; succeeds just when nobody holds the key, then with a fresh heartbeat for its own token |
| MigrationLock.DbMigrationAutoRenewLock.ReleaseSafely | dify-main/api/libs/db_migration_lock.py:163-202 | Stops the heartbeat, deletes only a key that is still its own, and always leaves a state in which a fresh acquisition is possible |
| MigrationLock.DbMigrationAutoRenewLock.StartHeartbeat | dify-main/api/libs/db_migration_lock.py:124-137 | Starts one heartbeat for the held token, and none while one runs |
| MigrationLock.DbMigrationAutoRenewLock.StopHeartbeat | dify-main/api/libs/db_migration_lock.py:204-222 | Signals the heartbeat and forgets it |
| EnvSync.ParseEnvFile | dify-main/docker/dify-env-sync.py:66-92 | The definitions of a file; the last one of a key counts |
| EnvSync.ParsesExactly | dify-main/docker/dify-env-sync.py:80-92 | A line is a definition of a key with a value if and only if it is the key and the value around an equals sign, with any white space around them, the key not empty, without an equals sign and not starting with `#` |
| EnvSync.ParsedLast | dify-main/docker/dify-env-sync.py:66-92 | A key is defined just when some line defines it, with the value of the last such line |
| EnvSync.DetectDifferences | dify-main/docker/dify-env-sync.py:217-228 | Exactly the keys of both files whose values differ, with both values |
| EnvSync.SyncEnvFile | dify-main/docker/dify-env-sync.py:313-340 | One line of output per line of the example, each rewritten or kept, with the two counts |
| EnvSync.CountIsSize | dify-main/docker/dify-env-sync.py:329-337 | The counts are the numbers of recognised lines whose key is, and is not, preserved |
| EnvSync.MatchesExactly | dify-main/docker/dify-env-sync.py:318-326 | The rewriter recognises a line if and only if it starts with a name (an ASCII letter or underscore, then ASCII letters, digits and underscores), white space and an equals sign |
| EnvSync.MatchParses | dify-main/docker/dify-env-sync.py:318-328 | A line that the rewriter's pattern matches is a definition of the name it matches, for the parser too |
| EnvSync.WrittenParses | dify-main/docker/dify-env-sync.py:331-331 | A rewritten line is parsed back to the key and the current value |
| EnvSync.SyncParses | dify-main/docker/dify-env-sync.py:313-340 | What the rewritten file says of any key, for every example and every environment |
| EnvSync.SyncIsMergeExactly | dify-main/docker/dify-env-sync.py:313-340 | The rewritten file is the merge (current value where there is one, example value otherwise) if and only if, for every differing key, the example's counting definition matches the pattern |
| EnvSync.SyncIsIdempotentExactly | dify-main/docker/dify-env-sync.py:313-340 | A second sync yields the same file if and only if every rewritten definition that a later, unrecognised one overrides already reads as it is rewritten |
| EnvSync.RecognisedIsMergedOnce | dify-main/docker/dify-env-sync.py:313-340 | When every definition of the example matches the pattern, the sync is the merge and a second sync changes nothing |
| EnvSync.NamedIsMergedOnce | dify-main/docker/dify-env-sync.py:313-340 | In particular for an example whose definitions all start their lines with such a name |
| EnvSync.OtherLinesKept | dify-main/docker/dify-env-sync.py:338-340 | The number of lines is kept, and so is every line that is not a definition or whose key does not differ |
| EnvSync.IndentedIsNotMerged | dify-main/docker/dify-env-sync.py:318-328 | An indented definition in the example keeps the example's value |

## Left out

- FlowGraphBuilding.FlowGraphBuilder.Build: requires a flow in which a branch stands before the steps of its bodies, as every output of the first stage does; on other inputs the source may recurse without end.
- RoundRobin.RoundRobinInvoke: cooldowns last through the call and the first policy check does not change during it; expiry of cooldowns in the middle of a call is not modelled. The call without a load-balancing manager is a plain call and is left out.
- MigrationLock.DbMigrationAutoRenewLock.Acquire: one attempt decides; the retry loop of a blocking acquisition is inside redis-py and is not part of this model.
- Text.Lower: lower-cases the ASCII letters only.
- Parsing of program text, source segments, line numbers and the wording of warnings; the four fatal kinds of warning are an enumeration, and the warnings about dead variables and unreachable code, which no stage acts on, are not modelled.
- Provenance.EndSelectorsAreOrigins: a terminal whose output is a template or an unparsed expression with one variable puts out that variable alone, as the code does; that the rest of the text is lost is not promised otherwise.
- An unparsed expression keeps only the names in it; the graph builder rejects it in arguments, bindings and conditions.
- A prompt is a list of literal pieces and references; the text form of a reference and the numeral of a constant are not modelled.
- Call records without a function name, malformed JSON and the coercions of optional fields: the flow is typed.
- Evaluation of conditions is outside the repository: `Conditions` gives operators a meaning of its own on typed values, for any reading of numerals and any membership.
- Model configuration, overrides, titles, retry, vision and memory settings, and sizes of nodes: no control or data flow.
- The order of the fields in a schema (a map), and of the keys in dictionaries where nothing depends on it.
- In a walk, conditions after the arm that is taken are not evaluated; the selector theorems speak of the conditions that are.
- The hash, the registry and the file output of the source map, and the HTTP import of graphs: input and output.
- Interleaving of the round-robin counter by other processes is an arbitrary list of increments between probes; the expiry of the counter key is not modelled.
- Provider plugins, credentials and logging in the load balancer: an invocation is a parameter.
- Delays between a wait and the call after it are part of the duration of the call in the lock model; the join timeout of the heartbeat thread is not modelled, which is why the stale heartbeat has its own lemma.
- Colours, backups, value-change descriptions, removed-variable reports and the final rename in the env sync; a file is a list of lines, so the newline that is added to an unterminated last line does not show.
- The rest of the repository: plumbing over libraries and databases.
