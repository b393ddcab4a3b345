# Effect and trace analysis of the Etas compiler, in Dafny

This project models the effect and trace analysis engine of the Etas compiler, the static string
evaluator, and the lexer with the two syntax components that rely on its tiling, and proves their
properties for all inputs. To verify it, use `dafny verify dfyconfig.toml` with Dafny 4.11. Every claim
below is a proof about the model.

| files | what they model |
|---|---|
| `Prelude`, `Effects`, `SortedLists` | shared values: options and results, effects and rows, key-sorted lists and runs of recording |
| `Trace`, `Words`, `TraceOps`, `TraceMeaning`, `TraceWorklists`, `TraceStability`, `TracePruning` | the action-trace domain, its meaning as sets of words, its operators and exactly what they mean, its worklist collectors, its stabilization, and traces rid of branches without a word |
| `TraceMapping`, `Passes`, `SummarySubstitution`, `SubstitutionLaws`, `SubstitutionExact` | the explicit-stack trace mapper, mapping lists and sets under one budget, the summary substitution that drives both, its laws, and when it succeeds |
| `TraceMonitor`, `Rounds`, `MonitorRuns`, `BuiltTraces`, `TraceSpecs`, `Verdicts`, `Conformance`, `ConformanceExact` | the prior-evidence runner over traces, way by way, and over those the engine builds, clause outcomes, permissions, three-valued verdicts, what a verdict says about words and requests, and exactly when there is which |
| `RuleLowering`, `ResidualPlans` | lowering of rules, and lower-then-verify of residual monitor plans |
| `SummaryValues`, `SummaryLaws`, `Exits`, `ExitTraces`, `SummaryFacts`, `SummaryState` | default handlers and request evidence and the laws of each operation, callable exit summaries and their traces, whole effect summaries, and the mutable summary |
| `Extensions`, `Coverage`, `CoverageMeaning` | the extension graph, the coverage relation, and coverage as inclusion of requests |
| `ExternalTrace` | bounded lowering of external trace metadata |
| `StaticString`, `StaticSettling`, `StaticLaws` | the static string evaluator against "follow the chain", the programs on which it ends, and what each kind of expression evaluates to |
| `Utf8`, `Lexer`, `LexerLoops`, `LexerShapes`, `LexerExact`, `RetainedBody`, `SourceMapping` | UTF-8 lexing, the token stream told by shapes alone, retained bodies, span validation and relocation |

How the model reads the source:

- A trace means a set of finite words over letters; a letter is an action, or a parameter call told by
  its target and span. `Repeat` is star, `Parallel` is shuffle, `TaskStart` is its body, `TaskAwait` is
  the empty word, `UnknownOrder` and `Widened` are all words over their letters.
- The textual sort key of traces, the derived orders on effects, calls, outcomes and exits, and the
  iteration order of ordered sets are functions given as parameters. Orders are given by ranks in the
  reals, which have room for every order of countably many values; injectivity is a stated
  precondition where a proof needs it.
- Pattern projection, identity derivation, source-link checks, type substitution, type assignability,
  the registry's signatures and the oracle for static calls are functions given as parameters, with
  their contracts stated as named predicates (`Coherent`, `LawfulOracles`, `AssignablePreorder`,
  `Renames`, `Enumerates`).
- A mutable object of the source is a class whose methods are proved against functions on its value
  (`EffectSummary`, `CallableExitSummary`, `ExtensionGraph`, `EffectSummarySubstitution`,
  `StaticStringEvaluator`, `SpanWork`); a loop is a method with a loop.

Where a property is false of the code in general, lemmas give the failing inputs and others say when it
does hold:

- Coverage is not transitive. `Coverage.CoversThroughExactly` says for all effects which chains compose
  and `RowCoversThroughExactly` for all rows; `BreaksAboveErrorTag`, `BreaksBelowErrorTag`,
  `BreaksAboveMemoryTag` and `BreaksOnMemoryErrorTag` show that every way of breaking occurs.
- Effects that count as disjoint can share requests (`CoverageMeaning.SharedDescendant`);
  `DisjointMeetExactly` says exactly which do.
- Mapping an escaping row does not agree with recomputing it (`SummarySubstitution.ConflictingTailsDisagree`);
  `EscapingAgreesExactly` is the exact condition on the bound rows.
- A reported violation need not be real (`TraceMonitor.EmptyChoiceViolation`). `ViolationIsReal` holds for
  every trace whose pruned form is reported, `ViolationRealExactly` is both directions on complete traces,
  and `BuiltTraces.BuiltViolationIsReal` says that on the traces the engine builds nothing needs pruning.
- Joining need not stabilize. The two conditions of `TraceStability.JoinStabilizes` are sufficient for
  every run and sharp: each input that breaks the letter condition has a partner with which the result
  changes for ever (`LetterFreeInputsKeepChanging`), and so have two names under one key
  (`TwoNamesKeepChanging`).
- Static strings need not settle (`StaticString.DivergingNeverSettles`). `StaticSettling.DivergesExactly`
  says for every program and query that evaluation fails to end exactly when some query comes back under
  a longer projection, the old one untouched and no transform on the way; `RankedSettles` is a condition
  on the program alone.
- A proven conformance does not mean that every request is allowed: those that default handlers take need
  no permission (`Conformance.HandledNeedNoPermission`). `VerdictMeansTruth` says what it does mean.

## Model

| member | source | states |
|---|---|---|
| `TraceOps.SeqSound` | crates/etas_effects/src/infer/domain.rs:615-650 | every word of the first operand followed by a word of the second is a word of `seq`, absorbing, widening and flattening included |
| `TraceMeaning.SeqMeaning` | crates/etas_effects/src/infer/domain.rs:615-650 | for all operands: where an operand is unordered or the nodes and repeats of the operands exceed the limit, `seq` means all words over their letters; otherwise exactly the concatenations, in order |
| `TraceOps.ChoiceSound` | crates/etas_effects/src/infer/domain.rs:652-697 | every word of either operand is a word of `choice` |
| `TraceMeaning.ChoiceMeaning` | crates/etas_effects/src/infer/domain.rs:652-704 | for all operands: all words over their letters under a condition on the operands alone, otherwise exactly the words of either |
| `TraceOps.RepeatExact` | crates/etas_effects/src/infer/domain.rs:390-396 | `repeat` means exactly the star of the trace's words, for every trace |
| `TraceOps.WidenSound` | crates/etas_effects/src/infer/domain.rs:398-406 | widening, conditional widening and stabilizing only add words |
| `TraceMeaning.StabilizeMeaning` | crates/etas_effects/src/infer/domain.rs:398-406 | stabilizing changes nothing under a condition on the trace and the old one, and otherwise means exactly all words over the letters |
| `TraceMeaning.NodesTell` | crates/etas_effects/src/infer/domain.rs:336-526 | size, repeats, lost order and letters are told by the list of a trace's nodes |
| `TraceMeaning.LostForm` | crates/etas_effects/src/infer/domain.rs:600-650 | where order is lost, plain unordered actions stay plain exactly when no call and no widened part is involved |
| `TraceOps.WidenMeaning` | crates/etas_effects/src/infer/domain.rs:582-598 | a widened trace means exactly all words over the letters of the trace |
| `TraceOps.SeqLetters` | crates/etas_effects/src/infer/domain.rs:615-650 | `seq` has exactly the actions and call keys of its operands |
| `TraceOps.ChoiceLetters` | crates/etas_effects/src/infer/domain.rs:652-704 | `choice` has exactly the actions and call keys of its operands |
| `TraceOps.RepeatStabilizeLetters` | crates/etas_effects/src/infer/domain.rs:390-406 | `repeat` and stabilizing lose and add no letter |
| `TraceOps.SeqKeepsNonEmptyChoices` | crates/etas_effects/src/infer/domain.rs:615-650 | `seq` never creates an empty choice |
| `TraceOps.ChoiceKeepsNonEmptyChoices` | crates/etas_effects/src/infer/domain.rs:652-697 | `choice` never creates an empty choice |
| `TraceWorklists.NodeCount` | crates/etas_effects/src/infer/domain.rs:408-430 | the early-exit counter is exact up to 32 and above 32 exactly when the trace is |
| `TraceWorklists.FindRepeat` | crates/etas_effects/src/infer/domain.rs:432-450 | the worklist finds a repeat exactly when the trace has one |
| `TraceWorklists.HasUnorderedApproximation` | crates/etas_effects/src/infer/domain.rs:336-352 | the worklist finds an unordered part exactly when the trace has one |
| `TraceWorklists.HasParameterCalls` | crates/etas_effects/src/infer/domain.rs:354-374 | the worklist finds a call exactly when the trace has one |
| `TraceWorklists.CollectActions` | crates/etas_effects/src/infer/domain.rs:464-481 | the collected set is the given set and exactly the trace's actions |
| `TraceWorklists.CollectParameterCalls` | crates/etas_effects/src/infer/domain.rs:483-526 | the collected calls have exactly the trace's call keys, come from the trace, and stay strictly ordered |
| `TraceWorklists.CollectWidened` | crates/etas_effects/src/infer/domain.rs:528-580 | leaves are visited left to right, so actions and calls are those of the recursive definition |
| `TraceWorklists.WidenByWorklist` | crates/etas_effects/src/infer/domain.rs:582-598 | the worklist form computes the recursive widening |
| `TraceWorklists.MergeByWorklist` | crates/etas_effects/src/infer/domain.rs:600-613 | the worklist merge of two traces computes the recursive one |
| `TraceStability.ChoiceStep` | crates/etas_effects/src/infer/domain.rs:383-388 | a join keeps the result repeat-free, within 32 nodes and canonical, and every reported change raises a bounded potential |
| `TraceStability.RunBound` | crates/etas_effects/src/infer/domain.rs:383-388 | over any run the number of reported changes is at most the growth of the potential |
| `TraceStability.JoinStabilizes` | crates/etas_effects/src/infer/domain.rs:652-704 | from `Empty`, any run over a finite alphabet reports at most 33 + the number of letters changes, and ends repeat-free with at most 32 nodes |
| `TraceStability.LetterFreeInputsKeepChanging` | crates/etas_effects/src/infer/domain.rs:652-704 | for every letter-free input but `Empty` there is a partner with which it changes the result twice in every round, so the letter condition is sharp |
| `TraceStability.TwoNamesKeepChanging` | crates/etas_effects/src/infer/domain.rs:652-704 | two calls with one key and different names replace each other in every round, so the naming condition is sharp |
| `TracePruning.PruneMeaning` | crates/etas_effects/src/trace_spec/monitor/runner.rs:115-240 | removing the branches without a word changes no word of any trace |
| `TracePruning.LiveExactly` | crates/etas_effects/src/trace_spec/monitor/runner.rs:115-240 | a trace has a word exactly when no empty choice blocks it |
| `TraceMapping.MapTrace` | crates/etas_effects/src/substitution/trace.rs:4-114 | the work/value stack machine returns what left-to-right recursion returns, for every trace and mapper; its invariant excludes underflow of either stack |
| `TraceMapping.MapRecRenames` | crates/etas_effects/src/substitution/trace.rs:4-114 | a successful mapping changes nothing but the actions |
| `TraceMapping.MapMeaning` | crates/etas_effects/src/substitution/trace.rs:4-114 | the meaning of the result is exactly the letterwise image of the input's meaning |
| `TraceMapping.MapBudget` | crates/etas_effects/src/substitution/mod.rs:171-182 | with a mapper that fails only on budget, mapping succeeds exactly when the budget covers a recursively defined cost, and consumes exactly that cost |
| `TraceMapping.MapExactly` | crates/etas_effects/src/substitution/trace.rs:4-114 | with a mapper that may also refuse effects, mapping succeeds exactly when every effect is accepted and the budget covers the cost, and consumes exactly that cost |
| `TraceMapping.MapRecKeepsNonEmptyChoices` | crates/etas_effects/src/substitution/trace.rs:4-114 | mapping creates no empty choice |
| `TraceMonitor.RunByLoops` | crates/etas_effects/src/trace_spec/monitor/runner.rs:115-240 | the runner's loops, with its fixpoint iteration for repeats, compute the recursive runner |
| `TraceMonitor.RunCorrect` | crates/etas_effects/src/trace_spec/monitor/runner.rs:115-319 | every complete run covers all words from all start states; every reported state and violation is reached by a real word |
| `MonitorRuns.RunExactly` | crates/etas_effects/src/trace_spec/monitor/runner.rs:85-303 | for every trace, patterns and states: a violation exactly when some way through the trace meets an unguarded target, otherwise exactly the states some way ends in, incomplete exactly when some way is stuck; a repetition is any number of rounds |
| `MonitorRuns.RequireBeforeExactly` | crates/etas_effects/src/trace_spec/monitor/runner.rs:24-69 | for every trace the verdict is a violation, unknown or satisfied exactly under conditions on the ways through the trace and its letters |
| `Rounds.StarOfStar` | crates/etas_effects/src/trace_spec/monitor/runner.rs:186-226 | a repeated repetition has the ways of the repetition, so nested repeats may be unwrapped |
| `TraceMonitor.SafeByPosition` | crates/etas_effects/src/trace_spec/monitor/runner.rs:24-69 | the stepwise property is the positional one: before every target stands a guard |
| `TraceMonitor.RequireBeforeSound` | crates/etas_effects/src/trace_spec/monitor/runner.rs:24-69 | a satisfied or ordered verdict holds on every word, however uncertain matches are decided |
| `TraceMonitor.ViolationIsReal` | crates/etas_effects/src/trace_spec/monitor/runner.rs:24-69 | for every trace with a word, a violation still reported once wordless branches are pruned has one word that breaks the property under every decision of the uncertain matches |
| `TraceMonitor.EmptyChoiceViolation` | crates/etas_effects/src/trace_spec/monitor/runner.rs:115-240 | behind every violating trace an empty choice leaves the violation reported and no word at all |
| `TraceMonitor.ViolationRealExactly` | crates/etas_effects/src/trace_spec/monitor/runner.rs:24-69 | when the pruned trace is complete, a word breaks the property exactly when the trace has a word and its pruned form is reported |
| `TraceMonitor.RequireBeforeDecides` | crates/etas_effects/src/trace_spec/monitor/runner.rs:24-69 | on complete traces the verdict is decided, and a violation is reported exactly when a word breaks the property |
| `BuiltTraces.BuiltHasNoEmptyChoice` | crates/etas_effects/src/infer/domain.rs:383-406 | no trace built by the operators, by substitution or from accepted external metadata holds an empty choice |
| `BuiltTraces.BuiltViolationIsReal` | crates/etas_effects/src/trace_spec/monitor/runner.rs:24-69 | on every built trace a reported violation has a real word |
| `Extensions.ExtensionGraph.AddExtension` | crates/etas_effects/src/effect/extension.rs:11-13 | the edge is added and nothing else changes |
| `Extensions.ExtensionGraph.Extends` | crates/etas_effects/src/effect/extension.rs:21-40 | the search terminates on every graph, cycles included, and decides reflexive-transitive reachability |
| `Extensions.AddExtensionReach` | crates/etas_effects/src/effect/extension.rs:11-40 | a new edge adds exactly the paths that run through it |
| `Coverage.CoversThroughExactly` | crates/etas_effects/src/effect/coverage.rs:46-115 | for all effects in a chain of coverage, the first covers the last exactly when the chain is not one of the listed breaking ones |
| `CoverageMeaning.StandsExactly` | crates/etas_effects/src/effect/coverage.rs:46-115 | a tag covers exactly the requests filed at or below it, an action all its instances, an applied action those whose arguments it covers place by place |
| `CoverageMeaning.ArgCoversExactly` | crates/etas_effects/src/effect/coverage.rs:206-276 | one argument covers another exactly when equal, when its memory place is a prefix, or when its resource path is a suffix of the other |
| `CoverageMeaning.CoversIsInclusion` | crates/etas_effects/src/effect/coverage.rs:46-115 | tags and actions that cover another stand for all its requests, and where the arguments cover themselves coverage is exactly that inclusion |
| `CoverageMeaning.ImproperExactly` | crates/etas_effects/src/effect/coverage.rs:90-115 | an argument covers itself except exactly a memory argument without a place and an empty resource path |
| `CoverageMeaning.TypedCoversExactly` | crates/etas_effects/src/effect/coverage.rs:46-88 | outside tags and actions: exactly which applied tags, errors and variables cover what |
| `CoverageMeaning.RowCoversIsInclusion` | crates/etas_effects/src/effect/coverage.rs:117-130 | an open row covers every row, a closed one exactly the closed rows all of whose requests are its own |
| `CoverageMeaning.SubtractExactly` | crates/etas_effects/src/effect/coverage.rs:153-169 | subtraction keeps the tail and exactly the effects whose request no handled effect stands for |
| `CoverageMeaning.DisjointExactly` | crates/etas_effects/src/effect/coverage.rs:14-44 | effects count as disjoint exactly when filed under named tags of which neither is at or below the other |
| `CoverageMeaning.DisjointMeetExactly` | crates/etas_effects/src/effect/coverage.rs:14-44 | disjoint tags and actions share a request exactly when they are tags with a common descendant |
| `CoverageMeaning.SharedDescendant` | crates/etas_effects/src/effect/coverage.rs:14-44 | two unrelated tags with a common descendant count as disjoint although they share its requests |
| `Coverage.CoversTransitive` | crates/etas_effects/src/effect/coverage.rs:46-115 | chains of tags, actions and applied actions never break |
| `Coverage.RowCoversThroughExactly` | crates/etas_effects/src/effect/coverage.rs:117-130 | for all rows in a chain of coverage, the first covers the last exactly when it is open or each effect has an unbroken chain or a cover beside the chains |
| `Coverage.RowCoversTransitive` | crates/etas_effects/src/effect/coverage.rs:117-130 | row coverage is transitive whenever no chain between the rows breaks |
| `Coverage.PlainRowCoversTransitive` | crates/etas_effects/src/effect/coverage.rs:117-130 | rows of tags, actions and applied actions have no breaking chain, so their coverage is transitive |
| `Coverage.BreaksAboveErrorTag` | crates/etas_effects/src/effect/coverage.rs:46-88 | an ancestor of the error tag covers its applied form but not the `Error` form below it |
| `Coverage.BreaksBelowErrorTag` | crates/etas_effects/src/effect/coverage.rs:46-88 | the `Error` form covers the applied error tag but not the descendants that one covers |
| `Coverage.BreaksAboveMemoryTag` | crates/etas_effects/src/effect/coverage.rs:46-115 | a non-memory ancestor need not cover what the memory tag below it covers by place |
| `Coverage.BreaksOnMemoryErrorTag` | crates/etas_effects/src/effect/coverage.rs:46-115 | were the error tag a memory tag, chains through the `Error` form would break in three more ways |
| `Coverage.RowCoversIffNothingUncovered` | crates/etas_effects/src/effect/coverage.rs:117-151 | a row is covered exactly when nothing of it is uncovered |
| `Coverage.DisjointRowsSubtract` | crates/etas_effects/src/effect/coverage.rs:14-44 | disjoint rows are unchanged by subtracting each other |
| `Coverage.MustImpliesMay` | crates/etas_effects/src/effect/coverage.rs:46-115 | for every pattern a sure match is also a possible match |
| `CoverageMeaning.MatchesExactly` | crates/etas_effects/src/trace_spec/model.rs:276-330 | a pattern over tags and actions surely matches a request exactly when one of its effects stands for it and its bounds are met |
| `CoverageMeaning.MayMatchExactly` | crates/etas_effects/src/trace_spec/model.rs:197-265 | a pattern can match exactly when its row is open or one of its effects is not excluded |
| `CoverageMeaning.ExcludedApart` | crates/etas_effects/src/trace_spec/model.rs:197-265 | an excluded tag or action shares no request with the requested action, where clashing types have no common subtype |
| `TraceSpecs.OutcomesBelong` | crates/etas_effects/src/trace_spec/analysis.rs:611-625 | over all alternatives, outcomes stand exactly at denials and temporal clauses and belong to their clause, in its direction |
| `TraceSpecs.AnalyzeClauseGroups` | crates/etas_effects/src/trace_spec/analysis.rs:1048-1112 | the nested loops give one outcome per clause, in place |
| `TraceSpecs.DenialSound` | crates/etas_effects/src/trace_spec/analysis.rs:533-557 | a decided denial is right for every request set an open row or unresolved call allows, and every resolution |
| `TraceSpecs.DenialExact` | crates/etas_effects/src/trace_spec/analysis.rs:533-557 | on closed rows without unresolved calls an unsupported denial has both answers |
| `TraceSpecs.TemporalSound` | crates/etas_effects/src/trace_spec/analysis.rs:594-609 | a proven temporal clause holds on every word and needs a closed row; a violated one fails on a word whatever is uncertain |
| `Verdicts.CheckedAlternativeDisposition` | crates/etas_effects/src/trace_spec/analysis.rs:152-215 | the loop gives the three-valued conjunction of all facts of the alternative, or the error of a missing fact |
| `Verdicts.CheckedConformanceDisposition` | crates/etas_effects/src/trace_spec/analysis.rs:217-257 | the loop gives the three-valued disjunction of the alternatives, or the first error |
| `Verdicts.VerdictExact` | crates/etas_effects/src/trace_spec/analysis.rs:152-257 | proven holds in every resolution of the unknowns, violated fails in every one, unsupported has both, each exactly |
| `Verdicts.RefinementKeepsDecisions` | crates/etas_effects/src/trace_spec/analysis.rs:152-257 | refining an unknown never flips a decided verdict |
| `Verdicts.AnalyzePermissions` | crates/etas_effects/src/trace_spec/analysis.rs:458-507 | the outcome lists exactly the actions not surely permitted, whether one may match, and the recorded permissions; it fails exactly when the search costs more than the limit or a permission has no source |
| `Verdicts.CollectUncovered` | crates/etas_effects/src/trace_spec/analysis.rs:466-490 | the search per action is exact, and the budget runs out exactly when the cost of all searches exceeds it |
| `Verdicts.FindMatch` | crates/etas_effects/src/trace_spec/analysis.rs:470-485 | the early-exit search answers whether some pattern matches, and the remaining budget is exact |
| `Verdicts.SearchCostBound` | crates/etas_effects/src/trace_spec/analysis.rs:466-490 | two units per pattern and action always suffice |
| `Verdicts.PermissionSound` | crates/etas_effects/src/trace_spec/analysis.rs:130-141 | a decided permission verdict is right for every request set and every resolution |
| `Verdicts.PermissionExact` | crates/etas_effects/src/trace_spec/analysis.rs:130-141 | on closed rows without unresolved calls an unsupported permission verdict has both answers |
| `Conformance.CollectPermissionOutcomes` | crates/etas_effects/src/trace_spec/analysis.rs:939-1018 | every alternative gets its outcome in place, analysed on the requests that default handlers leave; none exactly when it has no normal form or the search exceeds the limit |
| `Conformance.HandledNeedNoPermission` | crates/etas_effects/src/trace_spec/analysis.rs:958-964 | when default handlers take all of a closed row without unresolved calls, every analysed alternative is permitted, whatever it allows |
| `Conformance.VerdictMeansTruth` | crates/etas_effects/src/trace_spec/analysis.rs:939-1044 | in every world the row and the uncertain matches allow, a proven conformance has an alternative that allows each request no default handler takes, denies no request and keeps its order clauses on all words; of a violated one no alternative does |
| `Conformance.BuiltVerdictMeansTruth` | crates/etas_effects/src/trace_spec/analysis.rs:939-1044 | on every trace the engine builds both directions hold without a condition on the trace |
| `ConformanceExact.VerdictExistsExactly` | crates/etas_effects/src/trace_spec/analysis.rs:217-257 | an indexed conformance gets a verdict exactly when it has alternatives, none is empty, the permissions of each are searched within the limit, and clauses and alternatives together are within theirs; beyond it the error is the limit |
| `ConformanceExact.VerdictExactly` | crates/etas_effects/src/trace_spec/analysis.rs:152-257 | proven exactly when some alternative is sure in its permissions and all its clauses, violated exactly when every alternative is broken in one; sure and broken are told on requests, matches and ways through the trace |
| `ConformanceExact.ClauseVerdict` | crates/etas_effects/src/trace_spec/analysis.rs:533-625 | each denial and temporal clause is proven or violated exactly when it is sure or broken |
| `ConformanceExact.PermissionVerdictExactly` | crates/etas_effects/src/trace_spec/analysis.rs:130-141 | permissions are proven exactly when nothing is asked or each request that no default handler takes surely matches an allow clause, and violated exactly when one of them can match none |
| `RuleLowering.ProjectRulesByLoop` | crates/etas_effects/src/trace_spec/lower.rs:168-234 | the nested loops over one shared projection iterator compute the recursive lowering |
| `RuleLowering.LoweringSucceedsExactly` | crates/etas_effects/src/trace_spec/lower.rs:168-234 | lowering succeeds exactly when the limits hold, no limit clause occurs and the projections are the flattened operands in order |
| `RuleLowering.LoweringPreservesMeaning` | crates/etas_effects/src/trace_spec/lower.rs:99-135 | the lowered alternatives hold on a word exactly when the source alternatives do, each clause read directly on positions of the word |
| `RuleLowering.ClausesAsRules` | crates/etas_effects/src/trace_spec/lower.rs:99-135 | clauses read on positions hold exactly when their rules hold stepwise, so turning `after` round is right |
| `RuleLowering.LoweringNatural` | crates/etas_effects/src/trace_spec/lower.rs:137-166 | concrete and symbolic lowering give the same error or the same rules up to the pattern payload |
| `RuleLowering.OperandBound` | crates/etas_effects/src/trace_spec/lower.rs:175-183 | the early pattern-count check rejects nothing that could succeed |
| `ResidualPlans.VerifyPlan` | crates/etas_effects/src/residual/mod.rs:605-718 | a plan is accepted exactly when it is genuine: references one-to-one and in order with the clauses, identities re-derived, sources linked; it ends in an error exactly when a check before the first failure is interrupted |
| `ResidualPlans.LowerRequirement` | crates/etas_effects/src/residual/mod.rs:408-500 | a requirement lowers exactly to the plan its clauses prescribe under one monitor, and ends in an error exactly when too large or interrupted before any failure |
| `ResidualPlans.LoweredVerifies` | crates/etas_effects/src/residual/mod.rs:408-718 | a lowered plan is genuine exactly when its source links are accepted |
| `ResidualPlans.LowerResidualMonitorPlans` | crates/etas_effects/src/residual/mod.rs:385-406 | succeeds exactly when every conformance is classified and lowered without interruption and all clauses together fit the budget; each then has its entry in place |
| `ResidualPlans.VerifyOne` | crates/etas_effects/src/residual/mod.rs:560-600 | one conformance is accepted exactly when its record is as recomputed and its check is not interrupted; it ends as a plan exactly when its entry is genuine, otherwise as a failure or ineligible, and no other entry changes |
| `ResidualPlans.VerifyResidualPlans` | crates/etas_effects/src/residual/mod.rs:537-603 | a lowering, even a forged one, is accepted exactly when every record is; each conformance then has exactly its outcome, and the plans are exactly the genuine entries |
| `ResidualPlans.LoweredIsHonest` | crates/etas_effects/src/residual/mod.rs:385-500 | what lowering records is accepted exactly when its source links can be checked, and exactly the plans with accepted links are kept |
| `ResidualPlans.LowerThenVerify` | crates/etas_effects/src/residual/mod.rs:385-603 | under lawful constructors only checking the source links can still interrupt, and a conformance keeps a plan exactly when its requirement lowers to one whose links are accepted |
| `SummaryValues.RunsStayBalanced` | crates/etas_effects/src/infer/default_handlers.rs:50-134 | through any run of record, sequence, branch, footprint, subtract and remove, with any other summaries, the escaping row is direct joined with all produced rows, with one handler per action in order |
| `SummaryValues.RunRequestsAreLub` | crates/etas_effects/src/infer/requests.rs:86-166 | without subtraction the request evidence of a run is the least upper bound of all evidence joined into it |
| `SummaryValues.MergeFootprintBalanced` | crates/etas_effects/src/infer/domain.rs:201-237 | the footprint merge keeps the balance without recomputing it, and keeps escaping row and trace |
| `SummaryValues.OperationsCanonical` | crates/etas_effects/src/infer/default_handlers.rs:26-134 | every operation keeps one handler per action, in order |
| `SummaryValues.SubtractSurvivors` | crates/etas_effects/src/infer/default_handlers.rs:91-112 | an effect survives subtraction exactly when it is uncovered and comes from direct or from a handler whose action is uncovered |
| `SummaryValues.SubtractTwice` | crates/etas_effects/src/infer/requests.rs:168-188 | subtracting one row and then another is subtracting their union, request evidence included |
| `SummaryLaws.SubtractedRequests` | crates/etas_effects/src/infer/requests.rs:168-188 | an action request survives exactly when no handled effect covers its action; parameter requests are exactly the old ones with the handled effects excluded; missing evidence stays missing; nothing else changes |
| `SummaryLaws.SubtractedHandlers` | crates/etas_effects/src/infer/default_handlers.rs:91-112 | exactly the uncovered direct effects, the handlers of uncovered actions, and the uncovered effects they produce survive |
| `SummaryLaws.RecordedRow` | crates/etas_effects/src/infer/domain.rs:72-79 | a recorded row escapes directly afterwards, with its tail where there was none; handlers and everything else stay |
| `SummaryLaws.RecordedHandler` | crates/etas_effects/src/infer/default_handlers.rs:50-67 | a recorded handler handles its action and produces its row, escaping included; nothing else is handled or produced |
| `SummaryLaws.JoinedHandlers` | crates/etas_effects/src/infer/default_handlers.rs:69-89 | direct effects, handled actions, produced effects and escaping effects are exactly those of both sides |
| `SummaryLaws.RemovedEffect` | crates/etas_effects/src/infer/default_handlers.rs:114-124 | exactly the removed effect leaves the direct, produced and escaping rows |
| `SummaryLaws.MergedFootprint` | crates/etas_effects/src/infer/domain.rs:201-237 | the footprint merge adds the other's handled actions and nothing they produce |
| `SummaryLaws.JoinedRows` | crates/etas_effects/src/infer/domain.rs:119-237 | sequencing, branching and the footprint merge hold the requested, default and handled rows and the requests of both sides |
| `SummaryLaws.FactsJoin` | crates/etas_effects/src/infer/domain.rs:119-237 | checks, requirements, determinism, independence and support become the least that serve both sides |
| `SummaryLaws.ExitsJoin` | crates/etas_effects/src/infer/domain.rs:119-172 | only branching joins exits, and then the outcomes and gaps are those of both sides |
| `SummaryLaws.SequencedSummary` | crates/etas_effects/src/infer/domain.rs:119-140 | what escapes is what escapes from either, and the words are exactly those of the first followed by those of the second, or all over their letters where the order is lost |
| `SummaryLaws.BranchedSummary` | crates/etas_effects/src/infer/domain.rs:142-172 | what escapes is what escapes from either, and the words are exactly those of either, or all over their letters where the order is lost |
| `SummaryValues.JoinEscapingEffects` | crates/etas_effects/src/infer/default_handlers.rs:69-89 | the joined row has exactly the escaping effects of both summaries |
| `SummaryState.EffectSummary.RefreshEscapingEffects` | crates/etas_effects/src/infer/default_handlers.rs:126-134 | the row is recomputed from direct and produced rows, and the summary is balanced again |
| `SummaryState.EffectSummary.RecordEscapingEffectRow` | crates/etas_effects/src/infer/domain.rs:72-79 | the row joins direct or escaping, balance kept |
| `SummaryState.EffectSummary.RecordDefaultHandlerEffects` | crates/etas_effects/src/infer/default_handlers.rs:50-67 | refused exactly for non-actions; otherwise the handler is merged in, balance kept |
| `SummaryState.EffectSummary.JoinEscapingEffects` | crates/etas_effects/src/infer/default_handlers.rs:69-89 | direct rows and handlers are joined, balance kept, and a change is reported exactly when there is one |
| `SummaryState.EffectSummary.SubtractHandledEffects` | crates/etas_effects/src/infer/default_handlers.rs:91-112 | requests, direct row and handlers are filtered, balance kept |
| `SummaryState.EffectSummary.RemoveEscapingEffect` | crates/etas_effects/src/infer/default_handlers.rs:114-124 | the effect leaves direct and all produced rows, balance kept |
| `SummaryState.EffectSummary.SeqAssign` | crates/etas_effects/src/infer/domain.rs:119-140 | rows, requirements, checks, determinism and support are joined and the trace is sequenced, exits left alone, balance kept; a change is reported exactly when there is one |
| `SummaryState.EffectSummary.JoinBranch` | crates/etas_effects/src/infer/domain.rs:142-172 | all parts are joined, exits included, and the trace becomes a choice, balance and exit order kept; a change is reported exactly when there is one |
| `SummaryState.EffectSummary.JoinSummary` | crates/etas_effects/src/infer/domain.rs:189-199 | a whole summary at its default is replaced, a default input is ignored, otherwise branches are joined; a change is reported exactly when there is one |
| `SummaryState.EffectSummary.RecordActionTraceEvent` | crates/etas_effects/src/infer/domain.rs:102-117 | an action extends every word of the trace and adds exactly its letter; anything else changes nothing, and nothing but the trace changes |
| `SummaryState.EffectSummary.StabilizeForFixpoint` | crates/etas_effects/src/infer/domain.rs:179-187 | the trace and every trace and prefix of the exits end repeat-free with at most 32 nodes, keep their letters and lose no word; nothing else changes |
| `SummaryState.EffectSummary.MergeRequestFootprint` | crates/etas_effects/src/infer/domain.rs:201-237 | the other summary's handlers are merged with empty produced rows, request rows and facts are joined; escaping row, trace and exits stay, balance and order are kept, and a change is reported exactly when there is one |
| `SummaryState.UnionHandlerByScan` | crates/etas_effects/src/infer/default_handlers.rs:26-41 | the handler of the action is extended, or a new one is inserted in order; a change is reported exactly when there is one |
| `SummaryFacts.JoinSupport` | crates/etas_effects/src/infer/domain.rs:1119-1147 | the least support that serves both |
| `Exits.ExitEvidence` | crates/etas_effects/src/infer/outcome.rs:396-440 | after any tree of record, join and stabilize calls a key has an entry exactly when recorded; `handler_free` is `Some(v)` exactly when all records agree on v; the enclosing row is known exactly when all are known without conflicting tails, and is then their union |
| `Exits.EvidenceOrderIndependent` | crates/etas_effects/src/infer/outcome.rs:396-537 | two runs over the same records, in any order, multiplicity and grouping, stabilized anywhere, give each key the same evidence |
| `Exits.OutcomeEvidence` | crates/etas_effects/src/infer/outcome.rs:512-576 | after any tree of record, join and stabilize calls an outcome has an entry exactly when it was recorded, and the entry keeps every recorded word |
| `Exits.OutcomesOfCalls` | crates/etas_effects/src/infer/outcome.rs:472-576 | whatever calls built a summary, stabilizing ones included, its outcomes, gaps and handler gaps are exactly the recorded ones |
| `Exits.WordsOfCalls` | crates/etas_effects/src/infer/outcome.rs:512-576 | whatever calls built a summary, every recorded word of an outcome is a word of its entry |
| `ExitTraces.ExitTracesOfCalls` | crates/etas_effects/src/infer/outcome.rs:512-576 | whatever calls built a summary, an outcome has an entry exactly when recorded; its trace keeps every recorded word and has exactly the recorded letters |
| `ExitTraces.PrefixesOfCalls` | crates/etas_effects/src/infer/outcome.rs:396-576 | the same of each evidence key and the prefix of its entry |
| `ExitTraces.TraceAfterCall` | crates/etas_effects/src/infer/outcome.rs:512-576 | recording offers its trace to its own outcome, joining offers each outcome the other's trace, stabilizing settles each against its old one, and no other call touches a trace |
| `Exits.BuiltCanonical` | crates/etas_effects/src/infer/outcome.rs:512-576 | every summary that calls build is strictly sorted in both lists |
| `SortedLists.EntriesStrictly` | crates/etas_effects/src/infer/outcome.rs:512-537 | through any run of record, join and stabilize calls there is one entry per key, strictly sorted |
| `Exits.JoinExitsCanonical` | crates/etas_effects/src/infer/outcome.rs:523-537 | joining any summary into a canonical one leaves it canonical |
| `Exits.CallableExitSummary.Record` | crates/etas_effects/src/infer/outcome.rs:512-521 | the outcome's trace is joined or a new entry inserted in order, and a change is reported exactly when there is one |
| `Exits.CallableExitSummary.RecordParameterExit` | crates/etas_effects/src/infer/outcome.rs:396-440 | the key's entry is merged or a new entry inserted in order, and a change is reported exactly when there is one |
| `Exits.CallableExitSummary.JoinAssign` | crates/etas_effects/src/infer/outcome.rs:523-537 | both lists are joined entry by entry and both gap sets united; "unchanged" is never wrong, and "changed" is exact when the joined summary is canonical, as all built ones are |
| `Exits.CallableExitSummary.Stabilize` | crates/etas_effects/src/infer/outcome.rs:550-576 | every trace and prefix is stabilized against the one its key had before: repeat-free, at most 32 nodes, no letter and no word lost; keys, evidence and gaps stay |
| `Exits.CallableExitSummary.CallableReturnSources` | crates/etas_effects/src/infer/outcome.rs:472-496 | whatever calls built the summary: known exactly when they recorded no missing return, some return, and sources for each; it is then exactly the union of all recorded sources |
| `Exits.MergeParameterInPlace` | crates/etas_effects/src/infer/outcome.rs:404-428 | the field-by-field update is the evidence merge, and the change flag is exact |
| `SummarySubstitution.EffectSummarySubstitution.MapRow` | crates/etas_effects/src/substitution/mod.rs:247-267 | a row succeeds exactly when its effects and bound tail can be mapped within a defined cost; the result is the closed, variable-free image, and exactly that cost is consumed |
| `SummarySubstitution.EffectSummarySubstitution.MapEffect` | crates/etas_effects/src/substitution/mod.rs:219-246 | an effect succeeds exactly when it has an image and the budget covers it |
| `SummarySubstitution.SubEffect` | crates/etas_effects/src/substitution/mod.rs:219-246 | the budget-threading mapper agrees with the budget-free image: success, value and remaining budget |
| `SubstitutionLaws.ImageGoes` | crates/etas_effects/src/substitution/mod.rs:219-246 | an effect has an image exactly when its types have one, its action has its arguments and it is no variable; the image keeps constructor, tag, action and other arguments and holds the image of each type in its place |
| `SubstitutionLaws.SubEffectGoes` | crates/etas_effects/src/substitution/mod.rs:219-246 | the budgeted mapper returns that effect, and fails exactly without one or without budget |
| `SubstitutionLaws.GoesOnce` | crates/etas_effects/src/substitution/mod.rs:219-246 | substitution has one result |
| `SubstitutionLaws.RowImageGoes` | crates/etas_effects/src/substitution/mod.rs:247-267 | a substituted row is closed and holds exactly the substituted effects of the row and of the row bound to its tail |
| `SubstitutionExact.RowMapsExactly` | crates/etas_effects/src/substitution/mod.rs:247-267 | a row can be substituted exactly when its tail is bound and each of its effects can be |
| `SubstitutionLaws.ComposedRow` | crates/etas_effects/src/substitution/mod.rs:247-267 | substituting twice is substituting once under the composed types |
| `SubstitutionLaws.ComposedTrace` | crates/etas_effects/src/substitution/trace.rs:4-114 | the same of every trace whose actions can be substituted |
| `SummarySubstitution.MapRecGround` | crates/etas_effects/src/substitution/trace.rs:4-114 | a mapped trace acts on no effect variable |
| `SummarySubstitution.EffectSummarySubstitution.MapRequirements` | crates/etas_effects/src/substitution/summary.rs:121-166 | every pattern becomes its ground image, labels and limits kept; success and budget used are exact |
| `SummarySubstitution.EffectSummarySubstitution.MapDefaults` | crates/etas_effects/src/substitution/summary.rs:29-46 | handlers keep their order, actions stay actions, all rows are ground images; success and budget used are exact |
| `SummarySubstitution.EffectSummarySubstitution.MapRequests` | crates/etas_effects/src/substitution/requests.rs:4-71 | action requests, with their type bindings and signatures, and parameter requests become exactly their images; actions stay actions and no excluded effect is a variable; success and budget used are exact |
| `SummarySubstitution.EffectSummarySubstitution.MapExits` | crates/etas_effects/src/substitution/summary.rs:48-117 | exit facts become their images in place, gaps and handler gaps become their images, parameter exits are the images recorded one by one, and every row and trace is ground; success and budget used are exact |
| `SummarySubstitution.EffectSummarySubstitution.MapChecks` | crates/etas_effects/src/substitution/mod.rs:189-212 | residual checks are refused exactly when something is substituted without bindings or one has no image or the budget ends; otherwise they become their images |
| `SummarySubstitution.EffectSummarySubstitution.MapSummary` | crates/etas_effects/src/substitution/summary.rs:7-119 | succeeds exactly when every part can be mapped, residual checks included, and the budget covers a defined cost, and consumes exactly that; the result is the image of the source, with no open tail and no effect variable in any row of it, balanced, determinism and support copied |
| `SubstitutionLaws.MappedSummaryGoes` | crates/etas_effects/src/substitution/summary.rs:7-119 | every part of a mapped summary is the substituted part of the source; everything that holds no type is kept |
| `SubstitutionExact.SummaryMapsExactly` | crates/etas_effects/src/substitution/summary.rs:7-119 | a summary can be mapped exactly when it has a substituted form |
| `SubstitutionLaws.IdentityKeeps` | crates/etas_effects/src/substitution/summary.rs:7-119 | under identity types and no rows a whole summary comes back as it was |
| `SummarySubstitution.EffectSummarySubstitution.Apply` | crates/etas_effects/src/substitution/mod.rs:135-150 | succeeds exactly when the row arguments are closed and name each variable once, every part can be mapped under them and the budget covers it; the summary is then mapped under exactly them |
| `SummarySubstitution.EscapingAgreesExactly` | crates/etas_effects/src/substitution/summary.rs:17-46 | mapping the escaping row directly agrees with recomputing it exactly when whatever the rows bound to the parts' tails add is also there without the lost tails |
| `SummarySubstitution.EscapingAgrees` | crates/etas_effects/src/substitution/summary.rs:17-46 | without conflicting tails the two always agree |
| `SummarySubstitution.MappedEscapingRow` | crates/etas_effects/src/substitution/summary.rs:17-46 | for a balanced source without conflicting tails the mapped escaping row is the image of the source's, although it is recomputed |
| `SummarySubstitution.ConflictingTailsDisagree` | crates/etas_effects/src/effect/row.rs:133-140 | with conflicting tails the second one is lost on the direct path, for every enumeration of effects |
| `StaticString.StaticStringEvaluator.EvaluateString` | crates/etas_hir_analysis/src/static_string.rs:135-231 | the machine terminates whenever the chain settles and returns exactly its value with transforms in reverse, its error, or the cycle at the first repeated query; environment indices stay valid |
| `StaticString.StaticStringEvaluator.ExpandQuery` | crates/etas_hir_analysis/src/static_string.rs:233-384 | one expansion over interned environments is one step of the semantics in which environments are values |
| `StaticLaws.LiteralLaw` | crates/etas_hir_analysis/src/static_string.rs:238-241 | a literal gives its text, and an error under any projection |
| `StaticLaws.FieldLaw` | crates/etas_hir_analysis/src/static_string.rs:275-286 | a field of a base gives what the base gives under the field and the rest, and settles exactly when that does |
| `StaticLaws.RecordLaw` | crates/etas_hir_analysis/src/static_string.rs:242-274 | a record gives what the first field of the name that leads somewhere gives under the rest |
| `StaticLaws.RecordFails` | crates/etas_hir_analysis/src/static_string.rs:242-274 | a record gives an error by itself and under a name that leads nowhere |
| `StaticLaws.PathLaw` | crates/etas_hir_analysis/src/static_string.rs:287-310 | a path gives what its binding or else its initializer gives under the rest of the path; unknown names and paths are errors |
| `StaticLaws.TransformLaw` | crates/etas_hir_analysis/src/static_string.rs:323-346 | a transforming call gives the transform of what its argument gives |
| `StaticLaws.FlowLaw` | crates/etas_hir_analysis/src/static_string.rs:347-382 | a flow call gives what its return expression gives with exactly the parameters bound, each to the caller's argument; an active flow is a cycle, a missing argument an error |
| `StaticLaws.OtherLaw` | crates/etas_hir_analysis/src/static_string.rs:310-383 | any other expression or call is an error |
| `StaticLaws.DependencyAgrees` | crates/etas_hir_analysis/src/static_string.rs:135-231 | whatever chain is followed, a query settles exactly when the one it depends on does, with its outcome transformed |
| `StaticLaws.EvaluatesOnce` | crates/etas_hir_analysis/src/static_string.rs:135-231 | a query has one outcome |
| `StaticString.StaticStringEvaluator.InternEnvironment` | crates/etas_hir_analysis/src/static_string.rs:416-426 | old frames stay, the returned index holds the frame, and no frame is stored twice |
| `StaticString.StaticStringEvaluator.BindParamsByLoop` | crates/etas_hir_analysis/src/static_string.rs:359-373 | parameters are bound to arguments in order, or the first missing argument is reported |
| `StaticString.DeepInjective` | crates/etas_hir_analysis/src/static_string.rs:416-426 | distinct indices stand for distinct environments, so comparing queries by index finds exactly the real repetitions |
| `StaticString.ExpandNatural` | crates/etas_hir_analysis/src/static_string.rs:233-414 | expansion looks at environments only through their frames |
| `StaticString.SettlesExactly` | crates/etas_hir_analysis/src/static_string.rs:135-231 | following a chain settles exactly when the chain ends or repeats |
| `StaticString.DivergingNeverSettles` | crates/etas_hir_analysis/src/static_string.rs:275-310 | `let x = x.f` has a chain that neither ends nor repeats |
| `StaticSettling.DivergesExactly` | crates/etas_hir_analysis/src/static_string.rs:135-231 | for every program, expression and projection, evaluation fails to end exactly when some query of its chain comes back in the same environment under a longer projection, the old one untouched and no transform passed |
| `StaticSettling.RankedSettles` | crates/etas_hir_analysis/src/static_string.rs:135-231 | evaluation ends for every expression and projection of every program on whose dependency cycles records take as many names as projections put |
| `StaticSettling.NoProjectionsSettle` | crates/etas_hir_analysis/src/static_string.rs:135-231 | without field projections evaluation always ends, recursive calls included |
| `StaticSettling.DivergingUnranked` | crates/etas_hir_analysis/src/static_string.rs:275-310 | the diverging program has no such rank |
| `StaticSettling.UndoneSettles` | crates/etas_hir_analysis/src/static_string.rs:255-310 | `let x = { f: x }.f` ends although its cycle passes a projection |
| `StaticSettling.NestedBounded` | crates/etas_hir_analysis/src/static_string.rs:312-384 | calls nest no deeper than there are flows, so finitely many environments arise |
| `Lexer.LexTiles` | crates/etas_syntax/src/lexer.rs:21-269 | the tokens of every valid text are non-empty, contiguous and tile it exactly, end of file last |
| `Lexer.LexLossless` | crates/etas_syntax/src/lexer.rs:21-269 | the token texts, end to end, are the text |
| `Lexer.LexBoundaries` | crates/etas_syntax/src/lexer.rs:31-262 | every token boundary is a character boundary, byte-stepped line comments included, so no slice fails |
| `Lexer.RelexSuffix` | crates/etas_syntax/src/lexer.rs:21-269 | lexing the suffix at any token boundary gives the remaining tokens, shifted |
| `Lexer.NextFits` | crates/etas_syntax/src/lexer.rs:31-254 | every token of well-formed text is non-empty and leaves well-formed text, whatever the character classes |
| `Lexer.ScannerForUtf8` | crates/etas_syntax/src/lexer.rs:21-269 | the lexer is total on valid UTF-8 |
| `Utf8.BoundaryExactly` | crates/etas_syntax/src/lexer.rs:53-67 | in valid UTF-8 an offset starts a valid suffix exactly when it is the end or its byte is not a tail byte |
| `Utf8.DecodeEncoded` | crates/etas_syntax/src/lexer.rs:21-37 | reading an encoded scalar value gives it back, whatever follows |
| `Utf8.EncodeDecoded` | crates/etas_syntax/src/lexer.rs:21-37 | encoding what was read gives the bytes back, so no value has a second form |
| `LexerLoops.LexText` | crates/etas_syntax/src/lexer.rs:21-269 | the lexing loop produces exactly the specified tokens and diagnostics for every valid text |
| `LexerLoops.ScanRun` | crates/etas_syntax/src/lexer.rs:39-51 | the loop stops behind the longest run of class characters |
| `LexerLoops.ScanLine` | crates/etas_syntax/src/lexer.rs:53-67 | the byte loop stops at the first newline or the end |
| `LexerLoops.ScanBlock` | crates/etas_syntax/src/lexer.rs:69-92 | the loop stops at the first comment end or the end |
| `LexerLoops.ScanNumber` | crates/etas_syntax/src/lexer.rs:110-172 | radix prefix, digits, fraction and exponent are taken as specified |
| `LexerLoops.ScanQuoted` | crates/etas_syntax/src/lexer.rs:174-240 | escapes, closing quote, newline and end of text are handled as specified, and termination is reported exactly |
| `LexerLoops.ScanToken` | crates/etas_syntax/src/lexer.rs:31-256 | the branch order selects the specified token |
| `LexerShapes.NextShape` | crates/etas_syntax/src/lexer.rs:31-256 | every token has the shape of its kind: whitespace and names are longest runs, names start as names may, keywords are the table's, line comments hold no newline, block comments end with the first end mark, literals with the first unescaped quote or newline, numbers take all of fraction and exponent exactly when present, two-byte marks win, and a character is unknown only when nothing fits |
| `LexerShapes.NextExactly` | crates/etas_syntax/src/lexer.rs:31-256 | at the start of any valid text exactly one token, with its problem, has the shape of its kind, and it is the one the lexer takes |
| `LexerShapes.Vocabulary` | crates/etas_syntax/src/lexer.rs:110-256 | the digits, radix letters, signs and marks, written out as characters |
| `LexerExact.LexExactly` | crates/etas_syntax/src/lexer.rs:21-269 | the tokens of a valid text are the only ones that tile it with tokens of the right shape |
| `LexerExact.ProblemsExactly` | crates/etas_syntax/src/lexer.rs:21-269 | a problem is reported exactly where a token has it, once, and in the order of the text |
| `LexerShapes.NoMarkPassed` | crates/etas_syntax/src/lexer.rs:69-92 | the walk through a block comment passes no end mark, at a character or inside one |
| `LexerShapes.RunIsLongest` | crates/etas_syntax/src/lexer.rs:39-51 | a scanned run is the longest prefix of class characters |
| `LexerShapes.NumberShape` | crates/etas_syntax/src/lexer.rs:110-172 | an integer is a radix literal or a longest digit run that does not go on; a float is a longest digit run that goes on, with all of its fraction and all of its exponent |
| `LexerShapes.QuotedLiteralShape` | crates/etas_syntax/src/lexer.rs:174-240 | a literal runs up to and with its first unescaped quote or newline, or to the end of the text; it is unreported exactly when that is its own quote |
| `RetainedBody.PartitionPoint` | crates/etas_syntax/src/retained_body.rs:75-79 | on partitioned tokens binary search finds what the linear scan finds |
| `RetainedBody.LexerOutputPartitioned` | crates/etas_syntax/src/retained_body.rs:75-79 | over lexer output both search predicates are monotone |
| `RetainedBody.New` | crates/etas_syntax/src/retained_body.rs:49-157 | the constructor retains, or refuses with the same error, what linear scans over lexer output would |
| `RetainedBody.RetainExactly` | crates/etas_syntax/src/retained_body.rs:49-157 | a body is retained exactly when the program is whole, the selection names a body in its source, and there is a stretch of tokens it keeps within the limits; it is that stretch |
| `RetainedBody.RetainedInOrder` | crates/etas_syntax/src/retained_body.rs:80-148 | what is retained is in order; a trailing handler that ends before its body is refused |
| `RetainedBody.BlockBodyExact` | crates/etas_syntax/src/retained_body.rs:98-148 | an accepted block keeps exactly the tokens strictly between its braces, their text is its content, and both sizes respect the limits |
| `RetainedBody.ExpressionBodyExact` | crates/etas_syntax/src/retained_body.rs:123-123 | an expression body keeps exactly the tokens inside its span |
| `RetainedBody.HandlerBodyExact` | crates/etas_syntax/src/retained_body.rs:80-97 | with a trailing handler exactly the tokens from the body's start to the handler's end are kept |
| `SourceMapping.Validate` | crates/etas_syntax/src/source_mapping.rs:70-111 | accepted exactly when all spans are in the source and in range, the joint node count is within the limit and the depth at most min(max_depth, 64); each error names a limit or span that does fail |
| `SourceMapping.SpanWork.Push` | crates/etas_syntax/src/source_mapping.rs:123-137 | a node is pushed exactly when neither limit is exceeded; the first failure stays |
| `SourceMapping.Relocate` | crates/etas_syntax/src/source_mapping.rs:140-146 | the in-place worklist moves exactly the spans below the root, and the tree becomes the relocated tree |
| `SourceMapping.RelocationKeepsShape` | crates/etas_syntax/src/source_mapping.rs:140-146 | relocation changes only source ids |
| `SourceMapping.RelocationKeepsAcceptance` | crates/etas_syntax/src/relocated_body.rs:57-107 | a forest accepted for its source is accepted for the new source once relocated |
| `SourceMapping.RelocationUndone` | crates/etas_syntax/src/relocated_body.rs:57-107 | relocating back restores the original |
| `SourceMapping.NewRelocatedBody` | crates/etas_syntax/src/relocated_body.rs:57-107 | a body is relocated exactly when it fits and validates; body and handler then differ in source ids only, validate again, and relocate back |
| `ExternalTrace.Lower` | crates/etas_effects/src/external_trace.rs:103-195 | lowering succeeds exactly when depth, choices, actions and targets are sound and the size fits the budget; it keeps the shape and consumes exactly that size |
| `ExternalTrace.LowerExternalActionTrace` | crates/etas_effects/src/external_trace.rs:50-79 | oversized tables and duplicate names are refused; otherwise the result is exactly that of lowering under the name index |
| `ExternalTrace.LowerFlat` | crates/etas_effects/src/external_trace.rs:119-195 | leaves and flat nodes succeed exactly when they resolve and fit |
| `ExternalTrace.IndexOfDistinct` | crates/etas_effects/src/external_trace.rs:59-64 | with distinct names each parameter has its own target |
| `ExternalTrace.LoweredHasNoEmptyChoice` | crates/etas_effects/src/external_trace.rs:135-139 | a lowered trace has no empty choice |
| `ExternalTrace.LoweredHasWord` | crates/etas_effects/src/external_trace.rs:103-195 | every lowered trace means at least one word |
| `ExternalTrace.LoweredMeaning` | crates/etas_effects/src/external_trace.rs:103-195 | the words of a lowered trace are exactly those the metadata speaks of, actions and targets resolved |

## Left out

- Cancellation and interruption checkpoints: only their budget is modelled, not the control that may interrupt.
- Spans and offsets are unbounded naturals: every offset is at most the text length, so texts of 32-bit length never truncate.
- Saturating and checked machine arithmetic on counters: the counters are unbounded naturals guarded by the same limits.
- `EffectSummary::less_equal` and the lattice trait on traces: not inclusion of meanings, so nothing is claimed for it.
- SummaryState.EffectSummary.JoinBranch: requires the joined exits to be in order, which those of every built summary are.
- SummarySubstitution.EffectSummarySubstitution.MapChecks: the substitution inside one reference is a function with an image and a cost, given as a parameter.
- Conformance.CollectPermissionOutcomes: the normal form of an alternative, computed outside the modelled crate, is a parameter whose contract is that it lists the allow patterns.
- Exits.CallableExitSummary.JoinAssign: the change flag is exact only for a canonical joined summary, which every built one is.
- Conformance.VerdictMeansTruth: a violated verdict is only claimed for traces without an empty choice, which every built trace is.
- The product automaton behind the prior-evidence runner: its transition is modelled as the evidence step the runner observes.
- Compilation of lowered alternatives, fingerprints and obligation identities: functions given as parameters.
- Keyword and Unicode character tables: parameters of the lexer; every property holds for all of them.
- The parser and the AST: a retained body sees items, spans and tokens; the span walk sees a tree of optional spans.
- Lowering of one external action with its argument defaults, and metadata limits' numeric values: parameters.
- SourceMapping.Relocate: works on an arena of spans with child indices in place of mutable references into boxed nodes.
- SourceMapping.NewRelocatedBody: relocates the copied body as a value; the in-place walk is SourceMapping.Relocate.
- RetainedBody.New: requires tokens that tile the text, as the lexer produces them.
- StaticString.StaticStringEvaluator.EvaluateString: requires that the chain settles, because the code does not terminate otherwise; DivergesExactly says when that is.
- Memory-size accounting, serialization, display text, frontend caches and sessions: plumbing.
