# AutoMLReportGen core, modelled in Dafny

AutoMLReportGen turns a notebook run into an experiment report. It captures the notebook's
namespace and source text and works out which fitted model produced each prediction vector,
metric and plot. It then groups the metrics per model and summarises the runs with a risk
level. This project models that core and proves what it promises:

- **Static lineage resolver** (`LineageGraph`, `LineageBuilder`, `Lineage`, over the syntax
  tree in `PyAst`):
  - the magic-line cleaner;
  - the dependency graph with its `add_assignment` and its breadth-first
    `get_origin_model`;
  - the `NotebookAnalyzer` visitor with its three accumulators;
  - the `PlotCallAnalyzer` with `extract_plot_variable_mapping`;
  - `build_lineage_from_code` and `classify_variables`.
- **Sanity and analysis** (`Sanity`, `Basic`): `missing_prob_for_auc`, `aggregate_risk`,
  `pick_metric` and `build_analysis`.
- **Namespace discovery** (`Variables`): `discover_models_and_data` (both copies),
  `discover_labels` and `extract_predictions`.
- **Session** (`Session`): the logging `Session` class, which updates its namespace and
  parameter dictionaries in place.
- **Utilities** (`Utils`): `human_time` and `normalize_context`.
- **Tracker** (`Tracker`, `AutoMetrics`):
  - the artifact linking, metric harvesting and per-model grouping of `run_experiment`;
  - the `_true`/`_pred` pairing and result-key selection of `_auto_metrics`.

Shared vocabulary lives in three modules:

- `Runtime` models Python values and insertion-ordered dictionaries. A dictionary is a
  sequence of key/value pairs; `Put` is item assignment and keeps an existing key's position;
  `Update` is `dict.update`.
- `Text` holds the string operations: `strip`, `split`, `join`, `startswith`, integer
  rendering and ordering.
- `Wrappers` holds `Option`.

The dynamic probes of the source (`hasattr(v, "predict")`, `hasattr(v, "__len__")`,
`inspect.isclass`, `isinstance`) are tags carried by each runtime value. Code that runs
inside a loop in the source is, for the most part, a method with a loop. It is proved equal
to a specification function, and lemmas state the properties of that function. Four loops
are recursive functions instead: the `for`/`if`/`return` search over the metric names
(`Basic.FirstPresent` and `Basic.PickMetric`, autoreport/analysis/basic.py:12-14), the first
model name occurring in a variable name (`Tracker.FirstMatch`, autoreport/tracker.py:87 and
:96), the filter of sequence-valued names (`AutoMetrics.Sequences`, src/autoreport/tracker.py:36-37) and the
collection of the metric values (`Basic.MetricValues`, autoreport/analysis/basic.py:34-35).

## Model

| member | source | states |
|---|---|---|
| LineageGraph.Assigned | autoreport/capture/lineage.py:27-36 | the node map after one assignment: the target is created when absent; its dependency set becomes old ∪ deps; method and parent are overwritten only by truthy values; every other node is unchanged |
| LineageGraph.AssignedWellFormed | autoreport/capture/lineage.py:30-36 | an assignment whose truthy receiver is among its dependencies keeps every node under its own name, with its recorded receiver among its dependencies |
| LineageGraph.DependencyGraph.constructor | autoreport/capture/lineage.py:24-25 | a new graph has no nodes |
| LineageGraph.DependencyGraph.AddAssignment | autoreport/capture/lineage.py:27-36 | the in-place update leaves the nodes equal to `Assigned` of the old nodes |
| LineageGraph.DependencyGraph.PartitionDeps | autoreport/capture/lineage.py:58-65 | the dependencies split into those that are nodes with a truthy method call and the rest; together they are exactly the dependency set |
| LineageGraph.DependencyGraph.GetOriginModel | autoreport/capture/lineage.py:38-71 | the search terminates on any graph, cycles included; an unknown start name gives None; a qualifying start node answers its own receiver; any answer is the non-empty receiver of a qualifying node (method one of the six model operations) that no other qualifying node is nearer to the start than, counted in dependency steps; None exactly when no reachable node qualifies |
| LineageGraph.Qualifies | autoreport/capture/lineage.py:52-54 | reference definition of the success test on one node: its method is one of the six model operations and its receiver is truthy; `GetOriginModel` and `IsNearestOrigin` are stated with it |
| LineageGraph.NearestOriginOfQualifying | autoreport/capture/lineage.py:49-55 | when the start node itself qualifies, its own receiver is its one nearest origin |
| LineageGraph.NearestOriginThroughChain | autoreport/capture/lineage.py:38-71 | for `z = m2.predict(X); a = m1.predict(z); y = a`, both `m1` and `m2` are origins of `y`, and `m1`, one step nearer, is its only nearest origin |
| LineageGraph.FrontierBound | autoreport/capture/lineage.py:43-69 | during the search, every path from the start to an unvisited node is at least as long as the witness path of the queue's front |
| LineageGraph.FrontIsNearest | autoreport/capture/lineage.py:49-55 | a qualifying node at the front of the queue gives a nearest origin |
| LineageGraph.ExhaustedIsClosed | autoreport/capture/lineage.py:40-71 | once the queue is empty, no dependency edge leaves the visited set, and the start is visited unless it is not a node |
| LineageGraph.SkipKeepsInv | autoreport/capture/lineage.py:43-46 | skipping a visited or unknown name keeps the search invariant |
| LineageGraph.ExpandPaths | autoreport/capture/lineage.py:57-69 | after visiting the front, every queued name still has a path from the start, and queued path lengths stay in level order within one step |
| LineageGraph.ExpandShortest | autoreport/capture/lineage.py:43-47 | a node is visited at its distance from the start: no path to it is shorter than its queued path |
| LineageGraph.ExpandFrontier | autoreport/capture/lineage.py:57-69 | after visiting the front, every unvisited dependency of a visited node is queued at most one step beyond that node |
| LineageGraph.ExpandKeepsInv | autoreport/capture/lineage.py:47-69 | visiting a node that does not qualify and queueing all of its dependencies keeps the search invariant: witness paths in level order, visited nodes at their distance, every unvisited dependency of a visited node queued |
| LineageGraph.OriginIsDependency | autoreport/capture/lineage.py:52-55 | in a graph built by the analyzer, a resolved origin is a dependency of some node the start variable reaches |
| LineageGraph.NoOriginInClosedRegion | autoreport/capture/lineage.py:43-71 | a start name inside a dependency-closed region where nothing qualifies has no origin |
| LineageGraph.CycleHasNoOrigin | autoreport/capture/lineage.py:40-47 | for `a = b; b = a`, the two nodes depend on each other and neither has an origin |
| LineageGraph.PredictCallIsOrigin | autoreport/capture/lineage.py:38-55 | `y_pred = model.predict(X); z = y_pred` resolves both names to `model`, `z` through `y_pred` |
| LineageBuilder.Receiver | autoreport/capture/lineage.py:110-114 | a call contributes a receiver exactly when its callee is an attribute of a bare name |
| LineageBuilder.VisitExprDeps | autoreport/capture/lineage.py:102-125 | visiting an expression adds to the dependencies exactly the names it reads in load context; receivers of method calls count; names under a skipped callee do not |
| LineageBuilder.VisitExpr | autoreport/capture/lineage.py:102-125 | reference definition of one expression visit (`visit_Name`, `visit_Call`, `visit_Subscript`, `generic_visit`) on the three accumulators; its properties are the `VisitExpr…` lemmas below |
| LineageBuilder.VisitAll | autoreport/capture/lineage.py:117-120 | reference definition: the arguments visited in order |
| LineageBuilder.LastCall | autoreport/capture/lineage.py:108-120 | reference definition, independent of the visit: the last method-style call `r.m(...)` reached in visit order (a call before its arguments, arguments before keywords) |
| LineageBuilder.VisitAllDeps | autoreport/capture/lineage.py:117-120 | visiting the arguments and keywords in order adds exactly the names any of them reads |
| LineageBuilder.ReadInAnySnoc | autoreport/capture/lineage.py:117-120 | a name is read by a list of arguments iff it is read by its prefix or by the last argument |
| LineageBuilder.VisitExprHead | autoreport/capture/lineage.py:108-120 | after a visit, the method and parent are exactly those of `LastCall(e)`, the last method-style call reached, so a call inside the arguments overrides the outer one; they are unchanged when there is none |
| LineageBuilder.VisitAllHead | autoreport/capture/lineage.py:117-120 | the same for a list of arguments visited in order: the last call of the last argument holding one wins |
| LineageBuilder.VisitExprTwice | autoreport/capture/lineage.py:122-125 | visiting an expression again changes nothing further |
| LineageBuilder.SubscriptVisitedOnce | autoreport/capture/lineage.py:122-125 | a subscript's value is visited twice and its index once, and the index's names are recorded too; the result equals visiting value then index |
| LineageBuilder.VisitExprConsistent | autoreport/capture/lineage.py:112-114 | a recorded parent is always one of the accumulated dependencies |
| LineageBuilder.VisitAllConsistent | autoreport/capture/lineage.py:117-120 | the same over a list of arguments |
| LineageBuilder.NameTargetsSnoc | autoreport/capture/lineage.py:91-92 | the bare-name targets of a target list grow by the last target when it is a name |
| LineageBuilder.AssignTargetsKeys | autoreport/capture/lineage.py:91-98 | the assignment adds a node for exactly the bare-name targets |
| LineageBuilder.AssignTargets | autoreport/capture/lineage.py:91-98 | reference definition of the target loop of `visit_Assign`: one `add_assignment` per bare-name target, in order, all with the same accumulators; `AssignTargetsKeys` and `AssignTargetsWellFormed` state its effect |
| LineageBuilder.VisitStmtKeys | autoreport/capture/lineage.py:83-100 | visiting a statement adds a node for exactly the names it assigns with a bare-name target, at any depth |
| LineageBuilder.VisitStmt | autoreport/capture/lineage.py:83-100 | reference definition of one statement visit: `visit_Assign` from fresh accumulators, one `add_assignment` per bare-name target, then `generic_visit`; its properties are the `VisitStmt…` lemmas |
| LineageBuilder.VisitStmts | autoreport/capture/lineage.py:83-100 | reference definition: a module body visited statement by statement |
| LineageBuilder.VisitChildrenKeys | autoreport/capture/lineage.py:100 | the same for the children that `generic_visit` walks |
| LineageBuilder.VisitNodeKeys | autoreport/capture/lineage.py:83-100 | the same for one child, whether expression or statement |
| LineageBuilder.VisitStmtsKeys | autoreport/capture/lineage.py:83-100 | the same for a statement list |
| LineageBuilder.AssignTargetsWellFormed | autoreport/capture/lineage.py:91-98 | the `add_assignment` calls of one assignment keep the graph well formed |
| LineageBuilder.VisitStmtWellFormed | autoreport/capture/lineage.py:83-100 | visiting a statement keeps the graph well formed |
| LineageBuilder.VisitChildrenWellFormed | autoreport/capture/lineage.py:100 | the same for the children of a statement |
| LineageBuilder.VisitNodeWellFormed | autoreport/capture/lineage.py:83-100 | the same for one child |
| LineageBuilder.VisitStmtsWellFormed | autoreport/capture/lineage.py:83-100 | the same for a statement list |
| LineageBuilder.VisitStmtIgnoresAcc | autoreport/capture/lineage.py:85-87 | accumulators left over from earlier statements never reach the graph, because every assignment starts fresh |
| LineageBuilder.VisitChildrenIgnoresAcc | autoreport/capture/lineage.py:85-87 | the same for the children of a statement |
| LineageBuilder.VisitNodeIgnoresAcc | autoreport/capture/lineage.py:85-87 | the same for one child |
| LineageBuilder.VisitStmtsIgnoresAcc | autoreport/capture/lineage.py:85-87 | the same for a statement list |
| LineageBuilder.MethodCallAssignment | autoreport/capture/lineage.py:83-120 | for `t = r.m(args)`, node t gets the method and parent of the last method-style call of the value (m and r unless a call in the arguments overrides them); its dependencies are its old ones, r, and the names the arguments read |
| LineageBuilder.NestedCallAssignment | autoreport/capture/lineage.py:83-120 | for a new `t = r.m(s.n(x))`, node t is exactly {r, s, x} with method n and parent s: the inner call overwrites the outer one |
| LineageBuilder.BareCallAssignment | autoreport/capture/lineage.py:108-120 | for a new `t = f(args)` with a bare function name, node t gets the method and parent of the last method-style call in the arguments, and none when there is none; its dependencies are exactly the argument names, so f is not among them unless an argument reads it |
| LineageBuilder.NotebookAnalyzer.constructor | autoreport/capture/lineage.py:77-81 | a fresh analyzer: an empty graph and empty accumulators |
| LineageBuilder.NotebookAnalyzer.Visit | autoreport/capture/lineage.py:102-125 | visiting an expression in place updates the accumulators as `VisitExpr` says |
| LineageBuilder.NotebookAnalyzer.VisitCall | autoreport/capture/lineage.py:108-120 | `visit_Call` updates the accumulators as `VisitExpr` says |
| LineageBuilder.NotebookAnalyzer.VisitEach | autoreport/capture/lineage.py:117-120 | visiting arguments in order updates the accumulators as `VisitAll` says |
| LineageBuilder.NotebookAnalyzer.VisitSubscript | autoreport/capture/lineage.py:122-125 | `visit_Subscript` updates the accumulators as `VisitExpr` says |
| LineageBuilder.NotebookAnalyzer.GenericVisit | autoreport/capture/lineage.py:123-125 | `generic_visit` walks the child expressions in field order: value then index on a subscript, callee then arguments then keywords on a call, nothing on a name; on any other node it matches `VisitExpr` |
| LineageBuilder.NotebookAnalyzer.VisitStatement | autoreport/capture/lineage.py:83-100 | visiting a statement updates graph and accumulators as `VisitStmt` says |
| LineageBuilder.NotebookAnalyzer.VisitNodeM | autoreport/capture/lineage.py:83-100 | the same for one child node |
| LineageBuilder.NotebookAnalyzer.VisitModule | autoreport/capture/lineage.py:83-100 | the same for a module body |
| Lineage.DirectiveTestsAgree | autoreport/capture/lineage.py:189-222 | the two cleaners blank the same lines: a line is a directive iff its stripped form starts with `%` or it contains `get_ipython()` |
| Lineage.CleanedLines | autoreport/capture/lineage.py:219-225 | as many lines out as in; each directive line becomes "" and every other line is kept |
| Lineage.CleanSource | autoreport/capture/lineage.py:219-227 | reference definition of the cleaned source: the lines split on newline, directives blanked, rejoined; `CleanSourceLines` proves the line count and every line number are kept |
| Lineage.IsDirective | autoreport/capture/lineage.py:222 | reference definition of the directive test of `build_lineage_from_code` (stripped line starts with `%%` or `%`, or the stripped line holds `get_ipython()`); `DirectiveTestsAgree` relates it to the other cleaner's test |
| Lineage.IsDirectiveRaw | autoreport/capture/lineage.py:189 | reference definition of the directive test of `extract_plot_variable_mapping`, which looks for `get_ipython()` in the raw line; `DirectiveTestsAgree` proves it blanks the same lines |
| Lineage.IsPlotCallee | autoreport/capture/lineage.py:140-146 | reference definition of a plotting call: an attribute `plt.f` or `pyplot.f` with `f` one of the eleven listed functions; `RecordPlotCall` requires it |
| Lineage.CleanSourceLines | autoreport/capture/lineage.py:219-227 | cleaning keeps the line count of the text, so every kept line keeps its line number |
| Lineage.CleanMagics | autoreport/capture/lineage.py:219-227 | splitting, blanking and joining computes exactly `CleanSource` |
| Lineage.BlankDirectives | autoreport/capture/lineage.py:220-225 | the loop over the lines computes exactly `CleanedLines`: directive lines become empty, others are kept |
| Lineage.BuildLineageFromCode | autoreport/capture/lineage.py:216-236 | a syntax error gives an empty graph; otherwise the graph is the visitor's, holds a node for exactly the names assigned with a bare-name target, and is well formed |
| Lineage.NamesOf | autoreport/capture/lineage.py:163-175 | `_collect_names` takes a bare name itself, and nothing from calls, constants or other nodes |
| Lineage.PlotCallsAreListed | autoreport/capture/lineage.py:140-156 | every recorded plot call names one of the eleven listed plotting functions |
| Lineage.PlotCallsAreListedAll | autoreport/capture/lineage.py:140-156 | the same over a list of expressions |
| Lineage.NestedPlotCallCounted | autoreport/capture/lineage.py:148-161 | a plot call nested in another's arguments is recorded too, right after the outer one |
| Lineage.PlotCallsOf | autoreport/capture/lineage.py:135-161 | reference definition: the plot calls of an expression in pre-order, each with the names of its arguments; its properties are `PlotCallsAreListed` and `NestedPlotCallCounted` |
| Lineage.LastArgsAppend | autoreport/capture/lineage.py:150-158 | after two runs of calls, `current_call_args` is that of the second run, starting from the first |
| Lineage.PlotCallAnalyzer.constructor | autoreport/capture/lineage.py:131-133 | a new analyzer has no plot calls and no collected names |
| Lineage.PlotCallAnalyzer.CollectNames | autoreport/capture/lineage.py:163-175 | the in-place collection adds exactly `NamesOf` of the argument and leaves the calls alone |
| Lineage.PlotCallAnalyzer.CollectNamesAll | autoreport/capture/lineage.py:151-154 | the same for all arguments and keyword values |
| Lineage.PlotCallAnalyzer.Visit | autoreport/capture/lineage.py:135-161 | visiting appends the expression's plot calls in pre-order; `current_call_args` ends as the names of the last one |
| Lineage.PlotCallAnalyzer.VisitCall | autoreport/capture/lineage.py:135-161 | a call appends its own plot call (when its callee is a plotting attribute) before those of its callee, arguments and keywords |
| Lineage.PlotCallAnalyzer.RecordPlotCall | autoreport/capture/lineage.py:148-159 | `current_call_args` becomes the names in the arguments and keywords, and one plot call carrying them is appended |
| Lineage.PlotCallAnalyzer.VisitEach | autoreport/capture/lineage.py:161 | the same for a list of children |
| Lineage.PlotCallAnalyzer.VisitStatement | autoreport/capture/lineage.py:161 | visiting a statement appends its plot calls in traversal order |
| Lineage.PlotCallAnalyzer.VisitNodeM | autoreport/capture/lineage.py:161 | the same for one child |
| Lineage.PlotCallAnalyzer.VisitModule | autoreport/capture/lineage.py:196-197 | the same for a module body |
| Lineage.FirstOrigin | autoreport/capture/lineage.py:202-207 | None exactly when no variable of the call has an origin; otherwise a non-empty nearest origin of one of them |
| Lineage.ExtractPlotVariableMapping | autoreport/capture/lineage.py:178-213 | a syntax error gives {}; otherwise the keys are exactly 1..k for the k plot calls in traversal order, and each value is the first origin found or None |
| Lineage.CollectPlotCalls | autoreport/capture/lineage.py:196-197 | a fresh analyzer visiting a module records exactly its plot calls |
| Lineage.MapPlotCalls | autoreport/capture/lineage.py:199-210 | the keys are 1..k, and the entry for key i describes call i |
| Lineage.ClassifyVariables | autoreport/capture/lineage.py:239-267 | every name not starting with `_` is a key, once; a model maps to itself; any other name maps to a nearest origin of it that is a model, and to "ungrouped" only when it has no origin or has a nearest origin that is not a model |
| Lineage.IsModel | autoreport/capture/lineage.py:246-249 | reference definition of a model: the value has `predict`, is not a class, and its name does not start with `_`; the classification lemmas use it as the test a group must pass |
| Lineage.GroupOf | autoreport/capture/lineage.py:246-265 | one name's group: itself for a model; else the nearest origin found when it is a model; else "ungrouped", which needs no origin or a nearest one that is not a model |
| Lineage.ClassifiedUnderModelOrigin | autoreport/capture/lineage.py:261-263 | a non-model name whose nearest origins are all models is grouped under one of them, never "ungrouped" |
| Lineage.ClassificationDetermined | autoreport/capture/lineage.py:255-265 | a name with at most one nearest origin has exactly one classification |
| Lineage.PredictionGroupedUnderModel | autoreport/capture/lineage.py:255-263 | `Xs = scaler.transform(X); y_pred = clf.predict(Xs)` with `clf` a model and `scaler` not: `scaler` is an origin of `y_pred`, yet `y_pred` is classified as "clf" and as nothing else |
| Lineage.ReportedBeforeStep | autoreport/capture/lineage.py:253-255 | each namespace entry adds its name to the reported names unless it starts with `_` |
| Lineage.ReportedBeforeAll | autoreport/capture/lineage.py:253-255 | after the whole namespace, the reported names are every name not starting with `_` |
| Sanity.MissingProbForAuc | autoreport/analysis/sanity.py:14-19 | the finding is always named "missing_prob"; its level is "warn" iff there are exactly two distinct labels and no probabilities, and "ok" otherwise; a message comes only with the warning |
| Sanity.Weight | autoreport/analysis/sanity.py:24-27 | a finding adds at most 2 to the score |
| Sanity.LevelOf | autoreport/analysis/sanity.py:28-32 | the level is one of low/medium/high: "high" iff the score is ≥ 3, "medium" iff it is 1 or 2, "low" iff it is 0 |
| Sanity.AggregateRisk | autoreport/analysis/sanity.py:21-32 | the loop computes the level of the score; the result is always low/medium/high, and an empty list gives "low" |
| Sanity.CountLevelSnoc | autoreport/analysis/sanity.py:23-27 | counting findings of a level is incremental over the list |
| Sanity.HitsPrefix | autoreport/analysis/sanity.py:23-27 | the findings of a level among the first n are the same in the list and in its prefix |
| Sanity.HitsStep | autoreport/analysis/sanity.py:23-27 | one more finding adds one to the count exactly when it has that level |
| Sanity.ScoreCountsLevels | autoreport/analysis/sanity.py:23-27 | the score is the number of "warn" findings plus twice the number of "high" ones; every other level adds nothing |
| Sanity.Score | autoreport/analysis/sanity.py:23-27 | reference definition: the sum of the findings' weights; `ScoreCountsLevels` characterises it |
| Sanity.ScoreAppend | autoreport/analysis/sanity.py:23-27 | the score of a concatenation is the sum of the scores |
| Sanity.AppendNeverLowersRisk | autoreport/analysis/sanity.py:21-32 | appending a finding never lowers the aggregate level |
| Sanity.MissingProbRisk | autoreport/analysis/sanity.py:14-32 | a lone missing-probabilities finding gives "medium" when it warns and "low" otherwise |
| Basic.FirstPresent | autoreport/analysis/basic.py:12-14 | the first candidate that is a key, or None when none is |
| Basic.PickMetric | autoreport/analysis/basic.py:11-15 | the result is a key of the metrics, or "accuracy" for empty metrics; it is the first priority metric present, or the first key in insertion order when none is |
| Basic.PickMetricPrefersRocAuc | autoreport/analysis/basic.py:12-14 | "roc_auc" wins whenever present, and "f1_w" wins when it is present and "roc_auc" is not |
| Basic.MetricValues | autoreport/analysis/basic.py:34-35 | `{k: v.value}` keeps every key in order and takes each metric's value |
| Basic.MetricValuesKeys | autoreport/analysis/basic.py:34-35 | the best and baseline dicts have exactly the keys of the run's metrics |
| Basic.BuildAnalysis | autoreport/analysis/basic.py:17-41 | no runs gives an empty result; otherwise best is the last run and baseline the second-to-last (or the last); findings are exactly the one missing-probability warning when the best run lacks "roc_auc" and empty otherwise; the risk is then "medium", otherwise "low" |
| Variables.ModelNames | autoreport/capture/variables.py:11 | a name is listed iff its value has `predict` |
| Variables.FirstData | autoreport/capture/variables.py:12-17 | the first name, in namespace order, with a length and no `predict`; None when there is none |
| Variables.FigureKeyInjective | autoreport/capture/variables.py:18 | distinct indices give distinct `figure_N` keys |
| Variables.FigureKey | autoreport/capture/variables.py:18 | reference definition of the key `figure_N`; `FigureKeyInjective` proves distinct indices give distinct keys |
| Variables.DiscoverModelsAndData | autoreport/capture/variables.py:6-21 | one entry per model, in namespace order: entry i is keyed `figure_{i+1}` and holds the i-th model with the shared first data name; no key twice; no model gives an empty mapping. The copy at build/lib/autoreport/capture/variables.py:38-49 has the same body |
| Variables.ScanModels | autoreport/capture/variables.py:11 | the models comprehension yields exactly `ModelNames`, in namespace order |
| Variables.ScanData | autoreport/capture/variables.py:12-17 | the data names are empty exactly when there is no data variable, and otherwise begin with the first one |
| Variables.FigureEntries | autoreport/capture/variables.py:15-20 | entry n is figure_{n+1} paired with the n-th model and the chosen data name |
| Variables.FirstDataSnoc | autoreport/capture/variables.py:12 | the first data name of a longer namespace is that of its prefix when there is one |
| Variables.DataIsNotAModel | autoreport/capture/variables.py:12 | the chosen data name is never a model name |
| Variables.ModelNamesDistinct | autoreport/capture/variables.py:15-20 | each model appears in exactly one entry |
| Variables.LabelSetMembers | build/lib/autoreport/capture/variables.py:10-16 | l is a label iff some key is "y_true_"+l, "y_pred_"+l or "y_prob_"+l |
| Variables.LabelsOf | build/lib/autoreport/capture/variables.py:10-16 | reference definition of the labels one key contributes, one per prefix it starts with; `LabelsOfMembers` states exactly which |
| Variables.LabelSet | build/lib/autoreport/capture/variables.py:10-16 | reference definition of the label set built over the namespace keys; `LabelSetMembers` states its members |
| Variables.LabelsOfMembers | build/lib/autoreport/capture/variables.py:11-16 | the same for one key |
| Variables.Insert | build/lib/autoreport/capture/variables.py:17 | inserting into a strictly sorted list keeps it strictly sorted, and adds exactly the new element |
| Variables.SortStrings | build/lib/autoreport/capture/variables.py:17 | `sorted` of a set: strictly increasing, with exactly the set's elements |
| Variables.DiscoverLabels | build/lib/autoreport/capture/variables.py:7-17 | the result is sorted with no duplicates and holds exactly the labels |
| Variables.ExtractPredictions | build/lib/autoreport/capture/variables.py:20-35 | no key twice; the keys are exactly the labels, in strictly sorted order; no entry is empty; each entry holds kind k only for k in true/pred/prob with "y_{k}_{label}" in the namespace, and holds that value |
| Variables.PredictionName | build/lib/autoreport/capture/variables.py:26 | reference definition of the name `y_{kind}_{lbl}` looked up for each kind; `EntryFor` and `ExtractPredictions` are stated with it |
| Variables.CollectEntry | build/lib/autoreport/capture/variables.py:24-32 | the inner loop builds exactly the entry described above |
| Variables.EntryStep | build/lib/autoreport/capture/variables.py:27-31 | looking up one more kind keeps the entry exact for the kinds seen so far |
| Variables.EntryStepFound | build/lib/autoreport/capture/variables.py:29-31 | storing a found vector under its kind keeps the keys distinct and the entry exact |
| Variables.LabelHasEntry | build/lib/autoreport/capture/variables.py:27-34 | every discovered label has at least one of its three names in the namespace, so its entry is never empty |
| Session.Logged | build/lib/autoreport/session.py:13-17 | logging into a namespace with no key twice leaves no key twice |
| Session.LoggedKeys | build/lib/autoreport/session.py:13-17 | after logging, a key is present exactly when it was before or it is y_true_label, y_pred_label, or y_prob_label when probabilities are given |
| Session.LoggedGet | build/lib/autoreport/session.py:13-17 | y_true_label and y_pred_label hold the given vectors; y_prob_label is written only when probabilities are given; every other key is unchanged |
| Session.LoggedLabels | build/lib/autoreport/session.py:13-17 | after logging under label l, the discovered labels are the old ones plus l |
| Session.LoggedLabel | build/lib/autoreport/session.py:13-17 | pointwise: l' is discovered after logging under l exactly when it was before or l' is l |
| Session.PrefixedDiffer | build/lib/autoreport/session.py:14-16 | one prefix with different labels gives different keys |
| Session.PrefixesDiffer | build/lib/autoreport/session.py:14-16 | keys with two different prefixes never coincide |
| Session.Session.constructor | build/lib/autoreport/session.py:8-11 | a new session has the given name, an empty namespace and no parameters |
| Session.Session.LogPredictions | build/lib/autoreport/session.py:13-17 | the namespace becomes `Logged` of the old one; name and params are unchanged; no key appears twice |
| Session.Session.LogParams | build/lib/autoreport/session.py:19-20 | params becomes the old params updated by the new ones: new keys win, and old keys not in the new dict stay; the rest is unchanged |
| Session.Session.Finalize | build/lib/autoreport/session.py:22-25 | the experiment runs on the session's namespace under its name, and the returned run carries the session's params |
| Utils.HumanTimeParts | build/lib/autoreport/core/utils.py:15-17 | h·3600 + m·60 + s = n with 0 ≤ m, s < 60 (Python's floor divmod), and h ≥ 0 for n ≥ 0 |
| Utils.HumanTime | build/lib/autoreport/core/utils.py:15-20 | reference definition of `human_time` on `int(seconds)`; `HumanTimeRoundTrip` and `HumanTimeShowsHours` state its properties |
| Utils.HumanTimePartsUnique | build/lib/autoreport/core/utils.py:16-17 | those are the only such parts |
| Utils.DivModUnique | build/lib/autoreport/core/utils.py:16-17 | a quotient and remainder in [0, 60) are those of divmod |
| Utils.ParseIntToString | build/lib/autoreport/core/utils.py:18-20 | a rendered integer parses back, and holds no space |
| Utils.NaturalParses | build/lib/autoreport/core/utils.py:18-20 | the rendering of a natural number parses back to it |
| Utils.NegativeParses | build/lib/autoreport/core/utils.py:18-20 | a minus sign followed by a positive number's digits parses back to the negative number |
| Utils.ParseFieldOf | build/lib/autoreport/core/utils.py:18-20 | a rendered field "{i}h", "{i}m" or "{i}s" parses back to i |
| Utils.HumanTimeRoundTrip | build/lib/autoreport/core/utils.py:15-20 | the rendering splits on spaces into its fields, and reading them back gives the number of seconds |
| Utils.HumanTimeSplits | build/lib/autoreport/core/utils.py:18-20 | the rendering splits on spaces into exactly its fields |
| Utils.HumanTimeParses | build/lib/autoreport/core/utils.py:15-20 | reading the rendering back gives the number of seconds |
| Utils.ThreeFieldsParse | build/lib/autoreport/core/utils.py:19 | three fields h, m and s read back as h*3600 + m*60 + s |
| Utils.TwoFieldsParse | build/lib/autoreport/core/utils.py:20 | two fields m and s read back as m*60 + s |
| Utils.HumanTimeJoinsFields | build/lib/autoreport/core/utils.py:18-20 | the rendering is its space-free fields joined by single spaces |
| Utils.RenderJoinsFields | build/lib/autoreport/core/utils.py:18-20 | the same for any parts |
| Utils.Render | build/lib/autoreport/core/utils.py:18-20 | reference definition of the two f-strings of `human_time`; `RenderJoinsFields` proves it is its fields joined by single spaces |
| Utils.Spaced | build/lib/autoreport/core/utils.py:18-20 | both format strings are fields joined by single spaces |
| Utils.JoinTwo | build/lib/autoreport/core/utils.py:20 | joining two fields puts one space between them |
| Utils.JoinThree | build/lib/autoreport/core/utils.py:19 | joining three fields puts one space between each pair |
| Utils.FieldHasNoSpace | build/lib/autoreport/core/utils.py:18-20 | a rendered field holds no space |
| Utils.HumanTimeShowsHours | build/lib/autoreport/core/utils.py:18-20 | the rendering has three fields ("{h}h {m}m {s}s") iff the hour part is non-zero, and two ("{m}m {s}s") iff 0 ≤ n < 3600 |
| Utils.NormalizeArtifact | build/lib/autoreport/core/utils.py:26-28 | an artifact is normalised iff it is a dict; anything else raises |
| Utils.NormalizeArtifactSpec | build/lib/autoreport/core/utils.py:26-28 | normalising keeps the keys; only a Path under "path" becomes its posix string, and every other entry is unchanged |
| Utils.NormalizeAll | build/lib/autoreport/core/utils.py:25-28 | the loop succeeds iff every artifact is a dict, and then normalises each one in place |
| Utils.NormalizeWithoutArtifacts | build/lib/autoreport/core/utils.py:22-25 | without "run", or with a run lacking "artifacts", the context is returned untouched |
| Utils.NormalizeChangesOnlyPaths | build/lib/autoreport/core/utils.py:22-28 | the result has the same keys; every key but "run" is unchanged, and the run's artifacts are the normalised ones |
| Utils.NormalizeArtifactIdempotent | build/lib/autoreport/core/utils.py:26-28 | normalising one artifact twice is normalising it once |
| Utils.NormalizeAllIdempotent | build/lib/autoreport/core/utils.py:25-28 | the same for an artifact list |
| Utils.NormalizeAllPointwise | build/lib/autoreport/core/utils.py:25-28 | a list whose artifacts each normalise to rs normalises to rs |
| Utils.NormalizeArtifactsIdempotent | build/lib/autoreport/core/utils.py:25-28 | the same for the artifacts value of the run |
| Utils.DecideNormalized | build/lib/autoreport/core/utils.py:23-24 | a context whose run holds artifacts is always normalised again |
| Utils.NormalizeIdempotent | build/lib/autoreport/core/utils.py:22-28 | `normalize_context` is idempotent |
| Utils.PutPutSame | build/lib/autoreport/core/utils.py:27 | writing the same value twice under one key is writing it once |
| Utils.NormalizeContext | build/lib/autoreport/core/utils.py:22-28 | the method computes exactly `NormalizedContext` |
| Utils.Decide | build/lib/autoreport/core/utils.py:23-24 | reference definition of the guard: untouched without a truthy run holding "artifacts", else normalise or raise |
| Utils.NormalizeArtifacts | build/lib/autoreport/core/utils.py:25-27 | reference definition: the loop over the artifacts value, failing where iteration reaches a non-dict |
| Utils.NormalizedContext | build/lib/autoreport/core/utils.py:22-28 | reference definition of `normalize_context` on values; `NormalizeIdempotent` and `NormalizeChangesOnlyPaths` state its properties |
| Utils.NormalizeList | build/lib/autoreport/core/utils.py:25-28 | the loop over a list of artifacts computes exactly `NormalizeAll`, stopping with None at the first non-dict |
| Tracker.Artifact.constructor | autoreport/tracker.py:65-68 | a new artifact has its name and no meta |
| Tracker.LinkArtifacts | autoreport/tracker.py:65-68 | corrected linking, with `meta` declared: names are unchanged; meta is set to the mapping's entry exactly when the name is a key, and is left as it was otherwise |
| Tracker.LinkRaisesAt | autoreport/tracker.py:65-68 | linking as written: it raises exactly when some artifact's name is a key of the mapping, at the first such artifact |
| Tracker.LinkRaisesOnFirstFigure | autoreport/tracker.py:65-68 | a first artifact named `figure_1` with a mapping whose first key is `figure_1` (any namespace holding a model) makes the linking raise at once |
| Tracker.FirstMatch | autoreport/tracker.py:87-96 | the first model name, in `models_meta` order, that occurs in the variable name; None when none does |
| Tracker.Public | autoreport/tracker.py:74-76 | an entry is kept exactly when its name does not start with "_" |
| Tracker.PublicAppend | autoreport/tracker.py:74-76 | the filter keeps namespace order: it distributes over concatenation |
| Tracker.PrivateNamesIgnored | autoreport/tracker.py:74-76 | names starting with "_" never produce metrics |
| Tracker.AddVariableKeeps | autoreport/tracker.py:77-103 | harvesting one variable never drops a metric key, and never duplicates one |
| Tracker.SubKeys | autoreport/tracker.py:97-101 | the keys a dict of scalars adds: "m/subk" when model m matches, else "k/subk", one per sub-key |
| Tracker.ScalarMetric | autoreport/tracker.py:87-92 | reference definition of the scalar case: key "m/short" when model m matches, else the name |
| Tracker.DictMetrics | autoreport/tracker.py:97-102 | reference definition of the dict-of-scalars case, one metric per sub-key in order |
| Tracker.AddVariable | autoreport/tracker.py:73-103 | reference definition of one namespace entry's contribution; `AddVariableKeeps` states its key invariant |
| Tracker.MetricsOf | autoreport/tracker.py:73-103 | reference definition of the harvest loop over the namespace; `MetricsOfDistinct` and `PrivateNamesIgnored` state its properties |
| Tracker.DictMetricsKeeps | autoreport/tracker.py:94-103 | a dict of scalars adds exactly those keys, and no key twice |
| Tracker.MetricsOfDistinct | autoreport/tracker.py:73-103 | the harvested metrics have no key twice |
| Tracker.HarvestMetrics | autoreport/tracker.py:73-103 | the loop computes exactly `MetricsOf`, with no key twice |
| Tracker.SpreadDict | autoreport/tracker.py:97-102 | the sub-key loop computes exactly `DictMetrics` |
| Tracker.GroupOf | autoreport/tracker.py:107-117 | a key with "/" goes to its prefix before the first "/"; a key without goes to the sole model when there is one, else to "ungrouped" |
| Tracker.Append | autoreport/tracker.py:110-117 | reference definition of `grouped.setdefault(g, []).append(e)`: the entry goes to the end of group `g`, which is created empty when absent |
| Tracker.Grouped | autoreport/tracker.py:106-117 | reference definition of the grouping loop as a fold over the metrics in order; `GroupedMembers` and `GroupedTotal` state its contents and `GroupMetrics` is proved equal to it |
| Tracker.SplitHead | autoreport/tracker.py:109 | the part before the first separator holds none, and the key starts with it followed by the separator |
| Tracker.Members | autoreport/tracker.py:107-117 | a group holds exactly the entries of the metrics assigned to it |
| Tracker.GroupedMembers | autoreport/tracker.py:106-117 | `setdefault(...).append` leaves each group equal to its members, and absent when it has none |
| Tracker.TotalPut | autoreport/tracker.py:110-117 | replacing one group changes the entry count by its size difference |
| Tracker.GroupedTotal | autoreport/tracker.py:106-117 | every metric lands in exactly one group: the total count is preserved |
| Tracker.GroupMetrics | autoreport/tracker.py:105-117 | the loop computes exactly `Grouped`, the total equals the number of metrics, and each group holds exactly its members |
| Tracker.ScalarGroup | autoreport/tracker.py:86-117 | a scalar whose first matching model m has no "/" lands in group m; with no match and no "/" in its name it goes to the sole model or "ungrouped" |
| Tracker.SplitHeadIs | autoreport/tracker.py:109 | splitting "m/rest" gives m first when m holds no "/" |
| AutoMetrics.Sequences | src/autoreport/tracker.py:36-37 | an entry is kept exactly when its value is a list, tuple, ndarray or Series |
| AutoMetrics.SequencesAppend | src/autoreport/tracker.py:36-37 | the filter keeps namespace order: it distributes over concatenation |
| AutoMetrics.PairsWith | src/autoreport/tracker.py:41 | one pair of x with each later item, in order |
| AutoMetrics.Combinations | src/autoreport/tracker.py:41 | the pairs are exactly (xs[i], xs[j]) with i < j |
| AutoMetrics.IndexPairsMembers | src/autoreport/tracker.py:41 | the index pairs from row lo are exactly the (i, j) with lo ≤ i < j < n |
| AutoMetrics.IndexPairsSorted | src/autoreport/tracker.py:41 | the index pairs come in strictly increasing lexicographic order |
| AutoMetrics.CombinationsIndexed | src/autoreport/tracker.py:41 | pair k of the combinations of xs[lo..] is (xs[i], xs[j]) for the k-th index pair (i, j) |
| AutoMetrics.CombinationsOrder | src/autoreport/tracker.py:41 | `combinations(xs, 2)` lists (xs[i], xs[j]) for i < j in lexicographic order of (i, j), each position pair once |
| AutoMetrics.MatchSpec | src/autoreport/tracker.py:42-45 | a pair forms iff one name ends in "_true", the other in "_pred", and the lengths are equal; the label is the "_true" name minus its last 5 characters, and the true vector comes first |
| AutoMetrics.Match | src/autoreport/tracker.py:42-45 | reference definition of what one combination yields (a label and a (true, pred) pair, or nothing); `MatchSpec` states when and what |
| AutoMetrics.Step | src/autoreport/tracker.py:42-45 | reference definition of one iteration of the combination loop, its two `if`s each writing `found[label]`; `StepIsMatch` proves it records exactly what `Match` yields |
| AutoMetrics.NotBoth | src/autoreport/tracker.py:42-45 | no name ends in both "_true" and "_pred", so at most one branch fires |
| AutoMetrics.LastMatchSpec | src/autoreport/tracker.py:41-45 | the pair kept for a label is the one from some combination matching it with no later combination carrying that label; when none is kept, no combination carries the label |
| AutoMetrics.LastMatchFound | src/autoreport/tracker.py:41-45 | a kept pair comes from a matching combination after which no combination carries the label |
| AutoMetrics.LastHitExtend | src/autoreport/tracker.py:41-45 | a combination that does not carry the label leaves the last match of that label where it was |
| AutoMetrics.LastMatchAbsent | src/autoreport/tracker.py:41-45 | when nothing is kept for a label, no combination carries it |
| AutoMetrics.StepIsMatch | src/autoreport/tracker.py:42-45 | one step writes the matched label and leaves every other label alone |
| AutoMetrics.FoundIsLastMatch | src/autoreport/tracker.py:40-45 | for every label, `found` holds the last match in combination order: later pairs overwrite earlier ones |
| AutoMetrics.LastMatch | src/autoreport/tracker.py:41-45 | independent reference definition: the pair of the last combination in order whose match carries the label; `LastMatchSpec` states it and `FoundIsLastMatch` ties `Found` to it |
| AutoMetrics.SuffixesSpec | src/autoreport/tracker.py:51-63 | "_mse" and "_r2" iff the true vector's dtype kind is in "ifu" with more than 10 unique values; otherwise "_acc", "_prec", "_rec" and "_f1", plus "_auc" exactly with two unique labels when the score does not raise |
| AutoMetrics.IsRegression | src/autoreport/tracker.py:51 | reference definition of a regression target: dtype kind in "ifu" and more than ten distinct values; `SuffixesSpec` proves it picks the regression metrics exactly |
| AutoMetrics.Suffixes | src/autoreport/tracker.py:51-63 | reference definition of the suffixes one label gets; `SuffixesSpec` characterises them |
| AutoMetrics.ScoreLabelKeys | src/autoreport/tracker.py:51-63 | scoring a label adds exactly the keys that start with the label and continue with one of the suffixes selected for its pair, and keeps the old keys |
| AutoMetrics.RegressionKeys | src/autoreport/tracker.py:51-53 | a regression target adds exactly label_mse and label_r2 |
| AutoMetrics.ClassificationKeys | src/autoreport/tracker.py:55-63 | a classification target adds label_acc, label_prec, label_rec and label_f1, and label_auc exactly with two unique labels when the AUC does not raise |
| AutoMetrics.ClassificationScoresKeys | src/autoreport/tracker.py:56-59 | the four classification scores add exactly their four keys |
| AutoMetrics.RegressionSuffixes | src/autoreport/tracker.py:51-53 | for a regression target, label+selected suffix means label_mse or label_r2 |
| AutoMetrics.ClassificationSuffixes | src/autoreport/tracker.py:55-63 | for a classification target, label+selected suffix means one of the four classification keys, or label_auc when it is scored |
| AutoMetrics.ResultKeys | src/autoreport/tracker.py:47-64 | a key is in the results iff it starts with some found label and the rest is one of the suffixes selected for that label's pair |
| AutoMetrics.ResultKeysAny | src/autoreport/tracker.py:47-64 | the same, with "some found label" as the recursive `AnyKeyOf` |
| AutoMetrics.AnyKeyOfSpec | src/autoreport/tracker.py:47-48 | `AnyKeyOf` holds exactly when some entry of `found` produces the key |
| AutoMetrics.AnyKeyOfFound | src/autoreport/tracker.py:47-48 | when `AnyKeyOf` holds, an entry producing the key exists |
| AutoMetrics.AnyKeyOfAbsent | src/autoreport/tracker.py:47-48 | when `AnyKeyOf` fails, no entry produces the key |
| AutoMetrics.AutoMetricsOf | src/autoreport/tracker.py:35-64 | `_auto_metrics` computes exactly `Results` of `Found` over the combinations of the sequence values |
| AutoMetrics.FoundLoop | src/autoreport/tracker.py:40-45 | the pairing loop computes exactly `Found` |
| AutoMetrics.Found | src/autoreport/tracker.py:40-45 | reference definition of the pairing loop over the combinations; `FoundIsLastMatch` states which pair each label keeps |
| AutoMetrics.PutKeepsSequences | src/autoreport/tracker.py:43-45 | `found` only ever holds sequence values |
| AutoMetrics.ScoreLoop | src/autoreport/tracker.py:47-64 | the scoring loop computes exactly `Results` |
| AutoMetrics.Results | src/autoreport/tracker.py:47-64 | reference definition of the scoring loop over `found`; `ResultKeys` states its key set |
| AutoMetrics.ScoreOne | src/autoreport/tracker.py:49-63 | the loop body writes one label's scores exactly as `ScoreLabel`: the regression pair, or the four classification scores and the AUC when it applies, in the source's order |
| AutoMetrics.ScoreLabel | src/autoreport/tracker.py:49-63 | reference definition of one label's writes; `ScoreLabelKeys` states the keys it adds |

## Left out

- `ast.parse` is a parameter of `Lineage.BuildLineageFromCode` and
  `Lineage.ExtractPlotVariableMapping`. It maps the cleaned text to a statement list, or to
  None for a `SyntaxError`. The syntax tree is a small datatype: names, attributes,
  subscripts, calls, binary and unary operators, constants, assignments and other
  statements. Any other node is one opaque variant with children.
- The warning `print` on a syntax error (autoreport/capture/lineage.py:235) is not modelled:
  it is console output.
- `ast.NodeVisitor` dispatch is written out as the visit functions and methods. Only the
  `visit_*` methods the analyzers define are special-cased; every other node goes through
  `generic_visit`.
- Python set iteration order is not fixed by the code. It affects `assigned_from` in
  `get_origin_model` and the plot `variables` in `extract_plot_variable_mapping`. In the model
  the order is chosen freely (`:|`). `LineageGraph.DependencyGraph.GetOriginModel` and
  `Lineage.FirstOrigin` therefore state what holds for every order: the answer is the
  receiver of a nearest qualifying node, and None exactly when none exists.
  `Lineage.FirstOrigin` does not name which variable of a plot is tried first.
- `LineageGraph.DependencyGraph.GetOriginModel` does not capture the two-tier enqueue order
  (autoreport/capture/lineage.py:57-69) in its contract: among equally near qualifying nodes
  it admits every one. The source queues the dependencies that are nodes with a method call
  before the rest, and that settles some ties whatever the set order is. For
  `s = f(a, b); a = p.foo(q); b = g(r); q = m1.predict(X); r = m2.predict(X)` the source
  always answers `m1` for `s`, while the contract admits both `m1` and `m2`. The same
  looseness carries over to `Lineage.FirstOrigin`, `Lineage.MapPlotCalls`,
  `Lineage.ExtractPlotVariableMapping`, `Lineage.GroupOf` and `Lineage.ClassifyVariables`:
  after the assignments above, a call `plt.plot(s)` is mapped to `m1` by the source, while the
  contracts of `Lineage.MapPlotCalls` and `Lineage.ExtractPlotVariableMapping` admit `m2` as
  well.
- Floating-point scores are not modelled. The sklearn metrics in `_auto_metrics` are a
  parameter `score`, and whether `roc_auc_score` raises is a parameter `aucRaises`. Metric
  values are opaque reals.
- `AutoMetrics.AutoMetricsOf` treats every scorer other than `roc_auc_score` as total: `score`
  always returns a value. In the source only the `ValueError` of `roc_auc_score` is caught
  (src/autoreport/tracker.py:60-63). `accuracy_score`, `precision_score`, `recall_score`,
  `f1_score`, `mean_squared_error` and `r2_score` can raise, for example on a mix of binary and
  continuous targets (src/autoreport/tracker.py:52-58). Such a raise leaves `_auto_metrics`, and
  `run_experiment` at src/autoreport/tracker.py:89, with an exception and no results. The key
  sets that `AutoMetrics.ResultKeys` and `AutoMetrics.ScoreLabelKeys` promise hold only for runs
  where no such scorer raises.
- `Tracker.ScalarMetric` has no contract of its own: its key naming (autoreport/tracker.py:87-90)
  is stated through `Tracker.ScalarGroup` and `Tracker.HarvestMetrics`.
- `models_meta` is an input of the tracker members: a list of the model names in insertion
  order. The model info built from the namespace is not part of this model.
- The artifact normalisation at the top of `run_experiment`, figure capture, uuid run ids,
  timing and file I/O are not part of this model.
- `_auto_metrics` pairs the `(name, value)` items directly instead of looking names up in
  `vars_`. Since `vars_` has no duplicate names, the two are the same.
- `Utils.HumanTimeParts` takes `int(seconds)` as its input. Truncating a float to an int is
  not modelled.
- `Utils.NormalizeContext` works on values, not in place:
  - an artifact that is not a dict makes the source raise, and the model returns None;
  - artifact dicts mutated before that failure are not visible as partial updates;
  - artifacts held by a value that is not a list, a dict or a string (`Other`) count as not
    iterable.
- `Session.Session.Finalize`: the source sets `run.params = self.params`
  (build/lib/autoreport/session.py:24), so the run shares the session's params dict and a
  later `log_params` shows up in the returned run. The model's `FinalRun` keeps a copy of
  the params as they were at the call.
- `Session.Session.Finalize` takes `run_experiment` as a function parameter. The tracker
  behind it is modelled separately.
- `np.asarray` in `extract_predictions` is the identity, so its `except` branch never
  fires.
- The session object of src/autoreport/session.py (`exec`, locks and a session registry) is
  not part of this model.
- The two identical copies of `discover_models_and_data` are modelled by one member,
  `Variables.DiscoverModelsAndData`.
- The graph's nodes are values in a map, not shared objects. No other code holds a `VarNode`,
  so no aliasing is lost.

## Findings

| source | as written | input that shows it | evidently intended | confidence | as-written member | corrected member |
|---|---|---|---|---|---|---|
| autoreport/tracker.py:65-68 | `art.meta = {...}` assigns a field that the pydantic `Artifact` record (autoreport/core/models.py:17-23) does not declare; pydantic refuses that with a `ValueError`, which nothing catches | a namespace holding one model (so the mapping has `figure_1`) and a captured figure, which the figure manager names `figure_1` (autoreport/capture/figures.py:54-56) | each mapped artifact carries the model and data of its figure | not executed; rests on pydantic rejecting assignment to undeclared fields | Tracker.LinkRaisesOnFirstFigure | Tracker.LinkArtifacts |
