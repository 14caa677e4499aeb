/**
 * The entry points of autoreport/capture/lineage.py: the IPython magic-line
 * cleaner, `build_lineage_from_code`, the plot-call collector with
 * `extract_plot_variable_mapping`, and `classify_variables`.
 *
 * `ast.parse` is a parameter: a function from source text to a statement
 * list, or `None` for a syntax error.
 */
module Lineage {
  import opened Wrappers
  import opened Text
  import opened Runtime
  import opened PyAst
  import opened LineageGraph
  import opened LineageBuilder

  // ----- magic-line cleaning -----

  /** The test of `build_lineage_from_code`: the stripped line starts with `%%` or `%`, or holds `get_ipython()`. */
  predicate IsDirective(line: string) {
    var t := Strip(line, Whitespace);
    StartsWith(t, "%%") || StartsWith(t, "%") || Contains(t, "get_ipython()")
  }

  /** The test of `extract_plot_variable_mapping`: the same, but `get_ipython()` is looked for in the raw line. */
  predicate IsDirectiveRaw(line: string) {
    var t := Strip(line, Whitespace);
    StartsWith(t, "%%") || StartsWith(t, "%") || Contains(line, "get_ipython()")
  }

  /**
   * The two cleaners blank the same lines, and the `%%` test is subsumed by
   * the `%` one: a line is a directive exactly when its stripped form starts
   * with `%` or it contains `get_ipython()`.
   */
  lemma DirectiveTestsAgree(line: string)
    ensures IsDirective(line) <==> IsDirectiveRaw(line)
    ensures IsDirective(line) <==>
      StartsWith(Strip(line, Whitespace), "%") || Contains(line, "get_ipython()")
  {
    StripKeepsOccurrences(line, "get_ipython()", Whitespace);
    var t := Strip(line, Whitespace);
    if StartsWith(t, "%%") {
      assert t[..1] == t[..2][..1];
    }
  }

  /** Each line of the source, blanked when it is a directive. */
  function CleanedLines(lines: seq<string>): (r: seq<string>)
    ensures |r| == |lines|
    ensures forall i :: 0 <= i < |lines| ==> r[i] == if IsDirective(lines[i]) then "" else lines[i]
  {
    if |lines| == 0 then []
    else CleanedLines(lines[..|lines| - 1]) + [if IsDirective(lines[|lines| - 1]) then "" else lines[|lines| - 1]]
  }

  /** The source handed to the parser. */
  function CleanSource(code: string): string {
    Join(CleanedLines(Split(code, '\n')), '\n')
  }

  /**
   * Cleaning keeps the number of lines, so every remaining line keeps its
   * line number: line `i` of the result is empty when line `i` of the input
   * is a directive, and the same line otherwise.
   */
  lemma CleanSourceLines(code: string)
    ensures var lines := Split(code, '\n');
      var out := Split(CleanSource(code), '\n');
      |out| == |lines| &&
      forall i :: 0 <= i < |lines| ==> out[i] == if IsDirective(lines[i]) then "" else lines[i]
  {
    var lines := Split(code, '\n');
    SplitPiecesHaveNoSeparator(code, '\n');
    var cleaned := CleanedLines(lines);
    SplitJoinRoundTrip(cleaned, '\n');
  }

  /** The cleaning loop shared by `build_lineage_from_code` and `extract_plot_variable_mapping`. */
  method CleanMagics(code: string) returns (clean: string)
    ensures clean == CleanSource(code)
  {
    var cleaned := BlankDirectives(Split(code, '\n'));
    clean := Join(cleaned, '\n');
  }

  /** The loop over the lines: a directive line becomes empty, any other is kept. */
  method BlankDirectives(lines: seq<string>) returns (cleaned: seq<string>)
    ensures cleaned == CleanedLines(lines)
  {
    cleaned := [];
    var i := 0;
    while i < |lines|
      invariant 0 <= i <= |lines|
      invariant cleaned == CleanedLines(lines[..i])
    {
      assert lines[..i + 1][..i] == lines[..i];
      if IsDirective(lines[i]) {
        cleaned := cleaned + [""];
      } else {
        cleaned := cleaned + [lines[i]];
      }
      i := i + 1;
    }
    assert lines[..|lines|] == lines;
  }

  // ----- build_lineage_from_code -----

  /**
   * `build_lineage_from_code`: clean, parse and visit; a syntax error gives
   * an empty graph.  The graph holds a node for exactly the names assigned
   * with a bare-name target, and it is well formed.
   */
  method BuildLineageFromCode(code: string, parse: string -> Option<seq<Stmt>>) returns (g: DependencyGraph)
    ensures fresh(g)
    ensures parse(CleanSource(code)).None? ==> g.nodes == map[]
    ensures parse(CleanSource(code)).Some? ==>
      g.nodes == VisitStmts(parse(CleanSource(code)).value, Initial).nodes &&
      g.nodes.Keys == AssignedNames(parse(CleanSource(code)).value)
    ensures WellFormed(g.nodes)
  {
    var clean := CleanMagics(code);
    var tree := parse(clean);
    if tree.None? {
      g := new DependencyGraph();
      return;
    }
    var analyzer := new NotebookAnalyzer();
    analyzer.VisitModule(tree.value);
    g := analyzer.graph;
    VisitStmtsKeys(tree.value, Initial);
    VisitStmtsWellFormed(tree.value, Initial);
  }

  // ----- plot calls -----

  /** One entry of `plot_calls`: the plotting function and the names its arguments mention. */
  datatype PlotCall = PlotCall(funcName: string, variables: set<string>)

  const PlotModules: set<string> := {"plt", "pyplot"}

  const PlotFunctions: set<string> :=
    {"plot", "scatter", "hist", "bar", "imshow", "contour", "boxplot", "violin", "pie", "fill", "step"}

  /** `plt.f(...)` or `pyplot.f(...)` for one of the listed plotting functions. */
  predicate IsPlotCallee(func: Expr) {
    func.Attribute? && func.value.Name? && func.value.id in PlotModules && func.attr in PlotFunctions
  }

  /** The names `_collect_names` gathers from one argument. */
  function NamesOf(e: Expr): (r: set<string>)
    ensures e.Name? ==> r == {e.id}
    ensures e.Call? || e.Constant? || e.OtherExpr? ==> r == {}
    decreases e
  {
    match e
    case Name(id, _) => {id}
    case Subscript(value, _, _) => NamesOf(value)
    case Attribute(value, _, _) => NamesOf(value)
    case BinOp(left, right) => NamesOf(left) + NamesOf(right)
    case UnaryOp(operand) => NamesOf(operand)
    case _ => {}
  }

  function NamesOfAll(es: seq<Expr>): set<string>
    decreases es
  {
    if |es| == 0 then {} else NamesOfAll(es[..|es| - 1]) + NamesOf(es[|es| - 1])
  }

  /** The plot calls of an expression, in the pre-order `generic_visit` walks (callee, arguments, keywords). */
  function PlotCallsOf(e: Expr): seq<PlotCall>
    decreases e
  {
    match e
    case Name(_, _) => []
    case Attribute(value, _, _) => PlotCallsOf(value)
    case Subscript(value, slice, _) => PlotCallsOf(value) + PlotCallsOf(slice)
    case Call(func, args, keywords) =>
      (if IsPlotCallee(func) then [PlotCall(func.attr, NamesOfAll(args) + NamesOfAll(keywords))] else [])
      + PlotCallsOf(func) + PlotCallsOfAll(args) + PlotCallsOfAll(keywords)
    case BinOp(left, right) => PlotCallsOf(left) + PlotCallsOf(right)
    case UnaryOp(operand) => PlotCallsOf(operand)
    case Constant => []
    case OtherExpr(children) => PlotCallsOfAll(children)
  }

  function PlotCallsOfAll(es: seq<Expr>): seq<PlotCall>
    decreases es
  {
    if |es| == 0 then [] else PlotCallsOfAll(es[..|es| - 1]) + PlotCallsOf(es[|es| - 1])
  }

  function PlotCallsOfStmt(s: Stmt): seq<PlotCall>
    decreases s
  {
    match s
    case Assign(targets, value) => PlotCallsOfAll(targets) + PlotCallsOf(value)
    case OtherStmt(children) => PlotCallsOfChildren(children)
  }

  function PlotCallsOfNode(n: Node): seq<PlotCall>
    decreases n
  {
    match n
    case ExprNode(e) => PlotCallsOf(e)
    case StmtNode(s) => PlotCallsOfStmt(s)
  }

  function PlotCallsOfChildren(cs: seq<Node>): seq<PlotCall>
    decreases cs
  {
    if |cs| == 0 then [] else PlotCallsOfChildren(cs[..|cs| - 1]) + PlotCallsOfNode(cs[|cs| - 1])
  }

  function PlotCallsOfStmts(body: seq<Stmt>): seq<PlotCall>
    decreases body
  {
    if |body| == 0 then [] else PlotCallsOfStmts(body[..|body| - 1]) + PlotCallsOfStmt(body[|body| - 1])
  }

  /** Every recorded plot call names one of the listed plotting functions. */
  lemma {:induction false} PlotCallsAreListed(e: Expr)
    ensures forall i :: 0 <= i < |PlotCallsOf(e)| ==> PlotCallsOf(e)[i].funcName in PlotFunctions
    decreases e
  {
    match e
    case Name(_, _) =>
    case Attribute(value, _, _) => PlotCallsAreListed(value);
    case Subscript(value, slice, _) => PlotCallsAreListed(value); PlotCallsAreListed(slice);
    case Call(func, args, keywords) =>
      PlotCallsAreListed(func); PlotCallsAreListedAll(args); PlotCallsAreListedAll(keywords);
    case BinOp(left, right) => PlotCallsAreListed(left); PlotCallsAreListed(right);
    case UnaryOp(operand) => PlotCallsAreListed(operand);
    case Constant =>
    case OtherExpr(children) => PlotCallsAreListedAll(children);
  }

  lemma {:induction false} PlotCallsAreListedAll(es: seq<Expr>)
    ensures forall i :: 0 <= i < |PlotCallsOfAll(es)| ==> PlotCallsOfAll(es)[i].funcName in PlotFunctions
    decreases es
  {
    if |es| > 0 {
      PlotCallsAreListedAll(es[..|es| - 1]);
      PlotCallsAreListed(es[|es| - 1]);
    }
  }

  /** A call nested in the arguments of a plot call is counted after it. */
  lemma NestedPlotCallCounted(m: string, f: string, inner: Expr)
    requires m in PlotModules && f in PlotFunctions
    ensures var outer := Call(Attribute(Name(m, Load), f, Load), [inner], []);
      PlotCallsOf(outer) == [PlotCall(f, NamesOf(inner))] + PlotCallsOf(inner)
  {
    assert [inner][..0] == [];
    var func := Attribute(Name(m, Load), f, Load);
    assert PlotCallsOf(func) == [];
    assert NamesOfAll([]) == {} && PlotCallsOfAll([]) == [];
    assert NamesOfAll([inner]) == NamesOf(inner);
    assert PlotCallsOfAll([inner]) == PlotCallsOf(inner);
    var outer := Call(func, [inner], []);
    assert IsPlotCallee(func);
    assert PlotCallsOf(outer) == [PlotCall(f, NamesOfAll([inner]) + NamesOfAll([]))]
      + PlotCallsOf(func) + PlotCallsOfAll([inner]) + PlotCallsOfAll([]);
    assert NamesOfAll([inner]) + NamesOfAll([]) == NamesOf(inner);
    assert PlotCallsOf(outer) == [PlotCall(f, NamesOf(inner))] + [] + PlotCallsOf(inner) + [];
    assert [PlotCall(f, NamesOf(inner))] + [] + PlotCallsOf(inner) + [] == [PlotCall(f, NamesOf(inner))] + PlotCallsOf(inner);
  }

  /** `current_call_args` after the calls `calls` were recorded, starting from `prior`. */
  function LastArgs(calls: seq<PlotCall>, prior: set<string>): set<string> {
    if calls == [] then prior else calls[|calls| - 1].variables
  }

  lemma LastArgsAppend(a: seq<PlotCall>, b: seq<PlotCall>, prior: set<string>)
    ensures LastArgs(a + b, prior) == LastArgs(b, LastArgs(a, prior))
  {
    if b == [] {
      assert a + b == a;
    }
  }

  /** `PlotCallAnalyzer`: the calls found so far and the names of the call being collected. */
  class PlotCallAnalyzer {
    var plotCalls: seq<PlotCall>
    var currentCallArgs: set<string>

    constructor()
      ensures plotCalls == [] && currentCallArgs == {}
    {
      plotCalls := [];
      currentCallArgs := {};
    }

    /** `_collect_names`: add the names of one argument to `current_call_args`. */
    method CollectNames(e: Expr)
      modifies this
      ensures currentCallArgs == old(currentCallArgs) + NamesOf(e)
      ensures plotCalls == old(plotCalls)
      decreases e
    {
      match e
      case Name(id, _) => currentCallArgs := currentCallArgs + {id};
      case Subscript(value, _, _) => CollectNames(value);
      case Attribute(value, _, _) => CollectNames(value);
      case BinOp(left, right) =>
        CollectNames(left);
        CollectNames(right);
      case UnaryOp(operand) => CollectNames(operand);
      case _ =>
    }

    method CollectNamesAll(parent: Expr, es: seq<Expr>)
      requires forall i :: 0 <= i < |es| ==> es[i] < parent
      modifies this
      ensures currentCallArgs == old(currentCallArgs) + NamesOfAll(es)
      ensures plotCalls == old(plotCalls)
    {
      var i := 0;
      while i < |es|
        invariant 0 <= i <= |es|
        invariant currentCallArgs == old(currentCallArgs) + NamesOfAll(es[..i])
        invariant plotCalls == old(plotCalls)
      {
        assert es[..i + 1][..i] == es[..i];
        CollectNames(es[i]);
        i := i + 1;
      }
      assert es[..|es|] == es;
    }

    /**
     * `visit` on an expression (`visit_Call` or `generic_visit`): the plot
     * calls of `e` are appended in pre-order, and `current_call_args` ends
     * as the names of the last one, or unchanged when there is none.
     */
    method Visit(e: Expr)
      modifies this
      ensures plotCalls == old(plotCalls) + PlotCallsOf(e)
      ensures currentCallArgs == LastArgs(PlotCallsOf(e), old(currentCallArgs))
      decreases e, 2
    {
      match e
      case Name(_, _) =>
      case Attribute(value, _, _) => Visit(value);
      case Subscript(value, slice, _) =>
        Visit(value);
        Visit(slice);
      case Call(_, _, _) => VisitCall(e);
      case BinOp(left, right) =>
        Visit(left);
        Visit(right);
      case UnaryOp(operand) => Visit(operand);
      case Constant =>
      case OtherExpr(children) => VisitEach(e, children);
    }

    /** `visit_Call`: record the call when it plots, then `generic_visit` (callee, arguments, keywords). */
    method VisitCall(e: Expr)
      requires e.Call?
      modifies this
      ensures plotCalls == old(plotCalls) + PlotCallsOf(e)
      ensures currentCallArgs == LastArgs(PlotCallsOf(e), old(currentCallArgs))
      decreases e, 1
    {
      ghost var start := old(currentCallArgs);
      ghost var own: seq<PlotCall> := [];
      if IsPlotCallee(e.func) {
        RecordPlotCall(e);
        own := [PlotCall(e.func.attr, NamesOfAll(e.args) + NamesOfAll(e.keywords))];
      }
      assert currentCallArgs == LastArgs(own, start);
      Visit(e.func);
      LastArgsAppend(own, PlotCallsOf(e.func), start);
      VisitEach(e, e.args);
      LastArgsAppend(own + PlotCallsOf(e.func), PlotCallsOfAll(e.args), start);
      VisitEach(e, e.keywords);
      LastArgsAppend(own + PlotCallsOf(e.func) + PlotCallsOfAll(e.args), PlotCallsOfAll(e.keywords), start);
      assert PlotCallsOf(e) == own + PlotCallsOf(e.func) + PlotCallsOfAll(e.args) + PlotCallsOfAll(e.keywords);
    }

    /** The recording part of `visit_Call`: the names of the arguments and keywords become a new plot call. */
    method RecordPlotCall(e: Expr)
      requires e.Call? && IsPlotCallee(e.func)
      modifies this
      ensures currentCallArgs == NamesOfAll(e.args) + NamesOfAll(e.keywords)
      ensures plotCalls == old(plotCalls) + [PlotCall(e.func.attr, currentCallArgs)]
    {
      currentCallArgs := {};
      CollectNamesAll(e, e.args);
      CollectNamesAll(e, e.keywords);
      plotCalls := plotCalls + [PlotCall(e.func.attr, currentCallArgs)];
    }

    method VisitEach(parent: Expr, es: seq<Expr>)
      requires forall i :: 0 <= i < |es| ==> es[i] < parent
      modifies this
      ensures plotCalls == old(plotCalls) + PlotCallsOfAll(es)
      ensures currentCallArgs == LastArgs(PlotCallsOfAll(es), old(currentCallArgs))
      decreases parent, 0
    {
      var i := 0;
      while i < |es|
        invariant 0 <= i <= |es|
        invariant plotCalls == old(plotCalls) + PlotCallsOfAll(es[..i])
        invariant currentCallArgs == LastArgs(PlotCallsOfAll(es[..i]), old(currentCallArgs))
      {
        assert es[..i + 1][..i] == es[..i];
        Visit(es[i]);
        LastArgsAppend(PlotCallsOfAll(es[..i]), PlotCallsOf(es[i]), old(currentCallArgs));
        i := i + 1;
      }
      assert es[..|es|] == es;
    }

    /** `generic_visit` on a statement: assignment targets then value, or the children in field order. */
    method VisitStatement(s: Stmt)
      modifies this
      ensures plotCalls == old(plotCalls) + PlotCallsOfStmt(s)
      decreases s
    {
      match s
      case Assign(targets, value) =>
        var i := 0;
        while i < |targets|
          invariant 0 <= i <= |targets|
          invariant plotCalls == old(plotCalls) + PlotCallsOfAll(targets[..i])
        {
          assert targets[..i + 1][..i] == targets[..i];
          Visit(targets[i]);
          i := i + 1;
        }
        assert targets[..|targets|] == targets;
        Visit(value);
      case OtherStmt(children) =>
        var k := 0;
        while k < |children|
          invariant 0 <= k <= |children|
          invariant plotCalls == old(plotCalls) + PlotCallsOfChildren(children[..k])
        {
          assert children[..k + 1][..k] == children[..k];
          VisitNodeM(children[k]);
          k := k + 1;
        }
        assert children[..|children|] == children;
    }

    method VisitNodeM(n: Node)
      modifies this
      ensures plotCalls == old(plotCalls) + PlotCallsOfNode(n)
      decreases n
    {
      match n
      case ExprNode(e) => Visit(e);
      case StmtNode(s) => VisitStatement(s);
    }

    method VisitModule(body: seq<Stmt>)
      modifies this
      ensures plotCalls == old(plotCalls) + PlotCallsOfStmts(body)
    {
      var i := 0;
      while i < |body|
        invariant 0 <= i <= |body|
        invariant plotCalls == old(plotCalls) + PlotCallsOfStmts(body[..i])
      {
        assert body[..i + 1][..i] == body[..i];
        VisitStatement(body[i]);
        i := i + 1;
      }
      assert body[..|body|] == body;
    }
  }

  /**
   * What a plot's entry may be: `None` exactly when none of its variables has
   * an origin, otherwise a non-empty nearest origin of one of them.
   */
  ghost predicate MappedEntry(nodes: Nodes, variables: set<string>, found: Option<string>) {
    (found.None? <==> forall v :: v in variables ==> !HasOrigin(nodes, v)) &&
    (found.Some? ==> found.value != "" && exists v :: v in variables && IsNearestOrigin(nodes, v, found.value))
  }

  /**
   * The inner loop of `extract_plot_variable_mapping`: the origin of the
   * first variable (in the set's iteration order, left open here) that has
   * one.
   */
  method FirstOrigin(graph: DependencyGraph, variables: set<string>) returns (found: Option<string>)
    ensures MappedEntry(graph.nodes, variables, found)
  {
    var rest := variables;
    while rest != {}
      invariant rest <= variables
      invariant forall v :: v in variables - rest ==> !HasOrigin(graph.nodes, v)
      decreases rest
    {
      var v :| v in rest;
      var origin := graph.GetOriginModel(v);
      if Truthy(origin) {
        return origin;
      }
      rest := rest - {v};
    }
    return None;
  }

  /**
   * `extract_plot_variable_mapping`: the plot calls are numbered from 1 in
   * traversal order, and each maps to a model found from one of its
   * variables, or to `None` when none of them has an origin; a syntax error
   * gives an empty mapping.
   */
  method ExtractPlotVariableMapping(code: string, graph: DependencyGraph, parse: string -> Option<seq<Stmt>>)
    returns (mapping: map<int, Option<string>>)
    ensures parse(CleanSource(code)).None? ==> mapping == map[]
    ensures parse(CleanSource(code)).Some? ==>
      MapsPlotCalls(mapping, PlotCallsOfStmts(parse(CleanSource(code)).value), graph.nodes)
  {
    var clean := CleanMagics(code);
    var tree := parse(clean);
    if tree.None? {
      return map[];
    }
    var calls := CollectPlotCalls(tree.value);
    mapping := MapPlotCalls(calls, graph);
  }

  /** A fresh `PlotCallAnalyzer` visiting a module: its `plot_calls`. */
  method CollectPlotCalls(body: seq<Stmt>) returns (calls: seq<PlotCall>)
    ensures calls == PlotCallsOfStmts(body)
  {
    var analyzer := new PlotCallAnalyzer();
    analyzer.VisitModule(body);
    calls := analyzer.plotCalls;
  }

  /** Plot call `i`, counted from 1, is mapped to an origin model of its variables, and nothing else is mapped. */
  ghost predicate MapsPlotCalls(mapping: map<int, Option<string>>, calls: seq<PlotCall>, nodes: Nodes) {
    (forall i :: i in mapping <==> 1 <= i <= |calls|) &&
    forall i :: 1 <= i <= |calls| ==> MappedEntry(nodes, calls[i - 1].variables, mapping[i])
  }

  /** The mapping loop of `extract_plot_variable_mapping`: `enumerate(plot_calls, start=1)`. */
  method MapPlotCalls(calls: seq<PlotCall>, graph: DependencyGraph) returns (mapping: map<int, Option<string>>)
    ensures MapsPlotCalls(mapping, calls, graph.nodes)
  {
    mapping := map[];
    var idx := 1;
    while idx <= |calls|
      invariant 1 <= idx <= |calls| + 1
      invariant forall i :: i in mapping <==> 1 <= i < idx
      invariant forall i :: 1 <= i < idx ==> MappedEntry(graph.nodes, calls[i - 1].variables, mapping[i])
    {
      var modelFound := FirstOrigin(graph, calls[idx - 1].variables);
      mapping := mapping[idx := modelFound];
      idx := idx + 1;
    }
  }

  // ----- classify_variables -----

  /** A model of the namespace: has `predict`, is not a class, and its name does not start with `_`. */
  predicate IsModel(ns: Namespace, k: string) {
    var v := Get(ns, k);
    v.Some? && v.value.hasPredict && !v.value.isClass && !StartsWith(k, "_")
  }

  /** The names `classify_variables` reports: every namespace name not starting with `_`. */
  function Reported(ns: Namespace): set<string> {
    set k | k in KeySet(ns) && !StartsWith(k, "_")
  }

  /**
   * What `classify_variables` may map `k` to: itself when it is a model;
   * otherwise a nearest origin of `k` that is a model, or "ungrouped" when `k`
   * has no origin or the origin search may end on a nearest origin that is not
   * a model (which of several equally near origins it ends on is left open).
   */
  ghost predicate ClassifiedAs(ns: Namespace, nodes: Nodes, k: string, group: string) {
    if IsModel(ns, k) then group == k
    else if !HasOrigin(nodes, k) then group == "ungrouped"
    else
      (IsModel(ns, group) && IsNearestOrigin(nodes, k, group)) ||
      (group == "ungrouped" && exists o :: IsNearestOrigin(nodes, k, o) && !IsModel(ns, o))
  }

  /** When every nearest origin of a name is a model, the name is grouped under one of them, never "ungrouped". */
  lemma ClassifiedUnderModelOrigin(ns: Namespace, nodes: Nodes, k: string, group: string)
    requires !IsModel(ns, k) && HasOrigin(nodes, k)
    requires forall o :: IsNearestOrigin(nodes, k, o) ==> IsModel(ns, o)
    requires ClassifiedAs(ns, nodes, k, group)
    ensures IsModel(ns, group) && IsNearestOrigin(nodes, k, group)
  {
  }

  /**
   * `Xs = scaler.transform(X); y_pred = clf.predict(Xs)` with `clf` a model
   * and `scaler` not one (say, a class object): `y_pred` is grouped under
   * `clf`, its own receiver, and under nothing else, although `scaler` is an
   * origin of it too.
   */
  lemma PredictionGroupedUnderModel(group: string)
    ensures var ns := [("clf", Value(true, false, false, Opaque)), ("scaler", Value(true, true, false, Opaque)),
                       ("y_pred", Value(false, false, true, Opaque))];
      var g := Assigned(Assigned(map[], "Xs", {"scaler", "X"}, Some("transform"), Some("scaler")),
                        "y_pred", {"clf", "Xs"}, Some("predict"), Some("clf"));
      IsOrigin(g, "y_pred", "scaler") && !IsModel(ns, "scaler") &&
      (ClassifiedAs(ns, g, "y_pred", group) <==> group == "clf")
  {
    var ns := [("clf", Value(true, false, false, Opaque)), ("scaler", Value(true, true, false, Opaque)),
               ("y_pred", Value(false, false, true, Opaque))];
    var g := Assigned(Assigned(map[], "Xs", {"scaler", "X"}, Some("transform"), Some("scaler")),
                      "y_pred", {"clf", "Xs"}, Some("predict"), Some("clf"));
    assert Get(ns, "clf") == Some(ns[0].1) && Get(ns, "y_pred") == Some(ns[2].1);
    assert g.Keys == {"Xs", "y_pred"} && g["y_pred"].assignedFrom == {"clf", "Xs"};
    assert "predict" in ModelOps && "transform" in ModelOps && Qualifies(g, "y_pred") && Qualifies(g, "Xs");
    var p := ["y_pred", "Xs"];
    assert p[1..] == ["Xs"];
    assert PathFromTo(g, p, "y_pred", "Xs");
    assert IsOrigin(g, "y_pred", "scaler");
    forall o ensures IsNearestOrigin(g, "y_pred", o) <==> o == "clf" {
      NearestOriginOfQualifying(g, "y_pred", o);
    }
    assert "clf"[..1] != "_" by { assert "clf"[..1][0] == 'c'; }
    assert IsModel(ns, "clf") && !IsModel(ns, "y_pred");
    assert PathFromTo(g, ["y_pred"], "y_pred", "y_pred");
    assert HasOrigin(g, "y_pred");
  }

  /** A name with at most one nearest origin has exactly one classification. */
  lemma ClassificationDetermined(ns: Namespace, nodes: Nodes, k: string, g1: string, g2: string)
    requires forall o1, o2 :: IsNearestOrigin(nodes, k, o1) && IsNearestOrigin(nodes, k, o2) ==> o1 == o2
    requires ClassifiedAs(ns, nodes, k, g1) && ClassifiedAs(ns, nodes, k, g2)
    ensures g1 == g2
  {
  }

  /**
   * `classify_variables`: every name not starting with `_`, in namespace
   * order, mapped to itself when it is a model, to its origin when that
   * origin is a model, and to "ungrouped" otherwise.
   */
  method ClassifyVariables(ns: Namespace, graph: DependencyGraph) returns (mapping: Dict<string>)
    ensures DistinctKeys(mapping)
    ensures KeySet(mapping) == Reported(ns)
    ensures forall k :: k in Reported(ns) ==> Get(mapping, k).Some? && ClassifiedAs(ns, graph.nodes, k, Get(mapping, k).value)
  {
    mapping := [];
    var i := 0;
    while i < |ns|
      invariant 0 <= i <= |ns|
      invariant DistinctKeys(mapping)
      invariant KeySet(mapping) == ReportedBefore(ns, i)
      invariant forall k :: k in KeySet(mapping) ==> Get(mapping, k).Some? && ClassifiedAs(ns, graph.nodes, k, Get(mapping, k).value)
    {
      var varName := ns[i].0;
      ReportedBeforeStep(ns, i);
      if StartsWith(varName, "_") {
        i := i + 1;
        continue;
      }
      var group := GroupOf(ns, graph, varName);
      PutDistinct(mapping, varName, group);
      forall k | k in KeySet(Put(mapping, varName, group))
        ensures Get(Put(mapping, varName, group), k) == if k == varName then Some(group) else Get(mapping, k)
      {
        PutGet(mapping, varName, group, k);
      }
      mapping := Put(mapping, varName, group);
      i := i + 1;
    }
    ReportedBeforeAll(ns);
  }

  /** The names reported among the first `i` entries of the namespace. */
  function ReportedBefore(ns: Namespace, i: int): set<string>
    requires 0 <= i <= |ns|
  {
    set j | 0 <= j < i && !StartsWith(ns[j].0, "_") :: ns[j].0
  }

  lemma ReportedBeforeStep(ns: Namespace, i: int)
    requires 0 <= i < |ns|
    ensures ReportedBefore(ns, i + 1) == ReportedBefore(ns, i) + if StartsWith(ns[i].0, "_") then {} else {ns[i].0}
  {
  }

  lemma ReportedBeforeAll(ns: Namespace)
    ensures ReportedBefore(ns, |ns|) == Reported(ns)
  {
    forall k | k in Reported(ns) ensures k in ReportedBefore(ns, |ns|) {
      var j :| 0 <= j < |ns| && ns[j].0 == k;
    }
  }

  /** The group of one reported name: itself for a model, else its origin when that is a model, else "ungrouped". */
  method GroupOf(ns: Namespace, graph: DependencyGraph, varName: string) returns (group: string)
    ensures ClassifiedAs(ns, graph.nodes, varName, group)
  {
    if IsModel(ns, varName) {
      group := varName;
    } else {
      var origin := graph.GetOriginModel(varName);
      if Truthy(origin) && IsModel(ns, origin.value) {
        group := origin.value;
      } else {
        group := "ungrouped";
      }
    }
  }
}
