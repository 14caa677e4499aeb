/**
 * The graph builder of autoreport/capture/lineage.py (`NotebookAnalyzer`):
 * a syntax-tree visitor that keeps three accumulators (the names read, the
 * last method name and the last receiver) and registers every assignment to
 * a bare name in a `DependencyGraph`.
 *
 * The functions below say what one visit does to the accumulators and to the
 * graph, in exactly the order `ast.NodeVisitor` walks the tree; the class
 * `NotebookAnalyzer` performs the same visit in place and is proved against
 * them.
 */
module LineageBuilder {
  import opened Wrappers
  import opened PyAst
  import opened LineageGraph

  /** The analyzer's accumulators: `current_deps`, `current_method`, `current_parent`. */
  datatype Acc = Acc(deps: set<string>, methodName: Option<string>, parentName: Option<string>)

  /** The accumulators as `visit_Assign` resets them. */
  const Fresh: Acc := Acc({}, None, None)

  /** The receiver of a call `r.m(...)` whose callee is an attribute of a bare name. */
  function Receiver(func: Expr): (r: Option<string>)
    ensures r.Some? <==> func.Attribute? && func.value.Name?
  {
    if func.Attribute? && func.value.Name? then Some(func.value.id) else None
  }

  /**
   * The head of `visit_Call`: for `r.m(...)` the receiver becomes the parent,
   * `m` the method, and `r` a dependency; any other callee changes nothing
   * and is not visited at all.
   */
  function CallHead(func: Expr, a: Acc): Acc {
    if func.Attribute? && func.value.Name? then
      Acc(a.deps + {func.value.id}, Some(func.attr), Some(func.value.id))
    else a
  }

  /** What visiting one expression does to the accumulators. */
  function VisitExpr(e: Expr, a: Acc): Acc
    decreases e
  {
    match e
    case Name(id, ctx) => if ctx == Load then a.(deps := a.deps + {id}) else a
    case Attribute(value, _, _) => VisitExpr(value, a)
    // `visit_Subscript` visits the value, then `generic_visit` visits value and slice
    case Subscript(value, slice, _) => VisitExpr(slice, VisitExpr(value, VisitExpr(value, a)))
    case Call(func, args, keywords) => VisitAll(keywords, VisitAll(args, CallHead(func, a)))
    case BinOp(left, right) => VisitExpr(right, VisitExpr(left, a))
    case UnaryOp(operand) => VisitExpr(operand, a)
    case Constant => a
    case OtherExpr(children) => VisitAll(children, a)
  }

  /** Visiting a list of expressions in order. */
  function VisitAll(es: seq<Expr>, a: Acc): Acc
    decreases es
  {
    if |es| == 0 then a else VisitExpr(es[|es| - 1], VisitAll(es[..|es| - 1], a))
  }

  // ----- an independent description of what a visit reads and records -----

  /** `x` is read by `e`: a bare name in load context or the receiver of a method call, outside skipped callees. */
  ghost predicate ReadIn(e: Expr, x: string)
    decreases e
  {
    match e
    case Name(id, ctx) => ctx == Load && id == x
    case Attribute(value, _, _) => ReadIn(value, x)
    case Subscript(value, slice, _) => ReadIn(value, x) || ReadIn(slice, x)
    case Call(func, args, keywords) => Receiver(func) == Some(x) || ReadInAny(args, x) || ReadInAny(keywords, x)
    case BinOp(left, right) => ReadIn(left, x) || ReadIn(right, x)
    case UnaryOp(operand) => ReadIn(operand, x)
    case Constant => false
    case OtherExpr(children) => ReadInAny(children, x)
  }

  ghost predicate ReadInAny(es: seq<Expr>, x: string)
    decreases es
  {
    exists i | 0 <= i < |es| :: ReadIn(es[i], x)
  }

  /** A method-style call `r.m(...)`: the method name and the receiver. */
  datatype CallSite = CallSite(methodName: string, receiver: string)

  /** Of two calls met one after the other, the later one, if any. */
  function Later(first: Option<CallSite>, second: Option<CallSite>): Option<CallSite> {
    if second.Some? then second else first
  }

  /**
   * The last method-style call the visitor reaches in `e`, in visit order:
   * a call before its arguments, the arguments before the keyword values,
   * operands left to right; None when `e` holds no such call.
   */
  function LastCall(e: Expr): Option<CallSite>
    decreases e
  {
    match e
    case Name(_, _) => None
    case Attribute(value, _, _) => LastCall(value)
    case Subscript(value, slice, _) => Later(LastCall(value), LastCall(slice))
    case Call(func, args, keywords) =>
      var own := if Receiver(func).Some? then Some(CallSite(func.attr, func.value.id)) else None;
      Later(Later(own, LastCallAll(args)), LastCallAll(keywords))
    case BinOp(left, right) => Later(LastCall(left), LastCall(right))
    case UnaryOp(operand) => LastCall(operand)
    case Constant => None
    case OtherExpr(children) => LastCallAll(children)
  }

  /** The last method-style call reached in a list of expressions visited in order. */
  function LastCallAll(es: seq<Expr>): Option<CallSite>
    decreases es
  {
    if |es| == 0 then None else Later(LastCallAll(es[..|es| - 1]), LastCall(es[|es| - 1]))
  }

  /** The method and receiver part of the accumulators. */
  function Head(a: Acc): (Option<string>, Option<string>) {
    (a.methodName, a.parentName)
  }

  lemma {:induction false} ReadInAnySnoc(es: seq<Expr>, x: string)
    requires |es| > 0
    ensures ReadInAny(es, x) <==> ReadInAny(es[..|es| - 1], x) || ReadIn(es[|es| - 1], x)
  {
    var init := es[..|es| - 1];
    if ReadInAny(es, x) {
      var i :| 0 <= i < |es| && ReadIn(es[i], x);
      if i < |es| - 1 {
        assert init[i] == es[i];
      }
    }
    if ReadInAny(init, x) {
      var i :| 0 <= i < |init| && ReadIn(init[i], x);
      assert es[i] == init[i];
    }
  }

  /**
   * A visit adds to the dependencies exactly the names the expression reads,
   * whatever was accumulated before; names in store context never get in.
   */
  lemma {:induction false} VisitExprDeps(e: Expr, a: Acc, x: string)
    ensures x in VisitExpr(e, a).deps <==> x in a.deps || ReadIn(e, x)
    decreases e
  {
    match e
    case Name(_, _) =>
    case Attribute(value, _, _) => VisitExprDeps(value, a, x);
    case Subscript(value, slice, _) =>
      VisitExprDeps(value, a, x);
      VisitExprDeps(value, VisitExpr(value, a), x);
      VisitExprDeps(slice, VisitExpr(value, VisitExpr(value, a)), x);
    case Call(func, args, keywords) =>
      VisitAllDeps(args, CallHead(func, a), x);
      VisitAllDeps(keywords, VisitAll(args, CallHead(func, a)), x);
    case BinOp(left, right) =>
      VisitExprDeps(left, a, x);
      VisitExprDeps(right, VisitExpr(left, a), x);
    case UnaryOp(operand) => VisitExprDeps(operand, a, x);
    case Constant =>
    case OtherExpr(children) => VisitAllDeps(children, a, x);
  }

  lemma {:induction false} VisitAllDeps(es: seq<Expr>, a: Acc, x: string)
    ensures x in VisitAll(es, a).deps <==> x in a.deps || ReadInAny(es, x)
    decreases es
  {
    if |es| > 0 {
      var init := es[..|es| - 1];
      VisitAllDeps(init, a, x);
      VisitExprDeps(es[|es| - 1], VisitAll(init, a), x);
      ReadInAnySnoc(es, x);
    }
  }

  /** The method and receiver as the call `c` leaves them, or `h` when there is no call. */
  function HeadAfter(c: Option<CallSite>, h: (Option<string>, Option<string>)): (Option<string>, Option<string>) {
    if c.Some? then (Some(c.value.methodName), Some(c.value.receiver)) else h
  }

  /**
   * The method and receiver after a visit are those of the last method-style
   * call reached (a call inside the arguments overrides the outer one),
   * whatever they were before; they are left as they were when `e` holds no
   * such call.
   */
  lemma {:induction false} VisitExprHead(e: Expr, a: Acc)
    ensures Head(VisitExpr(e, a)) == HeadAfter(LastCall(e), Head(a))
    decreases e
  {
    match e
    case Name(_, _) =>
    case Attribute(value, _, _) => VisitExprHead(value, a);
    case Subscript(value, slice, _) =>
      VisitExprHead(value, a);
      VisitExprHead(value, VisitExpr(value, a));
      VisitExprHead(slice, VisitExpr(value, VisitExpr(value, a)));
    case Call(func, args, keywords) =>
      VisitAllHead(args, CallHead(func, a));
      VisitAllHead(keywords, VisitAll(args, CallHead(func, a)));
    case BinOp(left, right) =>
      VisitExprHead(left, a);
      VisitExprHead(right, VisitExpr(left, a));
    case UnaryOp(operand) => VisitExprHead(operand, a);
    case Constant =>
    case OtherExpr(children) => VisitAllHead(children, a);
  }

  lemma {:induction false} VisitAllHead(es: seq<Expr>, a: Acc)
    ensures Head(VisitAll(es, a)) == HeadAfter(LastCallAll(es), Head(a))
    decreases es
  {
    if |es| > 0 {
      var init := es[..|es| - 1];
      VisitAllHead(init, a);
      VisitExprHead(es[|es| - 1], VisitAll(init, a));
    }
  }

  /**
   * Visiting an expression a second time changes nothing, so the value of a
   * subscript, which is visited twice, counts as visited once.
   */
  lemma VisitExprTwice(e: Expr, a: Acc)
    ensures VisitExpr(e, VisitExpr(e, a)) == VisitExpr(e, a)
  {
    var once := VisitExpr(e, a);
    forall x
      ensures x in VisitExpr(e, once).deps <==> x in once.deps
    {
      VisitExprDeps(e, once, x);
      VisitExprDeps(e, a, x);
    }
    VisitExprHead(e, once);
    VisitExprHead(e, a);
  }

  lemma SubscriptVisitedOnce(value: Expr, slice: Expr, ctx: ExprContext, a: Acc)
    ensures VisitExpr(Subscript(value, slice, ctx), a) == VisitExpr(slice, VisitExpr(value, a))
  {
    VisitExprTwice(value, a);
  }

  /** The receiver recorded in the accumulators is always one of the accumulated dependencies. */
  predicate Consistent(a: Acc) {
    a.parentName.Some? ==> a.parentName.value in a.deps
  }

  lemma {:induction false} VisitExprConsistent(e: Expr, a: Acc)
    requires Consistent(a)
    ensures Consistent(VisitExpr(e, a))
    decreases e
  {
    match e
    case Name(_, _) =>
    case Attribute(value, _, _) => VisitExprConsistent(value, a);
    case Subscript(value, slice, _) =>
      VisitExprConsistent(value, a);
      VisitExprConsistent(value, VisitExpr(value, a));
      VisitExprConsistent(slice, VisitExpr(value, VisitExpr(value, a)));
    case Call(func, args, keywords) =>
      VisitAllConsistent(args, CallHead(func, a));
      VisitAllConsistent(keywords, VisitAll(args, CallHead(func, a)));
    case BinOp(left, right) =>
      VisitExprConsistent(left, a);
      VisitExprConsistent(right, VisitExpr(left, a));
    case UnaryOp(operand) => VisitExprConsistent(operand, a);
    case Constant =>
    case OtherExpr(children) => VisitAllConsistent(children, a);
  }

  lemma {:induction false} VisitAllConsistent(es: seq<Expr>, a: Acc)
    requires Consistent(a)
    ensures Consistent(VisitAll(es, a))
    decreases es
  {
    if |es| > 0 {
      VisitAllConsistent(es[..|es| - 1], a);
      VisitExprConsistent(es[|es| - 1], VisitAll(es[..|es| - 1], a));
    }
  }

  // ----- statements -----

  /** The graph's nodes and the analyzer's accumulators. */
  datatype State = State(nodes: Nodes, acc: Acc)

  /** The `add_assignment` calls of `visit_Assign`: one per bare-name target, in order, with the same accumulators. */
  function AssignTargets(nodes: Nodes, targets: seq<Expr>, a: Acc): Nodes
    decreases |targets|
  {
    if |targets| == 0 then nodes
    else
      var before := AssignTargets(nodes, targets[..|targets| - 1], a);
      var t := targets[|targets| - 1];
      if t.Name? then Assigned(before, t.id, a.deps, a.methodName, a.parentName) else before
  }

  /** What visiting one statement does. */
  function VisitStmt(s: Stmt, st: State): State
    decreases s
  {
    match s
    case Assign(targets, value) =>
      var a := VisitExpr(value, Fresh);
      // `generic_visit` then walks the targets and the value once more
      State(AssignTargets(st.nodes, targets, a), VisitExpr(value, VisitAll(targets, a)))
    case OtherStmt(children) => VisitChildren(children, st)
  }

  function VisitNode(n: Node, st: State): State
    decreases n
  {
    match n
    case ExprNode(e) => st.(acc := VisitExpr(e, st.acc))
    case StmtNode(s) => VisitStmt(s, st)
  }

  function VisitChildren(cs: seq<Node>, st: State): State
    decreases cs
  {
    if |cs| == 0 then st else VisitNode(cs[|cs| - 1], VisitChildren(cs[..|cs| - 1], st))
  }

  /** Visiting a module: its statements in order. */
  function VisitStmts(body: seq<Stmt>, st: State): State
    decreases body
  {
    if |body| == 0 then st else VisitStmt(body[|body| - 1], VisitStmts(body[..|body| - 1], st))
  }

  /** The state a fresh analyzer starts in. */
  const Initial: State := State(map[], Fresh)

  lemma {:induction false} NameTargetsSnoc(targets: seq<Expr>)
    requires |targets| > 0
    ensures var t := targets[|targets| - 1];
      NameTargets(targets) == NameTargets(targets[..|targets| - 1]) + (if t.Name? then {t.id} else {})
  {
    var init := targets[..|targets| - 1];
    forall i | 0 <= i < |init| ensures init[i] == targets[i] { }
  }

  lemma {:induction false} AssignTargetsKeys(nodes: Nodes, targets: seq<Expr>, a: Acc)
    ensures AssignTargets(nodes, targets, a).Keys == nodes.Keys + NameTargets(targets)
    decreases |targets|
  {
    if |targets| > 0 {
      AssignTargetsKeys(nodes, targets[..|targets| - 1], a);
      NameTargetsSnoc(targets);
    }
  }

  /** The graph gains a node for exactly the names assigned with a bare-name target, at any depth. */
  lemma {:induction false} VisitStmtKeys(s: Stmt, st: State)
    ensures VisitStmt(s, st).nodes.Keys == st.nodes.Keys + AssignedNamesOf(s)
    decreases s
  {
    match s
    case Assign(targets, value) => AssignTargetsKeys(st.nodes, targets, VisitExpr(value, Fresh));
    case OtherStmt(children) => VisitChildrenKeys(children, st);
  }

  lemma {:induction false} VisitChildrenKeys(cs: seq<Node>, st: State)
    ensures VisitChildren(cs, st).nodes.Keys == st.nodes.Keys + AssignedNamesIn(cs)
    decreases cs
  {
    if |cs| > 0 {
      var before := VisitChildren(cs[..|cs| - 1], st);
      VisitChildrenKeys(cs[..|cs| - 1], st);
      VisitNodeKeys(cs[|cs| - 1], before);
    }
  }

  lemma {:induction false} VisitNodeKeys(n: Node, st: State)
    ensures VisitNode(n, st).nodes.Keys == st.nodes.Keys + AssignedNamesOfNode(n)
    decreases n
  {
    match n
    case ExprNode(_) =>
    case StmtNode(s) => VisitStmtKeys(s, st);
  }

  lemma {:induction false} VisitStmtsKeys(body: seq<Stmt>, st: State)
    ensures VisitStmts(body, st).nodes.Keys == st.nodes.Keys + AssignedNames(body)
    decreases body
  {
    if |body| > 0 {
      VisitStmtsKeys(body[..|body| - 1], st);
      VisitStmtKeys(body[|body| - 1], VisitStmts(body[..|body| - 1], st));
    }
  }

  lemma {:induction false} AssignTargetsWellFormed(nodes: Nodes, targets: seq<Expr>, a: Acc)
    requires WellFormed(nodes) && Consistent(a)
    ensures WellFormed(AssignTargets(nodes, targets, a))
    decreases |targets|
  {
    if |targets| > 0 {
      AssignTargetsWellFormed(nodes, targets[..|targets| - 1], a);
      var t := targets[|targets| - 1];
      if t.Name? {
        AssignedWellFormed(AssignTargets(nodes, targets[..|targets| - 1], a), t.id, a.deps, a.methodName, a.parentName);
      }
    }
  }

  /**
   * Every graph the builder produces is well formed: each node sits under
   * its own name, and a recorded receiver is non-empty and one of the node's
   * dependencies.
   */
  lemma {:induction false} VisitStmtWellFormed(s: Stmt, st: State)
    requires WellFormed(st.nodes)
    ensures WellFormed(VisitStmt(s, st).nodes)
    decreases s
  {
    match s
    case Assign(targets, value) =>
      VisitExprConsistent(value, Fresh);
      AssignTargetsWellFormed(st.nodes, targets, VisitExpr(value, Fresh));
    case OtherStmt(children) => VisitChildrenWellFormed(children, st);
  }

  lemma {:induction false} VisitChildrenWellFormed(cs: seq<Node>, st: State)
    requires WellFormed(st.nodes)
    ensures WellFormed(VisitChildren(cs, st).nodes)
    decreases cs
  {
    if |cs| > 0 {
      var before := VisitChildren(cs[..|cs| - 1], st);
      VisitChildrenWellFormed(cs[..|cs| - 1], st);
      VisitNodeWellFormed(cs[|cs| - 1], before);
    }
  }

  lemma {:induction false} VisitNodeWellFormed(n: Node, st: State)
    requires WellFormed(st.nodes)
    ensures WellFormed(VisitNode(n, st).nodes)
    decreases n
  {
    match n
    case ExprNode(_) =>
    case StmtNode(s) => VisitStmtWellFormed(s, st);
  }

  lemma {:induction false} VisitStmtsWellFormed(body: seq<Stmt>, st: State)
    requires WellFormed(st.nodes)
    ensures WellFormed(VisitStmts(body, st).nodes)
    decreases body
  {
    if |body| > 0 {
      VisitStmtsWellFormed(body[..|body| - 1], st);
      VisitStmtWellFormed(body[|body| - 1], VisitStmts(body[..|body| - 1], st));
    }
  }

  /**
   * The accumulators left over from earlier statements never reach the
   * graph: each assignment starts from fresh accumulators.
   */
  lemma {:induction false} VisitStmtIgnoresAcc(s: Stmt, nodes: Nodes, a: Acc, b: Acc)
    ensures VisitStmt(s, State(nodes, a)).nodes == VisitStmt(s, State(nodes, b)).nodes
    decreases s
  {
    match s
    case Assign(_, _) =>
    case OtherStmt(children) => VisitChildrenIgnoresAcc(children, nodes, a, b);
  }

  lemma {:induction false} VisitChildrenIgnoresAcc(cs: seq<Node>, nodes: Nodes, a: Acc, b: Acc)
    ensures VisitChildren(cs, State(nodes, a)).nodes == VisitChildren(cs, State(nodes, b)).nodes
    decreases cs
  {
    if |cs| > 0 {
      var sa := VisitChildren(cs[..|cs| - 1], State(nodes, a));
      var sb := VisitChildren(cs[..|cs| - 1], State(nodes, b));
      VisitChildrenIgnoresAcc(cs[..|cs| - 1], nodes, a, b);
      assert sa == State(sa.nodes, sa.acc) && sb == State(sa.nodes, sb.acc);
      VisitNodeIgnoresAcc(cs[|cs| - 1], sa.nodes, sa.acc, sb.acc);
    }
  }

  lemma {:induction false} VisitNodeIgnoresAcc(n: Node, nodes: Nodes, a: Acc, b: Acc)
    ensures VisitNode(n, State(nodes, a)).nodes == VisitNode(n, State(nodes, b)).nodes
    decreases n
  {
    match n
    case ExprNode(_) =>
    case StmtNode(s) => VisitStmtIgnoresAcc(s, nodes, a, b);
  }

  lemma {:induction false} VisitStmtsIgnoresAcc(body: seq<Stmt>, nodes: Nodes, a: Acc, b: Acc)
    ensures VisitStmts(body, State(nodes, a)).nodes == VisitStmts(body, State(nodes, b)).nodes
    decreases body
  {
    if |body| > 0 {
      var sa := VisitStmts(body[..|body| - 1], State(nodes, a));
      var sb := VisitStmts(body[..|body| - 1], State(nodes, b));
      VisitStmtsIgnoresAcc(body[..|body| - 1], nodes, a, b);
      assert sa == State(sa.nodes, sa.acc) && sb == State(sa.nodes, sb.acc);
      VisitStmtIgnoresAcc(body[|body| - 1], sa.nodes, sa.acc, sb.acc);
    }
  }

  /**
   * `t = r.m(args)`: the node of `t` gets the dependencies `r` and every name
   * the arguments read, and the method and parent of the last method-style
   * call of the value: `m` and `r` themselves unless a method-style call
   * inside the arguments overrides them.
   */
  lemma MethodCallAssignment(t: string, r: string, m: string, args: seq<Expr>, st: State, x: string)
    requires m != "" && r != ""
    requires LastCallAll(args).Some? ==> LastCallAll(args).value.methodName != "" && LastCallAll(args).value.receiver != ""
    ensures var n := VisitStmt(Assign([Name(t, Store)], Call(Attribute(Name(r, Load), m, Load), args, [])), st).nodes;
      var c := Later(Some(CallSite(m, r)), LastCallAll(args)).value;
      t in n && (t !in st.nodes ==> n[t].name == t) &&
      n[t].methodCall == Some(c.methodName) && n[t].parentObj == Some(c.receiver) &&
      (x in n[t].assignedFrom <==> (t in st.nodes && x in st.nodes[t].assignedFrom) || x == r || ReadInAny(args, x))
  {
    var func := Attribute(Name(r, Load), m, Load);
    var value := Call(func, args, []);
    VisitAllDeps(args, CallHead(func, Fresh), x);
    VisitAllHead(args, CallHead(func, Fresh));
    var a := VisitAll(args, CallHead(func, Fresh));
    assert VisitAll([], a) == a;
    assert VisitExpr(value, Fresh) == a;
    assert [Name(t, Store)][..0] == [];
    assert AssignTargets(st.nodes, [Name(t, Store)], a) == Assigned(st.nodes, t, a.deps, a.methodName, a.parentName);
  }

  /**
   * `t = r.m(s.n(x))`, with `t` new: the inner call is visited last, so node
   * `t` records method `n` and parent `s`, and depends on `r`, `s` and `x`.
   */
  lemma NestedCallAssignment(t: string, r: string, m: string, s: string, n: string, x: string, st: State)
    requires t !in st.nodes
    requires r != "" && m != "" && s != "" && n != ""
    ensures var inner := Call(Attribute(Name(s, Load), n, Load), [Name(x, Load)], []);
      var g := VisitStmt(Assign([Name(t, Store)], Call(Attribute(Name(r, Load), m, Load), [inner], [])), st).nodes;
      t in g && g[t] == VarNode(t, {r, s, x}, Some(n), Some(s))
  {
    var inner := Call(Attribute(Name(s, Load), n, Load), [Name(x, Load)], []);
    var g := VisitStmt(Assign([Name(t, Store)], Call(Attribute(Name(r, Load), m, Load), [inner], [])), st).nodes;
    assert [inner][..0] == [] && [Name(x, Load)][..0] == [];
    assert LastCallAll([Name(x, Load)]) == None;
    assert LastCall(inner) == Some(CallSite(n, s));
    assert LastCallAll([inner]) == Some(CallSite(n, s));
    MethodCallAssignment(t, r, m, [inner], st, x);
    forall y
      ensures y in g[t].assignedFrom <==> y in {r, s, x}
    {
      MethodCallAssignment(t, r, m, [inner], st, y);
      assert [inner][0] == inner && [Name(x, Load)][0] == Name(x, Load);
      assert ReadInAny([Name(x, Load)], y) <==> y == x;
      assert ReadInAny([inner], y) <==> ReadIn(inner, y);
      assert ReadIn(inner, y) <==> y == s || y == x;
    }
  }

  /**
   * `t = f(args)` with a bare function name and `t` new: only the argument
   * names become dependencies, and the method and parent are those of the
   * last method-style call inside the arguments, or none.
   */
  lemma BareCallAssignment(t: string, f: string, args: seq<Expr>, st: State, x: string)
    requires t !in st.nodes
    requires LastCallAll(args).Some? ==> LastCallAll(args).value.methodName != "" && LastCallAll(args).value.receiver != ""
    ensures var n := VisitStmt(Assign([Name(t, Store)], Call(Name(f, Load), args, [])), st).nodes;
      var c := LastCallAll(args);
      t in n &&
      n[t].methodCall == (if c.Some? then Some(c.value.methodName) else None) &&
      n[t].parentObj == (if c.Some? then Some(c.value.receiver) else None) &&
      (x in n[t].assignedFrom <==> ReadInAny(args, x))
  {
    var value := Call(Name(f, Load), args, []);
    VisitAllDeps(args, Fresh, x);
    VisitAllHead(args, Fresh);
    var a := VisitAll(args, Fresh);
    assert CallHead(Name(f, Load), Fresh) == Fresh;
    assert VisitAll([], a) == a;
    assert VisitExpr(value, Fresh) == a;
    assert [Name(t, Store)][..0] == [];
    assert AssignTargets(st.nodes, [Name(t, Store)], a) == Assigned(st.nodes, t, a.deps, a.methodName, a.parentName);
  }

  /** The analyzer object: the graph it fills and its three accumulators. */
  class NotebookAnalyzer {
    const graph: DependencyGraph
    var currentDeps: set<string>
    var currentMethod: Option<string>
    var currentParent: Option<string>

    function Accs(): Acc
      reads this
    {
      Acc(currentDeps, currentMethod, currentParent)
    }

    function Snapshot(): State
      reads this, graph
    {
      State(graph.nodes, Accs())
    }

    constructor()
      ensures Snapshot() == Initial
      ensures fresh(graph)
    {
      graph := new DependencyGraph();
      currentDeps := {};
      currentMethod := None;
      currentParent := None;
    }

    /** `visit` on an expression: dispatch on the node's type. */
    method Visit(e: Expr)
      modifies this
      ensures Accs() == VisitExpr(e, old(Accs()))
      decreases e, 3
    {
      match e
      case Name(id, ctx) =>
        if ctx == Load {
          currentDeps := currentDeps + {id};
        }
      case Subscript(_, _, _) => VisitSubscript(e);
      case Call(_, _, _) => VisitCall(e);
      case _ => GenericVisit(e);
    }

    /** `visit_Call` */
    method VisitCall(e: Expr)
      requires e.Call?
      modifies this
      ensures Accs() == VisitExpr(e, old(Accs()))
      decreases e, 2
    {
      if e.func.Attribute? && e.func.value.Name? {
        currentParent := Some(e.func.value.id);
        currentMethod := Some(e.func.attr);
        currentDeps := currentDeps + {e.func.value.id};
      }
      VisitEach(e, e.args);
      VisitEach(e, e.keywords);
    }

    /** `for child in es: self.visit(child)`, for a list of children of `parent`. */
    method VisitEach(parent: Expr, es: seq<Expr>)
      requires forall i :: 0 <= i < |es| ==> es[i] < parent
      modifies this
      ensures Accs() == VisitAll(es, old(Accs()))
      decreases parent, 0
    {
      var i := 0;
      while i < |es|
        invariant 0 <= i <= |es|
        invariant Accs() == VisitAll(es[..i], old(Accs()))
      {
        Visit(es[i]);
        assert es[..i + 1][..i] == es[..i];
        i := i + 1;
      }
      assert es[..|es|] == es;
    }

    /** `visit_Subscript`: the value, then `generic_visit` (value and slice again). */
    method VisitSubscript(e: Expr)
      requires e.Subscript?
      modifies this
      ensures Accs() == VisitExpr(e, old(Accs()))
      decreases e, 2
    {
      Visit(e.value);
      GenericVisit(e);
    }

    /**
     * `generic_visit` on an expression: every child expression in field
     * order. On a name (whose only child is its context) and on a call (whose
     * callee `visit_Call` never visits) it differs from `visit`.
     */
    method GenericVisit(e: Expr)
      modifies this
      ensures e.Name? ==> Accs() == old(Accs())
      ensures e.Subscript? ==> Accs() == VisitExpr(e.slice, VisitExpr(e.value, old(Accs())))
      ensures e.Call? ==> Accs() == VisitAll(e.keywords, VisitAll(e.args, VisitExpr(e.func, old(Accs()))))
      ensures !e.Subscript? && !e.Call? && !e.Name? ==> Accs() == VisitExpr(e, old(Accs()))
      decreases e, 1
    {
      match e
      case Name(_, _) =>
      case Attribute(value, _, _) => Visit(value);
      case Subscript(value, slice, _) =>
        Visit(value);
        Visit(slice);
      case Call(func, args, keywords) =>
        Visit(func);
        VisitEach(e, args);
        VisitEach(e, keywords);
      case BinOp(left, right) =>
        Visit(left);
        Visit(right);
      case UnaryOp(operand) => Visit(operand);
      case Constant =>
      case OtherExpr(children) => VisitEach(e, children);
    }

    /** `visit` on a statement: `visit_Assign` for assignments, `generic_visit` otherwise. */
    method VisitStatement(s: Stmt)
      modifies this, graph
      ensures Snapshot() == VisitStmt(s, old(Snapshot()))
      decreases s
    {
      match s
      case Assign(targets, value) =>
        currentDeps := {};
        currentMethod := None;
        currentParent := None;
        Visit(value);
        var i := 0;
        while i < |targets|
          invariant 0 <= i <= |targets|
          invariant Accs() == VisitExpr(value, Fresh)
          invariant graph.nodes == AssignTargets(old(graph.nodes), targets[..i], Accs())
        {
          var target := targets[i];
          assert targets[..i + 1][..i] == targets[..i];
          if target.Name? {
            graph.AddAssignment(target.id, currentDeps, currentMethod, currentParent);
          }
          i := i + 1;
        }
        assert targets[..|targets|] == targets;
        var j := 0;
        while j < |targets|
          invariant 0 <= j <= |targets|
          invariant Accs() == VisitAll(targets[..j], VisitExpr(value, Fresh))
          invariant graph.nodes == AssignTargets(old(graph.nodes), targets, VisitExpr(value, Fresh))
        {
          Visit(targets[j]);
          assert targets[..j + 1][..j] == targets[..j];
          j := j + 1;
        }
        Visit(value);
      case OtherStmt(children) =>
        var k := 0;
        while k < |children|
          invariant 0 <= k <= |children|
          invariant Snapshot() == VisitChildren(children[..k], old(Snapshot()))
        {
          assert children[..k + 1][..k] == children[..k];
          VisitNodeM(children[k]);
          k := k + 1;
        }
        assert children[..|children|] == children;
    }

    /** `visit` on a child of a statement: an expression or a nested statement. */
    method VisitNodeM(n: Node)
      modifies this, graph
      ensures Snapshot() == VisitNode(n, old(Snapshot()))
      decreases n
    {
      match n
      case ExprNode(e) => Visit(e);
      case StmtNode(c) => VisitStatement(c);
    }

    /** `visit` on a module: its statements in order. */
    method VisitModule(body: seq<Stmt>)
      modifies this, graph
      ensures Snapshot() == VisitStmts(body, old(Snapshot()))
    {
      var i := 0;
      while i < |body|
        invariant 0 <= i <= |body|
        invariant Snapshot() == VisitStmts(body[..i], old(Snapshot()))
      {
        assert body[..i + 1][..i] == body[..i];
        VisitStatement(body[i]);
        i := i + 1;
      }
      assert body[..|body|] == body;
    }
  }
}
