/**
 * The part of Python's abstract syntax tree the lineage visitors look at.
 * Child lists are kept in the order of the node's fields, because the
 * visitors walk them in that order (`ast.NodeVisitor.generic_visit`).
 */
module PyAst {

  /** `ast.Load`, `ast.Store`, `ast.Del` */
  datatype ExprContext = Load | Store | Del

  datatype Expr =
    | Name(id: string, ctx: ExprContext)
    | Attribute(value: Expr, attr: string, ctx: ExprContext)
    | Subscript(value: Expr, slice: Expr, ctx: ExprContext)
      // `keywords` holds the value of each `keyword` node, in order
    | Call(func: Expr, args: seq<Expr>, keywords: seq<Expr>)
    | BinOp(left: Expr, right: Expr)
    | UnaryOp(operand: Expr)
    | Constant
      // every other expression (tuple, list, lambda, slice, ...), with its child expressions
    | OtherExpr(children: seq<Expr>)

  datatype Stmt =
    | Assign(targets: seq<Expr>, value: Expr)
      // every other statement (expression statement, `for`, `if`, `def`, ...),
      // with its child expressions and statements in field order
    | OtherStmt(children: seq<Node>)

  datatype Node = ExprNode(expr: Expr) | StmtNode(stmt: Stmt)

  /** The names a statement list assigns with a plain `name = ...` target, at any depth. */
  function AssignedNames(body: seq<Stmt>): set<string>
    decreases body
  {
    if |body| == 0 then {}
    else AssignedNames(body[..|body| - 1]) + AssignedNamesOf(body[|body| - 1])
  }

  function AssignedNamesOf(s: Stmt): set<string>
    decreases s
  {
    match s
    case Assign(targets, _) => NameTargets(targets)
    case OtherStmt(children) => AssignedNamesIn(children)
  }

  function AssignedNamesIn(children: seq<Node>): set<string>
    decreases children
  {
    if |children| == 0 then {}
    else
      AssignedNamesIn(children[..|children| - 1]) + AssignedNamesOfNode(children[|children| - 1])
  }

  function AssignedNamesOfNode(n: Node): set<string>
    decreases n
  {
    match n
    case StmtNode(st) => AssignedNamesOf(st)
    case ExprNode(_) => {}
  }

  /** The identifiers of the targets that are bare names. */
  function NameTargets(targets: seq<Expr>): set<string> {
    set i | 0 <= i < |targets| && targets[i].Name? :: targets[i].id
  }
}
