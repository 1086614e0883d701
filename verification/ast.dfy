/** The SugarCpp syntax tree as the C++ back end reads it: a closed set of
    node kinds, each node owning its children. The tree-walker that builds
    it is outside this model; a tree is taken as given. */
module Ast {

  /** An optional child: the source uses `null` for an absent `Else` block
      or an absent initializer. */
  datatype Option<+T> = None | Some(value: T)

  /** Expressions. `Dict` is the source's name for subscript access. */
  datatype Expr =
    | Assign(left: Expr, right: Expr)
    | Alloc(ty: string, name: string, init: Option<Expr>)
    | Call(callee: Expr, args: seq<Expr>)
    | Dict(base: Expr, index: Expr)
    | New(elemType: string, ranges: seq<Expr>)
    | Dot(base: Expr, member: string)
    | Prefix(op: string, operand: Expr)
    | Bin(left: Expr, op: string, right: Expr)
    | Const(text: string)

  /** Statements: the three control statements of Stmt.cs, and an
      expression such as an assignment or a declaration used where a
      statement is expected. */
  datatype Stmt =
    | If(cond: Expr, body: Block, orElse: Option<Block>)
    | While(cond: Expr, body: Block)
    | For(start: Expr, cond: Expr, next: Expr, body: Block)
    | ExprStmt(expr: Expr)

  /** A statement list; its order is the emission order. */
  datatype Block = Block(items: seq<Stmt>)

  /** Top-level declarations. */
  datatype Decl =
    | Import(names: seq<string>)
    | Struct(name: string, members: seq<Expr>)
    | FuncDef(ty: string, name: string, params: seq<Expr>, body: Block)

  datatype Root = Root(decls: seq<Decl>)

  /** The expression kinds whose rendering carries its own parentheses. */
  predicate IsCompound(e: Expr) {
    e.Call? || e.Dict? || e.New? || e.Dot? || e.Prefix? || e.Bin?
  }

  /** Every leaf text of an expression (constant text, type, name, member
      name, operator) satisfies `ok`. */
  predicate ExprLeaves(e: Expr, ok: string -> bool)
    decreases e
  {
    match e
    case Assign(l, r) => ExprLeaves(l, ok) && ExprLeaves(r, ok)
    case Alloc(ty, name, init) => ok(ty) && ok(name) && (init.Some? ==> ExprLeaves(init.value, ok))
    case Call(f, args) => ExprLeaves(f, ok) && forall i :: 0 <= i < |args| ==> ExprLeaves(args[i], ok)
    case Dict(b, i) => ExprLeaves(b, ok) && ExprLeaves(i, ok)
    case New(elem, ranges) => ok(elem) && forall i :: 0 <= i < |ranges| ==> ExprLeaves(ranges[i], ok)
    case Dot(b, m) => ExprLeaves(b, ok) && ok(m)
    case Prefix(op, x) => ok(op) && ExprLeaves(x, ok)
    case Bin(l, op, r) => ExprLeaves(l, ok) && ok(op) && ExprLeaves(r, ok)
    case Const(text) => ok(text)
  }

  predicate StmtLeaves(s: Stmt, ok: string -> bool)
    decreases s
  {
    match s
    case If(c, b, e) => ExprLeaves(c, ok) && BlockLeaves(b, ok) && (e.Some? ==> BlockLeaves(e.value, ok))
    case While(c, b) => ExprLeaves(c, ok) && BlockLeaves(b, ok)
    case For(st, c, n, b) => ExprLeaves(st, ok) && ExprLeaves(c, ok) && ExprLeaves(n, ok) && BlockLeaves(b, ok)
    case ExprStmt(x) => ExprLeaves(x, ok)
  }

  predicate BlockLeaves(b: Block, ok: string -> bool)
    decreases b
  {
    forall i :: 0 <= i < |b.items| ==> StmtLeaves(b.items[i], ok)
  }

  predicate DeclLeaves(d: Decl, ok: string -> bool) {
    match d
    case Import(names) => forall i :: 0 <= i < |names| ==> ok(names[i])
    case Struct(name, members) => ok(name) && forall i :: 0 <= i < |members| ==> ExprLeaves(members[i], ok)
    case FuncDef(ty, name, params, body) =>
      ok(ty) && ok(name) && BlockLeaves(body, ok) && forall i :: 0 <= i < |params| ==> ExprLeaves(params[i], ok)
  }

  predicate RootLeaves(root: Root, ok: string -> bool) {
    forall i :: 0 <= i < |root.decls| ==> DeclLeaves(root.decls[i], ok)
  }
}
