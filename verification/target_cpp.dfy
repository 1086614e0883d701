/** The C++ back end of SugarCpp (class `TargetCpp`). Each `Visit` rule
    fills one fixed text template with the renderings of the node's
    children. Here every template is a plain string function of the
    already-rendered children, and the `Render` functions compose them
    bottom-up; the source's double dispatch through `Accept` becomes a
    `match` over the closed node kinds. */
module TargetCpp {
  import opened Text
  import opened Ast

  // ---------------------------------------------------------------------
  // Templates, one per Visit rule
  // ---------------------------------------------------------------------

  /** A body slot behind a four-space line start, between braces on lines
      of their own: `{\n    <body>\n}`. Auto-indentation puts the margin
      after every line break of the body as well. */
  function Braced(body: string): string {
    "{\n" + Margin + Indent(body) + "\n}"
  }

  /** `<list; separator="\n\n">`: declarations separated by a blank line. */
  function RootTemplate(decls: seq<string>): string {
    Join(decls, "\n\n")
  }

  /** `#include <name>`: the name fills the slot, no angle brackets. */
  function IncludeLine(name: string): string {
    "#include " + name
  }

  function IncludeLines(names: seq<string>): (r: seq<string>)
    ensures |r| == |names|
  {
    seq(|names|, i requires 0 <= i < |names| => IncludeLine(names[i]))
  }

  function ImportTemplate(names: seq<string>): string {
    Join(IncludeLines(names), "\n")
  }

  /** `<expr>;` applied to every fragment of a list. */
  function Terminated(frags: seq<string>): (r: seq<string>)
    ensures |r| == |frags|
  {
    seq(|frags|, i requires 0 <= i < |frags| => frags[i] + ";")
  }

  /** The statement list: every fragment terminated, one per line. */
  function BlockTemplate(frags: seq<string>): string {
    Join(Terminated(frags), "\n")
  }

  function StructTemplate(name: string, members: seq<string>): string {
    "struct " + name + " " + Braced(BlockTemplate(members))
  }

  function FuncDefTemplate(ty: string, name: string, args: seq<string>, body: string): string {
    ty + " " + name + "(" + Join(args, ", ") + ") " + Braced(body)
  }

  /** The two templates of the If rule; the presence of `Else` picks one. */
  function IfTemplate(cond: string, body: string, orElse: Option<string>): string {
    match orElse
    case None => "if " + cond + " " + Braced(body)
    case Some(other) => "if " + cond + " " + Braced(body) + " else " + Braced(other)
  }

  function WhileTemplate(cond: string, body: string): string {
    "while " + cond + " " + Braced(body)
  }

  function ForTemplate(start: string, cond: string, next: string, body: string): string {
    "for (" + start + "; " + cond + "; " + next + ") " + Braced(body)
  }

  function AssignTemplate(left: string, right: string): string {
    left + " = " + right
  }

  /** The two templates of the Alloc rule; the presence of an initializer
      picks one. */
  function AllocTemplate(ty: string, name: string, init: Option<string>): string {
    match init
    case Some(x) => ty + " " + name + " = " + x
    case None => ty + " " + name
  }

  function CallTemplate(callee: string, args: seq<string>): string {
    "(" + callee + "(" + Join(args, ", ") + "))"
  }

  function DictTemplate(base: string, index: string): string {
    "(" + base + "[" + index + "])"
  }

  /** `[<expr>]` applied to every dimension of a `new`. */
  function Dimensions(ranges: seq<string>): (r: seq<string>)
    ensures |r| == |ranges|
  {
    seq(|ranges|, i requires 0 <= i < |ranges| => "[" + ranges[i] + "]")
  }

  function NewTemplate(elemType: string, ranges: seq<string>): string {
    "(new " + elemType + Join(Dimensions(ranges), "") + ")"
  }

  function DotTemplate(base: string, member: string): string {
    "(" + base + "." + member + ")"
  }

  function PrefixTemplate(op: string, operand: string): string {
    "(" + op + operand + ")"
  }

  function BinTemplate(left: string, op: string, right: string): string {
    "(" + left + " " + op + " " + right + ")"
  }

  // ---------------------------------------------------------------------
  // Rendering: templates filled bottom-up with the children's renderings
  // ---------------------------------------------------------------------

  /** Renders an expression. Every compound kind is wrapped in its own
      parentheses; a constant is emitted verbatim; an assignment gets no
      parentheses and starts with its left side. */
  function RenderExpr(e: Expr): (r: string)
    ensures IsCompound(e) ==> |r| >= 2 && r[0] == '(' && r[|r| - 1] == ')'
    ensures e.Const? ==> r == e.text
    ensures e.Assign? ==> RenderExpr(e.left) <= r
    decreases e
  {
    match e
    case Assign(l, rhs) => AssignTemplate(RenderExpr(l), RenderExpr(rhs))
    case Alloc(ty, name, init) =>
      AllocTemplate(ty, name, if init.Some? then Some(RenderExpr(init.value)) else None)
    case Call(f, args) => CallTemplate(RenderExpr(f), RenderExprs(args))
    case Dict(b, i) => DictTemplate(RenderExpr(b), RenderExpr(i))
    case New(elem, ranges) => NewTemplate(elem, RenderExprs(ranges))
    case Dot(b, m) => DotTemplate(RenderExpr(b), m)
    case Prefix(op, x) => PrefixTemplate(op, RenderExpr(x))
    case Bin(l, op, rhs) => BinTemplate(RenderExpr(l), op, RenderExpr(rhs))
    case Const(text) => text
  }

  /** Renders a list of expressions element by element, in order. */
  function RenderExprs(es: seq<Expr>): (r: seq<string>)
    ensures |r| == |es|
    decreases es
  {
    seq(|es|, i requires 0 <= i < |es| => RenderExpr(es[i]))
  }

  /** Renders a statement (the `Accept` dispatch of Stmt.cs): each kind
      goes to its own rule, recognisable by the keyword it starts with; a
      control statement ends with the closing brace of its last body, and
      an expression statement is the expression's rendering unchanged. */
  function RenderStmt(s: Stmt): (r: string)
    ensures s.If? ==> "if " <= r
    ensures s.While? ==> "while " <= r
    ensures s.For? ==> "for (" <= r
    ensures !s.ExprStmt? ==> EndsWith(r, "\n}")
    ensures s.ExprStmt? ==> r == RenderExpr(s.expr)
    decreases s
  {
    match s
    case If(c, b, e) =>
      IfTemplate(RenderExpr(c), RenderBlock(b), if e.Some? then Some(RenderBlock(e.value)) else None)
    case While(c, b) => WhileTemplate(RenderExpr(c), RenderBlock(b))
    case For(st, c, n, b) =>
      ForTemplate(RenderExpr(st), RenderExpr(c), RenderExpr(n), RenderBlock(b))
    case ExprStmt(x) => RenderExpr(x)
  }

  /** The renderings of a block's statements, in order. */
  function RenderStmts(b: Block): (r: seq<string>)
    ensures |r| == |b.items|
    decreases b, 0
  {
    seq(|b.items|, i requires 0 <= i < |b.items| => RenderStmt(b.items[i]))
  }

  /** A block renders as the empty text exactly when it has no statements;
      otherwise it starts with its first statement and ends with `;`. */
  function RenderBlock(b: Block): (r: string)
    ensures (r == "") <==> (|b.items| == 0)
    ensures |b.items| > 0 ==> RenderStmt(b.items[0]) + ";" <= r && EndsWith(r, ";")
    decreases b, 1
  {
    BlockTemplateEnds(RenderStmts(b));
    BlockTemplate(RenderStmts(b))
  }

  lemma BlockTemplateEnds(frags: seq<string>)
    ensures (BlockTemplate(frags) == "") <==> (|frags| == 0)
    ensures |frags| > 0 ==> frags[0] + ";" <= BlockTemplate(frags) && EndsWith(BlockTemplate(frags), ";")
  {
    if |frags| > 0 {
      var parts := Terminated(frags);
      var last := |frags| - 1;
      JoinEnds(parts, "\n");
      assert EndsWith(parts[last], ";");
      EndsWithTrans(BlockTemplate(frags), parts[last], ";");
    }
  }

  function RenderDecl(d: Decl): (r: string)
    ensures d.Struct? ==> "struct " <= r
    ensures !d.Import? ==> EndsWith(r, "\n}")
  {
    match d
    case Import(names) => ImportTemplate(names)
    case Struct(name, members) => StructTemplate(name, RenderExprs(members))
    case FuncDef(ty, name, params, body) =>
      FuncDefTemplate(ty, name, RenderExprs(params), RenderBlock(body))
  }

  function RenderDecls(ds: seq<Decl>): (r: seq<string>)
    ensures |r| == |ds|
  {
    seq(|ds|, i requires 0 <= i < |ds| => RenderDecl(ds[i]))
  }

  /** The whole translation unit, as `Compile` returns it for a parsed tree. */
  function Render(root: Root): (r: string)
    ensures |root.decls| == 0 ==> r == ""
    ensures |root.decls| > 0 ==>
      && RenderDecl(root.decls[0]) <= r
      && EndsWith(r, RenderDecl(root.decls[|root.decls| - 1]))
    ensures |root.decls| > 1 ==> var n := |RenderDecl(root.decls[0])|;
      n + 2 <= |r| && r[n..n + 2] == "\n\n"
  {
    RootTemplateEnds(RenderDecls(root.decls));
    RootTemplate(RenderDecls(root.decls))
  }

  lemma RootTemplateEnds(ds: seq<string>)
    ensures |ds| == 0 ==> RootTemplate(ds) == ""
    ensures |ds| > 0 ==> ds[0] <= RootTemplate(ds) && EndsWith(RootTemplate(ds), ds[|ds| - 1])
    ensures |ds| > 1 ==>
      && |ds[0]| + 2 <= |RootTemplate(ds)|
      && RootTemplate(ds)[|ds[0]|..|ds[0]| + 2] == "\n\n"
  {
    if |ds| > 0 {
      JoinEnds(ds, "\n\n");
      JoinAt(ds, "\n\n", 0);
    }
  }
}
