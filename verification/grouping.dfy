/** Full parenthesisation. The renderer never consults operator
    precedence: every compound expression carries its own pair of
    parentheses. For each of the pairs (), [] and {}: when no leaf text
    (constant, name, type, operator) holds either delimiter of the pair,
    every rendering is balanced for that pair. When no leaf text holds a
    parenthesis, the outer parentheses of a compound expression enclose
    exactly that expression. */
module Grouping {
  import opened Text
  import opened Ast
  import opened TargetCpp
  import opened Delimiters

  /** Leaf texts that hold neither delimiter of the pair `p`. */
  function FreeOf(p: Pair): string -> bool {
    t => Free(t, p)
  }

  lemma Balanced3(a: string, b: string, c: string, p: Pair)
    requires Balanced(a, p) && Balanced(b, p) && Balanced(c, p)
    ensures Balanced(a + b + c, p)
  {
    BalancedAppend(a, b, p);
    BalancedAppend(a + b, c, p);
  }

  /** Wrapping a balanced text in any of the renderer's delimiter pairs
      keeps every pair balanced. */
  lemma Wrap(l: char, x: string, r: char, p: Pair)
    requires ValidPair(p) && Balanced(x, p)
    requires (l, r) == ('(', ')') || (l, r) == ('[', ']') || (l, r) == ('{', '}')
    ensures Balanced([l] + x + [r], p)
  {
    BalancedAround(l, x, r, p);
  }

  // ---------------------------------------------------------------------
  // Each template maps balanced slot values to a balanced text
  // ---------------------------------------------------------------------

  /** The text between the outer parentheses of a compound expression. */
  function Contents(e: Expr): string
    requires IsCompound(e)
  {
    match e
    case Call(f, args) => RenderExpr(f) + ("(" + Join(RenderExprs(args), ", ") + ")")
    case Dict(b, i) => RenderExpr(b) + ("[" + RenderExpr(i) + "]")
    case New(elem, ranges) => "new " + elem + Join(Dimensions(RenderExprs(ranges)), "")
    case Dot(b, m) => RenderExpr(b) + "." + m
    case Prefix(op, x) => op + RenderExpr(x)
    case Bin(l, op, r) => RenderExpr(l) + " " + op + " " + RenderExpr(r)
  }

  lemma ContentsWrap(e: Expr)
    requires IsCompound(e)
    ensures RenderExpr(e) == "(" + Contents(e) + ")"
  {
    match e
    case Call(f, args) => CallWrap(f, args);
    case Dict(b, i) => DictWrap(b, i);
    case New(elem, ranges) => NewWrap(elem, ranges);
    case Dot(b, m) => DotWrap(b, m);
    case Prefix(op, x) => PrefixWrap(op, x);
    case Bin(l, op, r) => BinWrap(l, op, r);
  }

  lemma CallWrap(f: Expr, args: seq<Expr>)
    ensures RenderExpr(Call(f, args)) == "(" + Contents(Call(f, args)) + ")"
  {
  }

  lemma DictWrap(b: Expr, i: Expr)
    ensures RenderExpr(Dict(b, i)) == "(" + Contents(Dict(b, i)) + ")"
  {
  }

  lemma NewWrap(elem: string, ranges: seq<Expr>)
    ensures RenderExpr(New(elem, ranges)) == "(" + Contents(New(elem, ranges)) + ")"
  {
  }

  lemma DotWrap(b: Expr, m: string)
    ensures RenderExpr(Dot(b, m)) == "(" + Contents(Dot(b, m)) + ")"
  {
  }

  lemma PrefixWrap(op: string, x: Expr)
    ensures RenderExpr(Prefix(op, x)) == "(" + Contents(Prefix(op, x)) + ")"
  {
  }

  lemma BinWrap(l: Expr, op: string, r: Expr)
    ensures RenderExpr(Bin(l, op, r)) == "(" + Contents(Bin(l, op, r)) + ")"
  {
  }

  lemma CallContents(callee: string, args: seq<string>, p: Pair)
    requires ValidPair(p) && Balanced(callee, p)
    requires forall i :: 0 <= i < |args| ==> Balanced(args[i], p)
    ensures Balanced(callee + ("(" + Join(args, ", ") + ")"), p)
  {
    var list := Join(args, ", ");
    CommaFree(p);
    BalancedJoin(args, ", ", p);
    Parenthesized(list, p);
    BalancedAppend(callee, "(" + list + ")", p);
  }

  lemma CommaFree(p: Pair)
    requires ValidPair(p)
    ensures Free(", ", p)
  {
  }

  lemma Parenthesized(x: string, p: Pair)
    requires ValidPair(p) && Balanced(x, p)
    ensures Balanced("(" + x + ")", p)
  {
    Wrap('(', x, ')', p);
    assert "(" + x + ")" == ['('] + x + [')'];
  }

  lemma DictContents(base: string, index: string, p: Pair)
    requires ValidPair(p) && Balanced(base, p) && Balanced(index, p)
    ensures Balanced(base + ("[" + index + "]"), p)
  {
    Wrap('[', index, ']', p);
    BalancedAppend(base, "[" + index + "]", p);
  }

  lemma NewContents(elem: string, ranges: seq<string>, p: Pair)
    requires ValidPair(p) && Free(elem, p)
    requires forall i :: 0 <= i < |ranges| ==> Balanced(ranges[i], p)
    ensures Balanced("new " + elem + Join(Dimensions(ranges), ""), p)
  {
    var dims := Dimensions(ranges);
    forall i | 0 <= i < |dims|
      ensures Balanced(dims[i], p)
    {
      Wrap('[', ranges[i], ']', p);
    }
    BalancedJoin(dims, "", p);
    FreeBalanced("new ", p);
    FreeBalanced(elem, p);
    Balanced3("new ", elem, Join(dims, ""), p);
  }

  lemma DotContents(base: string, member: string, p: Pair)
    requires ValidPair(p) && Balanced(base, p) && Free(member, p)
    ensures Balanced(base + "." + member, p)
  {
    FreeBalanced(".", p);
    FreeBalanced(member, p);
    Balanced3(base, ".", member, p);
  }

  lemma BinContents(l: string, op: string, r: string, p: Pair)
    requires ValidPair(p) && Balanced(l, p) && Free(op, p) && Balanced(r, p)
    ensures Balanced(l + " " + op + " " + r, p)
  {
    FreeBalanced(op, p);
    FreeBalanced(" ", p);
    Balanced3(l, " ", op, p);
    Balanced3(l + " " + op, " ", r, p);
  }

  /** A braced body is balanced when the body is. */
  lemma BracedBalanced(body: string, p: Pair)
    requires ValidPair(p) && Balanced(body, p)
    ensures Balanced(Braced(body), p)
  {
    IndentBalanced(body, p);
    FreeBalanced("\n" + Margin, p);
    FreeBalanced("\n", p);
    Balanced3("\n" + Margin, Indent(body), "\n", p);
    Wrap('{', "\n" + Margin + Indent(body) + "\n", '}', p);
    assert Braced(body) == ['{'] + ("\n" + Margin + Indent(body) + "\n") + ['}'];
  }

  /** `keyword head body`, the common shape of the control statements. */
  lemma Headed(keyword: string, head: string, body: string, p: Pair)
    requires ValidPair(p) && Balanced(keyword, p) && Balanced(head, p) && Balanced(body, p)
    ensures Balanced(keyword + head + " " + Braced(body), p)
  {
    FreeBalanced(" ", p);
    Balanced3(keyword, head, " ", p);
    BracedBalanced(body, p);
    BalancedAppend(keyword + head + " ", Braced(body), p);
  }

  lemma IfTemplateBalanced(cond: string, body: string, orElse: Option<string>, p: Pair)
    requires ValidPair(p) && Balanced(cond, p) && Balanced(body, p)
    requires orElse.Some? ==> Balanced(orElse.value, p)
    ensures Balanced(IfTemplate(cond, body, orElse), p)
  {
    FreeBalanced("if ", p);
    Headed("if ", cond, body, p);
    if orElse.Some? {
      BracedBalanced(orElse.value, p);
      FreeBalanced(" else ", p);
      Balanced3("if " + cond + " " + Braced(body), " else ", Braced(orElse.value), p);
    }
  }

  lemma ForTemplateBalanced(start: string, cond: string, next: string, body: string, p: Pair)
    requires ValidPair(p) && Balanced(start, p) && Balanced(cond, p) && Balanced(next, p)
    requires Balanced(body, p)
    ensures Balanced(ForTemplate(start, cond, next, body), p)
  {
    var clauses := start + "; " + cond + "; " + next;
    FreeBalanced("; ", p);
    Balanced3(start, "; ", cond, p);
    Balanced3(start + "; " + cond, "; ", next, p);
    Wrap('(', clauses, ')', p);
    FreeBalanced("for ", p);
    Headed("for ", "(" + clauses + ")", body, p);
    ForParts(start, cond, next, body);
  }

  lemma ForParts(start: string, cond: string, next: string, body: string)
    ensures ForTemplate(start, cond, next, body)
      == "for " + ("(" + (start + "; " + cond + "; " + next) + ")") + " " + Braced(body)
  {
  }

  lemma BlockTemplateBalanced(frags: seq<string>, p: Pair)
    requires ValidPair(p)
    requires forall i :: 0 <= i < |frags| ==> Balanced(frags[i], p)
    ensures Balanced(BlockTemplate(frags), p)
  {
    var parts := Terminated(frags);
    forall i | 0 <= i < |parts|
      ensures Balanced(parts[i], p)
    {
      FreeBalanced(";", p);
      BalancedAppend(frags[i], ";", p);
    }
    BalancedJoin(parts, "\n", p);
  }

  lemma FuncDefTemplateBalanced(ty: string, name: string, args: seq<string>, body: string, p: Pair)
    requires ValidPair(p) && Free(ty, p) && Free(name, p) && Balanced(body, p)
    requires forall i :: 0 <= i < |args| ==> Balanced(args[i], p)
    ensures Balanced(FuncDefTemplate(ty, name, args, body), p)
  {
    var list := "(" + Join(args, ", ") + ")";
    BalancedJoin(args, ", ", p);
    Wrap('(', Join(args, ", "), ')', p);
    FreeBalanced(ty, p);
    FreeBalanced(name, p);
    FreeBalanced(" ", p);
    Balanced3(ty, " ", name, p);
    Headed(ty + " " + name, list, body, p);
    assert FuncDefTemplate(ty, name, args, body) == ty + " " + name + list + " " + Braced(body);
  }

  // ---------------------------------------------------------------------
  // The renderings
  // ---------------------------------------------------------------------

  /** Every expression rendering is balanced for every pair. */
  lemma {:induction false} ExprBalanced(e: Expr, p: Pair)
    requires ExprLeaves(e, FreeOf(p)) && ValidPair(p)
    ensures Balanced(RenderExpr(e), p)
    decreases e, 1
  {
    if IsCompound(e) {
      ContentsBalanced(e, p);
      ContentsWrap(e);
      Wrap('(', Contents(e), ')', p);
    } else {
      match e
      case Const(text) =>
        FreeBalanced(text, p);
      case Assign(a, b) =>
        ExprBalanced(a, p);
        ExprBalanced(b, p);
        FreeBalanced(" = ", p);
        Balanced3(RenderExpr(a), " = ", RenderExpr(b), p);
      case Alloc(ty, name, init) =>
        FreeBalanced(ty, p);
        FreeBalanced(name, p);
        FreeBalanced(" ", p);
        Balanced3(ty, " ", name, p);
        if init.Some? {
          ExprBalanced(init.value, p);
          FreeBalanced(" = ", p);
          Balanced3(ty + " " + name, " = ", RenderExpr(init.value), p);
        }
    }
  }

  lemma {:induction false} ExprsBalanced(es: seq<Expr>, p: Pair)
    requires ValidPair(p)
    requires forall i :: 0 <= i < |es| ==> ExprLeaves(es[i], FreeOf(p))
    ensures forall i :: 0 <= i < |es| ==> Balanced(RenderExprs(es)[i], p)
    decreases es
  {
    forall i | 0 <= i < |es|
      ensures Balanced(RenderExprs(es)[i], p)
    {
      ExprBalanced(es[i], p);
    }
  }

  lemma {:induction false} ContentsBalanced(e: Expr, p: Pair)
    requires ExprLeaves(e, FreeOf(p)) && ValidPair(p) && IsCompound(e)
    ensures Balanced(Contents(e), p)
    decreases e, 0
  {
    match e
    case Call(f, args) =>
      ExprBalanced(f, p);
      ExprsBalanced(args, p);
      CallContents(RenderExpr(f), RenderExprs(args), p);
    case Dict(b, i) =>
      ExprBalanced(b, p);
      ExprBalanced(i, p);
      DictContents(RenderExpr(b), RenderExpr(i), p);
    case New(elem, ranges) =>
      ExprsBalanced(ranges, p);
      NewContents(elem, RenderExprs(ranges), p);
    case Dot(b, m) =>
      ExprBalanced(b, p);
      DotContents(RenderExpr(b), m, p);
    case Prefix(op, x) =>
      FreeBalanced(op, p);
      ExprBalanced(x, p);
      BalancedAppend(op, RenderExpr(x), p);
    case Bin(a, op, b) =>
      ExprBalanced(a, p);
      ExprBalanced(b, p);
      BinContents(RenderExpr(a), op, RenderExpr(b), p);
  }

  /** The grouping guarantee: the parentheses a compound expression is
      wrapped in enclose its whole rendering as one group. The text between
      them is balanced, and the opening parenthesis is still open after
      every proper non-empty prefix, so only the last character closes it. */
  lemma CompoundEnclosed(e: Expr)
    requires ExprLeaves(e, FreeOf(Parens)) && IsCompound(e)
    ensures var r := RenderExpr(e);
      && |r| >= 2 && r[0] == '(' && r[|r| - 1] == ')'
      && Balanced(r[1..|r| - 1], Parens)
      && forall k :: 0 < k < |r| ==> Net(r[..k], Parens) >= 1
  {
    var r := RenderExpr(e);
    ContentsWrap(e);
    ContentsBalanced(e, Parens);
    EnclosedGroup(Contents(e), Parens);
    assert r[1..|r| - 1] == Contents(e);
  }

  /** Every statement rendering is balanced for every pair. */
  lemma {:induction false} StmtBalanced(s: Stmt, p: Pair)
    requires StmtLeaves(s, FreeOf(p)) && ValidPair(p)
    ensures Balanced(RenderStmt(s), p)
    decreases s
  {
    match s
    case ExprStmt(x) =>
      ExprBalanced(x, p);
    case If(c, b, e) =>
      ExprBalanced(c, p);
      BlockBalanced(b, p);
      if e.Some? {
        BlockBalanced(e.value, p);
      }
      IfTemplateBalanced(RenderExpr(c), RenderBlock(b),
        if e.Some? then Some(RenderBlock(e.value)) else None, p);
    case While(c, b) =>
      ExprBalanced(c, p);
      BlockBalanced(b, p);
      FreeBalanced("while ", p);
      Headed("while ", RenderExpr(c), RenderBlock(b), p);
    case For(st, c, n, b) =>
      ExprBalanced(st, p);
      ExprBalanced(c, p);
      ExprBalanced(n, p);
      BlockBalanced(b, p);
      ForTemplateBalanced(RenderExpr(st), RenderExpr(c), RenderExpr(n), RenderBlock(b), p);
  }

  lemma {:induction false} BlockBalanced(b: Block, p: Pair)
    requires BlockLeaves(b, FreeOf(p)) && ValidPair(p)
    ensures Balanced(RenderBlock(b), p)
    decreases b
  {
    var frags := RenderStmts(b);
    forall i | 0 <= i < |frags|
      ensures Balanced(frags[i], p)
    {
      StmtBalanced(b.items[i], p);
    }
    BlockTemplateBalanced(frags, p);
  }

  /** Every declaration rendering is balanced for every pair. */
  lemma DeclBalanced(d: Decl, p: Pair)
    requires DeclLeaves(d, FreeOf(p)) && ValidPair(p)
    ensures Balanced(RenderDecl(d), p)
  {
    match d
    case Import(names) =>
      var ls := IncludeLines(names);
      forall i | 0 <= i < |ls|
        ensures Balanced(ls[i], p)
      {
        FreeBalanced("#include ", p);
        FreeBalanced(names[i], p);
        BalancedAppend("#include ", names[i], p);
      }
      BalancedJoin(ls, "\n", p);
    case Struct(name, members) =>
      ExprsBalanced(members, p);
      BlockTemplateBalanced(RenderExprs(members), p);
      FreeBalanced("struct ", p);
      FreeBalanced(name, p);
      Headed("struct ", name, BlockTemplate(RenderExprs(members)), p);
    case FuncDef(ty, name, params, body) =>
      ExprsBalanced(params, p);
      BlockBalanced(body, p);
      FuncDefTemplateBalanced(ty, name, RenderExprs(params), RenderBlock(body), p);
  }

  /** The whole output is balanced for (), [] and {}. */
  lemma RootBalanced(root: Root, p: Pair)
    requires RootLeaves(root, FreeOf(p)) && ValidPair(p)
    ensures Balanced(Render(root), p)
  {
    var ds := RenderDecls(root.decls);
    forall i | 0 <= i < |ds|
      ensures Balanced(ds[i], p)
    {
      DeclBalanced(root.decls[i], p);
    }
    FreeBalanced("\n\n", p);
    BalancedJoin(ds, "\n\n", p);
  }
}
