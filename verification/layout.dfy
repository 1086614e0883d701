/** The line structure of the generated C++. A second, line-oriented
    renderer describes the output as a list of lines: a control statement
    or a definition opens with a header line ending in `{`, its body lines
    follow one indentation step deeper, and a line `}` closes it. For trees
    whose leaf texts hold no line break, joining these lines is exactly the
    text the template renderer produces. */
module Layout {
  import opened Text
  import opened Ast
  import opened TargetCpp

  predicate OneLine(t: string) {
    '\n' !in t
  }

  predicate AllOneLine(ls: seq<string>) {
    forall i :: 0 <= i < |ls| ==> OneLine(ls[i])
  }

  // ---------------------------------------------------------------------
  // Joining lists of lines
  // ---------------------------------------------------------------------

  lemma {:induction false} JoinConcat(a: seq<string>, b: seq<string>, sep: string)
    requires |a| > 0 && |b| > 0
    ensures Join(a + b, sep) == Join(a, sep) + sep + Join(b, sep)
  {
    assert (a + b)[0] == a[0];
    if |a| == 1 {
      assert (a + b)[1..] == b;
    } else {
      JoinConcat(a[1..], b, sep);
      assert (a + b)[1..] == a[1..] + b;
    }
  }

  /** The lists of a list of lists, one after the other. */
  function Flatten(lss: seq<seq<string>>): (r: seq<string>)
  {
    if |lss| == 0 then [] else lss[0] + Flatten(lss[1..])
  }

  function Joins(lss: seq<seq<string>>, sep: string): (r: seq<string>)
    ensures |r| == |lss|
  {
    seq(|lss|, i requires 0 <= i < |lss| => Join(lss[i], sep))
  }

  /** Joining joined groups with the same separator joins the lines of all
      groups. */
  lemma {:induction false} JoinFlatten(lss: seq<seq<string>>, sep: string)
    requires |lss| > 0
    requires forall i :: 0 <= i < |lss| ==> |lss[i]| > 0
    ensures |Flatten(lss)| > 0
    ensures Join(Joins(lss, sep), sep) == Join(Flatten(lss), sep)
  {
    if |lss| == 1 {
      assert Flatten(lss[1..]) == [];
      assert Flatten(lss) == lss[0];
      assert Joins(lss, sep) == [Join(lss[0], sep)];
    } else {
      JoinFlatten(lss[1..], sep);
      assert Joins(lss, sep)[1..] == Joins(lss[1..], sep);
      JoinConcat(lss[0], Flatten(lss[1..]), sep);
    }
  }

  lemma {:induction false} FlattenOneLine(lss: seq<seq<string>>)
    requires forall i :: 0 <= i < |lss| ==> AllOneLine(lss[i])
    ensures AllOneLine(Flatten(lss))
  {
    if |lss| > 0 {
      FlattenOneLine(lss[1..]);
      assert AllOneLine(lss[0]);
    }
  }

  /** A list of lines whose last line gets the statement terminator. */
  function TerminateLast(ls: seq<string>): (r: seq<string>)
    requires |ls| > 0
    ensures |r| == |ls|
  {
    ls[..|ls| - 1] + [ls[|ls| - 1] + ";"]
  }

  lemma JoinTerminateLast(ls: seq<string>, sep: string)
    requires |ls| > 0
    ensures Join(TerminateLast(ls), sep) == Join(ls, sep) + ";"
  {
    var n := |ls| - 1;
    if n > 0 {
      JoinSnoc(ls[..n], sep, ls[n] + ";");
      JoinSnoc(ls[..n], sep, ls[n]);
      assert ls[..n] + [ls[n]] == ls;
    }
  }

  lemma {:induction false} JoinOneLine(parts: seq<string>, sep: string)
    requires AllOneLine(parts) && OneLine(sep)
    ensures OneLine(Join(parts, sep))
  {
    if |parts| > 1 {
      JoinOneLine(parts[1..], sep);
      assert OneLine(parts[0]);
    }
  }

  // ---------------------------------------------------------------------
  // The line-oriented renderer
  // ---------------------------------------------------------------------

  /** `head{`, the body one step deeper, `}`. */
  function BracedLines(head: string, body: seq<string>): seq<string> {
    [head + "{"] + IndentLines(body) + ["}"]
  }

  lemma BracedLinesFront(head: string, body: seq<string>)
    ensures var ls := BracedLines(head, body);
      ls[..|ls| - 1] == [head + "{"] + IndentLines(body)
  {
  }

  function StmtLines(s: Stmt): (r: seq<string>)
    ensures |r| > 0
    decreases s
  {
    match s
    case If(c, b, e) =>
      var open := BracedLines("if " + RenderExpr(c) + " ", BlockLines(b));
      if e.None? then open
      else open[..|open| - 1] + BracedLines("} else ", BlockLines(e.value))
    case While(c, b) => BracedLines("while " + RenderExpr(c) + " ", BlockLines(b))
    case For(st, c, n, b) =>
      BracedLines("for (" + RenderExpr(st) + "; " + RenderExpr(c) + "; " + RenderExpr(n) + ") ", BlockLines(b))
    case ExprStmt(x) => [RenderExpr(x)]
  }

  /** The lines of a statement list: each statement's lines, its last line
      terminated; an empty list is one empty line. */
  function BlockLines(b: Block): (r: seq<string>)
    ensures |r| > 0
    decreases b
  {
    if |b.items| == 0 then [""]
    else
      var groups := seq(|b.items|, i requires 0 <= i < |b.items| => TerminateLast(StmtLines(b.items[i])));
      FlattenNonEmpty(groups);
      Flatten(groups)
  }

  lemma FlattenNonEmpty(lss: seq<seq<string>>)
    requires |lss| > 0 && |lss[0]| > 0
    ensures |Flatten(lss)| > 0
  {
  }

  function MemberLines(members: seq<Expr>): (r: seq<string>)
    ensures |r| > 0
  {
    if |members| == 0 then [""] else Terminated(RenderExprs(members))
  }

  function DeclLines(d: Decl): (r: seq<string>)
    ensures |r| > 0
  {
    match d
    case Import(names) => if |names| == 0 then [""] else IncludeLines(names)
    case Struct(name, members) => BracedLines("struct " + name + " ", MemberLines(members))
    case FuncDef(ty, name, params, body) =>
      BracedLines(ty + " " + name + "(" + Join(RenderExprs(params), ", ") + ") ", BlockLines(body))
  }

  // ---------------------------------------------------------------------
  // The two renderers agree
  // ---------------------------------------------------------------------

  /** An expression whose leaf texts hold no line break renders on one
      line. */
  lemma {:induction false} ExprOneLine(e: Expr)
    requires ExprLeaves(e, OneLine)
    ensures OneLine(RenderExpr(e))
    decreases e, 1
  {
    match e
    case Assign(l, r) =>
      ExprOneLine(l);
      ExprOneLine(r);
    case Alloc(ty, name, init) =>
      if init.Some? {
        ExprOneLine(init.value);
      }
    case Call(f, args) =>
      ExprOneLine(f);
      ExprsOneLine(args);
      JoinOneLine(RenderExprs(args), ", ");
    case Dict(b, i) =>
      ExprOneLine(b);
      ExprOneLine(i);
    case New(elem, ranges) =>
      var rs := RenderExprs(ranges);
      ExprsOneLine(ranges);
      assert AllOneLine(Dimensions(rs)) by {
        forall i | 0 <= i < |rs|
          ensures OneLine(Dimensions(rs)[i])
        {
          assert OneLine(rs[i]);
        }
      }
      JoinOneLine(Dimensions(rs), "");
    case Dot(b, m) =>
      ExprOneLine(b);
    case Prefix(op, x) =>
      ExprOneLine(x);
    case Bin(l, op, r) =>
      ExprOneLine(l);
      ExprOneLine(r);
    case Const(text) =>
  }

  lemma {:induction false} ExprsOneLine(es: seq<Expr>)
    requires forall i :: 0 <= i < |es| ==> ExprLeaves(es[i], OneLine)
    ensures AllOneLine(RenderExprs(es))
    decreases es
  {
    forall i | 0 <= i < |es|
      ensures OneLine(RenderExprs(es)[i])
    {
      ExprOneLine(es[i]);
    }
  }

  lemma BracedParts(body: string)
    ensures Braced(body) == "{" + "\n" + (Margin + Indent(body)) + "\n" + "}"
  {
  }

  lemma IndentOneLine(ls: seq<string>)
    requires AllOneLine(ls)
    ensures AllOneLine(IndentLines(ls))
  {
    var il := IndentLines(ls);
    forall i | 0 <= i < |il|
      ensures OneLine(il[i])
    {
      assert OneLine(ls[i]);
    }
  }

  lemma BracedJoinLines(h: string, il: seq<string>)
    requires |il| > 0
    ensures Join([h + "{"] + il + ["}"], "\n") == (h + "{") + "\n" + Join(il, "\n") + "\n" + "}"
  {
    assert Join([h + "{"], "\n") == h + "{";
    assert Join(["}"], "\n") == "}";
    JoinConcat([h + "{"], il, "\n");
    JoinConcat([h + "{"] + il, ["}"], "\n");
  }

  lemma HeadBraced(head: string, body: string)
    ensures head + Braced(body) == (head + "{") + "\n" + (Margin + Indent(body)) + "\n" + "}"
  {
    BracedParts(body);
  }

  /** A braced body, seen as lines: the head line gains `{`, the body's
      lines are indented one step, and `}` stands on the last line. */
  lemma BracedLayout(head: string, body: string, ls: seq<string>)
    requires OneLine(head) && |ls| > 0 && AllOneLine(ls) && body == Join(ls, "\n")
    ensures head + Braced(body) == Join(BracedLines(head, ls), "\n")
    ensures AllOneLine(BracedLines(head, ls))
  {
    IndentJoin(ls);
    BracedJoinLines(head, IndentLines(ls));
    HeadBraced(head, body);
    BracedOneLine(head, ls);
  }

  lemma BracedOneLine(head: string, ls: seq<string>)
    requires OneLine(head) && AllOneLine(ls)
    ensures AllOneLine(BracedLines(head, ls))
  {
    IndentOneLine(ls);
    assert OneLine(head + "{");
    ConcatOneLine([head + "{"], IndentLines(ls));
    ConcatOneLine([head + "{"] + IndentLines(ls), ["}"]);
  }

  /** The else shape: the closing brace of the first body and the opening
      brace of the else body share the line `} else {`. */
  lemma ElseLayout(head: string, body: string, ls: seq<string>, other: string, els: seq<string>)
    requires OneLine(head) && |ls| > 0 && AllOneLine(ls) && body == Join(ls, "\n")
    requires |els| > 0 && AllOneLine(els) && other == Join(els, "\n")
    ensures var open := BracedLines(head, ls);
      && head + Braced(body) + " else " + Braced(other)
         == Join(open[..|open| - 1] + BracedLines("} else ", els), "\n")
      && AllOneLine(open[..|open| - 1] + BracedLines("} else ", els))
  {
    var open := BracedLines(head, ls);
    var front := open[..|open| - 1];
    var tail := BracedLines("} else ", els);
    BracedLayout(head, body, ls);
    BracedLayout("} else ", other, els);
    assert open == front + ["}"];
    JoinConcat(front, ["}"], "\n");
    JoinConcat(front, tail, "\n");
    ElseGlue(Join(front, "\n"), Braced(other));
    ConcatOneLine(front, tail);
  }

  lemma ElseGlue(j: string, c: string)
    ensures j + "\n" + "}" + " else " + c == j + "\n" + ("} else " + c)
  {
  }

  lemma ConcatOneLine(a: seq<string>, b: seq<string>)
    requires AllOneLine(a) && AllOneLine(b)
    ensures AllOneLine(a + b)
  {
    forall i | 0 <= i < |a + b|
      ensures OneLine((a + b)[i])
    {
      if i < |a| {
        assert (a + b)[i] == a[i];
      } else {
        assert (a + b)[i] == b[i - |a|];
      }
    }
  }

  /** For a tree whose leaf texts hold no line break, a statement's
      rendering is its lines joined by line breaks, and none of these lines
      holds a line break itself. */
  lemma {:induction false} StmtLayout(s: Stmt)
    requires StmtLeaves(s, OneLine)
    ensures RenderStmt(s) == Join(StmtLines(s), "\n")
    ensures AllOneLine(StmtLines(s))
    decreases s
  {
    match s
    case ExprStmt(x) =>
      ExprOneLine(x);
    case If(c, b, e) =>
      ExprOneLine(c);
      BlockLayout(b);
      var head := "if " + RenderExpr(c) + " ";
      if e.None? {
        BracedLayout(head, RenderBlock(b), BlockLines(b));
      } else {
        BlockLayout(e.value);
        ElseLayout(head, RenderBlock(b), BlockLines(b), RenderBlock(e.value), BlockLines(e.value));
      }
    case While(c, b) =>
      ExprOneLine(c);
      BlockLayout(b);
      BracedLayout("while " + RenderExpr(c) + " ", RenderBlock(b), BlockLines(b));
    case For(st, c, n, b) =>
      ExprOneLine(st);
      ExprOneLine(c);
      ExprOneLine(n);
      BlockLayout(b);
      BracedLayout("for (" + RenderExpr(st) + "; " + RenderExpr(c) + "; " + RenderExpr(n) + ") ",
        RenderBlock(b), BlockLines(b));
  }

  /** The same for a statement list: each statement's lines in order, the
      last line of each statement terminated by `;`. */
  lemma {:induction false} BlockLayout(b: Block)
    requires BlockLeaves(b, OneLine)
    ensures RenderBlock(b) == Join(BlockLines(b), "\n")
    ensures AllOneLine(BlockLines(b))
    decreases b
  {
    if |b.items| > 0 {
      var groups := seq(|b.items|, i requires 0 <= i < |b.items| => TerminateLast(StmtLines(b.items[i])));
      forall i | 0 <= i < |groups|
        ensures Terminated(RenderStmts(b))[i] == Joins(groups, "\n")[i]
        ensures AllOneLine(groups[i])
      {
        StmtLayout(b.items[i]);
        JoinTerminateLast(StmtLines(b.items[i]), "\n");
        TerminateOneLine(StmtLines(b.items[i]));
      }
      assert Terminated(RenderStmts(b)) == Joins(groups, "\n");
      JoinFlatten(groups, "\n");
      FlattenOneLine(groups);
    }
  }

  lemma TerminateOneLine(ls: seq<string>)
    requires |ls| > 0 && AllOneLine(ls)
    ensures AllOneLine(TerminateLast(ls))
  {
    assert OneLine(ls[|ls| - 1]);
  }

  /** A declaration's rendering is its lines joined by line breaks. */
  lemma DeclLayout(d: Decl)
    requires DeclLeaves(d, OneLine)
    ensures RenderDecl(d) == Join(DeclLines(d), "\n")
    ensures AllOneLine(DeclLines(d))
  {
    match d
    case Import(names) =>
      var ls := IncludeLines(names);
      forall i | 0 <= i < |ls|
        ensures OneLine(ls[i])
      {
        assert OneLine(names[i]);
      }
    case Struct(name, members) =>
      var ms := MemberLines(members);
      ExprsOneLine(members);
      forall i | 0 <= i < |ms|
        ensures OneLine(ms[i])
      {
        if |members| > 0 {
          assert OneLine(RenderExprs(members)[i]);
        }
      }
      BracedLayout("struct " + name + " ", BlockTemplate(RenderExprs(members)), ms);
    case FuncDef(ty, name, params, body) =>
      ExprsOneLine(params);
      JoinOneLine(RenderExprs(params), ", ");
      BlockLayout(body);
      BracedLayout(ty + " " + name + "(" + Join(RenderExprs(params), ", ") + ") ",
        RenderBlock(body), BlockLines(body));
  }

  /** The lines of a translation unit: the declarations' lines, one empty
      line between neighbours. */
  function RootLines(ds: seq<Decl>): (r: seq<string>)
    ensures |r| > 0
  {
    if |ds| == 0 then [""]
    else if |ds| == 1 then DeclLines(ds[0])
    else DeclLines(ds[0]) + [""] + RootLines(ds[1..])
  }

  lemma {:induction false} RootLayoutList(ds: seq<Decl>)
    requires forall i :: 0 <= i < |ds| ==> DeclLeaves(ds[i], OneLine)
    ensures Join(RenderDecls(ds), "\n\n") == Join(RootLines(ds), "\n")
    ensures AllOneLine(RootLines(ds))
  {
    if |ds| == 1 {
      DeclLayout(ds[0]);
    } else if |ds| > 1 {
      var parts := RenderDecls(ds);
      RootLayoutList(ds[1..]);
      DeclLayout(ds[0]);
      assert parts[1..] == RenderDecls(ds[1..]);
      BlankLineStep(parts, DeclLines(ds[0]), RootLines(ds[1..]));
    }
  }

  /** `\n\n` between two texts is a line break, an empty line and a line
      break. */
  lemma BlankLineStep(parts: seq<string>, first: seq<string>, rest: seq<string>)
    requires |parts| > 1 && |first| > 0 && |rest| > 0
    requires parts[0] == Join(first, "\n") && AllOneLine(first)
    requires Join(parts[1..], "\n\n") == Join(rest, "\n") && AllOneLine(rest)
    ensures Join(parts, "\n\n") == Join(first + [""] + rest, "\n")
    ensures AllOneLine(first + [""] + rest)
  {
    SeparatorLines(first, rest);
    SeparatorOneLine(first, rest);
  }

  lemma SeparatorLines(first: seq<string>, rest: seq<string>)
    requires |first| > 0 && |rest| > 0
    ensures Join(first + [""] + rest, "\n") == Join(first, "\n") + "\n\n" + Join(rest, "\n")
  {
    JoinAround(first, "", rest, "\n");
    DoubleBreak(Join(first, "\n"), Join(rest, "\n"));
  }

  lemma JoinAround(first: seq<string>, mid: string, rest: seq<string>, sep: string)
    requires |first| > 0 && |rest| > 0
    ensures Join(first + [mid] + rest, sep) == Join(first, sep) + sep + mid + sep + Join(rest, sep)
  {
    JoinConcat(first, [mid], sep);
    JoinConcat(first + [mid], rest, sep);
  }

  lemma DoubleBreak(a: string, b: string)
    ensures a + "\n" + "" + "\n" + b == a + "\n\n" + b
  {
  }

  lemma SeparatorOneLine(first: seq<string>, rest: seq<string>)
    requires AllOneLine(first) && AllOneLine(rest)
    ensures AllOneLine(first + [""] + rest)
  {
    var all := first + [""] + rest;
    forall i | 0 <= i < |all|
      ensures OneLine(all[i])
    {
      if i < |first| {
        assert all[i] == first[i];
      } else if i > |first| {
        assert all[i] == rest[i - |first| - 1];
      }
    }
  }

  lemma RootLayout(root: Root)
    requires RootLeaves(root, OneLine)
    ensures Render(root) == Join(RootLines(root.decls), "\n")
    ensures AllOneLine(RootLines(root.decls))
  {
    RootLayoutList(root.decls);
  }

  // ---------------------------------------------------------------------
  // Consequences for the line view of the template renderer
  // ---------------------------------------------------------------------

  /** Reading the rendered text back as lines gives the line renderer's
      lines. */
  lemma StmtLinesExact(s: Stmt)
    requires StmtLeaves(s, OneLine)
    ensures Lines(RenderStmt(s)) == StmtLines(s)
  {
    StmtLayout(s);
    LinesOfJoin(StmtLines(s));
  }

  lemma BlockLinesExact(b: Block)
    requires BlockLeaves(b, OneLine)
    ensures Lines(RenderBlock(b)) == BlockLines(b)
  {
    BlockLayout(b);
    LinesOfJoin(BlockLines(b));
  }

  lemma RootLinesExact(root: Root)
    requires RootLeaves(root, OneLine)
    ensures Lines(Render(root)) == RootLines(root.decls)
  {
    RootLayout(root);
    LinesOfJoin(RootLines(root.decls));
  }

  /** The While rule as lines: the header line ends in `{`, every line of
      the rendered body follows indented by one step, and `}` closes on a
      line of its own. */
  lemma WhileLines(c: Expr, b: Block)
    requires StmtLeaves(While(c, b), OneLine)
    ensures Lines(RenderStmt(While(c, b))) ==
      ["while " + RenderExpr(c) + " {"] + IndentLines(Lines(RenderBlock(b))) + ["}"]
  {
    var h := "while " + RenderExpr(c) + " ";
    KeywordHeadLine("while ", RenderExpr(c));
    BracedStmtLines(While(c, b), h, b);
  }

  lemma ForLines(st: Expr, c: Expr, n: Expr, b: Block)
    requires StmtLeaves(For(st, c, n, b), OneLine)
    ensures Lines(RenderStmt(For(st, c, n, b))) ==
      ["for (" + (RenderExpr(st) + "; " + RenderExpr(c) + "; " + RenderExpr(n)) + ") {"]
      + IndentLines(Lines(RenderBlock(b))) + ["}"]
  {
    var h := "for (" + RenderExpr(st) + "; " + RenderExpr(c) + "; " + RenderExpr(n) + ") ";
    ForHeadLine(RenderExpr(st), RenderExpr(c), RenderExpr(n));
    BracedStmtLines(For(st, c, n, b), h, b);
  }

  /** A statement whose lines are one braced block, read back as lines. */
  lemma BracedStmtLines(s: Stmt, head: string, b: Block)
    requires StmtLeaves(s, OneLine) && BlockLeaves(b, OneLine)
    requires StmtLines(s) == BracedLines(head, BlockLines(b))
    ensures Lines(RenderStmt(s)) == [head + "{"] + IndentLines(Lines(RenderBlock(b))) + ["}"]
  {
    StmtLinesExact(s);
    BlockLinesExact(b);
  }

  lemma KeywordHeadLine(keyword: string, x: string)
    ensures (keyword + x + " ") + "{" == keyword + x + " {"
  {
  }

  lemma ForHeadLine(st: string, c: string, n: string)
    ensures ("for (" + st + "; " + c + "; " + n + ") ") + "{" == "for (" + (st + "; " + c + "; " + n) + ") {"
  {
  }

  /** The If rule as lines, for both shapes: without `Else` the body is
      closed by `}`; with it, `} else {` closes the body and opens the
      else block, which is closed by `}`. */
  lemma IfLines(c: Expr, b: Block, e: Option<Block>)
    requires StmtLeaves(If(c, b, e), OneLine)
    ensures var body := ["if " + RenderExpr(c) + " {"] + IndentLines(Lines(RenderBlock(b)));
      Lines(RenderStmt(If(c, b, e))) ==
        if e.None? then body + ["}"]
        else body + ["} else {"] + IndentLines(Lines(RenderBlock(e.value))) + ["}"]
  {
    var h := "if " + RenderExpr(c) + " ";
    KeywordHeadLine("if ", RenderExpr(c));
    if e.None? {
      BracedStmtLines(If(c, b, e), h, b);
    } else {
      StmtLinesExact(If(c, b, e));
      BlockLinesExact(b);
      BlockLinesExact(e.value);
      ElseLines(h, BlockLines(b), BlockLines(e.value));
    }
  }

  lemma ElseLines(h: string, bl: seq<string>, el: seq<string>)
    ensures var open := BracedLines(h, bl);
      open[..|open| - 1] + BracedLines("} else ", el)
        == [h + "{"] + IndentLines(bl) + ["} else {"] + IndentLines(el) + ["}"]
  {
    BracedLinesFront(h, bl);
    assert "} else " + "{" == "} else {";
  }

  lemma TopLevelLine(x: string)
    requires |x| > 0 && x[0] != ' '
    ensures TopLevel([x]) == [x]
  {
  }

  /** Only the header and the closing lines of an If stand at the left
      margin; everything else is nested one step deeper. */
  lemma IfTopLevel(c: Expr, b: Block, e: Option<Block>)
    requires StmtLeaves(If(c, b, e), OneLine)
    ensures TopLevel(Lines(RenderStmt(If(c, b, e)))) ==
      if e.None? then ["if " + RenderExpr(c) + " {", "}"]
      else ["if " + RenderExpr(c) + " {", "} else {", "}"]
  {
    var h := "if " + RenderExpr(c) + " {";
    var bl := IndentLines(Lines(RenderBlock(b)));
    IfLines(c, b, e);
    TopLevelIndented(Lines(RenderBlock(b)));
    assert h[0] == 'i';
    TopLevelLine(h);
    TopLevelLine("}");
    TopLevelAppend([h], bl);
    if e.None? {
      TopLevelAppend([h] + bl, ["}"]);
    } else {
      var el := IndentLines(Lines(RenderBlock(e.value)));
      TopLevelIndented(Lines(RenderBlock(e.value)));
      TopLevelLine("} else {");
      TopLevelAppend([h] + bl, ["} else {"]);
      TopLevelAppend([h] + bl + ["} else {"], el);
      TopLevelAppend([h] + bl + ["} else {"] + el, ["}"]);
    }
  }

  /** Branch shape selection: a top-level `} else {` line appears exactly
      when the If has an `Else` block. */
  lemma IfElseLine(c: Expr, b: Block, e: Option<Block>)
    requires StmtLeaves(If(c, b, e), OneLine)
    ensures ("} else {" in TopLevel(Lines(RenderStmt(If(c, b, e))))) <==> e.Some?
  {
    var h := "if " + RenderExpr(c) + " {";
    IfTopLevel(c, b, e);
    assert h[0] == 'i';
    assert "} else {"[0] == '}';
    assert h != "} else {";
  }

  lemma FuncDefLines(ty: string, name: string, params: seq<Expr>, body: Block)
    requires DeclLeaves(FuncDef(ty, name, params, body), OneLine)
    ensures Lines(RenderDecl(FuncDef(ty, name, params, body))) ==
      [ty + " " + name + "(" + Join(RenderExprs(params), ", ") + ") {"]
      + IndentLines(Lines(RenderBlock(body))) + ["}"]
  {
    var h := ty + " " + name + "(" + Join(RenderExprs(params), ", ") + ") ";
    assert h + "{" == ty + " " + name + "(" + Join(RenderExprs(params), ", ") + ") {";
    DeclLayout(FuncDef(ty, name, params, body));
    LinesOfJoin(DeclLines(FuncDef(ty, name, params, body)));
    BlockLinesExact(body);
  }

  /** The Struct rule as lines: one indented `member;` line per member, in
      order, between `struct name {` and `}`; without members, a single
      line holding only the margin stands between them. */
  lemma StructLines(name: string, members: seq<Expr>)
    requires DeclLeaves(Struct(name, members), OneLine)
    ensures var ls := Lines(RenderDecl(Struct(name, members)));
      && |ls| == |members| + 2 + (if |members| == 0 then 1 else 0)
      && ls[0] == "struct " + name + " {"
      && ls[|ls| - 1] == "}"
      && (|members| == 0 ==> ls[1] == Margin)
      && forall i :: 0 <= i < |members| ==> ls[i + 1] == Margin + RenderExpr(members[i]) + ";"
  {
    DeclLayout(Struct(name, members));
    LinesOfJoin(DeclLines(Struct(name, members)));
  }
}
