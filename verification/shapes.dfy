/** Properties of the individual rendering rules of the C++ back end:
    where each child lands, which separators and terminators surround it,
    and which template an optional field selects. */
module Shapes {
  import opened Text
  import opened Ast
  import opened TargetCpp

  /** A translation unit lists its declarations in order, one blank line
      between neighbours, with nothing before the first or after the last. */
  lemma RootOrder(root: Root, i: nat)
    requires i < |root.decls|
    ensures RenderDecls(root.decls)[i] == RenderDecl(root.decls[i])
    ensures PartAt(Render(root), RenderDecls(root.decls), "\n\n", i)
  {
    JoinAt(RenderDecls(root.decls), "\n\n", i);
  }

  /** An import is one `#include name` line per name, in order; an import
      without names renders as the empty text. */
  lemma ImportLines(names: seq<string>)
    requires forall i :: 0 <= i < |names| ==> '\n' !in names[i]
    ensures |names| == 0 ==> RenderDecl(Import(names)) == ""
    ensures |names| > 0 ==>
      && |Lines(RenderDecl(Import(names)))| == |names|
      && forall i :: 0 <= i < |names| ==> Lines(RenderDecl(Import(names)))[i] == "#include " + names[i]
  {
    var ls := IncludeLines(names);
    if |names| > 0 {
      forall i | 0 <= i < |ls|
        ensures '\n' !in ls[i]
      {
        assert ls[i] == "#include " + names[i];
      }
      LinesOfJoin(ls);
    }
  }

  /** A list of fragments under the `<expr>;` template: each fragment is
      followed by `;`, the last one included, the terminated fragments are
      separated by single line breaks in order, and an empty list renders
      as the empty text. */
  lemma TerminatedList(frags: seq<string>)
    ensures (BlockTemplate(frags) == "") <==> (|frags| == 0)
    ensures |frags| > 0 ==> EndsWith(BlockTemplate(frags), ";")
    ensures forall i :: 0 <= i < |frags| ==>
      && Terminated(frags)[i] == frags[i] + ";"
      && PartAt(BlockTemplate(frags), Terminated(frags), "\n", i)
  {
    var parts := Terminated(frags);
    var r := BlockTemplate(frags);
    forall i | 0 <= i < |frags|
      ensures PartAt(r, parts, "\n", i)
    {
      JoinAt(parts, "\n", i);
    }
    if |frags| > 0 {
      var last := |frags| - 1;
      JoinAt(parts, "\n", last);
      var o := Offset(parts, "\n", last);
      assert r[o..|r|] == frags[last] + ";";
      assert r[|r| - 1] == ';';
    }
  }

  /** The StmtBlock rule: every statement, including compound ones and the
      last one, is followed by `;`; statements are separated by single line
      breaks in order; an empty block renders as the empty text. */
  lemma BlockTerminated(b: Block)
    ensures (RenderBlock(b) == "") <==> (|b.items| == 0)
    ensures |b.items| > 0 ==> EndsWith(RenderBlock(b), ";")
    ensures forall i :: 0 <= i < |b.items| ==>
      && Terminated(RenderStmts(b))[i] == RenderStmt(b.items[i]) + ";"
      && PartAt(RenderBlock(b), Terminated(RenderStmts(b)), "\n", i)
  {
    TerminatedList(RenderStmts(b));
  }

  /** The two If shapes: with an `Else` block the rendering is exactly the
      one-branch rendering followed by ` else ` and the braced else block. */
  lemma IfElseExtends(c: Expr, body: Block, other: Block)
    ensures RenderStmt(If(c, body, Some(other))) ==
      RenderStmt(If(c, body, None)) + " else " + Braced(RenderBlock(other))
  {
  }

  /** The Alloc rule: an initializer adds exactly ` = ` and its rendering
      after the declaration `type name`. */
  lemma AllocInit(ty: string, name: string, x: Expr)
    ensures RenderExpr(Alloc(ty, name, Some(x))) ==
      RenderExpr(Alloc(ty, name, None)) + " = " + RenderExpr(x)
  {
  }

  /** Counting '=' in an Alloc rendering: those of the type and the name,
      plus one and those of the initializer when it is present. */
  lemma AllocEquals(ty: string, name: string, init: Option<Expr>)
    ensures Count(RenderExpr(Alloc(ty, name, init)), '=') ==
      Count(ty, '=') + Count(name, '=') +
      (if init.Some? then 1 + Count(RenderExpr(init.value), '=') else 0)
  {
    CountAppend(ty, " ", '=');
    CountAppend(ty + " ", name, '=');
    if init.Some? {
      CountAppend(ty + " " + name, " = ", '=');
      CountAppend(ty + " " + name + " = ", RenderExpr(init.value), '=');
    }
  }

  /** With `=`-free type and name, the declaration holds an `=` exactly
      when an initializer is present. */
  lemma AllocHasEquals(ty: string, name: string, init: Option<Expr>)
    requires '=' !in ty && '=' !in name
    ensures ('=' in RenderExpr(Alloc(ty, name, init))) <==> init.Some?
  {
    AllocEquals(ty, name, init);
    CountZero(ty, '=');
    CountZero(name, '=');
    CountZero(RenderExpr(Alloc(ty, name, init)), '=');
  }

  /** `Count` is zero exactly for texts without the character. */
  lemma {:induction false} CountZero(s: string, c: char)
    ensures (Count(s, c) == 0) <==> (c !in s)
  {
    if |s| > 0 {
      CountZero(s[1..], c);
      assert s == [s[0]] + s[1..];
    }
  }

  /** Each dimension adds one opening bracket. */
  lemma {:induction false} DimensionsCount(ranges: seq<string>, c: char)
    requires c == '[' || c == ']'
    ensures SumCount(Dimensions(ranges), c) == |ranges| + SumCount(ranges, c)
  {
    if |ranges| > 0 {
      DimensionsCount(ranges[1..], c);
      assert Dimensions(ranges)[1..] == Dimensions(ranges[1..]);
      CountAppend("[", ranges[0], c);
      CountAppend("[" + ranges[0], "]", c);
    }
  }

  /** The New rule, counted: the rendering holds the brackets of the
      element type and of the dimension renderings plus exactly one bracket
      pair per dimension. */
  lemma NewBrackets(elemType: string, ranges: seq<Expr>, c: char)
    requires c == '[' || c == ']'
    ensures Count(RenderExpr(New(elemType, ranges)), c) ==
      Count(elemType, c) + |ranges| + SumCount(RenderExprs(ranges), c)
  {
    NewTemplateCount(elemType, RenderExprs(ranges), c);
  }

  lemma NewTemplateCount(elemType: string, rs: seq<string>, c: char)
    requires c == '[' || c == ']'
    ensures Count(NewTemplate(elemType, rs), c) == Count(elemType, c) + |rs| + SumCount(rs, c)
  {
    var dims := Dimensions(rs);
    var j := Join(dims, "");
    CountAppend("(new ", elemType, c);
    CountAppend("(new " + elemType, j, c);
    CountAppend("(new " + elemType + j, ")", c);
    DimensionsCount(rs, c);
    if |dims| > 0 {
      CountJoin(dims, "", c);
    }
  }

  /** The New rule, in order: `(new type`, then one `[size]` group per
      dimension in the order of the dimensions, then `)`. */
  lemma NewDimensions(elemType: string, ranges: seq<Expr>)
    ensures var r := RenderExpr(New(elemType, ranges));
      && |r| >= 6 + |elemType|
      && r[..5 + |elemType|] == "(new " + elemType
      && r[|r| - 1] == ')'
      && forall i :: 0 <= i < |ranges| ==>
        && Dimensions(RenderExprs(ranges))[i] == "[" + RenderExpr(ranges[i]) + "]"
        && PartAt(r[5 + |elemType|..|r| - 1], Dimensions(RenderExprs(ranges)), "", i)
  {
    var dims := Dimensions(RenderExprs(ranges));
    var j := Join(dims, "");
    var r := RenderExpr(New(elemType, ranges));
    assert r == "(new " + elemType + j + ")";
    var inner := r[5 + |elemType|..|r| - 1];
    assert inner == j;
    forall i | 0 <= i < |ranges|
      ensures PartAt(inner, dims, "", i)
    {
      JoinAt(dims, "", i);
    }
  }

  /** The Call rule: the callee, then the arguments in order separated by
      `, ` with nothing after the last, inside `(...)`; no arguments give
      `()`. */
  lemma CallArgs(f: Expr, args: seq<Expr>)
    ensures var r := RenderExpr(Call(f, args)); var n := |RenderExpr(f)|;
      && |r| >= n + 4
      && r[..n + 2] == "(" + RenderExpr(f) + "("
      && r[|r| - 2..] == "))"
      && (|args| == 0 ==> r == "(" + RenderExpr(f) + "())")
      && forall i :: 0 <= i < |args| ==>
        && RenderExprs(args)[i] == RenderExpr(args[i])
        && PartAt(r[n + 2..|r| - 2], RenderExprs(args), ", ", i)
  {
    var rs := RenderExprs(args);
    var r := RenderExpr(Call(f, args));
    var n := |RenderExpr(f)|;
    assert r == "(" + RenderExpr(f) + "(" + Join(rs, ", ") + "))";
    var inner := r[n + 2..|r| - 2];
    assert inner == Join(rs, ", ");
    forall i | 0 <= i < |args|
      ensures PartAt(inner, rs, ", ", i)
    {
      JoinAt(rs, ", ", i);
    }
  }

  /** The FuncDef rule: `type name(`, then the parameters in order separated
      by `, ` with nothing after the last, then `) ` and the braced body;
      no parameters give `()`. */
  lemma FuncDefParams(ty: string, name: string, params: seq<Expr>, body: Block)
    ensures var r := RenderDecl(FuncDef(ty, name, params, body));
      var h := |ty| + |name| + 2; var t := |Braced(RenderBlock(body))| + 2;
      && |r| >= h + t
      && r[..h] == ty + " " + name + "("
      && r[|r| - t..] == ") " + Braced(RenderBlock(body))
      && (|params| == 0 ==> r[h..|r| - t] == "")
      && forall i :: 0 <= i < |params| ==>
        && RenderExprs(params)[i] == RenderExpr(params[i])
        && PartAt(r[h..|r| - t], RenderExprs(params), ", ", i)
  {
    var rs := RenderExprs(params);
    var r := RenderDecl(FuncDef(ty, name, params, body));
    var tail := ") " + Braced(RenderBlock(body));
    var h := |ty| + |name| + 2;
    assert r == (ty + " " + name + "(") + Join(rs, ", ") + tail;
    var inner := r[h..|r| - |tail|];
    assert inner == Join(rs, ", ");
    forall i | 0 <= i < |params|
      ensures PartAt(inner, rs, ", ", i)
    {
      JoinAt(rs, ", ", i);
    }
  }
}
