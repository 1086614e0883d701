/** Worked examples: the exact text the C++ back end emits for small trees. */
module Scenarios {
  import opened Text
  import opened Ast
  import opened TargetCpp
  import opened Delimiters
  import opened Grouping

  /** One `#include` line per imported name, no angle brackets. */
  lemma ImportScenario()
    ensures RenderDecl(Import(["iostream", "vector"])) == "#include iostream\n#include vector"
  {
    var ls := IncludeLines(["iostream", "vector"]);
    assert ls[0] == "#include iostream" && ls[1] == "#include vector";
    assert ls[1..] == ["#include vector"];
    assert Join(ls, "\n") == "#include iostream" + "\n" + "#include vector";
  }

  /** An empty body still gets its own, indented, empty line. */
  lemma EmptyMainScenario()
    ensures RenderDecl(FuncDef("int", "main", [], Block([]))) == "int main() {\n    \n}"
  {
    assert RenderExprs([]) == [];
    assert RenderBlock(Block([])) == "";
    EmptyMainTemplate();
  }

  lemma EmptyMainTemplate()
    ensures FuncDefTemplate("int", "main", [], "") == "int main() {\n    \n}"
  {
    assert Join([], ", ") == "";
    EmptyBraced();
    EmptyMainHead();
    EmptyMainGlue();
  }

  lemma EmptyMainHead()
    ensures "int" + " " + "main" + "(" + "" + ") " == "int main() "
  {
  }

  lemma EmptyMainGlue()
    ensures "int main() " + "{\n    \n}" == "int main() {\n    \n}"
  {
  }

  lemma BinScenario()
    ensures RenderExpr(Bin(Const("a"), "+", Const("b"))) == "(a + b)"
  {
  }

  /** Brackets inside a constant do not matter for the parentheses. */
  lemma IndexedConstScenario()
    ensures RenderExpr(Bin(Const("a[0]"), "+", Const("1"))) == "(a[0] + 1)"
    ensures Balanced(RenderExpr(Bin(Const("a[0]"), "+", Const("1"))), Parens)
  {
    var e := Bin(Const("a[0]"), "+", Const("1"));
    assert ExprLeaves(e, FreeOf(Parens));
    ExprBalanced(e, Parens);
  }

  /** A statement is terminated and indented inside the braces. */
  lemma IfScenario()
    ensures RenderStmt(If(Const("x"), Block([ExprStmt(Assign(Const("y"), Const("1")))]), None))
      == "if x {\n    y = 1;\n}"
  {
    var body := Block([ExprStmt(Assign(Const("y"), Const("1")))]);
    AssignScenario();
    TerminatedScenario(body);
    IfTemplateScenario();
  }

  lemma IfTemplateScenario()
    ensures IfTemplate("x", "y = 1;", None) == "if x {\n    y = 1;\n}"
  {
    BracedScenario();
  }

  lemma AssignScenario()
    ensures RenderExpr(Assign(Const("y"), Const("1"))) == "y = 1"
  {
  }

  lemma TerminatedScenario(body: Block)
    requires body == Block([ExprStmt(Assign(Const("y"), Const("1")))])
    ensures RenderBlock(body) == "y = 1;"
  {
    AssignScenario();
    assert RenderStmts(body) == ["y = 1"];
    assert Terminated(["y = 1"])[0] == "y = 1;";
    assert Terminated(["y = 1"]) == ["y = 1;"];
  }

  lemma BracedScenario()
    ensures Braced("y = 1;") == "{\n    y = 1;\n}"
  {
    BracedLine("y = 1;");
  }

  /** A one-line body sits on its own line behind the margin. */
  lemma BracedLine(t: string)
    requires '\n' !in t
    ensures Braced(t) == "{\n    " + t + "\n}"
  {
    IndentLine(t);
  }

  /** The three clauses of a `for`, each rendered by its own rule. */
  lemma ForScenario()
    ensures RenderStmt(For(
        Alloc("int", "i", Some(Const("0"))),
        Bin(Const("i"), "<", Const("n")),
        Assign(Const("i"), Bin(Const("i"), "+", Const("1"))),
        Block([])))
      == "for (int i = 0; (i < n); i = (i + 1)) {\n    \n}"
  {
    ForClausesScenario();
    assert RenderBlock(Block([])) == "";
    ForTemplateScenario();
  }

  lemma ForClausesScenario()
    ensures RenderExpr(Alloc("int", "i", Some(Const("0")))) == "int i = 0"
    ensures RenderExpr(Bin(Const("i"), "<", Const("n"))) == "(i < n)"
    ensures RenderExpr(Assign(Const("i"), Bin(Const("i"), "+", Const("1")))) == "i = (i + 1)"
  {
    AllocScenario();
    StepScenario();
  }

  lemma AllocScenario()
    ensures RenderExpr(Alloc("int", "i", Some(Const("0")))) == "int i = 0"
  {
  }

  lemma StepScenario()
    ensures RenderExpr(Assign(Const("i"), Bin(Const("i"), "+", Const("1")))) == "i = (i + 1)"
  {
    assert RenderExpr(Bin(Const("i"), "+", Const("1"))) == "(i + 1)";
  }

  lemma ForTemplateScenario()
    ensures ForTemplate("int i = 0", "(i < n)", "i = (i + 1)", "")
      == "for (int i = 0; (i < n); i = (i + 1)) {\n    \n}"
  {
    EmptyBraced();
    ForHead();
    ForGlue();
  }

  lemma ForHead()
    ensures "for (" + "int i = 0" + "; " + "(i < n)" + "; " + "i = (i + 1)" + ") "
      == "for (int i = 0; (i < n); i = (i + 1)) "
  {
  }

  lemma ForGlue()
    ensures "for (int i = 0; (i < n); i = (i + 1)) " + "{\n    \n}"
      == "for (int i = 0; (i < n); i = (i + 1)) {\n    \n}"
  {
  }

  lemma EmptyBraced()
    ensures Braced("") == "{\n    \n}"
  {
    BracedLine("");
  }
}
