# SugarCpp C++ back end, modelled in Dafny

SugarCpp translates a small surface language into C++. Its back end,
`TargetCpp`, is a visitor over the syntax tree. It has one `Visit` rule per node
kind. Each rule fills a fixed StringTemplate template with the renderings of the
node's children.

This project models that back end as pure functions over a closed syntax tree:

- `ast.dfy` (`Ast`) holds the tree.
  - Expressions: `Assign`, `Alloc`, `Call`, `Dict`, `New`, `Dot`, `Prefix`,
    `Bin` and `Const`.
  - The statement shapes `If`, `While` and `For`, plus an expression used as a
    statement.
  - Blocks, the declarations `Import`, `Struct` and `FuncDef`, and the `Root`.
  - `ExprLeaves` and its companions say that every leaf text (constant text,
    type, name, operator) satisfies a given test.
- `text.dfy` (`Text`) holds StringTemplate's list and indentation behaviour.
  - `Join` models `<list; separator=...>`.
  - `Indent` models auto-indentation: a slot written behind four spaces gets
    four spaces after every line break of its value.
  - `Lines` splits a text into its lines, `Unindent` removes the margin that
    `Indent` inserted, and `TopLevel` keeps the lines at the left margin.
- `target_cpp.dfy` (`TargetCpp`) has one template function per `Visit` rule.
  - The `Render*` functions fill the templates bottom-up.
  - The double dispatch through `Accept` becomes a `match`.
- `shapes.dfy` (`Shapes`) gives one property per rule: where each child lands,
  which separator and terminator surround it, and which of two templates an
  optional field selects.
- `delimiters.dfy` (`Delimiters`) and `grouping.dfy` (`Grouping`) cover
  parenthesisation.
  - For each of `()`, `[]` and `{}`: when no leaf text holds either delimiter
    of the pair, every rendering is balanced for that pair.
  - When no leaf text holds a parenthesis, the parentheses around a compound
    expression enclose exactly that expression.
- `layout.dfy` (`Layout`) is a second, line-oriented renderer.
  - A control statement or definition is a header line ending in `{`, its body
    lines one step deeper, and a closing `}`.
  - For trees without line breaks in leaf texts, it produces exactly the
    template renderer's text.
- `scenarios.dfy` (`Scenarios`) gives the exact text for a few small trees.

The `Import` rule's template is `#include <name>`. In StringTemplate, `<name>` is
a slot, so the code emits `#include iostream` with no angle brackets. The model
follows the code.

The lemmas hold for every tree that meets their stated preconditions;
`scenarios.dfy` gives worked examples.

## Model

| member | source | states |
|---|---|---|
| Text.JoinMatchesJoinLeft | src/SugarCpp.Compiler/Visitor/TargetCpp.cs:34 | A separated list equals the reference definition that adds parts at the right end: each later part comes after one separator. |
| Text.JoinAt | src/SugarCpp.Compiler/Visitor/TargetCpp.cs:34-41 | In a separated list, part i sits at its offset in list order. A separator follows every part but the last, and nothing follows the last. |
| Text.LinesOfJoin | src/SugarCpp.Compiler/Visitor/TargetCpp.cs:46 | Joining single-line parts with line breaks and reading the text back as lines gives the parts again. |
| Text.UnindentIndent | src/SugarCpp.Compiler/Visitor/TargetCpp.cs:119 | Auto-indentation only inserts the margin, so removing it recovers the slot value. |
| Text.IndentJoin | src/SugarCpp.Compiler/Visitor/TargetCpp.cs:119 | Auto-indenting a slot behind the margin indents every line of the value by one step. |
| TargetCpp.RenderExpr | src/SugarCpp.Compiler/Visitor/TargetCpp.cs:137-220 | Call, Dict, New, Dot, Prefix and Bin renderings start with `(` and end with `)`. A constant is its text unchanged. An assignment is not wrapped and starts with its left side. |
| TargetCpp.RenderStmt | src/SugarCpp.Compiler/AstNode/Stmt.cs:19-46 | Each statement goes to its own rule: it starts with `if `, `while ` or `for (` and ends with the closing brace. An expression statement is the expression's rendering unchanged. |
| TargetCpp.RenderBlock | src/SugarCpp.Compiler/Visitor/TargetCpp.cs:83-95 | A block renders as the empty text exactly when it has no statements. Otherwise it starts with the first statement followed by `;` and ends with `;`. |
| TargetCpp.Render | src/SugarCpp.Compiler/Visitor/TargetCpp.cs:32-42 | No declarations give the empty text. Otherwise the output starts with the first declaration and ends with the last. With two or more, the first is followed by a blank line. |
| TargetCpp.RenderDecl | src/SugarCpp.Compiler/Visitor/TargetCpp.cs:58-81 | A struct starts with `struct `. Struct and function definitions end with the closing brace on its own line. |
| Shapes.RootOrder | src/SugarCpp.Compiler/Visitor/TargetCpp.cs:34-41 | Declarations appear in list order, one blank line between neighbours, with nothing before the first or after the last. |
| Shapes.ImportLines | src/SugarCpp.Compiler/Visitor/TargetCpp.cs:46-55 | An import is one `#include name` line per name, in order, with no angle brackets. No names give the empty text. |
| Shapes.TerminatedList | src/SugarCpp.Compiler/Visitor/TargetCpp.cs:60-69 | Every fragment of a member list is followed by `;`, the last one included, one per line in order. The text is empty exactly when the list is. |
| Shapes.BlockTerminated | src/SugarCpp.Compiler/Visitor/TargetCpp.cs:85-94 | Every statement of a block, including compound ones and the last, is followed by `;`. Statements are separated by one line break, in order. An empty block is the empty text. |
| Shapes.IfElseExtends | src/SugarCpp.Compiler/Visitor/TargetCpp.cs:99-113 | With an `Else` block, the rendering is the one-branch rendering followed by ` else ` and the braced else block. |
| Shapes.AllocInit | src/SugarCpp.Compiler/Visitor/TargetCpp.cs:145-159 | An initializer adds exactly ` = ` and its rendering after `type name`. |
| Shapes.AllocEquals | src/SugarCpp.Compiler/Visitor/TargetCpp.cs:145-159 | The `=` count of a declaration is that of the type and the name, plus one and the initializer's count when there is an initializer. |
| Shapes.AllocHasEquals | src/SugarCpp.Compiler/Visitor/TargetCpp.cs:145-159 | With `=`-free type and name, the declaration contains `=` if and only if an initializer is present. |
| Shapes.NewBrackets | src/SugarCpp.Compiler/Visitor/TargetCpp.cs:180-190 | The brackets of `new` are those of the element type and of the dimensions, plus exactly one pair per dimension. |
| Shapes.NewDimensions | src/SugarCpp.Compiler/Visitor/TargetCpp.cs:180-190 | `(new type`, then one `[size]` group per dimension in order with nothing between groups, then `)`. |
| Shapes.CallArgs | src/SugarCpp.Compiler/Visitor/TargetCpp.cs:164-167 | `(callee(`, then the arguments in order separated by `, ` with nothing after the last, then `))`. No arguments give `(callee())`. |
| Shapes.FuncDefParams | src/SugarCpp.Compiler/Visitor/TargetCpp.cs:75-80 | `type name(`, then the parameters in order separated by `, ` with nothing after the last, then `) ` and the braced body. No parameters give `()`. |
| Grouping.ExprBalanced | src/SugarCpp.Compiler/Visitor/TargetCpp.cs:137-220 | For each of `()`, `[]` and `{}`: when no leaf text holds a delimiter of that pair, every expression rendering is balanced for it. |
| Grouping.CompoundEnclosed | src/SugarCpp.Compiler/Visitor/TargetCpp.cs:164-211 | When no leaf text holds a parenthesis, the outer parentheses of a compound expression form one group. The text inside is balanced, and only the last character closes the first. |
| Grouping.IfTemplateBalanced | src/SugarCpp.Compiler/Visitor/TargetCpp.cs:99-113 | Both If templates turn balanced slot values into a balanced text. |
| Grouping.ForTemplateBalanced | src/SugarCpp.Compiler/Visitor/TargetCpp.cs:127-132 | The For template turns balanced clauses and body into a balanced text. |
| Grouping.FuncDefTemplateBalanced | src/SugarCpp.Compiler/Visitor/TargetCpp.cs:75-80 | The FuncDef template turns balanced parameters and body, with type and name free of the pair, into a balanced text. |
| Grouping.StmtBalanced | src/SugarCpp.Compiler/Visitor/TargetCpp.cs:97-133 | Every statement rendering is balanced for each pair whose delimiters no leaf text holds. |
| Grouping.BlockBalanced | src/SugarCpp.Compiler/Visitor/TargetCpp.cs:85-94 | Every block rendering is balanced for each pair whose delimiters no leaf text holds. |
| Grouping.DeclBalanced | src/SugarCpp.Compiler/Visitor/TargetCpp.cs:44-81 | Every declaration rendering is balanced for each pair whose delimiters no leaf text holds. |
| Grouping.RootBalanced | src/SugarCpp.Compiler/Visitor/TargetCpp.cs:32-42 | The whole translation unit is balanced for each pair whose delimiters no leaf text holds. |
| Layout.BracedLayout | src/SugarCpp.Compiler/Visitor/TargetCpp.cs:119 | As lines, a braced body is the head line with `{`, the body lines one step deeper, then `}`. |
| Layout.StmtLayout | src/SugarCpp.Compiler/Visitor/TargetCpp.cs:97-133 | A statement's text equals the line renderer's lines joined by line breaks. No line holds a line break. |
| Layout.BlockLayout | src/SugarCpp.Compiler/Visitor/TargetCpp.cs:85-94 | The same for a block: each statement's lines in order, with the last line of each statement terminated by `;`. |
| Layout.DeclLayout | src/SugarCpp.Compiler/Visitor/TargetCpp.cs:44-81 | The same for a declaration. |
| Layout.RootLayout | src/SugarCpp.Compiler/Visitor/TargetCpp.cs:32-42 | The same for the translation unit: the declarations' lines with exactly one empty line between neighbours. |
| Layout.RootLinesExact | src/SugarCpp.Compiler/Visitor/TargetCpp.cs:32-42 | Reading the output back as lines gives exactly the line renderer's lines. |
| Layout.StmtLinesExact | src/SugarCpp.Compiler/AstNode/Stmt.cs:19-46 | Reading a statement's text back as lines gives exactly the line renderer's lines. |
| Layout.BlockLinesExact | src/SugarCpp.Compiler/Visitor/TargetCpp.cs:85-94 | Reading a block's text back as lines gives exactly the line renderer's lines. |
| Layout.WhileLines | src/SugarCpp.Compiler/Visitor/TargetCpp.cs:119-122 | `while cond {`, every line of the rendered body one step deeper, then `}`. |
| Layout.ForLines | src/SugarCpp.Compiler/Visitor/TargetCpp.cs:127-132 | `for (start; cond; next) {` with the clauses in that order, the body one step deeper, then `}`. |
| Layout.IfLines | src/SugarCpp.Compiler/Visitor/TargetCpp.cs:99-113 | Without `Else`: `if cond {`, the body, `}`. With `Else`: `if cond {`, the body, `} else {`, the else body, `}`. Bodies are one step deeper. |
| Layout.IfTopLevel | src/SugarCpp.Compiler/Visitor/TargetCpp.cs:99-113 | Only the header line, `} else {` when `Else` is present, and `}` stand at the left margin. |
| Layout.IfElseLine | src/SugarCpp.Compiler/AstNode/Stmt.cs:15-17 | A top-level `} else {` line appears if and only if the If has an `Else` block. |
| Layout.FuncDefLines | src/SugarCpp.Compiler/Visitor/TargetCpp.cs:75-80 | `type name(params) {`, the body lines one step deeper, then `}`. |
| Layout.StructLines | src/SugarCpp.Compiler/Visitor/TargetCpp.cs:60-70 | `struct name {`, one indented `member;` line per member in order, then `}`. Without members, one line holding only the margin stands between the braces. |
| Scenarios.ImportScenario | src/SugarCpp.Compiler/Visitor/TargetCpp.cs:46-55 | Importing `iostream` and `vector` gives `#include iostream`, a line break, then `#include vector`. |
| Scenarios.EmptyMainScenario | src/SugarCpp.Compiler/Visitor/TargetCpp.cs:75-80 | `int main` with no parameters and an empty body gives `int main() {`, an indented empty line, then `}`. |
| Scenarios.BinScenario | src/SugarCpp.Compiler/Visitor/TargetCpp.cs:211-215 | `a + b` renders as `(a + b)`. |
| Scenarios.IndexedConstScenario | src/SugarCpp.Compiler/Visitor/TargetCpp.cs:211-215 | `a[0] + 1` renders as `(a[0] + 1)`, which is balanced for `()`: brackets in a constant do not stop the parentheses property. |
| Scenarios.IfScenario | src/SugarCpp.Compiler/Visitor/TargetCpp.cs:99-104 | `if x` with the body `y = 1` gives `if x {`, `    y = 1;`, `}`. |
| Scenarios.ForScenario | src/SugarCpp.Compiler/Visitor/TargetCpp.cs:127-132 | A counting loop renders as `for (int i = 0; (i < n); i = (i + 1)) {`, an indented empty line, then `}`. |

## Left out

- `Compile` (TargetCpp.cs:13-30) is outside the model: the carriage-return stripping and the ANTLR lexer, parser and tree walker. A tree is taken as given, and `Render` stands for the final `Render()` of the root template.
- StringTemplate itself is outside the model. Templates are string concatenation, and a slot written behind four spaces is modelled by `Indent`, which inserts four spaces after every line break. A blank line inside a body therefore gets the four spaces too, and an empty body gives an indented empty line. How the library treats blank lines is not visible here, so this rule is fixed by the model.
- TargetCpp.RenderExpr: `ExprConst` text is itself compiled as a template (TargetCpp.cs:220). StringTemplate would interpret `<...>` or escapes in it. The model emits the text verbatim.
- The `Visitor` base class, `AstNode` and the `Template` type are not part of this model. Double dispatch is a `match` over the closed datatypes, so a node kind without a rule cannot occur.
- The tree-walker's typing is not visible. `Root` holds declarations (`Import`, `Struct`, `FuncDef`). A block holds statements, and expressions such as assignments and declarations enter a block as expression statements.
- Grouping.ExprBalanced and the other balance lemmas assume, for the pair they are about, that no leaf text holds either delimiter of that pair. The source makes no promise for other texts: a constant such as `)` unbalances the output for `()`.
- Layout.StmtLayout and the other line lemmas assume that no leaf text holds a line break. A line break inside a constant would split a line in the output.
- Shapes.IfElseExtends and Shapes.AllocInit follow directly from the rule definitions. They document the two shapes; the line-level iff is Layout.IfElseLine.
- Determinism and termination are not stated as lemmas: rendering is a total function defined by structural recursion, so both hold by construction.
