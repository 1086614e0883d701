/** String building blocks that stand in for the StringTemplate engine used by
    the C++ back end: a list slot with a separator (`Join`), the split of a
    text into lines (`Lines`), the four-space auto-indentation of a slot that
    starts an indented line (`Indent`), and character counting. */
module Text {

  /** The four spaces StringTemplate re-emits after each line break of a
      slot that sits behind a four-space line start. */
  const Margin: string := "    "

  /** `x` is a suffix of `s`. */
  predicate EndsWith(s: string, x: string) {
    |x| <= |s| && s[|s| - |x|..] == x
  }

  // ---------------------------------------------------------------------
  // Join: the `<list; separator=sep>` slot
  // ---------------------------------------------------------------------

  /** The parts in order with `sep` between neighbours; the empty list gives
      the empty text. `JoinAt` states where each part lands. */
  function Join(parts: seq<string>, sep: string): string
  {
    if |parts| == 0 then ""
    else if |parts| == 1 then parts[0]
    else parts[0] + sep + Join(parts[1..], sep)
  }

  /** Reference definition of the same slot, built from the right end: the
      joined prefix, a separator, then the last part. */
  function JoinLeft(parts: seq<string>, sep: string): string
  {
    if |parts| == 0 then ""
    else if |parts| == 1 then parts[0]
    else JoinLeft(parts[..|parts| - 1], sep) + sep + parts[|parts| - 1]
  }

  /** Appending one part adds exactly one separator and the part. */
  lemma {:induction false} JoinSnoc(parts: seq<string>, sep: string, x: string)
    requires |parts| > 0
    ensures Join(parts + [x], sep) == Join(parts, sep) + sep + x
  {
    if |parts| == 1 {
      assert (parts + [x])[1..] == [x];
    } else {
      assert (parts + [x])[1..] == parts[1..] + [x];
      JoinSnoc(parts[1..], sep, x);
    }
  }

  /** `Join` agrees with the right-to-left reference definition on every list. */
  lemma {:induction false} JoinMatchesJoinLeft(parts: seq<string>, sep: string)
    ensures Join(parts, sep) == JoinLeft(parts, sep)
  {
    if |parts| > 1 {
      var init := parts[..|parts| - 1];
      JoinMatchesJoinLeft(init, sep);
      JoinSnoc(init, sep, parts[|parts| - 1]);
      assert init + [parts[|parts| - 1]] == parts;
    }
  }

  /** Where part `i` starts in `Join(parts, sep)`: every earlier part and
      its separator come first. */
  function Offset(parts: seq<string>, sep: string, i: nat): nat
    requires i <= |parts|
  {
    if i == 0 then 0 else |parts[0]| + |sep| + Offset(parts[1..], sep, i - 1)
  }

  lemma {:induction false} OffsetStep(parts: seq<string>, sep: string, i: nat)
    requires i < |parts|
    ensures Offset(parts, sep, i + 1) == Offset(parts, sep, i) + |parts[i]| + |sep|
  {
    if i > 0 {
      OffsetStep(parts[1..], sep, i - 1);
    }
  }

  /** In `r`, part `i` sits at `Offset(parts, sep, i)`; it is followed by
      exactly one separator when it is not the last part, and it ends `r`
      when it is. */
  predicate PartAt(r: string, parts: seq<string>, sep: string, i: nat)
    requires i < |parts|
  {
    var o := Offset(parts, sep, i);
    var e := o + |parts[i]|;
    && e <= |r|
    && r[o..e] == parts[i]
    && (i + 1 < |parts| ==> e + |sep| <= |r| && r[e..e + |sep|] == sep)
    && (i + 1 == |parts| ==> e == |r|)
  }

  /** Order preservation: every part of a join lands at its offset, with
      one separator after it unless it is the last. */
  lemma {:induction false} JoinAt(parts: seq<string>, sep: string, i: nat)
    requires i < |parts|
    ensures PartAt(Join(parts, sep), parts, sep, i)
  {
    if |parts| == 1 {
      assert Join(parts, sep)[0..|parts[0]|] == parts[0];
    } else if i == 0 {
      JoinAtFirst(parts, sep);
    } else {
      JoinAt(parts[1..], sep, i - 1);
      JoinAtShift(parts, sep, i);
    }
  }

  /** A non-empty join starts with its first part and ends with its last. */
  lemma JoinEnds(parts: seq<string>, sep: string)
    requires |parts| > 0
    ensures parts[0] <= Join(parts, sep)
    ensures EndsWith(Join(parts, sep), parts[|parts| - 1])
  {
    JoinAt(parts, sep, 0);
    JoinAt(parts, sep, |parts| - 1);
  }

  lemma EndsWithTrans(s: string, t: string, x: string)
    requires EndsWith(s, t) && EndsWith(t, x)
    ensures EndsWith(s, x)
  {
    assert s[|s| - |x|..] == s[|s| - |t|..][|t| - |x|..];
  }

  lemma JoinAtFirst(parts: seq<string>, sep: string)
    requires |parts| > 1
    ensures PartAt(Join(parts, sep), parts, sep, 0)
  {
    var rest := Join(parts[1..], sep);
    assert Join(parts, sep) == parts[0] + (sep + rest);
    SliceLeft(parts[0], sep + rest, 0, |parts[0]|);
    SliceRight(parts[0], sep + rest, 0, |sep|);
    SliceLeft(sep, rest, 0, |sep|);
  }

  lemma JoinAtShift(parts: seq<string>, sep: string, i: nat)
    requires 0 < i < |parts|
    requires PartAt(Join(parts[1..], sep), parts[1..], sep, i - 1)
    ensures PartAt(Join(parts, sep), parts, sep, i)
  {
    var pre := parts[0] + sep;
    var rest := Join(parts[1..], sep);
    assert Join(parts, sep) == pre + rest;
    assert parts[1..][i - 1] == parts[i];
    var o := Offset(parts[1..], sep, i - 1);
    assert Offset(parts, sep, i) == |pre| + o;
    SliceRight(pre, rest, o, o + |parts[i]|);
    if i + 1 < |parts| {
      SliceRight(pre, rest, o + |parts[i]|, o + |parts[i]| + |sep|);
    }
  }

  lemma SliceLeft(x: string, y: string, lo: int, hi: int)
    requires 0 <= lo <= hi <= |x|
    ensures (x + y)[lo..hi] == x[lo..hi]
  {
  }

  lemma SliceRight(x: string, y: string, lo: int, hi: int)
    requires 0 <= lo <= hi <= |y|
    ensures (x + y)[|x| + lo..|x| + hi] == y[lo..hi]
  {
  }

  /** Prepending `x` to the first part prepends it to the joined text. */
  lemma JoinPrependHead(x: string, parts: seq<string>, sep: string)
    requires |parts| > 0
    ensures Join([x + parts[0]] + parts[1..], sep) == x + Join(parts, sep)
  {
    var ps := [x + parts[0]] + parts[1..];
    assert ps[1..] == parts[1..];
  }

  // ---------------------------------------------------------------------
  // Lines
  // ---------------------------------------------------------------------

  /** The lines of `s`: the maximal break-free pieces between the '\n'
      characters, so a text with k breaks has k + 1 lines. */
  function Lines(s: string): (r: seq<string>)
    ensures |r| > 0
  {
    if |s| == 0 then [""]
    else
      var rest := Lines(s[1..]);
      if s[0] == '\n' then [""] + rest
      else [[s[0]] + rest[0]] + rest[1..]
  }

  /** Rejoining the lines of any text with '\n' gives the text back. */
  lemma {:induction false} JoinLines(s: string)
    ensures Join(Lines(s), "\n") == s
  {
    if |s| > 0 {
      var rest := Lines(s[1..]);
      JoinLines(s[1..]);
      if s[0] == '\n' {
        assert Lines(s) == [""] + rest;
        assert ([""] + rest)[1..] == rest;
        assert Join([""] + rest, "\n") == "" + "\n" + Join(rest, "\n");
        assert s == "\n" + s[1..];
      } else {
        assert Lines(s) == [[s[0]] + rest[0]] + rest[1..];
        JoinPrependHead([s[0]], rest, "\n");
        assert s == [s[0]] + s[1..];
      }
    }
  }

  /** A break-free text prefixes the first line and leaves the others alone. */
  lemma {:induction false} LinesPrefix(m: string, s: string)
    requires '\n' !in m
    ensures Lines(m + s) == [m + Lines(s)[0]] + Lines(s)[1..]
  {
    var ls := Lines(s);
    if |m| > 0 {
      assert m[0] in m;
      LinesPrefix(m[1..], s);
      LinesPrefixStep(m, s);
    } else {
      assert m + s == s;
      assert m + ls[0] == ls[0];
      assert ls == [ls[0]] + ls[1..];
    }
  }

  lemma LinesPrefixStep(m: string, s: string)
    requires |m| > 0 && m[0] != '\n'
    requires Lines(m[1..] + s) == [m[1..] + Lines(s)[0]] + Lines(s)[1..]
    ensures Lines(m + s) == [m + Lines(s)[0]] + Lines(s)[1..]
  {
    var ls := Lines(s);
    var x := Lines(m[1..] + s);
    assert x[0] == m[1..] + ls[0];
    assert x[1..] == ls[1..];
    ConsSplit(m, s);
    ConsSplit(m, ls[0]);
    LinesCons(m[0], m[1..] + s);
  }

  /** A non-empty text is its first character followed by the rest. */
  lemma ConsSplit(m: string, t: string)
    requires |m| > 0
    ensures [m[0]] + (m[1..] + t) == m + t
  {
    assert m == [m[0]] + m[1..];
  }

  /** A break-free text is a single line. */
  lemma LinesOfLine(t: string)
    requires '\n' !in t
    ensures Lines(t) == [t]
  {
    LinesPrefix(t, "");
    assert t + "" == t;
  }

  /** One unfolding step of `Lines`. */
  lemma LinesCons(c: char, s: string)
    ensures Lines([c] + s) ==
      if c == '\n' then [""] + Lines(s) else [[c] + Lines(s)[0]] + Lines(s)[1..]
  {
    assert ([c] + s)[1..] == s;
  }

  /** A '\n' between two texts separates their lines and adds nothing else. */
  lemma {:induction false} LinesBreak(a: string, b: string)
    ensures Lines(a + "\n" + b) == Lines(a) + Lines(b)
  {
    if |a| == 0 {
      assert a + "\n" + b == ['\n'] + b;
      LinesCons('\n', b);
    } else {
      var c, t := a[0], a[1..];
      assert a == [c] + t;
      LinesBreak(t, b);
      assert a + "\n" + b == [c] + (t + "\n" + b);
      LinesCons(c, t + "\n" + b);
      LinesCons(c, t);
      if c == '\n' {
        ConsAppend("", Lines(t), Lines(b));
      } else {
        HeadAppend([c], Lines(t), Lines(b));
      }
    }
  }

  lemma ConsAppend(x: string, l1: seq<string>, l2: seq<string>)
    ensures [x] + (l1 + l2) == ([x] + l1) + l2
  {
  }

  /** Extending the first line of `l1` commutes with appending `l2`. */
  lemma HeadAppend(x: string, l1: seq<string>, l2: seq<string>)
    requires |l1| > 0
    ensures [x + (l1 + l2)[0]] + (l1 + l2)[1..] == ([x + l1[0]] + l1[1..]) + l2
  {
    assert (l1 + l2)[0] == l1[0];
    assert (l1 + l2)[1..] == l1[1..] + l2;
  }

  /** Splitting parts joined by '\n' gives the parts back, when none of
      them holds a line break. */
  lemma {:induction false} LinesOfJoin(parts: seq<string>)
    requires |parts| > 0
    requires forall i :: 0 <= i < |parts| ==> '\n' !in parts[i]
    ensures Lines(Join(parts, "\n")) == parts
  {
    if |parts| == 1 {
      LinesOfLine(parts[0]);
    } else {
      LinesOfJoin(parts[1..]);
      LinesBreak(parts[0], Join(parts[1..], "\n"));
      LinesOfLine(parts[0]);
    }
  }

  // ---------------------------------------------------------------------
  // Indentation
  // ---------------------------------------------------------------------

  /** The slot's auto-indentation: four spaces after every '\n' of `s`;
      every other character is copied unchanged. */
  function Indent(s: string): string
  {
    if |s| == 0 then ""
    else (if s[0] == '\n' then "\n" + Margin else [s[0]]) + Indent(s[1..])
  }

  /** Reverse of `Indent`: drops the four spaces after each '\n' that has them. */
  function Unindent(s: string): (r: string)
    ensures |r| <= |s|
  {
    if |s| == 0 then ""
    else if s[0] == '\n' && |s| >= 5 && s[1..5] == Margin then "\n" + Unindent(s[5..])
    else [s[0]] + Unindent(s[1..])
  }

  /** Indentation loses nothing: the original text can be recovered. */
  lemma {:induction false} UnindentIndent(s: string)
    ensures Unindent(Indent(s)) == s
  {
    if |s| > 0 {
      UnindentIndent(s[1..]);
      var t := Indent(s);
      if s[0] == '\n' {
        assert t == "\n" + Margin + Indent(s[1..]);
        assert t[1..5] == Margin;
        assert t[5..] == Indent(s[1..]);
      } else {
        assert t == [s[0]] + Indent(s[1..]);
        assert t[1..] == Indent(s[1..]);
      }
      assert s == [s[0]] + s[1..];
    }
  }

  /** Indentation is applied character by character, so it distributes
      over concatenation. */
  lemma {:induction false} IndentAppend(a: string, b: string)
    ensures Indent(a + b) == Indent(a) + Indent(b)
  {
    if |a| > 0 {
      IndentAppend(a[1..], b);
      assert (a + b)[1..] == a[1..] + b;
      assert (a + b)[0] == a[0];
    } else {
      assert a + b == b;
    }
  }

  /** A break-free text is left as it is. */
  lemma {:induction false} IndentLine(t: string)
    requires '\n' !in t
    ensures Indent(t) == t
  {
    if |t| > 0 {
      assert t[0] in t;
      IndentLine(t[1..]);
      assert t == [t[0]] + t[1..];
    }
  }

  /** The margin in front of each line. */
  function IndentLines(ls: seq<string>): (r: seq<string>)
    ensures |r| == |ls|
    ensures forall i :: 0 <= i < |ls| ==> r[i] == Margin + ls[i]
  {
    seq(|ls|, i requires 0 <= i < |ls| => Margin + ls[i])
  }

  /** A slot that starts behind the margin puts the margin in front of
      every line of its text, the first included. */
  lemma {:induction false} IndentJoin(ls: seq<string>)
    requires |ls| > 0
    requires forall i :: 0 <= i < |ls| ==> '\n' !in ls[i]
    ensures Margin + Indent(Join(ls, "\n")) == Join(IndentLines(ls), "\n")
  {
    IndentLine(ls[0]);
    if |ls| > 1 {
      var il := IndentLines(ls);
      IndentJoin(ls[1..]);
      assert il[1..] == IndentLines(ls[1..]);
      IndentJoinStep(ls[0], Join(ls[1..], "\n"), Join(il[1..], "\n"));
    }
  }

  lemma IndentJoinStep(first: string, rest: string, irest: string)
    requires '\n' !in first && Margin + Indent(rest) == irest
    ensures Margin + Indent(first + "\n" + rest) == (Margin + first) + "\n" + irest
  {
    IndentLine(first);
    IndentAppend(first + "\n", rest);
    IndentAppend(first, "\n");
    IndentBreak();
    Regroup(Margin, first, Indent(rest));
  }

  lemma IndentBreak()
    ensures Indent("\n") == "\n" + Margin
  {
  }

  lemma Regroup(m: string, a: string, d: string)
    ensures m + ((a + ("\n" + m)) + d) == (m + a) + "\n" + (m + d)
  {
  }

  /** The lines that do not start with a space: the ones at the outermost
      nesting level of a rendering. */
  function TopLevel(ls: seq<string>): (r: seq<string>)
    ensures |r| <= |ls|
    ensures forall i :: 0 <= i < |r| ==> |r[i]| == 0 || r[i][0] != ' '
  {
    if |ls| == 0 then []
    else if |ls[0]| == 0 || ls[0][0] != ' ' then [ls[0]] + TopLevel(ls[1..])
    else TopLevel(ls[1..])
  }

  lemma {:induction false} TopLevelAppend(a: seq<string>, b: seq<string>)
    ensures TopLevel(a + b) == TopLevel(a) + TopLevel(b)
  {
    if |a| > 0 {
      TopLevelAppend(a[1..], b);
      assert (a + b)[1..] == a[1..] + b;
    } else {
      assert a + b == b;
    }
  }

  /** Indented lines never reach the outermost level. */
  lemma {:induction false} TopLevelIndented(ls: seq<string>)
    ensures TopLevel(IndentLines(ls)) == []
  {
    if |ls| > 0 {
      TopLevelIndented(ls[1..]);
      assert IndentLines(ls)[1..] == IndentLines(ls[1..]);
    }
  }

  // ---------------------------------------------------------------------
  // Counting characters
  // ---------------------------------------------------------------------

  /** Number of occurrences of `c` in `s`. */
  function Count(s: string, c: char): nat
  {
    if |s| == 0 then 0
    else (if s[0] == c then 1 else 0) + Count(s[1..], c)
  }

  lemma {:induction false} CountAppend(a: string, b: string, c: char)
    ensures Count(a + b, c) == Count(a, c) + Count(b, c)
  {
    if |a| > 0 {
      CountAppend(a[1..], b, c);
      assert (a + b)[1..] == a[1..] + b;
    } else {
      assert a + b == b;
    }
  }

  /** Total number of occurrences of `c` over all parts. */
  function SumCount(parts: seq<string>, c: char): nat
  {
    if |parts| == 0 then 0 else Count(parts[0], c) + SumCount(parts[1..], c)
  }

  /** A joined text holds the occurrences of its parts plus those of the
      separators between them. */
  lemma {:induction false} CountJoin(parts: seq<string>, sep: string, c: char)
    requires |parts| > 0
    ensures Count(Join(parts, sep), c) == SumCount(parts, c) + (|parts| - 1) * Count(sep, c)
  {
    if |parts| > 1 {
      var rest := Join(parts[1..], sep);
      assert Join(parts, sep) == parts[0] + sep + rest;
      assert SumCount(parts, c) == Count(parts[0], c) + SumCount(parts[1..], c);
      CountJoin(parts[1..], sep, c);
      CountAppend(parts[0], sep, c);
      CountAppend(parts[0] + sep, rest, c);
    }
  }
}
