/** Balanced delimiters. A `Pair` is an opening and a closing character;
    a text is balanced for a pair when, read left to right, the number of
    open delimiters never drops below zero and ends at zero. */
module Delimiters {
  import opened Text

  datatype Pair = Pair(open: char, close: char)

  const Parens: Pair := Pair('(', ')')
  const Brackets: Pair := Pair('[', ']')
  const Braces: Pair := Pair('{', '}')

  /** The three pairs the C++ renderer emits. */
  predicate ValidPair(p: Pair) {
    p == Parens || p == Brackets || p == Braces
  }

  /** Change of nesting depth caused by one character. */
  function Delta(ch: char, p: Pair): int {
    if ch == p.open then 1 else if ch == p.close then -1 else 0
  }

  /** Net change of nesting depth over a whole text. */
  function Net(s: string, p: Pair): int {
    if |s| == 0 then 0 else Delta(s[0], p) + Net(s[1..], p)
  }

  /** Starting at depth `d`, the depth never drops below zero in `s`. */
  predicate NonNeg(s: string, p: Pair, d: int) {
    |s| == 0 || (d + Delta(s[0], p) >= 0 && NonNeg(s[1..], p, d + Delta(s[0], p)))
  }

  predicate Balanced(s: string, p: Pair) {
    Net(s, p) == 0 && NonNeg(s, p, 0)
  }

  /** `s` holds neither delimiter of `p`. */
  predicate Free(s: string, p: Pair) {
    forall i :: 0 <= i < |s| ==> s[i] != p.open && s[i] != p.close
  }

  lemma {:induction false} NetAppend(a: string, b: string, p: Pair)
    ensures Net(a + b, p) == Net(a, p) + Net(b, p)
  {
    if |a| > 0 {
      NetAppend(a[1..], b, p);
      assert (a + b)[1..] == a[1..] + b;
    } else {
      assert a + b == b;
    }
  }

  /** The depth stays non-negative over `a + b` exactly when it does over
      `a`, and then over `b` from the depth `a` ends at. */
  lemma {:induction false} NonNegAppend(a: string, b: string, p: Pair, d: int)
    ensures NonNeg(a + b, p, d) <==> NonNeg(a, p, d) && NonNeg(b, p, d + Net(a, p))
  {
    if |a| > 0 {
      NonNegAppend(a[1..], b, p, d + Delta(a[0], p));
      assert (a + b)[1..] == a[1..] + b;
      assert (a + b)[0] == a[0];
    } else {
      assert a + b == b;
    }
  }

  /** Starting deeper never hurts. */
  lemma {:induction false} NonNegMono(s: string, p: Pair, d: int, d': int)
    requires NonNeg(s, p, d) && d <= d'
    ensures NonNeg(s, p, d')
  {
    if |s| > 0 {
      NonNegMono(s[1..], p, d + Delta(s[0], p), d' + Delta(s[0], p));
    }
  }

  /** Text without delimiters is neutral. */
  lemma {:induction false} FreeNeutral(s: string, p: Pair, d: int)
    requires Free(s, p) && d >= 0
    ensures Net(s, p) == 0 && NonNeg(s, p, d)
  {
    if |s| > 0 {
      FreeNeutral(s[1..], p, d);
    }
  }

  lemma FreeBalanced(s: string, p: Pair)
    requires Free(s, p)
    ensures Balanced(s, p)
  {
    FreeNeutral(s, p, 0);
  }

  /** Balanced texts are closed under concatenation. */
  lemma BalancedAppend(a: string, b: string, p: Pair)
    requires Balanced(a, p) && Balanced(b, p)
    ensures Balanced(a + b, p)
  {
    NetAppend(a, b, p);
    NonNegAppend(a, b, p, 0);
  }

  /** Surrounding a balanced text with the pair itself, or with two
      characters that are not delimiters of the pair, keeps it balanced. */
  lemma BalancedAround(l: char, x: string, r: char, p: Pair)
    requires p.open != p.close && Balanced(x, p)
    requires (l == p.open && r == p.close) || (Free([l], p) && Free([r], p))
    ensures Balanced([l] + x + [r], p)
  {
    NetAppend([l], x, p);
    NetAppend([l] + x, [r], p);
    NonNegAppend([l], x, p, 0);
    NonNegAppend([l] + x, [r], p, 0);
    assert Net([l], p) == Delta(l, p) by { assert [l][1..] == []; }
    assert Net([r], p) == Delta(r, p) by { assert [r][1..] == []; }
    assert NonNeg([r], p, Delta(l, p)) by { assert [r][1..] == []; }
    assert NonNeg([l], p, 0) by { assert [l][1..] == []; }
    assert Delta(l, p) >= 0 && Delta(l, p) + Delta(r, p) == 0;
    NonNegMono(x, p, 0, Delta(l, p));
  }

  /** Joining balanced parts with a delimiter-free separator is balanced. */
  lemma {:induction false} BalancedJoin(parts: seq<string>, sep: string, p: Pair)
    requires forall i :: 0 <= i < |parts| ==> Balanced(parts[i], p)
    requires Free(sep, p)
    ensures Balanced(Join(parts, sep), p)
  {
    if |parts| == 0 {
    } else if |parts| > 1 {
      BalancedJoin(parts[1..], sep, p);
      FreeBalanced(sep, p);
      BalancedAppend(parts[0], sep, p);
      BalancedAppend(parts[0] + sep, Join(parts[1..], sep), p);
    }
  }

  /** A delimiter of the renderer is never a space or a line break. */
  lemma LayoutFree(p: Pair)
    requires ValidPair(p)
    ensures Free("\n" + Margin, p)
  {
  }

  /** Auto-indentation only inserts spaces, so it keeps the depth profile. */
  lemma {:induction false} IndentNonNeg(s: string, p: Pair, d: int)
    requires ValidPair(p) && NonNeg(s, p, d)
    ensures Net(Indent(s), p) == Net(s, p) && NonNeg(Indent(s), p, d)
  {
    if |s| > 0 {
      var piece := if s[0] == '\n' then "\n" + Margin else [s[0]];
      var d' := d + Delta(s[0], p);
      IndentNonNeg(s[1..], p, d');
      assert Indent(s) == piece + Indent(s[1..]);
      NetAppend(piece, Indent(s[1..]), p);
      NonNegAppend(piece, Indent(s[1..]), p, d);
      if s[0] == '\n' {
        LayoutFree(p);
        FreeNeutral(piece, p, d);
      } else {
        assert piece[1..] == [];
      }
    }
  }

  lemma IndentBalanced(s: string, p: Pair)
    requires ValidPair(p) && Balanced(s, p)
    ensures Balanced(Indent(s), p)
  {
    IndentNonNeg(s, p, 0);
  }

  /** Every prefix of a text whose depth stays non-negative is itself
      non-negative. */
  lemma {:induction false} NonNegPrefix(s: string, p: Pair, d: int, j: nat)
    requires NonNeg(s, p, d) && d >= 0 && j <= |s|
    ensures d + Net(s[..j], p) >= 0
  {
    if j > 0 {
      NonNegPrefix(s[1..], p, d + Delta(s[0], p), j - 1);
      assert s[..j][1..] == s[1..][..j - 1];
    } else {
      assert s[..j] == [];
    }
  }

  /** The outer pair around a balanced text is one group: the opening
      delimiter is still open after every proper, non-empty prefix, so it
      is closed by the last character and by no earlier one. */
  lemma EnclosedGroup(x: string, p: Pair)
    requires Balanced(x, p)
    ensures forall k :: 0 < k < |x| + 2 ==> Net(([p.open] + x + [p.close])[..k], p) >= 1
  {
    var s := [p.open] + x + [p.close];
    forall k | 0 < k < |x| + 2
      ensures Net(s[..k], p) >= 1
    {
      NonNegPrefix(x, p, 0, k - 1);
      assert s[..k] == [p.open] + x[..k - 1];
      NetAppend([p.open], x[..k - 1], p);
      assert [p.open][1..] == [];
    }
  }
}
