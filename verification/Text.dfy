/** strings.TrimSpace, which decides what counts as a blank title, message or chat text. */
module Text {

  /** unicode.IsSpace. */
  predicate IsSpace(c: char)
  {
    || '\t' <= c <= '\r' || c == ' ' || c == '\U{85}' || c == '\U{A0}' || c == '\U{1680}'
    || '\U{2000}' <= c <= '\U{200A}' || c == '\U{2028}' || c == '\U{2029}'
    || c == '\U{202F}' || c == '\U{205F}' || c == '\U{3000}'
  }

  function TrimLeft(s: string): string
  {
    if |s| > 0 && IsSpace(s[0]) then TrimLeft(s[1..]) else s
  }

  function TrimRight(s: string): string
  {
    if |s| > 0 && IsSpace(s[|s| - 1]) then TrimRight(s[..|s| - 1]) else s
  }

  /** strings.TrimSpace. */
  function TrimSpace(s: string): string
  {
    TrimRight(TrimLeft(s))
  }

  predicate AllSpace(s: string)
  {
    forall i :: 0 <= i < |s| ==> IsSpace(s[i])
  }

  /** White space in ASCII is what it is taken to be: none of it visible, all of it trimmed. */
  lemma AsciiSpace(c: char)
    requires c < '\U{80}'
    ensures IsSpace(c) <==> c in {'\t', '\n', '\U{0B}', '\U{0C}', '\r', ' '}
  {
  }

  /** Blanks, tabs and line ends go from either end of any text. */
  lemma {:induction false} SpaceIsTrimmed(s: string, c: char)
    requires c in {' ', '\t', '\n', '\r'}
    ensures TrimSpace([c] + s) == TrimSpace(s) == TrimSpace(s + [c])
  {
    assert ([c] + s)[1..] == s;
    if |s| > 0 && IsSpace(s[0]) {
      SpaceIsTrimmed(s[1..], c);
      assert (s + [c])[1..] == s[1..] + [c];
    } else if |s| > 0 {
      assert TrimLeft(s + [c]) == s + [c] && (s + [c])[..|s|] == s;
    } else {
      assert TrimLeft([c]) == TrimLeft([c][1..]);
      assert s + [c] == [c] && [c][1..] == [];
    }
  }

  /** Trimming cuts white space off both ends and leaves none there. */
  lemma TrimSpaceCutsEnds(s: string)
    ensures exists a, b :: s == a + TrimSpace(s) + b && AllSpace(a) && AllSpace(b)
    ensures var t := TrimSpace(s); t == "" || (!IsSpace(t[0]) && !IsSpace(t[|t| - 1]))
  {
    var a := TrimLeftCuts(s);
    var b := TrimRightCuts(TrimLeft(s));
    TrimRightKeepsFirst(TrimLeft(s));
    assert s == a + TrimSpace(s) + b;
  }

  lemma {:induction false} TrimLeftCuts(s: string) returns (a: string)
    ensures s == a + TrimLeft(s) && AllSpace(a)
    ensures TrimLeft(s) == "" || !IsSpace(TrimLeft(s)[0])
  {
    a := "";
    if |s| > 0 && IsSpace(s[0]) {
      var a' := TrimLeftCuts(s[1..]);
      a := [s[0]] + a';
    }
  }

  lemma {:induction false} TrimRightCuts(s: string) returns (b: string)
    ensures s == TrimRight(s) + b && AllSpace(b)
    ensures TrimRight(s) == "" || !IsSpace(TrimRight(s)[|TrimRight(s)| - 1])
  {
    b := "";
    if |s| > 0 && IsSpace(s[|s| - 1]) {
      var b' := TrimRightCuts(s[..|s| - 1]);
      b := b' + [s[|s| - 1]];
    }
  }

  lemma {:induction false} TrimRightKeepsFirst(s: string)
    ensures TrimRight(s) <= s
  {
    if |s| > 0 && IsSpace(s[|s| - 1]) {
      TrimRightKeepsFirst(s[..|s| - 1]);
    }
  }

  lemma {:induction false} BlankTrimsToNothing(s: string)
    ensures TrimSpace(s) == "" <==> AllSpace(s)
  {
    if |s| > 0 && IsSpace(s[0]) {
      BlankTrimsToNothing(s[1..]);
      assert AllSpace(s) <==> AllSpace(s[1..]);
    } else if |s| > 0 {
      var b := TrimRightCuts(s);
      assert TrimRight(s) == "" ==> s == b;
    }
  }
}
