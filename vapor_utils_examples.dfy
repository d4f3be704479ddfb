/** The literal cases of tests/test_utils.py, proved about the model of
    `inject_params`: the placeholder form is exact, unresolved placeholders are
    kept verbatim, and a trailing '\n' yields a final "\n" token. */
module VaporUtilsExamples {
  import opened VaporUtils

  lemma FindIs(s: string, pat: string, i: int)
    requires OccursAt(s, pat, i)
    requires forall j :: 0 <= j < i ==> !OccursAt(s, pat, j)
    ensures Find(s, pat) == i
  {
  }

  /** `pat` cannot occur in `s` when, wherever its `j`-th character would stand,
      `s` differs from it there or at its `j + d`-th character. */
  lemma NoOccurrenceByChars(s: string, pat: string, j: nat, d: nat)
    requires j + d < |pat|
    requires forall k :: j <= k <= |s| - |pat| + j ==> s[k] != pat[j] || s[k + d] != pat[j + d]
    ensures !Occurs(s, pat)
  {
    forall i | 0 <= i <= |s| - |pat| ensures !OccursAt(s, pat, i) {
      assert s[i..i + |pat|][j] == s[i + j];
      assert s[i..i + |pat|][j + d] == s[i + j + d];
    }
  }

  lemma ReplaceParamsAt<V>(line: string, params: seq<(string, V)>, i: nat, pos: int)
    requires FirstMatch(line, params) == Some(i)
    requires pos == Find(line, Placeholder(params[i].0))
    ensures 0 <= pos && pos + |Placeholder(params[i].0)| <= |line|
    ensures ReplaceParams(line, params) ==
      ReplaceParams(line[..pos], params) + [Value(params[i].1)] + ReplaceParams(line[pos + |Placeholder(params[i].0)|..], params)
  {
  }

  /** The first cut of a line written as `a`, the placeholder of key `i`, `b`. */
  lemma ReplaceParamsAround<V>(a: string, b: string, params: seq<(string, V)>, i: nat)
    requires i < |params|
    requires FirstMatch(a + Placeholder(params[i].0) + b, params) == Some(i)
    requires Find(a + Placeholder(params[i].0) + b, Placeholder(params[i].0)) == |a|
    ensures ReplaceParams(a + Placeholder(params[i].0) + b, params) ==
      ReplaceParams(a, params) + [Value(params[i].1)] + ReplaceParams(b, params)
  {
    var p := Placeholder(params[i].0);
    var line := a + p + b;
    ReplaceParamsAt(line, params, i, |a|);
    assert line[..|a|] == a;
    assert line[|a| + |p|..] == b;
  }

  /** Lines shorter than every placeholder of `params` are left alone. */
  lemma ShortLine<V>(line: string, params: seq<(string, V)>)
    requires forall k :: 0 <= k < |params| ==> |line| < |Placeholder(params[k].0)|
    ensures ReplaceParams(line, params) == [Literal(line)]
  {
    UntouchedLine(line, params);
  }

  lemma InjectedSnoc<V>(lines: seq<string>, line: string, params: seq<(string, V)>)
    ensures Injected(lines + [line], params) == Injected(lines, params) + ReplaceParams(line + "\n", params)
  {
    assert (lines + [line])[..|lines|] == lines;
  }

  lemma FourTokens<V>(t0: Token<V>, t1: Token<V>, t2: Token<V>, t3: Token<V>)
    ensures [t0] + [t1] + [t2, t3] == [t0, t1, t2, t3]
  {
  }

  lemma SixTokens<V>(t0: Token<V>, t1: Token<V>, t2: Token<V>, t3: Token<V>, t4: Token<V>, t5: Token<V>)
    ensures [t0] + ([t1] + [t2] + [t3]) + [t4, t5] == [t0, t1, t2, t3, t4, t5]
  {
  }

  lemma FiveTokens<V>(t0: Token<V>, t1: Token<V>, t2: Token<V>, t3: Token<V>, t4: Token<V>)
    ensures [t0] + [t1] + ([t2] + [t3] + [t4]) == [t0, t1, t2, t3, t4]
  {
  }

  lemma ThreeLinesSplit(mid: string)
    requires '\n' !in mid
    ensures SplitLines("abcde\n" + mid + "\nklmno\n") == ["abcde", mid, "klmno", ""]
  {
    var lines := ["abcde", mid, "klmno", ""];
    assert JoinLines(lines) == "abcde\n" + mid + "\nklmno\n" by {
      assert lines[1..] == [mid, "klmno", ""];
      assert lines[1..][1..] == ["klmno", ""];
      assert lines[1..][1..][1..] == [""];
      assert JoinLines(["klmno", ""]) == "klmno\n";
    }
    assert forall l :: l in lines ==> '\n' !in l;
    SplitJoin(lines);
  }

  lemma InjectedOne<V>(a: string, params: seq<(string, V)>)
    ensures Injected([a], params) == ReplaceParams(a + "\n", params)
  {
    InjectedSnoc([], a, params);
    assert [] + [a] == [a];
  }

  lemma InjectedPair<V>(a: string, b: string, params: seq<(string, V)>)
    ensures Injected([a, b], params) == ReplaceParams(a + "\n", params) + ReplaceParams(b + "\n", params)
  {
    InjectedOne(a, params);
    InjectedSnoc([a], b, params);
    assert [a] + [b] == [a, b];
  }

  lemma InjectedTriple<V>(a: string, b: string, c: string, params: seq<(string, V)>)
    ensures Injected([a, b, c], params) ==
      ReplaceParams(a + "\n", params) + ReplaceParams(b + "\n", params) + ReplaceParams(c + "\n", params)
  {
    InjectedPair(a, b, params);
    InjectedSnoc([a, b], c, params);
    assert [a, b] + [c] == [a, b, c];
  }

  /** Four lines give the tokens of each line in turn. */
  lemma InjectedFour<V>(a: string, b: string, c: string, d: string, params: seq<(string, V)>)
    ensures Injected([a, b, c, d], params) ==
      ReplaceParams(a + "\n", params) + ReplaceParams(b + "\n", params) +
      ReplaceParams(c + "\n", params) + ReplaceParams(d + "\n", params)
  {
    InjectedTriple(a, b, c, params);
    InjectedSnoc([a, b, c], d, params);
    assert [a, b, c] + [d] == [a, b, c, d];
  }

  lemma ThreeLinesTokens<V>(mid: string, params: seq<(string, V)>, r1: seq<Token<V>>)
    requires forall k :: 0 <= k < |params| ==> |params[k].0| >= 1
    requires ReplaceParams(mid + "\n", params) == r1
    ensures Injected(["abcde", mid, "klmno", ""], params) ==
      [Literal("abcde\n")] + r1 + [Literal("klmno\n"), Literal("\n")]
  {
    InjectedFour("abcde", mid, "klmno", "", params);
    assert "abcde" + "\n" == "abcde\n" && "klmno" + "\n" == "klmno\n" && "" + "\n" == "\n";
    ShortLine("abcde\n", params);
    ShortLine("klmno\n", params);
    ShortLine("\n", params);
    var r0: seq<Token<V>> := [Literal("abcde\n")];
    var r2: seq<Token<V>> := [Literal("klmno\n")];
    var r3: seq<Token<V>> := [Literal("\n")];
    assert r0 + r1 + r2 + r3 == r0 + r1 + [Literal("klmno\n"), Literal("\n")];
  }

  /** The shape shared by the first seven tests: a line "abcde", a middle line, a
      line "klmno" and a final '\n'. */
  lemma ThreeLines<V>(mid: string, params: seq<(string, V)>, r1: seq<Token<V>>)
    requires '\n' !in mid
    requires forall k :: 0 <= k < |params| ==> |params[k].0| >= 1
    requires ReplaceParams(mid + "\n", params) == r1
    ensures Injected(SplitLines("abcde\n" + mid + "\nklmno\n"), params) ==
      [Literal("abcde\n")] + r1 + [Literal("klmno\n"), Literal("\n")]
  {
    ThreeLinesSplit(mid);
    ThreeLinesTokens(mid, params, r1);
  }

  lemma OccursBetween(a: string, pat: string, b: string)
    ensures OccursAt(a + pat + b, pat, |a|)
  {
    assert (a + pat + b)[|a|..|a| + |pat|] == pat;
  }

  lemma OnePlaceholderText(mid: string)
    requires mid == "__{{ fghij }}__"
    ensures mid + "\n" == "__" + Placeholder("fghij") + "__\n"
  {
  }

  lemma OnePlaceholderLine(a: string, c: string, params: seq<(string, string)>)
    requires a == "__" && c == "__\n" && params == [("fghij", "__fghij__")]
    ensures ReplaceParams(a + Placeholder("fghij") + c, params) == [Literal(a)] + [Value("__fghij__")] + [Literal(c)]
  {
    FindAfter(a, Placeholder("fghij"), c);
    FirstMatchIs(a + Placeholder("fghij") + c, params, 0);
    ReplaceParamsAround(a, c, params, 0);
    ShortLine(a, params);
    ShortLine(c, params);
  }

  lemma AllPlaceholdersReplaced(mid: string)
    requires mid == "__{{ fghij }}__"
    ensures Injected(SplitLines("abcde\n" + mid + "\nklmno\n"), [("fghij", "__fghij__")]) ==
      [Literal("abcde\n"), Literal("__"), Value("__fghij__"), Literal("__\n"), Literal("klmno\n"), Literal("\n")]
  {
    OnePlaceholderText(mid);
    OnePlaceholderLine("__", "__\n", [("fghij", "__fghij__")]);
    var r1: seq<Token<string>> := [Literal("__")] + [Value("__fghij__")] + [Literal("__\n")];
    ThreeLines(mid, [("fghij", "__fghij__")], r1);
    SixTokens(Literal("abcde\n"), Literal("__"), Value("__fghij__"), Literal("__\n"), Literal("klmno\n"), Literal("\n"));
  }

  lemma NoParametersPassed(mid: string)
    requires mid == "__{{ fghij }}__"
    ensures Injected<string>(SplitLines("abcde\n" + mid + "\nklmno\n"), []) ==
      [Literal("abcde\n"), Literal(mid + "\n"), Literal("klmno\n"), Literal("\n")]
  {
    UntouchedLine<string>(mid + "\n", []);
    ThreeLines<string>(mid, [], [Literal(mid + "\n")]);
    FourTokens<string>(Literal("abcde\n"), Literal(mid + "\n"), Literal("klmno\n"), Literal("\n"));
  }

  /** A middle line that holds no exact `{{ fghij }}` stays one literal. */
  lemma Malformed(mid: string, j: nat, d: nat)
    requires '\n' !in mid
    requires j + d < 11
    requires forall k :: j <= k <= |mid + "\n"| - 11 + j ==>
      (mid + "\n")[k] != Placeholder("fghij")[j] || (mid + "\n")[k + d] != Placeholder("fghij")[j + d]
    ensures Injected(SplitLines("abcde\n" + mid + "\nklmno\n"), [("fghij", "__fghij__")]) ==
      [Literal("abcde\n"), Literal(mid + "\n"), Literal("klmno\n"), Literal("\n")]
  {
    var params := [("fghij", "__fghij__")];
    NoOccurrenceByChars(mid + "\n", Placeholder("fghij"), j, d);
    UntouchedLine(mid + "\n", params);
    ThreeLines(mid, params, [Literal(mid + "\n")]);
    FourTokens<string>(Literal("abcde\n"), Literal(mid + "\n"), Literal("klmno\n"), Literal("\n"));
  }

  lemma NoSpaceOnTheLeftSide(mid: string)
    requires mid == "__{{fghij }}__"
    ensures Injected(SplitLines("abcde\n" + mid + "\nklmno\n"), [("fghij", "__fghij__")]) ==
      [Literal("abcde\n"), Literal(mid + "\n"), Literal("klmno\n"), Literal("\n")]
  {
    Malformed(mid, 2, 0);
  }

  lemma NoSpaceOnTheRightSide(mid: string)
    requires mid == "__{{ fghij}}__"
    ensures Injected(SplitLines("abcde\n" + mid + "\nklmno\n"), [("fghij", "__fghij__")]) ==
      [Literal("abcde\n"), Literal(mid + "\n"), Literal("klmno\n"), Literal("\n")]
  {
    Malformed(mid, 8, 0);
  }

  lemma NoSpacesOnTheBothSides(mid: string)
    requires mid == "__{{fghij}}__"
    ensures Injected(SplitLines("abcde\n" + mid + "\nklmno\n"), [("fghij", "__fghij__")]) ==
      [Literal("abcde\n"), Literal(mid + "\n"), Literal("klmno\n"), Literal("\n")]
  {
    Malformed(mid, 2, 0);
  }

  lemma SpaceBetweenLeftBraces(mid: string)
    requires mid == "__{ { fghij }}__"
    ensures Injected(SplitLines("abcde\n" + mid + "\nklmno\n"), [("fghij", "__fghij__")]) ==
      [Literal("abcde\n"), Literal(mid + "\n"), Literal("klmno\n"), Literal("\n")]
  {
    Malformed(mid, 0, 1);
  }

  lemma SpaceBetweenRightBraces(mid: string)
    requires mid == "__{{ fghij } }__"
    ensures Injected(SplitLines("abcde\n" + mid + "\nklmno\n"), [("fghij", "__fghij__")]) ==
      [Literal("abcde\n"), Literal(mid + "\n"), Literal("klmno\n"), Literal("\n")]
  {
    Malformed(mid, 9, 1);
  }

  lemma FirstMatchIs<V>(line: string, params: seq<(string, V)>, i: nat)
    requires i < |params| && Occurs(line, Placeholder(params[i].0))
    requires forall k :: 0 <= k < i ==> !Occurs(line, Placeholder(params[k].0))
    ensures FirstMatch(line, params) == Some(i)
  {
  }

  /** A placeholder preceded by a prefix that does not hold its first character is
      found right after that prefix. */
  lemma FindAfter(a: string, p: string, rest: string)
    requires |p| >= 1
    requires forall k :: 0 <= k < |a| ==> a[k] != p[0]
    ensures Find(a + p + rest, p) == |a|
  {
    var line := a + p + rest;
    OccursBetween(a, p, rest);
    forall j | 0 <= j < |a| ensures !OccursAt(line, p, j) {
      assert line[j..j + |p|][0] == a[j];
    }
    FindIs(line, p, |a|);
  }

  /** In the klmno half, fghij does not occur and klmno does, right after `b`. */
  lemma SecondOfTwoFound(b: string, c: string, params: seq<(string, string)>)
    requires b == "__" && c == "__pqrst\n"
    requires params == [("fghij", "__fghij__"), ("klmno", "__klmno__")]
    ensures FirstMatch(b + Placeholder("klmno") + c, params) == Some(1)
    ensures Find(b + Placeholder("klmno") + c, Placeholder("klmno")) == |b|
  {
    var k1, k2 := Placeholder("fghij"), Placeholder("klmno");
    var rest := b + k2 + c;
    assert rest == "__{{ klmno }}__pqrst\n";
    NoOccurrenceByChars(rest, k1, 3, 0);
    FindAfter(b, k2, c);
    FirstMatchIs(rest, params, 1);
  }

  lemma NoneOfTwoFound(c: string, params: seq<(string, string)>)
    requires c == "__pqrst\n"
    requires params == [("fghij", "__fghij__"), ("klmno", "__klmno__")]
    ensures ReplaceParams(c, params) == [Literal(c)]
  {
    NoOccurrenceByChars(c, Placeholder("fghij"), 0, 0);
    NoOccurrenceByChars(c, Placeholder("klmno"), 0, 0);
    UntouchedLine(c, params);
  }

  lemma RestOfTwoPlaceholdersLine(b: string, c: string, params: seq<(string, string)>)
    requires b == "__" && c == "__pqrst\n"
    requires params == [("fghij", "__fghij__"), ("klmno", "__klmno__")]
    ensures ReplaceParams(b + Placeholder("klmno") + c, params) == [Literal(b)] + [Value("__klmno__")] + [Literal(c)]
  {
    SecondOfTwoFound(b, c, params);
    ReplaceParamsAround(b, c, params, 1);
    ShortLine(b, params);
    NoneOfTwoFound(c, params);
  }

  /** Both placeholders of one line are replaced, fghij first since it is listed first. */
  lemma TwoPlaceholdersLine(a: string, b: string, c: string, params: seq<(string, string)>)
    requires a == "abcde__" && b == "__" && c == "__pqrst\n"
    requires params == [("fghij", "__fghij__"), ("klmno", "__klmno__")]
    ensures ReplaceParams(a + Placeholder("fghij") + (b + Placeholder("klmno") + c), params) ==
      [Literal(a), Value("__fghij__"), Literal(b), Value("__klmno__"), Literal(c)]
  {
    var k1 := Placeholder("fghij");
    var rest := b + Placeholder("klmno") + c;
    FindAfter(a, k1, rest);
    FirstMatchIs(a + k1 + rest, params, 0);
    ReplaceParamsAround(a, rest, params, 0);
    ShortLine(a, params);
    RestOfTwoPlaceholdersLine(b, c, params);
    FiveTokens(Literal(a), Value("__fghij__"), Literal(b), Value("__klmno__"), Literal(c));
  }

  lemma TwoPlaceholdersText(text: string)
    requires text == "abcde__{{ fghij }}__{{ klmno }}__pqrst"
    ensures text + "\n" == "abcde__" + Placeholder("fghij") + ("__" + Placeholder("klmno") + "__pqrst\n")
  {
  }

  lemma MultiPlaceholdersInOneLine(text: string)
    requires text == "abcde__{{ fghij }}__{{ klmno }}__pqrst"
    ensures Injected(SplitLines(text), [("fghij", "__fghij__"), ("klmno", "__klmno__")]) ==
      [Literal("abcde__"), Value("__fghij__"), Literal("__"), Value("__klmno__"), Literal("__pqrst\n")]
  {
    var params := [("fghij", "__fghij__"), ("klmno", "__klmno__")];
    assert '\n' !in text;
    SplitJoin([text]);
    assert Injected(SplitLines(text), params) == ReplaceParams(text + "\n", params) by {
      assert [text][..0] == [];
      assert Injected([], params) == [];
    }
    TwoPlaceholdersText(text);
    TwoPlaceholdersLine("abcde__", "__", "__pqrst\n", params);
  }
}
