/** Placeholder injection and the property lookup of aws_vapor/utils.py.

    A text is split into lines, every line gets its '\n' back, and each line is cut
    at exact `{{ name }}` placeholders; every placeholder becomes the parameter's
    value as a token of its own.  The result is a flat sequence of literal strings
    and values that is never joined into one string.
 */
module VaporUtils {

  datatype Option<T> = None | Some(value: T)

  /** One fragment of an injected text: a piece of literal text, or a parameter
      value that took the place of a placeholder. */
  datatype Token<V> = Literal(text: string) | Value(value: V)

  // ---------------------------------------------------------------------------
  // Searching in strings (Python's str.find)
  // ---------------------------------------------------------------------------

  /** `pat` occurs in `s` starting at index `i`. */
  predicate OccursAt(s: string, pat: string, i: int)
  {
    0 <= i && i + |pat| <= |s| && s[i..i + |pat|] == pat
  }

  ghost predicate Occurs(s: string, pat: string)
  {
    exists i :: OccursAt(s, pat, i)
  }

  function FindFrom(s: string, pat: string, from: nat): (r: int)
    ensures r == -1 || (from <= r && OccursAt(s, pat, r))
    ensures r == -1 ==> forall i :: from <= i ==> !OccursAt(s, pat, i)
    ensures r != -1 ==> forall i :: from <= i < r ==> !OccursAt(s, pat, i)
    decreases |s| - from
  {
    if from + |pat| > |s| then -1
    else if s[from..from + |pat|] == pat then from
    else FindFrom(s, pat, from + 1)
  }

  /** The index of the first occurrence of `pat` in `s`, or -1 when there is none. */
  function Find(s: string, pat: string): (r: int)
    ensures r == -1 <==> !Occurs(s, pat)
    ensures r != -1 ==> OccursAt(s, pat, r) && forall i :: 0 <= i < r ==> !OccursAt(s, pat, i)
  {
    FindFrom(s, pat, 0)
  }

  // ---------------------------------------------------------------------------
  // Cutting one line at placeholders (_replace_params)
  // ---------------------------------------------------------------------------

  /** The only form recognised as a placeholder: two braces, exactly one space,
      the name, exactly one space, two braces. */
  function Placeholder(name: string): (p: string)
    ensures |p| == |name| + 6
    ensures p[..3] == "{{ " && p[3..|p| - 3] == name && p[|p| - 3..] == " }}"
  {
    "{{ " + name + " }}"
  }

  /** No placeholder of any parameter name in `params` occurs in `s`. */
  ghost predicate FreeOfPlaceholders<V>(s: string, params: seq<(string, V)>)
  {
    forall k :: 0 <= k < |params| ==> !Occurs(s, Placeholder(params[k].0))
  }

  /** The first position in `params`, from `j` on, whose placeholder occurs in `line`. */
  function FirstMatchFrom<V>(line: string, params: seq<(string, V)>, j: nat): (r: Option<nat>)
    requires j <= |params|
    ensures r.None? <==> forall k :: j <= k < |params| ==> !Occurs(line, Placeholder(params[k].0))
    ensures r.Some? ==> j <= r.value < |params| && Occurs(line, Placeholder(params[r.value].0))
    ensures r.Some? ==> forall k :: j <= k < r.value ==> !Occurs(line, Placeholder(params[k].0))
    decreases |params| - j
  {
    if j == |params| then None
    else if Find(line, Placeholder(params[j].0)) != -1 then Some(j)
    else FirstMatchFrom(line, params, j + 1)
  }

  /** The parameters are scanned in order; the first one whose placeholder occurs wins. */
  function FirstMatch<V>(line: string, params: seq<(string, V)>): (r: Option<nat>)
    ensures r.None? <==> FreeOfPlaceholders(line, params)
    ensures r.Some? ==> r.value < |params| && Occurs(line, Placeholder(params[r.value].0))
    ensures r.Some? ==> forall k :: 0 <= k < r.value ==> !Occurs(line, Placeholder(params[k].0))
  {
    FirstMatchFrom(line, params, 0)
  }

  /** The tokens alternate literal, value, literal, ..., literal. */
  predicate Alternating<V>(ts: seq<Token<V>>)
  {
    |ts| % 2 == 1 && forall i :: 0 <= i < |ts| ==> (ts[i].Literal? <==> i % 2 == 0)
  }

  /** Every literal token is free of the placeholders of `params`. */
  ghost predicate LiteralsFree<V>(ts: seq<Token<V>>, params: seq<(string, V)>)
  {
    forall i :: 0 <= i < |ts| && ts[i].Literal? ==> FreeOfPlaceholders(ts[i].text, params)
  }

  lemma AlternatingJoin<V>(a: seq<Token<V>>, v: V, b: seq<Token<V>>)
    requires Alternating(a) && Alternating(b)
    ensures Alternating(a + [Value(v)] + b)
  {
    var r := a + [Value(v)] + b;
    forall i | 0 <= i < |r|
      ensures r[i].Literal? <==> i % 2 == 0
    {
      if i > |a| {
        assert r[i] == b[i - |a| - 1];
      }
    }
  }

  lemma LiteralsFreeJoin<V>(a: seq<Token<V>>, v: V, b: seq<Token<V>>, params: seq<(string, V)>)
    requires LiteralsFree(a, params) && LiteralsFree(b, params)
    ensures LiteralsFree(a + [Value(v)] + b, params)
  {
    var r := a + [Value(v)] + b;
    forall i | 0 <= i < |r| && r[i].Literal?
      ensures FreeOfPlaceholders(r[i].text, params)
    {
      if i > |a| {
        assert r[i] == b[i - |a| - 1];
      }
    }
  }

  /** The split of `line` at the first occurrence of the placeholder of `params[i]`:
      the text before it and the text after it. */
  function CutAt<V>(line: string, params: seq<(string, V)>, i: nat): (halves: (string, string))
    requires i < |params| && Occurs(line, Placeholder(params[i].0))
    ensures |halves.0| < |line| && |halves.1| < |line|
    ensures halves.0 + Placeholder(params[i].0) + halves.1 == line
    ensures forall j :: 0 <= j < |halves.0| ==> !OccursAt(line, Placeholder(params[i].0), j)
  {
    var key := Placeholder(params[i].0);
    var pos := Find(line, key);
    assert line == line[..pos] + line[pos..pos + |key|] + line[pos + |key|..];
    (line[..pos], line[pos + |key|..])
  }

  /** `_replace_params`: an exact placeholder of the first parameter (in `params`
      order) that occurs in `line` is cut out at its first occurrence and its value
      takes its place; both sides are cut again.  Values are never rescanned. */
  function ReplaceParams<V>(line: string, params: seq<(string, V)>): seq<Token<V>>
    decreases |line|
  {
    match FirstMatch(line, params)
    case None => [Literal(line)]
    case Some(i) =>
      var halves := CutAt(line, params, i);
      ReplaceParams(halves.0, params) + [Value(params[i].1)] + ReplaceParams(halves.1, params)
  }

  /** The tokens alternate literal, value, ..., literal, and no literal holds a
      placeholder of `params`: substituted values are never rescanned. */
  lemma {:induction false} ReplaceParamsShape<V>(line: string, params: seq<(string, V)>)
    ensures Alternating(ReplaceParams(line, params))
    ensures LiteralsFree(ReplaceParams(line, params), params)
    decreases |line|
  {
    match FirstMatch(line, params)
    case None =>
    case Some(i) =>
      var halves := CutAt(line, params, i);
      var left := ReplaceParams(halves.0, params);
      var right := ReplaceParams(halves.1, params);
      ReplaceParamsShape(halves.0, params);
      ReplaceParamsShape(halves.1, params);
      AlternatingJoin(left, params[i].1, right);
      LiteralsFreeJoin(left, params[i].1, right, params);
  }

  /** The names whose placeholders `ReplaceParams` substitutes, in token order. */
  function MatchedKeys<V>(line: string, params: seq<(string, V)>): seq<string>
    decreases |line|
  {
    match FirstMatch(line, params)
    case None => []
    case Some(i) =>
      var halves := CutAt(line, params, i);
      MatchedKeys(halves.0, params) + [params[i].0] + MatchedKeys(halves.1, params)
  }

  // ---------------------------------------------------------------------------
  // Putting placeholders back
  // ---------------------------------------------------------------------------

  /** The values carried by `ts`, in order. */
  function Values<V>(ts: seq<Token<V>>): seq<V>
  {
    if ts == [] then []
    else (if ts[0].Value? then [ts[0].value] else []) + Values(ts[1..])
  }

  /** The text obtained by concatenating the tokens, the j-th value replaced by the
      placeholder of `keys[j]`. */
  function Restore<V>(ts: seq<Token<V>>, keys: seq<string>): string
    requires |keys| == |Values(ts)|
  {
    if ts == [] then ""
    else match ts[0]
      case Literal(s) => s + Restore(ts[1..], keys)
      case Value(_) => Placeholder(keys[0]) + Restore(ts[1..], keys[1..])
  }

  lemma {:induction false} ValuesAppend<V>(a: seq<Token<V>>, b: seq<Token<V>>)
    ensures Values(a + b) == Values(a) + Values(b)
  {
    if a == [] {
      assert a + b == b;
    } else {
      assert (a + b)[0] == a[0];
      assert (a + b)[1..] == a[1..] + b;
      ValuesAppend(a[1..], b);
    }
  }

  lemma {:induction false} RestoreAppend<V>(a: seq<Token<V>>, ka: seq<string>, b: seq<Token<V>>, kb: seq<string>)
    requires |ka| == |Values(a)| && |kb| == |Values(b)|
    ensures |ka + kb| == |Values(a + b)|
    ensures Restore(a + b, ka + kb) == Restore(a, ka) + Restore(b, kb)
  {
    ValuesAppend(a, b);
    if a == [] {
      assert a + b == b;
      assert ka + kb == kb;
    } else {
      assert (a + b)[0] == a[0];
      assert (a + b)[1..] == a[1..] + b;
      match a[0]
      case Literal(s) =>
        RestoreAppend(a[1..], ka, b, kb);
      case Value(_) =>
        assert (ka + kb)[0] == ka[0];
        assert (ka + kb)[1..] == ka[1..] + kb;
        RestoreAppend(a[1..], ka[1..], b, kb);
    }
  }

  /** Values and restored text of `left + [Value(v)] + right`. */
  lemma JoinRestore<V>(left: seq<Token<V>>, kl: seq<string>, v: V, k: string, right: seq<Token<V>>, kr: seq<string>)
    requires |kl| == |Values(left)| && |kr| == |Values(right)|
    ensures Values(left + [Value(v)] + right) == Values(left) + [v] + Values(right)
    ensures |kl + [k] + kr| == |Values(left + [Value(v)] + right)|
    ensures Restore(left + [Value(v)] + right, kl + [k] + kr) == Restore(left, kl) + Placeholder(k) + Restore(right, kr)
  {
    var mid: seq<Token<V>> := [Value(v)];
    assert mid[1..] == [];
    assert Values(mid) == [v];
    assert Restore(mid, [k]) == Placeholder(k);
    ValuesAppend(mid, right);
    ValuesAppend(left, mid + right);
    RestoreAppend(mid, [k], right, kr);
    RestoreAppend(left, kl, mid + right, [k] + kr);
    assert left + [Value(v)] + right == left + (mid + right);
    assert kl + [k] + kr == kl + ([k] + kr);
  }

  lemma {:induction false} AlternatingValueCount<V>(ts: seq<Token<V>>)
    requires Alternating(ts)
    ensures |ts| == 2 * |Values(ts)| + 1
  {
    if |ts| == 1 {
      assert ts[1..] == [];
    } else {
      var rest := ts[2..];
      assert Alternating(rest) by {
        forall i | 0 <= i < |rest| ensures rest[i].Literal? <==> i % 2 == 0 {
          assert rest[i] == ts[i + 2];
        }
      }
      AlternatingValueCount(rest);
      assert ts[1..][1..] == rest;
    }
  }

  /** Re-inserting the placeholders gives back the line, and the j-th value token is
      the value of the j-th matched name. */
  lemma {:induction false} ReplaceParamsRestores<V>(line: string, params: seq<(string, V)>)
    ensures |MatchedKeys(line, params)| == |Values(ReplaceParams(line, params))|
    ensures Restore(ReplaceParams(line, params), MatchedKeys(line, params)) == line
    ensures forall j :: 0 <= j < |MatchedKeys(line, params)| ==>
              (MatchedKeys(line, params)[j], Values(ReplaceParams(line, params))[j]) in params
    decreases |line|
  {
    match FirstMatch(line, params)
    case None =>
      var single: seq<Token<V>> := [Literal(line)];
      assert single[1..] == [];
    case Some(i) =>
      var halves := CutAt(line, params, i);
      var left, right := ReplaceParams(halves.0, params), ReplaceParams(halves.1, params);
      var kl, kr := MatchedKeys(halves.0, params), MatchedKeys(halves.1, params);
      ReplaceParamsRestores(halves.0, params);
      ReplaceParamsRestores(halves.1, params);
      JoinRestore(left, kl, params[i].1, params[i].0, right, kr);
      assert params[i] in params;
      var ks := kl + [params[i].0] + kr;
      var vs := Values(left) + [params[i].1] + Values(right);
      forall j | 0 <= j < |ks| ensures (ks[j], vs[j]) in params {
        if j < |kl| {
          assert ks[j] == kl[j] && vs[j] == Values(left)[j];
        } else if j > |kl| {
          assert ks[j] == kr[j - |kl| - 1] && vs[j] == Values(right)[j - |kl| - 1];
        }
      }
  }

  /** There are 2·n+1 tokens for n substitutions. */
  lemma ReplaceParamsSize<V>(line: string, params: seq<(string, V)>)
    ensures |ReplaceParams(line, params)| == 2 * |MatchedKeys(line, params)| + 1
  {
    ReplaceParamsRestores(line, params);
    ReplaceParamsShape(line, params);
    AlternatingValueCount(ReplaceParams(line, params));
  }

  /** A line without any placeholder of `params` comes back as one literal token;
      in particular malformed spacing such as `{{x }}` or `{ { x }}` is kept verbatim. */
  lemma UntouchedLine<V>(line: string, params: seq<(string, V)>)
    requires FreeOfPlaceholders(line, params)
    ensures ReplaceParams(line, params) == [Literal(line)]
  {
  }

  // ---------------------------------------------------------------------------
  // Splitting a text into lines (Python's str.split('\n'))
  // ---------------------------------------------------------------------------

  /** `"\n".join(lines)`. */
  function JoinLines(lines: seq<string>): string
    requires |lines| >= 1
  {
    if |lines| == 1 then lines[0] else lines[0] + "\n" + JoinLines(lines[1..])
  }

  lemma NoNewlineBefore(s: string, n: int)
    requires 0 <= n <= |s|
    requires forall i :: 0 <= i < n ==> !OccursAt(s, "\n", i)
    ensures '\n' !in s[..n]
  {
    forall i | 0 <= i < n ensures s[i] != '\n' {
      assert s[i..i + 1] == [s[i]];
      assert !OccursAt(s, "\n", i);
    }
  }

  /** `s.split('\n')`: the pieces between newlines; always at least one. */
  function SplitLines(s: string): (lines: seq<string>)
    ensures |lines| >= 1
    ensures forall l :: l in lines ==> '\n' !in l
    ensures JoinLines(lines) == s
    decreases |s|
  {
    var i := Find(s, "\n");
    if i == -1 then
      NoNewlineBefore(s, |s|);
      assert s[..|s|] == s;
      [s]
    else
      NoNewlineBefore(s, i);
      assert s[i..i + 1] == "\n";
      assert s == s[..i] + "\n" + s[i + 1..];
      var rest := SplitLines(s[i + 1..]);
      assert ([s[..i]] + rest)[1..] == rest;
      [s[..i]] + rest
  }

  /** Splitting a join of newline-free lines gives the lines back. */
  lemma {:induction false} SplitJoin(lines: seq<string>)
    requires |lines| >= 1
    requires forall l :: l in lines ==> '\n' !in l
    ensures SplitLines(JoinLines(lines)) == lines
  {
    var s := JoinLines(lines);
    if |lines| == 1 {
      assert !Occurs(s, "\n") by {
        assert lines[0] in lines;
        forall i | 0 <= i < |s| ensures !OccursAt(s, "\n", i) {
          assert s[i] == s[i..i + 1][0];
          assert s[i] in lines[0];
        }
      }
    } else {
      var first := lines[0];
      var rest := JoinLines(lines[1..]);
      assert s == first + "\n" + rest;
      assert OccursAt(s, "\n", |first|);
      assert first in lines;
      forall i | 0 <= i < |first| ensures !OccursAt(s, "\n", i) {
        assert s[i..i + 1][0] == first[i];
        assert first[i] in first;
      }
      assert Find(s, "\n") == |first|;
      assert s[..|first|] == first;
      assert s[|first| + 1..] == rest;
      forall l | l in lines[1..] ensures '\n' !in l { assert l in lines; }
      SplitJoin(lines[1..]);
    }
  }

  lemma SplitLinesUnfold(s: string, i: int)
    requires i == Find(s, "\n") && i != -1
    ensures 0 <= i < |s|
    ensures SplitLines(s) == [s[..i]] + SplitLines(s[i + 1..])
  {
  }

  lemma {:induction false} LastLineAfterNewline(s: string)
    requires |s| > 0 && s[|s| - 1] == '\n'
    ensures SplitLines(s)[|SplitLines(s)| - 1] == ""
    decreases |s|
  {
    var i := Find(s, "\n");
    assert OccursAt(s, "\n", |s| - 1) by { assert s[|s| - 1..] == "\n"; }
    SplitLinesUnfold(s, i);
    var rest := s[i + 1..];
    var tail := SplitLines(rest);
    assert SplitLines(s)[|SplitLines(s)| - 1] == tail[|tail| - 1];
    if i < |s| - 1 {
      assert rest[|rest| - 1] == s[|s| - 1];
      LastLineAfterNewline(rest);
    } else {
      assert rest == "";
      assert Find(rest, "\n") == -1;
      assert tail == [""];
    }
  }

  // ---------------------------------------------------------------------------
  // inject_params
  // ---------------------------------------------------------------------------

  /** The tokens of every line of `lines`, each with '\n' appended, in order. */
  function Injected<V>(lines: seq<string>, params: seq<(string, V)>): seq<Token<V>>
  {
    if lines == [] then []
    else Injected(lines[..|lines| - 1], params) + ReplaceParams(lines[|lines| - 1] + "\n", params)
  }

  /** The names substituted in `Injected(lines, params)`, in order. */
  function InjectedKeys<V>(lines: seq<string>, params: seq<(string, V)>): seq<string>
  {
    if lines == [] then []
    else InjectedKeys(lines[..|lines| - 1], params) + MatchedKeys(lines[|lines| - 1] + "\n", params)
  }

  /** `inject_params`: split the text at '\n', give every line its '\n' back, and
      append the tokens of each line in turn. */
  method InjectParams<V>(text: string, params: seq<(string, V)>) returns (tokens: seq<Token<V>>)
    ensures tokens == Injected(SplitLines(text), params)
  {
    tokens := [];
    var lines := SplitLines(text);
    for n := 0 to |lines|
      invariant tokens == Injected(lines[..n], params)
    {
      var line := lines[n] + "\n";
      tokens := AppendAll(tokens, ReplaceParams(line, params));
      InjectedStep(lines, n, params);
    }
    assert lines[..|lines|] == lines;
  }

  /** The inner loop of `inject_params`: the tokens of one line appended one by one. */
  method AppendAll<V>(tokens: seq<Token<V>>, more: seq<Token<V>>) returns (result: seq<Token<V>>)
    ensures result == tokens + more
  {
    result := tokens;
    for m := 0 to |more|
      invariant result == tokens + more[..m]
    {
      assert more[..m + 1] == more[..m] + [more[m]];
      result := result + [more[m]];
    }
    assert more[..|more|] == more;
  }

  lemma InjectedStep<V>(lines: seq<string>, n: nat, params: seq<(string, V)>)
    requires n < |lines|
    ensures Injected(lines[..n + 1], params) == Injected(lines[..n], params) + ReplaceParams(lines[n] + "\n", params)
  {
    assert lines[..n + 1][..n] == lines[..n];
  }

  /** `"\n".join(lines) + "\n"`: every line followed by its newline. */
  function Terminated(lines: seq<string>): string
  {
    if lines == [] then "" else Terminated(lines[..|lines| - 1]) + lines[|lines| - 1] + "\n"
  }

  lemma {:induction false} TerminatedJoin(lines: seq<string>)
    requires |lines| >= 1
    ensures Terminated(lines) == JoinLines(lines) + "\n"
    decreases |lines|
  {
    if |lines| > 1 {
      var rest := lines[1..];
      TerminatedJoin(rest);
      TerminatedCons(lines[0], rest);
      assert [lines[0]] + rest == lines;
    } else {
      assert lines[..0] == [];
    }
  }

  lemma {:induction false} TerminatedCons(first: string, rest: seq<string>)
    ensures Terminated([first] + rest) == first + "\n" + Terminated(rest)
    decreases |rest|
  {
    var all := [first] + rest;
    if rest == [] {
      assert all[..0] == [];
    } else {
      var init := rest[..|rest| - 1];
      assert all[..|all| - 1] == [first] + init;
      TerminatedCons(first, init);
    }
  }

  lemma {:induction false} InjectedRestores<V>(lines: seq<string>, params: seq<(string, V)>)
    ensures |InjectedKeys(lines, params)| == |Values(Injected(lines, params))|
    ensures Restore(Injected(lines, params), InjectedKeys(lines, params)) == Terminated(lines)
    ensures forall j :: 0 <= j < |InjectedKeys(lines, params)| ==>
              (InjectedKeys(lines, params)[j], Values(Injected(lines, params))[j]) in params
  {
    if lines != [] {
      var init := lines[..|lines| - 1];
      var line := lines[|lines| - 1] + "\n";
      InjectedRestores(init, params);
      ReplaceParamsRestores(line, params);
      RestoreAppend(Injected(init, params), InjectedKeys(init, params),
                    ReplaceParams(line, params), MatchedKeys(line, params));
      ValuesAppend(Injected(init, params), ReplaceParams(line, params));
    }
  }

  /** Putting every substituted placeholder back into the output of `inject_params`
      and concatenating gives the input text plus one final '\n'. */
  lemma InjectParamsRestores<V>(text: string, params: seq<(string, V)>)
    ensures |InjectedKeys(SplitLines(text), params)| == |Values(Injected(SplitLines(text), params))|
    ensures Restore(Injected(SplitLines(text), params), InjectedKeys(SplitLines(text), params)) == text + "\n"
  {
    InjectedRestores(SplitLines(text), params);
    TerminatedJoin(SplitLines(text));
  }

  /** With no parameters every line comes back as one literal, '\n' appended. */
  lemma {:induction false} InjectedWithoutParams<V>(lines: seq<string>)
    ensures |Injected<V>(lines, [])| == |lines|
    ensures forall i :: 0 <= i < |lines| ==> Injected<V>(lines, [])[i] == Literal(lines[i] + "\n")
  {
    if lines != [] {
      var init := lines[..|lines| - 1];
      InjectedWithoutParams<V>(init);
      assert ReplaceParams<V>(lines[|lines| - 1] + "\n", []) == [Literal(lines[|lines| - 1] + "\n")];
    }
  }

  /** No parameters: the tokens are the split lines, each with '\n' appended, and
      their concatenation is the input plus one '\n'. */
  lemma InjectParamsWithoutParams<V>(text: string)
    ensures var lines := SplitLines(text);
      |Injected<V>(lines, [])| == |lines| &&
      (forall i :: 0 <= i < |lines| ==> Injected<V>(lines, [])[i] == Literal(lines[i] + "\n")) &&
      Values(Injected<V>(lines, [])) == [] &&
      Restore(Injected<V>(lines, []), []) == text + "\n"
  {
    var lines := SplitLines(text);
    InjectedWithoutParams<V>(lines);
    InjectedRestores<V>(lines, []);
    assert InjectedKeys<V>(lines, []) == [] by { InjectedKeysWithoutParams<V>(lines); }
    TerminatedJoin(lines);
  }

  lemma {:induction false} InjectedKeysWithoutParams<V>(lines: seq<string>)
    ensures InjectedKeys<V>(lines, []) == []
  {
    if lines != [] {
      InjectedKeysWithoutParams<V>(lines[..|lines| - 1]);
    }
  }

  lemma LiteralsFreeAppend<V>(a: seq<Token<V>>, b: seq<Token<V>>, params: seq<(string, V)>)
    requires LiteralsFree(a, params) && LiteralsFree(b, params)
    ensures LiteralsFree(a + b, params)
  {
    var ab := a + b;
    forall i | 0 <= i < |ab| && ab[i].Literal?
      ensures FreeOfPlaceholders(ab[i].text, params)
    {
      if i >= |a| { assert ab[i] == b[i - |a|]; }
    }
  }

  /** No literal token of the output of `inject_params` holds a placeholder of `params`. */
  lemma {:induction false} InjectedLiteralsFree<V>(lines: seq<string>, params: seq<(string, V)>)
    ensures LiteralsFree(Injected(lines, params), params)
  {
    if lines != [] {
      var init := lines[..|lines| - 1];
      InjectedLiteralsFree(init, params);
      ReplaceParamsShape(lines[|lines| - 1] + "\n", params);
      LiteralsFreeAppend(Injected(init, params), ReplaceParams(lines[|lines| - 1] + "\n", params), params);
    }
  }

  /** A text that ends in '\n' yields a final lone "\n" literal. */
  lemma TrailingNewlineToken<V>(text: string, params: seq<(string, V)>)
    requires |text| > 0 && text[|text| - 1] == '\n'
    ensures var ts := Injected(SplitLines(text), params);
      |ts| > 0 && ts[|ts| - 1] == Literal("\n")
  {
    LastLineAfterNewline(text);
    EmptyLastLine(SplitLines(text), params);
  }

  /** An empty last line contributes exactly the token "\n". */
  lemma EmptyLastLine<V>(lines: seq<string>, params: seq<(string, V)>)
    requires |lines| >= 1 && lines[|lines| - 1] == ""
    ensures var ts := Injected(lines, params);
      |ts| > 0 && ts[|ts| - 1] == Literal("\n")
  {
    assert lines[|lines| - 1] + "\n" == "\n";
    NewlineOnly(params);
    var init: seq<Token<V>> := Injected(lines[..|lines| - 1], params);
    assert Injected(lines, params) == init + [Literal("\n")];
  }

  /** A lone '\n' is shorter than any placeholder, so it stays one literal. */
  lemma NewlineOnly<V>(params: seq<(string, V)>)
    ensures ReplaceParams("\n", params) == [Literal("\n")]
  {
    forall k | 0 <= k < |params| ensures !Occurs("\n", Placeholder(params[k].0)) {
      assert |Placeholder(params[k].0)| > 1;
    }
    UntouchedLine("\n", params);
  }

  // ---------------------------------------------------------------------------
  // get_property_from_config_file, over an already loaded props map
  // ---------------------------------------------------------------------------

  /** section -> key -> value; `None` stands for a value read as Python's None. */
  type Props = map<string, map<string, Option<string>>>

  /** The stored value of `key` in `section`, or `default` when the section or the
      key is missing or the stored value is None. */
  function GetProperty(props: Props, section: string, key: string, default: Option<string> := None): (r: Option<string>)
    ensures (section in props && key in props[section] && props[section][key].Some?) ==> r == props[section][key]
    ensures !(section in props && key in props[section] && props[section][key].Some?) ==> r == default
  {
    if section !in props then default
    else
      var entries := props[section];
      if key !in entries then default
      else
        var value := entries[key];
        if value.None? then default
        else value
  }
  /** One step of loading a config file: `props[section][key] = value`, creating
      the section first when it is missing. */
  function SetProperty(props: Props, section: string, key: string, value: Option<string>): (r: Props)
    ensures r.Keys == props.Keys + {section}
    ensures forall s :: s in props && s != section ==> r[s] == props[s]
    ensures section in props ==> r[section] == props[section][key := value]
    ensures section !in props ==> r[section] == map[key := value]
  {
    var entries := if section in props then props[section] else map[];
    props[section := entries[key := value]]
  }

  /** A value loaded for a key is what the lookup returns, unless it is None; no
      other key's lookup changes. */
  lemma GetPropertyAfterSet(props: Props, section: string, key: string, value: Option<string>,
                            otherSection: string, otherKey: string, default: Option<string>)
    requires otherSection != section || otherKey != key
    ensures GetProperty(SetProperty(props, section, key, value), section, key, default)
            == if value.Some? then value else default
    ensures GetProperty(SetProperty(props, section, key, value), otherSection, otherKey, default)
            == GetProperty(props, otherSection, otherKey, default)
  {
  }
}
