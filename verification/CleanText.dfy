/** `clean` and `task_name` of apps/decision-local/decide.py: text that holds none of
    the model's marker tokens. */
module CleanText {
  import opened Basics
  import opened Decimals
  import opened UniqueNames

  const RESERVED := ["[P]", "[L]", "[C]", "[E]", "[R]", "[DESCRIPTION]", "[EXAMPLE]", "[OUTPUT]"]
  const PARENTHESES := ["(", ")"]

  /** The whitespace of Python's `\s` and `strip`. */
  predicate IsBlank(c: char) {
    || '\U{0009}' <= c <= '\U{000d}' || '\U{001c}' <= c <= '\U{0020}' || c == '\U{0085}' || c == '\U{00a0}'
    || c == '\U{1680}' || '\U{2000}' <= c <= '\U{200a}' || c == '\U{2028}' || c == '\U{2029}'
    || c == '\U{202f}' || c == '\U{205f}' || c == '\U{3000}'
  }

  /** `s.replace(token, " ")`. */
  function Replace(s: string, token: string): string
    requires token != ""
    decreases |s|
  {
    if s == "" then ""
    else if StartsWith(s, token) then " " + Replace(s[|token|..], token)
    else [s[0]] + Replace(s[1..], token)
  }

  function ReplaceEach(s: string, tokens: seq<string>): string
    requires forall i | 0 <= i < |tokens| :: tokens[i] != ""
    decreases |tokens|
  {
    if tokens == [] then s else Replace(ReplaceEach(s, tokens[..|tokens| - 1]), tokens[|tokens| - 1])
  }

  /** Every run of characters in `within` becomes one `mark`. */
  function Squeeze(s: string, within: char -> bool, mark: char): string
    decreases |s|
  {
    if s == "" then ""
    else if within(s[0]) then [mark] + Squeeze(AfterRun(s, within), within, mark)
    else [s[0]] + Squeeze(s[1..], within, mark)
  }

  function AfterRun(s: string, within: char -> bool): (r: string)
    ensures |r| <= |s| && (s != "" && within(s[0]) ==> |r| < |s|) && (r != "" ==> !within(r[0]))
  {
    if s != "" && within(s[0]) then AfterRun(s[1..], within) else s
  }

  function Collapse(s: string): string { Squeeze(s, IsBlank, ' ') }

  function Clean(text: string): string {
    TrimBy(Collapse(ReplaceEach(ReplaceEach(text, RESERVED), PARENTHESES)), IsBlank)
  }

  method CleanUp(text: string) returns (out: string)
    ensures out == Clean(text)
  {
    out := ReplaceInTurn(text, RESERVED);
    out := ReplaceInTurn(out, PARENTHESES);
    out := TrimBy(Collapse(out), IsBlank);
  }

  method ReplaceInTurn(text: string, tokens: seq<string>) returns (out: string)
    requires forall i | 0 <= i < |tokens| :: tokens[i] != ""
    ensures out == ReplaceEach(text, tokens)
  {
    out := text;
    for i := 0 to |tokens|
      invariant out == ReplaceEach(text, tokens[..i])
    {
      out := Replace(out, tokens[i]);
      assert tokens[..i + 1][..i] == tokens[..i];
    }
    assert tokens[..|tokens|] == tokens;
  }

  predicate IsSeparator(c: char) { IsBlank(c) || c == ':' }

  predicate IsUnderscore(c: char) { c == '_' }

  /** The model's name for a question, None when nothing usable is left of its id. */
  function TaskName(id: string): Option<string> {
    var name := TrimBy(Squeeze(Clean(id), IsSeparator, '_'), IsUnderscore);
    if name == "" then None else Some(name)
  }

  // ----- tokens do not come back --------------------------------------------

  /** Whether `token` occurs in `s`. */
  predicate Occurs(s: string, token: string) {
    StartsWith(s, token) || (s != "" && Occurs(s[1..], token))
  }

  lemma {:induction false} OccursLater(s: string, token: string, k: nat)
    requires k <= |s| && Occurs(s[k..], token)
    ensures Occurs(s, token)
  {
    if k > 0 {
      assert s[k..] == s[1..][k - 1..];
      OccursLater(s[1..], token, k - 1);
    } else {
      assert s[0..] == s;
    }
  }

  /** What an output starts with, if it holds no mark, the input starts with. */
  lemma {:induction false} ReplaceStarts(s: string, token: string, t: string)
    requires token != "" && ' ' !in t && StartsWith(Replace(s, token), t)
    ensures StartsWith(s, t)
    decreases |s|
  {
    if t != "" {
      assert t[0] in t;
      assert Replace(s, token)[..|t|][0] == t[0];
      assert s != "" && !StartsWith(s, token);
      StartsTail([s[0]], Replace(s[1..], token), t);
      ReplaceStarts(s[1..], token, t[1..]);
      StartsHead(s, t);
    }
  }

  lemma StartsTail(head: string, rest: string, t: string)
    requires |head| == 1 && t != "" && StartsWith(head + rest, t)
    ensures head[0] == t[0] && StartsWith(rest, t[1..])
  {
    assert (head + rest)[..|t|][0] == t[0];
    assert rest[..|t| - 1] == (head + rest)[..|t|][1..];
  }

  lemma StartsHead(s: string, t: string)
    requires s != "" && t != "" && s[0] == t[0] && StartsWith(s[1..], t[1..])
    ensures StartsWith(s, t)
  {
    assert s[..|t|] == [s[0]] + s[1..][..|t| - 1];
    assert t == [t[0]] + t[1..];
  }

  /** A token without blanks in the output was in the input. */
  lemma {:induction false} ReplaceKeepsOut(s: string, token: string, t: string)
    requires token != "" && t != "" && ' ' !in t && Occurs(Replace(s, token), t)
    ensures Occurs(s, t)
    decreases |s|
  {
    var out := Replace(s, token);
    if s == "" {
    } else if StartsWith(out, t) {
      ReplaceStarts(s, token, t);
    } else if StartsWith(s, token) {
      assert out[1..] == Replace(s[|token|..], token);
      ReplaceKeepsOut(s[|token|..], token, t);
      OccursLater(s, t, |token|);
    } else {
      assert out[1..] == Replace(s[1..], token);
      ReplaceKeepsOut(s[1..], token, t);
    }
  }

  lemma StartsFirst(s: string, t: string)
    requires t != "" && StartsWith(s, t)
    ensures s != "" && s[0] == t[0] && t[0] in t
  {
    assert s[..|t|][0] == t[0];
  }

  lemma NotAtStart(s: string, token: string)
    requires token != "" && ' ' !in token
    ensures !StartsWith(Replace(s, token), token)
  {
    if StartsWith(Replace(s, token), token) {
      ReplaceStarts(s, token, token);
      StartsFirst(Replace(s, token), token);
    }
  }

  /** The replaced token is gone. */
  lemma {:induction false} ReplaceRemoves(s: string, token: string)
    requires token != "" && ' ' !in token
    ensures !Occurs(Replace(s, token), token)
    decreases |s|
  {
    var out := Replace(s, token);
    if s != "" {
      NotAtStart(s, token);
      if StartsWith(s, token) {
        assert out[1..] == Replace(s[|token|..], token);
        ReplaceRemoves(s[|token|..], token);
      } else {
        assert out[1..] == Replace(s[1..], token);
        ReplaceRemoves(s[1..], token);
      }
    }
  }

  ghost predicate Tokens(tokens: seq<string>) {
    forall i | 0 <= i < |tokens| :: tokens[i] != "" && ' ' !in tokens[i]
  }

  lemma {:induction false} EachRemoved(s: string, tokens: seq<string>, i: nat)
    requires Tokens(tokens) && i < |tokens|
    ensures !Occurs(ReplaceEach(s, tokens), tokens[i])
    decreases |tokens|
  {
    var front, last := tokens[..|tokens| - 1], tokens[|tokens| - 1];
    if i == |tokens| - 1 {
      ReplaceRemoves(ReplaceEach(s, front), last);
    } else {
      EachRemoved(s, front, i);
      if Occurs(ReplaceEach(s, tokens), tokens[i]) {
        ReplaceKeepsOut(ReplaceEach(s, front), last, tokens[i]);
      }
    }
  }

  lemma {:induction false} EachKeepsOut(s: string, tokens: seq<string>, t: string)
    requires Tokens(tokens) && t != "" && ' ' !in t && !Occurs(s, t)
    ensures !Occurs(ReplaceEach(s, tokens), t)
    decreases |tokens|
  {
    if tokens != [] {
      var front, last := tokens[..|tokens| - 1], tokens[|tokens| - 1];
      EachKeepsOut(s, front, t);
      if Occurs(ReplaceEach(s, tokens), t) {
        ReplaceKeepsOut(ReplaceEach(s, front), last, t);
      }
    }
  }

  lemma {:induction false} SqueezeStarts(s: string, within: char -> bool, mark: char, t: string)
    requires mark !in t && StartsWith(Squeeze(s, within, mark), t)
    ensures StartsWith(s, t)
    decreases |s|
  {
    if t != "" {
      assert t[0] in t;
      assert Squeeze(s, within, mark)[..|t|][0] == t[0];
      assert s != "" && !within(s[0]);
      StartsTail([s[0]], Squeeze(s[1..], within, mark), t);
      SqueezeStarts(s[1..], within, mark, t[1..]);
      StartsHead(s, t);
    }
  }

  lemma {:induction false} AfterRunIsSuffix(s: string, within: char -> bool) returns (k: nat)
    ensures k <= |s| && AfterRun(s, within) == s[k..]
  {
    if s != "" && within(s[0]) {
      k := AfterRunIsSuffix(s[1..], within);
      k := k + 1;
    } else {
      k := 0;
    }
  }

  lemma {:induction false} SqueezeKeepsOut(s: string, within: char -> bool, mark: char, t: string)
    requires t != "" && mark !in t && Occurs(Squeeze(s, within, mark), t)
    ensures Occurs(s, t)
    decreases |s|
  {
    var out := Squeeze(s, within, mark);
    if s == "" {
    } else if StartsWith(out, t) {
      SqueezeStarts(s, within, mark, t);
    } else if within(s[0]) {
      assert out[1..] == Squeeze(AfterRun(s, within), within, mark);
      SqueezeKeepsOut(AfterRun(s, within), within, mark, t);
      var k := AfterRunIsSuffix(s, within);
      OccursLater(s, t, k);
    } else {
      assert out[1..] == Squeeze(s[1..], within, mark);
      SqueezeKeepsOut(s[1..], within, mark, t);
    }
  }

  lemma {:induction false} TrimStartKeepsOut(s: string, drop: char -> bool, t: string)
    requires Occurs(TrimStart(s, drop), t)
    ensures Occurs(s, t)
  {
    if s != "" && drop(s[0]) {
      TrimStartKeepsOut(s[1..], drop, t);
    }
  }

  lemma {:induction false} PrefixKeepsOut(s: string, k: nat, t: string)
    requires k <= |s| && t != "" && Occurs(s[..k], t)
    ensures Occurs(s, t)
    decreases |s|
  {
    if StartsWith(s[..k], t) {
      assert s[..|t|] == s[..k][..|t|];
    } else {
      assert s[..k][1..] == s[1..][..k - 1];
      PrefixKeepsOut(s[1..], k - 1, t);
    }
  }

  lemma {:induction false} TrimEndKeepsOut(s: string, drop: char -> bool, t: string)
    requires t != "" && Occurs(TrimEnd(s, drop), t)
    ensures Occurs(s, t)
    decreases |s|
  {
    if s != "" && drop(s[|s| - 1]) {
      TrimEndKeepsOut(s[..|s| - 1], drop, t);
      PrefixKeepsOut(s, |s| - 1, t);
    }
  }

  lemma TrimKeepsOut(s: string, drop: char -> bool, t: string)
    requires t != "" && !Occurs(s, t)
    ensures !Occurs(TrimBy(s, drop), t)
  {
    if Occurs(TrimBy(s, drop), t) {
      TrimEndKeepsOut(TrimStart(s, drop), drop, t);
      TrimStartKeepsOut(s, drop, t);
    }
  }

  const MARKERS := RESERVED + PARENTHESES

  lemma MarkersHaveNoBlank()
    ensures Tokens(RESERVED) && Tokens(PARENTHESES) && Tokens(MARKERS)
  {
  }

  /** Cleaned text holds no reserved token and no parenthesis. */
  lemma CleanIsSafe(text: string, t: string)
    requires t in MARKERS
    ensures !Occurs(Clean(text), t)
  {
    MarkersHaveNoBlank();
    var first := ReplaceEach(text, RESERVED);
    var second := ReplaceEach(first, PARENTHESES);
    if t in RESERVED {
      var i :| 0 <= i < |RESERVED| && RESERVED[i] == t;
      EachRemoved(text, RESERVED, i);
      EachKeepsOut(first, PARENTHESES, t);
    } else {
      var i :| 0 <= i < |PARENTHESES| && PARENTHESES[i] == t;
      EachRemoved(first, PARENTHESES, i);
    }
    if Occurs(Collapse(second), t) {
      SqueezeKeepsOut(second, IsBlank, ' ', t);
    }
    TrimKeepsOut(Collapse(second), IsBlank, t);
  }

  // ----- cleaning twice -----------------------------------------------------

  lemma {:induction false} ReplaceNothing(s: string, token: string)
    requires token != "" && !Occurs(s, token)
    ensures Replace(s, token) == s
  {
    if s != "" {
      ReplaceNothing(s[1..], token);
    }
  }

  lemma {:induction false} ReplaceEachNothing(s: string, tokens: seq<string>)
    requires Tokens(tokens) && forall i | 0 <= i < |tokens| :: !Occurs(s, tokens[i])
    ensures ReplaceEach(s, tokens) == s
    decreases |tokens|
  {
    if tokens != [] {
      ReplaceEachNothing(s, tokens[..|tokens| - 1]);
      ReplaceNothing(s, tokens[|tokens| - 1]);
    }
  }

  /** Blanks are single spaces. */
  ghost predicate Single(s: string) {
    forall i | 0 <= i < |s| && IsBlank(s[i]) :: s[i] == ' ' && (i + 1 < |s| ==> !IsBlank(s[i + 1]))
  }

  lemma {:induction false} CollapseSingle(s: string)
    ensures Single(Collapse(s))
    ensures Collapse(s) != "" && IsBlank(Collapse(s)[0]) ==> s != "" && IsBlank(s[0])
    decreases |s|
  {
    if s != "" {
      var rest := if IsBlank(s[0]) then AfterRun(s, IsBlank) else s[1..];
      CollapseSingle(rest);
      var out := Collapse(s);
      assert out[1..] == Collapse(rest);
      forall i | 0 <= i < |out| && IsBlank(out[i]) ensures out[i] == ' ' && (i + 1 < |out| ==> !IsBlank(out[i + 1])) {
        if i > 0 {
          assert out[i] == Collapse(rest)[i - 1];
        }
      }
    }
  }

  lemma {:induction false} CollapseNothing(s: string)
    requires Single(s)
    ensures Collapse(s) == s
    decreases |s|
  {
    if s != "" {
      forall i | 0 <= i < |s[1..]| && IsBlank(s[1..][i])
        ensures s[1..][i] == ' ' && (i + 1 < |s[1..]| ==> !IsBlank(s[1..][i + 1]))
      {
        assert s[1..][i] == s[i + 1];
      }
      CollapseNothing(s[1..]);
      if IsBlank(s[0]) {
        assert AfterRun(s, IsBlank) == AfterRun(s[1..], IsBlank) == s[1..];
      }
    }
  }

  /** Trimming cuts at both ends, down to what is not dropped. */
  lemma {:induction false} TrimStartCuts(s: string, drop: char -> bool) returns (k: nat)
    ensures k <= |s| && TrimStart(s, drop) == s[k..] && (k < |s| ==> !drop(s[k]))
  {
    k := 0;
    if s != "" && drop(s[0]) {
      k := TrimStartCuts(s[1..], drop);
      k := k + 1;
    }
  }

  lemma {:induction false} TrimEndCuts(s: string, drop: char -> bool) returns (k: nat)
    ensures k <= |s| && TrimEnd(s, drop) == s[..k] && (k > 0 ==> !drop(s[k - 1]))
    decreases |s|
  {
    k := |s|;
    if s != "" && drop(s[|s| - 1]) {
      k := TrimEndCuts(s[..|s| - 1], drop);
    }
  }

  lemma TrimCuts(s: string, drop: char -> bool) returns (i: nat, j: nat)
    ensures i <= j <= |s| && TrimBy(s, drop) == s[i..j]
    ensures i < j ==> !drop(s[i]) && !drop(s[j - 1])
  {
    i := TrimStartCuts(s, drop);
    var k := TrimEndCuts(s[i..], drop);
    j := i + k;
  }

  lemma TrimNothing(s: string, drop: char -> bool)
    requires s != "" ==> !drop(s[0]) && !drop(s[|s| - 1])
    ensures TrimBy(s, drop) == s
  {
  }

  /** Cleaned text has nothing left to collapse or to trim. */
  lemma CleanIsCollapsed(text: string)
    ensures Collapse(Clean(text)) == Clean(text) && TrimBy(Clean(text), IsBlank) == Clean(text)
  {
    var replaced := ReplaceEach(ReplaceEach(text, RESERVED), PARENTHESES);
    var collapsed := Collapse(replaced);
    CollapseSingle(replaced);
    var i, j := TrimCuts(collapsed, IsBlank);
    CutSingle(collapsed, i, j);
    CollapseNothing(Clean(text));
    TrimNothing(Clean(text), IsBlank);
  }

  lemma MarkerAt(i: nat)
    ensures i < |RESERVED| ==> RESERVED[i] in MARKERS
    ensures i < |PARENTHESES| ==> PARENTHESES[i] in MARKERS
  {
  }

  /** ... and nothing to replace. */
  lemma CleanHasNoMarkers(text: string, tokens: seq<string>)
    requires tokens == RESERVED || tokens == PARENTHESES
    ensures ReplaceEach(Clean(text), tokens) == Clean(text)
  {
    MarkersHaveNoBlank();
    forall i | 0 <= i < |tokens|
      ensures !Occurs(Clean(text), tokens[i])
    {
      MarkerAt(i);
      CleanIsSafe(text, tokens[i]);
    }
    ReplaceEachNothing(Clean(text), tokens);
  }

  /** Cleaning cleaned text changes nothing. */
  lemma CleanTwice(text: string)
    ensures Clean(Clean(text)) == Clean(text)
  {
    CleanHasNoMarkers(text, RESERVED);
    CleanHasNoMarkers(text, PARENTHESES);
    CleanIsCollapsed(text);
  }

  lemma CutSingle(s: string, i: nat, j: nat)
    requires i <= j <= |s| && Single(s)
    ensures Single(s[i..j])
  {
    var cut := s[i..j];
    forall k | 0 <= k < |cut| && IsBlank(cut[k]) ensures cut[k] == ' ' && (k + 1 < |cut| ==> !IsBlank(cut[k + 1])) {
      assert cut[k] == s[i + k];
    }
  }

  // ----- head names ---------------------------------------------------------

  /** A name the model can be given: it stands apart in a prompt. */
  ghost predicate Usable(name: string) {
    && name != "" && (forall i | 0 <= i < |name| :: !IsSeparator(name[i]))
    && forall i | 0 <= i < |MARKERS| :: !Occurs(name, MARKERS[i])
  }

  lemma {:induction false} SqueezeRemoves(s: string, within: char -> bool, mark: char)
    requires !within(mark)
    ensures forall i | 0 <= i < |Squeeze(s, within, mark)| :: !within(Squeeze(s, within, mark)[i])
    decreases |s|
  {
    if s != "" {
      SqueezeRemoves(if within(s[0]) then AfterRun(s, within) else s[1..], within, mark);
    }
  }

  lemma TaskNameUsable(id: string)
    requires TaskName(id).Some?
    ensures Usable(TaskName(id).value)
  {
    var squeezed := Squeeze(Clean(id), IsSeparator, '_');
    var i, j := TrimCuts(squeezed, IsUnderscore);
    SqueezeRemoves(Clean(id), IsSeparator, '_');
    forall k | 0 <= k < |MARKERS| ensures !Occurs(TaskName(id).value, MARKERS[k]) {
      CleanIsSafe(id, MARKERS[k]);
      MarkersHaveNoUnderscore(k);
      if Occurs(squeezed, MARKERS[k]) {
        SqueezeKeepsOut(Clean(id), IsSeparator, '_', MARKERS[k]);
      }
      TrimKeepsOut(squeezed, IsUnderscore, MARKERS[k]);
    }
  }

  lemma MarkersHaveNoUnderscore(k: nat)
    requires k < |MARKERS|
    ensures '_' !in MARKERS[k] && MARKERS[k] != ""
    ensures !IsDigit(MARKERS[k][|MARKERS[k]| - 1])
  {
  }

  /** A token that does not end in a character of `more` does not occur because of it. */
  lemma {:induction false} OccursBefore(s: string, more: string, t: string)
    requires t != "" && t[|t| - 1] !in more && Occurs(s + more, t)
    ensures Occurs(s, t)
    decreases |s + more|
  {
    if StartsWith(s + more, t) {
      if |t| > |s| {
        EndsIn(s, more, t);
      } else {
        assert (s + more)[..|t|] == s[..|t|];
      }
    } else if s != "" {
      assert (s + more)[1..] == s[1..] + more;
      OccursBefore(s[1..], more, t);
    } else {
      assert s + more == more;
      EndOccurs(more, t);
    }
  }

  lemma EndsIn(s: string, more: string, t: string)
    requires |t| > |s| && StartsWith(s + more, t)
    ensures t[|t| - 1] in more
  {
    assert (s + more)[..|t|][|t| - 1] == more[|t| - 1 - |s|];
  }

  lemma {:induction false} EndOccurs(s: string, t: string)
    requires t != "" && Occurs(s, t)
    ensures t[|t| - 1] in s
  {
    if StartsWith(s, t) {
      assert s[..|t|][|t| - 1] == s[|t| - 1];
    } else {
      EndOccurs(s[1..], t);
    }
  }

  lemma SuffixedUsable(name: string, n: nat)
    requires Usable(name)
    ensures Usable(Suffixed(name, "_", n))
  {
    var tail := "_" + Decimal(n);
    var longer := Suffixed(name, "_", n);
    assert longer == name + tail;
    forall i | 0 <= i < |longer| ensures !IsSeparator(longer[i]) {
      assert i >= |name| + 1 ==> longer[i] in Decimal(n);
    }
    forall k | 0 <= k < |MARKERS| ensures !Occurs(longer, MARKERS[k]) {
      MarkersHaveNoUnderscore(k);
      var last := MARKERS[k][|MARKERS[k]| - 1];
      assert last != '_' by { assert last in MARKERS[k]; }
      assert last !in tail;
      if Occurs(longer, MARKERS[k]) {
        OccursBefore(name, tail, MARKERS[k]);
      }
    }
  }

  /** The names of the questions of a request: all apart, and none with a reserved
      token, a parenthesis, a space or a colon in it. */
  lemma HeadNamesUsable(ids: seq<string>, names: seq<string>)
    requires |names| == |ids| && forall i | 0 <= i < |ids| :: TaskName(ids[i]) == Some(names[i])
    ensures var heads := Unique(names, "_");
            Distinct(heads) && forall i | 0 <= i < |heads| :: Usable(heads[i])
  {
    var heads := Unique(names, "_");
    UniqueIsRight(names, "_");
    forall i | 0 <= i < |heads| ensures Usable(heads[i]) {
      TaskNameUsable(ids[i]);
      assert GivenRightly(names, "_", heads, i);
      if heads[i] != names[i] {
        var n :| LowestSuffix(names, "_", heads, i, n);
        SuffixedUsable(names[i], n);
      }
    }
  }
}
