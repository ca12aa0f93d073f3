/** The path patterns of scripts/ci/selection.ts: `globSource` turns a glob into
    the text of a regular expression, and that expression matches what the glob
    means. */
module PathGlobs {
  import opened Basics

  // ----- globs --------------------------------------------------------------

  /** What the translator reads at one place: three, two or one characters. */
  datatype Token = Char(c: char) | Star | Star2 | Star2Slash | Quest | Open | Close | Comma

  /** Tokens of what is left of a pattern, `depth` braces deep. A comma is only
      special inside a brace. */
  function Lex(s: string, depth: int): seq<Token>
    decreases |s|
  {
    if s == "" then []
    else if Starts3(s, '*', '*', '/') then [Star2Slash] + Lex(s[3..], depth)
    else if Starts2(s, '*', '*') then [Star2] + Lex(s[2..], depth)
    else
      match s[0]
      case '*' => [Star] + Lex(s[1..], depth)
      case '?' => [Quest] + Lex(s[1..], depth)
      case '{' => [Open] + Lex(s[1..], depth + 1)
      case '}' => [Close] + Lex(s[1..], depth - 1)
      case c => [if c == ',' && depth > 0 then Comma else Char(c)] + Lex(s[1..], depth)
  }

  /** One branch of an alternative. */
  datatype Arm<+T> = Arm(items: seq<T>)

  datatype Glob =
    | Literal(c: char)
    | AnyName
    | AnyPath
    | AnyDirs
    | AnyChar
    | Either(branches: seq<Arm<Glob>>)

  /** The paths a glob stands for. */
  ghost predicate Denotes(g: Glob, s: string)
    decreases g, 0
  {
    match g
    case Literal(c) => s == [c]
    case AnyName => '/' !in s
    case AnyPath => true
    case AnyDirs => s == "" || s[|s| - 1] == '/'
    case AnyChar => |s| == 1 && s[0] != '/'
    case Either(branches) => exists i | 0 <= i < |branches| :: DenotesAll(branches[i].items, s)
  }

  ghost predicate DenotesAll(gs: seq<Glob>, s: string)
    decreases gs, 0
  {
    if gs == [] then s == ""
    else exists k | 0 <= k <= |s| :: Denotes(gs[0], s[..k]) && DenotesAll(gs[1..], s[k..])
  }

  // ----- regular expressions ------------------------------------------------

  datatype Regex =
    | Exactly(c: char)
    | Dot
    | NotSlash
    | Many(body: Regex)
    | Maybe(body: Regex)
    | Group(branches: seq<Arm<Regex>>)

  predicate IsLineTerminator(c: char) {
    c == '\n' || c == '\r' || c == '\U{2028}' || c == '\U{2029}'
  }

  ghost predicate Matches(r: Regex, s: string)
    decreases r, |s|
  {
    match r
    case Exactly(c) => s == [c]
    case Dot => |s| == 1 && !IsLineTerminator(s[0])
    case NotSlash => |s| == 1 && s[0] != '/'
    case Many(body) => s == "" || exists k | 0 < k <= |s| :: Matches(body, s[..k]) && Matches(r, s[k..])
    case Maybe(body) => s == "" || Matches(body, s)
    case Group(branches) => exists i | 0 <= i < |branches| :: MatchesAll(branches[i].items, s)
  }

  ghost predicate MatchesAll(rs: seq<Regex>, s: string)
    decreases rs, 0
  {
    if rs == [] then s == ""
    else exists k | 0 <= k <= |s| :: Matches(rs[0], s[..k]) && MatchesAll(rs[1..], s[k..])
  }

  // ----- reading either syntax ----------------------------------------------

  /** The open groups of a text being read: the finished branches and the branch
      under way of each, innermost first. */
  datatype Stack<T> = Base(current: seq<T>) | Inner(branches: seq<Arm<T>>, current: seq<T>, outer: Stack<T>)

  function Add<T>(st: Stack<T>, item: T): Stack<T> {
    st.(current := st.current + [item])
  }

  /** One glob token read. None where a brace closes that never opened. */
  function ReadToken(st: Stack<Glob>, t: Token): Option<Stack<Glob>> {
    match t
    case Char(c) => Some(Add(st, Literal(c)))
    case Star => Some(Add(st, AnyName))
    case Star2 => Some(Add(st, AnyPath))
    case Star2Slash => Some(Add(st, AnyDirs))
    case Quest => Some(Add(st, AnyChar))
    case Open => Some(Inner([], [], st))
    case Comma => if st.Base? then None else Some(Inner(st.branches + [Arm(st.current)], [], st.outer))
    case Close => if st.Base? then None else Some(Add(st.outer, Either(st.branches + [Arm(st.current)])))
  }

  function ReadTokens(st: Stack<Glob>, ts: seq<Token>): Option<Stack<Glob>>
    decreases |ts|
  {
    if ts == [] then Some(st)
    else
      match ReadToken(st, ts[0])
      case None => None
      case Some(next) => ReadTokens(next, ts[1..])
  }

  /** The glob a pattern spells; None when its braces do not match. */
  function ParseGlob(pattern: string): Option<seq<Glob>> {
    match ReadTokens(Base([]), Lex(pattern, 0))
    case Some(Base(gs)) => Some(gs)
    case _ => None
  }

  predicate IsSyntax(c: char) { c in ".*+?^${}()|[]\\" }

  /** A regular expression read up to its end; the flag tells whether a final `$`
      anchors it. This is the part of ECMAScript pattern syntax that `globSource`
      writes; None for anything else. */
  function ReadRegex(st: Stack<Regex>, s: string): Option<(Stack<Regex>, bool)>
    decreases |s|
  {
    if s == "" then Some((st, false))
    else if s == "$" then Some((st, true))
    else if "(?:" <= s then ReadRegex(Inner([], [], st), s[3..])
    else if "[^/]" <= s then ReadRegex(Add(st, NotSlash), s[4..])
    else
      match s[0]
      case '.' => ReadRegex(Add(st, Dot), s[1..])
      case '\\' => if |s| > 1 && IsSyntax(s[1]) then ReadRegex(Add(st, Exactly(s[1])), s[2..]) else None
      case '|' => if st.Base? then None else ReadRegex(Inner(st.branches + [Arm(st.current)], [], st.outer), s[1..])
      case ')' => if st.Base? then None else ReadRegex(Add(st.outer, Group(st.branches + [Arm(st.current)])), s[1..])
      case '*' => if Quantifiable(st) then ReadRegex(Last(st, Many(LastOf(st))), s[1..]) else None
      case '?' => if Quantifiable(st) then ReadRegex(Last(st, Maybe(LastOf(st))), s[1..]) else None
      case c => if IsSyntax(c) then None else ReadRegex(Add(st, Exactly(c)), s[1..])
  }

  /** A quantifier needs an atom before it, and one with no quantifier yet (a `?`
      after a quantifier would mean something else). */
  predicate Quantifiable(st: Stack<Regex>) {
    st.current != [] && !LastOf(st).Many? && !LastOf(st).Maybe?
  }

  function LastOf(st: Stack<Regex>): Regex
    requires st.current != []
  {
    st.current[|st.current| - 1]
  }

  function Last(st: Stack<Regex>, r: Regex): Stack<Regex>
    requires st.current != []
  {
    st.(current := st.current[..|st.current| - 1] + [r])
  }

  /** `new RegExp(source).test(text)` for a source that starts with `^`: a match
      from the start, up to the end when anchored there. None for a source outside
      the syntax above. */
  ghost function RegexTest(source: string, text: string): Option<bool> {
    if source == "" || source[0] != '^' then None
    else
      match ReadRegex(Base([]), source[1..])
      case Some((Base(rs), true)) => Some(MatchesAll(rs, text))
      case Some((Base(rs), false)) => Some(exists k | 0 <= k <= |text| :: MatchesAll(rs, text[..k]))
      case _ => None
  }

  // ----- the translation ----------------------------------------------------

  function EscapeRegExp(c: char): string {
    if IsSyntax(c) then ['\\', c] else [c]
  }

  function Emit(t: Token): string {
    match t
    case Star2Slash => "(?:.*/)?"
    case Star2 => ".*"
    case Star => "[^/]*"
    case Quest => "[^/]"
    case Open => "(?:"
    case Close => ")"
    case Comma => "|"
    case Char(c) => EscapeRegExp(c)
  }

  function EmitAll(ts: seq<Token>): string {
    if ts == [] then "" else Emit(ts[0]) + EmitAll(ts[1..])
  }

  function Count(s: string, c: char): nat {
    if s == "" then 0 else Count(s[..|s| - 1], c) + if s[|s| - 1] == c then 1 else 0
  }

  /** `openBraces`: whether more braces open than close before `index`. */
  predicate OpenBraces(pattern: string, index: nat)
    requires index <= |pattern|
  {
    Count(pattern[..index], '{') > Count(pattern[..index], '}')
  }

  function DepthAt(pattern: string, index: nat): int
    requires index <= |pattern|
  {
    Count(pattern[..index], '{') - Count(pattern[..index], '}')
  }

  lemma DepthStep(pattern: string, index: nat)
    requires index < |pattern|
    ensures DepthAt(pattern, index + 1) ==
            DepthAt(pattern, index) + (if pattern[index] == '{' then 1 else 0) - if pattern[index] == '}' then 1 else 0
  {
    assert pattern[..index + 1][..index] == pattern[..index];
  }

  /** What the translator writes at one place, and how many characters it reads. */
  method StepAt(pattern: string, index: nat) returns (step: string, width: nat)
    requires index < |pattern|
    ensures width == Width(pattern[index..]) && Lex(pattern[index..], DepthAt(pattern, index)) != []
    ensures step == Emit(Lex(pattern[index..], DepthAt(pattern, index))[0])
  {
    var here := pattern[index];
    width := 1;
    if Starts3(pattern[index..], '*', '*', '/') {
      return "(?:.*/)?", 3;
    }
    if Starts2(pattern[index..], '*', '*') {
      return ".*", 2;
    }
    if here == '*' {
      step := "[^/]*";
    } else if here == '?' {
      step := "[^/]";
    } else if here == '{' {
      step := "(?:";
    } else if here == '}' {
      step := ")";
    } else if here == ',' && OpenBraces(pattern, index) {
      step := "|";
    } else {
      step := EscapeRegExp(here);
    }
  }

  method GlobSource(pattern: string) returns (source: string)
    ensures source == EmitAll(Lex(pattern, 0))
  {
    source := "";
    var index := 0;
    assert pattern[0..] == pattern;
    while index < |pattern|
      invariant 0 <= index <= |pattern|
      invariant source + Remaining(pattern, index) == EmitAll(Lex(pattern, 0))
    {
      var step, width := StepAt(pattern, index);
      LexStep(pattern, index, width, step);
      StepJoins(source, step, Remaining(pattern, index + width));
      source := source + step;
      index := index + width;
    }
    assert Remaining(pattern, index) == "";
  }

  /** What is still to write at a place. */
  function Remaining(pattern: string, index: nat): string
    requires index <= |pattern|
  {
    EmitAll(Lex(pattern[index..], DepthAt(pattern, index)))
  }

  lemma StepJoins(source: string, step: string, rest: string)
    ensures source + (step + rest) == source + step + rest
  {
  }

  /** One turn of the loop is one token. */
  lemma LexStep(pattern: string, index: nat, width: nat, step: string)
    requires index < |pattern|
    requires width == Width(pattern[index..])
    requires Lex(pattern[index..], DepthAt(pattern, index)) != [] &&
             step == Emit(Lex(pattern[index..], DepthAt(pattern, index))[0])
    ensures index + width <= |pattern|
    ensures Remaining(pattern, index) == step + Remaining(pattern, index + width)
  {
    var s, depth := pattern[index..], DepthAt(pattern, index);
    assert s[width..] == pattern[index + width..];
    DepthStep(pattern, index);
    if width > 1 {
      assert s[0] == pattern[index] && s[1] == pattern[index + 1];
      DepthStep(pattern, index + 1);
    }
    if width > 2 {
      assert s[2] == pattern[index + 2];
      DepthStep(pattern, index + 2);
    }
    var next := Lex(s[width..], DepthAt(pattern, index + width));
    assert Lex(s, depth)[1..] == next;
  }

  method PathPattern(pattern: string) returns (source: string)
    ensures source == PatternSource(pattern)
  {
    var body := GlobSource(pattern);
    source := "^" + body + if EndsWithSlash(pattern) then "" else "$";
  }

  predicate EndsWithSlash(s: string) {
    s != "" && s[|s| - 1] == '/'
  }

  function PatternSource(pattern: string): string {
    "^" + EmitAll(Lex(pattern, 0)) + if EndsWithSlash(pattern) then "" else "$"
  }

  // ----- the emitted text reads back as the translated glob ------------------

  const DIRS: seq<Regex> := [Many(Dot), Exactly('/')]

  function Translate(g: Glob): Regex {
    match g
    case Literal(c) => Exactly(c)
    case AnyName => Many(NotSlash)
    case AnyPath => Many(Dot)
    case AnyDirs => Maybe(Group([Arm(DIRS)]))
    case AnyChar => NotSlash
    case Either(branches) => Group(TranslateBranches(branches))
  }

  function TranslateAll(gs: seq<Glob>): (rs: seq<Regex>)
    ensures |rs| == |gs| && forall i | 0 <= i < |gs| :: rs[i] == Translate(gs[i])
  {
    if gs == [] then [] else [Translate(gs[0])] + TranslateAll(gs[1..])
  }

  function TranslateArm(a: Arm<Glob>): Arm<Regex> {
    Arm(TranslateAll(a.items))
  }

  function TranslateBranches(bs: seq<Arm<Glob>>): (rs: seq<Arm<Regex>>)
    ensures |rs| == |bs| && forall i | 0 <= i < |bs| :: rs[i] == TranslateArm(bs[i])
  {
    if bs == [] then [] else [TranslateArm(bs[0])] + TranslateBranches(bs[1..])
  }

  function TranslateStack(st: Stack<Glob>): Stack<Regex> {
    match st
    case Base(gs) => Base(TranslateAll(gs))
    case Inner(bs, gs, outer) => Inner(TranslateBranches(bs), TranslateAll(gs), TranslateStack(outer))
  }

  lemma TranslateAdd(st: Stack<Glob>, g: Glob)
    ensures TranslateStack(Add(st, g)) == Add(TranslateStack(st), Translate(g))
  {
    assert TranslateAll(st.current + [g]) == TranslateAll(st.current) + [Translate(g)];
  }

  lemma TranslateBranch(bs: seq<Arm<Glob>>, gs: seq<Glob>)
    ensures TranslateBranches(bs + [Arm(gs)]) == TranslateBranches(bs) + [Arm(TranslateAll(gs))]
  {
  }

  /** Reading what one token wrote does to the regex what the token did to the
      glob. */
  lemma ReadEmitted(st: Stack<Glob>, t: Token, rest: string)
    requires ReadToken(st, t).Some?
    ensures ReadRegex(TranslateStack(st), Emit(t) + rest) == ReadRegex(TranslateStack(ReadToken(st, t).value), rest)
  {
    var rt := TranslateStack(st);
    match t
    case Char(c) => ReadLiteral(rt, c, rest); TranslateAdd(st, Literal(c));
    case Star => ReadStar(rt, rest); TranslateAdd(st, AnyName);
    case Star2 => ReadStar2(rt, rest); TranslateAdd(st, AnyPath);
    case Star2Slash => ReadStar2Slash(rt, rest); TranslateAdd(st, AnyDirs);
    case Quest => ReadQuest(rt, rest); TranslateAdd(st, AnyChar);
    case Open => ReadOpen(rt, rest);
    case Comma => ReadEmittedComma(st, rest);
    case Close => ReadEmittedClose(st, rest);
  }

  lemma ReadEmittedComma(st: Stack<Glob>, rest: string)
    requires ReadToken(st, Comma).Some?
    ensures ReadRegex(TranslateStack(st), "|" + rest) == ReadRegex(TranslateStack(ReadToken(st, Comma).value), rest)
  {
    var s := "|" + rest;
    assert s[1..] == rest && s[0] == '|' && "(?:"[0] == '(' && "[^/]"[0] == '[';
    TranslateBranch(st.branches, st.current);
  }

  lemma ReadEmittedClose(st: Stack<Glob>, rest: string)
    requires ReadToken(st, Close).Some?
    ensures ReadRegex(TranslateStack(st), ")" + rest) == ReadRegex(TranslateStack(ReadToken(st, Close).value), rest)
  {
    ReadClose(TranslateStack(st), rest);
    TranslateBranch(st.branches, st.current);
    TranslateAdd(st.outer, Either(st.branches + [Arm(st.current)]));
  }

  lemma ReadLiteral(st: Stack<Regex>, c: char, rest: string)
    ensures ReadRegex(st, EscapeRegExp(c) + rest) == ReadRegex(Add(st, Exactly(c)), rest)
  {
    var s := EscapeRegExp(c) + rest;
    assert "(?:"[0] == '(' && "[^/]"[0] == '[';
    if IsSyntax(c) {
      assert s[2..] == rest && s[1] == c && s[0] == '\\';
    } else {
      assert s[1..] == rest && s[0] == c;
      assert c != '(' && c != '[' && c != '$';
    }
  }

  lemma ReadQuest(st: Stack<Regex>, rest: string)
    ensures ReadRegex(st, "[^/]" + rest) == ReadRegex(Add(st, NotSlash), rest)
  {
    var s := "[^/]" + rest;
    assert s[4..] == rest && s[0] == '[' && "(?:"[0] == '(';
  }

  lemma ReadOpen(st: Stack<Regex>, rest: string)
    ensures ReadRegex(st, "(?:" + rest) == ReadRegex(Inner([], [], st), rest)
  {
    assert ("(?:" + rest)[3..] == rest;
  }

  lemma ReadMany(st: Stack<Regex>, r: Regex, rest: string)
    requires !r.Many? && !r.Maybe?
    ensures ReadRegex(Add(st, r), "*" + rest) == ReadRegex(Add(st, Many(r)), rest)
  {
    var s := "*" + rest;
    assert s[1..] == rest && s[0] == '*' && "(?:"[0] == '(' && "[^/]"[0] == '[';
    assert Last(Add(st, r), Many(r)) == Add(st, Many(r));
  }

  lemma ReadMaybe(st: Stack<Regex>, r: Regex, rest: string)
    requires !r.Many? && !r.Maybe?
    ensures ReadRegex(Add(st, r), "?" + rest) == ReadRegex(Add(st, Maybe(r)), rest)
  {
    var s := "?" + rest;
    assert s[1..] == rest && s[0] == '?' && "(?:"[0] == '(' && "[^/]"[0] == '[';
    assert Last(Add(st, r), Maybe(r)) == Add(st, Maybe(r));
  }

  lemma ReadStar(st: Stack<Regex>, rest: string)
    ensures ReadRegex(st, "[^/]*" + rest) == ReadRegex(Add(st, Many(NotSlash)), rest)
  {
    assert "[^/]*" + rest == "[^/]" + ("*" + rest);
    ReadQuest(st, "*" + rest);
    ReadMany(st, NotSlash, rest);
  }

  lemma ReadStar2(st: Stack<Regex>, rest: string)
    ensures ReadRegex(st, ".*" + rest) == ReadRegex(Add(st, Many(Dot)), rest)
  {
    var s := ".*" + rest;
    assert s[1..] == "*" + rest && s[0] == '.' && "(?:"[0] == '(' && "[^/]"[0] == '[';
    ReadMany(st, Dot, rest);
  }

  lemma ReadStar2Slash(st: Stack<Regex>, rest: string)
    ensures ReadRegex(st, "(?:.*/)?" + rest) == ReadRegex(Add(st, Translate(AnyDirs)), rest)
  {
    var inner := Inner([], [], st);
    DirsText(rest);
    ReadOpen(st, DirsTail(rest));
    ReadDirsBody(inner, ")" + ("?" + rest));
    ReadClose(Inner([], DIRS, st), "?" + rest);
    assert [] + [Arm(DIRS)] == [Arm(DIRS)];
    ReadMaybe(st, Group([Arm(DIRS)]), rest);
  }

  function DirsTail(rest: string): string {
    ".*" + ("/" + (")" + ("?" + rest)))
  }

  lemma DirsText(rest: string)
    ensures "(?:.*/)?" + rest == "(?:" + DirsTail(rest)
  {
    assert "(?:.*/)?" == "(?:" + (".*" + ("/" + (")" + "?")));
  }

  lemma ReadDirsBody(inner: Stack<Regex>, close: string)
    requires inner.current == []
    ensures ReadRegex(inner, ".*" + ("/" + close)) == ReadRegex(inner.(current := DIRS), close)
  {
    ReadStar2(inner, "/" + close);
    ReadLiteral(Add(inner, Many(Dot)), '/', close);
    assert Add(Add(inner, Many(Dot)), Exactly('/')).current == DIRS;
  }

  lemma ReadClose(st: Stack<Regex>, rest: string)
    requires st.Inner?
    ensures ReadRegex(st, ")" + rest) == ReadRegex(Add(st.outer, Group(st.branches + [Arm(st.current)])), rest)
  {
    var s := ")" + rest;
    assert s[1..] == rest && s[0] == ')' && "(?:"[0] == '(' && "[^/]"[0] == '[';
  }

  lemma {:induction false} ReadAllEmitted(st: Stack<Glob>, ts: seq<Token>, rest: string)
    requires ReadTokens(st, ts).Some?
    ensures ReadRegex(TranslateStack(st), EmitAll(ts) + rest) ==
            ReadRegex(TranslateStack(ReadTokens(st, ts).value), rest)
    decreases |ts|
  {
    if ts == [] {
      assert EmitAll(ts) + rest == rest;
    } else {
      assert EmitAll(ts) + rest == Emit(ts[0]) + (EmitAll(ts[1..]) + rest);
      ReadEmitted(st, ts[0], EmitAll(ts[1..]) + rest);
      ReadAllEmitted(ReadToken(st, ts[0]).value, ts[1..], rest);
    }
  }

  /** What a token that closes too much writes, JavaScript does not read. */
  lemma ReadUnmatched(st: Stack<Glob>, t: Token, rest: string)
    requires ReadToken(st, t).None?
    ensures ReadRegex(TranslateStack(st), Emit(t) + rest) == None
  {
    var s := Emit(t) + rest;
    assert s[0] == (if t.Comma? then '|' else ')') && "(?:"[0] == '(' && "[^/]"[0] == '[';
  }

  lemma {:induction false} ReadAllUnmatched(st: Stack<Glob>, ts: seq<Token>, rest: string)
    requires ReadTokens(st, ts).None?
    ensures ReadRegex(TranslateStack(st), EmitAll(ts) + rest) == None
    decreases |ts|
  {
    assert EmitAll(ts) + rest == Emit(ts[0]) + (EmitAll(ts[1..]) + rest);
    match ReadToken(st, ts[0])
    case None => ReadUnmatched(st, ts[0], EmitAll(ts[1..]) + rest);
    case Some(next) =>
      ReadEmitted(st, ts[0], EmitAll(ts[1..]) + rest);
      ReadAllUnmatched(next, ts[1..], rest);
  }

  // ----- the translation keeps the meaning ----------------------------------

  predicate OneLine(s: string) {
    forall c | c in s :: !IsLineTerminator(c)
  }

  lemma {:induction false} ManyNotSlash(s: string)
    ensures Matches(Many(NotSlash), s) <==> '/' !in s
    decreases |s|
  {
    if s != "" {
      ManyNotSlash(s[1..]);
      assert s == s[..1] + s[1..];
      if Matches(Many(NotSlash), s) {
        var k :| 0 < k <= |s| && Matches(NotSlash, s[..k]) && Matches(Many(NotSlash), s[k..]);
        assert k == 1;
      }
      if '/' !in s {
        assert Matches(NotSlash, s[..1]) && Matches(Many(NotSlash), s[1..]);
      }
    }
  }

  lemma {:induction false} ManyDot(s: string)
    ensures Matches(Many(Dot), s) <==> OneLine(s)
    decreases |s|
  {
    if s != "" {
      ManyDot(s[1..]);
      assert s == s[..1] + s[1..];
      if Matches(Many(Dot), s) {
        var k :| 0 < k <= |s| && Matches(Dot, s[..k]) && Matches(Many(Dot), s[k..]);
        assert k == 1;
      }
      if OneLine(s) {
        assert Matches(Dot, s[..1]) && Matches(Many(Dot), s[1..]);
      }
    }
  }

  lemma LastCharMatches(c: char, s: string)
    ensures MatchesAll([Exactly(c)], s) <==> s == [c]
  {
    var rs := [Exactly(c)];
    assert rs[1..] == [];
    if MatchesAll(rs, s) {
      var k :| 0 <= k <= |s| && Matches(rs[0], s[..k]) && MatchesAll(rs[1..], s[k..]);
      assert s == s[..k] + s[k..];
    }
    if s == [c] {
      assert s[..1] == [c] && s[1..] == "";
      assert Matches(rs[0], s[..1]) && MatchesAll(rs[1..], s[1..]);
    }
  }

  lemma DirsBody(s: string)
    requires OneLine(s)
    ensures MatchesAll(DIRS, s) <==> s != "" && s[|s| - 1] == '/'
  {
    var tail := [Exactly('/')];
    assert DIRS[1..] == tail;
    forall k | 0 <= k <= |s|
      ensures Matches(DIRS[0], s[..k])
      ensures MatchesAll(tail, s[k..]) <==> s[k..] == ['/']
    {
      ManyDot(s[..k]);
      LastCharMatches('/', s[k..]);
    }
    if s != "" && s[|s| - 1] == '/' {
      assert s[|s| - 1..] == ['/'];
    }
    if k :| 0 <= k <= |s| && s[k..] == ['/'] {
      assert s[|s| - 1] == s[k..][0];
    }
  }

  lemma DirsMatch(s: string)
    requires OneLine(s)
    ensures Matches(Translate(AnyDirs), s) <==> Denotes(AnyDirs, s)
  {
    var group := Group([Arm(DIRS)]);
    DirsBody(s);
    assert Matches(group, s) <==> MatchesAll(group.branches[0].items, s);
  }

  lemma {:induction false} MatchesDenotes(g: Glob, s: string)
    requires OneLine(s)
    ensures Matches(Translate(g), s) <==> Denotes(g, s)
    decreases g, 0
  {
    match g
    case Literal(_) =>
    case AnyName => ManyNotSlash(s);
    case AnyPath => ManyDot(s);
    case AnyDirs => DirsMatch(s);
    case AnyChar =>
    case Either(branches) =>
      var rs := TranslateBranches(branches);
      forall i | 0 <= i < |branches|
        ensures MatchesAll(rs[i].items, s) <==> DenotesAll(branches[i].items, s)
      {
        MatchesDenotesAll(branches[i].items, s);
      }
  }

  lemma {:induction false} MatchesDenotesAll(gs: seq<Glob>, s: string)
    requires OneLine(s)
    ensures MatchesAll(TranslateAll(gs), s) <==> DenotesAll(gs, s)
    decreases gs, 0
  {
    if gs != [] {
      var rs := TranslateAll(gs);
      assert rs[1..] == TranslateAll(gs[1..]);
      forall k | 0 <= k <= |s|
        ensures Matches(rs[0], s[..k]) <==> Denotes(gs[0], s[..k])
        ensures MatchesAll(rs[1..], s[k..]) <==> DenotesAll(gs[1..], s[k..])
      {
        MatchesDenotes(gs[0], s[..k]);
        MatchesDenotesAll(gs[1..], s[k..]);
      }
    }
  }

  // ----- which patterns are well formed -------------------------------------

  /** Braces that match: never more closed than opened, and all closed at the end. */
  predicate Balanced(s: string, depth: nat)
    decreases |s|
  {
    if s == "" then depth == 0
    else if s[0] == '{' then Balanced(s[1..], depth + 1)
    else if s[0] == '}' then depth > 0 && Balanced(s[1..], depth - 1)
    else Balanced(s[1..], depth)
  }

  lemma {:induction false} BalancedSkips(s: string, width: nat, depth: nat)
    requires width <= |s| && forall i | 0 <= i < width :: s[i] != '{' && s[i] != '}'
    ensures Balanced(s, depth) == Balanced(s[width..], depth)
    decreases width
  {
    if width > 0 {
      BalancedSkips(s[1..], width - 1, depth);
      assert s[1..][width - 1..] == s[width..];
    }
  }

  function Height<T>(st: Stack<T>): nat {
    if st.Base? then 0 else 1 + Height(st.outer)
  }

  /** How many characters the first token takes, and how deep it leaves the braces. */
  function Width(s: string): nat {
    if Starts3(s, '*', '*', '/') then 3 else if Starts2(s, '*', '*') then 2 else 1
  }

  function DepthAfter(s: string, depth: int): int
    requires s != ""
  {
    if s[0] == '{' then depth + 1 else if s[0] == '}' then depth - 1 else depth
  }

  lemma LexCons(s: string, depth: int)
    requires s != ""
    ensures Width(s) <= |s| && Lex(s, depth) != []
    ensures Lex(s, depth)[1..] == Lex(s[Width(s)..], DepthAfter(s, depth))
    ensures Lex(s, depth)[0].Open? <==> s[0] == '{'
    ensures Lex(s, depth)[0].Close? <==> s[0] == '}'
    ensures Lex(s, depth)[0].Comma? ==> depth > 0
  {
  }

  lemma BalancedCons(s: string, depth: nat)
    requires s != "" && Width(s) <= |s|
    ensures Balanced(s, depth) <==> DepthAfter(s, depth) >= 0 && Balanced(s[Width(s)..], DepthAfter(s, depth))
  {
    if Width(s) > 1 {
      BalancedSkips(s, Width(s), depth);
    }
  }

  lemma ReadTokenHeight(st: Stack<Glob>, t: Token)
    requires t.Comma? ==> Height(st) > 0
    ensures match ReadToken(st, t)
            case Some(next) => Height(next) == Height(st) + (if t.Open? then 1 else if t.Close? then -1 else 0)
            case None => t.Close? && Height(st) == 0
  {
  }

  lemma {:induction false} ReadsIffBalanced(s: string, st: Stack<Glob>)
    ensures var r := ReadTokens(st, Lex(s, Height(st)));
            (r.Some? && r.value.Base?) <==> Balanced(s, Height(st))
    decreases |s|
  {
    if s != "" {
      var t := Lex(s, Height(st))[0];
      LexCons(s, Height(st));
      BalancedCons(s, Height(st));
      ReadTokenHeight(st, t);
      match ReadToken(st, t)
      case Some(next) => ReadsIffBalanced(s[Width(s)..], next);
      case None =>
    }
  }

  /** A pattern spells a glob exactly when its braces match. */
  lemma WellFormedIffBalanced(pattern: string)
    ensures ParseGlob(pattern).Some? <==> Balanced(pattern, 0)
  {
    ReadsIffBalanced(pattern, Base([]));
  }

  // ----- the pattern's meaning ----------------------------------------------

  /** A trailing `/` takes everything below the directory. */
  ghost predicate InPattern(gs: seq<Glob>, directory: bool, file: string) {
    if directory then exists k | 0 <= k <= |file| :: DenotesAll(gs, file[..k]) else DenotesAll(gs, file)
  }

  /** Whether the regular expression `pathPattern` builds is one JavaScript reads, and
      accepts the path exactly when the path is in the pattern's meaning. */
  ghost predicate MeansGlob(pattern: string, file: string) {
    ParseGlob(pattern).Some? &&
    RegexTest(PatternSource(pattern), file) ==
    Some(InPattern(ParseGlob(pattern).value, EndsWithSlash(pattern), file))
  }

  lemma SourceRead(pattern: string)
    ensures PatternSource(pattern)[1..] == EmitAll(Lex(pattern, 0)) + if EndsWithSlash(pattern) then "" else "$"
  {
  }

  /** So it is for every pattern whose braces match and every path on one line. */
  lemma PathPatternMeansGlob(pattern: string, file: string)
    requires Balanced(pattern, 0) && OneLine(file)
    ensures MeansGlob(pattern, file)
  {
    WellFormedIffBalanced(pattern);
    var gs, ts := ParseGlob(pattern).value, Lex(pattern, 0);
    ReadAllEmitted(Base([]), ts, if EndsWithSlash(pattern) then "" else "$");
    SourceRead(pattern);
    PrefixesMean(gs, file);
  }

  /** A pattern whose braces do not match is refused, and no other. */
  lemma RefusedIffUnbalanced(pattern: string, file: string)
    ensures RegexTest(PatternSource(pattern), file).None? <==> !Balanced(pattern, 0)
  {
    WellFormedIffBalanced(pattern);
    var ts, anchor := Lex(pattern, 0), if EndsWithSlash(pattern) then "" else "$";
    SourceRead(pattern);
    match ReadTokens(Base([]), ts)
    case None => ReadAllUnmatched(Base([]), ts, anchor);
    case Some(_) => ReadAllEmitted(Base([]), ts, anchor);
  }

  /** A path with a line terminator is not in `**` as JavaScript reads it. */
  lemma LineBreakIsMissed(file: string)
    requires !OneLine(file)
    ensures Balanced("**", 0) && !MeansGlob("**", file)
  {
    var gs: seq<Glob> := [AnyPath];
    assert "**"[2..] == "" && Lex("**", 0) == [Star2] && [] + gs == gs && [Star2][1..] == [];
    assert ReadTokens(Base([]), [Star2]) == ReadTokens(Base(gs), []) == Some(Base(gs));
    assert ParseGlob("**") == Some(gs);
    assert Denotes(gs[0], file[..|file|]) && DenotesAll(gs[1..], file[|file|..]);
    assert EmitAll([Star2]) == ".*" + "" == ".*";
    SourceRead("**");
    ReadStar2(Base([]), "$");
    var rs: seq<Regex> := [Many(Dot)];
    assert [] + rs == rs;
    assert ReadRegex(Base(rs), "$") == Some((Base(rs), true));
    if MatchesAll(rs, file) {
      var k :| 0 <= k <= |file| && Matches(rs[0], file[..k]) && MatchesAll(rs[1..], file[k..]);
      assert file[..k] == file;
      ManyDot(file);
    }
  }

  /** The condition on the path is exact: a path on one line is one that every pattern
      whose braces match takes as its glob says. */
  lemma OneLineIsTheCondition(file: string)
    ensures OneLine(file) <==> forall pattern: string | Balanced(pattern, 0) :: MeansGlob(pattern, file)
  {
    if OneLine(file) {
      forall pattern: string | Balanced(pattern, 0)
        ensures MeansGlob(pattern, file)
      {
        PathPatternMeansGlob(pattern, file);
      }
    } else {
      LineBreakIsMissed(file);
    }
  }

  lemma PrefixesMean(gs: seq<Glob>, file: string)
    requires OneLine(file)
    ensures forall k | 0 <= k <= |file| :: MatchesAll(TranslateAll(gs), file[..k]) <==> DenotesAll(gs, file[..k])
    ensures MatchesAll(TranslateAll(gs), file) <==> DenotesAll(gs, file)
  {
    forall k | 0 <= k <= |file|
      ensures MatchesAll(TranslateAll(gs), file[..k]) <==> DenotesAll(gs, file[..k])
    {
      MatchesDenotesAll(gs, file[..k]);
    }
    assert file[..|file|] == file;
  }

  // ----- gates --------------------------------------------------------------

  ghost predicate MatchesAny(file: string, patterns: seq<string>) {
    exists p | p in patterns :: RegexTest(PatternSource(p), file) == Some(true)
  }

  ghost predicate GateSelected(
    paths: seq<string>, packages: seq<string>, changed: seq<string>, affected: set<string>, globals: seq<string>)
  {
    || (exists f | f in changed :: MatchesAny(f, globals + paths))
    || (exists name | name in packages :: name in affected)
  }

  ghost predicate Touches(pattern: string, file: string) {
    Balanced(pattern, 0) && ParseGlob(pattern).Some? &&
    InPattern(ParseGlob(pattern).value, EndsWithSlash(pattern), file)
  }

  /** A gate runs exactly when a changed path is in the meaning of one of its own or
      of the global patterns, or a workspace it reads is affected. */
  lemma GateSelectedMeans(
    paths: seq<string>, packages: seq<string>, changed: seq<string>, affected: set<string>, globals: seq<string>)
    requires forall p | p in globals + paths :: Balanced(p, 0)
    requires forall f | f in changed :: OneLine(f)
    ensures GateSelected(paths, packages, changed, affected, globals) <==>
            || (exists f, p | f in changed && (p in globals || p in paths) :: Touches(p, f))
            || (exists name | name in packages :: name in affected)
  {
    forall f, p | f in changed && p in globals + paths
      ensures RegexTest(PatternSource(p), f) == Some(true) <==> Touches(p, f)
    {
      PathPatternMeansGlob(p, f);
    }
    forall p
      ensures p in globals + paths <==> p in globals || p in paths
    {
    }
    if f, p :| f in changed && (p in globals || p in paths) && Touches(p, f) {
      assert p in globals + paths;
      assert MatchesAny(f, globals + paths);
    }
    if f :| f in changed && MatchesAny(f, globals + paths) {
      var p :| p in globals + paths && RegexTest(PatternSource(p), f) == Some(true);
      assert Touches(p, f);
    }
  }
}
