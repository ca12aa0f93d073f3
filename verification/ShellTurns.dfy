/** Single turns of the scanner on printed scripts: what each printed token makes it
    do, whatever follows. */
module ShellTurns {
  import opened Basics
  import opened ShellScanner
  import opened ShellScripts

  /** The rest of the scan from a place in a line. */
  ghost function Go(prev: Option<char>, s: string, m: Machine, first: int): Scan
    requires StackOk(m.stack)
  {
    TurnIsLawful();
    InLine(Turn, prev, s, m, first)
  }

  /** The rest of the scan from the start of a line. */
  ghost function GoLine(s: string, m: Machine, first: int): Scan
    requires StackOk(m.stack)
  {
    TurnIsLawful();
    LineStart(Turn, s, m, first)
  }

  // ----- single turns -------------------------------------------------------

  lemma {:induction false} LineRestOver(a: string, rest: string)
    requires '\n' !in a
    ensures LineRest(a + rest) == a + LineRest(rest)
  {
    if a == "" {
      assert a + rest == rest;
    } else {
      assert (a + rest)[1..] == a[1..] + rest && (a + rest)[0] == a[0] && a[0] in a;
      LineRestOver(a[1..], rest);
      assert [a[0]] + (a[1..] + LineRest(rest)) == a + LineRest(rest);
    }
  }

  lemma StepOf(rule: Rule, prev: Option<char>, a: string, rest: string, m: Machine, first: int, t: Turned)
    requires Lawful(rule)
    requires a != "" && '\n' !in a && StackOk(m.stack)
    requires t == rule(prev, a + LineRest(rest), m.stack, m.pending) && t.width == |a|
    ensures StackOk(t.stack)
    ensures InLine(rule, prev, a + rest, m, first) ==
            Prepend(Found(t, first + m.index),
              InLine(rule, Some(LastChar(a)), rest, m.(stack := t.stack, pending := t.pending), first))
  {
    LineRestOver(a, rest);
    LineAndTail(a, rest, |a|);
    assert a[|a|..] + rest == rest;
    InLineTurn(rule, prev, a + rest, a + LineRest(rest), m, first);
  }

  /** A turn that takes exactly `a`. */
  lemma Step(prev: Option<char>, a: string, rest: string, m: Machine, first: int, t: Turned)
    requires a != "" && '\n' !in a && StackOk(m.stack)
    requires t == Turn(prev, a + LineRest(rest), m.stack, m.pending) && t.width == |a|
    ensures StackOk(t.stack)
    ensures Go(prev, a + rest, m, first) ==
            Prepend(Found(t, first + m.index),
              Go(Some(LastChar(a)), rest, m.(stack := t.stack, pending := t.pending), first))
  {
    TurnIsLawful();
    StepOf(Turn, prev, a, rest, m, first, t);
  }

  lemma NothingFound(r: Scan)
    ensures Prepend([], r) == r
  {
  }

  lemma TurnOrdinary(prev: Option<char>, c: char, more: string, stack: Stack, pending: seq<HereDocument>)
    requires StackOk(stack) && Ordinary(PlaceOf(stack.top), prev, c)
    ensures Turn(prev, [c] + more, stack, pending) == Turned(1, stack, pending, None)
  {
    assert ([c] + more)[0] == c;
  }

  lemma TurnEscape(prev: Option<char>, c: char, more: string, stack: Stack, pending: seq<HereDocument>)
    requires StackOk(stack) && !stack.top.kind.Single?
    ensures Turn(prev, ['\\', c] + more, stack, pending) == Turned(2, stack, pending, None)
  {
  }

  lemma TurnLineEscape(prev: Option<char>, stack: Stack, pending: seq<HereDocument>)
    requires StackOk(stack) && !stack.top.kind.Single?
    ensures Turn(prev, "\\", stack, pending) == Turned(1, stack, pending, None)
  {
  }

  lemma TurnDollar(prev: Option<char>, more: string, stack: Stack, pending: seq<HereDocument>)
    requires StackOk(stack) && !stack.top.kind.Single? && !stack.top.kind.Ansi?
    requires more != "" && more[0] != '\'' && more[0] != '{' && more[0] != '('
    ensures Turn(prev, "$" + more, stack, pending) == Turned(1, stack, pending, None)
  {
  }

  lemma TurnLess(prev: Option<char>, more: string, stack: Stack, pending: seq<HereDocument>)
    requires StackOk(stack) && stack.top.kind.Command? && more != "" && more[0] != '<'
    ensures Turn(prev, "<" + more, stack, pending) == Turned(1, stack, pending, None)
  {
  }

  lemma TurnHereString(prev: Option<char>, more: string, stack: Stack, pending: seq<HereDocument>)
    requires StackOk(stack) && stack.top.kind.Command?
    ensures Turn(prev, "<<<" + more, stack, pending) == Turned(3, stack, pending, None)
  {
  }

  lemma {:induction false} NoIndex(s: string, c: char)
    requires c !in s
    ensures IndexOf(s, c) == None
  {
    if s != "" {
      NoIndex(s[1..], c);
    }
  }

  lemma {:induction false} IndexAfter(s: string, c: char, more: string)
    requires c !in s && more != "" && more[0] == c
    ensures IndexOf(s + more, c) == Some(|s|)
  {
    if s == "" {
      assert s + more == more;
    } else {
      assert (s + more)[1..] == s[1..] + more;
      IndexAfter(s[1..], c, more);
    }
  }

  lemma TurnComment(prev: Option<char>, text: string, more: string, stack: Stack, pending: seq<HereDocument>)
    requires StackOk(stack) && stack.top.kind.Command? && AtWordStart(prev)
    requires stack.top.closer.Backquote? ==> '`' !in text
    requires more == "" || (stack.top.closer.Backquote? && more[0] == '`')
    ensures Turn(prev, ("#" + text) + more, stack, pending) == Turned(1 + |text|, stack, pending, Some("#" + text))
  {
    var line := ("#" + text) + more;
    if stack.top.closer.Backquote? {
      if more == "" {
        assert line == "#" + text;
        NoIndex(line, '`');
      } else {
        IndexAfter("#" + text, '`', more);
        assert line[..1 + |text|] == "#" + text;
      }
    } else {
      assert line == "#" + text;
    }
  }

  lemma TurnOpens(o: Opener, prev: Option<char>, more: string, stack: Stack, pending: seq<HereDocument>)
    requires StackOk(stack) && Allowed(o, PlaceOf(stack.top), prev)
    requires o.Substitution? ==> more == "" || more[0] != '('
    ensures StackOk(Over(Frame(o), stack))
    ensures Turn(prev, Opening(o) + more, stack, pending) == Turned(|Opening(o)|, Over(Frame(o), stack), pending, None)
  {
  }

  lemma TurnCloses(o: Opener, prev: Option<char>, more: string, stack: Stack, pending: seq<HereDocument>)
    requires StackOk(stack)
    ensures StackOk(Over(Frame(o), stack))
    ensures Turn(prev, Closing(o) + more, Over(Frame(o), stack), pending) == Turned(|Closing(o)|, stack, pending, None)
  {
  }

  predicate Counts(p: Place) { p.closer.Paren? || p.kind.Arithmetic? }

  /** The stack inside parentheses. */
  function Deeper(stack: Stack): Stack {
    if Counts(PlaceOf(stack.top)) then stack.(top := stack.top.(depth := stack.top.depth + 1)) else stack
  }

  lemma DeeperOk(stack: Stack)
    requires StackOk(stack)
    ensures StackOk(Deeper(stack)) && PlaceOf(Deeper(stack).top) == PlaceOf(stack.top)
  {
  }

  lemma TurnParenOpens(prev: Option<char>, more: string, stack: Stack, pending: seq<HereDocument>)
    requires StackOk(stack) && (stack.top.kind.Arithmetic? || stack.top.kind.Command?)
    requires stack.top.kind.Command? && AtWordStart(prev) ==> more == "" || more[0] != '('
    ensures Turn(prev, "(" + more, stack, pending) == Turned(1, Deeper(stack), pending, None)
  {
  }

  lemma TurnParenCloses(prev: Option<char>, more: string, stack: Stack, pending: seq<HereDocument>)
    requires StackOk(stack) && (stack.top.kind.Arithmetic? || stack.top.kind.Command?)
    ensures StackOk(Deeper(stack))
    ensures Turn(prev, ")" + more, Deeper(stack), pending) == Turned(1, stack, pending, None)
  {
  }

  // ----- here-document operators --------------------------------------------

  lemma {:induction false} BlanksSkipped(blanks: string, more: string)
    requires forall c | c in blanks :: IsBlank(c)
    requires more != "" && !IsBlank(more[0])
    ensures SkipBlanks(blanks + more) == |blanks|
  {
    if blanks == "" {
      assert blanks + more == more;
    } else {
      assert (blanks + more)[1..] == blanks[1..] + more;
      BlanksSkipped(blanks[1..], more);
    }
  }

  lemma {:induction false} NameRead(word: string, more: string)
    requires forall c | c in word :: IsNameChar(c)
    requires more == "" || !IsNameChar(more[0])
    ensures NameLength(word + more) == |word|
  {
    if word == "" {
      assert word + more == more;
    } else {
      assert (word + more)[1..] == word[1..] + more;
      NameRead(word[1..], more);
    }
  }

  lemma BareRead(word: string, more: string)
    requires word != "" && IsLetter(word[0]) && (forall c | c in word :: IsNameChar(c))
    requires more == "" || !IsNameChar(more[0])
    ensures Word(word + more) == Some((word, |word|))
  {
    var s := word + more;
    assert s[0..] == s && s[0] == word[0];
    NameRead(word, more);
    assert s[..|word|] == word;
  }

  lemma EscapedRead(word: string, more: string)
    requires word != "" && IsLetter(word[0]) && (forall c | c in word :: IsNameChar(c))
    requires more == "" || !IsNameChar(more[0])
    ensures Word("\\" + word + more) == Some((word, 1 + |word|))
  {
    var s := "\\" + word + more;
    assert s[1..] == word + more;
    NameRead(word, more);
    assert (word + more)[..|word|] == word;
  }

  lemma QuotedRead(quote: char, word: string, more: string)
    requires (quote == '\'' || quote == '"') && quote !in word
    ensures Word([quote] + word + [quote] + more) == Some((word, |word| + 2))
  {
    var s := [quote] + word + [quote] + more;
    var after := [quote] + more;
    assert s[1..] == word + after;
    IndexAfter(word, quote, after);
    assert s[1..|word| + 1] == word;
  }

  lemma WordRead(d: Document, more: string)
    requires DocumentOk(d)
    requires IsBare(d) ==> more == "" || !IsNameChar(more[0])
    ensures Word(WordText(d) + more) == Some((d.word, |WordText(d)|))
  {
    match d.quoting
    case Bare => BareRead(d.word, more);
    case Backslash => EscapedRead(d.word, more);
    case InSingle => QuotedRead('\'', d.word, more);
    case InDouble => QuotedRead('"', d.word, more);
  }

  lemma WordTextStarts(d: Document)
    requires DocumentOk(d)
    ensures WordText(d) != "" && !IsBlank(WordText(d)[0]) && WordText(d)[0] != '<' && WordText(d)[0] != '-'
    ensures '\n' !in WordText(d)
  {
  }

  /** The operator's line, after `<<` or `<<-`. */
  lemma OperatorStarts(d: Document, more: string)
    requires DocumentOk(d)
    ensures var line := OperatorText(d) + more;
            var from := if d.dash then 3 else 2;
            && '\n' !in OperatorText(d) && Starts2(line, '<', '<') && |line| > from
            && line[from..] == d.blanks + (WordText(d) + more)
            && line[from + |d.blanks|..] == WordText(d) + more
            && line[2] != '<' && (line[2] == '-' <==> d.dash)
  {
    WordTextStarts(d);
    var from := if d.dash then 3 else 2;
    assert OperatorText(d)[from..] == d.blanks + WordText(d);
    if d.blanks != "" {
      assert d.blanks[0] in d.blanks;
    }
    assert '\n' !in d.blanks + WordText(d);
  }

  lemma OperatorRead(d: Document, more: string)
    requires DocumentOk(d)
    requires IsBare(d) ==> more == "" || !IsNameChar(more[0])
    ensures var line := OperatorText(d) + more;
            Starts2(line, '<', '<') && HereOperator(line) == Some((HereOf(d), |OperatorText(d)|))
  {
    OperatorStarts(d, more);
    WordTextStarts(d);
    BlanksSkipped(d.blanks, WordText(d) + more);
    WordRead(d, more);
  }

  lemma TurnOperator(
    prev: Option<char>, line: string, stack: Stack, pending: seq<HereDocument>, document: HereDocument, width: nat)
    requires StackOk(stack) && stack.top.kind.Command?
    requires Starts2(line, '<', '<') && |line| > 2 && line[2] != '<'
    requires HereOperator(line) == Some((document, width))
    ensures Turn(prev, line, stack, pending) == Turned(width, stack, pending + [document], None)
  {
  }

  lemma TurnHereDoc(d: Document, prev: Option<char>, more: string, stack: Stack, pending: seq<HereDocument>)
    requires StackOk(stack) && stack.top.kind.Command? && DocumentOk(d)
    requires IsBare(d) ==> more == "" || !IsNameChar(more[0])
    ensures '\n' !in OperatorText(d) && OperatorText(d) != ""
    ensures Turn(prev, OperatorText(d) + more, stack, pending) ==
            Turned(|OperatorText(d)|, stack, pending + [HereOf(d)], None)
  {
    OperatorStarts(d, more);
    OperatorRead(d, more);
    TurnOperator(prev, OperatorText(d) + more, stack, pending, HereOf(d), |OperatorText(d)|);
  }

  // ----- line ends ----------------------------------------------------------

  /** A line of a body, or the `#!` line. */
  lemma OverLineOf(rule: Rule, line: string, rest: string, m: Machine, first: int)
    requires Lawful(rule) && StackOk(m.stack) && '\n' !in line
    requires m.bodies != [] || (m.index == 0 && Starts2(line, '#', '!'))
    ensures LineStart(rule, line + ("\n" + rest), m, first) == LineStart(rule, rest, SkipLine(m, line), first)
  {
    LineRestOf(line, "\n" + rest);
    SkipsLine(rule, line + ("\n" + rest), line, "\n" + rest, m, first);
    assert ("\n" + rest)[1..] == rest;
  }

  lemma OverLine(line: string, rest: string, m: Machine, first: int)
    requires StackOk(m.stack) && '\n' !in line
    requires m.bodies != [] || (m.index == 0 && Starts2(line, '#', '!'))
    ensures GoLine(line + ("\n" + rest), m, first) == GoLine(rest, SkipLine(m, line), first)
  {
    TurnIsLawful();
    OverLineOf(Turn, line, rest, m, first);
  }

  lemma AtBreak(prev: Option<char>, rest: string, m: Machine, first: int)
    requires StackOk(m.stack)
    ensures Go(prev, "\n" + rest, m, first) == GoLine(rest, EndLine(m), first)
  {
    TurnIsLawful();
    assert ("\n" + rest)[1..] == rest;
  }

  lemma PlainLine(rest: string, m: Machine, first: int)
    requires StackOk(m.stack) && m.bodies == [] && m.index > 0
    ensures GoLine(rest, m, first) == Go(None, rest, m, first)
  {
    TurnIsLawful();
  }

  lemma AtEnd(prev: Option<char>, m: Machine, first: int)
    requires StackOk(m.stack)
    ensures Go(prev, "", m, first) == Scan([], m.stack)
  {
    TurnIsLawful();
  }

  lemma AtStart(text: string, first: int)
    requires !Starts2(text, '#', '!')
    ensures GoLine(text, START, first) == Go(None, text, START, first)
  {
    TurnIsLawful();
  }

  lemma EndsAtLine(rest: string, c: char)
    requires rest == "" || rest[0] == '\n' || rest[0] == c
    ensures LineRest(rest) == "" || LineRest(rest)[0] == c
  {
  }

  // ----- the scan as a function of the place --------------------------------

  /** The rest of the scan from a place in a line, and from the start of one. */
  datatype Scans = Scans(go: (Option<char>, string, Machine) -> Scan, line: (string, Machine) -> Scan)

  /** Whether these are the scanner's. */
  ghost predicate Runs(g: Scans, first: int) {
    && (forall prev, s, m: Machine {:trigger Go(prev, s, m, first)} | StackOk(m.stack) ::
          g.go(prev, s, m) == Go(prev, s, m, first))
    && (forall s, m: Machine {:trigger GoLine(s, m, first)} | StackOk(m.stack) :: g.line(s, m) == GoLine(s, m, first))
  }

  lemma Stepped(g: Scans, prev: Option<char>, a: string, rest: string, m: Machine, first: int, t: Turned)
    requires Runs(g, first) && a != "" && '\n' !in a && StackOk(m.stack)
    requires t == Turn(prev, a + LineRest(rest), m.stack, m.pending) && t.width == |a|
    ensures g.go(prev, a + rest, m) ==
            Prepend(Found(t, first + m.index),
              g.go(Some(LastChar(a)), rest, m.(stack := t.stack, pending := t.pending)))
  {
    Step(prev, a, rest, m, first, t);
  }

  /** A turn that finds nothing and leaves the here-documents alone. */
  lemma Passes(g: Scans, prev: Option<char>, a: string, rest: string, m: Machine, first: int, after: Stack)
    requires Runs(g, first) && a != "" && '\n' !in a && StackOk(m.stack) && StackOk(after)
    requires Turn(prev, a + LineRest(rest), m.stack, m.pending) == Turned(|a|, after, m.pending, None)
    ensures g.go(prev, a + rest, m) == g.go(Some(LastChar(a)), rest, m.(stack := after))
  {
    Stepped(g, prev, a, rest, m, first, Turned(|a|, after, m.pending, None));
    NothingFound(g.go(Some(LastChar(a)), rest, m.(stack := after)));
  }

  lemma PlainStep(g: Scans, c: char, prev: Option<char>, rest: string, m: Machine, first: int)
    requires Runs(g, first) && StackOk(m.stack) && Ordinary(PlaceOf(m.stack.top), prev, c)
    ensures g.go(prev, [c] + rest, m) == g.go(Some(c), rest, m)
  {
    TurnOrdinary(prev, c, LineRest(rest), m.stack, m.pending);
    Passes(g, prev, [c], rest, m, first, m.stack);
  }

  lemma EscapeStep(g: Scans, c: char, prev: Option<char>, rest: string, m: Machine, first: int)
    requires Runs(g, first) && StackOk(m.stack) && !m.stack.top.kind.Single? && c != '\n'
    ensures g.go(prev, ['\\', c] + rest, m) == g.go(Some(c), rest, m)
  {
    TurnEscape(prev, c, LineRest(rest), m.stack, m.pending);
    Passes(g, prev, ['\\', c], rest, m, first, m.stack);
  }

  lemma LineEscapeStep(g: Scans, prev: Option<char>, rest: string, m: Machine, first: int)
    requires Runs(g, first) && StackOk(m.stack) && !m.stack.top.kind.Single? && rest != "" && rest[0] == '\n'
    ensures g.go(prev, "\\" + rest, m) == g.go(Some('\\'), rest, m)
  {
    TurnLineEscape(prev, m.stack, m.pending);
    assert "\\" + LineRest(rest) == "\\";
    Passes(g, prev, "\\", rest, m, first, m.stack);
  }

  lemma DollarStep(g: Scans, c: char, prev: Option<char>, rest: string, m: Machine, first: int)
    requires Runs(g, first) && StackOk(m.stack) && !m.stack.top.kind.Single? && !m.stack.top.kind.Ansi?
    requires c != '\n' && c != '\'' && c != '{' && c != '('
    ensures g.go(prev, "$" + ([c] + rest), m) == g.go(Some('$'), [c] + rest, m)
  {
    LineRestOver([c], rest);
    TurnDollar(prev, [c] + LineRest(rest), m.stack, m.pending);
    Passes(g, prev, "$", [c] + rest, m, first, m.stack);
  }

  lemma LessStep(g: Scans, c: char, prev: Option<char>, rest: string, m: Machine, first: int)
    requires Runs(g, first) && StackOk(m.stack) && m.stack.top.kind.Command? && c != '\n' && c != '<'
    ensures g.go(prev, "<" + ([c] + rest), m) == g.go(Some('<'), [c] + rest, m)
  {
    LineRestOver([c], rest);
    TurnLess(prev, [c] + LineRest(rest), m.stack, m.pending);
    Passes(g, prev, "<", [c] + rest, m, first, m.stack);
  }

  lemma HereStringStep(g: Scans, prev: Option<char>, rest: string, m: Machine, first: int)
    requires Runs(g, first) && StackOk(m.stack) && m.stack.top.kind.Command?
    ensures g.go(prev, "<<<" + rest, m) == g.go(Some('<'), rest, m)
  {
    TurnHereString(prev, LineRest(rest), m.stack, m.pending);
    Passes(g, prev, "<<<", rest, m, first, m.stack);
  }

  lemma CommentStep(g: Scans, text: string, prev: Option<char>, rest: string, m: Machine, first: int)
    requires Runs(g, first) && StackOk(m.stack) && m.stack.top.kind.Command? && AtWordStart(prev) && '\n' !in text
    requires m.stack.top.closer.Backquote? ==> '`' !in text
    requires rest == "" || rest[0] == '\n' || (m.stack.top.closer.Backquote? && rest[0] == '`')
    ensures g.go(prev, ("#" + text) + rest, m) ==
            Prepend([Piece(first + m.index, "#" + text)], g.go(Some(LastChar("#" + text)), rest, m))
  {
    EndsAtLine(rest, '`');
    TurnComment(prev, text, LineRest(rest), m.stack, m.pending);
    Stepped(g, prev, "#" + text, rest, m, first, Turned(1 + |text|, m.stack, m.pending, Some("#" + text)));
  }

  lemma HereDocStep(g: Scans, d: Document, prev: Option<char>, rest: string, m: Machine, first: int)
    requires Runs(g, first) && StackOk(m.stack) && m.stack.top.kind.Command? && DocumentOk(d)
    requires IsBare(d) ==> rest == "" || !IsNameChar(rest[0])
    ensures OperatorText(d) != "" && '\n' !in OperatorText(d)
    ensures g.go(prev, OperatorText(d) + rest, m) ==
            g.go(Some(LastChar(OperatorText(d))), rest, m.(pending := m.pending + [HereOf(d)]))
  {
    TurnHereDoc(d, prev, LineRest(rest), m.stack, m.pending);
    Stepped(g, prev, OperatorText(d), rest, m, first,
      Turned(|OperatorText(d)|, m.stack, m.pending + [HereOf(d)], None));
    NothingFound(g.go(Some(LastChar(OperatorText(d))), rest, m.(pending := m.pending + [HereOf(d)])));
  }

  lemma BreakStep(g: Scans, prev: Option<char>, rest: string, m: Machine, first: int)
    requires Runs(g, first) && StackOk(m.stack)
    ensures g.go(prev, "\n" + rest, m) == g.line(rest, EndLine(m))
  {
    AtBreak(prev, rest, m, first);
  }

  lemma LineStep(g: Scans, rest: string, m: Machine, first: int)
    requires Runs(g, first) && StackOk(m.stack) && m.bodies == [] && m.index > 0
    ensures g.line(rest, m) == g.go(None, rest, m)
  {
    PlainLine(rest, m, first);
  }

  lemma BodyStep(g: Scans, line: string, rest: string, m: Machine, first: int)
    requires Runs(g, first) && StackOk(m.stack) && '\n' !in line
    requires m.bodies != [] || (m.index == 0 && Starts2(line, '#', '!'))
    ensures g.line(line + ("\n" + rest), m) == g.line(rest, SkipLine(m, line))
  {
    OverLine(line, rest, m, first);
  }

  lemma Opens(g: Scans, o: Opener, prev: Option<char>, rest: string, m: Machine, first: int)
    requires Runs(g, first)
    requires StackOk(m.stack) && Allowed(o, PlaceOf(m.stack.top), prev)
    requires o.Substitution? ==> LineRest(rest) == "" || LineRest(rest)[0] != '('
    ensures StackOk(Over(Frame(o), m.stack))
    ensures g.go(prev, Opening(o) + rest, m) ==
            g.go(Some(LastChar(Opening(o))), rest, m.(stack := Over(Frame(o), m.stack)))
  {
    TurnOpens(o, prev, LineRest(rest), m.stack, m.pending);
    Passes(g, prev, Opening(o), rest, m, first, Over(Frame(o), m.stack));
  }

  lemma Closes(g: Scans, o: Opener, prev: Option<char>, rest: string, m: Machine, first: int)
    requires Runs(g, first)
    requires StackOk(m.stack)
    ensures StackOk(Over(Frame(o), m.stack))
    ensures g.go(prev, Closing(o) + rest, m.(stack := Over(Frame(o), m.stack))) ==
            g.go(Some(LastChar(Closing(o))), rest, m)
  {
    TurnCloses(o, prev, LineRest(rest), m.stack, m.pending);
    Passes(g, prev, Closing(o), rest, m.(stack := Over(Frame(o), m.stack)), first, m.stack);
  }

  lemma ParenOpens(g: Scans, prev: Option<char>, rest: string, m: Machine, first: int)
    requires Runs(g, first)
    requires StackOk(m.stack) && (m.stack.top.kind.Arithmetic? || m.stack.top.kind.Command?)
    requires m.stack.top.kind.Command? && AtWordStart(prev) ==> LineRest(rest) == "" || LineRest(rest)[0] != '('
    ensures StackOk(Deeper(m.stack))
    ensures g.go(prev, "(" + rest, m) == g.go(Some('('), rest, m.(stack := Deeper(m.stack)))
  {
    DeeperOk(m.stack);
    TurnParenOpens(prev, LineRest(rest), m.stack, m.pending);
    Passes(g, prev, "(", rest, m, first, Deeper(m.stack));
  }

  lemma ParenCloses(g: Scans, prev: Option<char>, rest: string, m: Machine, first: int)
    requires Runs(g, first)
    requires StackOk(m.stack) && (m.stack.top.kind.Arithmetic? || m.stack.top.kind.Command?)
    ensures StackOk(Deeper(m.stack))
    ensures g.go(prev, ")" + rest, m.(stack := Deeper(m.stack))) == g.go(Some(')'), rest, m)
  {
    DeeperOk(m.stack);
    TurnParenCloses(prev, LineRest(rest), m.stack, m.pending);
    Passes(g, prev, ")", rest, m.(stack := Deeper(m.stack)), first, m.stack);
  }

  lemma StartStep(g: Scans, text: string, first: int)
    requires Runs(g, first) && !Starts2(text, '#', '!')
    ensures g.line(text, START) == g.go(None, text, START)
  {
    AtStart(text, first);
  }

  lemma EndStep(g: Scans, prev: Option<char>, m: Machine, first: int)
    requires Runs(g, first) && StackOk(m.stack)
    ensures g.go(prev, "", m) == Scan([], m.stack)
  {
    AtEnd(prev, m, first);
  }

  lemma WholeScan(g: Scans, text: string, first: int)
    requires Runs(g, first)
    ensures ScanScript(text, first) == g.line(text, START)
  {
    assert GoLine(text, START, first) == ScanScript(text, first);
  }

  ghost function ScansFrom(first: int): (g: Scans)
    ensures Runs(g, first)
  {
    Scans(
      (prev, s, m: Machine) => if StackOk(m.stack) then Go(prev, s, m, first) else Scan([], m.stack),
      (s, m: Machine) => if StackOk(m.stack) then GoLine(s, m, first) else Scan([], m.stack))
  }
}
