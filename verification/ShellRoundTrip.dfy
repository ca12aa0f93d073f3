/** The scanner undoes the printer: scanning a printed script finds the script's
    comments, each on its line, and ends back in the script's own context. */
module ShellRoundTrip {
  import opened Basics
  import opened ShellScanner
  import opened ShellScripts
  import opened ShellTurns

  // ----- here-document bodies -----------------------------------------------

  lemma NewlinesOfLine(line: string, rest: string)
    requires '\n' !in line
    ensures Newlines(line + ("\n" + rest)) == 1 + Newlines(rest)
  {
    NewlinesAdd(line, "\n" + rest);
    NoNewlines(line);
    assert ("\n" + rest)[1..] == rest;
  }

  lemma {:induction false} OverBody(g: Scans, body: seq<string>, rest: string, m: Machine, first: int)
    requires Runs(g, first) && StackOk(m.stack) && m.bodies != []
    requires forall l | l in body :: '\n' !in l && !EndsBody(m.bodies[0], l)
    ensures g.line(BodyLines(body) + rest, m) ==
            g.line(rest, m.(index := m.index + Newlines(BodyLines(body))))
  {
    if body == [] {
      assert BodyLines(body) + rest == rest;
    } else {
      var more := BodyLines(body[1..]);
      assert body[0] in body;
      assert BodyLines(body) == body[0] + ("\n" + more);
      assert BodyLines(body) + rest == body[0] + ("\n" + (more + rest));
      BodyStep(g, body[0], more + rest, m, first);
      OverBody(g, body[1..], rest, SkipLine(m, body[0]), first);
      NewlinesOfLine(body[0], more);
    }
  }

  lemma {:induction false} TabsStripped(tabs: string, word: string)
    requires forall c | c in tabs :: IsTab(c)
    requires word == "" || word[0] != '\t'
    ensures StripTabs(tabs + word) == word
  {
    if tabs == "" {
      assert tabs + word == word;
    } else {
      assert tabs[0] in tabs && (tabs + word)[1..] == tabs[1..] + word;
      TabsStripped(tabs[1..], word);
    }
  }

  function LastLine(d: Document): string { (if d.dash then d.tabs else "") + d.word }

  lemma LastLineEnds(d: Document)
    requires DocumentOk(d)
    ensures EndsBody(HereOf(d), LastLine(d)) && '\n' !in LastLine(d)
  {
    if d.dash {
      TabsStripped(d.tabs, d.word);
      assert '\n' !in d.tabs;
    } else {
      assert "" + d.word == d.word;
    }
  }

  lemma WithEnd(text: string, lines: string, end: string, rest: string)
    requires '\n' !in end && text == lines + (end + "\n")
    ensures text + rest == lines + (end + ("\n" + rest))
    ensures Newlines(text) == Newlines(lines) + 1
  {
    assert "\n" + "" == "\n";
    NewlinesOfLine(end, "");
    NewlinesAdd(lines, end + "\n");
  }

  /** Body lines, then the delimiter line. */
  lemma OverBodyAndEnd(g: Scans, text: string, body: seq<string>, end: string, rest: string, m: Machine, first: int)
    requires Runs(g, first) && StackOk(m.stack) && m.bodies != []
    requires forall l | l in body :: '\n' !in l && !EndsBody(m.bodies[0], l)
    requires '\n' !in end && EndsBody(m.bodies[0], end)
    requires text == BodyLines(body) + (end + "\n")
    ensures g.line(text + rest, m) ==
            g.line(rest, m.(index := m.index + Newlines(text), bodies := m.bodies[1..]))
  {
    WithEnd(text, BodyLines(body), end, rest);
    OverBody(g, body, end + ("\n" + rest), m, first);
    BodyStep(g, end, rest, m.(index := m.index + Newlines(BodyLines(body))), first);
  }

  /** No line of a document's body ends it. */
  lemma LinesStay(d: Document, here: HereDocument)
    requires DocumentOk(d) && here == HereOf(d)
    ensures forall l | l in d.body :: '\n' !in l && !EndsBody(here, l)
    ensures DocumentText(d) == BodyLines(d.body) + (LastLine(d) + "\n")
  {
  }

  lemma OverDocument(g: Scans, d: Document, rest: string, m: Machine, first: int)
    requires Runs(g, first) && StackOk(m.stack) && m.bodies != [] && m.bodies[0] == HereOf(d) && DocumentOk(d)
    ensures g.line(DocumentText(d) + rest, m) ==
            g.line(rest, m.(index := m.index + Newlines(DocumentText(d)), bodies := m.bodies[1..]))
  {
    LastLineEnds(d);
    LinesStay(d, m.bodies[0]);
    OverBodyAndEnd(g, DocumentText(d), d.body, LastLine(d), rest, m, first);
  }

  ghost predicate DocumentsOk(open: seq<Document>) {
    forall d | d in open :: DocumentOk(d)
  }

  lemma {:induction false} OverDocuments(g: Scans, open: seq<Document>, rest: string, m: Machine, first: int)
    requires Runs(g, first) && StackOk(m.stack) && m.bodies == HeresOf(open) && m.index > 0 && DocumentsOk(open)
    ensures g.line(DocumentsText(open) + rest, m) ==
            g.go(None, rest, m.(index := m.index + Newlines(DocumentsText(open)), bodies := []))
  {
    if open == [] {
      assert DocumentsText(open) + rest == rest;
      LineStep(g, rest, m, first);
    } else {
      var head, more := DocumentText(open[0]), DocumentsText(open[1..]);
      var m' := m.(index := m.index + Newlines(head), bodies := m.bodies[1..]);
      assert open[0] in open;
      OverDocument(g, open[0], more + rest, m, first);
      assert m.bodies[1..] == HeresOf(open[1..]);
      OverDocuments(g, open[1..], rest, m', first);
      NewlinesAdd(head, more);
      OverBoth(g, DocumentsText(open), head, more, rest, m, m',
        m.(index := m.index + Newlines(DocumentsText(open)), bodies := []), first);
    }
  }

  lemma OverBoth(
    g: Scans, all: string, head: string, more: string, rest: string, m: Machine, m': Machine, end: Machine, first: int)
    requires StackOk(m.stack) && StackOk(m'.stack) && StackOk(end.stack)
    requires g.line(head + (more + rest), m) == g.line(more + rest, m')
    requires g.line(more + rest, m') == g.go(None, rest, end)
    requires all == head + more
    ensures g.line(all + rest, m) == g.go(None, rest, end)
  {
    assert all + rest == head + (more + rest);
  }

  // ----- nodes --------------------------------------------------------------

  /** The scanner at a place where here-documents `open` are still to come. */
  ghost predicate Ready(m: Machine, p: Place, open: seq<Document>) {
    && StackOk(m.stack) && PlaceOf(m.stack.top) == p && m.bodies == []
    && m.pending == HeresOf(open) && DocumentsOk(open)
  }

  function Later(m: Machine, r: Rendering): Machine {
    m.(pending := HeresOf(r.open), index := m.index + Newlines(r.text))
  }

  /** Scanning a rendered part finds its comments and goes on after it, with the
      same contexts open. */
  ghost predicate Scanned(g: Scans, r: Rendering, prev: Option<char>, last: Option<char>, rest: string, m: Machine) {
    g.go(prev, r.text + rest, m) == Prepend(r.pieces, g.go(last, rest, Later(m, r)))
  }

  /** A part without line breaks or comments that leaves the scanner as it is. */
  lemma ScanToken(g: Scans, r: Rendering, prev: Option<char>, last: Option<char>, rest: string, m: Machine)
    requires '\n' !in r.text && r.pieces == []
    requires g.go(prev, r.text + rest, m) == g.go(last, rest, m.(pending := HeresOf(r.open)))
    ensures Scanned(g, r, prev, last, rest, m)
  {
    NoNewlines(r.text);
    NothingFound(g.go(last, rest, Later(m, r)));
  }

  /** A `$` or `<` and then an ordinary character. */
  lemma ScanTwo(
    g: Scans, a: char, c: char, prev: Option<char>, rest: string, m: Machine, first: int, open: seq<Document>)
    requires Runs(g, first) && StackOk(m.stack) && m.pending == HeresOf(open)
    requires a != '\n' && Ordinary(PlaceOf(m.stack.top), Some(a), c)
    requires g.go(prev, [a] + ([c] + rest), m) == g.go(Some(a), [c] + rest, m)
    ensures Scanned(g, Rendering([a, c], [], open), prev, Some(c), rest, m)
  {
    PlainStep(g, c, Some(a), rest, m, first);
    assert [a, c] + rest == [a] + ([c] + rest);
    ScanToken(g, Rendering([a, c], [], open), prev, Some(c), rest, m);
  }

  lemma ScanComment(
    g: Scans, text: string, prev: Option<char>, rest: string, m: Machine, first: int, p: Place, open: seq<Document>)
    requires Runs(g, first) && Ready(m, p, open) && NodeOk(Comment(text), p, prev) && Ends(Comment(text), p, rest)
    ensures Scanned(g, Render(Comment(text), p.kind, first + m.index, open), prev, LastOf(Comment(text)), rest, m)
  {
    CommentStep(g, text, prev, rest, m, first);
    NoNewlines("#" + text);
  }

  lemma ScanHereDoc(
    g: Scans, d: Document, prev: Option<char>, rest: string, m: Machine, first: int, p: Place, open: seq<Document>)
    requires Runs(g, first) && Ready(m, p, open) && NodeOk(HereDoc(d), p, prev) && Ends(HereDoc(d), p, rest)
    ensures Scanned(g, Rendering(OperatorText(d), [], open + [d]), prev, LastOf(HereDoc(d)), rest, m)
  {
    HereDocStep(g, d, prev, rest, m, first);
    assert HeresOf(open + [d]) == HeresOf(open) + [HereOf(d)];
    ScanToken(g, Rendering(OperatorText(d), [], open + [d]), prev, LastOf(HereDoc(d)), rest, m);
  }

  // ----- line breaks --------------------------------------------------------

  /** What a line break prints: the bodies of the line's here-documents follow it,
      unless a string goes on. */
  function AfterBreak(kind: Kind, open: seq<Document>): string {
    if IsQuote(kind) then "" else DocumentsText(open)
  }

  lemma ScanNewline(g: Scans, prev: Option<char>, rest: string, m: Machine, first: int, p: Place, open: seq<Document>)
    requires Runs(g, first) && Ready(m, p, open)
    ensures Scanned(g, Render(Break(false), p.kind, first + m.index, open), prev, None, rest, m)
  {
    if IsQuote(p.kind) {
      BreakInQuote(g, prev, rest, m, first, p, open);
    } else {
      BreakBeforeBodies(g, DocumentsText(open), prev, rest, m, first, p, open);
    }
  }

  lemma BreakInQuote(g: Scans, prev: Option<char>, rest: string, m: Machine, first: int, p: Place, open: seq<Document>)
    requires Runs(g, first) && Ready(m, p, open) && IsQuote(p.kind)
    ensures Scanned(g, Rendering("\n", [], open), prev, None, rest, m)
  {
    BreakStep(g, prev, rest, m, first);
    LineStep(g, rest, EndLine(m), first);
    assert "\n"[1..] == "";
    NothingFound(g.go(None, rest, EndLine(m)));
  }

  lemma BreakBeforeBodies(
    g: Scans, text: string, prev: Option<char>, rest: string, m: Machine, first: int, p: Place, open: seq<Document>)
    requires Runs(g, first) && Ready(m, p, open) && !IsQuote(p.kind) && text == DocumentsText(open)
    ensures Scanned(g, Rendering("\n" + text, [], []), prev, None, rest, m)
  {
    var r := Rendering("\n" + text, [], []);
    Regroup("\n", text, rest);
    BreakAndBodies(m, p, open, text);
    BodiesOver(g, text, prev, rest, m, Later(m, r), first, open);
    NothingFound(g.go(None, rest, Later(m, r)));
  }

  /** A line break, then the bodies. */
  lemma BodiesOver(
    g: Scans, text: string, prev: Option<char>, rest: string, m: Machine, end: Machine, first: int,
    open: seq<Document>)
    requires Runs(g, first) && StackOk(m.stack) && StackOk(end.stack) && DocumentsOk(open)
    requires EndLine(m).bodies == HeresOf(open) && text == DocumentsText(open)
    requires end == EndLine(m).(index := EndLine(m).index + Newlines(text), bodies := [])
    ensures g.go(prev, "\n" + (text + rest), m) == g.go(None, rest, end)
  {
    BreakStep(g, prev, text + rest, m, first);
    OverDocuments(g, open, rest, EndLine(m), first);
  }

  /** A line break's text, and where the scanner is after the bodies. */
  lemma BreakAndBodies(m: Machine, p: Place, open: seq<Document>, text: string)
    requires Ready(m, p, open) && !IsQuote(p.kind) && text == DocumentsText(open)
    ensures EndLine(m).bodies == HeresOf(open) && EndLine(m).pending == [] == HeresOf([])
    ensures Newlines("\n" + text) == 1 + Newlines(text)
  {
    assert [] + m.pending == m.pending;
    assert ("\n" + text)[1..] == text;
  }

  lemma Regroup(a: string, b: string, c: string)
    ensures (a + b) + c == a + (b + c)
  {
  }

  lemma ScanBreak(
    g: Scans, continued: bool, prev: Option<char>, rest: string, m: Machine, first: int, p: Place, open: seq<Document>)
    requires Runs(g, first) && Ready(m, p, open) && (continued ==> !p.kind.Single?)
    ensures Scanned(g, Render(Break(continued), p.kind, first + m.index, open), prev, None, rest, m)
  {
    var line := Render(Break(false), p.kind, first + m.index, open);
    if continued {
      ScanNewline(g, Some('\\'), rest, m, first, p, open);
      LineEscapeStep(g, prev, line.text + rest, m, first);
      Regroup("\\", line.text, rest);
      ContinuedText(p.kind, first + m.index, open);
      assert Newlines("\\" + line.text) == Newlines(line.text) by {
        assert ("\\" + line.text)[1..] == line.text;
      }
    } else {
      ScanNewline(g, prev, rest, m, first, p, open);
    }
  }

  /** A continued line break is printed as a backslash before a line break. */
  lemma ContinuedText(kind: Kind, line: int, open: seq<Document>)
    ensures Render(Break(true), kind, line, open) ==
            Render(Break(false), kind, line, open).(text := "\\" + Render(Break(false), kind, line, open).text)
  {
    var text := AfterBreak(kind, open);
    assert "\\\n" == "\\" + "\n";
    Regroup("\\", "\n", text);
  }

  // ----- nesting ------------------------------------------------------------

  /** Two parts, one after the other. */
  lemma Joined(
    g: Scans, a: Rendering, b: Rendering, prev: Option<char>, middle: Option<char>, last: Option<char>, rest: string,
    m: Machine)
    requires Scanned(g, a, prev, middle, b.text + rest, m)
    requires Scanned(g, b, middle, last, rest, Later(m, a))
    ensures Scanned(g, Rendering(a.text + b.text, a.pieces + b.pieces, b.open), prev, last, rest, m)
  {
    assert a.text + (b.text + rest) == a.text + b.text + rest;
    NewlinesAdd(a.text, b.text);
    PrependTwice(a.pieces, b.pieces, g.go(last, rest, Later(Later(m, a), b)));
  }

  /** The character before what follows `ns`. */
  function LastOfAll(ns: seq<Node>, prev: Option<char>): Option<char> {
    if ns == [] then prev else LastOf(ns[|ns| - 1])
  }

  function Enclosed(a: string, inner: Rendering, b: string): Rendering {
    inner.(text := a + (inner.text + b))
  }

  /** An opening turn, a part scanned inside, and a closing turn that restores the
      stack. */
  lemma ScanEnclosed(
    g: Scans, a: string, inner: Rendering, b: string, prev: Option<char>, last: Option<char>, rest: string,
    m: Machine, inside: Stack)
    requires a != "" && b != "" && '\n' !in a && '\n' !in b
    requires var rest1 := inner.text + (b + rest);
             g.go(prev, a + rest1, m) == g.go(Some(LastChar(a)), rest1, m.(stack := inside))
    requires Scanned(g, inner, Some(LastChar(a)), last, b + rest, m.(stack := inside))
    requires var m1 := Later(m.(stack := inside), inner);
             g.go(last, b + rest, m1) == g.go(Some(LastChar(b)), rest, m1.(stack := m.stack))
    ensures Scanned(g, Enclosed(a, inner, b), prev, Some(LastChar(b)), rest, m)
  {
    Around(a, inner.text, b, rest);
  }

  lemma Around(a: string, text: string, b: string, rest: string)
    requires '\n' !in a && '\n' !in b
    ensures (a + (text + b)) + rest == a + (text + (b + rest))
    ensures Newlines(a + (text + b)) == Newlines(text)
  {
    NewlinesAdd(a, text + b);
    NewlinesAdd(text, b);
    NoNewlines(a);
    NoNewlines(b);
  }

  /** How a node's text starts. */
  lemma FirstChar(n: Node, kind: Kind, line: int, open: seq<Document>)
    ensures var text := Render(n, kind, line, open).text;
            && text != "" && (IsNameChar(text[0]) ==> n.Plain?)
            && (text[0] == '(' ==> n.Plain? || StartsWithParen([n]))
            && (n == Break(false) ==> text[0] == '\n')
  {
    match n
    case Nested(o, ns) => FirstOfOpening(o, RenderAll(ns, Frame(o).kind, line, open).text + Closing(o));
    case HereDoc(d) => FirstOfOperator(d);
    case _ =>
  }

  lemma FirstOfOpening(o: Opener, more: string)
    ensures var text := Opening(o) + more; !IsNameChar(text[0]) && (text[0] == '(' ==> o.ArithCommand?)
  {
    assert (Opening(o) + more)[0] == Opening(o)[0];
  }

  lemma FirstOfOperator(d: Document)
    ensures OperatorText(d) != "" && OperatorText(d)[0] == '<'
  {
  }

  /** Nodes in a command that do not start with a parenthesis print none first. */
  lemma NoParenFirst(ns: seq<Node>, p: Place, prev: Option<char>, line: int, open: seq<Document>, more: string)
    requires p.kind.Command? && NodesOk(ns, p, prev) && !StartsWithParen(ns)
    requires more == "" || more[0] != '('
    ensures var s := LineRest(RenderAll(ns, p.kind, line, open).text + more); s == "" || s[0] != '('
  {
    if ns != [] {
      FirstChar(ns[0], p.kind, line, open);
    }
  }

  /** What is required after the first node is there: the next may follow it, or it
      is the last. */
  lemma EndsBefore(ns: seq<Node>, p: Place, kind: Kind, line: int, open: seq<Document>, rest: string)
    requires ns != [] && (|ns| > 1 ==> MayFollow(ns[0], ns[1])) && AllEnd(ns, p, rest)
    ensures Ends(ns[0], p, RenderAll(ns[1..], kind, line, open).text + rest)
  {
    if |ns| > 1 {
      FirstChar(ns[1], kind, line, open);
    } else {
      assert "" + rest == rest;
    }
  }

  lemma AllEndBefore(ns: seq<Node>, p: Place, closing: string, rest: string)
    requires closing != "" && !IsNameChar(closing[0])
    requires EndsWithComment(ns) ==> p.closer.Backquote? && closing[0] == '`'
    ensures AllEnd(ns, p, closing + rest)
  {
  }

  // ----- scripts ------------------------------------------------------------

  lemma ScanLeaf(
    g: Scans, n: Node, prev: Option<char>, rest: string, m: Machine, first: int, p: Place, open: seq<Document>)
    requires Runs(g, first) && Ready(m, p, open) && NodeOk(n, p, prev) && Ends(n, p, rest) && !n.Parens? && !n.Nested?
    ensures Scanned(g, Render(n, p.kind, first + m.index, open), prev, LastOf(n), rest, m)
  {
    match n
    case Plain(c) =>
      PlainStep(g, c, prev, rest, m, first);
      ScanToken(g, Rendering([c], [], open), prev, Some(c), rest, m);
    case Escaped(c) =>
      EscapeStep(g, c, prev, rest, m, first);
      ScanToken(g, Rendering(['\\', c], [], open), prev, Some(c), rest, m);
    case Dollar(c) =>
      DollarStep(g, c, prev, rest, m, first);
      ScanTwo(g, '$', c, prev, rest, m, first, open);
    case Less(c) =>
      LessStep(g, c, prev, rest, m, first);
      ScanTwo(g, '<', c, prev, rest, m, first, open);
    case HereString =>
      HereStringStep(g, prev, rest, m, first);
      ScanToken(g, Rendering("<<<", [], open), prev, Some('<'), rest, m);
    case Break(continued) => ScanBreak(g, continued, prev, rest, m, first, p, open);
    case Comment(text) => ScanComment(g, text, prev, rest, m, first, p, open);
    case HereDoc(d) => ScanHereDoc(g, d, prev, rest, m, first, p, open);
  }

  lemma {:induction false} ScanNode(
    g: Scans, n: Node, prev: Option<char>, rest: string, m: Machine, first: int, p: Place, open: seq<Document>)
    requires Runs(g, first) && Ready(m, p, open) && NodeOk(n, p, prev) && Ends(n, p, rest)
    ensures var r := Render(n, p.kind, first + m.index, open);
            Scanned(g, r, prev, LastOf(n), rest, m) && DocumentsOk(r.open)
    decreases n, 1
  {
    match n {
      case Parens(ns) => ScanParens(g, ns, prev, rest, m, first, p, open);
      case Nested(o, ns) => ScanNested(g, o, ns, prev, rest, m, first, p, open);
      case _ =>
        ScanLeaf(g, n, prev, rest, m, first, p, open);
    }
  }

  lemma ParensOpen(
    g: Scans, ns: seq<Node>, prev: Option<char>, rest: string, m: Machine, first: int, p: Place, open: seq<Document>)
    requires Runs(g, first) && StackOk(m.stack) && PlaceOf(m.stack.top) == p && NodeOk(Parens(ns), p, prev)
    ensures StackOk(Deeper(m.stack)) && PlaceOf(Deeper(m.stack).top) == p
    ensures var rest1 := RenderAll(ns, p.kind, first + m.index, open).text + (")" + rest);
            g.go(prev, "(" + rest1, m) == g.go(Some('('), rest1, m.(stack := Deeper(m.stack)))
  {
    DeeperOk(m.stack);
    if !StartsWithParen(ns) && p.kind.Command? {
      NoParenFirst(ns, p, Some('('), first + m.index, open, ")" + rest);
    }
    ParenOpens(g, prev, RenderAll(ns, p.kind, first + m.index, open).text + (")" + rest), m, first);
  }

  lemma ParensParts(ns: seq<Node>, p: Place, prev: Option<char>, rest: string)
    requires NodeOk(Parens(ns), p, prev)
    ensures NodesOk(ns, p, Some('(')) && AllEnd(ns, p, ")" + rest) && (p.kind.Arithmetic? || p.kind.Command?)
  {
    AllEndBefore(ns, p, ")", rest);
  }

  lemma {:induction false} ScanParens(
    g: Scans, ns: seq<Node>, prev: Option<char>, rest: string, m: Machine, first: int, p: Place, open: seq<Document>)
    requires Runs(g, first) && Ready(m, p, open) && NodeOk(Parens(ns), p, prev)
    ensures var r := Render(Parens(ns), p.kind, first + m.index, open);
            Scanned(g, r, prev, Some(')'), rest, m) && DocumentsOk(r.open)
    decreases ns, 3
  {
    var inner := RenderAll(ns, p.kind, first + m.index, open);
    var inside, last := Deeper(m.stack), LastOfAll(ns, Some('('));
    ParensParts(ns, p, prev, rest);
    ParensOpen(g, ns, prev, rest, m, first, p, open);
    ScanNodes(g, ns, Some('('), ")" + rest, m.(stack := inside), first, p, open);
    ParenCloses(g, last, rest, Later(m, inner), first);
    ScanEnclosed(g, "(", inner, ")", prev, last, rest, m, inside);
  }

  lemma NestedOpens(
    g: Scans, o: Opener, ns: seq<Node>, prev: Option<char>, rest: string, m: Machine, first: int, p: Place,
    open: seq<Document>)
    requires Runs(g, first) && StackOk(m.stack) && PlaceOf(m.stack.top) == p && NodeOk(Nested(o, ns), p, prev)
    ensures StackOk(Over(Frame(o), m.stack))
    ensures var rest1 := RenderAll(ns, Frame(o).kind, first + m.index, open).text + (Closing(o) + rest);
            g.go(prev, Opening(o) + rest1, m) ==
              g.go(Some(LastChar(Opening(o))), rest1, m.(stack := Over(Frame(o), m.stack)))
  {
    var rest1 := RenderAll(ns, Frame(o).kind, first + m.index, open).text + (Closing(o) + rest);
    if o.Substitution? {
      NoParenFirst(ns, PlaceOf(Frame(o)), Some(LastChar(Opening(o))), first + m.index, open, Closing(o) + rest);
    }
    Opens(g, o, prev, rest1, m, first);
  }

  lemma NestedParts(o: Opener, ns: seq<Node>, p: Place, prev: Option<char>, rest: string)
    requires NodeOk(Nested(o, ns), p, prev)
    ensures NodesOk(ns, PlaceOf(Frame(o)), Some(LastChar(Opening(o)))) &&
            AllEnd(ns, PlaceOf(Frame(o)), Closing(o) + rest)
  {
    AllEndBefore(ns, PlaceOf(Frame(o)), Closing(o), rest);
  }

  lemma NestedRenders(o: Opener, ns: seq<Node>, kind: Kind, line: int, open: seq<Document>)
    ensures Render(Nested(o, ns), kind, line, open) ==
            Enclosed(Opening(o), RenderAll(ns, Frame(o).kind, line, open), Closing(o))
  {
  }

  lemma {:induction false} ScanNested(
    g: Scans, o: Opener, ns: seq<Node>, prev: Option<char>, rest: string, m: Machine, first: int, p: Place,
    open: seq<Document>)
    requires Runs(g, first) && Ready(m, p, open) && NodeOk(Nested(o, ns), p, prev)
    ensures var r := Render(Nested(o, ns), p.kind, first + m.index, open);
            Scanned(g, r, prev, Some(LastChar(Closing(o))), rest, m) && DocumentsOk(r.open)
    decreases ns, 4
  {
    NestedParts(o, ns, p, prev, rest);
    NestedOpens(g, o, ns, prev, rest, m, first, p, open);
    NestedRenders(o, ns, p.kind, first + m.index, open);
    ScanInside(g, o, Opening(o), ns, Closing(o), prev, Some(LastChar(Opening(o))), rest, m, first, PlaceOf(Frame(o)),
      open);
  }

  /** ... with what opens and closes given. */
  lemma {:induction false} ScanInside(
    g: Scans, o: Opener, a: string, ns: seq<Node>, b: string, prev: Option<char>, before: Option<char>, rest: string,
    m: Machine, first: int, q: Place, open: seq<Document>)
    requires Runs(g, first) && StackOk(m.stack) && m.bodies == [] && m.pending == HeresOf(open) && DocumentsOk(open)
    requires a == Opening(o) && b == Closing(o) && q == PlaceOf(Frame(o)) && before == Some(LastChar(a))
    requires NodesOk(ns, q, before) && AllEnd(ns, q, b + rest) && StackOk(Over(Frame(o), m.stack))
    requires var rest1 := RenderAll(ns, q.kind, first + m.index, open).text + (b + rest);
             g.go(prev, a + rest1, m) == g.go(before, rest1, m.(stack := Over(Frame(o), m.stack)))
    ensures var inner := RenderAll(ns, q.kind, first + m.index, open);
            Scanned(g, Enclosed(a, inner, b), prev, Some(LastChar(b)), rest, m) && DocumentsOk(inner.open)
    decreases ns, 3
  {
    var inside, last := Over(Frame(o), m.stack), LastOfAll(ns, before);
    var inner := RenderAll(ns, q.kind, first + m.index, open);
    ScanNodes(g, ns, before, b + rest, m.(stack := inside), first, q, open);
    Closes(g, o, last, rest, Later(m, inner), first);
    ScanEnclosed(g, a, inner, b, prev, last, rest, m, inside);
  }

  /** The first node of a list, and the others after it. */
  function HeadOf(ns: seq<Node>, kind: Kind, line: int, open: seq<Document>): Rendering
    requires ns != []
  {
    Render(ns[0], kind, line, open)
  }

  function TailOfNodes(ns: seq<Node>, kind: Kind, line: int, head: Rendering): Rendering
    requires ns != []
  {
    RenderAll(ns[1..], kind, line + Newlines(head.text), head.open)
  }

  lemma FirstOk(ns: seq<Node>, prev: Option<char>, p: Place)
    requires ns != [] && NodesOk(ns, p, prev)
    ensures NodeOk(ns[0], p, prev) && NodesOk(ns[1..], p, LastOf(ns[0])) && (|ns| > 1 ==> MayFollow(ns[0], ns[1]))
  {
  }

  lemma FirstEnds(ns: seq<Node>, rest: string, p: Place, line: int, head: Rendering)
    requires ns != [] && (|ns| > 1 ==> MayFollow(ns[0], ns[1])) && AllEnd(ns, p, rest)
    ensures Ends(ns[0], p, TailOfNodes(ns, p.kind, line, head).text + rest) && AllEnd(ns[1..], p, rest)
  {
    EndsBefore(ns, p, p.kind, line + Newlines(head.text), head.open, rest);
  }

  lemma OneAndRest(
    all: Rendering, head: Rendering, tail: Rendering, ns: seq<Node>, kind: Kind, line: int, open: seq<Document>)
    requires ns != [] && all == RenderAll(ns, kind, line, open)
    requires head == HeadOf(ns, kind, line, open) && tail == TailOfNodes(ns, kind, line, head)
    ensures all == Rendering(head.text + tail.text, head.pieces + tail.pieces, tail.open)
  {
  }

  lemma ScanCons(
    g: Scans, ns: seq<Node>, head: Rendering, prev: Option<char>, middle: Option<char>, last: Option<char>,
    rest: string, m: Machine, kind: Kind, line: int, open: seq<Document>)
    requires ns != [] && head == HeadOf(ns, kind, line, open)
    requires var tail := TailOfNodes(ns, kind, line, head);
             Scanned(g, head, prev, middle, tail.text + rest, m) && Scanned(g, tail, middle, last, rest, Later(m, head))
    ensures Scanned(g, RenderAll(ns, kind, line, open), prev, last, rest, m)
    ensures RenderAll(ns, kind, line, open).open == TailOfNodes(ns, kind, line, head).open
  {
    var tail := TailOfNodes(ns, kind, line, head);
    OneAndRest(RenderAll(ns, kind, line, open), head, tail, ns, kind, line, open);
    Joined(g, head, tail, prev, middle, last, rest, m);
  }

  /** The first node of a list, and the others, each scanned in its place. */
  lemma {:induction false} ScanHead(
    g: Scans, ns: seq<Node>, head: Rendering, prev: Option<char>, rest: string, m: Machine, first: int, p: Place,
    open: seq<Document>)
    requires Runs(g, first) && Ready(m, p, open) && NodesOk(ns, p, prev) && AllEnd(ns, p, rest)
    requires ns != [] && head == HeadOf(ns, p.kind, first + m.index, open)
    ensures Scanned(g, head, prev, LastOf(ns[0]), TailOfNodes(ns, p.kind, first + m.index, head).text + rest, m)
    ensures DocumentsOk(head.open)
    decreases ns, 1
  {
    FirstOk(ns, prev, p);
    FirstEnds(ns, rest, p, first + m.index, head);
    ScanNode(g, ns[0], prev, TailOfNodes(ns, p.kind, first + m.index, head).text + rest, m, first, p, open);
  }

  lemma {:induction false} ScanTail(
    g: Scans, ns: seq<Node>, head: Rendering, tail: Rendering, prev: Option<char>, rest: string, m: Machine,
    first: int, p: Place)
    requires Runs(g, first) && ns != [] && NodesOk(ns, p, prev) && AllEnd(ns, p, rest)
    requires Ready(Later(m, head), p, head.open) && tail == TailOfNodes(ns, p.kind, first + m.index, head)
    ensures Scanned(g, tail, LastOf(ns[0]), LastOfAll(ns, prev), rest, Later(m, head)) && DocumentsOk(tail.open)
    decreases ns, 1
  {
    FirstOk(ns, prev, p);
    FirstEnds(ns, rest, p, first + m.index, head);
    LastOfCons(ns, prev);
    TailIsRendered(tail, ns, p.kind, first, m, head);
    ScanNodes(g, ns[1..], LastOf(ns[0]), rest, Later(m, head), first, p, head.open);
  }

  lemma TailIsRendered(tail: Rendering, ns: seq<Node>, kind: Kind, first: int, m: Machine, head: Rendering)
    requires ns != [] && tail == TailOfNodes(ns, kind, first + m.index, head)
    ensures tail == RenderAll(ns[1..], kind, first + Later(m, head).index, head.open)
  {
  }

  lemma {:induction false} ScanNodes(
    g: Scans, ns: seq<Node>, prev: Option<char>, rest: string, m: Machine, first: int, p: Place, open: seq<Document>)
    requires Runs(g, first) && Ready(m, p, open) && NodesOk(ns, p, prev) && AllEnd(ns, p, rest)
    ensures var r := RenderAll(ns, p.kind, first + m.index, open);
            Scanned(g, r, prev, LastOfAll(ns, prev), rest, m) && DocumentsOk(r.open)
    decreases ns, 2
  {
    if ns == [] {
      ScanNothing(g, prev, rest, m, p, open);
    } else {
      var line := first + m.index;
      var head := HeadOf(ns, p.kind, line, open);
      ScanHead(g, ns, head, prev, rest, m, first, p, open);
      ReadyLater(m, p, head);
      ScanTail(g, ns, head, TailOfNodes(ns, p.kind, line, head), prev, rest, m, first, p);
      ScanCons(g, ns, head, prev, LastOf(ns[0]), LastOfAll(ns, prev), rest, m, p.kind, line, open);
    }
  }

  lemma ReadyLater(m: Machine, p: Place, head: Rendering)
    requires StackOk(m.stack) && PlaceOf(m.stack.top) == p && m.bodies == [] && DocumentsOk(head.open)
    ensures Ready(Later(m, head), p, head.open)
  {
  }

  lemma LastOfCons(ns: seq<Node>, prev: Option<char>)
    requires ns != []
    ensures LastOfAll(ns[1..], LastOf(ns[0])) == LastOfAll(ns, prev)
  {
  }

  lemma ScanNothing(g: Scans, prev: Option<char>, rest: string, m: Machine, p: Place, open: seq<Document>)
    requires Ready(m, p, open)
    ensures Scanned(g, Rendering("", [], open), prev, prev, rest, m)
  {
    assert "" + rest == rest;
    NothingFound(g.go(prev, rest, m));
  }

  /** A script, with or without a `#!` line before it. */
  datatype Script = Script(interpreter: Option<string>, nodes: seq<Node>)

  function Printed(script: Script, first: int): Rendering {
    match script.interpreter
    case None => RenderAll(script.nodes, Command, first, [])
    case Some(line) =>
      var r := RenderAll(script.nodes, Command, first + 1, []);
      r.(text := line + ("\n" + r.text))
  }

  /** A first line that starts with `#!` is the interpreter's, not a comment. */
  ghost predicate ScriptOk(script: Script, first: int) {
    && NodesOk(script.nodes, PlaceOf(SCRIPT), None)
    && match script.interpreter
       case None => !Starts2(RenderAll(script.nodes, Command, first, []).text, '#', '!')
       case Some(line) => '\n' !in line && Starts2(line, '#', '!')
  }

  /** The nodes of a script, scanned to the end of the text. */
  lemma ScanToEnd(g: Scans, nodes: seq<Node>, m: Machine, first: int)
    requires Runs(g, first) && NodesOk(nodes, PlaceOf(SCRIPT), None)
    requires m.stack == Bottom(SCRIPT) && m.pending == [] && m.bodies == []
    ensures var r := RenderAll(nodes, Command, first + m.index, []);
            g.go(None, r.text, m) == Scan(r.pieces, Bottom(SCRIPT))
  {
    var r := RenderAll(nodes, Command, first + m.index, []);
    assert m.pending == HeresOf([]);
    ScanNodes(g, nodes, None, "", m, first, PlaceOf(SCRIPT), []);
    EndStep(g, LastOfAll(nodes, None), Later(m, r), first);
    EndsWith(g, r, LastOfAll(nodes, None), m);
  }

  lemma EndsWith(g: Scans, r: Rendering, last: Option<char>, m: Machine)
    requires Scanned(g, r, None, last, "", m) && g.go(last, "", Later(m, r)) == Scan([], m.stack)
    ensures g.go(None, r.text, m) == Scan(r.pieces, m.stack)
  {
    assert r.text + "" == r.text && r.pieces + [] == r.pieces;
  }

  lemma PlainScriptComesBack(g: Scans, nodes: seq<Node>, first: int, r: Rendering)
    requires Runs(g, first) && NodesOk(nodes, PlaceOf(SCRIPT), None) && r == RenderAll(nodes, Command, first, [])
    requires !Starts2(r.text, '#', '!')
    ensures g.line(r.text, START) == Scan(r.pieces, Bottom(SCRIPT))
  {
    ScanToEnd(g, nodes, START, first);
    StartStep(g, r.text, first);
  }

  lemma InterpretedScriptComesBack(g: Scans, line: string, nodes: seq<Node>, first: int)
    requires Runs(g, first) && NodesOk(nodes, PlaceOf(SCRIPT), None) && '\n' !in line && Starts2(line, '#', '!')
    ensures var r := RenderAll(nodes, Command, first + 1, []);
            g.line(line + ("\n" + r.text), START) == Scan(r.pieces, Bottom(SCRIPT))
  {
    var m := START.(index := 1);
    var text := RenderAll(nodes, Command, first + 1, []).text;
    BodyStep(g, line, text, START, first);
    LineStep(g, text, m, first);
    ScanToEnd(g, nodes, m, first);
  }

  /** The scanner finds exactly the comments of a printed script, in order, each on
      its line, and ends with only the script's own frame on the stack. */
  lemma ScriptComesBack(script: Script, first: int)
    requires ScriptOk(script, first)
    ensures var r := Printed(script, first);
            ScanScript(r.text, first) == Scan(r.pieces, Bottom(SCRIPT))
  {
    var g := ScansFrom(first);
    WholeScan(g, Printed(script, first).text, first);
    match script.interpreter
    case None => PlainScriptComesBack(g, script.nodes, first, RenderAll(script.nodes, Command, first, []));
    case Some(line) => InterpretedScriptComesBack(g, line, script.nodes, first);
  }

  // ----- what the pieces are ------------------------------------------------

  /** The comments of a tree, in order. */
  function Comments(n: Node): seq<string>
    decreases n, 0
  {
    match n
    case Comment(text) => ["#" + text]
    case Parens(ns) => AllComments(ns)
    case Nested(_, ns) => AllComments(ns)
    case _ => []
  }

  function AllComments(ns: seq<Node>): seq<string>
    decreases ns, 0
  {
    if ns == [] then [] else Comments(ns[0]) + AllComments(ns[1..])
  }

  function Texts(pieces: seq<Piece>): (r: seq<string>)
    ensures |r| == |pieces| && forall i | 0 <= i < |r| :: r[i] == pieces[i].text
  {
    seq(|pieces|, i requires 0 <= i < |pieces| => pieces[i].text)
  }

  lemma TextsAdd(a: seq<Piece>, b: seq<Piece>)
    ensures Texts(a + b) == Texts(a) + Texts(b)
  {
  }

  lemma {:induction false} PiecesAreComments(n: Node, kind: Kind, line: int, open: seq<Document>)
    ensures Texts(Render(n, kind, line, open).pieces) == Comments(n)
    decreases n, 1
  {
    match n {
      case Parens(ns) => AllPiecesAreComments(ns, kind, line, open);
      case Nested(o, ns) => AllPiecesAreComments(ns, Frame(o).kind, line, open);
      case _ =>
    }
  }

  lemma {:induction false} AllPiecesAreComments(ns: seq<Node>, kind: Kind, line: int, open: seq<Document>)
    ensures Texts(RenderAll(ns, kind, line, open).pieces) == AllComments(ns)
    decreases ns, 0
  {
    if ns != [] {
      var head := HeadOf(ns, kind, line, open);
      var tail := TailOfNodes(ns, kind, line, head);
      PiecesAreComments(ns[0], kind, line, open);
      AllPiecesAreComments(ns[1..], kind, line + Newlines(head.text), head.open);
      TextsAdd(head.pieces, tail.pieces);
      assert RenderAll(ns, kind, line, open).pieces == head.pieces + tail.pieces;
    }
  }

  /** Whether `piece` stands in `text`, which starts on `line`, on the line it names. */
  ghost predicate OnItsLine(piece: Piece, text: string, line: int) {
    exists before, after :: StandsAt(piece, text, line, before, after)
  }

  ghost predicate AllOnLine(pieces: seq<Piece>, text: string, line: int) {
    forall i | 0 <= i < |pieces| :: OnItsLine(pieces[i], text, line)
  }

  ghost predicate StandsAt(piece: Piece, text: string, line: int, before: string, after: string) {
    text == before + (piece.text + after) && piece.line == line + Newlines(before)
  }

  lemma OnLineInside(piece: Piece, head: string, text: string, tail: string, line: int)
    requires OnItsLine(piece, text, line + Newlines(head))
    ensures OnItsLine(piece, head + (text + tail), line)
  {
    var before, after :| StandsAt(piece, text, line + Newlines(head), before, after);
    assert head + (text + tail) == (head + before) + (piece.text + (after + tail));
    NewlinesAdd(head, before);
    assert StandsAt(piece, head + (text + tail), line, head + before, after + tail);
  }

  lemma AllInside(pieces: seq<Piece>, head: string, text: string, tail: string, line: int)
    requires AllOnLine(pieces, text, line + Newlines(head))
    ensures AllOnLine(pieces, head + (text + tail), line)
  {
    forall i | 0 <= i < |pieces| ensures OnItsLine(pieces[i], head + (text + tail), line) {
      OnLineInside(pieces[i], head, text, tail, line);
    }
  }

  lemma {:induction false} PiecesOnTheirLines(n: Node, kind: Kind, line: int, open: seq<Document>)
    ensures var r := Render(n, kind, line, open);
            AllOnLine(r.pieces, r.text, line)
    decreases n, 1
  {
    match n {
      case Comment(text) =>
        assert "#" + text == "" + (("#" + text) + "");
        assert StandsAt(Piece(line, "#" + text), "#" + text, line, "", "");
      case Parens(ns) =>
        AllOnTheirLines(ns, kind, line, open);
        assert Newlines("(") == 0;
        AllInside(RenderAll(ns, kind, line, open).pieces, "(", RenderAll(ns, kind, line, open).text, ")", line);
      case Nested(o, ns) =>
        AllOnTheirLines(ns, Frame(o).kind, line, open);
        NoNewlines(Opening(o));
        AllInside(RenderAll(ns, Frame(o).kind, line, open).pieces, Opening(o),
          RenderAll(ns, Frame(o).kind, line, open).text, Closing(o), line);
      case _ =>
    }
  }

  lemma {:induction false} AllOnTheirLines(ns: seq<Node>, kind: Kind, line: int, open: seq<Document>)
    ensures var r := RenderAll(ns, kind, line, open);
            AllOnLine(r.pieces, r.text, line)
    decreases ns, 0
  {
    if ns != [] {
      var head := HeadOf(ns, kind, line, open);
      PiecesOnTheirLines(ns[0], kind, line, open);
      AllOnTheirLines(ns[1..], kind, line + Newlines(head.text), head.open);
      var tail := TailOfNodes(ns, kind, line, head);
      var all := RenderAll(ns, kind, line, open);
      OneAndRest(all, head, tail, ns, kind, line, open);
      BothOnTheirLines(all, head, tail, line);
    }
  }

  lemma BothOnTheirLines(all: Rendering, head: Rendering, tail: Rendering, line: int)
    requires AllOnLine(head.pieces, head.text, line) && AllOnLine(tail.pieces, tail.text, line + Newlines(head.text))
    requires all.pieces == head.pieces + tail.pieces && all.text == head.text + tail.text
    ensures AllOnLine(all.pieces, all.text, line)
  {
    AllInside(head.pieces, "", head.text, tail.text, line);
    AllInside(tail.pieces, head.text, tail.text, "", line);
    assert "" + (head.text + tail.text) == head.text + tail.text;
    assert head.text + (tail.text + "") == head.text + tail.text;
  }

  /** What the scanner reports on a printed script: its comments, in order, and
      every one of them on the line it is reported on. */
  lemma ScriptComments(script: Script, first: int)
    requires ScriptOk(script, first)
    ensures var text := Printed(script, first).text;
            var pieces := ScanScript(text, first).pieces;
            Texts(pieces) == AllComments(script.nodes) && AllOnLine(pieces, text, first)
  {
    ScriptComesBack(script, first);
    var line := if script.interpreter.None? then first else first + 1;
    AllPiecesAreComments(script.nodes, Command, line, []);
    AllOnTheirLines(script.nodes, Command, line, []);
    if script.interpreter.Some? {
      AfterFirstLine(script.interpreter.value, RenderAll(script.nodes, Command, line, []), first);
    }
  }

  lemma AfterFirstLine(top: string, r: Rendering, first: int)
    requires '\n' !in top && AllOnLine(r.pieces, r.text, first + 1)
    ensures AllOnLine(r.pieces, top + ("\n" + r.text), first)
  {
    var head := top + "\n";
    NewlinesOfLine(top, "");
    assert "\n" + "" == "\n" && top + ("\n" + r.text) == head + (r.text + "");
    AllInside(r.pieces, head, r.text, "", first);
  }
}
