/** `shellCommentPieces` of scripts/comment-policy.ts: the `#` comments of a shell
    script, found with a stack of quoting contexts kept across lines. */
module ShellScanner {
  import opened Basics

  datatype Kind = Command | Single | Double | Ansi | Parameter | Arithmetic

  /** What closes a command context: nothing closes the script itself. */
  datatype Closer = NoCloser | Paren | Backquote

  datatype Context = Context(kind: Kind, closer: Closer, depth: int)

  datatype HereDocument = HereDocument(delimiter: string, stripTabs: bool)

  /** A comment and the line it is on. */
  datatype Piece = Piece(line: int, text: string)

  const SCRIPT := Context(Command, NoCloser, 0)

  /** The open contexts, innermost first; the last is the script's own. */
  datatype Stack = Bottom(top: Context) | Over(top: Context, below: Stack)

  /** The script at the bottom; above it substitutions, quotes and expansions, none
      with more parentheses closed than opened. */
  predicate StackOk(stack: Stack) {
    match stack
    case Bottom(top) => top == SCRIPT
    case Over(top, below) => FrameOk(top) && StackOk(below)
  }

  predicate FrameOk(c: Context) {
    c.depth >= 0 && (c.kind.Command? <==> !c.closer.NoCloser?)
  }

  // ----- here-document operators --------------------------------------------

  predicate IsBlank(c: char) { c == ' ' || c == '\t' }

  predicate IsLetter(c: char) { 'A' <= c <= 'Z' || 'a' <= c <= 'z' || c == '_' }

  predicate IsNameChar(c: char) { IsLetter(c) || '0' <= c <= '9' || c == '.' || c == '-' }

  function SkipBlanks(s: string): (n: nat)
    ensures n <= |s|
  {
    if s == "" || !IsBlank(s[0]) then 0 else 1 + SkipBlanks(s[1..])
  }

  function NameLength(s: string): (n: nat)
    ensures n <= |s|
  {
    if s == "" || !IsNameChar(s[0]) then 0 else 1 + NameLength(s[1..])
  }

  /** The first `c` in `s`. */
  function IndexOf(s: string, c: char): (n: Option<nat>)
    ensures n.Some? ==> n.value < |s| && s[n.value] == c
  {
    if s == "" then None
    else if s[0] == c then Some(0)
    else
      match IndexOf(s[1..], c)
      case None => None
      case Some(n) => Some(n + 1)
  }

  /** The delimiter word after `<<`, `<<-` and blanks, with its width. */
  function Word(s: string): (r: Option<(string, nat)>)
    ensures r.Some? ==> 0 < r.value.1 <= |s|
  {
    if s == "" then None
    else if s[0] == '\'' || s[0] == '"' then
      match IndexOf(s[1..], s[0])
      case None => None
      case Some(n) => Some((s[1..n + 1], n + 2))
    else
      var skip := if s[0] == '\\' then 1 else 0;
      var name := s[skip..];
      if name != "" && IsLetter(name[0]) then Some((name[..NameLength(name)], skip + NameLength(name))) else None
  }

  /** The here-document operator `line` starts with, and its width. */
  function HereOperator(line: string): (r: Option<(HereDocument, nat)>)
    requires Starts2(line, '<', '<')
    ensures r.Some? ==> 2 < r.value.1 <= |line|
  {
    var dash := |line| > 2 && line[2] == '-';
    var from := if dash then 3 else 2;
    var word := from + SkipBlanks(line[from..]);
    match Word(line[word..])
    case None => None
    case Some((delimiter, width)) => Some((HereDocument(delimiter, dash), word + width))
  }

  // ----- one turn of the column loop ----------------------------------------

  /** What one turn does: how many characters it takes, the new stack and pending
      here-documents, and the comment it found. */
  datatype Turned = Turned(width: nat, stack: Stack, pending: seq<HereDocument>, comment: Option<string>)

  /** Whether the character before a place starts a word there; None is the line's
      start. */
  predicate AtWordStart(prev: Option<char>) {
    prev.None? || IsSpace(prev.value) || IsOperator(prev.value)
  }

  predicate IsOperator(c: char) {
    c == ';' || c == '&' || c == '|' || c == '(' || c == ')'
  }

  /** The context a `$`, quote or backquote opens, and how many characters open it. */
  function OpenedContext(line: string): (r: Option<(Context, nat)>)
    requires line != ""
    ensures r.Some? ==> 0 < r.value.1 <= |line| && FrameOk(r.value.0)
  {
    if line[0] == '\'' then Some((Context(Single, NoCloser, 0), 1))
    else if line[0] == '"' then Some((Context(Double, NoCloser, 0), 1))
    else if line[0] == '`' then Some((Context(Command, Backquote, 0), 1))
    else if line[0] != '$' then None
    else if Starts2(line, '$', '\'') then Some((Context(Ansi, NoCloser, 0), 2))
    else if Starts2(line, '$', '{') then Some((Context(Parameter, NoCloser, 0), 2))
    else if Starts3(line, '$', '(', '(') then Some((Context(Arithmetic, NoCloser, 0), 3))
    else if Starts2(line, '$', '(') then Some((Context(Command, Paren, 0), 2))
    else None
  }

  function CloserChar(closer: Closer): Option<char> {
    match closer
    case NoCloser => None
    case Paren => Some(')')
    case Backquote => Some('`')
  }

  /** One turn at the start of `line`, what is left of the current line. */
  function Turn(prev: Option<char>, line: string, stack: Stack, pending: seq<HereDocument>): (r: Turned)
    requires line != "" && StackOk(stack)
    ensures 0 < r.width <= |line| && StackOk(r.stack)
  {
    var context, c := stack.top, line[0];
    var go := Turned(1, stack, pending, None);
    if context.kind.Single? then if c == '\'' then go.(stack := stack.below) else go
    else if c == '\\' then go.(width := if |line| > 1 then 2 else 1)
    else if context.kind.Ansi? then if c == '\'' then go.(stack := stack.below) else go
    else if context.kind.Double? && c == '"' then go.(stack := stack.below)
    else if context.kind.Parameter? && c == '}' then go.(stack := stack.below)
    else if context.kind.Command? && Some(c) == CloserChar(context.closer) && context.depth == 0 then
      go.(stack := stack.below)
    else if context.kind.Arithmetic? && c == ')' && context.depth == 0 then
      go.(stack := stack.below, width := if Starts2(line, ')', ')') then 2 else 1)
    else
      var entered :=
        if context.kind.Double? && c != '$' && c != '`' then None else OpenedContext(line);
      if entered.Some? then go.(stack := Over(entered.value.0, stack), width := entered.value.1)
      else if context.kind.Double? then go
      else if c == '(' || c == ')' then TurnParen(prev, line, stack, pending)
      else if !context.kind.Command? then go
      else TurnCommand(prev, line, stack, pending)
  }

  function TurnParen(prev: Option<char>, line: string, stack: Stack, pending: seq<HereDocument>): (r: Turned)
    requires line != "" && StackOk(stack) && (line[0] == '(' || line[0] == ')')
    requires line[0] == ')' && (stack.top.closer.Paren? || stack.top.kind.Arithmetic?) ==> stack.top.depth != 0
    ensures 0 < r.width <= |line| && StackOk(r.stack)
  {
    var context := stack.top;
    if context.kind.Command? && Starts2(line, '(', '(') && AtWordStart(prev) then
      Turned(2, Over(Context(Arithmetic, NoCloser, 0), stack), pending, None)
    else if context.closer.Paren? || context.kind.Arithmetic? then
      Turned(1, stack.(top := context.(depth := context.depth + if line[0] == '(' then 1 else -1)), pending, None)
    else Turned(1, stack, pending, None)
  }

  /** In a command: a here-string, a here-document, a comment or anything else. */
  function TurnCommand(prev: Option<char>, line: string, stack: Stack, pending: seq<HereDocument>): (r: Turned)
    requires line != "" && StackOk(stack)
    ensures 0 < r.width <= |line| && StackOk(r.stack)
  {
    var go := Turned(1, stack, pending, None);
    if Starts3(line, '<', '<', '<') then go.(width := 3)
    else if Starts2(line, '<', '<') then
      match HereOperator(line)
      case Some((document, width)) => go.(width := width, pending := pending + [document])
      case None => go.(width := 2)
    else if line[0] == '#' && AtWordStart(prev) then
      var end := if stack.top.closer.Backquote? then IndexOf(line, '`') else None;
      if end.None? then go.(width := |line|, comment := Some(line))
      else go.(width := end.value, comment := Some(line[..end.value]))
    else go
  }

  // ----- the whole text -----------------------------------------------------

  /** A rule for one turn. The scan below is the same for every rule that always
      moves on and keeps the stack in order. */
  type Rule = (Option<char>, string, Stack, seq<HereDocument>) --> Turned

  ghost predicate Lawful(rule: Rule) {
    forall prev, line, stack, pending | line != "" && StackOk(stack) ::
      && rule.requires(prev, line, stack, pending)
      && 0 < rule(prev, line, stack, pending).width <= |line|
      && StackOk(rule(prev, line, stack, pending).stack)
  }

  lemma TurnIsLawful()
    ensures Lawful(Turn)
  {
  }

  /** The scanner between two turns: `index` counts the finished lines. */
  datatype Machine = Machine(
    stack: Stack,
    pending: seq<HereDocument>,
    bodies: seq<HereDocument>,
    index: nat)

  datatype Scan = Scan(pieces: seq<Piece>, stack: Stack)

  function Prepend(pieces: seq<Piece>, r: Scan): Scan {
    r.(pieces := pieces + r.pieces)
  }

  /** `s` up to its first line break. */
  function LineRest(s: string): (r: string)
    ensures |r| <= |s|
  {
    if s == "" || s[0] == '\n' then "" else [s[0]] + LineRest(s[1..])
  }

  lemma {:induction false} LineRestIsLine(s: string)
    ensures LineRest(s) <= s && '\n' !in LineRest(s)
    ensures |LineRest(s)| < |s| ==> s[|LineRest(s)|] == '\n'
  {
    if s != "" && s[0] != '\n' {
      LineRestIsLine(s[1..]);
    }
  }

  function StripTabs(line: string): string {
    if line != "" && line[0] == '\t' then StripTabs(line[1..]) else line
  }

  predicate EndsBody(document: HereDocument, line: string) {
    (if document.stripTabs then StripTabs(line) else line) == document.delimiter
  }

  predicate IsQuote(kind: Kind) {
    kind.Single? || kind.Double? || kind.Ansi?
  }

  /** The end of a scanned line: bodies start next unless a string goes on. */
  function EndLine(m: Machine): Machine
  {
    if IsQuote(m.stack.top.kind) then m.(index := m.index + 1)
    else m.(index := m.index + 1, bodies := m.bodies + m.pending, pending := [])
  }

  /** The line after a body line or the `#!` line. */
  function SkipLine(m: Machine, line: string): Machine {
    if m.bodies != [] && EndsBody(m.bodies[0], line) then m.(index := m.index + 1, bodies := m.bodies[1..])
    else m.(index := m.index + 1)
  }

  /** The scan of `s`, which starts at the start of a line. */
  ghost function LineStart(rule: Rule, s: string, m: Machine, first: int): (r: Scan)
    requires Lawful(rule)
    requires StackOk(m.stack)
    ensures StackOk(r.stack)
    decreases |s|, 1
  {
    if m.bodies != [] || (m.index == 0 && Starts2(s, '#', '!')) then
      var line := LineRest(s);
      if |line| == |s| then Scan([], m.stack) else LineStart(rule, s[|line| + 1..], SkipLine(m, line), first)
    else InLine(rule, None, s, m, first)
  }

  /** The scan of `s`, which goes on in a line after character `prev`. */
  ghost function InLine(rule: Rule, prev: Option<char>, s: string, m: Machine, first: int): (r: Scan)
    requires Lawful(rule)
    requires StackOk(m.stack)
    ensures StackOk(r.stack)
    decreases |s|, 0
  {
    if s == "" then Scan([], m.stack)
    else if s[0] == '\n' then LineStart(rule, s[1..], EndLine(m), first)
    else
      var t := rule(prev, LineRest(s), m.stack, m.pending);
      Prepend(
        Found(t, first + m.index),
        InLine(rule, Some(s[t.width - 1]), s[t.width..], m.(stack := t.stack, pending := t.pending), first))
  }

  function Found(t: Turned, line: int): seq<Piece> {
    if t.comment.Some? then [Piece(line, t.comment.value)] else []
  }

  const START := Machine(Bottom(SCRIPT), [], [], 0)

  /** The scan of a script that starts on line `first`. On every text the script's
      own frame stays at the bottom of the stack and no depth goes below zero. */
  ghost function ScanScript(text: string, first: int): (r: Scan)
    ensures StackOk(r.stack)
  {
    TurnIsLawful();
    LineStart(Turn, text, START, first)
  }

  // ----- the program: lines, then columns -----------------------------------

  /** `text.split('\n')`. */
  function Lines(s: string): (r: seq<string>)
    ensures r != [] && r[0] == LineRest(s)
    decreases |s|
  {
    var line := LineRest(s);
    if |line| == |s| then [line] else [line] + Lines(s[|line| + 1..])
  }

  /** The scan from the start of the line after `tail`'s break, if there is one. */
  ghost function NextLine(rule: Rule, tail: string, m: Machine, first: int): Scan
    requires Lawful(rule) && StackOk(m.stack)
  {
    if tail == "" then Scan([], m.stack) else LineStart(rule, tail[1..], m, first)
  }

  /** What is left of the scan when a line has been read to its end. */
  ghost function AfterLine(rule: Rule, tail: string, m: Machine, first: int): Scan
    requires Lawful(rule)
    requires StackOk(m.stack)
  {
    NextLine(rule, tail, EndLine(m), first)
  }

  /** What one line gives, from a place in it to its end. */
  datatype Columns = Columns(comments: seq<string>, stack: Stack, pending: seq<HereDocument>)

  ghost function ScanColumns(
    rule: Rule, prev: Option<char>, line: string, stack: Stack, pending: seq<HereDocument>): (r: Columns)
    requires Lawful(rule)
    requires StackOk(stack)
    ensures StackOk(r.stack)
    decreases |line|
  {
    if line == "" then Columns([], stack, pending)
    else
      var t := rule(prev, line, stack, pending);
      var r := ScanColumns(rule, Some(line[t.width - 1]), line[t.width..], t.stack, t.pending);
      r.(comments := CommentOf(t) + r.comments)
  }

  function CommentOf(t: Turned): seq<string> {
    if t.comment.Some? then [t.comment.value] else []
  }

  function PiecesOf(comments: seq<string>, line: int): (r: seq<Piece>)
    ensures |r| == |comments|
  {
    if comments == [] then [] else [Piece(line, comments[0])] + PiecesOf(comments[1..], line)
  }

  /** The column loop of one line; `rest` is the line from the column on. */
  method ScanLine(rule: Rule, line: string, stack0: Stack, pending0: seq<HereDocument>) returns (r: Columns)
    requires Lawful(rule) && StackOk(stack0)
    ensures r == ScanColumns(rule, None, line, stack0, pending0)
  {
    r := Columns([], stack0, pending0);
    var prev, rest := None, line;
    while rest != ""
      invariant StackOk(r.stack)
      invariant ScanColumns(rule, None, line, stack0, pending0) == Whole(rule, prev, rest, r)
      decreases |rest|
    {
      OneTurn(rule, prev, rest, r);
      var t := rule(prev, rest, r.stack, r.pending);
      r := Columns(r.comments + CommentOf(t), t.stack, t.pending);
      prev, rest := Some(rest[t.width - 1]), rest[t.width..];
    }
  }

  /** The columns found so far, `r`, completed from `rest` on. */
  ghost function Whole(rule: Rule, prev: Option<char>, rest: string, r: Columns): Columns
    requires Lawful(rule) && StackOk(r.stack)
  {
    After(r.comments, ScanColumns(rule, prev, rest, r.stack, r.pending))
  }

  lemma OneTurn(rule: Rule, prev: Option<char>, rest: string, r: Columns)
    requires Lawful(rule) && rest != "" && StackOk(r.stack)
    ensures var t := rule(prev, rest, r.stack, r.pending);
            Whole(rule, prev, rest, r) ==
            Whole(rule, Some(rest[t.width - 1]), rest[t.width..],
              Columns(r.comments + CommentOf(t), t.stack, t.pending))
  {
    var t := rule(prev, rest, r.stack, r.pending);
    ColumnsStep(rule, prev, rest, r.stack, r.pending);
    FoundSoFar(r.comments, CommentOf(t),
      ScanColumns(rule, Some(rest[t.width - 1]), rest[t.width..], t.stack, t.pending));
  }

  function After(comments: seq<string>, r: Columns): Columns {
    r.(comments := comments + r.comments)
  }

  lemma FoundSoFar(a: seq<string>, b: seq<string>, r: Columns)
    ensures After(a, After(b, r)) == After(a + b, r)
  {
    assert a + (b + r.comments) == a + b + r.comments;
  }

  /** Whether scanning on from `prev` through `line` gives what its columns give,
      and then the next line. */
  ghost predicate ScansThrough(rule: Rule, prev: Option<char>, line: string, tail: string, m: Machine, first: int)
    requires Lawful(rule)
    requires StackOk(m.stack) && (tail == "" || tail[0] == '\n')
  {
    var c := ScanColumns(rule, prev, line, m.stack, m.pending);
    InLine(rule, prev, line + tail, m, first) ==
    Prepend(PiecesOf(c.comments, first + m.index),
      AfterLine(rule, tail, m.(stack := c.stack, pending := c.pending), first))
  }

  lemma EndOfLine(rule: Rule, prev: Option<char>, tail: string, m: Machine, first: int)
    requires Lawful(rule)
    requires StackOk(m.stack) && (tail == "" || tail[0] == '\n')
    ensures ScansThrough(rule, prev, "", tail, m, first)
  {
    assert "" + tail == tail;
    var rest := AfterLine(rule, tail, m, first);
    assert InLine(rule, prev, tail, m, first) == rest;
    assert Prepend([], rest) == rest;
  }

  lemma ThroughTurn(
    rule: Rule, prev: Option<char>, line: string, tail: string, m: Machine, first: int, comments: seq<string>, r: Scan)
    requires Lawful(rule)
    requires StackOk(m.stack) && '\n' !in line && (tail == "" || tail[0] == '\n') && line != ""
    requires var t := rule(prev, line, m.stack, m.pending);
             InLine(rule, Some(line[t.width - 1]), line[t.width..] + tail, m.(stack := t.stack, pending := t.pending),
               first)
             == Prepend(PiecesOf(comments, first + m.index), r)
    ensures var t := rule(prev, line, m.stack, m.pending);
            InLine(rule, prev, line + tail, m, first) ==
            Prepend(PiecesOf(CommentOf(t) + comments, first + m.index), r)
  {
    var t := rule(prev, line, m.stack, m.pending);
    var next := InLine(rule, Some(line[t.width - 1]), line[t.width..] + tail,
      m.(stack := t.stack, pending := t.pending), first);
    TurnInLine(rule, prev, line, tail, m, first);
    FoundFirst(t, comments, first + m.index, next, r);
  }

  /** The scan of a text that starts in the middle of a line goes through the line
      and then on to the next. */
  lemma {:induction false} ScanThroughLine(
    rule: Rule, prev: Option<char>, line: string, tail: string, m: Machine, first: int)
    requires Lawful(rule)
    requires StackOk(m.stack) && '\n' !in line && (tail == "" || tail[0] == '\n')
    ensures ScansThrough(rule, prev, line, tail, m, first)
    decreases |line|, 1
  {
    if line == "" {
      EndOfLine(rule, prev, tail, m, first);
    } else {
      TurnsThrough(rule, prev, line, tail, m, first);
    }
  }

  /** The columns from a turn on, put together. */
  lemma ThroughAll(
    rule: Rule, prev: Option<char>, line: string, tail: string, m: Machine, first: int, comments: seq<string>,
    c: Columns)
    requires Lawful(rule) && StackOk(m.stack) && StackOk(c.stack) && (tail == "" || tail[0] == '\n')
    requires ScanColumns(rule, prev, line, m.stack, m.pending) == After(comments, c)
    requires InLine(rule, prev, line + tail, m, first) ==
             Prepend(PiecesOf(comments + c.comments, first + m.index),
               AfterLine(rule, tail, m.(stack := c.stack, pending := c.pending), first))
    ensures ScansThrough(rule, prev, line, tail, m, first)
  {
  }

  lemma {:induction false} TurnsThrough(
    rule: Rule, prev: Option<char>, line: string, tail: string, m: Machine, first: int)
    requires Lawful(rule)
    requires StackOk(m.stack) && '\n' !in line && (tail == "" || tail[0] == '\n') && line != ""
    ensures ScansThrough(rule, prev, line, tail, m, first)
    decreases |line|, 0
  {
    var t := rule(prev, line, m.stack, m.pending);
    var m' := m.(stack := t.stack, pending := t.pending);
    ScanThroughLine(rule, Some(line[t.width - 1]), line[t.width..], tail, m', first);
    TurnAndOn(rule, prev, line, tail, m, first, t, line[t.width..], m');
  }

  /** A turn, and then the rest of its line. */
  lemma TurnAndOn(
    rule: Rule, prev: Option<char>, line: string, tail: string, m: Machine, first: int, t: Turned, more: string,
    m': Machine)
    requires Lawful(rule)
    requires StackOk(m.stack) && '\n' !in line && (tail == "" || tail[0] == '\n') && line != ""
    requires t == rule(prev, line, m.stack, m.pending) && m' == m.(stack := t.stack, pending := t.pending)
    requires more == line[t.width..] && ScansThrough(rule, Some(line[t.width - 1]), more, tail, m', first)
    ensures ScansThrough(rule, prev, line, tail, m, first)
  {
    var c := ScanColumns(rule, Some(line[t.width - 1]), more, t.stack, t.pending);
    var r := AfterLine(rule, tail, m'.(stack := c.stack, pending := c.pending), first);
    ThroughTurn(rule, prev, line, tail, m, first, c.comments, r);
    ColumnsStep(rule, prev, line, m.stack, m.pending);
    ThroughAll(rule, prev, line, tail, m, first, CommentOf(t), c);
  }

  /** A line that is neither a here-document's nor the `#!` line. */
  lemma ScansLine(rule: Rule, rest: string, line: string, tail: string, m: Machine, first: int)
    requires Lawful(rule) && StackOk(m.stack) && m.bodies == []
    requires line == LineRest(rest) && rest == line + tail && (tail == "" || tail[0] == '\n')
    requires !(m.index == 0 && Starts2(line, '#', '!'))
    ensures var c := ScanColumns(rule, None, line, m.stack, m.pending);
            LineStart(rule, rest, m, first) ==
            Prepend(PiecesOf(c.comments, first + m.index),
              NextLine(rule, tail, EndLine(m.(stack := c.stack, pending := c.pending)), first))
  {
    if Starts2(rest, '#', '!') {
      PrefixInLine(rest);
    }
    LineRestIsLine(rest);
    ScanThroughLine(rule, None, line, tail, m, first);
    assert LineStart(rule, rest, m, first) == InLine(rule, None, line + tail, m, first);
  }

  lemma ColumnsStep(rule: Rule, prev: Option<char>, line: string, stack: Stack, pending: seq<HereDocument>)
    requires Lawful(rule)
    requires StackOk(stack) && line != ""
    ensures var t := rule(prev, line, stack, pending);
            ScanColumns(rule, prev, line, stack, pending) ==
            After(CommentOf(t), ScanColumns(rule, Some(line[t.width - 1]), line[t.width..], t.stack, t.pending))
  {
  }

  lemma FoundFirst(t: Turned, comments: seq<string>, line: int, next: Scan, r: Scan)
    requires next == Prepend(PiecesOf(comments, line), r)
    ensures Prepend(Found(t, line), next) == Prepend(PiecesOf(CommentOf(t) + comments, line), r)
  {
    if t.comment.Some? {
      assert (CommentOf(t) + comments)[1..] == comments;
      PrependTwice([Piece(line, t.comment.value)], PiecesOf(comments, line), r);
    } else {
      assert CommentOf(t) + comments == comments;
      PrependTwice([], PiecesOf(comments, line), r);
    }
  }

  /** The character before a column; None at the start of the line. */
  function Before(line: string, column: nat): Option<char>
    requires column <= |line|
  {
    if column == 0 then None else Some(line[column - 1])
  }

  method ShellCommentPieces(text: string, firstLine: int) returns (pieces: seq<Piece>)
    ensures pieces == ScanScript(text, firstLine).pieces
  {
    TurnIsLawful();
    pieces := ScanText(Turn, text, firstLine);
  }

  /** The line loop. */
  method ScanText(rule: Rule, text: string, firstLine: int) returns (pieces: seq<Piece>)
    requires Lawful(rule)
    ensures pieces == LineStart(rule, text, START, firstLine).pieces
  {
    pieces := [];
    var pending: seq<HereDocument>, bodies: seq<HereDocument> := [], [];
    var stack := Bottom(SCRIPT);
    var lines := Lines(text);
    ghost var rest := text;
    for index := 0 to |lines|
      invariant StackOk(stack)
      invariant index < |lines| ==> Lines(rest) == lines[index..]
      invariant LineStart(rule, text, START, firstLine) ==
                Prepend(pieces,
                  if index < |lines| then LineStart(rule, rest, Machine(stack, pending, bodies, index), firstLine)
                  else Scan([], stack))
    {
      ghost var tail := TailOf(rest, lines[index..]);
      var found;
      found, stack, pending, bodies :=
        OneLine(rule, lines[index], stack, pending, bodies, index, firstLine, rest, tail);
      PrependTwice(pieces, found, NextLine(rule, tail, Machine(stack, pending, bodies, index + 1), firstLine));
      pieces := pieces + found;
      rest := if tail == "" then "" else tail[1..];
    }
  }

  /** One line: a here-document's, the `#!` line, or one to scan. */
  method OneLine(
    rule: Rule, line: string, stack0: Stack, pending0: seq<HereDocument>, bodies0: seq<HereDocument>,
    index: nat, firstLine: int, ghost rest: string, ghost tail: string)
    returns (pieces: seq<Piece>, stack: Stack, pending: seq<HereDocument>, bodies: seq<HereDocument>)
    requires Lawful(rule) && StackOk(stack0)
    requires line == LineRest(rest) && rest == line + tail && (tail == "" || tail[0] == '\n')
    ensures StackOk(stack)
    ensures LineStart(rule, rest, Machine(stack0, pending0, bodies0, index), firstLine) ==
            Prepend(pieces, NextLine(rule, tail, Machine(stack, pending, bodies, index + 1), firstLine))
  {
    var m := Machine(stack0, pending0, bodies0, index);
    pieces, stack, pending, bodies := [], stack0, pending0, bodies0;
    if bodies != [] {
      if EndsBody(bodies[0], line) {
        bodies := bodies[1..];
      }
      SkipsLine(rule, rest, line, tail, m, firstLine);
      return;
    }
    if index == 0 && Starts2(line, '#', '!') {
      SkipsLine(rule, rest, line, tail, m, firstLine);
      return;
    }
    pieces, stack, pending, bodies := ScannedLine(rule, line, m, firstLine, rest, tail);
  }

  method ScannedLine(rule: Rule, line: string, m: Machine, firstLine: int, ghost rest: string, ghost tail: string)
    returns (pieces: seq<Piece>, stack: Stack, pending: seq<HereDocument>, bodies: seq<HereDocument>)
    requires Lawful(rule) && StackOk(m.stack) && m.bodies == [] && !(m.index == 0 && Starts2(line, '#', '!'))
    requires line == LineRest(rest) && rest == line + tail && (tail == "" || tail[0] == '\n')
    ensures StackOk(stack)
    ensures LineStart(rule, rest, m, firstLine) ==
            Prepend(pieces, NextLine(rule, tail, Machine(stack, pending, bodies, m.index + 1), firstLine))
  {
    var c := ScanLine(rule, line, m.stack, m.pending);
    ScansLine(rule, rest, line, tail, m, firstLine);
    pieces, stack, pending, bodies := PiecesOf(c.comments, firstLine + m.index), c.stack, c.pending, [];
    if !IsQuote(stack.top.kind) {
      bodies, pending := bodies + pending, [];
    }
    assert Machine(stack, pending, bodies, m.index + 1) == EndLine(m.(stack := c.stack, pending := c.pending));
  }

  /** What follows the first line of `rest`. */
  lemma TailOf(rest: string, lines: seq<string>) returns (tail: string)
    requires Lines(rest) == lines
    ensures lines[0] == LineRest(rest) && rest == lines[0] + tail
    ensures tail == "" <==> |lines| == 1
    ensures tail != "" ==> tail[0] == '\n' && Lines(tail[1..]) == lines[1..]
  {
    LineRestIsLine(rest);
    tail := rest[|lines[0]|..];
    if tail != "" {
      assert rest[|lines[0]| + 1..] == tail[1..];
    }
  }

  lemma PrependTwice(a: seq<Piece>, b: seq<Piece>, r: Scan)
    ensures Prepend(a, Prepend(b, r)) == Prepend(a + b, r)
  {
    assert a + (b + r.pieces) == a + b + r.pieces;
  }

  lemma PrefixInLine(s: string)
    requires Starts2(s, '#', '!')
    ensures Starts2(LineRest(s), '#', '!')
  {
    assert s[0] == '#' && s[1] == '!';
    assert LineRest(s) == ['#'] + LineRest(s[1..]);
    assert LineRest(s[1..]) == ['!'] + LineRest(s[1..][1..]);
  }

  lemma SkipsLine(rule: Rule, rest: string, line: string, tail: string, m: Machine, first: int)
    requires Lawful(rule)
    requires StackOk(m.stack) && (m.bodies != [] || (m.index == 0 && Starts2(rest, '#', '!')))
    requires line == LineRest(rest) && rest == line + tail
    ensures LineStart(rule, rest, m, first) == NextLine(rule, tail, SkipLine(m, line), first)
  {
    if tail != "" {
      assert rest[|line| + 1..] == tail[1..];
    }
  }

  lemma {:induction false} LineRestOf(line: string, tail: string)
    requires '\n' !in line && (tail == "" || tail[0] == '\n')
    ensures LineRest(line + tail) == line
  {
    if line != "" {
      assert (line + tail)[1..] == line[1..] + tail;
      LineRestOf(line[1..], tail);
    } else {
      assert line + tail == tail;
    }
  }

  /** One turn of the loop is one step of the scan. */
  lemma InLineTurn(rule: Rule, prev: Option<char>, s: string, line: string, m: Machine, first: int)
    requires Lawful(rule) && StackOk(m.stack) && s != "" && s[0] != '\n' && line == LineRest(s)
    ensures var t := rule(prev, line, m.stack, m.pending);
            && StackOk(t.stack) && 0 < t.width <= |s|
            && InLine(rule, prev, s, m, first) ==
               Prepend(
                 Found(t, first + m.index),
                 InLine(rule, Some(s[t.width - 1]), s[t.width..], m.(stack := t.stack, pending := t.pending), first))
  {
  }

  lemma LineAndTail(line: string, tail: string, w: nat)
    requires 0 < w <= |line| && '\n' !in line
    ensures (line + tail)[w..] == line[w..] + tail && (line + tail)[w - 1] == line[w - 1]
    ensures (line + tail)[0] != '\n' && line + tail != ""
  {
    assert (line + tail)[0] == line[0] && line[0] in line;
  }

  /** ... and goes on in the rest of its line. */
  lemma TurnInLine(rule: Rule, prev: Option<char>, line: string, tail: string, m: Machine, first: int)
    requires Lawful(rule)
    requires line != "" && '\n' !in line && (tail == "" || tail[0] == '\n') && StackOk(m.stack)
    ensures var t := rule(prev, line, m.stack, m.pending);
            InLine(rule, prev, line + tail, m, first) ==
            Prepend(
              Found(t, first + m.index),
              InLine(rule, Some(line[t.width - 1]), line[t.width..] + tail,
                m.(stack := t.stack, pending := t.pending), first))
  {
    LineRestOf(line, tail);
    LineAndTail(line, tail, rule(prev, line, m.stack, m.pending).width);
    InLineTurn(rule, prev, line + tail, line, m, first);
  }
}
