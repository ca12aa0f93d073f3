/** A grammar of shell scripts, printed and scanned back: whatever the nesting of
    quotes, expansions, substitutions and here-documents, the scanner finds exactly
    the comments of the script. */
module ShellScripts {
  import opened Basics
  import opened ShellScanner

  // ----- script trees -------------------------------------------------------

  datatype Opener =
    | SingleQuotes        // '...'
    | DoubleQuotes        // "..."
    | AnsiQuotes          // $'...'
    | Expansion           // ${...}
    | Substitution        // $(...)
    | Backquotes          // `...`
    | ArithExpansion      // $((...))
    | ArithCommand        // ((...))

  datatype Quoting = Bare | Backslash | InSingle | InDouble

  /** A here-document: how its operator is written, and the body lines up to the
      delimiter line, which `tabs` indent when the operator is `<<-`. */
  datatype Document = Document(dash: bool, blanks: string, quoting: Quoting, word: string, body: seq<string>,
    tabs: string)

  datatype Node =
    | Plain(c: char)
    | Escaped(c: char)
    | Dollar(c: char)
    | Less(c: char)
    | HereString
    | Break(continued: bool)
    | Comment(text: string)
    | HereDoc(document: Document)
    | Parens(nodes: seq<Node>)
    | Nested(opener: Opener, nodes: seq<Node>)

  function Frame(o: Opener): Context {
    match o
    case SingleQuotes => Context(Single, NoCloser, 0)
    case DoubleQuotes => Context(Double, NoCloser, 0)
    case AnsiQuotes => Context(Ansi, NoCloser, 0)
    case Expansion => Context(Parameter, NoCloser, 0)
    case Substitution => Context(Command, Paren, 0)
    case Backquotes => Context(Command, Backquote, 0)
    case ArithExpansion => Context(Arithmetic, NoCloser, 0)
    case ArithCommand => Context(Arithmetic, NoCloser, 0)
  }

  function Opening(o: Opener): (s: string)
    ensures 0 < |s| && '\n' !in s
  {
    match o
    case SingleQuotes => "'"
    case DoubleQuotes => "\""
    case AnsiQuotes => "$'"
    case Expansion => "${"
    case Substitution => "$("
    case Backquotes => "`"
    case ArithExpansion => "$(("
    case ArithCommand => "(("
  }

  function Closing(o: Opener): (s: string)
    ensures 0 < |s| && '\n' !in s && !IsNameChar(s[0])
  {
    match o
    case SingleQuotes => "'"
    case DoubleQuotes => "\""
    case AnsiQuotes => "'"
    case Expansion => "}"
    case Substitution => ")"
    case Backquotes => "`"
    case ArithExpansion => "))"
    case ArithCommand => "))"
  }

  // ----- printing -----------------------------------------------------------

  function Newlines(s: string): nat {
    if s == "" then 0 else (if s[0] == '\n' then 1 else 0) + Newlines(s[1..])
  }

  lemma {:induction false} NewlinesAdd(s: string, t: string)
    ensures Newlines(s + t) == Newlines(s) + Newlines(t)
  {
    if s == "" {
      assert s + t == t;
    } else {
      assert (s + t)[1..] == s[1..] + t;
      NewlinesAdd(s[1..], t);
    }
  }

  lemma {:induction false} NoNewlines(s: string)
    requires '\n' !in s
    ensures Newlines(s) == 0
  {
    if s != "" {
      NoNewlines(s[1..]);
    }
  }

  function WordText(d: Document): string {
    match d.quoting
    case Bare => d.word
    case Backslash => "\\" + d.word
    case InSingle => "'" + d.word + "'"
    case InDouble => "\"" + d.word + "\""
  }

  function OperatorText(d: Document): string {
    (if d.dash then "<<-" else "<<") + (d.blanks + WordText(d))
  }

  function BodyLines(body: seq<string>): string {
    if body == [] then "" else body[0] + "\n" + BodyLines(body[1..])
  }

  function DocumentText(d: Document): string {
    BodyLines(d.body) + ((if d.dash then d.tabs else "") + d.word + "\n")
  }

  function DocumentsText(open: seq<Document>): string {
    if open == [] then "" else DocumentText(open[0]) + DocumentsText(open[1..])
  }

  /** What a part of a script prints: its text, its comments with their lines, and
      the here-documents whose bodies are still to come. */
  datatype Rendering = Rendering(text: string, pieces: seq<Piece>, open: seq<Document>)

  function Render(n: Node, kind: Kind, line: int, open: seq<Document>): Rendering
    decreases n, 0
  {
    match n
    case Plain(c) => Rendering([c], [], open)
    case Escaped(c) => Rendering(['\\', c], [], open)
    case Dollar(c) => Rendering(['$', c], [], open)
    case Less(c) => Rendering(['<', c], [], open)
    case HereString => Rendering("<<<", [], open)
    case Break(continued) =>
      var mark := if continued then "\\\n" else "\n";
      if IsQuote(kind) then Rendering(mark, [], open) else Rendering(mark + DocumentsText(open), [], [])
    case Comment(text) => Rendering("#" + text, [Piece(line, "#" + text)], open)
    case HereDoc(d) => Rendering(OperatorText(d), [], open + [d])
    case Parens(ns) =>
      var inner := RenderAll(ns, kind, line, open);
      inner.(text := "(" + (inner.text + ")"))
    case Nested(o, ns) =>
      var inner := RenderAll(ns, Frame(o).kind, line, open);
      inner.(text := Opening(o) + (inner.text + Closing(o)))
  }

  function RenderAll(ns: seq<Node>, kind: Kind, line: int, open: seq<Document>): Rendering
    decreases ns, 0
  {
    if ns == [] then Rendering("", [], open)
    else
      var head := Render(ns[0], kind, line, open);
      var tail := RenderAll(ns[1..], kind, line + Newlines(head.text), head.open);
      Rendering(head.text + tail.text, head.pieces + tail.pieces, tail.open)
  }

  // ----- which trees are scripts --------------------------------------------

  /** Where a node stands: the context it is printed in. */
  datatype Place = Place(kind: Kind, closer: Closer)

  function PlaceOf(c: Context): Place { Place(c.kind, c.closer) }

  /** Characters that stand for themselves after `prev`. */
  predicate Ordinary(p: Place, prev: Option<char>, c: char) {
    && c != '\n'
    && match p.kind
       case Single => c != '\''
       case Ansi => c != '\'' && c != '\\'
       case Double => c != '"' && c != '$' && c != '`' && c != '\\'
       case Parameter => c != '}' && c != '\'' && c != '"' && c != '$' && c != '`' && c != '\\'
       case Arithmetic =>
         c != '(' && c != ')' && c != '\'' && c != '"' && c != '$' && c != '`' && c != '\\'
       case Command =>
         && c != '(' && c != '<' && c != '\'' && c != '"' && c != '$' && c != '`' && c != '\\'
         && (c == ')' ==> !p.closer.Paren?)
         && (c == '#' ==> !AtWordStart(prev))
  }

  predicate IsBare(d: Document) { d.quoting.Bare? || d.quoting.Backslash? }

  predicate IsTab(c: char) { c == '\t' }

  ghost predicate DocumentOk(d: Document) {
    && (forall c | c in d.blanks :: IsBlank(c))
    && (forall c | c in d.tabs :: IsTab(c))
    && '\n' !in d.word
    && (d.quoting.InSingle? ==> '\'' !in d.word)
    && (d.quoting.InDouble? ==> '"' !in d.word)
    && (IsBare(d) ==> d.word != "" && IsLetter(d.word[0]) && forall c | c in d.word :: IsNameChar(c))
    && (d.dash ==> d.word == "" || d.word[0] != '\t')
    && (forall l | l in d.body :: '\n' !in l && !EndsBody(HereOf(d), l))
  }

  function HereOf(d: Document): HereDocument { HereDocument(d.word, d.dash) }

  function HeresOf(open: seq<Document>): (r: seq<HereDocument>)
    ensures |r| == |open| && forall i | 0 <= i < |open| :: r[i] == HereOf(open[i])
  {
    seq(|open|, i requires 0 <= i < |open| => HereOf(open[i]))
  }

  predicate Allowed(o: Opener, p: Place, prev: Option<char>) {
    match o
    case SingleQuotes => p.kind.Command? || p.kind.Parameter? || p.kind.Arithmetic?
    case DoubleQuotes => p.kind.Command? || p.kind.Parameter? || p.kind.Arithmetic?
    case Backquotes => !p.kind.Single? && !p.kind.Ansi? && !p.closer.Backquote?
    case ArithCommand => p.kind.Command? && AtWordStart(prev)
    case _ => !p.kind.Single? && !p.kind.Ansi?
  }

  predicate StartsWithParen(ns: seq<Node>) {
    ns != [] && (ns[0].Parens? || (ns[0].Nested? && ns[0].opener.ArithCommand?))
  }

  predicate EndsWithComment(ns: seq<Node>) {
    ns != [] && ns[|ns| - 1].Comment?
  }

  /** A comment runs to the end of the line; a bare here-document word ends where
      its name ends. */
  predicate MayFollow(a: Node, b: Node) {
    && (a.Comment? ==> b == Break(false))
    && (a.HereDoc? && IsBare(a.document) && b.Plain? ==> !IsNameChar(b.c))
  }

  /** The character printed last, as the next node's place in its line sees it. */
  function LastOf(n: Node): Option<char> {
    match n
    case Plain(c) => Some(c)
    case Escaped(c) => Some(c)
    case Dollar(c) => Some(c)
    case Less(c) => Some(c)
    case HereString => Some('<')
    case Break(_) => None
    case Comment(text) => Some(LastChar("#" + text))
    case HereDoc(d) => Some(LastChar(OperatorText(d)))
    case Parens(_) => Some(')')
    case Nested(o, _) => Some(LastChar(Closing(o)))
  }

  function LastChar(s: string): char
    requires s != ""
  {
    s[|s| - 1]
  }

  ghost predicate NodeOk(n: Node, p: Place, prev: Option<char>)
    decreases n, 0
  {
    match n
    case Plain(c) => Ordinary(p, prev, c)
    case Escaped(c) => !p.kind.Single? && c != '\n'
    case Dollar(c) =>
      !p.kind.Single? && !p.kind.Ansi? && Ordinary(p, Some('$'), c) && c != '\'' && c != '{' && c != '('
    case Less(c) => p.kind.Command? && Ordinary(p, Some('<'), c)
    case HereString => p.kind.Command?
    case Break(continued) => continued ==> !p.kind.Single?
    case Comment(text) =>
      p.kind.Command? && AtWordStart(prev) && '\n' !in text && (p.closer.Backquote? ==> '`' !in text)
    case HereDoc(d) => p.kind.Command? && DocumentOk(d)
    case Parens(ns) =>
      && (p.kind.Arithmetic? || (p.kind.Command? && (AtWordStart(prev) ==> !StartsWithParen(ns))))
      && NodesOk(ns, p, Some('(')) && !EndsWithComment(ns)
    case Nested(o, ns) =>
      && Allowed(o, p, prev)
      && NodesOk(ns, PlaceOf(Frame(o)), Some(LastChar(Opening(o))))
      && (EndsWithComment(ns) ==> o.Backquotes?)
      && (o.Substitution? ==> !StartsWithParen(ns))
  }

  ghost predicate NodesOk(ns: seq<Node>, p: Place, prev: Option<char>)
    decreases ns, 0
  {
    ns == [] ||
    (&& NodeOk(ns[0], p, prev)
     && (|ns| > 1 ==> MayFollow(ns[0], ns[1]))
     && NodesOk(ns[1..], p, LastOf(ns[0])))
  }

  /** What may come after a node: see MayFollow. */
  predicate Ends(n: Node, p: Place, rest: string) {
    && (n.Comment? ==> rest == "" || rest[0] == '\n' || (p.closer.Backquote? && rest[0] == '`'))
    && (n.HereDoc? && IsBare(n.document) ==> rest == "" || !IsNameChar(rest[0]))
  }

  predicate AllEnd(ns: seq<Node>, p: Place, rest: string) {
    ns != [] ==> Ends(ns[|ns| - 1], p, rest)
  }
}
