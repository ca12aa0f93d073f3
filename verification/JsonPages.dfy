/** `jsonPages` of scripts/ci/github.ts: concatenated JSON documents, split by a
    scanner that knows only brackets, quotes and backslashes. */
module JsonPages {
  import opened Basics

  datatype Outcome<+T> =
    | Pages(pages: seq<T>)
    | Invalid            // something other than `[` or `{` where a page should start
    | Malformed          // a slice the JSON parser refuses
    | Incomplete         // a page that never closes, or no page at all

  /** What the scanner remembers inside a page. */
  datatype Scan = Scan(depth: int, quoted: bool, escaped: bool)

  const START := Scan(0, false, false)

  predicate Blank(s: string) {
    forall c | c in s :: IsSpace(c)
  }

  predicate IsOpener(c: char) { c == '[' || c == '{' }

  predicate IsCloser(c: char) { c == ']' || c == '}' }

  function Step(st: Scan, c: char): Scan {
    if st.quoted then
      if st.escaped then st.(escaped := false)
      else if c == '\\' then st.(escaped := true)
      else if c == '"' then st.(quoted := false)
      else st
    else if c == '"' then st.(quoted := true)
    else if IsOpener(c) then st.(depth := st.depth + 1)
    else if IsCloser(c) then st.(depth := st.depth - 1)
    else st
  }

  /** How many characters of `s` it takes to come back to depth zero. */
  function Close(st: Scan, s: string): (n: Option<nat>)
    ensures n.Some? ==> 0 < n.value <= |s|
    decreases |s|
  {
    if s == "" then None
    else if !st.quoted && IsCloser(s[0]) && st.depth == 1 then Some(1)
    else
      match Close(Step(st, s[0]), s[1..])
      case None => None
      case Some(n) => Some(n + 1)
  }

  /** A text that opens at its first character and first closes at its last. */
  predicate IsDocument(s: string) {
    s != "" && IsOpener(s[0]) && Close(START, s) == Some(|s|)
  }

  function Prepend<T>(pages: seq<T>, rest: Outcome<T>): Outcome<T> {
    if rest.Pages? then Pages(pages + rest.pages) else rest
  }

  /** The pages of a text, page by page. */
  function Split<T>(text: string, parse: string -> Option<T>): Outcome<T>
    decreases |text|
  {
    if text == "" then Pages([])
    else if IsSpace(text[0]) then Split(text[1..], parse)
    else if !IsOpener(text[0]) then Invalid
    else
      match Close(START, text)
      case None => Incomplete
      case Some(n) =>
        match parse(text[..n])
        case None => Malformed
        case Some(page) => Prepend([page], Split(text[n..], parse))
  }

  function Answer<T>(text: string, parse: string -> Option<T>): Outcome<T> {
    if Split(text, parse) == Pages([]) then Incomplete else Split(text, parse)
  }

  /** The scanner is at `i`, between pages, with `pages` behind it. */
  ghost predicate Between<T>(text: string, i: nat, pages: seq<T>, parse: string -> Option<T>)
    requires i <= |text|
  {
    Split(text, parse) == Prepend(pages, Split(text[i..], parse))
  }

  /** The scanner is at `i`, in state `st`, inside the page that opened at `start`. */
  ghost predicate Inside(text: string, start: nat, i: nat, st: Scan)
    requires start <= i <= |text|
  {
    && st.depth >= 0
    && (start < i ==> st.depth > 0)
    && start < |text| && IsOpener(text[start]) && !IsSpace(text[start])
    && Close(START, text[start..]) == Shift(i - start, Close(st, text[i..]))
  }

  /** Where the scanner is at `i`: between pages, or inside the one that opened at
      `start`. */
  ghost predicate At<T>(text: string, i: nat, start: int, st: Scan, pages: seq<T>, parse: string -> Option<T>)
    requires -1 <= start <= i <= |text|
  {
    if start < 0 then st == START && Between(text, i, pages, parse)
    else Between(text, start, pages, parse) && Inside(text, start, i, st)
  }

  lemma AtBeginning<T>(text: string, parse: string -> Option<T>)
    ensures At(text, 0, -1, START, [], parse)
  {
    assert text[0..] == text;
    var rest := Split(text, parse);
    assert rest.Pages? ==> [] + rest.pages == rest.pages;
  }

  lemma AtTheEnd<T>(text: string, start: int, st: Scan, pages: seq<T>, parse: string -> Option<T>)
    requires -1 <= start < |text| || start == -1
    requires At(text, |text|, start, st, pages, parse)
    ensures Answer(text, parse) == if start >= 0 || pages == [] then Incomplete else Pages(pages)
  {
    assert text[|text|..] == "";
    if start >= 0 {
      assert Close(st, text[|text|..]) == None;
    } else {
      assert pages + [] == pages;
    }
  }

  method SplitPages<T>(text: string, parse: string -> Option<T>) returns (r: Outcome<T>)
    ensures r == Answer(text, parse)
  {
    var pages: seq<T> := [];
    var depth, start, quoted, escaped := 0, -1, false, false;
    AtBeginning(text, parse);
    for i := 0 to |text|
      invariant -1 <= start && (start < i || start == -1)
      invariant escaped ==> quoted
      invariant At(text, i, start, Scan(depth, quoted, escaped), pages, parse)
    {
      var c := text[i];
      if start < 0 {
        StartOfPage(text, i, parse);
        if IsSpace(c) {
          continue;
        }
        if !IsOpener(c) {
          return Invalid;
        }
        start := i;
      }
      ghost var st := Scan(depth, quoted, escaped);
      var closed := false;
      if quoted {
        if escaped {
          escaped := false;
        } else if c == '\\' {
          escaped := true;
        } else if c == '"' {
          quoted := false;
        }
      } else if c == '"' {
        quoted := true;
      } else if IsOpener(c) {
        depth := depth + 1;
      } else if IsCloser(c) {
        depth := depth - 1;
        closed := depth == 0;
      }
      if closed {
        AtClose(text, start, i, st, pages, parse);
        var page := parse(text[start..i + 1]);
        if page == None {
          return Malformed;
        }
        pages := pages + [page.value];
        start := -1;
      } else {
        Advance(text, start, i, st);
      }
    }
    AtTheEnd(text, start, Scan(depth, quoted, escaped), pages, parse);
    if start >= 0 || pages == [] {
      return Incomplete;
    }
    return Pages(pages);
  }

  function Shift(k: nat, n: Option<nat>): Option<nat> {
    match n
    case None => None
    case Some(m) => Some(k + m)
  }

  lemma CloseStep(st: Scan, s: string)
    requires s != "" && !(!st.quoted && IsCloser(s[0]) && st.depth == 1)
    ensures Close(st, s) == Shift(1, Close(Step(st, s[0]), s[1..]))
  {
  }

  /** One character further inside a page. */
  lemma Advance(text: string, start: nat, i: nat, st: Scan)
    requires start <= i < |text| && Inside(text, start, i, st)
    requires !(!st.quoted && IsCloser(text[i]) && st.depth == 1)
    requires Step(st, text[i]).depth > 0
    ensures Inside(text, start, i + 1, Step(st, text[i]))
  {
    CloseStep(st, text[i..]);
    assert text[i..][1..] == text[i + 1..];
  }

  /** The three ways a character outside a page can go. */
  lemma StartOfPage<T>(text: string, i: nat, parse: string -> Option<T>)
    requires i < |text|
    ensures IsSpace(text[i]) ==> Split(text[i..], parse) == Split(text[i + 1..], parse)
    ensures !IsSpace(text[i]) && !IsOpener(text[i]) ==> Split(text[i..], parse) == Invalid
    ensures IsOpener(text[i]) ==> Inside(text, i, i, START)
  {
    assert text[i..][1..] == text[i + 1..];
  }

  /** The character that closes a page. */
  lemma AtClose<T>(text: string, start: nat, i: nat, st: Scan, pages: seq<T>, parse: string -> Option<T>)
    requires start <= i < |text| && Inside(text, start, i, st) && Between(text, start, pages, parse)
    requires !st.quoted && IsCloser(text[i]) && st.depth == 1
    ensures var page := parse(text[start..i + 1]);
            if page == None then Split(text, parse) == Malformed
            else Between(text, i + 1, pages + [page.value], parse)
  {
    var n := i + 1 - start;
    assert Close(START, text[start..]) == Some(n);
    assert text[start..][..n] == text[start..i + 1] && text[start..][n..] == text[i + 1..];
    var page := parse(text[start..i + 1]);
    if page.Some? {
      PrependTwice(pages, [page.value], Split(text[i + 1..], parse));
    }
  }

  lemma PrependTwice<T>(a: seq<T>, b: seq<T>, rest: Outcome<T>)
    ensures Prepend(a, Prepend(b, rest)) == Prepend(a + b, rest)
  {
    if rest.Pages? {
      assert a + (b + rest.pages) == a + b + rest.pages;
    }
  }

  // ----- splitting undoes printing, and nothing else splits -----------------

  /** Documents with whitespace before each and after the last. */
  function Printed(gaps: seq<string>, docs: seq<string>): string
    requires |gaps| == |docs| + 1
  {
    if docs == [] then gaps[0] else gaps[0] + docs[0] + Printed(gaps[1..], docs[1..])
  }

  ghost predicate Separates(gaps: seq<string>, docs: seq<string>) {
    && |gaps| == |docs| + 1
    && (forall g | g in gaps :: Blank(g))
    && (forall d | d in docs :: IsDocument(d))
  }

  ghost predicate ParsesTo<T>(docs: seq<string>, parse: string -> Option<T>, pages: seq<T>) {
    |docs| == |pages| && forall i | 0 <= i < |docs| :: parse(docs[i]) == Some(pages[i])
  }

  lemma {:induction false} CloseIgnoresRest(st: Scan, s: string, rest: string)
    requires Close(st, s).Some?
    ensures Close(st, s + rest) == Close(st, s)
    decreases |s|
  {
    assert (s + rest)[1..] == s[1..] + rest;
    if !(!st.quoted && IsCloser(s[0]) && st.depth == 1) {
      CloseIgnoresRest(Step(st, s[0]), s[1..], rest);
    }
  }

  lemma {:induction false} CloseIsFirst(st: Scan, s: string)
    requires Close(st, s).Some?
    ensures Close(st, s[..Close(st, s).value]) == Close(st, s)
    decreases |s|
  {
    if !(!st.quoted && IsCloser(s[0]) && st.depth == 1) {
      var n := Close(st, s).value;
      CloseIsFirst(Step(st, s[0]), s[1..]);
      assert s[..n][1..] == s[1..][..n - 1];
    }
  }

  lemma {:induction false} SplitSkipsBlank<T>(gap: string, rest: string, parse: string -> Option<T>)
    requires Blank(gap)
    ensures Split(gap + rest, parse) == Split(rest, parse)
  {
    if gap == "" {
      assert gap + rest == rest;
    } else {
      assert (gap + rest)[1..] == gap[1..] + rest;
      SplitSkipsBlank(gap[1..], rest, parse);
    }
  }

  /** Whatever is printed between the documents and inside them, splitting gives
      back exactly the documents. */
  lemma {:induction false} SplitUndoesPrint<T>(
    gaps: seq<string>, docs: seq<string>, parse: string -> Option<T>, pages: seq<T>)
    requires Separates(gaps, docs) && ParsesTo(docs, parse, pages)
    ensures Split(Printed(gaps, docs), parse) == Pages(pages)
  {
    if docs == [] {
      SplitSkipsBlank(gaps[0], "", parse);
      assert gaps[0] + "" == gaps[0] && pages == [];
    } else {
      var rest := Printed(gaps[1..], docs[1..]);
      assert IsDocument(docs[0]) && Blank(gaps[0]);
      SplitUndoesPrint(gaps[1..], docs[1..], parse, pages[1..]);
      assert Printed(gaps, docs) == gaps[0] + (docs[0] + rest);
      SplitSkipsBlank(gaps[0], docs[0] + rest, parse);
      CloseIgnoresRest(START, docs[0], rest);
      assert (docs[0] + rest)[..|docs[0]|] == docs[0] && (docs[0] + rest)[|docs[0]|..] == rest;
      assert [pages[0]] + pages[1..] == pages;
    }
  }

  /** Conversely, a text that splits is its documents with only whitespace around
      them, each closing where it is cut and nowhere earlier. */
  lemma {:induction false} SplitIsPrinted<T>(text: string, parse: string -> Option<T>)
    returns (gaps: seq<string>, docs: seq<string>)
    requires Split(text, parse).Pages?
    ensures Separates(gaps, docs) && ParsesTo(docs, parse, Split(text, parse).pages)
    ensures Printed(gaps, docs) == text
    decreases |text|
  {
    if text == "" {
      gaps, docs := [""], [];
    } else if IsSpace(text[0]) {
      gaps, docs := SplitIsPrinted(text[1..], parse);
      assert text == text[..1] + text[1..];
      gaps := WiderGap(text[..1], gaps, docs);
    } else {
      var n := Close(START, text).value;
      CloseIsFirst(START, text);
      gaps, docs := SplitIsPrinted(text[n..], parse);
      gaps, docs := OneMoreDocument(text[..n], gaps, docs);
      assert text == text[..n] + text[n..];
    }
  }

  lemma OneMoreDocument(doc: string, gaps: seq<string>, docs: seq<string>)
    returns (wider: seq<string>, more: seq<string>)
    requires IsDocument(doc) && Separates(gaps, docs)
    ensures more == [doc] + docs && Separates(wider, more) && Printed(wider, more) == doc + Printed(gaps, docs)
  {
    wider, more := [""] + gaps, [doc] + docs;
    assert wider[1..] == gaps && more[1..] == docs;
  }

  lemma WiderGap(space: string, gaps: seq<string>, docs: seq<string>) returns (wider: seq<string>)
    requires Blank(space) && Separates(gaps, docs)
    ensures Separates(wider, docs) && Printed(wider, docs) == space + Printed(gaps, docs)
  {
    wider := [space + gaps[0]] + gaps[1..];
    assert Blank(gaps[0]);
    forall g | g in wider
      ensures Blank(g)
    {
      if g != wider[0] {
        assert g in gaps;
      }
    }
    assert wider[1..] == gaps[1..];
    if docs != [] {
      assert space + gaps[0] + docs[0] == space + (gaps[0] + docs[0]);
    }
  }

  // ----- JSON texts (RFC 8259, sections 2 to 7) -----------------------------

  /** One character of a string body: itself, or a backslash and what it escapes. */
  datatype Piece = Plain(c: char) | Escape(c: char)

  /** A JSON text with its whitespace: an array or object keeps the blanks around
      each of its elements, `blank` is what an empty one holds. */
  datatype Json =
    | Scalar(text: string)                          // number, true, false or null
    | String(body: seq<Piece>)
    | Array(items: seq<Item>, blank: string)
    | Object(members: seq<Member>, blank: string)

  datatype Item = Item(before: string, value: Json, after: string)

  datatype Member = Member(before: string, key: seq<Piece>, middle: string, item: Item)

  predicate PieceOk(p: Piece) {
    p.Plain? ==> p.c != '"' && p.c != '\\'
  }

  predicate IsInert(c: char) { c != '"' && !IsOpener(c) && !IsCloser(c) }

  predicate Inert(s: string) {
    forall i | 0 <= i < |s| :: IsInert(s[i])
  }

  ghost predicate WellFormed(v: Json) {
    match v
    case Scalar(text) => Inert(text)
    case String(body) => forall p | p in body :: PieceOk(p)
    case Array(items, blank) => Blank(blank) && forall i | i in items :: ItemOk(i)
    case Object(members, blank) =>
      Blank(blank) &&
      forall m | m in members :: MemberOk(m)
  }

  ghost predicate MemberOk(m: Member) {
    Blank(m.before) && Blank(m.middle) && (forall p | p in m.key :: PieceOk(p)) && ItemOk(m.item)
  }

  ghost predicate ItemOk(i: Item) {
    Blank(i.before) && Blank(i.after) && WellFormed(i.value)
  }

  function PrintPieces(body: seq<Piece>): string {
    if body == [] then ""
    else PrintPiece(body[0]) + PrintPieces(body[1..])
  }

  function PrintPiece(p: Piece): string {
    if p.Plain? then [p.c] else ['\\', p.c]
  }

  function PrintString(body: seq<Piece>): string {
    "\"" + PrintPieces(body) + "\""
  }

  function Print(v: Json): string {
    match v
    case Scalar(text) => text
    case String(body) => PrintString(body)
    case Array(items, blank) => "[" + PrintItems(items) + blank + "]"
    case Object(members, blank) => "{" + PrintMembers(members) + blank + "}"
  }

  function PrintItem(i: Item): string {
    i.before + Print(i.value) + i.after
  }

  function PrintItems(items: seq<Item>): string {
    if items == [] then ""
    else PrintItem(items[0]) + (if |items| > 1 then "," else "") + PrintItems(items[1..])
  }

  function PrintMember(m: Member): string {
    m.before + PrintString(m.key) + m.middle + ":" + PrintItem(m.item)
  }

  function PrintMembers(members: seq<Member>): string {
    if members == [] then ""
    else PrintMember(members[0]) + (if |members| > 1 then "," else "") + PrintMembers(members[1..])
  }

  /** Text the scanner passes over at any depth above zero, ending as it began. */
  ghost predicate Passed(s: string) {
    forall d: int, rest: string | d > 0 :: PassedAt(s, d, rest)
  }

  predicate PassedAt(s: string, d: int, rest: string) {
    Close(Scan(d, false, false), s + rest) == Shift(|s|, Close(Scan(d, false, false), rest))
  }

  lemma {:induction false} PassInert(s: string)
    requires Inert(s)
    ensures Passed(s)
  {
    forall d: int, rest: string | d > 0
      ensures PassedAt(s, d, rest)
    {
      if s == "" {
        assert s + rest == rest;
      } else {
        assert IsInert(s[0]);
        PassInert(s[1..]);
        assert PassedAt(s[1..], d, rest);
        assert (s + rest)[1..] == s[1..] + rest;
      }
    }
  }

  lemma PassBoth(s: string, t: string)
    requires Passed(s) && Passed(t)
    ensures Passed(s + t)
  {
    forall d: int, rest: string | d > 0
      ensures PassedAt(s + t, d, rest)
    {
      assert PassedAt(t, d, rest) && PassedAt(s, d, t + rest);
      assert s + t + rest == s + (t + rest);
    }
  }

  lemma PassPiece(p: Piece, d: int, more: string)
    requires d > 0 && PieceOk(p)
    ensures Close(Scan(d, true, false), PrintPiece(p) + more) ==
            Shift(|PrintPiece(p)|, Close(Scan(d, true, false), more))
  {
    var here := PrintPiece(p);
    CloseStep(Scan(d, true, false), here + more);
    if p.Escape? {
      assert (here + more)[1..] == [p.c] + more;
      CloseStep(Scan(d, true, true), [p.c] + more);
      assert ([p.c] + more)[1..] == more;
    } else {
      assert (here + more)[1..] == more;
    }
  }

  lemma {:induction false} PassPieces(body: seq<Piece>, d: int, more: string)
    requires d > 0 && forall p | p in body :: PieceOk(p)
    ensures Close(Scan(d, true, false), PrintPieces(body) + more) ==
            Shift(|PrintPieces(body)|, Close(Scan(d, true, false), more))
  {
    if body == [] {
      assert PrintPieces(body) + more == more;
    } else {
      PassPieces(body[1..], d, more);
      assert PieceOk(body[0]);
      PassPiece(body[0], d, PrintPieces(body[1..]) + more);
      assert PrintPieces(body) + more == PrintPiece(body[0]) + (PrintPieces(body[1..]) + more);
    }
  }

  lemma {:induction false} PassString(body: seq<Piece>)
    requires forall p | p in body :: PieceOk(p)
    ensures Passed(PrintString(body))
  {
    forall d: int, rest: string | d > 0
      ensures PassedAt(PrintString(body), d, rest)
    {
      var tail := "\"" + rest;
      var all := PrintString(body) + rest;
      assert all[1..] == PrintPieces(body) + tail && tail[1..] == rest;
      CloseStep(Scan(d, false, false), all);
      PassPieces(body, d, tail);
      CloseStep(Scan(d, true, false), tail);
    }
  }

  lemma CloseBracketed(open: char, inner: string, close: char, s: string, d: int, rest: string)
    requires d >= 0 && IsOpener(open) && IsCloser(close) && Passed(inner) && s == [open] + inner + [close]
    ensures Close(Scan(d, false, false), s + rest) ==
            if d == 0 then Some(|s|) else Shift(|s|, Close(Scan(d, false, false), rest))
  {
    var tail := [close] + rest;
    BracketedText(open, inner, close, s, rest);
    OpensDeeper(open, d, s + rest, inner + tail);
    assert PassedAt(inner, d + 1, tail);
    assert tail[0] == close && tail[1..] == rest;
  }

  lemma BracketedText(open: char, inner: string, close: char, s: string, rest: string)
    requires s == [open] + inner + [close]
    ensures (s + rest)[0] == open && (s + rest)[1..] == inner + ([close] + rest) && |s| == |inner| + 2
  {
    assert s + rest == [open] + (inner + ([close] + rest));
  }

  lemma OpensDeeper(open: char, d: int, all: string, more: string)
    requires d >= 0 && IsOpener(open) && all != "" && all[0] == open && all[1..] == more
    ensures Close(Scan(d, false, false), all) == Shift(1, Close(Scan(d + 1, false, false), more))
  {
  }

  lemma {:induction false} PassBracketed(open: char, inner: string, close: char)
    requires IsOpener(open) && IsCloser(close) && Passed(inner)
    ensures Passed([open] + inner + [close])
    ensures IsDocument([open] + inner + [close])
  {
    var s := [open] + inner + [close];
    forall d: int, rest: string | d > 0
      ensures PassedAt(s, d, rest)
    {
      CloseBracketed(open, inner, close, s, d, rest);
    }
    CloseBracketed(open, inner, close, s, 0, "");
    assert s + "" == s;
  }

  lemma PassBlank(s: string)
    requires Blank(s)
    ensures Passed(s)
  {
    forall i | 0 <= i < |s|
      ensures IsInert(s[i])
    {
      assert s[i] in s;
    }
    PassInert(s);
  }

  lemma {:induction false} PassJson(v: Json)
    requires WellFormed(v)
    ensures Passed(Print(v))
    ensures v.Array? || v.Object? ==> IsDocument(Print(v))
  {
    match v
    case Scalar(text) => PassInert(text);
    case String(body) => PassString(body);
    case Array(items, blank) =>
      PassItems(items);
      PassBlank(blank);
      PassBoth(PrintItems(items), blank);
      PassBracketed('[', PrintItems(items) + blank, ']');
      assert Print(v) == ['['] + (PrintItems(items) + blank) + [']'];
    case Object(members, blank) =>
      PassMembers(members);
      PassBlank(blank);
      PassBoth(PrintMembers(members), blank);
      PassBracketed('{', PrintMembers(members) + blank, '}');
      assert Print(v) == ['{'] + (PrintMembers(members) + blank) + ['}'];
  }

  lemma {:induction false} PassItem(i: Item)
    requires ItemOk(i)
    ensures Passed(PrintItem(i))
  {
    PassBlank(i.before);
    PassJson(i.value);
    PassBlank(i.after);
    PassBoth(i.before, Print(i.value));
    PassBoth(i.before + Print(i.value), i.after);
  }

  lemma {:induction false} PassItems(items: seq<Item>)
    requires forall i | i in items :: ItemOk(i)
    ensures Passed(PrintItems(items))
  {
    if items == [] {
      PassInert("");
    } else {
      var comma := if |items| > 1 then "," else "";
      PassItem(items[0]);
      PassInert(comma);
      PassItems(items[1..]);
      PassBoth(PrintItem(items[0]), comma);
      PassBoth(PrintItem(items[0]) + comma, PrintItems(items[1..]));
    }
  }

  lemma {:induction false} PassMember(m: Member)
    requires MemberOk(m)
    ensures Passed(PrintMember(m))
  {
    var name := m.before + PrintString(m.key);
    PassBlank(m.before);
    PassString(m.key);
    PassBlank(m.middle);
    PassInert(":");
    PassItem(m.item);
    PassBoth(m.before, PrintString(m.key));
    PassBoth(name, m.middle);
    PassBoth(name + m.middle, ":");
    PassBoth(name + m.middle + ":", PrintItem(m.item));
  }

  lemma {:induction false} PassMembers(members: seq<Member>)
    requires forall m | m in members :: MemberOk(m)
    ensures Passed(PrintMembers(members))
  {
    if members == [] {
      PassInert("");
    } else {
      var comma := if |members| > 1 then "," else "";
      PassMember(members[0]);
      PassInert(comma);
      PassMembers(members[1..]);
      PassBoth(PrintMember(members[0]), comma);
      PassBoth(PrintMember(members[0]) + comma, PrintMembers(members[1..]));
    }
  }

  /** `gh --paginate` output: JSON arrays and objects, one after the other. Every
      page comes back whole, whatever its strings hold. */
  lemma {:induction false} PagesComeBack<T>(
    values: seq<Json>, gaps: seq<string>, docs: seq<string>, parse: string -> Option<T>, pages: seq<T>)
    requires values != [] && |docs| == |values| && |gaps| == |docs| + 1
    requires forall g | g in gaps :: Blank(g)
    requires forall i | 0 <= i < |values| ::
               WellFormed(values[i]) && (values[i].Array? || values[i].Object?) && docs[i] == Print(values[i])
    requires ParsesTo(docs, parse, pages)
    ensures Answer(Printed(gaps, docs), parse) == Pages(pages)
  {
    forall i | 0 <= i < |docs|
      ensures IsDocument(docs[i])
    {
      PassJson(values[i]);
    }
    SplitUndoesPrint(gaps, docs, parse, pages);
  }
}
