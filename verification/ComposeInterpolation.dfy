/** `interpolate` of scripts/docker-socket-access.ts: a compose value as a deploy
    that sets no variables reads it. */
module ComposeInterpolation {
  import opened Basics

  /** Stands in for a variable without a default. */
  const UNSET := '\U{0000}'

  /** Stands in for `$$` while the variables are replaced. */
  const ESCAPED := '\U{0001}'

  predicate IsNameStart(c: char) { 'A' <= c <= 'Z' || 'a' <= c <= 'z' || c == '_' }

  predicate IsNameChar(c: char) { IsNameStart(c) || IsDigit(c) }

  /** How many characters of `s` stand before the first that is not a name's. */
  function NameLength(s: string): (n: nat)
    ensures n <= |s|
  {
    if s == "" || !IsNameChar(s[0]) then 0 else 1 + NameLength(s[1..])
  }

  /** How many characters of `s` stand before the first brace. */
  function BraceAt(s: string): (n: nat)
    ensures n <= |s| && (n < |s| ==> s[n] == '{' || s[n] == '}')
  {
    if s == "" || s[0] == '{' || s[0] == '}' then 0 else 1 + BraceAt(s[1..])
  }

  /** `replaceAll('$$', ESCAPED)`. */
  function HideDollars(s: string): string {
    if s == "" then ""
    else if |s| > 1 && s[0] == '$' && s[1] == '$' then [ESCAPED] + HideDollars(s[2..])
    else [s[0]] + HideDollars(s[1..])
  }

  /** What `${body}` becomes: its default, or UNSET. */
  function Fallback(body: string): (r: string)
    ensures |r| < |body| || r == [UNSET]
  {
    var n := if body != "" && IsNameStart(body[0]) then NameLength(body) else 0;
    if n == 0 || n == |body| then [UNSET]
    else if body[n] == '-' then body[n + 1..]
    else if body[n] == ':' && n + 1 < |body| && body[n + 1] == '-' then body[n + 2..]
    else [UNSET]
  }

  /** The length of the `${...}` without inner braces that `s` starts with, or 0. */
  function BraceMatch(s: string): (n: nat)
    ensures n <= |s| && (n != 0 ==> n >= 3 && s[0] == '$' && s[1] == '{' && s[n - 1] == '}')
  {
    if |s| < 3 || s[0] != '$' || s[1] != '{' then 0
    else
      var n := BraceAt(s[2..]);
      if n < |s| - 2 && s[2 + n] == '}' then n + 3 else 0
  }

  function ReplaceBraces(s: string): (r: string)
    ensures |r| < |s| || r == s
    decreases |s|
  {
    if s == "" then ""
    else
      var n := BraceMatch(s);
      if n != 0 then Fallback(s[2..n - 1]) + ReplaceBraces(s[n..]) else [s[0]] + ReplaceBraces(s[1..])
  }

  function ReplaceNames(s: string): (r: string)
    ensures |r| < |s| || r == s
    decreases |s|
  {
    if s == "" then ""
    else if |s| > 1 && s[0] == '$' && IsNameStart(s[1]) then [UNSET] + ReplaceNames(s[1 + NameLength(s[1..])..])
    else [s[0]] + ReplaceNames(s[1..])
  }

  /** One pass. It shortens whatever it changes. */
  function Pass(s: string): (r: string)
    ensures |r| < |s| || r == s
  {
    ReplaceNames(ReplaceBraces(s))
  }

  function Settle(s: string): (r: string)
    ensures Pass(r) == r
    decreases |s|
  {
    var next := Pass(s);
    if next == s then s else Settle(next)
  }

  /** Dollars that are left become UNSET, and hidden ones come back. */
  function Unhide(s: string): string {
    if s == "" then ""
    else
      [if s[0] == '$' then UNSET else if s[0] == ESCAPED then '$' else s[0]] + Unhide(s[1..])
  }

  function Interpolated(value: string): string {
    Unhide(Settle(HideDollars(value)))
  }

  method Interpolate(value: string) returns (r: string)
    ensures r == Interpolated(value)
  {
    var text := HideDollars(value);
    while true
      invariant Settle(text) == Settle(HideDollars(value))
      decreases |text|
    {
      var next := Pass(text);
      if next == text {
        break;
      }
      text := next;
    }
    r := Unhide(text);
  }

  // ----- nested defaults ----------------------------------------------------

  /** A compose value: text, `$$`, `${NAME}` and `${NAME:-default}` or
      `${NAME-default}`, with defaults nested to any depth. A variable without a default
      may have a message or an alternative: `${NAME:?message}`, `${NAME+text}`. */
  datatype Part =
    | Lit(c: char)
    | Dollars
    | Variable(name: string, tail: string)
    | Default(name: string, colon: bool, parts: seq<Part>)

  function Dash(colon: bool): string { if colon then ":-" else "-" }

  /** The text of parts; `dollars` is how `$$` is written. */
  function Print(part: Part, dollars: string): string
    decreases part, 0
  {
    match part
    case Lit(c) => [c]
    case Dollars => dollars
    case Variable(name, tail) => "${" + ((name + tail) + "}")
    case Default(name, colon, parts) => "${" + ((name + Dash(colon)) + (PrintAll(parts, dollars) + "}"))
  }

  function PrintAll(parts: seq<Part>, dollars: string): string
    decreases parts, 0
  {
    if parts == [] then "" else Print(parts[0], dollars) + PrintAll(parts[1..], dollars)
  }

  /** What the parts stand for when no variable is set. */
  function Value(part: Part, dollar: char): string
    decreases part, 0
  {
    match part
    case Lit(c) => [c]
    case Dollars => [dollar]
    case Variable(_, _) => [UNSET]
    case Default(_, _, parts) => Values(parts, dollar)
  }

  function Values(parts: seq<Part>, dollar: char): string
    decreases parts, 0
  {
    if parts == [] then "" else Value(parts[0], dollar) + Values(parts[1..], dollar)
  }

  ghost predicate NameOk(name: string) {
    name != "" && IsNameStart(name[0]) && forall c | c in name :: IsNameChar(c)
  }

  /** What may follow the name of a variable without a default. */
  ghost predicate TailOk(tail: string) {
    && '$' !in tail && '{' !in tail && '}' !in tail
    && (tail == "" || IsMark(tail[0]) || (|tail| > 1 && tail[0] == ':' && IsMark(tail[1])))
  }

  predicate IsMark(c: char) { c == '?' || c == '+' }

  predicate Ordinary(c: char) { c != '$' && c != '{' && c != '}' }

  /** Parts the passes work on; the text of a file holds neither stand-in. */
  ghost predicate PartOk(part: Part)
    decreases part, 0
  {
    match part
    case Lit(c) => Ordinary(c)
    case Dollars => true
    case Variable(name, tail) => NameOk(name) && TailOk(tail)
    case Default(name, _, parts) => NameOk(name) && PartsOk(parts)
  }

  ghost predicate PartsOk(parts: seq<Part>)
    decreases parts, 0
  {
    parts == [] || (PartOk(parts[0]) && PartsOk(parts[1..]))
  }

  const HIDDEN := [ESCAPED]

  /** One pass over parts: a default without variables in it takes its place. */
  function Step(part: Part): seq<Part>
    decreases part, 0
  {
    match part
    case Variable(_, _) => [Lit(UNSET)]
    case Default(name, colon, parts) => if Flat(parts) then parts else [Default(name, colon, StepAll(parts))]
    case _ => [part]
  }

  function StepAll(parts: seq<Part>): seq<Part>
    decreases parts, 0
  {
    if parts == [] then [] else Step(parts[0]) + StepAll(parts[1..])
  }

  predicate Flat(parts: seq<Part>) {
    parts == [] || ((parts[0].Lit? || parts[0].Dollars?) && Flat(parts[1..]))
  }

  lemma {:induction false} PrintAdd(a: seq<Part>, b: seq<Part>, dollars: string)
    ensures PrintAll(a + b, dollars) == PrintAll(a, dollars) + PrintAll(b, dollars)
  {
    if a == [] {
      assert a + b == b;
    } else {
      assert (a + b)[1..] == a[1..] + b;
      PrintAdd(a[1..], b, dollars);
    }
  }

  lemma {:induction false} ValuesAdd(a: seq<Part>, b: seq<Part>, dollar: char)
    ensures Values(a + b, dollar) == Values(a, dollar) + Values(b, dollar)
  {
    if a == [] {
      assert a + b == b;
    } else {
      assert (a + b)[1..] == a[1..] + b;
      ValuesAdd(a[1..], b, dollar);
    }
  }

  lemma {:induction false} PartsOkAdd(a: seq<Part>, b: seq<Part>)
    requires PartsOk(a) && PartsOk(b)
    ensures PartsOk(a + b)
  {
    if a == [] {
      assert a + b == b;
    } else {
      assert (a + b)[1..] == a[1..] + b;
      PartsOkAdd(a[1..], b);
    }
  }

  /** How a rewriting that keeps `${`, names and `}` goes through a default. */
  lemma ThroughDefault(f: string -> string, head: string, inner: string, after: string, rest: string)
    requires var x := inner + ("}" + rest);
             f(x) == after + ("}" + f(rest)) && f(head + x) == head + f(x) && f("${" + (head + x)) == "${" + f(head + x)
    ensures f(("${" + (head + (inner + "}"))) + rest) == ("${" + (head + (after + "}"))) + f(rest)
  {
    assert ("${" + (head + (inner + "}"))) + rest == "${" + (head + (inner + ("}" + rest)));
  }

  lemma ThroughVariable(f: string -> string, body: string, rest: string)
    requires f(body + rest) == body + f(rest) && f("${" + (body + rest)) == "${" + f(body + rest)
    ensures f("${" + body + rest) == "${" + body + f(rest)
  {
    Regroup("${", body, rest);
    Regroup("${", body, f(rest));
  }

  lemma Regroup(a: string, b: string, c: string)
    ensures a + b + c == a + (b + c)
  {
  }

  lemma Opening(rest: string)
    ensures "${" + rest == ['$'] + (['{'] + rest)
  {
  }

  lemma NameHasNoDollar(name: string, colon: bool)
    requires NameOk(name)
    ensures '$' !in name + Dash(colon)
  {
    assert !IsNameChar('$');
  }

  // ----- the first step: hiding dollars -------------------------------------

  lemma HideOne(c: char, rest: string)
    requires c != '$' || rest == "" || rest[0] != '$'
    ensures HideDollars([c] + rest) == [c] + HideDollars(rest)
  {
    assert ([c] + rest)[1..] == rest;
  }

  lemma Uncons(s: string, rest: string)
    requires s != ""
    ensures s + rest == [s[0]] + (s[1..] + rest) && s[0] in s
    ensures forall x: string :: [s[0]] + (s[1..] + x) == s + x
  {
  }

  lemma {:induction false} HideOver(s: string, rest: string)
    requires '$' !in s
    ensures HideDollars(s + rest) == s + HideDollars(rest)
  {
    if s == "" {
      assert s + rest == rest && s + HideDollars(rest) == HideDollars(rest);
    } else {
      Uncons(s, rest);
      HideOne(s[0], s[1..] + rest);
      HideOver(s[1..], rest);
    }
  }

  lemma HideOpening(rest: string)
    ensures HideDollars("${" + rest) == "${" + HideDollars(rest)
  {
    Opening(rest);
    Opening(HideDollars(rest));
    HideOne('$', ['{'] + rest);
    HideOne('{', rest);
  }

  lemma HideEscape(rest: string)
    ensures HideDollars("$$" + rest) == HIDDEN + HideDollars(rest)
  {
    assert ("$$" + rest)[2..] == rest;
  }

  lemma VariableHasNoDollar(name: string, tail: string)
    requires NameOk(name) && TailOk(tail)
    ensures '$' !in (name + tail) + "}" && '{' !in name + tail && '}' !in name + tail
  {
    assert !IsNameChar('$') && !IsNameChar('{') && !IsNameChar('}');
  }

  lemma HideVariable(body: string, rest: string)
    requires '$' !in body + "}"
    ensures HideDollars("${" + (body + "}") + rest) == "${" + (body + "}") + HideDollars(rest)
  {
    HideOver(body + "}", rest);
    HideOpening((body + "}") + rest);
    ThroughVariable(HideDollars, body + "}", rest);
  }

  lemma HideDefault(name: string, colon: bool, inner: string, after: string, rest: string)
    requires NameOk(name)
    requires HideDollars(inner + ("}" + rest)) == after + HideDollars("}" + rest)
    ensures HideDollars(("${" + ((name + Dash(colon)) + (inner + "}"))) + rest) ==
            ("${" + ((name + Dash(colon)) + (after + "}"))) + HideDollars(rest)
  {
    NameHasNoDollar(name, colon);
    HideOver("}", rest);
    HideOver(name + Dash(colon), inner + ("}" + rest));
    HideOpening((name + Dash(colon)) + (inner + ("}" + rest)));
    ThroughDefault(HideDollars, name + Dash(colon), inner, after, rest);
  }

  lemma {:induction false} HidePrinted(part: Part, rest: string)
    requires PartOk(part)
    ensures HideDollars(Print(part, "$$") + rest) == Print(part, HIDDEN) + HideDollars(rest)
    decreases part, 0
  {
    match part
    case Lit(c) => HideOne(c, rest);
    case Dollars => HideEscape(rest);
    case Variable(name, tail) =>
      VariableHasNoDollar(name, tail);
      HideVariable(name + tail, rest);
    case Default(name, colon, parts) =>
      HidePrintedAll(parts, "}" + rest);
      HideDefault(name, colon, PrintAll(parts, "$$"), PrintAll(parts, HIDDEN), rest);
  }

  lemma {:induction false} HidePrintedAll(parts: seq<Part>, rest: string)
    requires PartsOk(parts)
    ensures HideDollars(PrintAll(parts, "$$") + rest) == PrintAll(parts, HIDDEN) + HideDollars(rest)
    decreases parts, 0
  {
    if parts == [] {
      assert "" + rest == rest && "" + HideDollars(rest) == HideDollars(rest);
    } else {
      var head, tail := Print(parts[0], "$$"), PrintAll(parts[1..], "$$");
      HidePrinted(parts[0], tail + rest);
      HidePrintedAll(parts[1..], rest);
      Regroup(head, tail, rest);
      Regroup(Print(parts[0], HIDDEN), PrintAll(parts[1..], HIDDEN), HideDollars(rest));
    }
  }

  // ----- a pass over printed parts ------------------------------------------

  lemma NamesOne(c: char, rest: string)
    requires c != '$' || rest == "" || !IsNameStart(rest[0])
    ensures ReplaceNames([c] + rest) == [c] + ReplaceNames(rest)
  {
    assert ([c] + rest)[1..] == rest;
  }

  lemma {:induction false} NamesOver(s: string, rest: string)
    requires '$' !in s
    ensures ReplaceNames(s + rest) == s + ReplaceNames(rest)
  {
    if s == "" {
      assert s + rest == rest && s + ReplaceNames(rest) == ReplaceNames(rest);
    } else {
      Uncons(s, rest);
      NamesOne(s[0], s[1..] + rest);
      NamesOver(s[1..], rest);
    }
  }

  lemma NamesOpening(rest: string)
    ensures ReplaceNames("${" + rest) == "${" + ReplaceNames(rest)
  {
    Opening(rest);
    Opening(ReplaceNames(rest));
    NamesOne('$', ['{'] + rest);
    NamesOne('{', rest);
  }

  lemma NamesVariable(body: string, rest: string)
    requires '$' !in body + "}"
    ensures ReplaceNames("${" + (body + "}") + rest) == "${" + (body + "}") + ReplaceNames(rest)
  {
    NamesOver(body + "}", rest);
    NamesOpening((body + "}") + rest);
    ThroughVariable(ReplaceNames, body + "}", rest);
  }

  lemma NamesDefault(name: string, colon: bool, inner: string, rest: string)
    requires NameOk(name)
    requires ReplaceNames(inner + ("}" + rest)) == inner + ReplaceNames("}" + rest)
    ensures ReplaceNames(("${" + ((name + Dash(colon)) + (inner + "}"))) + rest) ==
            ("${" + ((name + Dash(colon)) + (inner + "}"))) + ReplaceNames(rest)
  {
    NameHasNoDollar(name, colon);
    NamesOver("}", rest);
    NamesOver(name + Dash(colon), inner + ("}" + rest));
    NamesOpening((name + Dash(colon)) + (inner + ("}" + rest)));
    ThroughDefault(ReplaceNames, name + Dash(colon), inner, inner, rest);
  }

  /** Printed parts hold no `$NAME`. */
  lemma {:induction false} NoNames(part: Part, rest: string)
    requires PartOk(part)
    ensures ReplaceNames(Print(part, HIDDEN) + rest) == Print(part, HIDDEN) + ReplaceNames(rest)
    decreases part, 0
  {
    match part
    case Lit(c) => NamesOne(c, rest);
    case Dollars => NamesOne(ESCAPED, rest);
    case Variable(name, tail) =>
      VariableHasNoDollar(name, tail);
      NamesVariable(name + tail, rest);
    case Default(name, colon, parts) =>
      NoNamesAll(parts, "}" + rest);
      NamesDefault(name, colon, PrintAll(parts, HIDDEN), rest);
  }

  lemma {:induction false} NoNamesAll(parts: seq<Part>, rest: string)
    requires PartsOk(parts)
    ensures ReplaceNames(PrintAll(parts, HIDDEN) + rest) == PrintAll(parts, HIDDEN) + ReplaceNames(rest)
    decreases parts, 0
  {
    if parts == [] {
      assert "" + rest == rest && "" + ReplaceNames(rest) == ReplaceNames(rest);
    } else {
      var head, tail := Print(parts[0], HIDDEN), PrintAll(parts[1..], HIDDEN);
      NoNames(parts[0], tail + rest);
      NoNamesAll(parts[1..], rest);
      Regroup(head, tail, rest);
      Regroup(head, tail, ReplaceNames(rest));
    }
  }

  lemma BracesOne(c: char, rest: string)
    requires c != '$' || BraceMatch([c] + rest) == 0
    ensures ReplaceBraces([c] + rest) == [c] + ReplaceBraces(rest)
  {
    assert ([c] + rest)[1..] == rest;
  }

  lemma {:induction false} BracesOver(s: string, rest: string)
    requires '$' !in s
    ensures ReplaceBraces(s + rest) == s + ReplaceBraces(rest)
  {
    if s == "" {
      assert s + rest == rest && s + ReplaceBraces(rest) == ReplaceBraces(rest);
    } else {
      Uncons(s, rest);
      BracesOne(s[0], s[1..] + rest);
      BracesOver(s[1..], rest);
    }
  }

  /** The first brace after text without one. */
  lemma {:induction false} BraceAfter(s: string, rest: string)
    requires '{' !in s && '}' !in s
    ensures BraceAt(s + rest) == |s| + BraceAt(rest)
  {
    if s == "" {
      assert s + rest == rest;
    } else {
      assert s[0] in s && (s + rest)[1..] == s[1..] + rest;
      BraceAfter(s[1..], rest);
    }
  }

  lemma {:induction false} NameRead(name: string, rest: string)
    requires forall c | c in name :: IsNameChar(c)
    requires rest == "" || !IsNameChar(rest[0])
    ensures NameLength(name + rest) == |name|
  {
    if name == "" {
      assert name + rest == rest;
    } else {
      assert name[0] in name && (name + rest)[1..] == name[1..] + rest;
      NameRead(name[1..], rest);
    }
  }

  lemma NameHasNoBrace(name: string, colon: bool)
    requires NameOk(name)
    ensures '{' !in name + Dash(colon) && '}' !in name + Dash(colon) && '{' !in name && '}' !in name
  {
    assert !IsNameChar('{') && !IsNameChar('}');
  }

  lemma FallbackOfVariable(name: string, tail: string)
    requires NameOk(name) && TailOk(tail)
    ensures Fallback(name + tail) == [UNSET]
  {
    assert !IsNameChar('?') && !IsNameChar('+') && !IsNameChar(':');
    NameRead(name, tail);
    var body := name + tail;
    assert body[0] == name[0] && body[|name|..] == tail;
    assert forall i | 0 <= i < |tail| :: body[|name| + i] == tail[i];
  }

  lemma FallbackOfDefault(name: string, colon: bool, inner: string)
    requires NameOk(name)
    ensures Fallback((name + Dash(colon)) + inner) == inner
  {
    NameRead(name, Dash(colon) + inner);
    var body := (name + Dash(colon)) + inner;
    assert body == name + (Dash(colon) + inner) && body[0] == name[0] && body[|name|] == Dash(colon)[0];
    assert body[|name| + |Dash(colon)|..] == inner;
  }

  /** A `${body}` without inner braces is replaced as a whole. */
  lemma BracesReplaced(body: string, rest: string)
    requires '{' !in body && '}' !in body
    ensures ReplaceBraces("${" + (body + "}") + rest) == Fallback(body) + ReplaceBraces(rest)
  {
    var s := "${" + (body + "}") + rest;
    assert s[2..] == body + ("}" + rest);
    BraceAfter(body, "}" + rest);
    assert s[2 + |body|] == '}' && s[2..2 + |body|] == body && s[3 + |body|..] == rest;
    assert BraceMatch(s) == |body| + 3;
  }

  /** Where the first brace inside is an opening one, nothing is replaced yet. */
  lemma BracesKept(head: string, inner: string, rest: string)
    requires '{' !in head && '}' !in head && '$' !in head
    requires BraceAt(inner) < |inner| && inner[BraceAt(inner)] == '{'
    ensures ReplaceBraces("${" + (head + inner)) == "${" + (head + ReplaceBraces(inner))
  {
    BraceAfter(head, inner);
    var s := "${" + (head + inner);
    Opening(head + inner);
    Opening(head + ReplaceBraces(inner));
    assert s[2..] == head + inner && s[2 + |head| + BraceAt(inner)] == '{';
    assert BraceMatch(s) == 0;
    BracesOne('$', ['{'] + (head + inner));
    BracesOne('{', head + inner);
    BracesOver(head, inner);
  }

  /** Parts without variables print what they stand for, without braces. */
  lemma {:induction false} FlatPrints(parts: seq<Part>)
    requires PartsOk(parts) && Flat(parts)
    ensures PrintAll(parts, HIDDEN) == Values(parts, ESCAPED)
    ensures var s := PrintAll(parts, HIDDEN); '{' !in s && '}' !in s
  {
    if parts != [] {
      FlatPrints(parts[1..]);
    }
  }

  /** The first brace of parts with a variable is the variable's. */
  lemma {:induction false} FirstBraceOpens(parts: seq<Part>, rest: string)
    requires PartsOk(parts) && !Flat(parts)
    ensures var s := PrintAll(parts, HIDDEN) + rest; BraceAt(s) < |s| && s[BraceAt(s)] == '{'
  {
    var head, tail := Print(parts[0], HIDDEN), PrintAll(parts[1..], HIDDEN) + rest;
    assert PrintAll(parts, HIDDEN) + rest == head + tail;
    if parts[0].Lit? || parts[0].Dollars? {
      FirstBraceOpens(parts[1..], rest);
      assert |head| == 1 && '{' !in head && '}' !in head;
      BraceAfter(head, tail);
    } else {
      assert (head + tail)[0] == '$' && (head + tail)[1] == '{';
      assert (head + tail)[1..][0] == '{';
    }
  }

  lemma BracesOfDefault(name: string, colon: bool, parts: seq<Part>, rest: string)
    requires NameOk(name) && PartsOk(parts)
    requires !Flat(parts) ==> ReplaceBraces(PrintAll(parts, HIDDEN) + ("}" + rest)) ==
                              PrintAll(StepAll(parts), HIDDEN) + ReplaceBraces("}" + rest)
    ensures ReplaceBraces(Print(Default(name, colon, parts), HIDDEN) + rest) ==
            PrintAll(Step(Default(name, colon, parts)), HIDDEN) + ReplaceBraces(rest)
  {
    var head, inner := name + Dash(colon), PrintAll(parts, HIDDEN);
    NameHasNoBrace(name, colon);
    NameHasNoDollar(name, colon);
    if Flat(parts) {
      FlatPrints(parts);
      Regroup(head, inner, "}");
      BracesReplaced(head + inner, rest);
      FallbackOfDefault(name, colon, inner);
    } else {
      var after := PrintAll(StepAll(parts), HIDDEN);
      FirstBraceOpens(parts, "}" + rest);
      BracesKept(head, inner + ("}" + rest), rest);
      BracesOver("}", rest);
      Around(head, inner, rest);
      Around(head, after, ReplaceBraces(rest));
      var next := Default(name, colon, StepAll(parts));
      assert PrintAll([next], HIDDEN) == Print(next, HIDDEN) + PrintAll([], HIDDEN) == Print(next, HIDDEN);
    }
  }

  lemma Around(head: string, inner: string, rest: string)
    ensures ("${" + (head + (inner + "}"))) + rest == "${" + (head + (inner + ("}" + rest)))
  {
  }

  /** A pass over printed parts prints the parts one step on. */
  lemma {:induction false} BracesStep(part: Part, rest: string)
    requires PartOk(part)
    ensures ReplaceBraces(Print(part, HIDDEN) + rest) == PrintAll(Step(part), HIDDEN) + ReplaceBraces(rest)
    decreases part, 0
  {
    match part
    case Lit(c) => BracesOne(c, rest);
    case Dollars => BracesOne(ESCAPED, rest);
    case Variable(name, tail) =>
      VariableHasNoDollar(name, tail);
      BracesReplaced(name + tail, rest);
      FallbackOfVariable(name, tail);
    case Default(name, colon, parts) =>
      if !Flat(parts) {
        BracesStepAll(parts, "}" + rest);
      }
      BracesOfDefault(name, colon, parts, rest);
  }

  lemma {:induction false} BracesStepAll(parts: seq<Part>, rest: string)
    requires PartsOk(parts)
    ensures ReplaceBraces(PrintAll(parts, HIDDEN) + rest) == PrintAll(StepAll(parts), HIDDEN) + ReplaceBraces(rest)
    decreases parts, 0
  {
    if parts == [] {
      assert "" + rest == rest && "" + ReplaceBraces(rest) == ReplaceBraces(rest);
    } else {
      var head, tail := Print(parts[0], HIDDEN), PrintAll(parts[1..], HIDDEN);
      BracesStep(parts[0], tail + rest);
      BracesStepAll(parts[1..], rest);
      Regroup(head, tail, rest);
      PrintAdd(Step(parts[0]), StepAll(parts[1..]), HIDDEN);
      Regroup(PrintAll(Step(parts[0]), HIDDEN), PrintAll(StepAll(parts[1..]), HIDDEN), ReplaceBraces(rest));
    }
  }

  // ----- steps keep the value -----------------------------------------------

  lemma {:induction false} StepKeeps(part: Part, dollar: char)
    requires PartOk(part)
    ensures PartsOk(Step(part)) && Values(Step(part), dollar) == Value(part, dollar)
    ensures |PrintAll(Step(part), HIDDEN)| <= |Print(part, HIDDEN)|
    ensures !part.Lit? && !part.Dollars? ==> |PrintAll(Step(part), HIDDEN)| < |Print(part, HIDDEN)|
    decreases part, 0
  {
    match part
    case Default(name, colon, parts) =>
      if !Flat(parts) {
        StepAllKeeps(parts, dollar);
        var next := Default(name, colon, StepAll(parts));
        assert PartOk(next) && Step(part) == [next] && [next][1..] == [];
      }
    case _ =>
      assert |Step(part)| == 1 && PartOk(Step(part)[0]) && Step(part)[1..] == [];
  }

  lemma {:induction false} StepAllKeeps(parts: seq<Part>, dollar: char)
    requires PartsOk(parts)
    ensures PartsOk(StepAll(parts)) && Values(StepAll(parts), dollar) == Values(parts, dollar)
    ensures |PrintAll(StepAll(parts), HIDDEN)| <= |PrintAll(parts, HIDDEN)|
    ensures !Flat(parts) ==> |PrintAll(StepAll(parts), HIDDEN)| < |PrintAll(parts, HIDDEN)|
    decreases parts, 0
  {
    if parts != [] {
      StepKeeps(parts[0], dollar);
      StepAllKeeps(parts[1..], dollar);
      PartsOkAdd(Step(parts[0]), StepAll(parts[1..]));
      PrintAdd(Step(parts[0]), StepAll(parts[1..]), HIDDEN);
      ValuesAdd(Step(parts[0]), StepAll(parts[1..]), dollar);
    }
  }

  lemma {:induction false} StepFlat(parts: seq<Part>)
    requires Flat(parts)
    ensures StepAll(parts) == parts
  {
    if parts != [] {
      StepFlat(parts[1..]);
    }
  }

  lemma PassSteps(parts: seq<Part>)
    requires PartsOk(parts)
    ensures Pass(PrintAll(parts, HIDDEN)) == PrintAll(StepAll(parts), HIDDEN)
  {
    BracesStepAll(parts, "");
    StepAllKeeps(parts, ESCAPED);
    NoNamesAll(StepAll(parts), "");
    assert PrintAll(parts, HIDDEN) + "" == PrintAll(parts, HIDDEN);
    assert PrintAll(StepAll(parts), HIDDEN) + "" == PrintAll(StepAll(parts), HIDDEN);
  }

  lemma {:induction false} SettlesToValue(parts: seq<Part>)
    requires PartsOk(parts)
    ensures Settle(PrintAll(parts, HIDDEN)) == Values(parts, ESCAPED)
    decreases |PrintAll(parts, HIDDEN)|
  {
    PassSteps(parts);
    StepAllKeeps(parts, ESCAPED);
    if Flat(parts) {
      StepFlat(parts);
      FlatPrints(parts);
    } else {
      SettlesToValue(StepAll(parts));
    }
  }

  /** The text of a file holds no stand-in. */
  ghost predicate Written(part: Part)
    decreases part, 0
  {
    match part
    case Lit(c) => c != ESCAPED
    case Default(_, _, parts) => AllWritten(parts)
    case _ => true
  }

  ghost predicate AllWritten(parts: seq<Part>)
    decreases parts, 0
  {
    parts == [] || (Written(parts[0]) && AllWritten(parts[1..]))
  }

  lemma {:induction false} UnhideAdd(s: string, t: string)
    ensures Unhide(s + t) == Unhide(s) + Unhide(t)
  {
    if s == "" {
      assert s + t == t;
    } else {
      assert (s + t)[1..] == s[1..] + t;
      UnhideAdd(s[1..], t);
    }
  }

  lemma {:induction false} UnhideValue(part: Part)
    requires PartOk(part) && Written(part)
    ensures Unhide(Value(part, ESCAPED)) == Value(part, '$')
    decreases part, 0
  {
    match part
    case Default(_, _, parts) => UnhideValues(parts);
    case _ =>
      assert |Value(part, ESCAPED)| == 1 && Value(part, ESCAPED)[1..] == "";
  }

  lemma {:induction false} UnhideValues(parts: seq<Part>)
    requires PartsOk(parts) && AllWritten(parts)
    ensures Unhide(Values(parts, ESCAPED)) == Values(parts, '$')
    decreases parts, 0
  {
    if parts != [] {
      UnhideValue(parts[0]);
      UnhideValues(parts[1..]);
      UnhideAdd(Value(parts[0], ESCAPED), Values(parts[1..], ESCAPED));
    }
  }

  /** Interpolating a printed value gives what it stands for: every default in place
      of its variable, however deeply nested, UNSET for a variable without one, and a
      dollar for `$$`. */
  lemma InterpolatesToValue(parts: seq<Part>)
    requires PartsOk(parts) && AllWritten(parts)
    ensures Interpolated(PrintAll(parts, "$$")) == Values(parts, '$')
  {
    HidePrintedAll(parts, "");
    assert PrintAll(parts, "$$") + "" == PrintAll(parts, "$$");
    assert PrintAll(parts, HIDDEN) + "" == PrintAll(parts, HIDDEN);
    SettlesToValue(parts);
    UnhideValues(parts);
  }
}
