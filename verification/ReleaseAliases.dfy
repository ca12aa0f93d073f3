/** scripts/ci/aliases.ts: which published release each image alias points to, and
    which release an update starts from. */
module ReleaseAliases {
  import opened Basics
  import opened Decimals
  import opened ReleaseTags

  datatype Listed = Listed(tag: string, draft: bool, prerelease: bool)

  /** A release and the aliases it gets. */
  datatype Aliased = Aliased(release: Listed, aliases: seq<string>)

  // ----- versions -----------------------------------------------------------

  function StableVersion(tag: string): Option<Numbers> {
    if tag == "" || tag[0] != 'v' then None
    else
      match ReadBase(tag[1..])
      case None => None
      case Some((n, rest)) => if rest == "" && Safe(n) then Some(n) else None
  }

  /** A published stable release. */
  predicate Counts(r: Listed) {
    !r.draft && !r.prerelease && StableVersion(r.tag).Some?
  }

  /** The version of a release that counts; any version for another. */
  function VersionOf(tag: string): Numbers {
    match StableVersion(tag)
    case Some(n) => n
    case None => Numbers(0, 0, 0)
  }

  predicate Above(a: Numbers, b: Numbers) {
    a.major > b.major || (a.major == b.major && (a.minor > b.minor || (a.minor == b.minor && a.patch > b.patch)))
  }

  predicate SameLine(a: Numbers, b: Numbers) { a.major == b.major && a.minor == b.minor }

  function Line(n: Numbers): string { Decimal(n.major) + ("." + Decimal(n.minor)) }

  const LATEST := "latest"

  lemma NumberText(s: string)
    requires NumberLength(s) > 0
    ensures s == Decimal(NumberAt(s)) + s[NumberLength(s)..]
  {
    var text := s[..NumberLength(s)];
    forall c | c in text
      ensures IsDigit(c)
    {
      var i :| 0 <= i < |text| && text[i] == c;
    }
    NumeralIsDecimal(text);
  }

  lemma DottedText(s: string)
    requires Dotted(s).Some?
    ensures s == Decimal(Dotted(s).value.0) + ("." + Dotted(s).value.1)
  {
    NumberText(s);
    var n := NumberLength(s);
    assert s[n..] == "." + s[n + 1..];
  }

  /** A version has one tag only. */
  lemma VersionTag(tag: string)
    requires StableVersion(tag).Some?
    ensures var n := VersionOf(tag);
            tag == "v" + (Decimal(n.major) + ("." + (Decimal(n.minor) + ("." + Decimal(n.patch)))))
  {
    var s := tag[1..];
    assert tag == "v" + s;
    DottedText(s);
    var afterMajor := Dotted(s).value.1;
    DottedText(afterMajor);
    var afterMinor := Dotted(afterMajor).value.1;
    NumberText(afterMinor);
    assert afterMinor[NumberLength(afterMinor)..] == "";
    assert Decimal(NumberAt(afterMinor)) + "" == Decimal(NumberAt(afterMinor));
  }

  lemma SameVersionSameTag(a: string, b: string)
    requires StableVersion(a).Some? && StableVersion(b).Some?
    requires !Above(VersionOf(a), VersionOf(b)) && !Above(VersionOf(b), VersionOf(a))
    ensures a == b
  {
    VersionTag(a);
    VersionTag(b);
  }

  /** Lines differ in their names, and none is called `latest`. */
  lemma LinesDiffer(a: Numbers, b: Numbers)
    ensures Line(a) == Line(b) <==> SameLine(a, b)
    ensures Line(a) != LATEST
  {
    assert Line(a)[0] in Decimal(a.major) && LATEST[0] == 'l';
    if Line(a) == Line(b) {
      DigitsOfDecimal(a.major, 0, "." + Decimal(a.minor));
      DigitsOfDecimal(b.major, 0, "." + Decimal(b.minor));
      Behind(Decimal(a.major), "." + Decimal(a.minor), "." + Decimal(b.minor));
      Behind(".", Decimal(a.minor), Decimal(b.minor));
      DecimalsDiffer(a.minor, b.minor);
    }
  }

  lemma Behind(front: string, a: string, b: string)
    requires front + a == front + b
    ensures a == b
  {
    assert (front + a)[|front|..] == a && (front + b)[|front|..] == b;
  }

  // ----- the order ----------------------------------------------------------

  function Counting(releases: seq<Listed>): (r: seq<Listed>)
    ensures forall x :: x in r <==> x in releases && Counts(x)
  {
    if releases == [] then []
    else (if Counts(releases[0]) then [releases[0]] else []) + Counting(releases[1..])
  }

  /** Behind those that are not below it. */
  function Insert(sorted: seq<Listed>, r: Listed): (s: seq<Listed>)
    ensures forall x :: x in s <==> x in sorted || x == r
  {
    if sorted == [] || !Above(VersionOf(r.tag), VersionOf(sorted[|sorted| - 1].tag)) then sorted + [r]
    else Insert(sorted[..|sorted| - 1], r) + [sorted[|sorted| - 1]]
  }

  /** The greatest first; releases of one version keep their order. */
  function Ranked(releases: seq<Listed>): (s: seq<Listed>)
    ensures forall x :: x in s <==> x in releases
  {
    if releases == [] then [] else Insert(Ranked(releases[..|releases| - 1]), releases[|releases| - 1])
  }

  ghost predicate Falling(s: seq<Listed>) {
    forall i, j | 0 <= i < j < |s| :: !Above(VersionOf(s[j].tag), VersionOf(s[i].tag))
  }

  lemma FallsOn(s: seq<Listed>, last: Listed)
    requires Falling(s) && forall i | 0 <= i < |s| :: !Above(VersionOf(last.tag), VersionOf(s[i].tag))
    ensures Falling(s + [last])
  {
    var all := s + [last];
    forall i, j | 0 <= i < j < |all|
      ensures !Above(VersionOf(all[j].tag), VersionOf(all[i].tag))
    {
      assert all[i] == s[i];
      if j < |s| {
        assert all[j] == s[j];
      }
    }
  }

  lemma NotAboveEither(a: Numbers, b: Numbers, c: Numbers)
    requires !Above(a, b) && !Above(b, c)
    ensures !Above(a, c)
  {
  }

  lemma {:induction false} InsertFalls(sorted: seq<Listed>, r: Listed)
    requires Falling(sorted)
    ensures Falling(Insert(sorted, r))
  {
    if sorted == [] {
      FallsOn(sorted, r);
    } else {
      var front, last := sorted[..|sorted| - 1], sorted[|sorted| - 1];
      if Above(VersionOf(r.tag), VersionOf(last.tag)) {
        InsertFalls(front, r);
        var s := Insert(front, r);
        forall i | 0 <= i < |s|
          ensures !Above(VersionOf(last.tag), VersionOf(s[i].tag))
        {
          assert s[i] in s;
        }
        FallsOn(s, last);
      } else {
        forall i | 0 <= i < |sorted|
          ensures !Above(VersionOf(r.tag), VersionOf(sorted[i].tag))
        {
          NotAbove(sorted, i, |sorted| - 1);
          NotAboveEither(VersionOf(r.tag), VersionOf(last.tag), VersionOf(sorted[i].tag));
        }
        FallsOn(sorted, r);
      }
    }
  }

  lemma {:induction false} RankedFalls(releases: seq<Listed>)
    ensures Falling(Ranked(releases))
  {
    if releases != [] {
      RankedFalls(releases[..|releases| - 1]);
      InsertFalls(Ranked(releases[..|releases| - 1]), releases[|releases| - 1]);
    }
  }

  // ----- who deserves an alias ----------------------------------------------

  /** Whether no release that counts is above `r`, in all or in its own line. */
  ghost predicate Greatest(releases: seq<Listed>, r: Listed) {
    forall q | q in releases && Counts(q) :: !Above(VersionOf(q.tag), VersionOf(r.tag))
  }

  ghost predicate GreatestInLine(releases: seq<Listed>, r: Listed) {
    forall q | q in releases && Counts(q) && SameLine(VersionOf(q.tag), VersionOf(r.tag)) ::
      !Above(VersionOf(q.tag), VersionOf(r.tag))
  }

  ghost predicate Deserves(releases: seq<Listed>, alias: string, tag: string) {
    exists r :: r in releases && r.tag == tag && Earns(releases, alias, r)
  }

  ghost predicate Earns(releases: seq<Listed>, alias: string, r: Listed) {
    && Counts(r)
    && ((alias == LATEST && Greatest(releases, r)) || (alias == Line(VersionOf(r.tag)) && GreatestInLine(releases, r)))
  }

  ghost predicate Carries(out: seq<Aliased>, alias: string, tag: string) {
    exists a :: a in out && a.release.tag == tag && alias in a.aliases
  }

  // ----- the program --------------------------------------------------------

  /** Whether place `k` of the ranking gets `alias`: the first place is the latest, and
      the first of a line gets the line. */
  ghost predicate Places(ranked: seq<Listed>, k: nat, alias: string)
    requires k < |ranked|
  {
    (alias == LATEST && k == 0) || (alias == LineAt(ranked, k) && IsFirst(ranked, k))
  }

  function LineAt(ranked: seq<Listed>, k: nat): string
    requires k < |ranked|
  {
    Line(VersionOf(ranked[k].tag))
  }

  ghost predicate IsFirst(ranked: seq<Listed>, k: nat)
    requires k < |ranked|
  {
    forall j | 0 <= j < k :: LineAt(ranked, j) != LineAt(ranked, k)
  }

  /** What the loop has given out after `n` places. */
  ghost predicate Given(ranked: seq<Listed>, n: nat, out: seq<Aliased>)
    requires n <= |ranked|
  {
    && (forall a | a in out :: exists k :: 0 <= k < n && GivenAt(ranked, k, a))
    && forall k, alias | 0 <= k < n && Places(ranked, k, alias) :: Carries(out, alias, ranked[k].tag)
  }

  ghost predicate GivenAt(ranked: seq<Listed>, k: nat, a: Aliased)
    requires k < |ranked|
  {
    a.release == ranked[k] && a.aliases != [] && forall alias :: alias in a.aliases <==> Places(ranked, k, alias)
  }

  lemma OneMoreGiven(ranked: seq<Listed>, n: nat, out: seq<Aliased>, aliases: seq<string>)
    requires n < |ranked| && Given(ranked, n, out) && forall alias :: alias in aliases <==> Places(ranked, n, alias)
    ensures Given(ranked, n + 1, if aliases == [] then out else out + [Aliased(ranked[n], aliases)])
  {
    var more := if aliases == [] then out else out + [Aliased(ranked[n], aliases)];
    forall k, alias | 0 <= k < n + 1 && Places(ranked, k, alias)
      ensures Carries(more, alias, ranked[k].tag)
    {
      if k == n {
        assert alias in aliases && Aliased(ranked[n], aliases) in more;
      } else {
        var a :| a in out && a.release.tag == ranked[k].tag && alias in a.aliases;
        assert a in more;
      }
    }
    forall a | a in more
      ensures exists k :: 0 <= k < n + 1 && GivenAt(ranked, k, a)
    {
      if a in out {
        var k :| 0 <= k < n && GivenAt(ranked, k, a);
      } else {
        assert GivenAt(ranked, n, a);
      }
    }
  }

  /** Whether `seen` are the lines of the first `n` places. */
  ghost predicate Seen(ranked: seq<Listed>, n: nat, seen: set<string>)
    requires n <= |ranked|
  {
    forall line :: line in seen <==> exists j :: 0 <= j < n && LineAt(ranked, j) == line
  }

  lemma OneMoreSeen(ranked: seq<Listed>, n: nat, seen: set<string>)
    requires n < |ranked| && Seen(ranked, n, seen)
    ensures LineAt(ranked, n) !in seen <==> IsFirst(ranked, n)
    ensures Seen(ranked, n + 1, seen + {LineAt(ranked, n)})
  {
    var more := seen + {LineAt(ranked, n)};
    forall line
      ensures line in more <==> exists j :: 0 <= j < n + 1 && LineAt(ranked, j) == line
    {
      if line in more && line !in seen {
        assert LineAt(ranked, n) == line;
      }
      if line in seen {
        var j :| 0 <= j < n && LineAt(ranked, j) == line;
      }
    }
  }

  /** The aliases of one place. */
  method AliasesAt(
    ranked: seq<Listed>, index: nat, seen0: set<string>)
    returns (aliases: seq<string>, seen: set<string>)
    requires index < |ranked| && Seen(ranked, index, seen0)
    ensures Seen(ranked, index + 1, seen) && forall alias :: alias in aliases <==> Places(ranked, index, alias)
    ensures index == 0 ==> LATEST in aliases
  {
    var key := LineAt(ranked, index);
    OneMoreSeen(ranked, index, seen0);
    aliases, seen := if index == 0 then [LATEST] else [], seen0;
    if key !in seen {
      seen := seen + {key};
      aliases := aliases + [key];
    }
    assert seen == seen0 + {key};
  }

  method AliasReleases(releases: seq<Listed>) returns (out: seq<Aliased>)
    ensures forall alias, tag :: Carries(out, alias, tag) <==> Deserves(releases, alias, tag)
    ensures out == [] <==> forall r | r in releases :: !Counts(r)
    ensures out != [] ==> LATEST in out[0].aliases && out[0].release in releases && Counts(out[0].release)
  {
    var ranked := Ranked(Counting(releases));
    var seen: set<string> := {};
    out := [];
    for index := 0 to |ranked|
      invariant Seen(ranked, index, seen) && Given(ranked, index, out)
      invariant out == [] <==> index == 0
      invariant out != [] ==> LATEST in out[0].aliases && out[0].release in ranked
    {
      var aliases;
      aliases, seen := AliasesAt(ranked, index, seen);
      OneMoreGiven(ranked, index, out, aliases);
      if aliases != [] {
        out := out + [Aliased(ranked[index], aliases)];
      }
    }
    GivenRightly(releases, ranked, out);
    RankedIsEmpty(releases, ranked);
  }

  lemma RankedIsEmpty(releases: seq<Listed>, ranked: seq<Listed>)
    requires ranked == Ranked(Counting(releases))
    ensures ranked == [] <==> forall r | r in releases :: !Counts(r)
    ensures forall r | r in ranked :: r in releases && Counts(r)
  {
    if ranked != [] {
      assert ranked[0] in ranked;
    }
    if r :| r in releases && Counts(r) {
      assert r in ranked;
    }
  }

  // ----- the ranking gives what is deserved ---------------------------------

  lemma GivenRightly(releases: seq<Listed>, ranked: seq<Listed>, out: seq<Aliased>)
    requires ranked == Ranked(Counting(releases)) && Given(ranked, |ranked|, out)
    ensures forall alias, tag :: Carries(out, alias, tag) <==> Deserves(releases, alias, tag)
  {
    forall alias, tag | Carries(out, alias, tag)
      ensures Deserves(releases, alias, tag)
    {
      var a :| a in out && a.release.tag == tag && alias in a.aliases;
      var k :| 0 <= k < |ranked| && GivenAt(ranked, k, a);
      assert Places(ranked, k, alias);
      PlaceDeserves(releases, ranked, k, alias);
    }
    forall alias, tag | Deserves(releases, alias, tag)
      ensures Carries(out, alias, tag)
    {
      var r :| r in releases && r.tag == tag && Earns(releases, alias, r);
      var k := EarnerHasPlace(releases, ranked, r, alias);
    }
  }

  lemma PlaceDeserves(releases: seq<Listed>, ranked: seq<Listed>, k: nat, alias: string)
    requires ranked == Ranked(Counting(releases)) && k < |ranked| && Places(ranked, k, alias)
    ensures Deserves(releases, alias, ranked[k].tag)
  {
    var r := ranked[k];
    RankedCounts(releases, ranked, k);
    if IsFirst(ranked, k) && alias == LineAt(ranked, k) {
      LineEarns(releases, ranked, k, alias);
    } else {
      LatestEarns(releases, ranked, alias, r);
    }
    assert Earns(releases, alias, r);
  }

  lemma RankedCounts(releases: seq<Listed>, ranked: seq<Listed>, k: nat)
    requires ranked == Ranked(Counting(releases)) && k < |ranked|
    ensures ranked[k] in releases && Counts(ranked[k])
  {
    assert ranked[k] in Counting(releases);
  }

  lemma LatestEarns(releases: seq<Listed>, ranked: seq<Listed>, alias: string, r: Listed)
    requires ranked == Ranked(Counting(releases)) && ranked != [] && r == ranked[0] && alias == LATEST
    ensures Earns(releases, alias, r)
  {
    RankedCounts(releases, ranked, 0);
    RankedFalls(Counting(releases));
    FirstIsGreatest(releases, ranked);
  }

  lemma LineEarns(releases: seq<Listed>, ranked: seq<Listed>, k: nat, alias: string)
    requires ranked == Ranked(Counting(releases)) && k < |ranked| && IsFirst(ranked, k) && alias == LineAt(ranked, k)
    ensures Earns(releases, alias, ranked[k])
  {
    RankedCounts(releases, ranked, k);
    RankedFalls(Counting(releases));
    FirstIsGreatestInLine(releases, ranked, k);
  }

  lemma FirstIsGreatest(releases: seq<Listed>, ranked: seq<Listed>)
    requires ranked == Ranked(Counting(releases)) && ranked != [] && Falling(ranked)
    ensures Greatest(releases, ranked[0])
  {
    forall q | q in releases && Counts(q)
      ensures !Above(VersionOf(q.tag), VersionOf(ranked[0].tag))
    {
      assert q in ranked;
      var j :| 0 <= j < |ranked| && ranked[j] == q;
      NotAbove(ranked, 0, j);
    }
  }

  lemma FirstIsGreatestInLine(releases: seq<Listed>, ranked: seq<Listed>, k: nat)
    requires ranked == Ranked(Counting(releases)) && k < |ranked| && IsFirst(ranked, k) && Falling(ranked)
    ensures GreatestInLine(releases, ranked[k])
  {
    forall q | q in releases && Counts(q) && SameLine(VersionOf(q.tag), VersionOf(ranked[k].tag))
      ensures !Above(VersionOf(q.tag), VersionOf(ranked[k].tag))
    {
      assert q in ranked;
      var j :| 0 <= j < |ranked| && ranked[j] == q;
      LinesDiffer(VersionOf(q.tag), VersionOf(ranked[k].tag));
      assert LineAt(ranked, j) == LineAt(ranked, k);
      NotAbove(ranked, k, j);
    }
  }

  lemma NotAbove(ranked: seq<Listed>, k: nat, j: nat)
    requires Falling(ranked) && k <= j < |ranked|
    ensures !Above(VersionOf(ranked[j].tag), VersionOf(ranked[k].tag))
  {
  }

  lemma EarnerHasPlace(releases: seq<Listed>, ranked: seq<Listed>, r: Listed, alias: string) returns (k: nat)
    requires ranked == Ranked(Counting(releases)) && r in releases && Earns(releases, alias, r)
    ensures k < |ranked| && Places(ranked, k, alias) && ranked[k].tag == r.tag
  {
    RankedFalls(Counting(releases));
    RankedIsEmpty(releases, ranked);
    var i := PlaceOf(ranked, r);
    if alias == LATEST && Greatest(releases, r) {
      k := 0;
      LatestIsFirst(releases, ranked, r, i);
    } else {
      k := FirstOfLine(ranked, i);
      LineIsFirst(releases, ranked, r, i, k);
    }
  }

  lemma PlaceOf(ranked: seq<Listed>, r: Listed) returns (i: nat)
    requires r in ranked
    ensures i < |ranked| && ranked[i] == r
  {
    i :| 0 <= i < |ranked| && ranked[i] == r;
  }

  lemma LatestIsFirst(releases: seq<Listed>, ranked: seq<Listed>, r: Listed, i: nat)
    requires ranked == Ranked(Counting(releases)) && i < |ranked| && ranked[i] == r && Falling(ranked)
    requires Counts(r) && Greatest(releases, r)
    ensures ranked[0].tag == r.tag
  {
    assert ranked[0] in ranked;
    NotAbove(ranked, 0, i);
    SameVersionSameTag(ranked[0].tag, r.tag);
  }

  lemma LineIsFirst(releases: seq<Listed>, ranked: seq<Listed>, r: Listed, i: nat, k: nat)
    requires ranked == Ranked(Counting(releases)) && k <= i < |ranked| && ranked[i] == r && Falling(ranked)
    requires Counts(r) && GreatestInLine(releases, r) && LineAt(ranked, k) == LineAt(ranked, i)
    ensures ranked[k].tag == r.tag
  {
    assert ranked[k] in ranked;
    NotAbove(ranked, k, i);
    LinesDiffer(VersionOf(ranked[k].tag), VersionOf(r.tag));
    SameVersionSameTag(ranked[k].tag, r.tag);
  }

  lemma {:induction false} FirstOfLine(ranked: seq<Listed>, i: nat) returns (k: nat)
    requires i < |ranked|
    ensures k <= i && LineAt(ranked, k) == LineAt(ranked, i) && IsFirst(ranked, k)
  {
    if IsFirst(ranked, i) {
      k := i;
    } else {
      var j: nat :| j < i && LineAt(ranked, j) == LineAt(ranked, i);
      k := FirstOfLine(ranked, j);
    }
  }

  // ----- over all lists -----------------------------------------------------

  /** Every alias has one release at most. */
  lemma AliasIsUnique(releases: seq<Listed>, alias: string, a: string, b: string)
    requires Deserves(releases, alias, a) && Deserves(releases, alias, b)
    ensures a == b
  {
    var r :| r in releases && r.tag == a && Earns(releases, alias, r);
    var q :| q in releases && q.tag == b && Earns(releases, alias, q);
    LinesDiffer(VersionOf(a), VersionOf(b));
    LinesDiffer(VersionOf(b), VersionOf(a));
    SameVersionSameTag(a, b);
  }

  /** When more releases are there, in any order, every alias is still given, and to no
      release below the one that had it. */
  lemma NeverLowered(releases: seq<Listed>, more: seq<Listed>, alias: string, tag: string) returns (next: string)
    requires (forall r | r in releases :: r in more) && Deserves(releases, alias, tag)
    ensures Deserves(more, alias, next) && !Above(VersionOf(tag), VersionOf(next))
  {
    var r :| r in releases && r.tag == tag && Earns(releases, alias, r);
    var ranked := Ranked(Counting(more));
    RankedFalls(Counting(more));
    assert r in ranked;
    var i := PlaceOf(ranked, r);
    var k := FirstOfLine(ranked, i);
    if alias == LATEST {
      k := 0;
    }
    LinesDiffer(VersionOf(tag), VersionOf(tag));
    PlaceDeserves(more, ranked, k, alias);
    NotAbove(ranked, k, i);
    next := ranked[k].tag;
  }

  /** ... and the aliases do not depend on the order of the list. */
  lemma OrderDoesNotMatter(releases: seq<Listed>, others: seq<Listed>, alias: string, tag: string)
    requires forall r :: r in releases <==> r in others
    ensures Deserves(releases, alias, tag) <==> Deserves(others, alias, tag)
  {
    if Deserves(releases, alias, tag) {
      var r :| r in releases && r.tag == tag && Earns(releases, alias, r);
      assert Earns(others, alias, r);
    }
    if Deserves(others, alias, tag) {
      var r :| r in others && r.tag == tag && Earns(others, alias, r);
      assert Earns(releases, alias, r);
    }
  }

  // ----- where an update starts ---------------------------------------------

  /** The version an update leads to: of a candidate, the version it is one for. */
  function UpdateBase(current: string): Option<Numbers> {
    match Classify("v" + current)
    case None => None
    case Some(t) => StableVersion("v" + t.base)
  }

  predicate IsBelow(r: Listed, base: Numbers) {
    StableVersion(r.tag).Some? && Above(base, VersionOf(r.tag))
  }

  function Below(releases: seq<Listed>, base: Numbers): (s: seq<Listed>)
    ensures forall x :: x in s <==> x in releases && IsBelow(x, base)
  {
    if releases == [] then []
    else (if IsBelow(releases[0], base) then [releases[0]] else []) + Below(releases[1..], base)
  }

  /** Whether `r` is the greatest published stable release below `base`. */
  ghost predicate GreatestBelow(releases: seq<Listed>, base: Numbers, r: Listed) {
    && r in releases && Counts(r) && IsBelow(r, base)
    && forall q | q in releases && Counts(q) && IsBelow(q, base) :: !Above(VersionOf(q.tag), VersionOf(r.tag))
  }

  method PreviousRelease(releases: seq<Listed>, current: string) returns (r: Option<string>)
    ensures r.None? <==> UpdateBase(current).None?
    ensures r.Some? && r.value != "" ==>
              exists p :: GreatestBelow(releases, UpdateBase(current).value, p) && p.tag == "v" + r.value
    ensures r == Some("") <==>
              UpdateBase(current).Some? &&
              forall q | q in releases && Counts(q) :: !IsBelow(q, UpdateBase(current).value)
  {
    var base := UpdateBase(current);
    if base.None? {
      return None;
    }
    var below := Below(releases, base.value);
    var aliased := AliasReleases(below);
    if aliased == [] {
      return Some("");
    }
    var p := aliased[0].release;
    FirstIsLatest(below, aliased, p);
    GreatestOfThoseBelow(releases, base.value, below, p);
    r := Some(p.tag[1..]);
  }

  lemma FirstIsLatest(releases: seq<Listed>, out: seq<Aliased>, p: Listed)
    requires out != [] && out[0].release == p && LATEST in out[0].aliases && Counts(p)
    requires forall alias, tag :: Carries(out, alias, tag) <==> Deserves(releases, alias, tag)
    ensures Greatest(releases, p) && p.tag == "v" + p.tag[1..] && p.tag[1..] != ""
  {
    assert Carries(out, LATEST, p.tag);
    var r :| r in releases && r.tag == p.tag && Earns(releases, LATEST, r);
    LinesDiffer(VersionOf(r.tag), VersionOf(r.tag));
    VersionTag(p.tag);
  }

  lemma GreatestOfThoseBelow(releases: seq<Listed>, base: Numbers, below: seq<Listed>, p: Listed)
    requires below == Below(releases, base) && p in below && Counts(p) && Greatest(below, p)
    ensures GreatestBelow(releases, base, p)
  {
  }

  lemma BaseHasVersion(base: string)
    ensures IsBase(base) <==> StableVersion(StableTag(base)).Some?
  {
    BaseMeans(base);
    assert StableTag(base)[1..] == base;
  }

  /** An update leads to every version that is a release tag's, and to no other. */
  lemma UpdatesOfTags(current: string)
    ensures UpdateBase(current).Some? <==> Classify("v" + current).Some?
  {
    var t := "v" + current;
    if Classify(t).Some? {
      var base := Classify(t).value.base;
      if Classify(t).value.channel.Stable? {
        ClassifyReads(t);
        assert t[1..] == current == base;
        assert StableTag(base) == t;
      } else {
        var parsed, pre := PartsOfTag(t);
      }
      BaseHasVersion(base);
    }
  }

  /** A candidate is updated to from where its version is. */
  lemma CandidateStartsWhereVersionDoes(base: string, n: nat)
    requires IsBase(base) && 1 <= n <= MAX_SAFE
    ensures UpdateBase(base) == StableVersion(StableTag(base)) && UpdateBase(base).Some?
    ensures UpdateBase(base + ("-rc." + Decimal(n))) == UpdateBase(base)
  {
    CandidateReadsBack(base, n);
    BaseHasVersion(base);
  }
}
