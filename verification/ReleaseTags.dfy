/** scripts/ci/release-policy.ts: what a release tag is, which candidate comes next,
    and when a stable tag may be placed. */
module ReleaseTags {
  import opened Basics
  import opened Decimals

  const MAX_SAFE := 9007199254740991

  datatype Channel = Stable | Candidate(rc: nat) | Prerelease

  /** A unified release tag, and the `X.Y.Z` it releases or is a candidate for. */
  datatype ReleaseTag = ReleaseTag(tag: string, base: string, channel: Channel)

  // ----- reading tags -------------------------------------------------------

  function DigitRun(s: string): (n: nat)
    ensures n <= |s| && (forall i | 0 <= i < n :: IsDigit(s[i])) && (n < |s| ==> !IsDigit(s[n]))
  {
    if s == "" || !IsDigit(s[0]) then 0 else 1 + DigitRun(s[1..])
  }

  /** The length of the number `s` starts with: no leading zeros. */
  function NumberLength(s: string): (n: nat)
    ensures n <= |s| && forall i | 0 <= i < n :: IsDigit(s[i])
  {
    if s != "" && s[0] == '0' then 1 else DigitRun(s)
  }

  function NumberAt(s: string): nat { Digits(s[..NumberLength(s)], 0) }

  /** `X.Y.Z` and how long it is. */
  datatype Numbers = Numbers(major: nat, minor: nat, patch: nat)

  function Dotted(s: string): Option<(nat, string)> {
    var n := NumberLength(s);
    if n == 0 || n == |s| || s[n] != '.' then None else Some((NumberAt(s), s[n + 1..]))
  }

  /** The three numbers `s` starts with, and what follows them. */
  function ReadBase(s: string): Option<(Numbers, string)> {
    match Dotted(s)
    case None => None
    case Some((major, afterMajor)) =>
      match Dotted(afterMajor)
      case None => None
      case Some((minor, afterMinor)) =>
        if NumberLength(afterMinor) == 0 then None
        else Some((Numbers(major, minor, NumberAt(afterMinor)), afterMinor[NumberLength(afterMinor)..]))
  }

  predicate IsWord(c: char) { IsDigit(c) || 'A' <= c <= 'Z' || 'a' <= c <= 'z' }

  predicate IsSuffix(s: string) {
    s != "" && IsWord(s[0]) && forall i | 0 <= i < |s| :: IsWord(s[i]) || s[i] == '.' || s[i] == '-'
  }

  predicate Safe(n: Numbers) { n.major <= MAX_SAFE && n.minor <= MAX_SAFE && n.patch <= MAX_SAFE }

  const RC := "rc."

  /** The channel of what follows the dash. */
  function SuffixChannel(pre: string): Channel {
    if StartsWith(pre, RC) && |pre| > 3 && pre[3] != '0' && DigitRun(pre[3..]) == |pre| - 3 &&
      Digits(pre[3..], 0) <= MAX_SAFE
    then Candidate(Digits(pre[3..], 0))
    else Prerelease
  }

  function Classify(tag: string): Option<ReleaseTag> {
    if tag == "" || tag[0] != 'v' then None
    else
      match ReadBase(tag[1..])
      case None => None
      case Some((numbers, rest)) => if Safe(numbers) then ClassifyRest(tag, rest) else None
  }

  /** ... once its three numbers have been read. */
  function ClassifyRest(tag: string, rest: string): Option<ReleaseTag> {
    if |rest| >= |tag| then None
    else if rest == "" then Some(ReleaseTag(tag, tag[1..], Stable))
    else if rest[0] == '-' && IsSuffix(rest[1..]) then
      Some(ReleaseTag(tag, tag[1..|tag| - |rest|], SuffixChannel(rest[1..])))
    else None
  }

  predicate IsBase(base: string) {
    Classify("v" + base) == Some(ReleaseTag("v" + base, base, Stable))
  }

  function StableTag(base: string): string { "v" + base }

  function CandidateTag(base: string, n: nat): string { "v" + (base + ("-rc." + Decimal(n))) }

  // ----- numerals -----------------------------------------------------------

  lemma {:induction false} RunThrough(s: string, rest: string)
    requires (forall c | c in s :: IsDigit(c)) && (rest == "" || !IsDigit(rest[0]))
    ensures DigitRun(s + rest) == |s|
  {
    if s == "" {
      assert s + rest == rest;
    } else {
      assert s[0] in s && (s + rest)[1..] == s[1..] + rest;
      RunThrough(s[1..], rest);
    }
  }

  lemma {:induction false} DecimalStarts(n: nat)
    ensures Decimal(n)[0] == '0' <==> n == 0
    ensures n > 0 ==> Decimal(n)[0] != '0'
    ensures n == 0 ==> Decimal(n) == "0"
    decreases n
  {
    if n >= 10 {
      DecimalStarts(n / 10);
    }
  }

  lemma DecimalValue(n: nat)
    ensures Digits(Decimal(n), 0) == n
  {
    DigitsOfDecimal(n, 0, "-");
    DigitsThrough(Decimal(n), 0, "-");
  }

  /** A numeral without leading zeros is the decimal of its value. */
  lemma {:induction false} NumeralIsDecimal(s: string)
    requires s != "" && (forall c | c in s :: IsDigit(c)) && (s[0] != '0' || s == "0")
    ensures Decimal(Digits(s, 0)) == s
    ensures s[0] != '0' ==> Digits(s, 0) > 0
    decreases |s|
  {
    var front, last := s[..|s| - 1], s[|s| - 1];
    assert s == front + [last] && last in s;
    assert [last][1..] == "";
    if front == "" {
      assert s == [last];
    } else {
      forall c | c in front ensures IsDigit(c) {
        assert c in s;
      }
      assert front[0] == s[0];
      NumeralIsDecimal(front);
      DigitsThrough(front, 0, [last]);
      assert Digits(s, 0) == 10 * Digits(front, 0) + DigitValue(last);
    }
  }

  // ----- candidates read back -----------------------------------------------

  lemma NumberLengthThrough(s: string, more: string)
    requires NumberLength(s) < |s| || more == "" || !IsDigit(more[0])
    requires s != ""
    ensures NumberLength(s + more) == NumberLength(s) && NumberAt(s + more) == NumberAt(s)
  {
    if s[0] != '0' {
      var n := DigitRun(s);
      assert s + more == s[..n] + (s[n..] + more);
      RunThrough(s[..n], s[n..] + more);
    }
    assert (s + more)[..NumberLength(s)] == s[..NumberLength(s)];
  }

  lemma DottedThrough(s: string, more: string)
    requires Dotted(s).Some?
    ensures Dotted(s + more) == Some((Dotted(s).value.0, Dotted(s).value.1 + more))
  {
    NumberLengthThrough(s, more);
    var n := NumberLength(s);
    assert (s + more)[n + 1..] == s[n + 1..] + more;
  }

  lemma BaseThrough(s: string, more: string)
    requires ReadBase(s).Some? && ReadBase(s).value.1 == "" && more != "" && !IsDigit(more[0])
    ensures ReadBase(s + more) == Some((ReadBase(s).value.0, more))
  {
    DottedThrough(s, more);
    var afterMajor := Dotted(s).value.1;
    DottedThrough(afterMajor, more);
    var afterMinor := Dotted(afterMajor).value.1;
    NumberLengthThrough(afterMinor, more);
    assert (afterMinor + more)[NumberLength(afterMinor)..] == more;
  }

  lemma SuffixRead(n: nat)
    requires 1 <= n <= MAX_SAFE
    ensures IsSuffix(RC + Decimal(n)) && SuffixChannel(RC + Decimal(n)) == Candidate(n)
  {
    var pre := RC + Decimal(n);
    assert pre[3..] == Decimal(n) && pre[..3] == RC;
    DecimalValue(n);
    DecimalStarts(n);
    RunThrough(Decimal(n), "");
    assert Decimal(n) + "" == Decimal(n);
    forall i | 0 <= i < |pre| ensures IsWord(pre[i]) || pre[i] == '.' || pre[i] == '-' {
      if i >= 3 {
        assert pre[i] in Decimal(n);
      }
    }
  }

  lemma SuffixIsDecimal(pre: string)
    requires SuffixChannel(pre).Candidate?
    ensures var n := SuffixChannel(pre).rc; 1 <= n <= MAX_SAFE && pre == RC + Decimal(n)
  {
    RunDigits(pre[3..]);
    NumeralIsDecimal(pre[3..]);
    assert pre == pre[..3] + pre[3..];
  }

  lemma RunDigits(s: string)
    requires DigitRun(s) == |s|
    ensures forall c | c in s :: IsDigit(c)
  {
    forall c | c in s ensures IsDigit(c) {
      var i :| 0 <= i < |s| && s[i] == c;
    }
  }

  /** What makes a base: three safe numbers and nothing else. */
  predicate BaseText(base: string) {
    ReadBase(base).Some? && ReadBase(base).value.1 == "" && Safe(ReadBase(base).value.0)
  }

  lemma BaseMeans(base: string)
    ensures IsBase(base) <==> BaseText(base)
  {
    var tag := "v" + base;
    assert tag[1..] == base;
  }

  lemma TagReads(base: string, rest: string)
    requires ReadBase(base).Some? && ReadBase(base).value.1 == "" && rest != "" && !IsDigit(rest[0])
    ensures var tag := "v" + (base + rest);
            Classify(tag) == if Safe(ReadBase(base).value.0) then ClassifyRest(tag, rest) else None
  {
    var tag := "v" + (base + rest);
    assert tag[1..] == base + rest;
    BaseThrough(base, rest);
  }

  lemma RestReads(base: string, pre: string)
    requires IsSuffix(pre)
    ensures var tag := "v" + (base + ("-" + pre));
            ClassifyRest(tag, "-" + pre) == Some(ReleaseTag(tag, base, SuffixChannel(pre)))
  {
    var rest := "-" + pre;
    var tag := "v" + (base + rest);
    assert rest[1..] == pre && tag[1..|tag| - |rest|] == base;
  }

  /** A tag taken apart: its base, which is one, and its suffix. */
  lemma TagParts(base: string, pre: string)
    requires IsBase(base) && IsSuffix(pre)
    ensures var tag := "v" + (base + ("-" + pre));
            Classify(tag) == Some(ReleaseTag(tag, base, SuffixChannel(pre)))
  {
    BaseMeans(base);
    TagReads(base, "-" + pre);
    RestReads(base, pre);
  }

  /** A candidate's tag is read back as that candidate of that version. */
  lemma CandidateReadsBack(base: string, n: nat)
    requires IsBase(base) && 1 <= n <= MAX_SAFE
    ensures Classify(CandidateTag(base, n)) == Some(ReleaseTag(CandidateTag(base, n), base, Candidate(n)))
  {
    SuffixRead(n);
    assert "-" + (RC + Decimal(n)) == "-rc." + Decimal(n);
    TagParts(base, RC + Decimal(n));
  }

  lemma DottedIsSuffix(s: string)
    requires Dotted(s).Some?
    ensures s == s[..NumberLength(s) + 1] + Dotted(s).value.1 && NumberLength(s) + 1 <= |s|
  {
  }

  lemma DottedCut(s: string, k: nat)
    requires Dotted(s).Some? && NumberLength(s) + 1 <= k <= |s|
    ensures Dotted(s[..k]) == Some((Dotted(s).value.0, Dotted(s).value.1[..k - NumberLength(s) - 1]))
  {
    var n := NumberLength(s);
    assert s[..k][..n] == s[..n] && s[..k][n] == '.';
    assert s[..k][n + 1..] == s[n + 1..][..k - n - 1];
    LengthCut(s, k);
  }

  lemma LengthCut(s: string, k: nat)
    requires 0 < NumberLength(s) <= k <= |s|
    ensures NumberLength(s[..k]) == NumberLength(s) && NumberAt(s[..k]) == NumberAt(s)
  {
    var n := NumberLength(s);
    if s[0] != '0' {
      forall c | c in s[..n] ensures IsDigit(c) {
      }
      assert s[..k] == s[..n] + s[n..k];
      RunThrough(s[..n], s[n..k]);
    }
    assert s[..k][..n] == s[..n];
  }

  lemma ThreeNumbers(s: string, a: string, b: string)
    requires Dotted(s).Some? && Dotted(s).value.1 == a && Dotted(a).Some? && Dotted(a).value.1 == b
    requires NumberLength(b) == |b| > 0
    ensures ReadBase(s) == Some((Numbers(Dotted(s).value.0, Dotted(a).value.0, NumberAt(b)), ""))
  {
    assert b[|b|..] == "";
  }

  lemma JoinCut(s: string, x: string, y: string, a: string, b: string, n: nat)
    requires s == x + a && a == y + b && n <= |b|
    ensures |s| == |x| + |y| + |b| && s == s[..|x| + |y| + n] + b[n..]
  {
    assert s == (x + y) + b;
  }

  lemma CutLength(s: string, a: string, b: string, n: nat)
    requires Dotted(s).Some? && Dotted(s).value.1 == a && Dotted(a).Some? && Dotted(a).value.1 == b && n <= |b|
    ensures |s| == NumberLength(s) + 1 + NumberLength(a) + 1 + |b|
    ensures s == s[..|s| - |b| + n] + b[n..]
  {
    DottedIsSuffix(s);
    DottedIsSuffix(a);
    JoinCut(s, s[..NumberLength(s) + 1], a[..NumberLength(a) + 1], a, b, n);
  }

  lemma CutDots(s: string, a: string, b: string, n: nat) returns (cut: string, inner: string)
    requires Dotted(s).Some? && Dotted(s).value.1 == a && Dotted(a).Some? && Dotted(a).value.1 == b && n <= |b|
    ensures cut != "" && s == cut + b[n..]
    ensures Dotted(cut) == Some((Dotted(s).value.0, inner)) && Dotted(inner) == Some((Dotted(a).value.0, b[..n]))
  {
    CutLength(s, a, b, n);
    var k := |s| - |b| + n;
    cut, inner := s[..k], a[..k - NumberLength(s) - 1];
    DottedCut(s, k);
    DottedCut(a, k - NumberLength(s) - 1);
    assert inner[NumberLength(a) + 1..] == b[..n];
  }

  /** Dropping what follows a base leaves the base. */
  lemma BaseAlone(s: string) returns (base: string)
    requires ReadBase(s).Some?
    ensures base != "" && s == base + ReadBase(s).value.1
    ensures ReadBase(base) == Some((ReadBase(s).value.0, ""))
  {
    var a := Dotted(s).value.1;
    var b := Dotted(a).value.1;
    var n := NumberLength(b);
    var inner;
    base, inner := CutDots(s, a, b, n);
    LengthCut(b, n);
    ThreeNumbers(base, inner, b[..n]);
  }

  lemma ClassifyReads(t: string)
    requires Classify(t).Some?
    ensures t != "" && t[0] == 'v' && ReadBase(t[1..]).Some? && Safe(ReadBase(t[1..]).value.0)
    ensures Classify(t) == ClassifyRest(t, ReadBase(t[1..]).value.1)
  {
  }

  lemma RestParts(t: string, rest: string)
    requires ClassifyRest(t, rest).Some? && !ClassifyRest(t, rest).value.channel.Stable?
    ensures |rest| < |t| && rest != "" && rest[0] == '-' && IsSuffix(rest[1..])
    ensures ClassifyRest(t, rest) == Some(ReleaseTag(t, t[1..|t| - |rest|], SuffixChannel(rest[1..])))
  {
  }

  lemma PartsOfTag(t: string) returns (base: string, pre: string)
    requires Classify(t).Some? && !Classify(t).value.channel.Stable?
    ensures IsBase(base) && base == Classify(t).value.base && t == "v" + (base + ("-" + pre))
    ensures Classify(t).value.channel == SuffixChannel(pre)
  {
    ClassifyReads(t);
    var rest := ReadBase(t[1..]).value.1;
    RestParts(t, rest);
    base := BaseAlone(t[1..]);
    pre := rest[1..];
    BaseMeans(base);
    TagText(t, base, rest);
  }

  lemma TagText(t: string, base: string, rest: string)
    requires t != "" && t[0] == 'v' && t[1..] == base + rest && rest != "" && rest[0] == '-'
    ensures t == "v" + (base + ("-" + rest[1..])) && |rest| < |t| && t[1..|t| - |rest|] == base
  {
    assert t == "v" + t[1..] && rest == "-" + rest[1..];
  }

  lemma SuffixText(n: nat)
    ensures "-" + (RC + Decimal(n)) == "-rc." + Decimal(n)
  {
  }

  /** ... and a tag read as a candidate is that candidate's tag. */
  lemma CandidateIsTag(t: string)
    requires Classify(t).Some? && Classify(t).value.channel.Candidate?
    ensures var c := Classify(t).value;
            IsBase(c.base) && 1 <= c.channel.rc <= MAX_SAFE && t == CandidateTag(c.base, c.channel.rc)
  {
    var base, pre := PartsOfTag(t);
    SuffixOf(t, base, pre, Classify(t).value.channel.rc);
  }

  lemma SuffixOf(t: string, base: string, pre: string, n: nat)
    requires SuffixChannel(pre) == Candidate(n) && t == "v" + (base + ("-" + pre))
    ensures 1 <= n <= MAX_SAFE && t == CandidateTag(base, n)
  {
    SuffixIsDecimal(pre);
    SuffixText(n);
  }

  // ----- candidates of a version --------------------------------------------

  predicate IsCandidateOf(base: string, t: string) {
    Classify(t).Some? && Classify(t).value.channel.Candidate? && Classify(t).value.base == base
  }

  /** Newest first: before the first that is older, after those as new. */
  function Insert(c: ReleaseTag, sorted: seq<ReleaseTag>): (r: seq<ReleaseTag>)
    requires c.channel.Candidate? && forall x | x in sorted :: x.channel.Candidate?
    ensures forall x :: x in r <==> x == c || x in sorted
  {
    if sorted == [] || sorted[0].channel.rc < c.channel.rc then [c] + sorted
    else [sorted[0]] + Insert(c, sorted[1..])
  }

  function CandidatesOf(base: string, tags: seq<string>): (r: seq<ReleaseTag>)
    ensures forall x | x in r :: x.channel.Candidate?
  {
    if tags == [] then []
    else
      var front, last := CandidatesOf(base, tags[..|tags| - 1]), tags[|tags| - 1];
      if IsCandidateOf(base, last) then Insert(Classify(last).value, front) else front
  }

  /** The number of the newest candidate; 0 when there is none. */
  function Top(base: string, tags: seq<string>): nat {
    var candidates := CandidatesOf(base, tags);
    if candidates == [] then 0 else candidates[0].channel.rc
  }

  function NextCandidateTag(base: string, tags: seq<string>): string {
    CandidateTag(base, Top(base, tags) + 1)
  }

  ghost predicate Descending(cs: seq<ReleaseTag>) {
    && (forall i | 0 <= i < |cs| :: cs[i].channel.Candidate?)
    && forall i, j | 0 <= i < j < |cs| :: cs[i].channel.rc >= cs[j].channel.rc
  }

  lemma {:induction false} InsertDescending(c: ReleaseTag, sorted: seq<ReleaseTag>)
    requires c.channel.Candidate? && Descending(sorted)
    ensures Descending(Insert(c, sorted))
  {
    if sorted != [] && sorted[0].channel.rc >= c.channel.rc {
      InsertDescending(c, sorted[1..]);
      var rest := Insert(c, sorted[1..]);
      forall i | 0 <= i < |rest| ensures sorted[0].channel.rc >= rest[i].channel.rc {
        assert rest[i] in rest;
      }
    }
  }

  /** The candidates of a version among `tags`, and nothing else, newest first. */
  lemma {:induction false} CandidatesRight(base: string, tags: seq<string>)
    ensures Descending(CandidatesOf(base, tags))
    ensures forall c :: c in CandidatesOf(base, tags) <==>
              exists t :: t in tags && IsCandidateOf(base, t) && c == Classify(t).value
  {
    if tags != [] {
      var front, last := tags[..|tags| - 1], tags[|tags| - 1];
      assert tags == front + [last];
      CandidatesRight(base, front);
      if IsCandidateOf(base, last) {
        InsertDescending(Classify(last).value, CandidatesOf(base, front));
      }
    }
  }

  lemma NoneAbove(base: string, tags: seq<string>, n: nat)
    requires IsBase(base) && 1 <= n <= MAX_SAFE && CandidateTag(base, n) in tags
    ensures n <= Top(base, tags)
  {
    CandidatesRight(base, tags);
    CandidateReadsBack(base, n);
    assert IsCandidateOf(base, CandidateTag(base, n));
    assert Classify(CandidateTag(base, n)).value in CandidatesOf(base, tags);
  }

  lemma TopIsThere(base: string, tags: seq<string>)
    requires Top(base, tags) > 0
    ensures Top(base, tags) <= MAX_SAFE && CandidateTag(base, Top(base, tags)) in tags
  {
    CandidatesRight(base, tags);
    var c := CandidatesOf(base, tags)[0];
    assert c in CandidatesOf(base, tags);
    var t :| t in tags && IsCandidateOf(base, t) && c == Classify(t).value;
    CandidateIsTag(t);
  }

  /** No candidate's number is above the top, and the top is a candidate's. */
  lemma TopIsHighest(base: string, tags: seq<string>)
    requires IsBase(base)
    ensures forall n | 1 <= n <= MAX_SAFE && CandidateTag(base, n) in tags :: n <= Top(base, tags)
    ensures Top(base, tags) > 0 ==> Top(base, tags) <= MAX_SAFE && CandidateTag(base, Top(base, tags)) in tags
  {
    forall n | 1 <= n <= MAX_SAFE && CandidateTag(base, n) in tags ensures n <= Top(base, tags) {
      NoneAbove(base, tags, n);
    }
    if Top(base, tags) > 0 {
      TopIsThere(base, tags);
    }
  }

  /** The next candidate's tag is new, and read back as the number after the newest. */
  lemma NextIsNew(base: string, tags: seq<string>)
    requires IsBase(base) && Top(base, tags) < MAX_SAFE
    ensures NextCandidateTag(base, tags) !in tags
    ensures Classify(NextCandidateTag(base, tags)) ==
            Some(ReleaseTag(NextCandidateTag(base, tags), base, Candidate(Top(base, tags) + 1)))
  {
    TopIsHighest(base, tags);
    CandidateReadsBack(base, Top(base, tags) + 1);
  }

  lemma CandidatesAdded(base: string, tags: seq<string>, t: string)
    ensures CandidatesOf(base, tags + [t]) ==
            if IsCandidateOf(base, t)
              then Insert(Classify(t).value, CandidatesOf(base, tags)) else CandidatesOf(base, tags)
  {
    assert (tags + [t])[..|tags|] == tags;
  }

  /** A candidate with a higher number becomes the top. */
  lemma TopAdded(base: string, tags: seq<string>, t: string)
    requires IsCandidateOf(base, t) && Classify(t).value.channel.rc > Top(base, tags)
    ensures Top(base, tags + [t]) == Classify(t).value.channel.rc
  {
    CandidatesAdded(base, tags, t);
  }

  // ----- promotion ----------------------------------------------------------

  datatype Run = Run(
    id: int, headSha: int, headBranch: Option<string>, event: string, path: string,
    status: string, conclusion: Option<string>, created: int)

  datatype Release = Release(draft: bool, prerelease: bool)

  /** A candidate, with what GitHub knows about it. */
  datatype Evidence = Evidence(tag: string, commit: int, release: Option<Release>, runs: seq<Run>)

  datatype Promotion = Promoted(candidate: string) | Refused

  const RELEASE_WORKFLOW := ".github/workflows/release.yml"

  predicate RunOf(run: Run, tag: string, commit: int) {
    && run.headBranch == Some(tag) && run.headSha == commit && run.event == "push"
    && StartsWith(run.path, RELEASE_WORKFLOW)
  }

  predicate Newer(a: Run, b: Run) { a.created > b.created || (a.created == b.created && a.id > b.id) }

  /** The newest of the runs for a tag. */
  function NewestRun(runs: seq<Run>, tag: string, commit: int): Option<Run> {
    if runs == [] then None
    else
      var front, last := NewestRun(runs[..|runs| - 1], tag, commit), runs[|runs| - 1];
      if !RunOf(last, tag, commit) then front
      else if front.None? || Newer(last, front.value) then Some(last)
      else front
  }

  function EvidenceFor(candidates: seq<Evidence>, tag: string): Option<Evidence> {
    if candidates == [] then None
    else if candidates[0].tag == tag then Some(candidates[0])
    else EvidenceFor(candidates[1..], tag)
  }

  function TagsOf(candidates: seq<Evidence>): (r: seq<string>)
    ensures |r| == |candidates| && forall i | 0 <= i < |r| :: r[i] == candidates[i].tag
  {
    seq(|candidates|, i requires 0 <= i < |candidates| => candidates[i].tag)
  }

  function CheckPromotion(stableTag: string, commit: int, candidates: seq<Evidence>): Promotion {
    var stable := Classify(stableTag);
    if stable.None? || !stable.value.channel.Stable? then Refused
    else
      var newest := CandidatesOf(stable.value.base, TagsOf(candidates));
      if newest == [] then Refused
      else
        match EvidenceFor(candidates, newest[0].tag)
        case None => Refused
        case Some(evidence) =>
          if evidence.commit != commit || evidence.release.None? || evidence.release.value.draft
            || !evidence.release.value.prerelease
          then Refused
          else
            var run := NewestRun(evidence.runs, newest[0].tag, commit);
            if run.None? || run.value.status != "completed" || run.value.conclusion != Some("success") then Refused
            else Promoted(newest[0].tag)
  }

  /** Why a stable tag may be placed: its version's newest candidate, published as a
      prerelease at this commit, whose newest release run succeeded. */
  ghost predicate Justified(base: string, commit: int, candidates: seq<Evidence>, tag: string) {
    && tag == CandidateTag(base, Top(base, TagsOf(candidates))) && Top(base, TagsOf(candidates)) > 0
    && exists e :: e in candidates && e.tag == tag && e.commit == commit && e.release == Some(Release(false, true))
         && SucceededLast(e.runs, tag, commit)
  }

  ghost predicate SucceededLast(runs: seq<Run>, tag: string, commit: int) {
    exists r :: r in runs && RunOf(r, tag, commit) && r.status == "completed" && r.conclusion == Some("success")
      && forall q | q in runs && RunOf(q, tag, commit) :: !Newer(q, r)
  }

  lemma {:induction false} NewestIsNewest(runs: seq<Run>, tag: string, commit: int)
    ensures var r := NewestRun(runs, tag, commit);
            match r
            case None => forall q | q in runs :: !RunOf(q, tag, commit)
            case Some(run) =>
              run in runs && RunOf(run, tag, commit) && forall q | q in runs && RunOf(q, tag, commit) :: !Newer(q, run)
  {
    if runs != [] {
      NewestIsNewest(runs[..|runs| - 1], tag, commit);
      assert runs == runs[..|runs| - 1] + [runs[|runs| - 1]];
    }
  }

  lemma {:induction false} EvidenceIsFor(candidates: seq<Evidence>, tag: string)
    requires EvidenceFor(candidates, tag).Some?
    ensures EvidenceFor(candidates, tag).value in candidates && EvidenceFor(candidates, tag).value.tag == tag
  {
    if candidates[0].tag != tag {
      EvidenceIsFor(candidates[1..], tag);
    }
  }

  /** A promotion that passes is justified. */
  lemma PromotionIsJustified(base: string, commit: int, candidates: seq<Evidence>, tag: string)
    requires IsBase(base) && CheckPromotion(StableTag(base), commit, candidates) == Promoted(tag)
    ensures Justified(base, commit, candidates, tag)
  {
    var cs := CandidatesOf(base, TagsOf(candidates));
    CandidatesRight(base, TagsOf(candidates));
    assert cs[0] in cs && tag == cs[0].tag;
    var t :| t in TagsOf(candidates) && IsCandidateOf(base, t) && cs[0] == Classify(t).value;
    CandidateIsTag(t);
    CandidateReadsBack(base, cs[0].channel.rc);
    EvidenceIsFor(candidates, tag);
    var e := EvidenceFor(candidates, tag).value;
    NewestIsNewest(e.runs, tag, commit);
  }
}