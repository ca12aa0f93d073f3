/** scripts/release.ts and scripts/release-promote.ts: what every sequence of cut
    candidates and promotions keeps. */
module ReleaseLifecycle {
  import opened Basics
  import opened Decimals
  import opened ReleaseTags

  /** The repository: the version its package.json holds, the commit at the tip, the
      tags with their commits, and the version each commit holds. */
  datatype State = State(
    version: string,
    head: int,
    tags: seq<string>,
    commitOf: map<string, int>,
    prepared: map<int, string>,
    next: int)

  datatype Kind = Major | Minor | Patch

  datatype Request = NextCandidate | Bump(kind: Kind) | Named(text: string)

  /** What GitHub says of a candidate's tag. */
  datatype Github = Github(release: Option<Release>, runs: seq<Run>)

  type Answers = string -> Github

  /** Someone lands a commit, cuts a candidate, or promotes one. */
  datatype Step = Land | Cut(request: Request) | Promote(tag: string, github: Answers)

  function Bumped(version: string, kind: Kind): string {
    match ReadBase(version)
    case None => version
    case Some((n, _)) =>
      match kind
      case Major => Decimal(n.major + 1) + ".0.0"
      case Minor => Decimal(n.major) + "." + Decimal(n.minor + 1) + ".0"
      case Patch => Decimal(n.major) + "." + Decimal(n.minor) + "." + Decimal(n.patch + 1)
  }

  predicate Released(s: State, version: string) { StableTag(version) in s.tags }

  /** The version a request prepares. */
  function Requested(s: State, request: Request): Option<string> {
    match request
    case NextCandidate => if Released(s, s.version) then None else Some(s.version)
    case Bump(kind) => Some(Bumped(s.version, kind))
    case Named(text) =>
      var bare := if text != "" && text[0] == 'v' then text[1..] else text;
      var parsed := Classify("v" + bare);
      if parsed.None? || parsed.value.channel.Prerelease? then None
      else if parsed.value.channel.Candidate? && parsed.value.tag != NextCandidateTag(parsed.value.base, s.tags)
      then None
      else Some(parsed.value.base)
  }

  /** The preflight of a cut. */
  predicate MayCut(s: State, version: string) {
    var tag, newest := NextCandidateTag(version, s.tags), CandidatesOf(version, s.tags);
    && !Released(s, version)
    && (version != s.version ==> Released(s, s.version))
    && tag !in s.tags
    && (newest != [] && newest[0].tag in s.commitOf ==> s.commitOf[newest[0].tag] != s.head)
  }

  function EvidenceOf(s: State, base: string, github: Answers): (r: seq<Evidence>)
    ensures |r| == |CandidatesOf(base, s.tags)|
    ensures forall i | 0 <= i < |r| :: r[i].tag == CandidatesOf(base, s.tags)[i].tag
    ensures forall i | 0 <= i < |r| && r[i].tag in s.commitOf :: r[i].commit == s.commitOf[r[i].tag]
  {
    var cs := CandidatesOf(base, s.tags);
    seq(|cs|, i requires 0 <= i < |cs| =>
      Evidence(
        cs[i].tag, if cs[i].tag in s.commitOf then s.commitOf[cs[i].tag] else -1,
        github(cs[i].tag).release, github(cs[i].tag).runs))
  }

  /** The checks before a stable tag is placed. */
  predicate MayPromote(s: State, tag: string, github: Answers) {
    var parsed := Classify(tag);
    && parsed.Some? && parsed.value.channel.Candidate?
    && StableTag(parsed.value.base) !in s.tags && tag in s.tags && tag in s.commitOf
    && s.commitOf[tag] in s.prepared && s.prepared[s.commitOf[tag]] == parsed.value.base
    && CheckPromotion(StableTag(parsed.value.base), s.commitOf[tag], EvidenceOf(s, parsed.value.base, github)) ==
       Promoted(tag)
  }

  /** Numbers stay where JavaScript counts exactly. */
  predicate Countable(s: State, version: string) {
    IsBase(version) && Top(version, s.tags) < MAX_SAFE
  }

  predicate Enabled(s: State, step: Step) {
    match step
    case Land => true
    case Cut(request) =>
      var version := Requested(s, request);
      version.Some? && Countable(s, version.value) && MayCut(s, version.value)
    case Promote(tag, github) => MayPromote(s, tag, github)
  }

  function Commit(s: State, version: string): State {
    s.(version := version, head := s.next, prepared := s.prepared[s.next := version], next := s.next + 1)
  }

  function Tagged(s: State, tag: string, commit: int): State {
    s.(tags := s.tags + [tag], commitOf := s.commitOf[tag := commit])
  }

  function Apply(s: State, step: Step): State
    requires Enabled(s, step)
  {
    match step
    case Land => Commit(s, s.version)
    case Cut(request) =>
      var version := Requested(s, request).value;
      Tagged(Commit(s, version), NextCandidateTag(version, s.tags), s.next)
    case Promote(tag, _) => Tagged(s, StableTag(Classify(tag).value.base), s.commitOf[tag])
  }

  predicate Follows(s: State, steps: seq<Step>)
    decreases |steps|
  {
    steps == [] || (Enabled(s, steps[0]) && Follows(Apply(s, steps[0]), steps[1..]))
  }

  function After(s: State, steps: seq<Step>): State
    requires Follows(s, steps)
    decreases |steps|
  {
    if steps == [] then s else After(Apply(s, steps[0]), steps[1..])
  }

  /** At the start the version at the tip is released and there is no candidate. */
  ghost predicate Start(s: State) {
    && IsBase(s.version) && Released(s, s.version)
    && (forall t | t in s.tags :: t in s.commitOf && s.commitOf[t] < s.next)
    && (forall c | c in s.prepared :: c < s.next)
    && forall w | IsBase(w) :: Top(w, s.tags) == 0
  }

  // ----- the invariant ------------------------------------------------------

  ghost predicate VersionOk(s: State, w: string) {
    && (forall n | 1 <= n <= Top(w, s.tags) :: CandidateTag(w, n) in s.tags)
    && (Top(w, s.tags) > 0 ==> w == s.version || Released(s, w))
    && (Top(w, s.tags) > 0 ==> NewestOk(s, w))
  }

  /** The newest candidate is on a commit of its version, and so is the release. */
  ghost predicate NewestOk(s: State, w: string) {
    var newest := CandidateTag(w, Top(w, s.tags));
    && newest in s.commitOf && s.commitOf[newest] in s.prepared && s.prepared[s.commitOf[newest]] == w
    && (Released(s, w) ==> StableTag(w) in s.commitOf && s.commitOf[StableTag(w)] == s.commitOf[newest])
  }

  ghost predicate Inv(s: State) {
    && IsBase(s.version)
    && (forall t | t in s.tags :: t in s.commitOf && s.commitOf[t] < s.next)
    && (forall c | c in s.prepared :: c < s.next)
    && forall w | IsBase(w) :: VersionOk(s, w)
  }

  lemma StartInv(s: State)
    requires Start(s)
    ensures Inv(s)
  {
  }

  // ----- adding a tag -------------------------------------------------------

  /** A tag of another version, or a stable one, leaves a version's top alone. */
  lemma TopSame(w: string, tags: seq<string>, tag: string)
    requires !IsCandidateOf(w, tag)
    ensures Top(w, tags + [tag]) == Top(w, tags)
  {
    CandidatesAdded(w, tags, tag);
  }

  /** Candidate tags of different versions, and stable tags, are different tags. */
  lemma StableIsNoCandidate(base: string, w: string)
    requires IsBase(base)
    ensures !IsCandidateOf(w, StableTag(base))
  {
  }

  lemma CandidateOfOne(base: string, n: nat, w: string)
    requires IsBase(base) && 1 <= n <= MAX_SAFE && IsBase(w)
    ensures CandidateTag(base, n) != StableTag(w)
    ensures w != base ==> !IsCandidateOf(w, CandidateTag(base, n))
  {
    CandidateReadsBack(base, n);
    StableReads(w);
  }

  lemma StableReads(w: string)
    requires IsBase(w)
    ensures Classify(StableTag(w)) == Some(ReleaseTag(StableTag(w), w, Stable))
  {
  }

  lemma StablesDiffer(a: string, b: string)
    requires StableTag(a) == StableTag(b)
    ensures a == b
  {
    assert StableTag(a)[1..] == a && StableTag(b)[1..] == b;
  }

  /** The next candidate becomes the top. */
  lemma TopNext(base: string, tags: seq<string>)
    requires IsBase(base) && Top(base, tags) < MAX_SAFE
    ensures Top(base, tags + [NextCandidateTag(base, tags)]) == Top(base, tags) + 1
  {
    CandidateReadsBack(base, Top(base, tags) + 1);
    TopAdded(base, tags, NextCandidateTag(base, tags));
  }

  // ----- every step keeps it ------------------------------------------------

  /** A version whose tags and commits a step does not touch. */
  lemma Untouched(s: State, s': State, w: string)
    requires Inv(s) && IsBase(w) && Top(w, s'.tags) == Top(w, s.tags) && (Released(s', w) <==> Released(s, w))
    requires forall t | t in s.tags :: t in s'.tags && t in s'.commitOf && s'.commitOf[t] == s.commitOf[t]
    requires forall c | c in s.prepared :: c in s'.prepared && s'.prepared[c] == s.prepared[c]
    requires w == s.version ==> w == s'.version || Released(s, w)
    ensures VersionOk(s', w)
  {
    assert VersionOk(s, w);
    forall n | 1 <= n <= Top(w, s'.tags) ensures CandidateTag(w, n) in s'.tags {
    }
    if Top(w, s.tags) > 0 {
      assert CandidateTag(w, Top(w, s.tags)) in s.tags;
    }
  }

  lemma LandKeeps(s: State)
    requires Inv(s)
    ensures Inv(Apply(s, Land))
  {
    forall w | IsBase(w) ensures VersionOk(Apply(s, Land), w) {
      Untouched(s, Apply(s, Land), w);
    }
  }

  /** The candidates of the version one is cut for. */
  lemma CutNumbered(s: State, version: string, n: nat)
    requires Inv(s) && Countable(s, version) && 1 <= n <= Top(version, s.tags) + 1
    ensures CandidateTag(version, n) in s.tags + [NextCandidateTag(version, s.tags)]
  {
    assert VersionOk(s, version);
    if n <= Top(version, s.tags) {
      assert CandidateTag(version, n) in s.tags;
    } else {
      assert CandidateTag(version, n) == NextCandidateTag(version, s.tags);
    }
  }

  lemma CutVersion(s: State, version: string)
    requires Inv(s) && Countable(s, version) && MayCut(s, version)
    ensures var s' := Tagged(Commit(s, version), NextCandidateTag(version, s.tags), s.next);
            VersionOk(s', version)
  {
    var tag := NextCandidateTag(version, s.tags);
    var s' := Tagged(Commit(s, version), tag, s.next);
    TopNext(version, s.tags);
    forall n | 1 <= n <= Top(version, s'.tags) ensures CandidateTag(version, n) in s'.tags {
      CutNumbered(s, version, n);
    }
    CandidateOfOne(version, Top(version, s.tags) + 1, version);
    CutNewest(s, version, tag);
  }

  lemma CutNewest(s: State, version: string, tag: string)
    requires !Released(s, version) && tag != StableTag(version)
    requires tag == CandidateTag(version, Top(version, s.tags + [tag]))
    ensures NewestOk(Tagged(Commit(s, version), tag, s.next), version)
  {
    var s' := Tagged(Commit(s, version), tag, s.next);
    assert s'.tags == s.tags + [tag];
    assert !Released(s', version);
  }

  lemma CutOther(s: State, version: string, w: string)
    requires Inv(s) && Countable(s, version) && MayCut(s, version) && IsBase(w) && w != version
    ensures VersionOk(Tagged(Commit(s, version), NextCandidateTag(version, s.tags), s.next), w)
  {
    var tag := NextCandidateTag(version, s.tags);
    CandidateOfOne(version, Top(version, s.tags) + 1, w);
    TopSame(w, s.tags, tag);
    Untouched(s, Tagged(Commit(s, version), tag, s.next), w);
  }

  lemma CutKeeps(s: State, request: Request)
    requires Inv(s) && Enabled(s, Cut(request))
    ensures Inv(Apply(s, Cut(request)))
  {
    var version := Requested(s, request).value;
    forall w | IsBase(w) ensures VersionOk(Apply(s, Cut(request)), w) {
      if w == version {
        CutVersion(s, version);
      } else {
        CutOther(s, version, w);
      }
    }
  }

  /** The evidence shows the same newest candidate as the tags. */
  lemma EvidenceTop(s: State, base: string, github: Answers)
    requires IsBase(base)
    ensures Top(base, TagsOf(EvidenceOf(s, base, github))) == Top(base, s.tags)
  {
    var shown := TagsOf(EvidenceOf(s, base, github));
    if Top(base, s.tags) > 0 {
      TopIsThere(base, s.tags);
      FirstShown(s, base, github);
      NoneAbove(base, shown, Top(base, s.tags));
    }
    if Top(base, shown) > 0 {
      TopIsThere(base, shown);
      ShownIsTag(s, base, github, CandidateTag(base, Top(base, shown)));
      NoneAbove(base, s.tags, Top(base, shown));
    }
  }

  lemma ShownIsTag(s: State, base: string, github: Answers, t: string)
    requires t in TagsOf(EvidenceOf(s, base, github))
    ensures t in s.tags
  {
    var cs := CandidatesOf(base, s.tags);
    CandidatesRight(base, s.tags);
    var i :| 0 <= i < |cs| && t == cs[i].tag;
    assert cs[i] in cs;
  }

  lemma FirstShown(s: State, base: string, github: Answers)
    requires CandidatesOf(base, s.tags) != []
    ensures CandidateTag(base, Top(base, s.tags)) in TagsOf(EvidenceOf(s, base, github))
    ensures Top(base, s.tags) > 0
  {
    var cs := CandidatesOf(base, s.tags);
    CandidatesRight(base, s.tags);
    assert cs[0] in cs;
    var t :| t in s.tags && IsCandidateOf(base, t) && cs[0] == Classify(t).value;
    CandidateIsTag(t);
    assert TagsOf(EvidenceOf(s, base, github))[0] == cs[0].tag;
  }

  /** What is promoted is the newest candidate of its version. */
  lemma PromotesNewest(s: State, tag: string, github: Answers)
    requires MayPromote(s, tag, github)
    ensures var base := Classify(tag).value.base;
            IsBase(base) && Top(base, s.tags) > 0 && tag == CandidateTag(base, Top(base, s.tags))
  {
    var base := Classify(tag).value.base;
    CandidateIsTag(tag);
    PromotionIsJustified(base, s.commitOf[tag], EvidenceOf(s, base, github), tag);
    EvidenceTop(s, base, github);
  }

  lemma PromoteVersion(s: State, base: string)
    requires Inv(s) && IsBase(base) && Top(base, s.tags) > 0 && !Released(s, base)
    ensures var tag := CandidateTag(base, Top(base, s.tags));
            tag in s.commitOf && VersionOk(Tagged(s, StableTag(base), s.commitOf[tag]), base)
  {
    assert VersionOk(s, base);
    var tag := CandidateTag(base, Top(base, s.tags));
    var s' := Tagged(s, StableTag(base), s.commitOf[tag]);
    StableIsNoCandidate(base, base);
    TopSame(base, s.tags, StableTag(base));
    assert tag in s.tags;
    forall n | 1 <= n <= Top(base, s'.tags) ensures CandidateTag(base, n) in s'.tags {
      assert CandidateTag(base, n) in s.tags;
    }
  }

  lemma PromoteOther(s: State, base: string, commit: int, w: string)
    requires Inv(s) && IsBase(base) && !Released(s, base) && IsBase(w) && w != base
    ensures VersionOk(Tagged(s, StableTag(base), commit), w)
  {
    StableIsNoCandidate(base, w);
    TopSame(w, s.tags, StableTag(base));
    if StableTag(w) == StableTag(base) {
      StablesDiffer(w, base);
    }
    Untouched(s, Tagged(s, StableTag(base), commit), w);
  }

  lemma PromoteKeeps(s: State, tag: string, github: Answers)
    requires Inv(s) && MayPromote(s, tag, github)
    ensures Inv(Apply(s, Promote(tag, github)))
  {
    PromotesNewest(s, tag, github);
    var base := Classify(tag).value.base;
    forall w | IsBase(w) ensures VersionOk(Apply(s, Promote(tag, github)), w) {
      if w == base {
        PromoteVersion(s, base);
      } else {
        PromoteOther(s, base, s.commitOf[tag], w);
      }
    }
  }

  lemma StepKeeps(s: State, step: Step)
    requires Inv(s) && Enabled(s, step)
    ensures Inv(Apply(s, step))
  {
    match step
    case Land => LandKeeps(s);
    case Cut(request) => CutKeeps(s, request);
    case Promote(tag, github) => PromoteKeeps(s, tag, github);
  }

  lemma {:induction false} RunKeeps(s: State, steps: seq<Step>)
    requires Inv(s) && Follows(s, steps)
    ensures Inv(After(s, steps))
    decreases |steps|
  {
    if steps != [] {
      StepKeeps(s, steps[0]);
      RunKeeps(Apply(s, steps[0]), steps[1..]);
    }
  }

  // ----- what holds after every run -----------------------------------------

  /** After any cuts and promotions, the candidates of every version are numbered from
      1 without a gap, and the next one's tag is new and read back as its number. */
  lemma CandidatesAreNumbered(start: State, steps: seq<Step>, w: string, n: nat)
    requires Start(start) && Follows(start, steps) && IsBase(w) && 1 <= n <= MAX_SAFE
    ensures var tags := After(start, steps).tags;
            (CandidateTag(w, n) in tags <==> n <= Top(w, tags)) &&
              (Top(w, tags) < MAX_SAFE ==> NextCandidateTag(w, tags) !in tags)
  {
    StartInv(start);
    RunKeeps(start, steps);
    var s := After(start, steps);
    assert VersionOk(s, w);
    if CandidateTag(w, n) in s.tags {
      NoneAbove(w, s.tags, n);
    }
    if Top(w, s.tags) < MAX_SAFE {
      NextIsNew(w, s.tags);
    }
  }

  /** Every version with candidates is the prepared one or released, and every release
      with candidates is on the commit of its newest candidate, which holds that
      version. */
  lemma ReleasesAreNewest(start: State, steps: seq<Step>, w: string)
    requires Start(start) && Follows(start, steps) && IsBase(w) && Top(w, After(start, steps).tags) > 0
    ensures var s := After(start, steps);
            && (w == s.version || Released(s, w)) && NewestOk(s, w)
  {
    StartInv(start);
    RunKeeps(start, steps);
    assert VersionOk(After(start, steps), w);
  }

  /** A release stays where it is, and no candidate of its version is ever added. */
  lemma {:induction false} ReleasesStay(s: State, steps: seq<Step>, w: string)
    requires Inv(s) && Follows(s, steps) && IsBase(w) && Released(s, w)
    ensures var s' := After(s, steps);
            && Released(s', w) && Top(w, s'.tags) == Top(w, s.tags)
            && StableTag(w) in s'.commitOf && s'.commitOf[StableTag(w)] == s.commitOf[StableTag(w)]
    decreases |steps|
  {
    if steps != [] {
      var s' := Apply(s, steps[0]);
      StepKeeps(s, steps[0]);
      OneStepStays(s, steps[0], w);
      ReleasesStay(s', steps[1..], w);
    }
  }

  /** Adding a new tag that is no candidate of `w` changes nothing for `w`. */
  lemma TagStays(s: State, tag: string, commit: int, w: string)
    requires Inv(s) && Released(s, w) && tag !in s.tags && !IsCandidateOf(w, tag)
    ensures var s' := Tagged(s, tag, commit);
            && Released(s', w) && Top(w, s'.tags) == Top(w, s.tags)
            && StableTag(w) in s.commitOf && StableTag(w) in s'.commitOf &&
               s'.commitOf[StableTag(w)] == s.commitOf[StableTag(w)]
  {
    TopSame(w, s.tags, tag);
  }

  lemma CutStays(s: State, version: string, w: string)
    requires Inv(s) && Countable(s, version) && MayCut(s, version) && IsBase(w) && Released(s, w)
    ensures !IsCandidateOf(w, NextCandidateTag(version, s.tags))
  {
    CandidateOfOne(version, Top(version, s.tags) + 1, w);
  }

  lemma OneStepStays(s: State, step: Step, w: string)
    requires Inv(s) && Enabled(s, step) && IsBase(w) && Released(s, w)
    ensures var s' := Apply(s, step);
            && Released(s', w) && Top(w, s'.tags) == Top(w, s.tags)
            && StableTag(w) in s.commitOf && StableTag(w) in s'.commitOf &&
               s'.commitOf[StableTag(w)] == s.commitOf[StableTag(w)]
  {
    match step
    case Land =>
    case Cut(request) =>
      var version := Requested(s, request).value;
      CutStays(s, version, w);
      TagStays(s, NextCandidateTag(version, s.tags), s.next, w);
    case Promote(tag, github) =>
      var base := Classify(tag).value.base;
      CandidateIsTag(tag);
      StableIsNoCandidate(base, w);
      TagStays(s, StableTag(base), s.commitOf[tag], w);
  }

  /** After any run, a release made so far keeps its commit and its newest candidate in
      every run that follows. */
  lemma ReleasesAreForever(start: State, steps: seq<Step>, more: seq<Step>, w: string)
    requires Start(start) && Follows(start, steps) && Follows(After(start, steps), more)
    requires IsBase(w) && Released(After(start, steps), w)
    ensures var s, s' := After(start, steps), After(After(start, steps), more);
            && StableTag(w) in s.commitOf && StableTag(w) in s'.commitOf
            && s'.commitOf[StableTag(w)] == s.commitOf[StableTag(w)] && Top(w, s'.tags) == Top(w, s.tags)
  {
    StartInv(start);
    RunKeeps(start, steps);
    ReleasesStay(After(start, steps), more, w);
  }
}