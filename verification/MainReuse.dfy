/** scripts/ci/reuse-probe.ts and scripts/ci/reuse.ts: when the result of main CI may
    stand in for a full verification. */
module MainReuse {
  import opened Basics
  import opened Decimals

  datatype Run = Run(
    id: nat, attempt: nat, headSha: string, headBranch: Option<string>, event: string, path: string,
    status: string, conclusion: Option<string>, created: int)

  datatype Verification = Verification(
    version: int, sha: string, repository: string, runId: string, attempt: string, full: bool,
    expected: seq<string>, results: map<string, string>)

  const FULL_JOBS := [
    "detect", "lint", "typecheck", "ramp-gate-matrix", "test", "test-api", "test-api-merge", "test-web",
    "test-web-merge", "test-web-browser", "test-web-node-current", "test-mta", "docker-build", "sdk-java",
    "desktop-spa"]

  const WAIT_MS := 35 * 60 * 1000
  const NO_RUN_MS := 90000
  const DAY_MS := 24 * 60 * 60 * 1000

  // ----- evidence -----------------------------------------------------------

  /** `assertJobResults`: whether it passes. */
  predicate JobsSucceeded(expected: seq<string>, results: map<string, string>) {
    && "detect" in expected && Distinct(expected)
    && (forall job | job in expected :: job in results && results[job] == "success")
    && forall job | job in results && job !in expected :: results[job] == "skipped"
  }

  /** `assertVerification`: whether it passes. */
  predicate Verified(evidence: Verification, run: Run, repo: string) {
    && evidence.version == 1 && evidence.full && evidence.sha == run.headSha && evidence.repository == repo
    && evidence.runId == Decimal(run.id) && evidence.attempt == Decimal(run.attempt)
    && |evidence.expected| == |FULL_JOBS|
    && (forall job | job in FULL_JOBS :: job in evidence.expected)
    && JobsSucceeded(evidence.expected, evidence.results)
  }

  /** A list without repeats is as long as its set, and the same multiset. */
  lemma {:induction false} DistinctIsSet(xs: seq<string>)
    requires Distinct(xs)
    ensures multiset(xs) == multiset(SetOf(xs)) && |SetOf(xs)| == |xs|
  {
    if xs != [] {
      var front, last := xs[..|xs| - 1], xs[|xs| - 1];
      DistinctIsSet(front);
      assert xs == front + [last];
      assert last !in front;
      assert SetOf(xs) == SetOf(front) + {last};
    }
  }

  /** A list without repeats that holds as many names as another, and all of them, is a
      permutation of it. */
  lemma AllOfAsMany(xs: seq<string>, ys: seq<string>)
    requires Distinct(xs) && Distinct(ys) && |xs| == |ys| && forall i | 0 <= i < |ys| :: ys[i] in xs
    ensures multiset(xs) == multiset(ys)
  {
    DistinctIsSet(xs);
    DistinctIsSet(ys);
    var extra := SetOf(xs) - SetOf(ys);
    assert SetOf(xs) == SetOf(ys) + extra;
    assert |SetOf(xs)| == |SetOf(ys)| + |extra|;
  }

  lemma FullJobsDiffer()
    ensures Distinct(FULL_JOBS)
  {
  }

  /** Evidence that passes shows every job of the full verification, each once, and each
      succeeded. */
  lemma VerifiedIsFull(evidence: Verification, run: Run, repo: string)
    requires Verified(evidence, run, repo)
    ensures multiset(evidence.expected) == multiset(FULL_JOBS)
    ensures forall job | job in FULL_JOBS :: job in evidence.results && evidence.results[job] == "success"
  {
    FullJobsDiffer();
    AllOfAsMany(evidence.expected, FULL_JOBS);
  }

  // ----- looking for main CI ------------------------------------------------

  predicate Eligible(run: Run, sha: string, now: int) {
    && run.headSha == sha && run.headBranch == Some("main") && run.event == "push"
    && run.path == ".github/workflows/test.yml" && 0 <= now - run.created <= DAY_MS
  }

  datatype Decision = Wait | Fallback | Inspect | Block

  function MainDecision(run: Option<Run>, elapsed: int): Decision {
    if run.None? then if elapsed < NO_RUN_MS then Wait else Fallback
    else if run.value.status != "completed" then if elapsed < WAIT_MS then Wait else Fallback
    else if run.value.conclusion == Some("cancelled") || run.value.conclusion == Some("skipped") then Fallback
    else if run.value.conclusion == Some("success") then Inspect
    else Block
  }

  predicate Succeeded(run: Run) { run.status == "completed" && run.conclusion == Some("success") }

  /** A completed run that neither succeeded nor was called off. */
  predicate Failed(run: Run) {
    run.status == "completed" && run.conclusion !in [Some("success"), Some("cancelled"), Some("skipped")]
  }

  /** What GitHub and the clock answer, call by call: None is a call that fails. The
      clock never goes back, and every nap takes some time. */
  datatype World = World(
    runs: nat -> Option<seq<Run>>,
    current: Option<Run>,
    evidence: Option<Verification>,
    drift: nat -> nat,
    nap: nat -> nat)

  datatype Clock = Clock(time: int, readings: nat)

  function Read(w: World, c: Clock): (r: Clock)
    ensures r.time >= c.time
  {
    Clock(c.time + w.drift(c.readings), c.readings + 1)
  }

  /** The clock after `n` readings. */
  function Reads(w: World, c: Clock, n: nat): (r: Clock)
    ensures r.time >= c.time
  {
    if n == 0 then c else Read(w, Reads(w, c, n - 1))
  }

  /** What one look saw: the runs listed, the newest that counted, and the clock before
      it, after it and when the run was judged. */
  datatype Look = Look(runs: seq<Run>, newest: Option<Run>, from: Clock, to: Clock, judged: Clock)

  /** Whether run `j` of a list counts: every run is held against a new reading. */
  predicate Counts(w: World, runs: seq<Run>, from: Clock, sha: string, j: nat)
    requires j < |runs|
  {
    Eligible(runs[j], sha, Reads(w, from, j + 1).time)
  }

  /** Whether `newest` is the youngest of the first `n` runs that counts. */
  ghost predicate IsNewest(w: World, runs: seq<Run>, from: Clock, sha: string, n: nat, newest: Option<Run>)
    requires n <= |runs|
  {
    && (newest.Some? ==> exists j :: 0 <= j < n && newest.value == runs[j] && Counts(w, runs, from, sha, j))
    && forall j | 0 <= j < n && Counts(w, runs, from, sha, j) :: newest.Some? && runs[j].id <= newest.value.id
  }

  method LookUp(w: World, runs: seq<Run>, sha: string, from: Clock) returns (newest: Option<Run>, c: Clock)
    ensures c == Reads(w, from, |runs|) && IsNewest(w, runs, from, sha, |runs|, newest)
  {
    newest, c := None, from;
    for i := 0 to |runs|
      invariant c == Reads(w, from, i) && IsNewest(w, runs, from, sha, i, newest)
    {
      c := Read(w, c);
      if Eligible(runs[i], sha, c.time) && (newest.None? || runs[i].id > newest.value.id) {
        assert Counts(w, runs, from, sha, i);
        newest := Some(runs[i]);
      }
    }
  }

  datatype Outcome = Reuse(run: Run) | FullRun | MainFailed(run: Run)

  /** A run is reused only if both looks saw it newest, it is what GitHub reports now,
      it succeeded, and its evidence is that of a full verification. */
  ghost predicate MayReuse(w: World, repo: string, looks: seq<Look>, run: Run) {
    && w.current == Some(run) && w.evidence.Some? && Verified(w.evidence.value, run, repo) && Succeeded(run)
    && |looks| >= 2 && SameRun(looks[|looks| - 1].newest, run) && SameRun(looks[|looks| - 2].newest, run)
  }

  predicate SameRun(newest: Option<Run>, run: Run) {
    newest.Some? && newest.value.id == run.id && newest.value.attempt == run.attempt && Succeeded(newest.value)
  }

  predicate SawFailure(l: Look) { l.newest.Some? && Failed(l.newest.value) }

  ghost predicate NoFailure(looks: seq<Look>) {
    forall i | 0 <= i < |looks| :: !SawFailure(looks[i])
  }

  /** What a look came to. */
  function Decided(l: Look, start: Clock): Decision {
    MainDecision(l.newest, l.judged.time - start.time)
  }

  /** When the probe looks again after the `n`th look came to waiting, if its time is not
      over then. */
  function AfterNap(w: World, l: Look, n: nat): Clock {
    Read(w, l.judged.(time := l.judged.time + 1 + w.nap(n)))
  }

  function Due(w: World, looks: seq<Look>, i: nat, start: Clock): Clock
    requires i <= |looks|
  {
    if i == 0 then Read(w, start) else AfterNap(w, looks[i - 1], i - 1)
  }

  predicate TimeIsOver(c: Clock, start: Clock) { c.time - start.time >= WAIT_MS }

  /** Whether look `i` is genuine: at what the `i`th lookup answered, with the newest run
      there, at the time it was due; the second look is taken at once. */
  ghost predicate Genuine(w: World, looks: seq<Look>, i: nat, sha: string, start: Clock)
    requires i < |looks|
  {
    var l := looks[i];
    && w.runs(i) == Some(l.runs) && IsNewest(w, l.runs, l.from, sha, |l.runs|, l.newest)
    && l.to == Reads(w, l.from, |l.runs|) && l.judged == Read(w, l.to)
    && if i > 0 && Decided(looks[i - 1], start).Inspect? then l.from == looks[i - 1].judged
       else l.from == Due(w, looks, i, start) && !TimeIsOver(l.from, start)
  }

  ghost predicate AllGenuine(w: World, looks: seq<Look>, sha: string, start: Clock) {
    forall i | 0 <= i < |looks| :: Genuine(w, looks, i, sha, start)
  }

  /** Each of the first `n` looks came to waiting. */
  ghost predicate Waited(looks: seq<Look>, n: int, start: Clock) {
    n <= |looks| && forall i | 0 <= i < n :: Decided(looks[i], start).Wait?
  }

  /** All looks so far were genuine and came to waiting. */
  ghost predicate Waiting(w: World, looks: seq<Look>, sha: string, start: Clock) {
    AllGenuine(w, looks, sha, start) && NoFailure(looks) && Waited(looks, |looks|, start)
  }

  /** ... or all but the last, which came to `d`. */
  ghost predicate Came(w: World, looks: seq<Look>, sha: string, start: Clock, d: Decision) {
    && AllGenuine(w, looks, sha, start) && looks != [] && NoFailure(looks[..|looks| - 1])
    && Waited(looks, |looks| - 1, start) && Decided(looks[|looks| - 1], start) == d
  }

  /** ... or that one found a successful run, and one more was taken with the evidence at
      hand. */
  ghost predicate Inspected(w: World, looks: seq<Look>, sha: string, start: Clock) {
    && AllGenuine(w, looks, sha, start) && |looks| >= 2 && NoFailure(looks[..|looks| - 1])
    && Waited(looks, |looks| - 2, start) && Decided(looks[|looks| - 2], start).Inspect?
    && w.evidence.Some? && w.current.Some?
  }

  /** Whether the newest run, as reported now, has failed. */
  predicate FailedSince(w: World, l: Look) {
    && l.newest.Some? && w.current.Some? && l.newest.value.id == w.current.value.id && Failed(w.current.value)
  }

  /** Why the full run is asked for: the time was over, a lookup failed, no run counted
      for reuse or was still to come, or the evidence was not there or not right. */
  ghost predicate MustRun(w: World, repo: string, looks: seq<Look>, sha: string, start: Clock) {
    || (Waiting(w, looks, sha, start) && (TimeIsOver(Due(w, looks, |looks|, start), start) || w.runs(|looks|).None?))
    || Came(w, looks, sha, start, Fallback)
    || (Came(w, looks, sha, start, Inspect) && (w.evidence.None? || w.current.None? || w.runs(|looks|).None?))
    || (Inspected(w, looks, sha, start) && !SawFailure(looks[|looks| - 1]) && !FailedSince(w, looks[|looks| - 1])
        && forall run :: !MayReuse(w, repo, looks, run))
  }

  /** Why the probe throws: the newest run has failed, at that look or by now. */
  ghost predicate MustFail(w: World, looks: seq<Look>, sha: string, start: Clock, run: Run) {
    || (Came(w, looks, sha, start, Block) && looks[|looks| - 1].newest == Some(run))
    || (Inspected(w, looks, sha, start) && Failed(run) && looks[|looks| - 1].newest.Some?
        && looks[|looks| - 1].newest.value.id == run.id
        && (looks[|looks| - 1].newest == Some(run) || w.current == Some(run)))
  }

  ghost predicate RightAfter(w: World, repo: string, looks: seq<Look>, sha: string, start: Clock, r: Outcome) {
    match r
    case Reuse(run) => Inspected(w, looks, sha, start) && MayReuse(w, repo, looks, run)
    case FullRun => MustRun(w, repo, looks, sha, start)
    case MainFailed(run) => MustFail(w, looks, sha, start, run)
  }

  /** Whether the outcome is right after the looks that are taken. */
  ghost predicate Explained(w: World, repo: string, sha: string, start: Clock, r: Outcome) {
    exists looks :: RightAfter(w, repo, looks, sha, start, r)
  }

  /** One look more leaves those before it genuine, and waited. */
  lemma OneMoreLook(w: World, looks: seq<Look>, l: Look, sha: string, start: Clock, n: int)
    requires AllGenuine(w, looks, sha, start) && Waited(looks, n, start)
    requires Genuine(w, looks + [l], |looks|, sha, start)
    ensures AllGenuine(w, looks + [l], sha, start) && Waited(looks + [l], n, start)
    ensures (looks + [l])[..|looks|] == looks && (looks + [l])[|looks|] == l
  {
    var all := looks + [l];
    forall i | 0 <= i < |all|
      ensures Genuine(w, all, i, sha, start)
    {
      if i < |looks| {
        assert Genuine(w, looks, i, sha, start);
      }
    }
  }

  lemma FirstLook(w: World, looks: seq<Look>, l: Look, sha: string, start: Clock)
    requires Waiting(w, looks, sha, start) && w.runs(|looks|) == Some(l.runs)
    requires l.from == Due(w, looks, |looks|, start) && !TimeIsOver(l.from, start)
    requires l.to == Reads(w, l.from, |l.runs|) && l.judged == Read(w, l.to)
    requires IsNewest(w, l.runs, l.from, sha, |l.runs|, l.newest)
    ensures Came(w, looks + [l], sha, start, Decided(l, start))
  {
    if looks != [] {
      assert Decided(looks[|looks| - 1], start).Wait?;
    }
    assert Genuine(w, looks + [l], |looks|, sha, start);
    OneMoreLook(w, looks, l, sha, start, |looks|);
  }

  lemma StillWaiting(w: World, looks: seq<Look>, sha: string, start: Clock)
    requires Came(w, looks, sha, start, Wait)
    ensures Waiting(w, looks, sha, start)
  {
    forall i | 0 <= i < |looks|
      ensures !SawFailure(looks[i]) && Decided(looks[i], start).Wait?
    {
      if i < |looks| - 1 {
        assert looks[..|looks| - 1][i] == looks[i];
      }
    }
  }

  lemma SecondLook(w: World, looks: seq<Look>, l: Look, sha: string, start: Clock)
    requires Came(w, looks, sha, start, Inspect) && w.runs(|looks|) == Some(l.runs)
    requires w.evidence.Some? && w.current.Some? && l.from == looks[|looks| - 1].judged
    requires l.to == Reads(w, l.from, |l.runs|) && l.judged == Read(w, l.to)
    requires IsNewest(w, l.runs, l.from, sha, |l.runs|, l.newest)
    ensures Inspected(w, looks + [l], sha, start)
  {
    assert Genuine(w, looks + [l], |looks|, sha, start);
    OneMoreLook(w, looks, l, sha, start, |looks| - 1);
    forall i | 0 <= i < |looks|
      ensures !SawFailure(looks[i])
    {
      if i < |looks| - 1 {
        assert looks[..|looks| - 1][i] == looks[i];
      }
    }
  }

  method ProbeMainCI(w: World, repo: string, sha: string, start: Clock) returns (r: Outcome)
    ensures Explained(w, repo, sha, start, r)
  {
    ghost var looks := [];
    var lookups := 0;
    var c := Read(w, start);
    while c.time - start.time < WAIT_MS
      invariant Waiting(w, looks, sha, start) && lookups == |looks| && c == Due(w, looks, |looks|, start)
      decreases WAIT_MS - (c.time - start.time)
    {
      var listed := w.runs(lookups);
      if listed.None? {
        assert RightAfter(w, repo, looks, sha, start, FullRun);
        return FullRun;
      }
      var run, after := LookUp(w, listed.value, sha, c);
      ghost var l := Look(listed.value, run, c, after, Read(w, after));
      c := Read(w, after);
      FirstLook(w, looks, l, sha, start);
      looks := looks + [l];
      lookups := lookups + 1;
      match MainDecision(run, c.time - start.time)
      case Block =>
        assert RightAfter(w, repo, looks, sha, start, MainFailed(run.value));
        return MainFailed(run.value);
      case Fallback =>
        assert RightAfter(w, repo, looks, sha, start, FullRun);
        return FullRun;
      case Inspect =>
        r := InspectRun(w, repo, sha, run.value, lookups, c, start, looks);
        return;
      case Wait =>
        StillWaiting(w, looks, sha, start);
        c := Read(w, c.(time := c.time + 1 + w.nap(lookups - 1)));
    }
    r := FullRun;
    assert RightAfter(w, repo, looks, sha, start, r);
  }

  /** The evidence of a successful run, and a second look. */
  method InspectRun(
    w: World, repo: string, sha: string, run: Run, lookups: nat, c0: Clock, start: Clock, ghost looks: seq<Look>)
    returns (r: Outcome)
    requires Came(w, looks, sha, start, Inspect) && lookups == |looks|
    requires looks[|looks| - 1].newest == Some(run) && looks[|looks| - 1].judged == c0
    ensures Explained(w, repo, sha, start, r)
  {
    var listed := w.runs(lookups);
    if w.evidence.None? || w.current.None? || listed.None? {
      assert RightAfter(w, repo, looks, sha, start, FullRun);
      return FullRun;
    }
    var latest, after := LookUp(w, listed.value, sha, c0);
    var c := Read(w, after);
    ghost var l := Look(listed.value, latest, c0, after, c);
    SecondLook(w, looks, l, sha, start);
    r := Compare(w.evidence.value, repo, run, w.current.value, latest, c.time - start.time);
    ComparedRightly(w, repo, looks + [l], sha, start, run, r, c.time - start.time);
  }

  /** What the second look and the evidence come to. */
  function Compare(
    evidence: Verification, repo: string, run: Run, current: Run, latest: Option<Run>, elapsed: int): Outcome
  {
    if MainDecision(latest, elapsed).Block? then MainFailed(latest.value)
    else if latest.Some? && latest.value.id == current.id && MainDecision(Some(current), elapsed).Block?
    then MainFailed(current)
    else if latest.None? || latest.value.id != run.id || latest.value.attempt != run.attempt || !Succeeded(latest.value)
      || current.id != run.id || current.attempt != run.attempt || !Succeeded(current)
    then FullRun
    else if Verified(evidence, current, repo) then Reuse(current)
    else FullRun
  }

  lemma ComparedRightly(
    w: World, repo: string, looks: seq<Look>, sha: string, start: Clock, run: Run, r: Outcome, elapsed: int)
    requires Inspected(w, looks, sha, start) && looks[|looks| - 2].newest == Some(run) && Succeeded(run)
    requires r == Compare(w.evidence.value, repo, run, w.current.value, looks[|looks| - 1].newest, elapsed)
    ensures RightAfter(w, repo, looks, sha, start, r)
  {
  }
}
