/** The `setup-running` marker of scripts/setup-worktree.ts: any number of setup
    runs race for one file, crash anywhere, and take over what the dead left.
    Every step is one file operation (or one liveness check) of one run. */
module SetupMarkers {
  import opened Basics
  import opened Decimals

  // ----- contents: tokens and the process they name -------------------------

  /** `Number.parseInt(content, 10)` of a trimmed content: the number it starts
      with, None for NaN. */
  function ParsePid(content: string): Option<int> {
    var signed := content != "" && (content[0] == '-' || content[0] == '+');
    var body := if signed then content[1..] else content;
    if body == "" || !IsDigit(body[0]) then None
    else
      var value: int := Digits(body, 0);
      Some(if signed && content[0] == '-' then -value else value)
  }

  function Token(pid: nat, suffix: string): string {
    Decimal(pid) + "-" + suffix
  }

  /** A token names the process it was made for. */
  lemma TokenNamesPid(pid: nat, suffix: string)
    ensures ParsePid(Token(pid, suffix)) == Some(pid)
  {
    DigitsOfDecimal(pid, 0, "-" + suffix);
    assert Token(pid, suffix) == Decimal(pid) + ("-" + suffix);
    assert Token(pid, suffix)[0] == Decimal(pid)[0];
    assert Decimal(pid)[0] in Decimal(pid);
  }

  predicate IsWordChar(c: char) {
    'A' <= c <= 'Z' || 'a' <= c <= 'z' || IsDigit(c) || c == '-'
  }

  function Sanitized(s: string): (r: string)
    ensures |r| == |s|
  {
    if s == "" then "" else [if IsWordChar(s[0]) then s[0] else '_'] + Sanitized(s[1..])
  }

  /** The name of the claim on a stale content. Different contents may share one. */
  function ClaimId(seen: string): string {
    var id := Sanitized(seen);
    if id == "" then "empty" else if |id| > 64 then id[..64] else id
  }

  // ----- the state ----------------------------------------------------------

  datatype Outcome = Done | Failed | AlreadyRunning | Blocked

  /** Where a run is. Each phase names the operation it is about to do. */
  datatype Phase =
    | TryLink(attempt: nat)
    | ReadMarker(attempt: nat)
    | CheckHolder(attempt: nat, seen: string)
    | TryClaim(attempt: nat, seen: string)
    | ReadClaim(attempt: nat, seen: string)
    | CheckClaimer(claimer: string)
    | Recheck(attempt: nat, seen: string)
    | Replace(attempt: nat, seen: string)
    | DropClaim(attempt: nat, seen: string, won: bool)
    | ClearDone
    | ClearFailed
    | Working
    | Report(ok: bool)
    | ReleaseRead(ok: bool)
    | ReleaseRemove(ok: bool)
    | AbandonRead
    | AbandonReport
    | AbandonReleaseRead
    | AbandonRemove
    | Ended(outcome: Outcome)

  datatype Run = Run(pid: int, alive: bool, phase: Phase)

  /** What happened to the marker, in order. */
  datatype Event =
    | Took(who: string)
    | Replaced(prior: Option<string>, who: string)
    | Removed(prior: Option<string>, who: string)

  /** `runs` is keyed by token; `known` holds every token and content there ever
      was; `others` are live processes that are no setup run. */
  datatype State = State(
    marker: Option<string>,
    claims: map<string, string>,
    done: bool,
    failed: bool,
    runs: map<string, Run>,
    known: set<string>,
    others: set<int>,
    log: seq<Event>)

  datatype Step =
    | Start(pid: nat, suffix: string)
    | Act(token: string)
    | StepsOver(token: string, ok: bool)       // the setup steps of a working run end
    | Interrupt(token: string)                 // a signal between steps
    | Exit(token: string)                      // a crash anywhere, or the normal end
    | Environment(others: set<int>)            // unrelated processes come and go

  const ACQUIRE_ATTEMPTS: nat := 5

  predicate LivePid(s: State, pid: int) {
    pid in s.others || exists t | t in s.runs :: s.runs[t].alive && s.runs[t].pid == pid
  }

  /** `holderIsAlive`, asked by a run with process `self`. */
  predicate HolderIsAlive(s: State, self: int, content: string) {
    match ParsePid(content)
    case None => false
    case Some(pid) => pid != self && LivePid(s, pid)
  }

  function NextAttempt(n: nat): Phase {
    if n + 1 < ACQUIRE_ATTEMPTS then TryLink(n + 1) else Ended(Blocked)
  }

  predicate Live(s: State, t: string) {
    t in s.runs && s.runs[t].alive
  }

  function Move(s: State, t: string, phase: Phase): State
    requires t in s.runs
  {
    s.(runs := s.runs[t := s.runs[t].(phase := phase)])
  }

  predicate Enabled(s: State, step: Step) {
    match step
    case Start(pid, suffix) => !LivePid(s, pid) && Token(pid, suffix) !in s.known
    case Act(t) => Live(s, t) && !s.runs[t].phase.Working? && !s.runs[t].phase.Ended?
    case StepsOver(t, ok) => Live(s, t) && s.runs[t].phase.Working?
    case Interrupt(t) => Live(s, t) && s.runs[t].phase.Working?
    case Exit(t) => Live(s, t)
    case Environment(others) => forall t | t in s.runs && s.runs[t].alive :: s.runs[t].pid !in others
  }

  function Apply(s: State, step: Step): State
    requires Enabled(s, step)
  {
    match step
    case Start(pid, suffix) =>
      var t := Token(pid, suffix);
      s.(runs := s.runs[t := Run(pid, true, TryLink(0))], known := s.known + {t})
    case Act(t) => Do(s, t)
    case StepsOver(t, ok) => Move(s, t, Report(ok))
    case Interrupt(t) => Move(s, t, AbandonRead)
    case Exit(t) => s.(runs := s.runs[t := s.runs[t].(alive := false)])
    case Environment(others) => s.(others := others)
  }

  function Take(s: State, t: string): State {
    s.(marker := Some(t), log := s.log + [Took(t)])
  }

  function Remove(s: State, t: string): State {
    s.(marker := None, log := s.log + [Removed(s.marker, t)])
  }

  predicate InAcquire(p: Phase) {
    || p.TryLink? || p.ReadMarker? || p.CheckHolder? || p.TryClaim? || p.ReadClaim? || p.CheckClaimer?
    || p.Recheck? || p.Replace? || p.DropClaim?
  }

  /** One operation of run `t`. */
  function Do(s: State, t: string): (r: State)
    requires Live(s, t) && !s.runs[t].phase.Working? && !s.runs[t].phase.Ended?
    ensures t in r.runs
  {
    if InAcquire(s.runs[t].phase) then Acquire(s, t) else Finish(s, t)
  }

  /** One operation of `acquire`. */
  function Acquire(s: State, t: string): (r: State)
    requires Live(s, t) && InAcquire(s.runs[t].phase)
    ensures t in r.runs
  {
    match s.runs[t].phase
    case TryLink(n) =>
      if s.marker == None then Move(Take(s, t), t, ClearDone) else Move(s, t, ReadMarker(n))
    case ReadMarker(n) =>
      if s.marker == None then Move(s, t, NextAttempt(n)) else Move(s, t, CheckHolder(n, s.marker.value))
    case CheckHolder(n, seen) =>
      if HolderIsAlive(s, s.runs[t].pid, seen) then Move(s, t, Ended(AlreadyRunning))
      else Move(s, t, TryClaim(n, seen))
    case TryClaim(n, seen) =>
      if ClaimId(seen) in s.claims then Move(s, t, ReadClaim(n, seen))
      else Move(s.(claims := s.claims[ClaimId(seen) := t]), t, Recheck(n, seen))
    case ReadClaim(n, seen) =>
      if ClaimId(seen) !in s.claims then Move(s, t, NextAttempt(n))
      else Move(s, t, CheckClaimer(s.claims[ClaimId(seen)]))
    case CheckClaimer(claimer) =>
      if HolderIsAlive(s, s.runs[t].pid, claimer) then Move(s, t, Ended(AlreadyRunning))
      else Move(s, t, Ended(Blocked))
    case Recheck(n, seen) =>
      if s.marker == Some(seen) then Move(s, t, Replace(n, seen)) else Move(s, t, DropClaim(n, seen, false))
    case Replace(n, seen) =>
      Move(s.(marker := Some(t), log := s.log + [Replaced(s.marker, t)]), t, DropClaim(n, seen, true))
    case DropClaim(n, seen, won) =>
      Move(s.(claims := s.claims - {ClaimId(seen)}), t, if won then ClearDone else NextAttempt(n))
  }

  /** One operation of `runSetup` after `acquire`, or of `abandonRun`. */
  function Finish(s: State, t: string): (r: State)
    requires Live(s, t) && !InAcquire(s.runs[t].phase)
    requires !s.runs[t].phase.Working? && !s.runs[t].phase.Ended?
    ensures t in r.runs
  {
    match s.runs[t].phase
    case ClearDone => Move(s.(done := false), t, ClearFailed)
    case ClearFailed => Move(s.(failed := false), t, Working)
    case Report(ok) =>
      Move(if ok then s.(done := true) else s.(failed := true), t, ReleaseRead(ok))
    case ReleaseRead(ok) =>
      if s.marker == Some(t) then Move(s, t, ReleaseRemove(ok)) else Move(s, t, Ended(Verdict(ok)))
    case ReleaseRemove(ok) => Move(Remove(s, t), t, Ended(Verdict(ok)))
    case AbandonRead =>
      if s.marker == Some(t) then Move(s, t, AbandonReport) else Move(s, t, Ended(Failed))
    case AbandonReport => Move(s.(failed := true), t, AbandonReleaseRead)
    case AbandonReleaseRead =>
      if s.marker == Some(t) then Move(s, t, AbandonRemove) else Move(s, t, Ended(Failed))
    case AbandonRemove => Move(Remove(s, t), t, Ended(Failed))
  }

  function Verdict(ok: bool): Outcome { if ok then Done else Failed }

  // ----- runs of the whole system -------------------------------------------

  /** Any leftovers may lie about at the start, except both results at once. */
  predicate Initial(s: State) {
    && s.runs == map[] && s.log == [] && !(s.done && s.failed)
    && (s.marker.Some? ==> s.marker.value in s.known)
    && (forall k | k in s.claims :: s.claims[k] in s.known)
  }

  predicate Follows(s: State, steps: seq<Step>)
    decreases |steps|
  {
    steps == [] || (Enabled(s, steps[0]) && Follows(Apply(s, steps[0]), steps[1..]))
  }

  function After(s: State, steps: seq<Step>): State
    requires Follows(s, steps)
    decreases |steps|
  {
    if steps == [] then s else After(Apply(s, steps[0]), steps[1..])
  }

  // ----- the invariant ------------------------------------------------------

  /** From `acquire` returning 'acquired' until the marker is removed. */
  predicate Holds(p: Phase) {
    || p.ClearDone? || p.ClearFailed? || p.Working? || p.Report?
    || p.ReleaseRead? || p.ReleaseRemove?
    || p.AbandonRead? || p.AbandonReport? || p.AbandonReleaseRead? || p.AbandonRemove?
    || (p.DropClaim? && p.won)
  }

  predicate Holder(s: State, t: string) {
    Live(s, t) && Holds(s.runs[t].phase)
  }

  /** Before the marker was ever its own. */
  predicate Seeks(p: Phase) {
    InAcquire(p) && (p.DropClaim? ==> !p.won)
  }

  predicate Claims(p: Phase) {
    p.Recheck? || p.Replace? || p.DropClaim?
  }

  /** No live run has, or will ever get, token `c`. */
  predicate Stale(s: State, c: string) {
    c in s.known && !Live(s, c)
  }

  ghost predicate Identities(s: State) {
    && s.runs.Keys <= s.known
    && (forall t | t in s.runs :: ParsePid(t) == Some(s.runs[t].pid))
    && (forall t, u | Live(s, t) && Live(s, u) && s.runs[t].pid == s.runs[u].pid :: t == u)
    && (s.marker.Some? ==> s.marker.value in s.known)
    && (forall k | k in s.claims :: s.claims[k] in s.known)
  }

  /** The marker names a live run exactly while that run holds it. */
  ghost predicate MarkerNamesHolder(s: State) {
    forall t | Live(s, t) :: Holder(s, t) <==> s.marker == Some(t)
  }

  ghost predicate Knowledge(s: State) {
    forall t | Live(s, t) :: Knows(s, t, s.runs[t].phase)
  }

  predicate Knows(s: State, t: string, p: Phase) {
    && (p.CheckHolder? ==> p.seen in s.known && p.seen != t)
    && (p.TryClaim? || p.ReadClaim? || p.Recheck? || p.Replace? ==> Stale(s, p.seen))
    && (Claims(p) ==> ClaimId(p.seen) in s.claims && s.claims[ClaimId(p.seen)] == t)
    && (p.Replace? ==> s.marker == Some(p.seen))
  }

  ghost predicate Results(s: State) {
    && !(s.done && s.failed)
    && (forall t | Live(s, t) :: ResultsFor(s, s.runs[t].phase))
  }

  predicate ResultsFor(s: State, p: Phase) {
    && (p.ClearFailed? ==> !s.done)
    && (p.Working? || p.Report? || p.AbandonRead? || p.AbandonReport? ==> !s.done && !s.failed)
  }

  /** The marker's past: who took it had not had it before, what was replaced was
      stale and stays gone, and nobody removed what was not its own. */
  ghost predicate History(s: State) {
    && (forall i | 0 <= i < |s.log| :: s.log[i].Removed? ==> s.log[i].prior == Some(s.log[i].who))
    && (forall i | 0 <= i < |s.log| && s.log[i].Replaced? ::
          s.log[i].prior.Some? && Stale(s, s.log[i].prior.value) && s.marker != s.log[i].prior)
    && (forall i, j | 0 <= i < j < |s.log| && s.log[i].Replaced? && s.log[j].Replaced? ::
          s.log[i].prior != s.log[j].prior)
  }

  ghost predicate Inv(s: State) {
    Identities(s) && MarkerNamesHolder(s) && Knowledge(s) && Results(s) && History(s)
  }

  /** A content that no living process stands for belongs to no live run. */
  lemma DeadHolderIsStale(s: State, t: string, seen: string)
    requires Identities(s) && Live(s, t) && seen in s.known && seen != t
    requires !HolderIsAlive(s, s.runs[t].pid, seen)
    ensures Stale(s, seen)
  {
  }

  lemma StartKeepsInv(s: State, step: Step)
    requires Inv(s) && Enabled(s, step) && step.Start?
    ensures Inv(Apply(s, step))
  {
    TokenNamesPid(step.pid, step.suffix);
    var t, s' := Token(step.pid, step.suffix), Apply(s, step);
    forall u | Live(s', u) && u != t
      ensures Live(s, u) && s'.runs[u] == s.runs[u] && Knows(s', u, s'.runs[u].phase)
    {
      assert Knows(s, u, s.runs[u].phase);
    }
    forall c | Stale(s, c)
      ensures Stale(s', c)
    {
    }
  }

  lemma ExitKeepsInv(s: State, step: Step)
    requires Inv(s) && Enabled(s, step) && (step.Exit? || step.Environment?)
    ensures Inv(Apply(s, step))
  {
    var s' := Apply(s, step);
    forall u | Live(s', u)
      ensures Live(s, u) && s'.runs[u] == s.runs[u] && Knows(s', u, s'.runs[u].phase)
    {
      assert Knows(s, u, s.runs[u].phase);
    }
  }

  /** The shape of every operation: one run moves, and nothing else about any run
      changes. */
  lemma OneRunMoves(s: State, t: string)
    requires Live(s, t) && !s.runs[t].phase.Working? && !s.runs[t].phase.Ended?
    ensures OnlyMoved(s, Do(s, t), t)
  {
    if InAcquire(s.runs[t].phase) {
      AcquireMovesOne(s, t);
    } else {
      FinishMovesOne(s, t);
    }
  }

  lemma AcquireMovesOne(s: State, t: string)
    requires Live(s, t) && InAcquire(s.runs[t].phase)
    ensures OnlyMoved(s, Acquire(s, t), t)
  {
  }

  lemma FinishMovesOne(s: State, t: string)
    requires Live(s, t) && !InAcquire(s.runs[t].phase) && !s.runs[t].phase.Working? && !s.runs[t].phase.Ended?
    ensures OnlyMoved(s, Finish(s, t), t)
  {
  }

  ghost predicate OnlyMoved(s: State, s': State, t: string)
    requires t in s.runs
  {
    && t in s'.runs
    && s'.runs == s.runs[t := s.runs[t].(phase := s'.runs[t].phase)]
    && s'.known == s.known && s'.others == s.others
  }

  /** The mover's own side of the marker. */
  lemma MoverNamed(s: State, t: string)
    requires Live(s, t) && !s.runs[t].phase.Working? && !s.runs[t].phase.Ended?
    requires Knows(s, t, s.runs[t].phase) && (Holder(s, t) <==> s.marker == Some(t))
    ensures Holds(Do(s, t).runs[t].phase) <==> Do(s, t).marker == Some(t)
  {
    if Seeks(s.runs[t].phase) {
      SeekerNamed(s, t);
    }
  }

  lemma SeekerNamed(s: State, t: string)
    requires Live(s, t) && Seeks(s.runs[t].phase) && s.marker != Some(t)
    ensures Holds(Do(s, t).runs[t].phase) <==> Do(s, t).marker == Some(t)
  {
    var p := s.runs[t].phase;
    if p.TryLink? || p.ReadMarker? || p.CheckHolder? || p.TryClaim? {
      LookerNamed(s, t);
    } else {
      ClaimerNamed(s, t);
    }
  }

  lemma NextAttemptHoldsNothing(n: nat)
    ensures !Holds(NextAttempt(n))
  {
  }

  /** Up to the claim. */
  lemma LookerNamed(s: State, t: string)
    requires Live(s, t) && s.marker != Some(t)
    requires var p := s.runs[t].phase; p.TryLink? || p.ReadMarker? || p.CheckHolder? || p.TryClaim?
    ensures Holds(Do(s, t).runs[t].phase) <==> Do(s, t).marker == Some(t)
  {
    match s.runs[t].phase
    case ReadMarker(n) => NextAttemptHoldsNothing(n);
    case _ =>
  }

  /** ... and from there on. */
  lemma ClaimerNamed(s: State, t: string)
    requires Live(s, t) && s.marker != Some(t)
    requires var p := s.runs[t].phase;
             Seeks(p) && !p.TryLink? && !p.ReadMarker? && !p.CheckHolder? && !p.TryClaim?
    ensures Holds(Do(s, t).runs[t].phase) <==> Do(s, t).marker == Some(t)
  {
    match s.runs[t].phase
    case ReadClaim(n, _) => NextAttemptHoldsNothing(n);
    case DropClaim(n, _, _) => NextAttemptHoldsNothing(n);
    case _ =>
  }

  /** The marker only ever leaves a state in which no other live run is named, and
      only ever comes to name the mover. */
  lemma MarkerMoves(s: State, t: string)
    requires Live(s, t) && !s.runs[t].phase.Working? && !s.runs[t].phase.Ended?
    requires Knows(s, t, s.runs[t].phase) && (Holder(s, t) <==> s.marker == Some(t))
    ensures Do(s, t).marker != s.marker ==>
              && (Do(s, t).marker == None || Do(s, t).marker == Some(t))
              && (s.marker == None || s.marker == Some(t) || Stale(s, s.marker.value))
    ensures Do(s, t).marker == Some(t) && s.marker != Some(t) ==> Seeks(s.runs[t].phase)
  {
  }

  lemma ClaimsMove(s: State, t: string)
    requires Live(s, t) && !s.runs[t].phase.Working? && !s.runs[t].phase.Ended?
    requires Knows(s, t, s.runs[t].phase)
    ensures forall k | k in s.claims && s.claims[k] != t :: k in Do(s, t).claims && Do(s, t).claims[k] == s.claims[k]
    ensures forall k | k in Do(s, t).claims && (k !in s.claims || s.claims[k] != t) ::
              if k in s.claims then Do(s, t).claims[k] == s.claims[k] else Do(s, t).claims[k] == t
    ensures forall k | k in Do(s, t).claims ::
              Do(s, t).claims[k] == t || (k in s.claims && Do(s, t).claims[k] == s.claims[k])
  {
  }

  lemma DoKeepsMarker(s: State, t: string)
    requires Inv(s) && Enabled(s, Act(t))
    ensures Identities(Do(s, t)) && MarkerNamesHolder(Do(s, t))
  {
    assert Holder(s, t) <==> s.marker == Some(t);
    OneRunMoves(s, t);
    MoverNamed(s, t);
    MarkerMoves(s, t);
    ClaimsMove(s, t);
    KeepsNames(s, Do(s, t), t);
  }

  lemma KeepsNames(s: State, s': State, t: string)
    requires Identities(s) && MarkerNamesHolder(s) && Live(s, t) && OnlyMoved(s, s', t)
    requires Holds(s'.runs[t].phase) <==> s'.marker == Some(t)
    requires s'.marker != s.marker ==>
               && (s'.marker == None || s'.marker == Some(t))
               && (s.marker == None || s.marker == Some(t) || Stale(s, s.marker.value))
    requires forall k | k in s'.claims :: s'.claims[k] == t || (k in s.claims && s'.claims[k] == s.claims[k])
    ensures Identities(s') && MarkerNamesHolder(s')
  {
    forall u | Live(s', u)
      ensures Holder(s', u) <==> s'.marker == Some(u)
    {
      assert Holder(s, u) <==> s.marker == Some(u);
    }
  }

  /** What the mover knows after its own operation. */
  lemma MoverKnows(s: State, t: string)
    requires Live(s, t) && !s.runs[t].phase.Working? && !s.runs[t].phase.Ended?
    requires Identities(s) && Knows(s, t, s.runs[t].phase) && (Holder(s, t) <==> s.marker == Some(t))
    ensures Knows(Do(s, t), t, Do(s, t).runs[t].phase)
  {
    var p := s.runs[t].phase;
    OneRunMoves(s, t);
    if p.ReadMarker? || p.CheckHolder? || p.TryClaim? || p.Recheck? {
      SeekerKnows(s, t);
    } else if p.Replace? {
      ReplacerKnows(s, t);
    } else {
      NothingToKnow(s, t);
    }
  }

  lemma ReplacerKnows(s: State, t: string)
    requires Live(s, t) && Knows(s, t, s.runs[t].phase) && s.runs[t].phase.Replace?
    ensures Knows(Do(s, t), t, Do(s, t).runs[t].phase)
  {
  }

  lemma NothingToKnow(s: State, t: string)
    requires Live(s, t) && !s.runs[t].phase.Working? && !s.runs[t].phase.Ended?
    requires var p := s.runs[t].phase;
             !p.ReadMarker? && !p.CheckHolder? && !p.TryClaim? && !p.Recheck? && !p.Replace?
    ensures Uninformed(Do(s, t).runs[t].phase)
  {
    match s.runs[t].phase
    case TryLink(_) =>
    case ReadClaim(n, _) => assert Uninformed(NextAttempt(n));
    case CheckClaimer(_) =>
    case DropClaim(n, _, _) => assert Uninformed(NextAttempt(n));
    case _ => FinishUninformed(s, t);
  }

  lemma FinishUninformed(s: State, t: string)
    requires Live(s, t) && !InAcquire(s.runs[t].phase)
    requires !s.runs[t].phase.Working? && !s.runs[t].phase.Ended?
    ensures Uninformed(Finish(s, t).runs[t].phase)
  {
    match s.runs[t].phase
    case ReleaseRead(_) =>
    case AbandonRead =>
    case ReleaseRemove(_) =>
    case AbandonRemove =>
    case _ =>
  }

  predicate Uninformed(q: Phase) {
    !q.CheckHolder? && !q.TryClaim? && !q.ReadClaim? && !q.Recheck? && !q.Replace? && !q.DropClaim?
  }

  lemma SeekerKnows(s: State, t: string)
    requires Live(s, t) && Identities(s) && Knows(s, t, s.runs[t].phase) && s.marker != Some(t)
    requires var p := s.runs[t].phase; p.ReadMarker? || p.CheckHolder? || p.TryClaim? || p.Recheck?
    ensures Knows(Do(s, t), t, Do(s, t).runs[t].phase)
  {
    match s.runs[t].phase
    case ReadMarker(_) =>
    case CheckHolder(_, seen) =>
      if !HolderIsAlive(s, s.runs[t].pid, seen) {
        DeadHolderIsStale(s, t, seen);
      }
    case TryClaim(_, seen) =>
    case Recheck(_, seen) =>
  }

  /** What another run knows is not touched: its claim keeps everyone else from the
      content it verified. */
  lemma OtherKnows(s: State, t: string, u: string)
    requires Inv(s) && Enabled(s, Act(t)) && Live(s, u) && u != t
    ensures Knows(Do(s, t), u, s.runs[u].phase)
  {
    OneRunMoves(s, t);
    ClaimsMove(s, t);
    assert Knows(s, t, s.runs[t].phase) && Knows(s, u, s.runs[u].phase);
    assert Holder(s, t) <==> s.marker == Some(t);
    if s.runs[u].phase.Replace? {
      MarkerStays(s, t, s.runs[u].phase.seen);
    }
  }

  lemma MarkerStays(s: State, t: string, seen: string)
    requires Live(s, t) && !s.runs[t].phase.Working? && !s.runs[t].phase.Ended?
    requires Knows(s, t, s.runs[t].phase) && (Holder(s, t) <==> s.marker == Some(t))
    requires s.marker == Some(seen) && Stale(s, seen)
    requires ClaimId(seen) in s.claims && s.claims[ClaimId(seen)] != t
    ensures Do(s, t).marker == s.marker
  {
  }

  lemma DoKeepsKnowledge(s: State, t: string)
    requires Inv(s) && Enabled(s, Act(t))
    ensures Knowledge(Do(s, t))
  {
    OneRunMoves(s, t);
    assert Holder(s, t) <==> s.marker == Some(t);
    MoverKnows(s, t);
    forall u | Live(Do(s, t), u)
      ensures Knows(Do(s, t), u, Do(s, t).runs[u].phase)
    {
      if u != t {
        OtherKnows(s, t, u);
      }
    }
  }

  lemma MoverResults(s: State, t: string)
    requires Live(s, t) && !s.runs[t].phase.Working? && !s.runs[t].phase.Ended?
    requires ResultsFor(s, s.runs[t].phase) && !(s.done && s.failed)
    ensures ResultsFor(Do(s, t), Do(s, t).runs[t].phase)
    ensures !(Do(s, t).done && Do(s, t).failed)
    ensures !Holds(s.runs[t].phase) ==> Do(s, t).done == s.done && Do(s, t).failed == s.failed
  {
    if InAcquire(s.runs[t].phase) {
      AcquireResults(s, t);
    } else {
      FinishResults(s, t);
    }
  }

  /** Nothing in `acquire` writes a result, and what it leads to does not mind one. */
  lemma AcquireResults(s: State, t: string)
    requires Live(s, t) && InAcquire(s.runs[t].phase)
    ensures var r := Acquire(s, t);
            && r.done == s.done && r.failed == s.failed
            && var p := r.runs[t].phase;
               !p.ClearFailed? && !p.Working? && !p.Report? && !p.AbandonRead? && !p.AbandonReport?
  {
    AcquireLeavesResults(s, t);
    AcquireLeadsTo(s, t);
  }

  lemma AcquireLeavesResults(s: State, t: string)
    requires Live(s, t) && InAcquire(s.runs[t].phase)
    ensures Acquire(s, t).done == s.done && Acquire(s, t).failed == s.failed
  {
  }

  lemma AcquireLeadsTo(s: State, t: string)
    requires Live(s, t) && InAcquire(s.runs[t].phase)
    ensures var p := Acquire(s, t).runs[t].phase; InAcquire(p) || p.ClearDone? || p.Ended?
  {
  }

  lemma FinishResults(s: State, t: string)
    requires Live(s, t) && !InAcquire(s.runs[t].phase) && !s.runs[t].phase.Working? && !s.runs[t].phase.Ended?
    requires ResultsFor(s, s.runs[t].phase) && !(s.done && s.failed)
    ensures var r := Finish(s, t);
            && ResultsFor(r, r.runs[t].phase) && !(r.done && r.failed)
            && (!Holds(s.runs[t].phase) ==> r.done == s.done && r.failed == s.failed)
  {
  }

  lemma DoKeepsResults(s: State, t: string)
    requires Inv(s) && Enabled(s, Act(t))
    ensures Results(Do(s, t))
  {
    OneRunMoves(s, t);
    MoverResults(s, t);
    forall u | Live(Do(s, t), u)
      ensures ResultsFor(Do(s, t), Do(s, t).runs[u].phase)
    {
      if u != t {
        assert ResultsFor(s, s.runs[u].phase);
        assert Holder(s, t) <==> s.marker == Some(t);
        assert Holder(s, u) <==> s.marker == Some(u);
      }
    }
  }

  lemma LogGrows(s: State, t: string)
    requires Live(s, t) && !s.runs[t].phase.Working? && !s.runs[t].phase.Ended?
    requires Knows(s, t, s.runs[t].phase) && (Holder(s, t) <==> s.marker == Some(t))
    ensures Do(s, t).log == s.log || exists e :: Do(s, t).log == s.log + [e] && NewEvent(s, Do(s, t), t, e)
  {
    match s.runs[t].phase
    case TryLink(_) =>
      assert s.marker == None ==> NewEvent(s, Do(s, t), t, Took(t));
    case Replace(_, _) => assert NewEvent(s, Do(s, t), t, Replaced(s.marker, t));
    case ReleaseRemove(_) => assert NewEvent(s, Do(s, t), t, Removed(s.marker, t));
    case AbandonRemove => assert NewEvent(s, Do(s, t), t, Removed(s.marker, t));
    case _ =>
  }

  predicate NewEvent(s: State, s': State, t: string, e: Event) {
    match e
    case Took(who) => s.marker == None && s'.marker == Some(t) && who == t
    case Replaced(prior, who) =>
      prior == s.marker && s.marker.Some? && Stale(s, s.marker.value) && s'.marker == Some(t) && who == t
    case Removed(prior, who) => prior == s.marker == Some(t) && s'.marker == None && who == t
  }

  lemma DoKeepsHistory(s: State, t: string)
    requires Inv(s) && Enabled(s, Act(t))
    ensures History(Do(s, t))
  {
    assert Holder(s, t) <==> s.marker == Some(t);
    OneRunMoves(s, t);
    MarkerMoves(s, t);
    LogGrows(s, t);
    StaleStays(s, Do(s, t), t);
    if Do(s, t).log != s.log {
      var e :| Do(s, t).log == s.log + [e] && NewEvent(s, Do(s, t), t, e);
      HistoryGrows(s, Do(s, t), t, e);
    }
  }

  lemma StaleStays(s: State, s': State, t: string)
    requires Live(s, t) && OnlyMoved(s, s', t)
    ensures forall c :: Stale(s', c) <==> Stale(s, c)
  {
  }

  lemma HistoryGrows(s: State, s': State, t: string, e: Event)
    requires History(s) && Live(s, t)
    requires forall c :: Stale(s', c) <==> Stale(s, c)
    requires s'.log == s.log + [e] && NewEvent(s, s', t, e)
    ensures History(s')
  {
    assert !Stale(s, t);
    forall i | 0 <= i < |s.log|
      ensures s'.log[i] == s.log[i]
    {
    }
  }

  lemma StepKeepsInv(s: State, step: Step)
    requires Inv(s) && Enabled(s, step)
    ensures Inv(Apply(s, step))
  {
    match step
    case Start(_, _) => StartKeepsInv(s, step);
    case Act(t) =>
      DoKeepsMarker(s, t);
      DoKeepsKnowledge(s, t);
      DoKeepsResults(s, t);
      DoKeepsHistory(s, t);
    case StepsOver(t, _) => WorkEnds(s, step, t);
    case Interrupt(t) => WorkEnds(s, step, t);
    case Exit(_) => ExitKeepsInv(s, step);
    case Environment(_) => ExitKeepsInv(s, step);
  }

  lemma WorkEnds(s: State, step: Step, t: string)
    requires Inv(s) && Enabled(s, step)
    requires (step.StepsOver? && step.token == t) || (step.Interrupt? && step.token == t)
    ensures Inv(Apply(s, step))
  {
    var s' := Apply(s, step);
    assert ResultsFor(s, s.runs[t].phase);
    forall u | Live(s', u)
      ensures Live(s, u) && Knows(s', u, s'.runs[u].phase) && (Holder(s', u) <==> s'.marker == Some(u))
    {
      assert Knows(s, u, s.runs[u].phase);
      assert Holder(s, u) <==> s.marker == Some(u);
    }
  }

  lemma {:induction false} InvHolds(s: State, steps: seq<Step>)
    requires Inv(s) && Follows(s, steps)
    ensures Inv(After(s, steps))
    decreases |steps|
  {
    if steps != [] {
      StepKeepsInv(s, steps[0]);
      InvHolds(Apply(s, steps[0]), steps[1..]);
    }
  }

  // ----- a takeover cut off midway ------------------------------------------

  /** A stale marker whose claim was left by a run that died holding it. */
  predicate CutOff(s: State, seen: string) {
    && s.marker == Some(seen) && Stale(s, seen)
    && ClaimId(seen) in s.claims && Stale(s, s.claims[ClaimId(seen)])
  }

  lemma CutOffStaysOneStep(s: State, step: Step, seen: string)
    requires Inv(s) && Enabled(s, step) && CutOff(s, seen)
    ensures CutOff(Apply(s, step), seen) && Apply(s, step).claims[ClaimId(seen)] == s.claims[ClaimId(seen)]
  {
    if step.Act? {
      var t := step.token;
      assert Knows(s, t, s.runs[t].phase);
      assert Holder(s, t) <==> s.marker == Some(t);
      OneRunMoves(s, t);
      StaleStays(s, Do(s, t), t);
      ClaimsMove(s, t);
      MarkerStays(s, t, seen);
    }
  }

  /** Nothing the runs do ever resolves it, in either direction: the marker is
      neither taken over nor removed, so a person has to decide. */
  lemma {:induction false} CutOffStays(s: State, steps: seq<Step>, seen: string)
    requires Inv(s) && Follows(s, steps) && CutOff(s, seen)
    ensures CutOff(After(s, steps), seen)
    ensures forall t :: !Holder(After(s, steps), t)
    decreases |steps|
  {
    if steps == [] {
      forall t
        ensures !Holder(s, t)
      {
        assert Live(s, t) ==> (Holder(s, t) <==> s.marker == Some(t));
      }
    } else {
      StepKeepsInv(s, steps[0]);
      CutOffStaysOneStep(s, steps[0], seen);
      CutOffStays(Apply(s, steps[0]), steps[1..], seen);
    }
  }

  // ----- a dead holder does not stand in the way ----------------------------

  function Acts(t: string, n: nat): seq<Step> {
    if n == 0 then [] else [Act(t)] + Acts(t, n - 1)
  }

  /** `n` turns of `next` lead from `s` to `r`. */
  ghost predicate Turns(next: State -> Option<State>, s: State, n: nat, r: State)
    decreases n
  {
    if n == 0 then s == r else next(s).Some? && Turns(next, next(s).value, n - 1, r)
  }

  lemma {:induction false} TurnsCompose(next: State -> Option<State>, s: State, n: nat, a: State, m: nat, r: State)
    requires Turns(next, s, n, a) && Turns(next, a, m, r)
    ensures Turns(next, s, n + m, r)
    decreases n
  {
    if n > 0 {
      TurnsCompose(next, next(s).value, n - 1, a, m, r);
    }
  }

  function NextOf(t: string): State -> Option<State> {
    s => if Enabled(s, Act(t)) then Some(Do(s, t)) else None
  }

  /** `n` operations of run `t`, with nobody between, lead from `s` to `r`. */
  ghost predicate Alone(s: State, t: string, n: nat, r: State) {
    Turns(NextOf(t), s, n, r)
  }

  lemma {:induction false} AloneIsARun(s: State, t: string, n: nat, r: State)
    requires Alone(s, t, n, r)
    ensures Follows(s, Acts(t, n)) && After(s, Acts(t, n)) == r
    decreases n
  {
    if n > 0 {
      AloneIsARun(Do(s, t), t, n - 1, r);
      assert Acts(t, n)[1..] == Acts(t, n - 1);
    }
  }

  lemma AloneCompose(s: State, t: string, n: nat, a: State, m: nat, r: State)
    requires Alone(s, t, n, a) && Alone(a, t, m, r)
    ensures Alone(s, t, n + m, r)
  {
    TurnsCompose(NextOf(t), s, n, a, m, r);
  }

  lemma FindsHolder(s: State, t: string, seen: string) returns (r: State)
    requires Live(s, t) && s.runs[t].phase == TryLink(0) && s.marker == Some(seen)
    ensures Alone(s, t, 2, r) && r == Move(s, t, CheckHolder(0, seen))
  {
    r := Move(s, t, CheckHolder(0, seen));
    assert Do(s, t) == Move(s, t, ReadMarker(0));
    assert Do(Do(s, t), t) == r;
    assert Alone(Do(s, t), t, 1, r);
  }

  lemma PassesClaim(s: State, t: string, seen: string) returns (r: State)
    requires Live(s, t) && s.runs[t].phase == CheckHolder(0, seen) && s.marker == Some(seen)
    requires ClaimId(seen) !in s.claims && !HolderIsAlive(s, s.runs[t].pid, seen)
    ensures Alone(s, t, 2, r)
    ensures r == Move(s.(claims := s.claims[ClaimId(seen) := t]), t, Recheck(0, seen))
  {
    r := Move(s.(claims := s.claims[ClaimId(seen) := t]), t, Recheck(0, seen));
    assert Do(s, t) == Move(s, t, TryClaim(0, seen));
    assert Do(Do(s, t), t) == r;
    assert Alone(Do(s, t), t, 1, r);
  }

  lemma TakesOver(s: State, t: string, seen: string) returns (r: State)
    requires Live(s, t) && s.runs[t].phase == Recheck(0, seen) && s.marker == Some(seen)
    ensures Alone(s, t, 3, r) && Holder(r, t) && r.marker == Some(t)
    ensures r.claims == s.claims - {ClaimId(seen)}
  {
    var a := Do(s, t);
    var b := Do(a, t);
    assert a.runs[t].phase == Replace(0, seen) && b.runs[t].phase == DropClaim(0, seen, true);
    r := Do(b, t);
    assert r.runs[t].phase == ClearDone;
    assert Alone(b, t, 1, r);
    assert Alone(a, t, 2, r);
  }

  lemma SameProcesses(s: State, s': State, t: string)
    requires Live(s, t) && OnlyMoved(s, s', t)
    ensures forall p :: LivePid(s', p) <==> LivePid(s, p)
  {
    forall p
      ensures LivePid(s', p) <==> LivePid(s, p)
    {
      if u :| u in s.runs && s.runs[u].alive && s.runs[u].pid == p {
        assert s'.runs[u].alive && s'.runs[u].pid == p;
      }
    }
  }

  lemma ClaimsStale(s: State, t: string, seen: string) returns (r: State)
    requires Live(s, t) && s.runs[t].phase == TryLink(0)
    requires s.marker == Some(seen) && ClaimId(seen) !in s.claims && !HolderIsAlive(s, s.runs[t].pid, seen)
    ensures Alone(s, t, 4, r)
    ensures Live(r, t) && r.runs[t].phase == Recheck(0, seen) && r.marker == Some(seen)
    ensures r.claims == s.claims[ClaimId(seen) := t]
  {
    var a := FindsHolder(s, t, seen);
    SameProcesses(s, a, t);
    r := PassesClaim(a, t, seen);
    AloneCompose(s, t, 2, a, 2, r);
  }

  lemma TakesStale(s: State, t: string, seen: string) returns (r: State)
    requires Live(s, t) && s.runs[t].phase == TryLink(0)
    requires s.marker == Some(seen) && ClaimId(seen) !in s.claims && !HolderIsAlive(s, s.runs[t].pid, seen)
    ensures Alone(s, t, 7, r)
    ensures Holder(r, t) && r.marker == Some(t) && r.claims == s.claims
  {
    var a := ClaimsStale(s, t, seen);
    r := TakesOver(a, t, seen);
    AloneCompose(s, t, 4, a, 3, r);
  }

  /** A run that finds the marker of a dead process, and no claim on it, holds the
      marker after seven operations of its own when nobody interferes, and leaves
      no claim behind. */
  lemma StaleMarkerIsTaken(s: State, t: string, seen: string) returns (r: State)
    requires Live(s, t) && s.runs[t].phase == TryLink(0)
    requires s.marker == Some(seen) && ClaimId(seen) !in s.claims && !HolderIsAlive(s, s.runs[t].pid, seen)
    ensures Follows(s, Acts(t, 7)) && After(s, Acts(t, 7)) == r
    ensures Holder(r, t) && r.marker == Some(t) && r.claims == s.claims
  {
    r := TakesStale(s, t, seen);
    AloneIsARun(s, t, 7, r);
  }

  // ----- what every run of the system keeps ---------------------------------

  /** Whatever the interleaving and wherever runs crash: at most one live run is
      past `acquire`, and the marker names it the whole time. */
  lemma MutualExclusion(s: State, steps: seq<Step>, t: string, u: string)
    requires Initial(s) && Follows(s, steps)
    requires Holder(After(s, steps), t) && Holder(After(s, steps), u)
    ensures t == u && After(s, steps).marker == Some(t)
  {
    InvHolds(s, steps);
  }

  /** Nobody removes a marker that is not its own, and no content is taken over
      twice. */
  lemma MarkerHistory(s: State, steps: seq<Step>)
    requires Initial(s) && Follows(s, steps)
    ensures var log := After(s, steps).log;
            && (forall i | 0 <= i < |log| :: log[i].Removed? ==> log[i].prior == Some(log[i].who))
            && (forall i, j | 0 <= i < j < |log| && log[i].Replaced? && log[j].Replaced? ::
                  log[i].prior != log[j].prior)
  {
    InvHolds(s, steps);
  }

  /** A takeover only ever replaces what a dead process left behind. */
  lemma OnlyTheDeadAreReplaced(s: State, steps: seq<Step>, t: string)
    requires Initial(s) && Follows(s, steps)
    requires Live(After(s, steps), t) && After(s, steps).runs[t].phase.Replace?
    ensures var now := After(s, steps);
            now.marker.Some? && !Live(now, now.marker.value)
  {
    InvHolds(s, steps);
    assert Knows(After(s, steps), t, After(s, steps).runs[t].phase);
  }

  lemma ResultsExclude(s: State, steps: seq<Step>)
    requires Initial(s) && Follows(s, steps)
    ensures !(After(s, steps).done && After(s, steps).failed)
  {
    InvHolds(s, steps);
  }
}
