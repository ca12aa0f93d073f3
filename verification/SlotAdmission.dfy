/** `EngineState.run_exclusive` of apps/decision-local/server.py: any number of
    threads wait for one inference slot, behind a counter with a limit. Every step is
    one lock operation, one read or write of the counter, one look at the clock or
    one question whether the client is gone, of one thread. */
module SlotAdmission {
  import opened Basics

  const MARGIN: real := 0.25
  const POLL: real := 0.1

  datatype Config = Config(maxQueue: nat, maxWait: real)

  datatype Outcome = Busy | Gone | Failed | Answered

  /** What `is_gone` says. */
  datatype Answer = Yes | No | Raises

  /** What follows the decrement: the slot was won, or the call fails. */
  datatype After = Won | Lost(outcome: Outcome)

  /** Where a thread is in the call; the comments say which locks it holds. */
  datatype Phase =
    | Idle
    | Entering                            // about to take the admission lock
    | Deciding                            // admission: about to compare the counter
    | Counting(read: int)                 // admission: about to store read + 1
    | Entered                             // admission: about to give it back
    | Refused                             // admission: about to give it back and fail
    | Polling                             // about to ask whether the client is gone
    | Timing                              // about to look at the clock
    | Starting(readAt: real, wait: real)  // about to wait for the slot, for at most `wait`
    | Acquiring(until: real)              // waiting for the slot
    | Leaving(next: After)                // about to take the admission lock again
    | Uncounting(next: After)             // admission: about to read the counter
    | Storing(read: int, next: After)     // admission: about to store read - 1
    | Left(next: After)                   // admission: about to give it back
    | Checking                            // slot: about to ask once more
    | Working                             // slot: running the model
    | Releasing(outcome: Outcome)         // slot: about to give it back
    | Done(outcome: Outcome)

  /** A thread: its caller's deadline, whether it has an `is_gone`, when it gives up
      and when it won the slot. `late` is how long its last wait was held up: from the
      look at the clock to the start of the wait, and past the wait's own end. */
  datatype Thread = Thread(
    phase: Phase, deadline: Option<real>, asks: bool, giveUp: real, wonAt: Option<real>, late: real)

  datatype Act = Took(thread: nat) | Gave(thread: nat) | Asked(thread: nat, answer: Answer) | Ran(thread: nat)

  datatype State = State(
    now: real,
    waiting: int,
    admission: Option<nat>,
    slot: Option<nat>,
    threads: seq<Thread>,
    log: seq<Act>)

  predicate HoldsAdmission(p: Phase) {
    p.Deciding? || p.Counting? || p.Entered? || p.Refused? || p.Uncounting? || p.Storing? || p.Left?
  }

  predicate WonSlot(p: Phase) {
    match p
    case Leaving(next) => next.Won?
    case Uncounting(next) => next.Won?
    case Storing(_, next) => next.Won?
    case Left(next) => next.Won?
    case _ => p.Checking? || p.Working? || p.Releasing?
  }

  /** Not yet in the slot and not yet turned away. */
  predicate StillTrying(p: Phase) {
    || p.Idle? || p.Entering? || p.Deciding? || p.Counting? || p.Entered? || p.Polling? || p.Timing? || p.Starting?
    || p.Acquiring?
  }

  /** Admitted and not yet counted out. */
  predicate Queued(p: Phase) {
    p.Entered? || p.Polling? || p.Timing? || p.Starting? || p.Acquiring? || p.Leaving? || p.Uncounting? || p.Storing?
  }

  // ----- steps --------------------------------------------------------------

  /** Time passes, or a thread moves: `answer` is what `is_gone` says if it is asked,
      and `fails` whether the work raises, or a wait for the slot that is over when the
      slot comes free is lost. */
  datatype Step = Tick(elapsed: real) | Move(thread: nat, answer: Answer, fails: bool)

  function Min(a: real, b: real): real { if a <= b then a else b }

  /** How far `now` is past `until`. */
  function Past(now: real, until: real): real { if now > until then now - until else 0.0 }

  function GiveUp(cfg: Config, now: real, deadline: Option<real>): real {
    var longest := now + cfg.maxWait;
    if deadline.Some? then Min(longest, deadline.value - MARGIN) else longest
  }

  /** A thread can always move, except to a lock that is taken: it waits for the
      admission lock, and for the slot until its time is over. */
  predicate Enabled(s: State, step: Step) {
    match step
    case Tick(elapsed) => elapsed > 0.0
    case Move(i, _, _) =>
      && i < |s.threads|
      && match s.threads[i].phase
         case Entering => s.admission == None
         case Leaving(_) => s.admission == None
         case Acquiring(until) => s.slot == None || s.now >= until
         case Done(_) => false
         case _ => true
  }

  function Set(s: State, i: nat, p: Phase): State
    requires i < |s.threads|
  {
    s.(threads := s.threads[i := s.threads[i].(phase := p)])
  }

  function Apply(cfg: Config, s: State, step: Step): State
    requires Enabled(s, step)
  {
    match step
    case Tick(elapsed) => s.(now := s.now + elapsed)
    case Move(i, answer, fails) =>
      if s.threads[i].phase.Idle? then Begin(cfg, s, i)
      else if WonSlot(s.threads[i].phase) && !HoldsAdmission(s.threads[i].phase) && !s.threads[i].phase.Leaving? then
        InSlot(s, i, answer, fails)
      else if HoldsAdmission(s.threads[i].phase) then InAdmission(cfg, s, i)
      else InQueue(s, i, answer, fails)
  }

  function Begin(cfg: Config, s: State, i: nat): State
    requires i < |s.threads|
  {
    var giveUp := GiveUp(cfg, s.now, s.threads[i].deadline);
    var next := if giveUp <= s.now then Done(Busy) else Entering;
    s.(threads := s.threads[i := s.threads[i].(phase := next, giveUp := giveUp)])
  }

  /** Under the admission lock. */
  function InAdmission(cfg: Config, s: State, i: nat): State
    requires i < |s.threads| && HoldsAdmission(s.threads[i].phase)
  {
    match s.threads[i].phase
    case Deciding => Set(s, i, if s.waiting >= cfg.maxQueue then Refused else Counting(s.waiting))
    case Counting(read) => Set(s, i, Entered).(waiting := read + 1)
    case Entered => Set(s, i, Polling).(admission := None)
    case Refused => Set(s, i, Done(Busy)).(admission := None)
    case Uncounting(next) => Set(s, i, Storing(s.waiting, next))
    case Storing(read, next) => Set(s, i, Left(next)).(waiting := read - 1)
    case Left(next) => Set(s, i, if next.Won? then Checking else Done(next.outcome)).(admission := None)
  }

  /** Without a lock, or taking one. */
  function InQueue(s: State, i: nat, answer: Answer, fails: bool): State
    requires i < |s.threads|
  {
    var t := s.threads[i];
    match t.phase
    case Entering => Set(s, i, Deciding).(admission := Some(i))
    case Polling =>
      if !t.asks then Set(s, i, Timing)
      else
        var next := match answer case Yes => Leaving(Lost(Gone)) case No => Timing case Raises => Leaving(Lost(Failed));
        Set(s, i, next).(log := s.log + [Asked(i, answer)])
    case Timing =>
      if t.giveUp <= s.now then Set(s, i, Leaving(Lost(Busy)))
      else Set(s, i, Starting(s.now, Min(POLL, t.giveUp - s.now)))
    case Starting(readAt, wait) =>
      s.(threads := s.threads[i := t.(phase := Acquiring(s.now + wait), late := s.now - readAt)])
    case Acquiring(until) =>
      if s.slot == None && (s.now < until || !fails) then
        var late := t.late + Past(s.now, until);
        s.(threads := s.threads[i := t.(phase := Leaving(Won), wonAt := Some(s.now), late := late)],
           slot := Some(i), log := s.log + [Took(i)])
      else Set(s, i, Polling)
    case Leaving(next) => Set(s, i, Uncounting(next)).(admission := Some(i))
    case _ => s
  }

  /** Holding the slot. */
  function InSlot(s: State, i: nat, answer: Answer, fails: bool): State
    requires i < |s.threads|
  {
    var t := s.threads[i];
    match t.phase
    case Checking =>
      if !t.asks then Set(s, i, Working).(log := s.log + [Ran(i)])
      else
        (match answer
         case Yes => Set(s, i, Releasing(Gone)).(log := s.log + [Asked(i, Yes)])
         case No => Set(s, i, Working).(log := s.log + [Asked(i, No), Ran(i)])
         case Raises => Set(s, i, Releasing(Failed)).(log := s.log + [Asked(i, Raises)]))
    case Working => Set(s, i, Releasing(if fails then Failed else Answered))
    case Releasing(outcome) => Set(s, i, Done(outcome)).(slot := None, log := s.log + [Gave(i)])
    case _ => s
  }

  // ----- runs ---------------------------------------------------------------

  ghost predicate Start(s: State) {
    && s.waiting == 0 && s.admission == None && s.slot == None && s.log == []
    && forall t | t in s.threads :: t.phase == Idle && t.wonAt == None
  }

  predicate Follows(cfg: Config, s: State, steps: seq<Step>)
    decreases |steps|
  {
    steps == [] || (Enabled(s, steps[0]) && Follows(cfg, Apply(cfg, s, steps[0]), steps[1..]))
  }

  function Run(cfg: Config, s: State, steps: seq<Step>): State
    requires Follows(cfg, s, steps)
    decreases |steps|
  {
    if steps == [] then s else Run(cfg, Apply(cfg, s, steps[0]), steps[1..])
  }

  // ----- counting -----------------------------------------------------------

  function Count(threads: seq<Thread>): nat {
    if threads == [] then 0 else (if Queued(threads[0].phase) then 1 else 0) + Count(threads[1..])
  }

  function One(t: Thread): nat { if Queued(t.phase) then 1 else 0 }

  lemma {:induction false} CountUpdate(threads: seq<Thread>, i: nat, t: Thread)
    requires i < |threads|
    ensures Count(threads[i := t]) == Count(threads) - One(threads[i]) + One(t)
  {
    if i > 0 {
      assert threads[i := t][1..] == threads[1..][i - 1 := t];
      CountUpdate(threads[1..], i - 1, t);
    }
  }

  lemma {:induction false} CountSome(threads: seq<Thread>, i: nat)
    requires i < |threads| && Queued(threads[i].phase)
    ensures Count(threads) >= 1
  {
    if i > 0 {
      CountSome(threads[1..], i - 1);
    }
  }

  lemma {:induction false} CountNone(threads: seq<Thread>)
    requires forall t | t in threads :: !Queued(t.phase)
    ensures Count(threads) == 0
  {
    if threads != [] {
      assert threads[0] in threads;
      CountNone(threads[1..]);
    }
  }

  // ----- the log ------------------------------------------------------------

  /** Who has the slot after a log, and whether their client was seen there since. */
  datatype Track = Track(holder: Option<nat>, seen: bool)

  function TrackOf(log: seq<Act>): Track {
    if log == [] then Track(None, false)
    else
      var before := TrackOf(log[..|log| - 1]);
      match log[|log| - 1]
      case Took(i) => Track(Some(i), false)
      case Gave(_) => Track(None, false)
      case Asked(i, answer) => if before.holder == Some(i) then before.(seen := answer == No) else before
      case Ran(_) => before
  }

  lemma TrackAdd(log: seq<Act>, act: Act)
    ensures TrackOf(log + [act]) ==
            var before := TrackOf(log);
            match act
            case Took(i) => Track(Some(i), false)
            case Gave(_) => Track(None, false)
            case Asked(i, answer) => if before.holder == Some(i) then before.(seen := answer == No) else before
            case Ran(_) => before
  {
    assert (log + [act])[..|log|] == log;
  }

  /** Whether the work at position `k` of a log ran in the slot, for a client that was
      there after the slot was won. */
  predicate RanRightly(threads: seq<Thread>, log: seq<Act>, k: nat)
    requires k < |log|
  {
    log[k].Ran? ==>
      var i := log[k].thread;
      i < |threads| && TrackOf(log[..k]).holder == Some(i) && (threads[i].asks ==> TrackOf(log[..k]).seen)
  }

  // ----- the invariant ------------------------------------------------------

  ghost predicate Inv(cfg: Config, s: State) {
    && s.waiting == Count(s.threads) && s.waiting <= cfg.maxQueue
    && (s.admission.Some? ==> s.admission.value < |s.threads|)
    && (s.slot.Some? ==> s.slot.value < |s.threads|)
    && (forall i | 0 <= i < |s.threads| :: ThreadOk(cfg, s, i))
    && LogOk(s)
  }

  ghost predicate LogOk(s: State) {
    TrackOf(s.log).holder == s.slot && forall k | 0 <= k < |s.log| :: RanRightly(s.threads, s.log, k)
  }

  ghost predicate ThreadOk(cfg: Config, s: State, i: nat)
    requires i < |s.threads|
  {
    var t := s.threads[i];
    && (s.admission == Some(i) <==> HoldsAdmission(t.phase))
    && (s.slot == Some(i) <==> WonSlot(t.phase))
    && (t.phase.Counting? ==> t.phase.read == s.waiting < cfg.maxQueue)
    && (t.phase.Storing? ==> t.phase.read == s.waiting)
    && TimesOk(t)
  }

  /** When a thread may still win the slot, and when it did. */
  predicate TimesOk(t: Thread) {
    && (!t.phase.Idle? && t.deadline.Some? ==> t.giveUp <= t.deadline.value - MARGIN)
    && (t.phase.Starting? ==> t.phase.readAt + t.phase.wait <= t.giveUp)
    && (t.phase.Acquiring? ==> t.phase.until <= t.giveUp + t.late)
    && (WonSlot(t.phase) ==> t.wonAt.Some?)
    && (StillTrying(t.phase) ==> t.wonAt == None)
    && (t.wonAt.Some? ==> t.wonAt.value <= t.giveUp + t.late)
  }

  lemma StartInv(cfg: Config, s: State)
    requires Start(s)
    ensures Inv(cfg, s)
  {
    CountNone(s.threads);
    forall i | 0 <= i < |s.threads| ensures ThreadOk(cfg, s, i) {
      assert s.threads[i] in s.threads;
    }
  }

  // ----- every step keeps it ------------------------------------------------

  /** What a step of thread `i` leaves alone: the other threads, and locks it does not
      hold; the counter only if it is not under the admission lock. */
  ghost predicate OnlyBy(s: State, s': State, i: nat)
    requires i < |s.threads|
  {
    && |s'.threads| == |s.threads| && s'.threads == s.threads[i := s'.threads[i]]
    && s'.threads[i].asks == s.threads[i].asks
    && (s'.admission == s.admission || (s.admission in [None, Some(i)] && s'.admission in [None, Some(i)]))
    && (s'.slot == s.slot || (s.slot in [None, Some(i)] && s'.slot in [None, Some(i)]))
    && (s'.waiting == s.waiting || s.admission == Some(i))
    && s'.waiting == s.waiting - One(s.threads[i]) + One(s'.threads[i])
  }

  lemma OthersKeep(cfg: Config, s: State, s': State, i: nat, j: nat)
    requires i < |s.threads| && j < |s.threads| && i != j && OnlyBy(s, s', i)
    requires ThreadOk(cfg, s, j) && ThreadOk(cfg, s, i)
    ensures ThreadOk(cfg, s', j)
  {
    assert s'.threads[j] == s.threads[j];
  }

  lemma {:induction false} PrefixTrack(log: seq<Act>, more: seq<Act>, k: nat)
    requires k <= |log|
    ensures (log + more)[..k] == log[..k]
  {
  }

  /** A log that grows by one act. */
  lemma LogGrows(threads: seq<Thread>, threads': seq<Thread>, log: seq<Act>, act: Act)
    requires |threads'| == |threads| && forall i | 0 <= i < |threads| :: threads'[i].asks == threads[i].asks
    requires forall k | 0 <= k < |log| :: RanRightly(threads, log, k)
    requires act.Ran? ==> act.thread < |threads| && TrackOf(log).holder == Some(act.thread)
                          && (threads[act.thread].asks ==> TrackOf(log).seen)
    ensures forall k | 0 <= k < |log + [act]| :: RanRightly(threads', log + [act], k)
  {
    forall k | 0 <= k < |log + [act]| ensures RanRightly(threads', log + [act], k) {
      PrefixTrack(log, [act], k);
      if k < |log| {
        assert RanRightly(threads, log, k);
      } else {
        assert log[..k] == log;
      }
    }
  }

  /** A step of thread `i` that its own part of the invariant allows. */
  ghost predicate Moves(cfg: Config, s: State, s': State, i: nat)
    requires i < |s.threads|
  {
    OnlyBy(s, s', i) && ThreadOk(cfg, s', i) && s'.waiting <= cfg.maxQueue
  }

  /** Such a step keeps the invariant when it keeps the log right. */
  lemma KeepsInv(cfg: Config, s: State, s': State, i: nat)
    requires Inv(cfg, s) && i < |s.threads| && Moves(cfg, s, s', i) && LogOk(s')
    ensures Inv(cfg, s')
  {
    CountUpdate(s.threads, i, s'.threads[i]);
    forall j | 0 <= j < |s'.threads| ensures ThreadOk(cfg, s', j) {
      if j != i {
        OthersKeep(cfg, s, s', i, j);
      }
    }
  }

  lemma SameLog(s: State, s': State, i: nat)
    requires i < |s.threads| && OnlyBy(s, s', i) && s'.log == s.log && s'.slot == s.slot && LogOk(s)
    ensures LogOk(s')
  {
    forall k | 0 <= k < |s'.log| ensures RanRightly(s'.threads, s'.log, k) {
      assert RanRightly(s.threads, s.log, k);
    }
  }

  lemma LongerLog(s: State, s': State, i: nat, act: Act)
    requires i < |s.threads| && OnlyBy(s, s', i) && s'.log == s.log + [act] && LogOk(s)
    requires act.Ran? ==> act.thread < |s.threads| && s.slot == Some(act.thread)
                          && (s.threads[act.thread].asks ==> TrackOf(s.log).seen)
    requires match act
             case Took(t) => s'.slot == Some(t)
             case Gave(_) => s'.slot == None
             case _ => s'.slot == s.slot
    ensures LogOk(s')
  {
    TrackAdd(s.log, act);
    LogGrows(s.threads, s'.threads, s.log, act);
  }

  // ----- what each step does to its own thread ------------------------------

  lemma BeginMoves(cfg: Config, s: State, i: nat)
    requires i < |s.threads| && ThreadOk(cfg, s, i) && s.waiting <= cfg.maxQueue && s.threads[i].phase.Idle?
    ensures Moves(cfg, s, Begin(cfg, s, i), i) && Begin(cfg, s, i).log == s.log && Begin(cfg, s, i).slot == s.slot
  {
  }

  lemma InAdmissionMoves(cfg: Config, s: State, i: nat)
    requires i < |s.threads| && ThreadOk(cfg, s, i) && s.waiting <= cfg.maxQueue && HoldsAdmission(s.threads[i].phase)
    ensures var s' := InAdmission(cfg, s, i);
            Moves(cfg, s, s', i) && s'.log == s.log && s'.slot == s.slot
  {
    var p := s.threads[i].phase;
    if p.Uncounting? || p.Storing? || p.Left? {
      LeavingMoves(cfg, s, i);
    } else {
      EnteringMoves(cfg, s, i);
    }
  }

  lemma EnteringMoves(cfg: Config, s: State, i: nat)
    requires i < |s.threads| && ThreadOk(cfg, s, i) && s.waiting <= cfg.maxQueue
    requires var p := s.threads[i].phase; p.Deciding? || p.Counting? || p.Entered? || p.Refused?
    ensures var s' := InAdmission(cfg, s, i);
            Moves(cfg, s, s', i) && s'.log == s.log && s'.slot == s.slot
  {
  }

  lemma LeavingMoves(cfg: Config, s: State, i: nat)
    requires i < |s.threads| && ThreadOk(cfg, s, i) && s.waiting <= cfg.maxQueue
    requires var p := s.threads[i].phase; p.Uncounting? || p.Storing? || p.Left?
    ensures var s' := InAdmission(cfg, s, i);
            Moves(cfg, s, s', i) && s'.log == s.log && s'.slot == s.slot
  {
  }

  lemma QueueingMoves(cfg: Config, s: State, i: nat, answer: Answer, fails: bool)
    requires Enabled(s, Move(i, answer, fails)) && ThreadOk(cfg, s, i) && s.waiting <= cfg.maxQueue
    requires var p := s.threads[i].phase; p.Entering? || p.Timing? || p.Starting? || p.Leaving?
    ensures var s' := InQueue(s, i, answer, fails);
            Moves(cfg, s, s', i) && s'.log == s.log && s'.slot == s.slot
  {
  }

  lemma PollingMoves(cfg: Config, s: State, i: nat, answer: Answer, fails: bool)
    requires i < |s.threads| && ThreadOk(cfg, s, i) && s.waiting <= cfg.maxQueue && s.threads[i].phase.Polling?
    ensures var s' := InQueue(s, i, answer, fails);
            && Moves(cfg, s, s', i) && s'.slot == s.slot
            && s'.log == if s.threads[i].asks then s.log + [Asked(i, answer)] else s.log
  {
  }

  lemma AcquiringMoves(cfg: Config, s: State, i: nat, answer: Answer, fails: bool)
    requires i < |s.threads| && ThreadOk(cfg, s, i) && s.waiting <= cfg.maxQueue && s.threads[i].phase.Acquiring?
    ensures var s' := InQueue(s, i, answer, fails);
            && Moves(cfg, s, s', i)
            && ((s'.log == s.log && s'.slot == s.slot) || (s'.log == s.log + [Took(i)] && s'.slot == Some(i)))
  {
  }

  lemma CheckingMoves(cfg: Config, s: State, i: nat, answer: Answer, fails: bool)
    requires i < |s.threads| && ThreadOk(cfg, s, i) && s.waiting <= cfg.maxQueue && s.threads[i].phase.Checking?
    ensures var s' := InSlot(s, i, answer, fails);
            && Moves(cfg, s, s', i) && s'.slot == s.slot == Some(i)
            && s'.log == if !s.threads[i].asks then s.log + [Ran(i)]
                         else if answer.No? then s.log + [Asked(i, No), Ran(i)] else s.log + [Asked(i, answer)]
  {
  }

  lemma SlotMoves(cfg: Config, s: State, i: nat, answer: Answer, fails: bool)
    requires i < |s.threads| && ThreadOk(cfg, s, i) && s.waiting <= cfg.maxQueue
    requires s.threads[i].phase.Working? || s.threads[i].phase.Releasing?
    ensures var s' := InSlot(s, i, answer, fails);
            && Moves(cfg, s, s', i)
            && (if s.threads[i].phase.Working? then s'.log == s.log && s'.slot == s.slot
                else s'.log == s.log + [Gave(i)] && s'.slot == None)
  {
  }

  // ----- the log after each step --------------------------------------------

  lemma PollingKeeps(cfg: Config, s: State, i: nat, answer: Answer, fails: bool)
    requires Inv(cfg, s) && i < |s.threads| && s.threads[i].phase.Polling?
    ensures Inv(cfg, InQueue(s, i, answer, fails))
  {
    var s' := InQueue(s, i, answer, fails);
    PollingMoves(cfg, s, i, answer, fails);
    if s.threads[i].asks {
      LongerLog(s, s', i, Asked(i, answer));
    } else {
      SameLog(s, s', i);
    }
    KeepsInv(cfg, s, s', i);
  }

  lemma AcquiringKeeps(cfg: Config, s: State, i: nat, answer: Answer, fails: bool)
    requires Inv(cfg, s) && i < |s.threads| && s.threads[i].phase.Acquiring?
    ensures Inv(cfg, InQueue(s, i, answer, fails))
  {
    var s' := InQueue(s, i, answer, fails);
    AcquiringMoves(cfg, s, i, answer, fails);
    if s'.log == s.log {
      SameLog(s, s', i);
    } else {
      LongerLog(s, s', i, Took(i));
    }
    KeepsInv(cfg, s, s', i);
  }

  /** The client is asked, seen, and served. */
  lemma AskedAndRan(s: State, s': State, i: nat)
    requires i < |s.threads| && OnlyBy(s, s', i) && LogOk(s) && s.slot == s'.slot == Some(i)
    requires s'.log == s.log + [Asked(i, No), Ran(i)]
    ensures LogOk(s')
  {
    var asked := s.(log := s.log + [Asked(i, No)]);
    LongerLog(s, asked, i, Asked(i, No));
    TrackAdd(s.log, Asked(i, No));
    assert s'.log == asked.log + [Ran(i)];
    TrackAdd(asked.log, Ran(i));
    LogGrows(asked.threads, s'.threads, asked.log, Ran(i));
  }

  lemma CheckingKeeps(cfg: Config, s: State, i: nat, answer: Answer, fails: bool)
    requires Inv(cfg, s) && i < |s.threads| && s.threads[i].phase.Checking?
    ensures Inv(cfg, InSlot(s, i, answer, fails))
  {
    var s' := InSlot(s, i, answer, fails);
    CheckingMoves(cfg, s, i, answer, fails);
    if !s.threads[i].asks {
      LongerLog(s, s', i, Ran(i));
    } else if answer.No? {
      AskedAndRan(s, s', i);
    } else {
      LongerLog(s, s', i, Asked(i, answer));
    }
    KeepsInv(cfg, s, s', i);
  }

  lemma SlotKeeps(cfg: Config, s: State, i: nat, answer: Answer, fails: bool)
    requires Inv(cfg, s) && i < |s.threads| && (s.threads[i].phase.Working? || s.threads[i].phase.Releasing?)
    ensures Inv(cfg, InSlot(s, i, answer, fails))
  {
    var s' := InSlot(s, i, answer, fails);
    SlotMoves(cfg, s, i, answer, fails);
    if s.threads[i].phase.Working? {
      SameLog(s, s', i);
    } else {
      LongerLog(s, s', i, Gave(i));
    }
    KeepsInv(cfg, s, s', i);
  }

  /** A step that leaves the log and the slot alone. */
  lemma QuietKeeps(cfg: Config, s: State, s': State, i: nat)
    requires Inv(cfg, s) && i < |s.threads| && Moves(cfg, s, s', i) && s'.log == s.log && s'.slot == s.slot
    ensures Inv(cfg, s')
  {
    SameLog(s, s', i);
    KeepsInv(cfg, s, s', i);
  }

  lemma TickKeeps(cfg: Config, s: State, elapsed: real)
    requires Inv(cfg, s)
    ensures Inv(cfg, s.(now := s.now + elapsed))
  {
    var s' := s.(now := s.now + elapsed);
    forall i | 0 <= i < |s'.threads| ensures ThreadOk(cfg, s', i) {
      assert ThreadOk(cfg, s, i);
    }
  }

  lemma StepInv(cfg: Config, s: State, step: Step)
    requires Inv(cfg, s) && Enabled(s, step)
    ensures Inv(cfg, Apply(cfg, s, step))
  {
    match step
    case Tick(elapsed) => TickKeeps(cfg, s, elapsed);
    case Move(i, answer, fails) =>
      var p := s.threads[i].phase;
      var s' := Apply(cfg, s, step);
      assert ThreadOk(cfg, s, i);
      if p.Idle? {
        BeginMoves(cfg, s, i);
        QuietKeeps(cfg, s, s', i);
      } else if HoldsAdmission(p) {
        InAdmissionMoves(cfg, s, i);
        QuietKeeps(cfg, s, s', i);
      } else if p.Checking? {
        CheckingKeeps(cfg, s, i, answer, fails);
      } else if p.Working? || p.Releasing? {
        SlotKeeps(cfg, s, i, answer, fails);
      } else if p.Polling? {
        PollingKeeps(cfg, s, i, answer, fails);
      } else if p.Acquiring? {
        AcquiringKeeps(cfg, s, i, answer, fails);
      } else {
        QueueingMoves(cfg, s, i, answer, fails);
        QuietKeeps(cfg, s, s', i);
      }
  }

  lemma {:induction false} RunInv(cfg: Config, s: State, steps: seq<Step>)
    requires Inv(cfg, s) && Follows(cfg, s, steps)
    ensures Inv(cfg, Run(cfg, s, steps))
    decreases |steps|
  {
    if steps != [] {
      StepInv(cfg, s, steps[0]);
      RunInv(cfg, Apply(cfg, s, steps[0]), steps[1..]);
    }
  }

  // ----- what holds in every interleaving -----------------------------------

  ghost predicate Reachable(cfg: Config, s: State) {
    exists start, steps :: ReachedBy(cfg, s, start, steps)
  }

  ghost predicate ReachedBy(cfg: Config, s: State, start: State, steps: seq<Step>) {
    Start(start) && Follows(cfg, start, steps) && s == Run(cfg, start, steps)
  }

  lemma ReachableInv(cfg: Config, s: State)
    requires Reachable(cfg, s)
    ensures Inv(cfg, s)
  {
    var start, steps :| ReachedBy(cfg, s, start, steps);
    StartInv(cfg, start);
    RunInv(cfg, start, steps);
  }

  /** The counter is the number of admitted threads still queued, and never above the
      limit. */
  lemma WaitingIsQueued(cfg: Config, s: State)
    requires Reachable(cfg, s)
    ensures s.waiting == Count(s.threads) <= cfg.maxQueue
  {
    ReachableInv(cfg, s);
  }

  /** At most one thread runs the model, and it won the slot before it gave up, so at
      least the margin before its deadline, but for what its last wait was held up. */
  lemma OneWorksInTime(cfg: Config, s: State, i: nat, j: nat)
    requires Reachable(cfg, s) && i < |s.threads| && j < |s.threads|
    requires s.threads[i].phase.Working? && s.threads[j].phase.Working?
    ensures i == j && s.threads[i].wonAt.Some?
    ensures s.threads[i].wonAt.value <= s.threads[i].giveUp + s.threads[i].late
    ensures s.threads[i].deadline.Some? ==>
              s.threads[i].wonAt.value <= s.threads[i].deadline.value - MARGIN + s.threads[i].late
  {
    ReachableInv(cfg, s);
    assert ThreadOk(cfg, s, i) && ThreadOk(cfg, s, j);
  }

  // ----- the bound is met ---------------------------------------------------

  lemma {:induction false} RunLonger(cfg: Config, s: State, steps: seq<Step>, step: Step)
    requires Follows(cfg, s, steps) && Enabled(Run(cfg, s, steps), step)
    ensures Follows(cfg, s, steps + [step])
    ensures Run(cfg, s, steps + [step]) == Apply(cfg, Run(cfg, s, steps), step)
    decreases |steps|
  {
    if steps == [] {
      assert [step][1..] == [];
    } else {
      assert (steps + [step])[1..] == steps[1..] + [step];
      RunLonger(cfg, Apply(cfg, s, steps[0]), steps[1..], step);
    }
  }

  lemma Later(cfg: Config, s: State, step: Step)
    requires Reachable(cfg, s) && Enabled(s, step)
    ensures Reachable(cfg, Apply(cfg, s, step))
  {
    var start, steps :| ReachedBy(cfg, s, start, steps);
    RunLonger(cfg, start, steps, step);
    assert ReachedBy(cfg, Apply(cfg, s, step), start, steps + [step]);
  }

  /** A lone caller, who leaves as soon as one wait for the slot is over. */
  function Caller(cfg: Config, phase: Phase, late: real): Thread {
    var wait := Min(POLL, cfg.maxWait);
    Thread(phase, Some(wait + MARGIN), false, wait, None, late)
  }

  lemma LoneStep(cfg: Config, s: State, s': State)
    requires Reachable(cfg, s) && Enabled(s, Move(0, No, false)) && s' == Apply(cfg, s, Move(0, No, false))
    ensures Reachable(cfg, s')
  {
    Later(cfg, s, Move(0, No, false));
  }

  lemma LoneEnters(cfg: Config)
    requires cfg.maxQueue > 0 && cfg.maxWait > 0.0
    ensures Reachable(cfg, State(0.0, 1, Some(0), None, [Caller(cfg, Entered, 0.0)], []))
  {
    var s0 := State(0.0, 0, None, None, [Caller(cfg, Idle, 0.0)], []);
    assert Start(s0) && Follows(cfg, s0, []) && Run(cfg, s0, []) == s0;
    assert ReachedBy(cfg, s0, s0, []);
    var s1 := s0.(threads := [Caller(cfg, Entering, 0.0)]);
    LoneStep(cfg, s0, s1);
    var s2 := s1.(threads := [Caller(cfg, Deciding, 0.0)], admission := Some(0));
    LoneStep(cfg, s1, s2);
    var s3 := s2.(threads := [Caller(cfg, Counting(0), 0.0)]);
    LoneStep(cfg, s2, s3);
    LoneStep(cfg, s3, s3.(threads := [Caller(cfg, Entered, 0.0)], waiting := 1));
  }

  lemma LoneWaits(cfg: Config, heldUp: real)
    requires cfg.maxQueue > 0 && cfg.maxWait > 0.0 && heldUp > 0.0
    ensures Reachable(cfg, State(heldUp, 1, None, None,
                                 [Caller(cfg, Acquiring(heldUp + Min(POLL, cfg.maxWait)), heldUp)], []))
  {
    var wait := Min(POLL, cfg.maxWait);
    LoneEnters(cfg);
    var s0 := State(0.0, 1, Some(0), None, [Caller(cfg, Entered, 0.0)], []);
    var s1 := s0.(threads := [Caller(cfg, Polling, 0.0)], admission := None);
    LoneStep(cfg, s0, s1);
    var s2 := s1.(threads := [Caller(cfg, Timing, 0.0)]);
    LoneStep(cfg, s1, s2);
    var s3 := s2.(threads := [Caller(cfg, Starting(0.0, wait), 0.0)]);
    LoneStep(cfg, s2, s3);
    Later(cfg, s3, Tick(heldUp));
    var s4 := s3.(now := heldUp);
    LoneStep(cfg, s4, s4.(threads := [Caller(cfg, Acquiring(heldUp + wait), heldUp)]));
  }

  lemma LoneWins(cfg: Config, heldUp: real)
    requires cfg.maxQueue > 0 && cfg.maxWait > 0.0 && heldUp > 0.0
    ensures var end := heldUp + Min(POLL, cfg.maxWait);
            Reachable(cfg, State(end, 1, None, Some(0),
                                 [Caller(cfg, Leaving(Won), heldUp).(wonAt := Some(end))], [Took(0)]))
  {
    var wait := Min(POLL, cfg.maxWait);
    var end := heldUp + wait;
    LoneWaits(cfg, heldUp);
    var s0 := State(heldUp, 1, None, None, [Caller(cfg, Acquiring(end), heldUp)], []);
    Later(cfg, s0, Tick(wait));
    var s1 := s0.(now := end);
    LoneStep(cfg, s1, s1.(threads := [Caller(cfg, Leaving(Won), heldUp).(wonAt := Some(end))], slot := Some(0),
                          log := [Took(0)]));
  }

  /** A lone caller at work, who won the slot `heldUp` after it was to give up. */
  predicate WinsLate(s: State, heldUp: real) {
    && |s.threads| == 1
    && var t := s.threads[0];
       && t.phase.Working? && t.late == heldUp && t.wonAt == Some(t.giveUp + heldUp)
       && t.deadline == Some(t.giveUp + MARGIN)
  }

  /** However long a caller is held up between its look at the clock and its wait for
      the slot, it may win it, and have the model run, that long after it was to give
      up; so after its deadline where that is longer than the margin. */
  lemma BoundIsMet(cfg: Config, heldUp: real)
    requires cfg.maxQueue > 0 && cfg.maxWait > 0.0 && heldUp > 0.0
    ensures exists s :: Reachable(cfg, s) && WinsLate(s, heldUp)
  {
    var end := heldUp + Min(POLL, cfg.maxWait);
    LoneWins(cfg, heldUp);
    var t := Caller(cfg, Leaving(Won), heldUp).(wonAt := Some(end));
    var s0 := State(end, 1, None, Some(0), [t], [Took(0)]);
    var s1 := s0.(threads := [t.(phase := Uncounting(Won))], admission := Some(0));
    LoneStep(cfg, s0, s1);
    var s2 := s1.(threads := [t.(phase := Storing(1, Won))]);
    LoneStep(cfg, s1, s2);
    var s3 := s2.(threads := [t.(phase := Left(Won))], waiting := 0);
    LoneStep(cfg, s2, s3);
    var s4 := s3.(threads := [t.(phase := Checking)], admission := None);
    LoneStep(cfg, s3, s4);
    var s5 := s4.(threads := [t.(phase := Working)], log := [Took(0), Ran(0)]);
    LoneStep(cfg, s4, s5);
    assert WinsLate(s5, heldUp);
  }

  /** The model runs only in the slot, for a client who was there after the slot was
      won. */
  lemma RunsOnlyForPresent(cfg: Config, s: State, k: nat)
    requires Reachable(cfg, s) && k < |s.log|
    ensures RanRightly(s.threads, s.log, k)
  {
    ReachableInv(cfg, s);
  }

  /** A call that is over, however it ended, holds no lock and is not counted; when
      every call is over, the counter is zero and both locks are free. */
  lemma EveryExitRestores(cfg: Config, s: State)
    requires Reachable(cfg, s) && forall t | t in s.threads :: t.phase.Done? || t.phase.Idle?
    ensures s.waiting == 0 && s.admission == None && s.slot == None
  {
    ReachableInv(cfg, s);
    CountNone(s.threads);
    forall i | 0 <= i < |s.threads| ensures s.admission != Some(i) && s.slot != Some(i) {
      assert s.threads[i] in s.threads;
      assert ThreadOk(cfg, s, i);
    }
  }

  /** Nobody waits for nothing: while a call is in progress some thread can move, at
      once or when a wait for the slot is over. */
  lemma NeverStuck(cfg: Config, s: State, i: nat)
    requires Reachable(cfg, s) && i < |s.threads| && !s.threads[i].phase.Done?
    ensures exists j :: CanMove(s, j)
  {
    ReachableInv(cfg, s);
    var p := s.threads[i].phase;
    if (p.Entering? || p.Leaving?) && s.admission.Some? {
      assert ThreadOk(cfg, s, s.admission.value);
      assert CanMove(s, s.admission.value);
    } else if p.Acquiring? && s.slot.Some? {
      var j := s.slot.value;
      assert ThreadOk(cfg, s, j);
      if s.threads[j].phase.Leaving? && s.admission.Some? {
        assert ThreadOk(cfg, s, s.admission.value);
        assert CanMove(s, s.admission.value);
      } else {
        assert CanMove(s, j);
      }
    } else {
      assert CanMove(s, i);
    }
  }

  predicate CanMove(s: State, j: nat) { Enabled(s, Move(j, No, false)) }
}