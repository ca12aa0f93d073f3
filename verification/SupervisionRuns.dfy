/** What `supervise` keeps in every order of exits, failed starts, signals and timers. */
module SupervisionRuns {
  import opened Basics
  import opened Supervision

  // ----- reading the record -------------------------------------------------

  /** Why the stack was stopped, if it was. */
  function CauseIn(log: seq<Action>): Option<Cause> {
    if log == [] then None
    else if CauseIn(log[..|log| - 1]).Some? then CauseIn(log[..|log| - 1])
    else if log[|log| - 1].OnStop? then Some(log[|log| - 1].cause)
    else None
  }

  predicate ResolvedIn(log: seq<Action>) {
    log != [] && (log[|log| - 1].Resolved? || ResolvedIn(log[..|log| - 1]))
  }

  /** The groups found empty. */
  function DroppedIn(log: seq<Action>): set<int> {
    if log == [] then {}
    else
      var a := log[|log| - 1];
      DroppedIn(log[..|log| - 1]) + (if a.Probed? && !a.alive then {a.group} else {})
  }

  /** What the promise resolves with: 0 for a signal, else the code of the child that
      exited first. */
  function CodeFor(cause: Cause): int {
    match cause
    case BySignal => 0
    case ByChild(_, code) => ChildCode(code)
  }

  /** Whether an action is right after what came before it: nothing follows the
      resolution, `onStop` is first and once, no dropped group is signalled or asked
      for again, and the resolution gives the cause's code and waits for the groups or
      for the settle time. */
  predicate Right(settleMs: int, before: seq<Action>, a: Action) {
    && !ResolvedIn(before)
    && match a
       case OnStop(_) => CauseIn(before) == None
       case Sent(group, _) => CauseIn(before).Some? && group !in DroppedIn(before)
       case Probed(group, _) => CauseIn(before).Some? && group !in DroppedIn(before)
       case Resolved(code, left, sinceKill) =>
         && CauseIn(before).Some? && code == CodeFor(CauseIn(before).value)
         && (code == 0 <==> CauseIn(before) == Some(BySignal))
         && (left == [] || (sinceKill.Some? && sinceKill.value >= settleMs))
  }

  ghost predicate AllRight(settleMs: int, log: seq<Action>) {
    forall k | 0 <= k < |log| :: Right(settleMs, log[..k], log[k])
  }

  lemma OneMore(settleMs: int, log: seq<Action>, a: Action)
    requires AllRight(settleMs, log) && Right(settleMs, log, a)
    ensures AllRight(settleMs, log + [a])
    ensures CauseIn(log + [a]) == if CauseIn(log).Some? then CauseIn(log) else if a.OnStop? then Some(a.cause) else None
    ensures ResolvedIn(log + [a]) <==> a.Resolved? || ResolvedIn(log)
    ensures DroppedIn(log + [a]) == DroppedIn(log) + (if a.Probed? && !a.alive then {a.group} else {})
  {
    var longer := log + [a];
    assert longer[..|log|] == log;
    forall k | 0 <= k < |longer| ensures Right(settleMs, longer[..k], longer[k]) {
      if k < |log| {
        assert longer[..k] == log[..k];
        assert Right(settleMs, log[..k], log[k]);
      }
    }
  }

  // ----- the state ----------------------------------------------------------

  /** The record is right so far, and the groups still known are those not dropped. */
  ghost predicate Recorded(s: State, settleMs: int) {
    && AllRight(settleMs, s.log) && Distinct(s.groups)
    && (forall g | g in s.groups :: g !in DroppedIn(s.log))
    && (forall g | g in s.started :: g in s.groups || g in DroppedIn(s.log))
    && (s.stopping <==> CauseIn(s.log).Some?) && (s.listening <==> !ResolvedIn(s.log))
    && (s.stopping ==> s.exitCode == CodeFor(CauseIn(s.log).value))
  }

  /** SIGKILL is armed once, or has been sent. */
  predicate KillArmed(s: State) {
    if s.killedAt.Some? then s.kills == {} else s.killTimer.Some? && s.kills == {s.killTimer.value}
  }

  /** One poll is armed. */
  predicate PollArmed(s: State) {
    s.pollTimer.Some? && s.polls == {s.pollTimer.value}
  }

  predicate Silent(s: State) {
    s.polls == {} && s.kills == {}
  }

  /** In a stop, just before a poll. */
  ghost predicate Polling(s: State, settleMs: int) {
    Recorded(s, settleMs) && s.stopping && s.listening && KillArmed(s) && Clear(s.polls, s.pollTimer) == {}
  }

  /** In a stop, after a poll: one poll is armed, or all is over. */
  ghost predicate Polled(s: State, settleMs: int) {
    && Recorded(s, settleMs) && s.stopping
    && (if s.listening then KillArmed(s) && PollArmed(s) else Silent(s) && s.remaining == 0 && Ended(s))
  }

  /** The last thing done is to resolve, with the groups that were left. */
  predicate Ended(s: State) {
    s.log != [] && s.log[|s.log| - 1].Resolved? && s.log[|s.log| - 1].left == s.groups
  }

  /** Before the stop. */
  ghost predicate Waiting(s: State, settleMs: int) {
    && Recorded(s, settleMs) && !s.stopping && s.listening && Silent(s)
    && s.pollTimer == None && s.killedAt == None && s.exitCode == 0
  }

  function Unsettled(settled: seq<bool>): nat {
    if settled == [] then 0 else (if settled[0] then 0 else 1) + Unsettled(settled[1..])
  }

  ghost predicate Inv(s: State, settleMs: int) {
    && s.remaining == Unsettled(s.settled)
    && (if s.stopping then Polled(s, settleMs) else Waiting(s, settleMs))
  }

  lemma {:induction false} SettleOne(settled: seq<bool>, i: nat)
    requires i < |settled| && !settled[i]
    ensures Unsettled(settled[i := true]) == Unsettled(settled) - 1
  {
    if i > 0 {
      assert settled[i := true][1..] == settled[1..][i - 1 := true];
      SettleOne(settled[1..], i - 1);
    }
  }

  // ----- what each part keeps -----------------------------------------------

  lemma {:induction false} SendAllKeeps(s: State, groups: seq<int>, signal: Signal, settleMs: int)
    requires Recorded(s, settleMs) && s.stopping && s.listening
    requires forall i | 0 <= i < |groups| :: groups[i] in s.groups
    ensures var r := SendAll(s, groups, signal);
            Recorded(r, settleMs) && r == s.(log := r.log)
    decreases |groups|
  {
    if groups != [] {
      OneMore(settleMs, s.log, Sent(groups[0], signal));
      SendAllKeeps(Do(s, Sent(groups[0], signal)), groups[1..], signal, settleMs);
    }
  }

  lemma WithoutIn(groups: seq<int>, i: nat, g: int)
    requires i < |groups| && Distinct(groups)
    ensures Distinct(Without(groups, i))
    ensures g in Without(groups, i) <==> g in groups && g != groups[i]
  {
    var rest := Without(groups, i);
    forall j, k | 0 <= j < k < |rest| ensures rest[j] != rest[k] {
      assert rest[j] == groups[if j < i then j else j + 1] && rest[k] == groups[if k < i then k else k + 1];
    }
    if g in groups && g != groups[i] {
      var j :| 0 <= j < |groups| && groups[j] == g;
      assert rest[if j < i then j else j - 1] == g;
    }
    if g in rest {
      var j :| 0 <= j < |rest| && rest[j] == g;
      assert groups[if j < i then j else j + 1] == g;
    }
  }

  /** One probe, and the drop of a group nobody is left in. */
  lemma ProbeKeeps(s: State, i: nat, alive: int -> bool, settleMs: int)
    requires Recorded(s, settleMs) && s.stopping && s.listening && i < |s.groups|
    ensures var g := s.groups[i];
            var probed := Do(s, Probed(g, alive(g)));
            Recorded(if alive(g) then probed else probed.(groups := Without(s.groups, i)), settleMs)
  {
    var g := s.groups[i];
    OneMore(settleMs, s.log, Probed(g, alive(g)));
    if !alive(g) {
      forall h | h in Without(s.groups, i) ensures h in s.groups && h != g {
        WithoutIn(s.groups, i, h);
      }
      WithoutIn(s.groups, i, g);
    }
  }

  lemma {:induction false} SweepKeeps(s: State, i: nat, alive: int -> bool, settleMs: int)
    requires Recorded(s, settleMs) && s.stopping && s.listening && i <= |s.groups|
    ensures var r := Sweep(s, i, alive);
            Recorded(r, settleMs) && r == s.(log := r.log, groups := r.groups)
    decreases i
  {
    if i > 0 {
      var g := s.groups[i - 1];
      var probed := Do(s, Probed(g, alive(g)));
      var next := if alive(g) then probed else probed.(groups := Without(s.groups, i - 1));
      ProbeKeeps(s, i - 1, alive, settleMs);
      SweepKeeps(next, i - 1, alive, settleMs);
    }
  }

  lemma FinishKeeps(s: State, settleMs: int, now: int)
    requires Recorded(s, settleMs) && s.stopping && s.listening && KillArmed(s) && s.polls == {}
    requires MayFinish(s, settleMs, now)
    ensures Polled(Finish(s, now), settleMs) && Finish(s, now).remaining == s.remaining
  {
    OneMore(settleMs, s.log, Resolved(s.exitCode, s.groups, SinceKill(s, now)));
  }

  lemma PollKeeps(s: State, settleMs: int, w: World)
    requires Polling(s, settleMs)
    ensures var r := Poll(s, settleMs, w);
            Polled(r, settleMs) && r.remaining == s.remaining && r.settled == s.settled
  {
    var cleared := Cleared(s);
    SweepKeeps(cleared, |cleared.groups|, w.alive, settleMs);
    var swept := Sweep(cleared, |cleared.groups|, w.alive);
    if MayFinish(swept, settleMs, w.now) {
      FinishKeeps(swept, settleMs, w.now);
    }
  }

  lemma StoppedKeeps(s: State, cause: Cause, settleMs: int)
    requires Recorded(s, settleMs) && !s.stopping && s.listening && Silent(s)
    requires s.pollTimer == None && s.killedAt == None && s.exitCode == CodeFor(cause)
    ensures var r := Stopped(s, cause);
            Polling(r, settleMs) && r.remaining == s.remaining && r.settled == s.settled
  {
    OneMore(settleMs, s.log, OnStop(cause));
    SendAllKeeps(Do(s.(stopping := true), OnStop(cause)), s.groups, Term, settleMs);
  }

  lemma StopAllKeeps(s: State, cause: Cause, settleMs: int, w: World)
    requires Recorded(s, settleMs) && !s.stopping && s.listening && Silent(s)
    requires s.pollTimer == None && s.killedAt == None && s.exitCode == CodeFor(cause)
    ensures var r := StopAll(s, cause, settleMs, w);
            Polled(r, settleMs) && r.remaining == s.remaining && r.settled == s.settled
  {
    StoppedKeeps(s, cause, settleMs);
    PollKeeps(Stopped(s, cause), settleMs, w);
  }

  /** The first end of a child: it stops the rest, unless they are being stopped. */
  lemma ChildStopsKeeps(s: State, child: nat, code: Option<int>, settleMs: int, w: World)
    requires (if s.stopping then Polled(s, settleMs) else Waiting(s, settleMs)) && s.remaining > 0
    ensures var r := ChildStops(s, child, code, settleMs, w);
            Polled(r, settleMs) && r.listening && r.remaining == s.remaining && r.settled == s.settled
  {
    if !s.stopping {
      StopAllKeeps(s.(exitCode := ChildCode(code)), ByChild(child, code), settleMs, w);
    }
  }

  lemma OneLessKeeps(s: State, settleMs: int, w: World)
    requires Polled(s, settleMs) && s.listening
    ensures var r := OneLess(s, settleMs, w);
            Polled(r, settleMs) && r.remaining == s.remaining - 1 && r.settled == s.settled
  {
    var fewer := s.(remaining := s.remaining - 1);
    if fewer.remaining == 0 {
      PollKeeps(fewer, settleMs, w);
    }
  }

  lemma SettleKeeps(s: State, child: nat, code: Option<int>, settleMs: int, w: World)
    requires Inv(s, settleMs) && child < |s.settled|
    ensures Inv(Settle(s, child, code, settleMs, w), settleMs)
  {
    if !s.settled[child] {
      SettleOne(s.settled, child);
      var own := s.(settled := s.settled[child := true]);
      ChildStopsKeeps(own, child, code, settleMs, w);
      OneLessKeeps(ChildStops(own, child, code, settleMs, w), settleMs, w);
    }
  }

  lemma KillKeeps(s: State, timer: nat, now: int, settleMs: int)
    requires Inv(s, settleMs) && timer in s.kills
    ensures Inv(KillFires(s, timer, now), settleMs)
  {
    SendAllKeeps(s.(kills := s.kills - {timer}, killedAt := Some(now)), s.groups, Kill, settleMs);
  }

  lemma PollFiresKeeps(s: State, timer: nat, settleMs: int, w: World)
    requires Inv(s, settleMs) && timer in s.polls
    ensures Inv(PollFires(s, timer, settleMs, w), settleMs)
  {
    PollKeeps(s.(polls := s.polls - {timer}), settleMs, w);
  }

  /** Every event keeps it. */
  lemma HandleKeeps(s: State, settleMs: int, e: Event)
    requires Inv(s, settleMs) && Possible(s, e)
    ensures Inv(Handle(s, settleMs, e), settleMs)
  {
    match e
    case Settles(child, code, w) => SettleKeeps(s, child, code, settleMs, w);
    case Interrupt(w) => if !s.stopping { StopAllKeeps(s, BySignal, settleMs, w); }
    case KillTimer(timer, now) => KillKeeps(s, timer, now, settleMs);
    case PollTimer(timer, w) => PollFiresKeeps(s, timer, settleMs, w);
  }

  lemma {:induction false} AllUnsettled(n: nat)
    ensures Unsettled(seq(n, _ => false)) == n
  {
    if n > 0 {
      assert seq(n, _ => false)[1..] == seq(n - 1, _ => false);
      AllUnsettled(n - 1);
    }
  }

  lemma {:induction false} RunKeeps(s: State, settleMs: int, events: seq<Event>)
    requires Inv(s, settleMs) && Follows(s, settleMs, events)
    ensures Inv(Run(s, settleMs, events), settleMs)
    decreases |events|
  {
    if events != [] {
      HandleKeeps(s, settleMs, events[0]);
      RunKeeps(Handle(s, settleMs, events[0]), settleMs, events[1..]);
    }
  }

  // ----- what holds in every run --------------------------------------------

  ghost predicate Reachable(s: State, settleMs: int) {
    exists children, pids, events :: ReachedBy(s, settleMs, children, pids, events)
  }

  ghost predicate ReachedBy(s: State, settleMs: int, children: nat, pids: seq<int>, events: seq<Event>) {
    && Distinct(pids) && Follows(Begin(children, pids), settleMs, events)
    && s == Run(Begin(children, pids), settleMs, events)
  }

  lemma ReachableInv(s: State, settleMs: int)
    requires Reachable(s, settleMs)
    ensures Inv(s, settleMs)
  {
    var children, pids, events :| ReachedBy(s, settleMs, children, pids, events);
    AllUnsettled(children);
    RunKeeps(Begin(children, pids), settleMs, events);
  }

  /** In every run `onStop` comes first and once, the promise is resolved at most once
      and then nothing more happens, no dropped group is ever signalled again, and the
      result is the code of what caused the stop: 0 exactly when that was a signal. */
  lemma RecordIsRight(s: State, settleMs: int, k: nat)
    requires Reachable(s, settleMs) && k < |s.log|
    ensures Right(settleMs, s.log[..k], s.log[k])
  {
    ReachableInv(s, settleMs);
  }

  /** At most one poll and at most one SIGKILL are armed; during a stop a poll is, and
      SIGKILL is or was sent; once resolved nothing is. */
  lemma TimersAreRight(s: State, settleMs: int)
    requires Reachable(s, settleMs)
    ensures |s.polls| <= 1 && |s.kills| <= 1
    ensures s.stopping && !ResolvedIn(s.log) ==> s.polls != {} && (s.kills != {} || s.killedAt.Some?)
    ensures ResolvedIn(s.log) ==> s.polls == {} && s.kills == {} && !s.listening
  {
    ReachableInv(s, settleMs);
  }

  lemma {:induction false} NoneUnsettled(settled: seq<bool>)
    requires Unsettled(settled) == 0
    ensures forall i | 0 <= i < |settled| :: settled[i]
  {
    if settled != [] {
      NoneUnsettled(settled[1..]);
    }
  }

  /** The promise is resolved only after every leader is gone, and every group there ever
      was has been seen empty or the settle time after SIGKILL is over. */
  lemma ResolvedAfterAll(s: State, settleMs: int)
    requires Reachable(s, settleMs) && ResolvedIn(s.log)
    ensures forall i | 0 <= i < |s.settled| :: s.settled[i]
    ensures var last := s.log[|s.log| - 1];
            && last.Resolved?
            && ((forall g | g in s.started :: g in DroppedIn(s.log))
                || (last.sinceKill.Some? && last.sinceKill.value >= settleMs))
  {
    ReachableInv(s, settleMs);
    NoneUnsettled(s.settled);
    assert Right(settleMs, s.log[..|s.log| - 1], s.log[|s.log| - 1]);
  }

  /** A signal for each group, in order. */
  function Told(groups: seq<int>, signal: Signal): seq<Action> {
    if groups == [] then [] else [Sent(groups[0], signal)] + Told(groups[1..], signal)
  }

  lemma {:induction false} SendAllTells(s: State, groups: seq<int>, signal: Signal)
    ensures SendAll(s, groups, signal) == s.(log := s.log + Told(groups, signal))
    decreases |groups|
  {
    if groups == [] {
      assert s.log + Told(groups, signal) == s.log;
    } else {
      SendAllTells(Do(s, Sent(groups[0], signal)), groups[1..], signal);
      assert s.log + [Sent(groups[0], signal)] + Told(groups[1..], signal) == s.log + Told(groups, signal);
    }
  }

  lemma {:induction false} SweepAdds(s: State, i: nat, alive: int -> bool)
    requires i <= |s.groups|
    ensures s.log <= Sweep(s, i, alive).log
    decreases i
  {
    if i > 0 {
      var g := s.groups[i - 1];
      var probed := Do(s, Probed(g, alive(g)));
      SweepAdds(if alive(g) then probed else probed.(groups := Without(s.groups, i - 1)), i - 1, alive);
    }
  }

  lemma PollAdds(s: State, settleMs: int, w: World)
    ensures s.log <= Poll(s, settleMs, w).log
  {
    SweepAdds(Cleared(s), |s.groups|, w.alive);
  }

  /** The cause an event is, when it stops the stack. */
  function CauseOf(e: Event): Cause {
    if e.Settles? then ByChild(e.child, e.code) else BySignal
  }

  /** The event that stops the stack calls `onStop` and then sends SIGTERM to every group
      there is, before anything else is done. */
  lemma StopTellsAll(s: State, settleMs: int, e: Event)
    requires Possible(s, e) && !s.stopping && Handle(s, settleMs, e).stopping && (e.Interrupt? || e.Settles?)
    ensures s.log + [OnStop(CauseOf(e))] + Told(s.groups, Term) <= Handle(s, settleMs, e).log
  {
    var own := if e.Settles? then s.(settled := s.settled[e.child := true], exitCode := ChildCode(e.code)) else s;
    var stopped := Stopped(own, CauseOf(e));
    SendAllTells(Do(own.(stopping := true), OnStop(CauseOf(e))), s.groups, Term);
    PollAdds(stopped, settleMs, e.world);
    if e.Settles? {
      var polled := Poll(stopped, settleMs, e.world);
      PollAdds(polled.(remaining := polled.remaining - 1), settleMs, e.world);
    }
  }

  /** When its timer fires, SIGKILL goes to every group not yet seen empty. */
  lemma KillTellsAll(s: State, settleMs: int, timer: nat, now: int)
    requires Reachable(s, settleMs) && timer in s.kills
    ensures KillFires(s, timer, now).log == s.log + Told(s.groups, Kill)
    ensures forall g | g in s.started :: g in s.groups || g in DroppedIn(s.log)
  {
    ReachableInv(s, settleMs);
    SendAllTells(s.(kills := s.kills - {timer}, killedAt := Some(now)), s.groups, Kill);
  }

  lemma {:induction false} SweepsClean(s: State, i: nat, alive: int -> bool)
    requires i == |s.groups| && forall g | g in s.groups :: !alive(g)
    ensures Sweep(s, i, alive).groups == []
    ensures Sweep(s, i, alive).remaining == s.remaining && Sweep(s, i, alive).killedAt == s.killedAt
    decreases i
  {
    if i > 0 {
      var g := s.groups[i - 1];
      assert g in s.groups;
      var next := Do(s, Probed(g, alive(g))).(groups := Without(s.groups, i - 1));
      assert next.groups == s.groups[..i - 1];
      SweepsClean(next, i - 1, alive);
    }
  }

  /** A stop ends: when every leader is gone, the next poll that finds no group left
      resolves, and so does one when the settle time after SIGKILL is over. */
  lemma StopEnds(s: State, settleMs: int, timer: nat, w: World)
    requires Reachable(s, settleMs) && timer in s.polls && s.remaining == 0
    requires (forall g | g in s.groups :: !w.alive(g)) || (s.killedAt.Some? && w.now - s.killedAt.value >= settleMs)
    ensures ResolvedIn(PollFires(s, timer, settleMs, w).log)
  {
    ReachableInv(s, settleMs);
    PollFiresKeeps(s, timer, settleMs, w);
    var fired := s.(polls := s.polls - {timer});
    var cleared := Cleared(fired);
    if forall g | g in s.groups :: !w.alive(g) {
      SweepsClean(cleared, |cleared.groups|, w.alive);
    } else {
      SweepKeeps(cleared, |cleared.groups|, w.alive, settleMs);
    }
    assert !PollFires(s, timer, settleMs, w).listening;
  }
}
