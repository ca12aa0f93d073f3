/** `supervise` of scripts/dev-stack/supervise.ts: the stack's processes, stopped
    together. The class below is the program; `State` is what it holds, with a record
    of everything it did to the outside. */
module Supervision {
  import opened Basics

  datatype Signal = Term | Kill

  /** Why the stack stops: a signal, or a child's exit with its code. */
  datatype Cause = BySignal | ByChild(child: nat, code: Option<int>)

  /** What the outside sees. A probe asks whether a group has a member left. */
  datatype Action =
    | OnStop(cause: Cause)
    | Sent(group: int, signal: Signal)
    | Probed(group: int, alive: bool)
    | Resolved(code: int, left: seq<int>, sinceKill: Option<int>)

  /** `pollTimer` and `killTimer` are the program's handles, `polls` and `kills` the
      timers that are armed; `started` are the groups there were at the start. */
  datatype State = State(
    stopping: bool,
    exitCode: int,
    remaining: int,
    settled: seq<bool>,
    killedAt: Option<int>,
    killTimer: Option<nat>,
    pollTimer: Option<nat>,
    kills: set<nat>,
    polls: set<nat>,
    timers: nat,
    groups: seq<int>,
    listening: bool,
    started: seq<int>,
    log: seq<Action>)

  /** What the kernel and the clock say while an event is handled. */
  datatype World = World(alive: int -> bool, now: int)

  function Do(s: State, a: Action): State { s.(log := s.log + [a]) }

  function SendAll(s: State, groups: seq<int>, signal: Signal): State
    decreases |groups|
  {
    if groups == [] then s else SendAll(Do(s, Sent(groups[0], signal)), groups[1..], signal)
  }

  function Without(groups: seq<int>, i: nat): seq<int>
    requires i < |groups|
  {
    groups[..i] + groups[i + 1..]
  }

  /** Groups `i - 1` down to 0 are asked for, and dropped when nobody is left. */
  function Sweep(s: State, i: nat, alive: int -> bool): State
    requires i <= |s.groups|
    decreases i
  {
    if i == 0 then s
    else
      var g := s.groups[i - 1];
      var probed := Do(s, Probed(g, alive(g)));
      Sweep(if alive(g) then probed else probed.(groups := Without(s.groups, i - 1)), i - 1, alive)
  }

  function Clear(armed: set<nat>, handle: Option<nat>): set<nat> {
    if handle.Some? then armed - {handle.value} else armed
  }

  function SinceKill(s: State, now: int): Option<int> {
    if s.killedAt.Some? then Some(now - s.killedAt.value) else None
  }

  function Finish(s: State, now: int): State {
    Do(s.(kills := Clear(s.kills, s.killTimer), polls := Clear(s.polls, s.pollTimer), listening := false),
       Resolved(s.exitCode, s.groups, SinceKill(s, now)))
  }

  predicate MayFinish(s: State, settleMs: int, now: int) {
    s.remaining == 0 && (s.groups == [] || (s.killedAt.Some? && now - s.killedAt.value >= settleMs))
  }

  /** The armed poll, if any, is called off. */
  function Cleared(s: State): State { s.(polls := Clear(s.polls, s.pollTimer), pollTimer := None) }

  function Armed(s: State): State {
    s.(pollTimer := Some(s.timers), polls := s.polls + {s.timers}, timers := s.timers + 1)
  }

  function Poll(s: State, settleMs: int, w: World): State {
    var swept := Sweep(Cleared(s), |s.groups|, w.alive);
    if MayFinish(swept, settleMs, w.now) then Finish(swept, w.now) else Armed(swept)
  }

  /** The stop up to its first poll: everyone is told, and SIGKILL is armed. */
  function Stopped(s: State, cause: Cause): State {
    var told := SendAll(Do(s.(stopping := true), OnStop(cause)), s.groups, Term);
    told.(killTimer := Some(told.timers), kills := told.kills + {told.timers}, timers := told.timers + 1)
  }

  function StopAll(s: State, cause: Cause, settleMs: int, w: World): State {
    if s.stopping then s else Poll(Stopped(s, cause), settleMs, w)
  }

  function ChildCode(code: Option<int>): int {
    if code == Some(0) then 1 else if code.Some? then code.value else 1
  }

  /** What a child's end does to the others: the first one stops them. */
  function ChildStops(s: State, child: nat, code: Option<int>, settleMs: int, w: World): State {
    if s.stopping then s else StopAll(s.(exitCode := ChildCode(code)), ByChild(child, code), settleMs, w)
  }

  /** One leader less; the last one to go polls. */
  function OneLess(s: State, settleMs: int, w: World): State {
    var fewer := s.(remaining := s.remaining - 1);
    if fewer.remaining == 0 then Poll(fewer, settleMs, w) else fewer
  }

  function Settle(s: State, child: nat, code: Option<int>, settleMs: int, w: World): State
    requires child < |s.settled|
  {
    if s.settled[child] then s
    else
      var own := s.(settled := s.settled[child := true]);
      OneLess(ChildStops(own, child, code, settleMs, w), settleMs, w)
  }

  function KillFires(s: State, timer: nat, now: int): State {
    SendAll(s.(kills := s.kills - {timer}, killedAt := Some(now)), s.groups, Kill)
  }

  function PollFires(s: State, timer: nat, settleMs: int, w: World): State {
    Poll(s.(polls := s.polls - {timer}), settleMs, w)
  }

  // ----- the program --------------------------------------------------------

  class Supervisor {
    const settleMs: int
    var stopping: bool
    var exitCode: int
    var remaining: int
    var settled: seq<bool>
    var killedAt: Option<int>
    var killTimer: Option<nat>
    var pollTimer: Option<nat>
    var kills: set<nat>
    var polls: set<nat>
    var timers: nat
    var groups: seq<int>
    var listening: bool
    ghost const started: seq<int>
    ghost var log: seq<Action>

    ghost function Now(): State
      reads this
    {
      State(stopping, exitCode, remaining, settled, killedAt, killTimer, pollTimer, kills, polls, timers, groups,
        listening, started, log)
    }

    /** `pids` are the groups of the children that could be started. */
    constructor (children: nat, pids: seq<int>, settleMs: int)
      ensures Now() == Begin(children, pids) && this.settleMs == settleMs
    {
      this.settleMs := settleMs;
      stopping, exitCode, remaining := false, 0, children;
      settled := seq(children, _ => false);
      killedAt, killTimer, pollTimer := None, None, None;
      kills, polls, timers := {}, {}, 0;
      groups, listening, started, log := pids, true, pids, [];
    }

    method SignalAll(signal: Signal)
      modifies this`log
      ensures Now() == SendAll(old(Now()), groups, signal)
    {
      var i := 0;
      while i < |groups|
        invariant i <= |groups|
        invariant SendAll(Now(), groups[i..], signal) == SendAll(old(Now()), groups, signal)
      {
        assert groups[i..][1..] == groups[i + 1..];
        log := log + [Sent(groups[i], signal)];
        i := i + 1;
      }
    }

    method FinishNow(now: int)
      modifies this
      ensures Now() == Finish(old(Now()), now)
    {
      if killTimer.Some? {
        kills := kills - {killTimer.value};
      }
      if pollTimer.Some? {
        polls := polls - {pollTimer.value};
      }
      listening := false;
      log := log + [Resolved(exitCode, groups, if killedAt.Some? then Some(now - killedAt.value) else None)];
    }

    /** Drops the groups nobody is left in. */
    method DropEmptyGroups(alive: int -> bool)
      modifies this`groups, this`log
      ensures Now() == Sweep(old(Now()), |old(groups)|, alive)
    {
      var i := |groups|;
      while i > 0
        invariant 0 <= i <= |groups|
        invariant Sweep(Now(), i, alive) == Sweep(old(Now()), |old(groups)|, alive)
      {
        i := i - 1;
        log := log + [Probed(groups[i], alive(groups[i]))];
        if !alive(groups[i]) {
          groups := groups[..i] + groups[i + 1..];
        }
      }
    }

    method PollGroups(w: World)
      modifies this
      ensures Now() == Poll(old(Now()), settleMs, w)
    {
      if pollTimer.Some? {
        polls := polls - {pollTimer.value};
      }
      pollTimer := None;
      assert Now() == Cleared(old(Now()));
      DropEmptyGroups(w.alive);
      ghost var swept := Now();
      if remaining == 0 && |groups| == 0 {
        FinishNow(w.now);
        return;
      }
      if remaining == 0 && killedAt.Some? && w.now - killedAt.value >= settleMs {
        FinishNow(w.now);
        return;
      }
      pollTimer, polls, timers := Some(timers), polls + {timers}, timers + 1;
      assert Now() == Armed(swept);
    }

    /** Everything of a stop but the first poll. */
    method BeginStop(cause: Cause)
      modifies this
      ensures Now() == Stopped(old(Now()), cause)
    {
      stopping := true;
      log := log + [OnStop(cause)];
      SignalAll(Term);
      killTimer, kills, timers := Some(timers), kills + {timers}, timers + 1;
    }

    method Stop(cause: Cause, w: World)
      modifies this
      ensures Now() == StopAll(old(Now()), cause, settleMs, w)
    {
      if stopping {
        return;
      }
      BeginStop(cause);
      PollGroups(w);
    }

    /** A child exited, or could not be started. */
    method ChildSettles(child: nat, code: Option<int>, w: World)
      requires child < |settled|
      modifies this
      ensures Now() == Settle(old(Now()), child, code, settleMs, w)
    {
      if settled[child] {
        return;
      }
      settled := settled[child := true];
      StopForChild(child, code, w);
      LeaderGone(w);
    }

    method StopForChild(child: nat, code: Option<int>, w: World)
      modifies this
      ensures Now() == ChildStops(old(Now()), child, code, settleMs, w)
    {
      if !stopping {
        exitCode := if code == Some(0) then 1 else if code.Some? then code.value else 1;
        Stop(ByChild(child, code), w);
      }
    }

    method LeaderGone(w: World)
      modifies this
      ensures Now() == OneLess(old(Now()), settleMs, w)
    {
      remaining := remaining - 1;
      if remaining == 0 {
        PollGroups(w);
      }
    }

    method KillTimerFires(timer: nat, now: int)
      modifies this
      ensures Now() == KillFires(old(Now()), timer, now)
    {
      kills := kills - {timer};
      killedAt := Some(now);
      SignalAll(Kill);
    }

    method PollTimerFires(timer: nat, w: World)
      modifies this
      ensures Now() == PollFires(old(Now()), timer, settleMs, w)
    {
      polls := polls - {timer};
      PollGroups(w);
    }
  }

  // ----- events -------------------------------------------------------------

  function Begin(children: nat, pids: seq<int>): State {
    State(false, 0, children, seq(children, _ => false), None, None, None, {}, {}, 0, pids, true, pids, [])
  }

  datatype Event =
    | Settles(child: nat, code: Option<int>, world: World)
    | Interrupt(world: World)
    | KillTimer(timer: nat, now: int)
    | PollTimer(timer: nat, world: World)

  /** Children exit or fail at any time, even more than once; signals arrive while the
      program listens; armed timers fire. */
  predicate Possible(s: State, e: Event) {
    match e
    case Settles(child, _, _) => child < |s.settled|
    case Interrupt(_) => s.listening
    case KillTimer(timer, _) => timer in s.kills
    case PollTimer(timer, _) => timer in s.polls
  }

  function Handle(s: State, settleMs: int, e: Event): State
    requires Possible(s, e)
  {
    match e
    case Settles(child, code, w) => Settle(s, child, code, settleMs, w)
    case Interrupt(w) => StopAll(s, BySignal, settleMs, w)
    case KillTimer(timer, now) => KillFires(s, timer, now)
    case PollTimer(timer, w) => PollFires(s, timer, settleMs, w)
  }

  predicate Follows(s: State, settleMs: int, events: seq<Event>)
    decreases |events|
  {
    events == [] || (Possible(s, events[0]) && Follows(Handle(s, settleMs, events[0]), settleMs, events[1..]))
  }

  function Run(s: State, settleMs: int, events: seq<Event>): State
    requires Follows(s, settleMs, events)
    decreases |events|
  {
    if events == [] then s else Run(Handle(s, settleMs, events[0]), settleMs, events[1..])
  }
}
