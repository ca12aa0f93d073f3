/** The sweep line of scripts/ci/metrics.ts: how many CI jobs ran at once. */
module JobMetrics {
  import opened Basics

  /** A job as the API reports it; the timestamps are milliseconds. */
  datatype Job = Job(name: string, started: Option<int>, completed: Option<int>, conclusion: Option<string>)

  datatype Event = Event(time: int, change: int)

  predicate Counted(j: Job) {
    j.started.Some? && j.completed.Some? && j.conclusion != Some("skipped")
  }

  /** A job that ends no earlier than it starts. */
  predicate Ordered(j: Job) {
    Counted(j) ==> j.started.value <= j.completed.value
  }

  predicate RunsAt(j: Job, t: int) {
    Counted(j) && j.started.value <= t < j.completed.value
  }

  /** How many of `jobs` run at time `t`. */
  function RunningAt(jobs: seq<Job>, t: int): nat {
    if jobs == [] then 0
    else RunningAt(jobs[..|jobs| - 1], t) + if RunsAt(jobs[|jobs| - 1], t) then 1 else 0
  }

  function Events(jobs: seq<Job>): (r: seq<Event>)
    ensures forall e | e in r :: e.change == 1 || e.change == -1
  {
    if jobs == [] then []
    else
      var j := jobs[|jobs| - 1];
      Events(jobs[..|jobs| - 1]) +
      if Counted(j) then [Event(j.started.value, 1), Event(j.completed.value, -1)] else []
  }

  // ----- the sort: by time, ends before starts ------------------------------

  predicate Before(a: Event, b: Event) {
    a.time < b.time || (a.time == b.time && a.change <= b.change)
  }

  predicate InOrder(s: seq<Event>) {
    forall i, j | 0 <= i < j < |s| :: Before(s[i], s[j])
  }

  function Insert(s: seq<Event>, e: Event): (r: seq<Event>)
    ensures forall x :: x in r <==> x in s || x == e
  {
    if s == [] || Before(s[|s| - 1], e) then s + [e]
    else Insert(s[..|s| - 1], e) + [s[|s| - 1]]
  }

  function Sorted(s: seq<Event>): (r: seq<Event>)
    ensures forall x :: x in r <==> x in s
  {
    if s == [] then [] else Insert(Sorted(s[..|s| - 1]), s[|s| - 1])
  }

  lemma {:induction false} InsertInOrder(s: seq<Event>, e: Event)
    requires InOrder(s)
    ensures InOrder(Insert(s, e))
  {
    if s != [] && !Before(s[|s| - 1], e) {
      var init, last := s[..|s| - 1], s[|s| - 1];
      InsertInOrder(init, e);
      forall i | 0 <= i < |Insert(init, e)|
        ensures Before(Insert(init, e)[i], last)
      {
        assert Insert(init, e)[i] in Insert(init, e);
      }
    }
  }

  lemma {:induction false} SortedInOrder(s: seq<Event>)
    ensures InOrder(Sorted(s))
  {
    if s != [] {
      SortedInOrder(s[..|s| - 1]);
      InsertInOrder(Sorted(s[..|s| - 1]), s[|s| - 1]);
    }
  }

  // ----- sums of changes ----------------------------------------------------

  function Total(s: seq<Event>): int {
    if s == [] then 0 else Total(s[..|s| - 1]) + s[|s| - 1].change
  }

  /** The changes of the events no later than `t`. */
  function ChangeUpTo(s: seq<Event>, t: int): int {
    if s == [] then 0
    else ChangeUpTo(s[..|s| - 1], t) + if s[|s| - 1].time <= t then s[|s| - 1].change else 0
  }

  lemma {:induction false} InsertChange(s: seq<Event>, e: Event, t: int)
    ensures ChangeUpTo(Insert(s, e), t) == ChangeUpTo(s + [e], t)
  {
    assert (s + [e])[..|s|] == s;
    if s != [] && !Before(s[|s| - 1], e) {
      var init, last := s[..|s| - 1], s[|s| - 1];
      InsertChange(init, e, t);
      assert (init + [e])[..|init|] == init;
      assert (Insert(init, e) + [last])[..|Insert(init, e)|] == Insert(init, e);
    }
  }

  lemma {:induction false} SortKeepsChange(s: seq<Event>, t: int)
    ensures ChangeUpTo(Sorted(s), t) == ChangeUpTo(s, t)
  {
    if s != [] {
      var init, last := s[..|s| - 1], s[|s| - 1];
      SortKeepsChange(init, t);
      InsertChange(Sorted(init), last, t);
      assert (Sorted(init) + [last])[..|Sorted(init)|] == Sorted(init);
    }
  }

  /** Starts minus ends up to `t` are the jobs running at `t`. */
  lemma TwoMore(s: seq<Event>, a: Event, b: Event, t: int)
    ensures ChangeUpTo(s + [a, b], t) ==
            ChangeUpTo(s, t) + (if a.time <= t then a.change else 0) + if b.time <= t then b.change else 0
  {
    assert s + [a, b] == (s + [a]) + [b];
    assert ((s + [a]) + [b])[..|s| + 1] == s + [a] && (s + [a])[..|s|] == s;
  }

  lemma {:induction false} EventsCountJobs(jobs: seq<Job>, t: int)
    requires forall j | j in jobs :: Ordered(j)
    ensures ChangeUpTo(Events(jobs), t) == RunningAt(jobs, t)
  {
    if jobs != [] {
      var init, j := jobs[..|jobs| - 1], jobs[|jobs| - 1];
      EventsCountJobs(init, t);
      if Counted(j) {
        assert Ordered(j);
        TwoMore(Events(init), Event(j.started.value, 1), Event(j.completed.value, -1), t);
      } else {
        assert Events(jobs) == Events(init);
      }
    }
  }

  /** In order, the events up to `t` come first. */
  lemma {:induction false} OrderedPrefix(s: seq<Event>, t: int) returns (n: nat)
    requires InOrder(s)
    ensures n <= |s| && ChangeUpTo(s, t) == Total(s[..n])
  {
    if s == [] {
      n := 0;
      assert s[..n] == s;
    } else if s[|s| - 1].time <= t {
      n := |s|;
      AllUpTo(s, t);
      assert s[..n] == s;
    } else {
      n := OrderedPrefix(s[..|s| - 1], t);
      assert s[..|s| - 1][..n] == s[..n];
    }
  }

  lemma {:induction false} AllUpTo(s: seq<Event>, t: int)
    requires forall e | e in s :: e.time <= t
    ensures ChangeUpTo(s, t) == Total(s)
  {
    if s != [] {
      AllUpTo(s[..|s| - 1], t);
    }
  }

  /** A start at `t` is only followed by starts at `t`: the total after it is at
      most the total once all events of `t` are in. */
  lemma {:induction false} StartIsBelow(s: seq<Event>, k: nat)
    requires InOrder(s) && k < |s| && s[k].change == 1
    requires forall e | e in s :: e.change == 1 || e.change == -1
    ensures Total(s[..k + 1]) <= ChangeUpTo(s, s[k].time)
    decreases |s|
  {
    if k == |s| - 1 {
      assert s[..k + 1] == s;
      AllUpTo(s, s[k].time);
    } else {
      var init := s[..|s| - 1];
      StartIsBelow(init, k);
      assert init[..k + 1] == s[..k + 1];
      assert Before(s[k], s[|s| - 1]);
    }
  }

  /** Every running total is at most what some moment really has running. */
  lemma {:induction false} PrefixIsReached(s: seq<Event>, n: nat) returns (t: int)
    requires InOrder(s) && n <= |s|
    requires forall e | e in s :: e.change == 1 || e.change == -1
    ensures Total(s[..n]) <= 0 || Total(s[..n]) <= ChangeUpTo(s, t)
  {
    t := 0;
    if n > 0 {
      assert s[..n][..n - 1] == s[..n - 1];
      if s[n - 1].change == 1 {
        StartIsBelow(s, n - 1);
        t := s[n - 1].time;
      } else {
        t := PrefixIsReached(s, n - 1);
        assert s[n - 1] in s;
      }
    }
  }

  // ----- the sweep ----------------------------------------------------------

  function Max(x: int, y: int): int { if x < y then y else x }

  /** The peak of the running totals, starting from zero. */
  function Peak(s: seq<Event>): (p: int)
    ensures p >= 0
  {
    if s == [] then 0 else Max(Peak(s[..|s| - 1]), Total(s))
  }

  method PeakConcurrentJobs(jobs: seq<Job>) returns (peak: int)
    ensures peak == Peak(Sorted(Events(jobs)))
  {
    var events := Sorted(Events(jobs));
    var active := 0;
    peak := 0;
    for i := 0 to |events|
      invariant active == Total(events[..i])
      invariant peak == Peak(events[..i])
    {
      active := active + events[i].change;
      peak := Max(peak, active);
      assert events[..i + 1][..i] == events[..i];
    }
    assert events[..|events|] == events;
  }

  lemma {:induction false} PeakBoundsPrefixes(s: seq<Event>, n: nat)
    requires n <= |s|
    ensures Total(s[..n]) <= Peak(s)
    decreases |s|
  {
    if n < |s| {
      PeakBoundsPrefixes(s[..|s| - 1], n);
      assert s[..|s| - 1][..n] == s[..n];
    } else {
      assert s[..n] == s;
    }
  }

  lemma {:induction false} PeakIsAPrefix(s: seq<Event>) returns (n: nat)
    ensures n <= |s| && Peak(s) == Total(s[..n])
  {
    n := 0;
    if s != [] {
      if Peak(s) == Total(s) {
        n := |s|;
        assert s[..n] == s;
      } else {
        n := PeakIsAPrefix(s[..|s| - 1]);
        assert s[..|s| - 1][..n] == s[..n];
      }
    }
  }

  /** On any jobs at all, the peak is the greatest surplus of starts over ends at any
      one time. */
  lemma PeakIsGreatestSurplus(jobs: seq<Job>)
    ensures forall t :: ChangeUpTo(Events(jobs), t) <= Peak(Sorted(Events(jobs)))
    ensures Peak(Sorted(Events(jobs))) == 0 || exists t :: ChangeUpTo(Events(jobs), t) == Peak(Sorted(Events(jobs)))
  {
    var s := Sorted(Events(jobs));
    SortedInOrder(Events(jobs));
    forall t
      ensures ChangeUpTo(s, t) == ChangeUpTo(Events(jobs), t) <= Peak(s)
    {
      SortKeepsChange(Events(jobs), t);
      var n := OrderedPrefix(s, t);
      PeakBoundsPrefixes(s, n);
    }
    var n := PeakIsAPrefix(s);
    var t := PrefixIsReached(s, n);
    assert ChangeUpTo(s, t) == ChangeUpTo(Events(jobs), t) <= Peak(s);
    assert Peak(s) <= 0 || Peak(s) <= ChangeUpTo(s, t);
  }

  /** Whether the reported peak is the largest number of jobs that run at any one time:
      never exceeded, and reached unless no job ever runs. Ties and jobs of no length
      count by the half-open interval. */
  ghost predicate PeakIsRight(jobs: seq<Job>) {
    var peak := Peak(Sorted(Events(jobs)));
    (forall t :: RunningAt(jobs, t) <= peak) && (peak == 0 || exists t :: RunningAt(jobs, t) == peak)
  }

  lemma PeakIsMaximum(jobs: seq<Job>)
    requires forall j | j in jobs :: Ordered(j)
    ensures PeakIsRight(jobs)
  {
    PeakIsGreatestSurplus(jobs);
    forall t
      ensures ChangeUpTo(Events(jobs), t) == RunningAt(jobs, t)
    {
      EventsCountJobs(jobs, t);
    }
  }

  /** A job that runs from the end of `j` to its start. */
  function Beside(j: Job): Job { Job("beside", j.completed, j.started, None) }

  /** The order of a job's own timestamps is needed for every single job: beside one
      that ends before it starts, the peak misses a job that does run. */
  lemma ReversedJobHidesAnother(j: Job)
    requires !Ordered(j)
    ensures Ordered(Beside(j)) && !PeakIsRight([j, Beside(j)])
  {
    var jobs := [j, Beside(j)];
    var ends, starts := j.completed.value, j.started.value;
    assert jobs[..1] == [j] && [j][..0] == [];
    assert RunningAt([j], ends) == 0;
    assert RunningAt(jobs, ends) == 1;
    ReversedEvents(j);
    forall t
      ensures ChangeUpTo(Events(jobs), t) <= 0
    {
      SurplusOfFour(Event(starts, 1), Event(ends, -1), Event(ends, 1), Event(starts, -1), t);
    }
    PeakIsGreatestSurplus(jobs);
  }

  lemma ReversedEvents(j: Job)
    requires !Ordered(j)
    ensures Events([j, Beside(j)]) ==
            [Event(j.started.value, 1), Event(j.completed.value, -1)] +
            [Event(j.completed.value, 1), Event(j.started.value, -1)]
  {
    assert [j, Beside(j)][..1] == [j] && [j][..0] == [];
    assert Events([j]) == [] + [Event(j.started.value, 1), Event(j.completed.value, -1)];
  }

  lemma SurplusOfFour(a: Event, b: Event, c: Event, d: Event, t: int)
    requires a.time == d.time && a.change == -d.change && b.time == c.time && b.change == -c.change
    ensures ChangeUpTo([a, b] + [c, d], t) == 0
  {
    TwoMore([], a, b, t);
    TwoMore([a, b], c, d, t);
    assert [] + [a, b] == [a, b];
  }

  /** So the check a caller can make is exact: a job's timestamps are in order just when
      it spoils no peak among jobs whose timestamps are. */
  lemma OrderIsTheCondition(j: Job)
    ensures Ordered(j) <==>
            forall others: seq<Job> | (forall o | o in others :: Ordered(o)) :: PeakIsRight([j] + others)
  {
    if Ordered(j) {
      forall others: seq<Job> | forall o | o in others :: Ordered(o)
        ensures PeakIsRight([j] + others)
      {
        PeakIsMaximum([j] + others);
      }
    } else {
      ReversedJobHidesAnother(j);
      assert [j] + [Beside(j)] == [j, Beside(j)];
    }
  }
}
