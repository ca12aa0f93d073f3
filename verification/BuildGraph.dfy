/** scripts/check-build-graph.ts: every task that reads a shared artifact must be
    ordered after what builds it. */
module BuildGraph {
  import opened Reachability

  type Edges = map<string, seq<string>>

  function Dependencies(edges: Edges, task: string): seq<string> {
    if task in edges then edges[task] else []
  }

  function GraphOf(edges: Edges): Graph { (task: string) => Dependencies(edges, task) }

  function AllDependencies(edges: Edges): set<string> {
    set task, d | task in edges && d in edges[task] :: d
  }

  /** Whether everything `task` depends on has been seen and is not the target. */
  predicate Scanned(edges: Edges, seen: set<string>, target: string, task: string) {
    forall d | d in Dependencies(edges, task) :: d in seen && d != target
  }

  /** The walk: what has been seen or waits is reached, and what is done is scanned.
      `current` is what is being looked at, if anything. */
  ghost predicate Walking(
    edges: Edges, from: string, target: string, seen: set<string>, queue: seq<string>, current: set<string>)
  {
    && seen <= AllDependencies(edges)
    && (forall x | x in seen || x in queue || x in current :: Reaches(GraphOf(edges), from, x))
    && forall x | (x in seen || x == from) && x !in queue && x !in current :: Scanned(edges, seen, target, x)
  }

  /** When nothing waits, no path leads to the target. */
  lemma WalkedOut(edges: Edges, from: string, target: string, seen: set<string>)
    requires Walking(edges, from, target, seen, [], {})
    ensures !DependsOn(GraphOf(edges), from, target)
  {
    var g, all := GraphOf(edges), seen + {from};
    forall a, b | a in all && Edge(g, a, b) ensures b in all && b != target {
      assert Scanned(edges, seen, target, a);
    }
    if DependsOn(g, from, target) {
      var last := LastStep(g, from, target);
      ClosedHoldsAll(g, all, from, last);
    }
  }

  /** The walk from `from`, with a stack of tasks to look at. */
  method ReachesTask(edges: Edges, from: string, target: string) returns (r: bool)
    ensures r <==> DependsOn(GraphOf(edges), from, target)
  {
    var seen, queue: seq<string> := {}, [from];
    ReachesSelf(GraphOf(edges), from);
    while queue != []
      invariant Walking(edges, from, target, seen, queue, {})
      decreases AllDependencies(edges) - seen, |queue|
    {
      var current := queue[|queue| - 1];
      Taken(edges, from, target, seen, queue);
      var found;
      found, seen, queue := Expand(edges, from, target, current, seen, queue[..|queue| - 1]);
      if found {
        return true;
      }
    }
    WalkedOut(edges, from, target, seen);
    return false;
  }

  lemma Taken(edges: Edges, from: string, target: string, seen: set<string>, queue: seq<string>)
    requires queue != [] && Walking(edges, from, target, seen, queue, {})
    ensures Walking(edges, from, target, seen, queue[..|queue| - 1], {queue[|queue| - 1]})
  {
    assert queue == queue[..|queue| - 1] + [queue[|queue| - 1]];
  }

  /** One task: its dependencies join the stack, unless one is the target. */
  method Expand(
    edges: Edges, ghost from: string, target: string, current: string, seen0: set<string>, queue0: seq<string>)
    returns (found: bool, seen: set<string>, queue: seq<string>)
    requires Walking(edges, from, target, seen0, queue0, {current})
    ensures found ==> DependsOn(GraphOf(edges), from, target)
    ensures !found ==> Walking(edges, from, target, seen, queue, {})
    ensures seen0 <= seen && seen <= AllDependencies(edges) && (seen == seen0 ==> queue == queue0)
  {
    var dependencies := Dependencies(edges, current);
    seen, queue := seen0, queue0;
    for i := 0 to |dependencies|
      invariant seen0 <= seen <= AllDependencies(edges) && (seen == seen0 ==> queue == queue0)
      invariant forall x | x in queue0 :: x in queue
      invariant forall x | x in seen && x !in seen0 :: x in queue
      invariant forall x | x in seen || x in queue :: Reaches(GraphOf(edges), from, x)
      invariant forall j | 0 <= j < i :: dependencies[j] in seen && dependencies[j] != target
    {
      var d := dependencies[i];
      ReachesNext(GraphOf(edges), from, current, d);
      if d == target {
        return true, seen, queue;
      }
      if d in seen {
        continue;
      }
      seen, queue := seen + {d}, queue + [d];
    }
    found := false;
    forall x | (x in seen || x == from) && x !in queue ensures Scanned(edges, seen, target, x) {
      if x != current {
        assert Scanned(edges, seen0, target, x);
      }
    }
  }

  // ----- consumers ----------------------------------------------------------

  /** A package and what its manifest depends on, of any kind. */
  datatype Manifest = Manifest(name: string, dependencies: set<string>)

  /** A set that holds the artifact and every package that depends on a member. */
  ghost predicate Consuming(manifests: seq<Manifest>, artifact: string, s: set<string>) {
    artifact in s && forall i | 0 <= i < |manifests| :: Settled(manifests[i], s)
  }

  predicate Settled(m: Manifest, s: set<string>) {
    m.name in s || m.dependencies !! s
  }

  function NamesOf(manifests: seq<Manifest>): set<string> { set m | m in manifests :: m.name }

  /** The least such set. */
  method CollectArtifactConsumers(manifests: seq<Manifest>, artifact: string) returns (consumers: set<string>)
    ensures Consuming(manifests, artifact, consumers)
    ensures forall s | Consuming(manifests, artifact, s) :: consumers <= s
  {
    consumers := {artifact};
    var changed := true;
    while changed
      invariant artifact in consumers && consumers <= NamesOf(manifests) + {artifact}
      invariant forall s | Consuming(manifests, artifact, s) :: consumers <= s
      invariant !changed ==> forall i | 0 <= i < |manifests| :: Settled(manifests[i], consumers)
      decreases NamesOf(manifests) - consumers, changed
    {
      changed := false;
      ghost var before := consumers;
      for i := 0 to |manifests|
        invariant artifact in consumers && before <= consumers <= NamesOf(manifests) + {artifact}
        invariant changed <==> consumers != before
        invariant forall s | Consuming(manifests, artifact, s) :: consumers <= s
        invariant !changed ==> forall j | 0 <= j < i :: Settled(manifests[j], consumers)
      {
        var m := manifests[i];
        if m.name in consumers {
          continue;
        }
        if m.dependencies !! consumers {
          continue;
        }
        forall s | Consuming(manifests, artifact, s) ensures m.name in s {
          assert Settled(manifests[i], s);
        }
        consumers := consumers + {m.name};
        changed := true;
      }
    }
  }

  // ----- the rule -----------------------------------------------------------

  datatype Task = Task(id: string, package: string, task: string, dependencies: seq<string>)

  datatype Failure = NoProducer(artifact: string) | Unordered(task: string, artifact: string)

  const READING_TASKS := {"build", "typecheck", "test", "test:coverage"}

  function EdgesOf(tasks: seq<Task>): Edges {
    if tasks == [] then map[]
    else EdgesOf(tasks[..|tasks| - 1])[tasks[|tasks| - 1].id := tasks[|tasks| - 1].dependencies]
  }

  function Producer(artifact: string): string { artifact + "#build" }

  /** Whether a task reads an artifact without being ordered after its producer. */
  ghost predicate ReadsUnordered(manifests: seq<Manifest>, tasks: seq<Task>, artifact: string, t: Task) {
    && t.package != artifact && t.task in READING_TASKS
    && (forall s | Consuming(manifests, artifact, s) :: t.package in s)
    && !DependsOn(GraphOf(EdgesOf(tasks)), t.id, Producer(artifact))
  }

  /** The failures of one artifact: exactly its unordered readers, or that nothing
      builds it. */
  ghost predicate Explains(manifests: seq<Manifest>, tasks: seq<Task>, artifact: string, f: Failure) {
    if Producer(artifact) !in EdgesOf(tasks) then f == NoProducer(artifact)
    else
      && f.Unordered? && f.artifact == artifact
      && exists t :: t in tasks && t.id == f.task && ReadsUnordered(manifests, tasks, artifact, t)
  }

  method FindUnorderedArtifactReaders(
    manifests: seq<Manifest>, tasks: seq<Task>, artifacts: seq<string>)
    returns (failures: seq<Failure>)
    ensures forall f :: f in failures <==>
              exists k :: 0 <= k < |artifacts| && Explains(manifests, tasks, artifacts[k], f)
  {
    var edges := EdgesOf(tasks);
    failures := [];
    for i := 0 to |artifacts|
      invariant forall f :: f in failures <==> exists k :: 0 <= k < i && Explains(manifests, tasks, artifacts[k], f)
    {
      var found := UnorderedReaders(manifests, tasks, edges, artifacts[i]);
      failures := failures + found;
    }
  }

  method UnorderedReaders(
    manifests: seq<Manifest>, tasks: seq<Task>, edges: Edges, artifact: string)
    returns (failures: seq<Failure>)
    requires edges == EdgesOf(tasks)
    ensures forall f :: f in failures <==> Explains(manifests, tasks, artifact, f)
  {
    failures := [];
    if Producer(artifact) !in edges {
      return [NoProducer(artifact)];
    }
    var consumers := CollectArtifactConsumers(manifests, artifact);
    for i := 0 to |tasks|
      invariant forall f :: f in failures <==>
                  f.Unordered? && f.artifact == artifact
                  && exists k ::
                       0 <= k < i && tasks[k].id == f.task && ReadsUnordered(manifests, tasks, artifact, tasks[k])
    {
      var t := tasks[i];
      if t.package == artifact {
        continue;
      }
      if t.task !in READING_TASKS {
        continue;
      }
      assert t.package in consumers <==> forall s | Consuming(manifests, artifact, s) :: t.package in s;
      if t.package !in consumers {
        continue;
      }
      var ordered := ReachesTask(edges, t.id, Producer(artifact));
      if ordered {
        continue;
      }
      failures := failures + [Unordered(t.id, artifact)];
    }
  }
}
