/** The walk of scripts/check-convex-node-globals.ts: which modules run in the isolate,
    and where one of them imports a module of the Node runtime. */
module IsolateWalk {
  import opened Basics
  import opened Reachability

  /** A value import, and the module it resolves to. */
  datatype Import = Import(specifier: string, target: Option<string>)

  datatype Source = Source(node: bool, imports: seq<Import>)

  /** The modules that can be read. */
  type Sources = map<string, Source>

  /** An import of a Node module by an isolate module, with where the walk came from. */
  datatype RuntimeEdge = RuntimeEdge(file: string, specifier: string, reachedFrom: string)

  function Targets(sources: Sources, imports: seq<Import>): (r: seq<string>)
    ensures forall x :: x in r <==> x in sources && exists i :: i in imports && i.target == Some(x)
  {
    if imports == [] then []
    else
      var first := imports[0].target;
      (if first.Some? && first.value in sources then [first.value] else []) + Targets(sources, imports[1..])
  }

  /** Value imports between readable modules. */
  function ImportGraph(sources: Sources): Graph {
    (path: string) => if path in sources then Targets(sources, sources[path].imports) else []
  }

  /** ... that start in a module of the isolate runtime and do not leave it. */
  function IsolateGraph(sources: Sources): Graph {
    (path: string) =>
      if path in sources && !sources[path].node then Isolated(sources, Targets(sources, sources[path].imports)) else []
  }

  function Isolated(sources: Sources, paths: seq<string>): (r: seq<string>)
    ensures forall x :: x in r <==> x in paths && x in sources && !sources[x].node
  {
    if paths == [] then []
    else
      (if paths[0] in sources && !sources[paths[0]].node then [paths[0]] else []) + Isolated(sources, paths[1..])
  }

  predicate IsRoot(sources: Sources, modules: seq<string>, path: string) {
    path in modules && path in sources && !sources[path].node
  }

  /** Whether `path` runs in the isolate because root `root` pulls it in. */
  ghost predicate PulledInBy(sources: Sources, modules: seq<string>, path: string, root: string) {
    IsRoot(sources, modules, root) && Reaches(IsolateGraph(sources), root, path)
  }

  /** Whether `i` is an import that leaves the isolate for a Node module. */
  predicate Leaves(sources: Sources, i: Import) {
    i.target.Some? && i.target.value in sources && sources[i.target.value].node
  }

  ghost predicate IsEdge(sources: Sources, modules: seq<string>, e: RuntimeEdge, i: Import) {
    && PulledInBy(sources, modules, e.file, e.reachedFrom) && e.file in sources && i in sources[e.file].imports
    && i.specifier == e.specifier && Leaves(sources, i)
  }

  /** What the walk knows when the queue has been read up to some place. */
  ghost predicate Known(sources: Sources, modules: seq<string>, queue: seq<string>, reachedFrom: map<string, string>) {
    && (forall x :: x in queue <==> x in reachedFrom)
    && forall x | x in reachedFrom ::
         x in sources && !sources[x].node && PulledInBy(sources, modules, x, reachedFrom[x])
  }

  /** Whether the walk has seen where import `i` leads. */
  predicate Followed(sources: Sources, reachedFrom: map<string, string>, i: Import) {
    i.target.Some? && i.target.value in sources && !sources[i.target.value].node ==> i.target.value in reachedFrom
  }

  ghost predicate EdgesRight(sources: Sources, modules: seq<string>, edges: seq<RuntimeEdge>) {
    forall e | e in edges :: exists i :: IsEdge(sources, modules, e, i)
  }

  /** Whether an edge for import `i` of `path` is reported. */
  ghost predicate Reported(edges: seq<RuntimeEdge>, path: string, i: Import) {
    exists e :: e in edges && e.file == path && e.specifier == i.specifier
  }

  /** The first `k` imports of a module, followed and reported. */
  ghost predicate DoneUpTo(
    sources: Sources, reachedFrom: map<string, string>, edges: seq<RuntimeEdge>, path: string, k: nat)
    requires path in sources && k <= |sources[path].imports|
  {
    forall j | 0 <= j < k :: ImportDone(sources, reachedFrom, edges, path, sources[path].imports[j])
  }

  ghost predicate ImportDone(
    sources: Sources, reachedFrom: map<string, string>, edges: seq<RuntimeEdge>, path: string, i: Import)
  {
    Followed(sources, reachedFrom, i) && (Leaves(sources, i) ==> Reported(edges, path, i))
  }

  lemma StillDone(
    sources: Sources, before: map<string, string>, after: map<string, string>, edges: seq<RuntimeEdge>,
    more: seq<RuntimeEdge>, path: string, k: nat)
    requires path in sources && k <= |sources[path].imports| && DoneUpTo(sources, before, edges, path, k)
    requires before.Keys <= after.Keys && forall e | e in edges :: e in more
    ensures DoneUpTo(sources, after, more, path, k)
  {
    forall j | 0 <= j < k ensures ImportDone(sources, after, more, path, sources[path].imports[j]) {
      var i := sources[path].imports[j];
      assert ImportDone(sources, before, edges, path, i);
      if Leaves(sources, i) {
        var e :| e in edges && e.file == path && e.specifier == i.specifier;
        assert e in more;
      }
    }
  }

  lemma OneMoreDone(sources: Sources, reachedFrom: map<string, string>, edges: seq<RuntimeEdge>, path: string, k: nat)
    requires path in sources && k < |sources[path].imports| && DoneUpTo(sources, reachedFrom, edges, path, k)
    requires ImportDone(sources, reachedFrom, edges, path, sources[path].imports[k])
    ensures DoneUpTo(sources, reachedFrom, edges, path, k + 1)
  {
  }

  lemma AddEdge(sources: Sources, modules: seq<string>, edges: seq<RuntimeEdge>, e: RuntimeEdge, i: Import)
    requires EdgesRight(sources, modules, edges) && IsEdge(sources, modules, e, i)
    ensures EdgesRight(sources, modules, edges + [e]) && Reported(edges + [e], e.file, i)
  {
    assert e in edges + [e];
  }

  lemma AddReached(
    sources: Sources, modules: seq<string>, queue: seq<string>, reachedFrom: map<string, string>, x: string,
    root: string)
    requires Known(sources, modules, queue, reachedFrom)
    requires x in sources && !sources[x].node && PulledInBy(sources, modules, x, root)
    ensures Known(sources, modules, queue + [x], reachedFrom[x := root])
  {
  }

  lemma NextPulledIn(sources: Sources, modules: seq<string>, path: string, root: string, i: Import)
    requires path in sources && !sources[path].node && i in sources[path].imports &&
             PulledInBy(sources, modules, path, root)
    requires i.target.Some? && i.target.value in sources && !sources[i.target.value].node
    ensures PulledInBy(sources, modules, i.target.value, root)
  {
    assert Edge(IsolateGraph(sources), path, i.target.value);
    ReachesNext(IsolateGraph(sources), root, path, i.target.value);
  }

  /** The isolate's own modules start the walk, each reached from itself. */
  method Roots(sources: Sources, modules: seq<string>) returns (reachedFrom: map<string, string>, queue: seq<string>)
    ensures Known(sources, modules, queue, reachedFrom)
    ensures forall path | IsRoot(sources, modules, path) :: path in reachedFrom
  {
    reachedFrom, queue := map[], [];
    for k := 0 to |modules|
      invariant Known(sources, modules, queue, reachedFrom)
      invariant forall j | 0 <= j < k && IsRoot(sources, modules, modules[j]) :: modules[j] in reachedFrom
    {
      var path := modules[k];
      if path !in sources || sources[path].node {
        continue;
      }
      ReachesSelf(IsolateGraph(sources), path);
      AddReached(sources, modules, queue, reachedFrom, path, path);
      reachedFrom, queue := reachedFrom[path := path], queue + [path];
    }
  }

  /** The queue and the map only grow, and together. */
  predicate Grown(
    queue0: seq<string>, reachedFrom0: map<string, string>, queue: seq<string>, reachedFrom: map<string, string>)
  {
    queue0 <= queue && reachedFrom0.Keys <= reachedFrom.Keys &&
      (reachedFrom.Keys == reachedFrom0.Keys ==> queue == queue0)
  }

  lemma GrownTwice(
    q0: seq<string>, r0: map<string, string>, q1: seq<string>, r1: map<string, string>, q2: seq<string>,
    r2: map<string, string>)
    requires Grown(q0, r0, q1, r1) && Grown(q1, r1, q2, r2)
    ensures Grown(q0, r0, q2, r2)
  {
  }

  lemma KnownSource(
    sources: Sources, modules: seq<string>, queue: seq<string>, reachedFrom: map<string, string>, path: string)
    requires Known(sources, modules, queue, reachedFrom) && path in reachedFrom
    ensures path in sources && !sources[path].node && PulledInBy(sources, modules, path, reachedFrom[path])
  {
  }

  /** The imports of one module. */
  method Visit(
    sources: Sources, ghost modules: seq<string>, path: string, queue0: seq<string>, reachedFrom0: map<string, string>)
    returns (found: seq<RuntimeEdge>, queue: seq<string>, reachedFrom: map<string, string>)
    requires Known(sources, modules, queue0, reachedFrom0) && path in reachedFrom0
    ensures Known(sources, modules, queue, reachedFrom) && Grown(queue0, reachedFrom0, queue, reachedFrom)
    ensures EdgesRight(sources, modules, found)
    ensures path in sources && DoneUpTo(sources, reachedFrom, found, path, |sources[path].imports|)
  {
    found, queue, reachedFrom := [], queue0, reachedFrom0;
    KnownSource(sources, modules, queue, reachedFrom, path);
    var imports := sources[path].imports;
    for k := 0 to |imports|
      invariant Known(sources, modules, queue, reachedFrom) && Grown(queue0, reachedFrom0, queue, reachedFrom)
      invariant EdgesRight(sources, modules, found)
      invariant DoneUpTo(sources, reachedFrom, found, path, k)
    {
      ghost var reached0, found0, before := reachedFrom, found, queue;
      found, queue, reachedFrom := Follow(sources, modules, path, imports[k], found, queue, reachedFrom);
      GrownTwice(queue0, reachedFrom0, before, reached0, queue, reachedFrom);
      StillDone(sources, reached0, reachedFrom, found0, found, path, k);
      OneMoreDone(sources, reachedFrom, found, path, k);
    }
  }

  /** One import. */
  method Follow(
    sources: Sources, ghost modules: seq<string>, path: string, i: Import, found0: seq<RuntimeEdge>,
    queue0: seq<string>, reachedFrom0: map<string, string>)
    returns (found: seq<RuntimeEdge>, queue: seq<string>, reachedFrom: map<string, string>)
    requires Known(sources, modules, queue0, reachedFrom0) && path in reachedFrom0
    requires path in sources && i in sources[path].imports
    requires EdgesRight(sources, modules, found0)
    ensures Known(sources, modules, queue, reachedFrom) && Grown(queue0, reachedFrom0, queue, reachedFrom)
    ensures EdgesRight(sources, modules, found) && (forall e | e in found0 :: e in found)
    ensures ImportDone(sources, reachedFrom, found, path, i)
  {
    found, queue, reachedFrom := found0, queue0, reachedFrom0;
    if i.target.None? || i.target.value in reachedFrom || i.target.value !in sources {
      return;
    }
    var target := i.target.value;
    KnownSource(sources, modules, queue, reachedFrom, path);
    if sources[target].node {
      var e := RuntimeEdge(path, i.specifier, reachedFrom[path]);
      AddEdge(sources, modules, found, e, i);
      found := found + [e];
      return;
    }
    NextPulledIn(sources, modules, path, reachedFrom[path], i);
    AddReached(sources, modules, queue, reachedFrom, target, reachedFrom[path]);
    reachedFrom, queue := reachedFrom[target := reachedFrom[path]], queue + [target];
  }

  /** Whether the first `n` modules of the queue are done. */
  ghost predicate VisitedUpTo(
    sources: Sources, reachedFrom: map<string, string>, edges: seq<RuntimeEdge>, queue: seq<string>, n: nat)
    requires n <= |queue|
  {
    forall k | 0 <= k < n :: Visited(sources, reachedFrom, edges, queue[k])
  }

  ghost predicate Visited(sources: Sources, reachedFrom: map<string, string>, edges: seq<RuntimeEdge>, path: string) {
    path in sources && DoneUpTo(sources, reachedFrom, edges, path, |sources[path].imports|)
  }

  lemma StillVisited(
    sources: Sources, before: map<string, string>, after: map<string, string>, edges: seq<RuntimeEdge>,
    more: seq<RuntimeEdge>, queue: seq<string>, longer: seq<string>, n: nat)
    requires n < |queue| && queue <= longer && VisitedUpTo(sources, before, edges, queue, n)
    requires before.Keys <= after.Keys && Visited(sources, after, more, queue[n])
    ensures VisitedUpTo(sources, after, edges + more, longer, n + 1)
  {
    forall k | 0 <= k < n + 1 ensures Visited(sources, after, edges + more, longer[k]) {
      assert longer[k] == queue[k];
      if k < n {
        assert Visited(sources, before, edges, queue[k]);
        StillDone(sources, before, after, edges, edges + more, queue[k], |sources[queue[k]].imports|);
      } else {
        StillDone(sources, after, after, more, edges + more, queue[k], |sources[queue[k]].imports|);
      }
    }
  }

  lemma EdgesJoin(sources: Sources, modules: seq<string>, a: seq<RuntimeEdge>, b: seq<RuntimeEdge>)
    requires EdgesRight(sources, modules, a) && EdgesRight(sources, modules, b)
    ensures EdgesRight(sources, modules, a + b)
  {
  }

  /** The walk when the first `n` modules of the queue have been visited. */
  ghost predicate Walked(
    sources: Sources, modules: seq<string>, queue: seq<string>, reachedFrom: map<string, string>,
    edges: seq<RuntimeEdge>, n: nat)
  {
    && n <= |queue| && Known(sources, modules, queue, reachedFrom)
    && (forall path | IsRoot(sources, modules, path) :: path in reachedFrom)
    && EdgesRight(sources, modules, edges) && VisitedUpTo(sources, reachedFrom, edges, queue, n)
  }

  function Unseen(sources: Sources, reachedFrom: map<string, string>): set<string> {
    sources.Keys - reachedFrom.Keys
  }

  /** Whenever the map grows, fewer modules are left to see. */
  lemma UnseenShrinks(
    sources: Sources, modules: seq<string>, queue0: seq<string>, reachedFrom0: map<string, string>,
    queue: seq<string>, reachedFrom: map<string, string>)
    requires Known(sources, modules, queue, reachedFrom) && Grown(queue0, reachedFrom0, queue, reachedFrom)
    ensures (Unseen(sources, reachedFrom) == Unseen(sources, reachedFrom0) && queue == queue0)
            || Unseen(sources, reachedFrom) < Unseen(sources, reachedFrom0)
  {
    if reachedFrom.Keys != reachedFrom0.Keys {
      var x :| x in reachedFrom && x !in reachedFrom0;
      KnownSource(sources, modules, queue, reachedFrom, x);
      assert x in Unseen(sources, reachedFrom0) && x !in Unseen(sources, reachedFrom);
    }
  }

  lemma WalkStep(
    sources: Sources, modules: seq<string>, queue0: seq<string>, reachedFrom0: map<string, string>,
    edges: seq<RuntimeEdge>, n: nat, queue: seq<string>, reachedFrom: map<string, string>, found: seq<RuntimeEdge>)
    requires Walked(sources, modules, queue0, reachedFrom0, edges, n) && n < |queue0|
    requires Known(sources, modules, queue, reachedFrom) && Grown(queue0, reachedFrom0, queue, reachedFrom)
    requires EdgesRight(sources, modules, found) && Visited(sources, reachedFrom, found, queue0[n])
    ensures Walked(sources, modules, queue, reachedFrom, edges + found, n + 1)
  {
    StillVisited(sources, reachedFrom0, reachedFrom, edges, found, queue0, queue, n);
    EdgesJoin(sources, modules, edges, found);
  }

  /** Breadth first, from every isolate module, over a queue that grows. */
  method Walk(
    sources: Sources, modules: seq<string>)
    returns (reachedFrom: map<string, string>, edges: seq<RuntimeEdge>)
    ensures Complete(sources, modules, reachedFrom) && EdgesRight(sources, modules, edges)
    ensures forall x | x in reachedFrom :: Visited(sources, reachedFrom, edges, x)
    ensures edges != [] <==> Entered(sources, modules)
  {
    var queue;
    reachedFrom, queue := Roots(sources, modules);
    edges := [];
    var index := 0;
    while index < |queue|
      invariant Walked(sources, modules, queue, reachedFrom, edges, index)
      decreases Unseen(sources, reachedFrom), |queue| - index
    {
      ghost var before, queue0 := reachedFrom, queue;
      var found;
      found, queue, reachedFrom := Visit(sources, modules, queue[index], queue, reachedFrom);
      WalkStep(sources, modules, queue0, before, edges, index, queue, reachedFrom, found);
      UnseenShrinks(sources, modules, queue0, before, queue, reachedFrom);
      edges := edges + found;
      index := index + 1;
    }
    EndsComplete(sources, modules, queue, reachedFrom, edges);
    EndsReported(sources, modules, reachedFrom, edges);
  }

  /** Whether the map holds exactly the modules the isolate pulls in, each with a root
      that does. */
  ghost predicate Complete(sources: Sources, modules: seq<string>, reachedFrom: map<string, string>) {
    && (forall x, root | PulledInBy(sources, modules, x, root) :: x in reachedFrom)
    && forall x | x in reachedFrom :: PulledInBy(sources, modules, x, reachedFrom[x])
  }

  /** Whether value imports lead from an isolate module into a Node module. */
  ghost predicate Entered(sources: Sources, modules: seq<string>) {
    exists root, node :: IsRoot(sources, modules, root) && EntersNode(sources, root, node)
  }

  lemma EndsComplete(
    sources: Sources, modules: seq<string>, queue: seq<string>, reachedFrom: map<string, string>,
    edges: seq<RuntimeEdge>)
    requires Walked(sources, modules, queue, reachedFrom, edges, |queue|)
    ensures Complete(sources, modules, reachedFrom)
    ensures forall x | x in reachedFrom :: Visited(sources, reachedFrom, edges, x)
  {
    QueueVisited(sources, modules, queue, reachedFrom, edges);
    AllPulledIn(sources, modules, reachedFrom, edges);
  }

  lemma EndsReported(sources: Sources, modules: seq<string>, reachedFrom: map<string, string>, edges: seq<RuntimeEdge>)
    requires Complete(sources, modules, reachedFrom) && EdgesRight(sources, modules, edges)
    requires forall x | x in reachedFrom :: Visited(sources, reachedFrom, edges, x)
    ensures edges != [] <==> Entered(sources, modules)
  {
    if edges != [] {
      EdgeMeansEntry(sources, modules, edges);
    }
    forall root, node | IsRoot(sources, modules, root) && EntersNode(sources, root, node) ensures edges != [] {
      EntryIsReported(sources, modules, reachedFrom, edges, root, node);
    }
  }

  lemma QueueVisited(
    sources: Sources, modules: seq<string>, queue: seq<string>, reachedFrom: map<string, string>,
    edges: seq<RuntimeEdge>)
    requires Known(sources, modules, queue, reachedFrom) && VisitedUpTo(sources, reachedFrom, edges, queue, |queue|)
    ensures forall x | x in reachedFrom :: Visited(sources, reachedFrom, edges, x)
  {
    forall x | x in reachedFrom ensures Visited(sources, reachedFrom, edges, x) {
      assert x in queue;
      var k :| 0 <= k < |queue| && queue[k] == x;
    }
  }

  lemma EdgeStaysIn(sources: Sources, reachedFrom: map<string, string>, edges: seq<RuntimeEdge>, a: string, b: string)
    requires Visited(sources, reachedFrom, edges, a) && Edge(IsolateGraph(sources), a, b)
    ensures b in reachedFrom
  {
    var imports := sources[a].imports;
    var i :| i in imports && i.target == Some(b);
    var j :| 0 <= j < |imports| && imports[j] == i;
    assert ImportDone(sources, reachedFrom, edges, a, imports[j]);
  }

  /** When every module of the queue has been visited, nothing is missing. */
  lemma AllPulledIn(sources: Sources, modules: seq<string>, reachedFrom: map<string, string>, edges: seq<RuntimeEdge>)
    requires forall x | x in reachedFrom :: Visited(sources, reachedFrom, edges, x)
    requires forall path | IsRoot(sources, modules, path) :: path in reachedFrom
    ensures forall x, root | PulledInBy(sources, modules, x, root) :: x in reachedFrom
  {
    var all := reachedFrom.Keys;
    forall a, b | a in all && Edge(IsolateGraph(sources), a, b) ensures b in all {
      EdgeStaysIn(sources, reachedFrom, edges, a, b);
    }
    forall x, root | PulledInBy(sources, modules, x, root) ensures x in reachedFrom {
      ClosedHoldsAll(IsolateGraph(sources), all, root, x);
    }
  }

  lemma EdgeMeansEntry(sources: Sources, modules: seq<string>, edges: seq<RuntimeEdge>)
    requires edges != [] && EdgesRight(sources, modules, edges)
    ensures Entered(sources, modules)
  {
    var e := edges[0];
    assert e in edges;
    var i :| IsEdge(sources, modules, e, i);
    IsolatePathIsImportPath(sources, e.reachedFrom, e.file);
    assert Edge(ImportGraph(sources), e.file, i.target.value);
    ReachesNext(ImportGraph(sources), e.reachedFrom, e.file, i.target.value);
    assert EntersNode(sources, e.reachedFrom, i.target.value);
  }

  /** Where a path into a Node module leaves the isolate. */
  lemma LeavesAt(sources: Sources, root: string, node: string) returns (file: string, first: string)
    requires root in sources && !sources[root].node && EntersNode(sources, root, node)
    ensures Reaches(IsolateGraph(sources), root, file) && Edge(ImportGraph(sources), file, first)
    ensures first in sources && sources[first].node
  {
    var p :| Leads(ImportGraph(sources), p, root, node);
    AllReadable(sources, p);
    var k := FirstNode(sources, p, |p| - 1);
    IsolatePrefix(sources, p, k - 1);
    file, first := p[k - 1], p[k];
    assert Edge(ImportGraph(sources), p[k - 1], p[k]);
  }

  lemma AllReadable(sources: Sources, p: seq<string>)
    requires IsPath(ImportGraph(sources), p)
    ensures forall i | 0 < i < |p| :: p[i] in sources
  {
    forall i | 0 < i < |p| ensures p[i] in sources {
      assert Edge(ImportGraph(sources), p[i - 1], p[i]);
    }
  }

  /** A path into a Node module is reported where it leaves the isolate. */
  lemma EntryIsReported(
    sources: Sources, modules: seq<string>, reachedFrom: map<string, string>, edges: seq<RuntimeEdge>, root: string,
    node: string)
    requires IsRoot(sources, modules, root) && EntersNode(sources, root, node)
    requires forall x | x in reachedFrom :: Visited(sources, reachedFrom, edges, x)
    requires forall x, r | PulledInBy(sources, modules, x, r) :: x in reachedFrom
    ensures edges != []
  {
    var file, first := LeavesAt(sources, root, node);
    assert PulledInBy(sources, modules, file, root);
    LeavingIsReported(sources, reachedFrom, edges, file, first);
  }

  lemma LeavingIsReported(
    sources: Sources, reachedFrom: map<string, string>, edges: seq<RuntimeEdge>, file: string, node: string)
    requires Visited(sources, reachedFrom, edges, file)
    requires Edge(ImportGraph(sources), file, node) && node in sources && sources[node].node
    ensures edges != []
  {
    var imports := sources[file].imports;
    var i :| i in imports && i.target == Some(node);
    var j :| 0 <= j < |imports| && imports[j] == i;
    assert ImportDone(sources, reachedFrom, edges, file, imports[j]);
    assert Reported(edges, file, i);
  }

  /** Whether value imports lead from `root` into the Node module `node`. */
  ghost predicate EntersNode(sources: Sources, root: string, node: string) {
    node in sources && sources[node].node && Reaches(ImportGraph(sources), root, node)
  }

  lemma IsolatePathIsImportPath(sources: Sources, a: string, b: string)
    requires Reaches(IsolateGraph(sources), a, b)
    ensures Reaches(ImportGraph(sources), a, b)
  {
    var p :| Leads(IsolateGraph(sources), p, a, b);
    forall i | 0 <= i < |p| - 1 ensures Edge(ImportGraph(sources), p[i], p[i + 1]) {
      assert Edge(IsolateGraph(sources), p[i], p[i + 1]);
    }
    assert Leads(ImportGraph(sources), p, a, b);
  }

  /** The first Node module on a path. */
  lemma {:induction false} FirstNode(sources: Sources, p: seq<string>, last: nat) returns (k: nat)
    requires last < |p| && p[last] in sources && sources[p[last]].node
    requires p[0] in sources && !sources[p[0]].node && forall i | 0 <= i < |p| :: p[i] in sources || i == 0
    ensures 0 < k <= last && p[k] in sources && sources[p[k]].node
    ensures forall i | 0 <= i < k :: p[i] in sources && !sources[p[i]].node
  {
    if exists i | 0 <= i < last :: p[i] in sources && sources[p[i]].node {
      var i :| 0 <= i < last && p[i] in sources && sources[p[i]].node;
      k := FirstNode(sources, p, i);
    } else {
      k := last;
    }
  }

  lemma {:induction false} IsolatePrefix(sources: Sources, p: seq<string>, k: nat)
    requires IsPath(ImportGraph(sources), p) && k < |p|
    requires forall i | 0 <= i <= k :: p[i] in sources && !sources[p[i]].node
    ensures Reaches(IsolateGraph(sources), p[0], p[k])
  {
    if k == 0 {
      ReachesSelf(IsolateGraph(sources), p[0]);
    } else {
      IsolatePrefix(sources, p, k - 1);
      assert Edge(ImportGraph(sources), p[k - 1], p[k]);
      assert Edge(IsolateGraph(sources), p[k - 1], p[k]);
      ReachesNext(IsolateGraph(sources), p[0], p[k - 1], p[k]);
    }
  }
}
