/** `staticClosure` of scripts/bundle-closure.ts: the files a bundle's root pulls in. */
module BundleClosure {
  import opened Basics
  import opened Reachability

  /** The files that exist, and what each imports; an import of a file that does not
      exist leads nowhere. */
  function ImportsAmong(files: set<string>, imports: Graph): Graph {
    (file: string) => if file in files then Existing(files, imports(file)) else []
  }

  function Existing(files: set<string>, names: seq<string>): (r: seq<string>)
    ensures forall x :: x in r <==> x in names && x in files
  {
    if names == [] then []
    else (if names[0] in files then [names[0]] else []) + Existing(files, names[1..])
  }

  /** The walk: what is in the closure or waits is reached, and nothing is forgotten. */
  ghost predicate Walking(files: set<string>, imports: Graph, root: string, closure: seq<string>, stack: seq<string>) {
    var g := ImportsAmong(files, imports);
    && Distinct(closure)
    && (forall x | x in closure :: x in files)
    && (forall x | x in files && (x in closure || x in stack) :: root in files && Reaches(g, root, x))
    && (root in files ==> root in closure || root in stack)
    && forall a, b | a in closure && Edge(g, a, b) :: b in closure || b in stack
  }

  lemma Begins(files: set<string>, imports: Graph, root: string)
    ensures Walking(files, imports, root, [], [root])
  {
    ReachesSelf(ImportsAmong(files, imports), root);
  }

  lemma TopOf(stack: seq<string>)
    requires stack != []
    ensures stack == stack[..|stack| - 1] + [stack[|stack| - 1]]
  {
  }

  /** A file that is done, or does not exist, is passed over. */
  lemma PassedOver(
    files: set<string>, imports: Graph, root: string, closure: seq<string>, rest: seq<string>, file: string)
    requires Walking(files, imports, root, closure, rest + [file]) && (file in closure || file !in files)
    ensures Walking(files, imports, root, closure, rest)
  {
    var g := ImportsAmong(files, imports);
    forall a, b | a in closure && Edge(g, a, b) ensures b in closure || b in rest {
      assert b in closure || b in rest + [file];
    }
  }

  /** Any other joins the closure, and its imports the stack. */
  lemma JoinsClosure(
    files: set<string>, imports: Graph, root: string, closure: seq<string>, rest: seq<string>, file: string)
    requires Walking(files, imports, root, closure, rest + [file]) && file !in closure && file in files
    ensures Walking(files, imports, root, closure + [file], rest + imports(file))
  {
    var g := ImportsAmong(files, imports);
    assert file in rest + [file];
    forall x | x in imports(file) && x in files ensures Reaches(g, root, x) {
      assert Edge(g, file, x);
      ReachesNext(g, root, file, x);
    }
    forall a, b | a in closure + [file] && Edge(g, a, b) ensures b in closure + [file] || b in rest + imports(file) {
      if a in closure {
        assert b in closure || b in rest + [file];
      }
    }
  }

  lemma FewerLeft(files: set<string>, closure: seq<string>, file: string)
    requires file in files && file !in closure
    ensures files - SetOf(closure + [file]) < files - SetOf(closure)
  {
    assert SetOf(closure + [file]) == SetOf(closure) + {file};
    assert file in files - SetOf(closure);
  }

  lemma WalkedOut(files: set<string>, imports: Graph, root: string, closure: seq<string>)
    requires Walking(files, imports, root, closure, [])
    ensures forall x :: x in closure <==> root in files && Reaches(ImportsAmong(files, imports), root, x)
  {
    var g := ImportsAmong(files, imports);
    var found := SetOf(closure);
    forall x | root in files && Reaches(g, root, x) ensures x in closure {
      ClosedHoldsAll(g, found, root, x);
    }
  }

  // ----- the order ----------------------------------------------------------

  function Left(files: set<string>, closure: seq<string>): nat { |files - SetOf(closure)| }

  lemma LeftShrinks(files: set<string>, closure: seq<string>, more: seq<string>)
    requires closure <= more
    ensures Left(files, more) <= Left(files, closure)
  {
    assert files - SetOf(more) <= files - SetOf(closure);
    SubsetCount(files - SetOf(more), files - SetOf(closure));
  }

  lemma {:induction false} SubsetCount(a: set<string>, b: set<string>)
    requires a <= b
    ensures |a| <= |b| && (a != b ==> |a| < |b|)
  {
    if a != {} {
      var x :| x in a;
      SubsetCount(a - {x}, b - {x});
    }
  }

  /** Depth first: each of `names`, the last first, is followed by all it pulls in that is
      not there yet, before the next is looked at. */
  function Visited(files: set<string>, imports: Graph, names: seq<string>, closure: seq<string>): (r: seq<string>)
    ensures closure <= r
    decreases Left(files, closure), |names|
  {
    if names == [] then closure
    else
      var file, rest := names[|names| - 1], names[..|names| - 1];
      if file in closure || file !in files then Visited(files, imports, rest, closure)
      else
        FewerLeft(files, closure, file);
        SubsetCount(files - SetOf(closure + [file]), files - SetOf(closure));
        var below := Visited(files, imports, imports(file), closure + [file]);
        LeftShrinks(files, closure + [file], below);
        Visited(files, imports, rest, below)
  }

  /** Names behind others come first. */
  lemma {:induction false} VisitedBoth(
    files: set<string>, imports: Graph, a: seq<string>, b: seq<string>, closure: seq<string>)
    ensures Visited(files, imports, a + b, closure) == Visited(files, imports, a, Visited(files, imports, b, closure))
    decreases Left(files, closure), |b|
  {
    if b == [] {
      assert a + b == a;
    } else {
      var file, rest := b[|b| - 1], b[..|b| - 1];
      assert (a + b)[..|a + b| - 1] == a + rest;
      if file in closure || file !in files {
        VisitedBoth(files, imports, a, rest, closure);
      } else {
        FewerLeft(files, closure, file);
        SubsetCount(files - SetOf(closure + [file]), files - SetOf(closure));
        var below := Visited(files, imports, imports(file), closure + [file]);
        LeftShrinks(files, closure + [file], below);
        VisitedBoth(files, imports, a, rest, below);
      }
    }
  }

  /** One turn of the loop is one step of the depth-first order. */
  lemma VisitsTop(files: set<string>, imports: Graph, closure: seq<string>, rest: seq<string>, file: string)
    requires file in files && file !in closure
    ensures Visited(files, imports, rest + [file], closure) ==
            Visited(files, imports, rest + imports(file), closure + [file])
  {
    assert (rest + [file])[..|rest|] == rest;
    VisitedBoth(files, imports, rest, imports(file), closure + [file]);
  }

  lemma SkipsTop(files: set<string>, imports: Graph, closure: seq<string>, rest: seq<string>, file: string)
    requires file in closure || file !in files
    ensures Visited(files, imports, rest + [file], closure) == Visited(files, imports, rest, closure)
  {
    assert (rest + [file])[..|rest|] == rest;
  }

  /** The closure lists, once each and depth first, exactly the existing files that the
      root reaches through imports of existing files. */
  method StaticClosure(files: set<string>, imports: Graph, root: string) returns (closure: seq<string>)
    ensures Distinct(closure) && closure == Visited(files, imports, [root], [])
    ensures forall x :: x in closure <==> root in files && Reaches(ImportsAmong(files, imports), root, x)
  {
    closure := [];
    var stack := [root];
    Begins(files, imports, root);
    while stack != []
      invariant Walking(files, imports, root, closure, stack)
      invariant Visited(files, imports, stack, closure) == Visited(files, imports, [root], [])
      decreases files - SetOf(closure), |stack|
    {
      var file := stack[|stack| - 1];
      var rest := stack[..|stack| - 1];
      TopOf(stack);
      if file in closure || file !in files {
        PassedOver(files, imports, root, closure, rest, file);
        SkipsTop(files, imports, closure, rest, file);
        stack := rest;
        continue;
      }
      JoinsClosure(files, imports, root, closure, rest, file);
      FewerLeft(files, closure, file);
      VisitsTop(files, imports, closure, rest, file);
      closure := closure + [file];
      stack := rest + imports(file);
    }
    WalkedOut(files, imports, root, closure);
  }
}
