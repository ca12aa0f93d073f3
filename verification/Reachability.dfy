/** Paths in a graph given by each node's successors. */
module Reachability {

  type Graph = string -> seq<string>

  ghost predicate Edge(g: Graph, a: string, b: string) { b in g(a) }

  ghost predicate IsPath(g: Graph, p: seq<string>) {
    p != [] && forall i | 0 <= i < |p| - 1 :: Edge(g, p[i], p[i + 1])
  }

  ghost predicate Leads(g: Graph, p: seq<string>, a: string, b: string) {
    IsPath(g, p) && p[0] == a && p[|p| - 1] == b
  }

  /** A path of any length, and one with at least one edge. */
  ghost predicate Reaches(g: Graph, a: string, b: string) {
    exists p :: Leads(g, p, a, b)
  }

  ghost predicate DependsOn(g: Graph, a: string, b: string) {
    exists p :: Leads(g, p, a, b) && |p| > 1
  }

  lemma ReachesSelf(g: Graph, a: string)
    ensures Reaches(g, a, a)
  {
    assert Leads(g, [a], a, a);
  }

  lemma ReachesNext(g: Graph, a: string, b: string, c: string)
    requires Reaches(g, a, b) && Edge(g, b, c)
    ensures Reaches(g, a, c) && DependsOn(g, a, c)
  {
    var p :| Leads(g, p, a, b);
    var longer := p + [c];
    forall i | 0 <= i < |longer| - 1 ensures Edge(g, longer[i], longer[i + 1]) {
      if i < |p| - 1 {
        assert Edge(g, p[i], p[i + 1]);
      }
    }
    assert Leads(g, longer, a, c);
  }

  ghost predicate Closed(g: Graph, s: set<string>) {
    forall a, b | a in s && Edge(g, a, b) :: b in s
  }

  /** A path that starts in a closed set stays there. */
  lemma {:induction false} StaysInside(g: Graph, s: set<string>, p: seq<string>, k: nat)
    requires Closed(g, s) && IsPath(g, p) && p[0] in s && k < |p|
    ensures p[k] in s
  {
    if k > 0 {
      StaysInside(g, s, p, k - 1);
      assert Edge(g, p[k - 1], p[k]);
    }
  }

  lemma ClosedHoldsAll(g: Graph, s: set<string>, a: string, b: string)
    requires Closed(g, s) && a in s && Reaches(g, a, b)
    ensures b in s
  {
    var p :| Leads(g, p, a, b);
    StaysInside(g, s, p, |p| - 1);
  }

  /** The last step of a path with an edge. */
  lemma LastStep(g: Graph, a: string, b: string) returns (c: string)
    requires DependsOn(g, a, b)
    ensures Reaches(g, a, c) && Edge(g, c, b)
  {
    var p :| Leads(g, p, a, b) && |p| > 1;
    c := p[|p| - 2];
    assert Edge(g, p[|p| - 2], p[|p| - 1]);
    var shorter := p[..|p| - 1];
    forall i | 0 <= i < |shorter| - 1 ensures Edge(g, shorter[i], shorter[i + 1]) {
      assert Edge(g, p[i], p[i + 1]);
    }
    assert Leads(g, shorter, a, c);
  }
}
