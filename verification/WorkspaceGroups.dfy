/** `groupWorkspaces` of scripts/ci/selection.ts: the small coverage suites parted
    into test groups of even weight. */
module WorkspaceGroups {
  import opened BinScheduler

  datatype Workspace = Workspace(package: string, name: string, directory: string)

  datatype Group = Group(id: nat, workspaces: seq<Workspace>)

  datatype Bin = Bin(id: nat, workspaces: seq<Workspace>, weight: nat)

  const LARGEST_WEIGHT: nat := 4

  function Weight(w: Workspace): (n: nat)
    ensures 0 < n <= LARGEST_WEIGHT
  {
    match w.name
    case "email-builder" => 4
    case "shared" => 3
    case "docs" => 3
    case "plugin-kit" => 2
    case _ => 1
  }

  predicate IsSmall(w: Workspace) {
    w.name !in ["api", "web", "mta", "desktop"]
  }

  function Small(ws: seq<Workspace>): (r: seq<Workspace>)
    ensures forall w :: w in r <==> w in ws && IsSmall(w)
  {
    if ws == [] then []
    else Small(ws[..|ws| - 1]) + if IsSmall(ws[|ws| - 1]) then [ws[|ws| - 1]] else []
  }

  function Weights(ws: seq<Workspace>): (p: seq<nat>)
    ensures |p| == |ws| && forall i | 0 <= i < |ws| :: p[i] == Weight(ws[i])
  {
    seq(|ws|, i requires 0 <= i < |ws| => Weight(ws[i]))
  }

  // ----- the stable sort, heaviest first ------------------------------------

  function Insert(s: seq<Workspace>, w: Workspace): (r: seq<Workspace>)
    ensures multiset(r) == multiset(s) + multiset{w} && |r| == |s| + 1
  {
    if s == [] || Weight(s[|s| - 1]) >= Weight(w) then s + [w]
    else
      assert s == s[..|s| - 1] + [s[|s| - 1]];
      Insert(s[..|s| - 1], w) + [s[|s| - 1]]
  }

  function Sorted(s: seq<Workspace>): (r: seq<Workspace>)
    ensures multiset(r) == multiset(s)
  {
    if s == [] then []
    else
      assert s == s[..|s| - 1] + [s[|s| - 1]];
      Insert(Sorted(s[..|s| - 1]), s[|s| - 1])
  }

  predicate HeaviestFirst(s: seq<Workspace>) {
    forall i, j | 0 <= i < j < |s| :: Weight(s[i]) >= Weight(s[j])
  }

  lemma {:induction false} InsertKeepsOrder(s: seq<Workspace>, w: Workspace)
    requires HeaviestFirst(s)
    ensures HeaviestFirst(Insert(s, w))
  {
    if s != [] && Weight(s[|s| - 1]) < Weight(w) {
      var init, last := s[..|s| - 1], s[|s| - 1];
      InsertKeepsOrder(init, w);
      forall i | 0 <= i < |Insert(init, w)|
        ensures Weight(Insert(init, w)[i]) >= Weight(last)
      {
        InsertedFrom(init, w, i);
      }
    }
  }

  lemma InsertedFrom(s: seq<Workspace>, w: Workspace, i: nat)
    requires i < |Insert(s, w)|
    ensures Insert(s, w)[i] == w || Insert(s, w)[i] in s
  {
    var r := Insert(s, w);
    assert r[i] in multiset(r);
  }

  lemma {:induction false} SortedIsHeaviestFirst(s: seq<Workspace>)
    ensures HeaviestFirst(Sorted(s))
  {
    if s != [] {
      SortedIsHeaviestFirst(s[..|s| - 1]);
      InsertKeepsOrder(Sorted(s[..|s| - 1]), s[|s| - 1]);
    }
  }

  function OfWeight(s: seq<Workspace>, n: nat): seq<Workspace> {
    if s == [] then []
    else OfWeight(s[..|s| - 1], n) + if Weight(s[|s| - 1]) == n then [s[|s| - 1]] else []
  }

  lemma {:induction false} InsertIsStable(s: seq<Workspace>, w: Workspace, n: nat)
    ensures OfWeight(Insert(s, w), n) == OfWeight(s + [w], n)
  {
    assert (s + [w])[..|s|] == s;
    if s != [] && Weight(s[|s| - 1]) < Weight(w) {
      var init, last := s[..|s| - 1], s[|s| - 1];
      InsertIsStable(init, w, n);
      assert (init + [w])[..|init|] == init;
      assert (Insert(init, w) + [last])[..|s|] == Insert(init, w);
    }
  }

  /** Workspaces of one weight keep their order. */
  lemma {:induction false} SortIsStable(s: seq<Workspace>, n: nat)
    ensures OfWeight(Sorted(s), n) == OfWeight(s, n)
  {
    if s != [] {
      var init, last := s[..|s| - 1], s[|s| - 1];
      SortIsStable(init, n);
      InsertIsStable(Sorted(init), last, n);
      assert s[..|s| - 1] == init;
      assert (Sorted(init) + [last])[..|Sorted(init)|] == Sorted(init);
    }
  }

  // ----- the groups ---------------------------------------------------------

  /** The items that assignment `a` puts in bin `b`, in order. */
  function Chosen(ws: seq<Workspace>, a: seq<nat>, b: nat): seq<Workspace>
    requires |a| == |ws|
  {
    if ws == [] then []
    else Chosen(ws[..|ws| - 1], a[..|ws| - 1], b) + if a[|ws| - 1] == b then [ws[|ws| - 1]] else []
  }

  function GroupWeight(ws: seq<Workspace>): nat {
    Sum(Weights(ws))
  }

  lemma {:induction false} GroupWeightStep(ws: seq<Workspace>, w: Workspace)
    ensures GroupWeight(ws + [w]) == GroupWeight(ws) + Weight(w)
  {
    assert Weights(ws + [w])[..|ws|] == Weights(ws);
  }

  lemma {:induction false} ChosenWeight(ws: seq<Workspace>, a: seq<nat>, b: nat)
    requires |a| == |ws|
    ensures GroupWeight(Chosen(ws, a, b)) == Load(Weights(ws), a, b)
  {
    if ws != [] {
      var k := |ws| - 1;
      ChosenWeight(ws[..k], a[..k], b);
      assert Weights(ws)[..k] == Weights(ws[..k]);
      GroupWeightStep(Chosen(ws[..k], a[..k], b), ws[k]);
      assert Chosen(ws[..k], a[..k], b) + [] == Chosen(ws[..k], a[..k], b);
    }
  }

  function Parts(ws: seq<Workspace>, a: seq<nat>, m: nat): (r: seq<seq<Workspace>>)
    requires |a| == |ws|
    ensures |r| == m && forall b | 0 <= b < m :: r[b] == Chosen(ws, a, b)
  {
    seq(m, b requires 0 <= b < m => Chosen(ws, a, b))
  }

  lemma {:induction false} FlattenAppend<T>(parts: seq<seq<T>>, b: nat, x: T)
    requires b < |parts|
    ensures multiset(Flatten(parts[b := parts[b] + [x]])) == multiset(Flatten(parts)) + multiset{x}
  {
    var k := |parts| - 1;
    var more := parts[b := parts[b] + [x]];
    if b == k {
      assert more[..k] == parts[..k];
      assert Flatten(more) == Flatten(parts) + [x];
    } else {
      assert more[..k] == parts[..k][b := parts[b] + [x]];
      FlattenAppend(parts[..k], b, x);
    }
  }

  lemma {:induction false} FlattenEmpty<T>(parts: seq<seq<T>>)
    requires forall b | 0 <= b < |parts| :: parts[b] == []
    ensures Flatten(parts) == []
  {
    if parts != [] {
      FlattenEmpty(parts[..|parts| - 1]);
    }
  }

  /** The last item joins its part. */
  lemma PartsGrow(ws: seq<Workspace>, a: seq<nat>, m: nat)
    requires Assigns(a, |ws|, m) && ws != []
    ensures var k := |ws| - 1;
            var before := Parts(ws[..k], a[..k], m);
            Parts(ws, a, m) == before[a[k] := before[a[k]] + [ws[k]]]
  {
    var k := |ws| - 1;
    var before, after := Parts(ws[..k], a[..k], m), Parts(ws, a, m);
    forall b | 0 <= b < m
      ensures after[b] == before[a[k] := before[a[k]] + [ws[k]]][b]
    {
      assert after[b] == Chosen(ws, a, b);
    }
  }

  /** An assignment loses no item and repeats none. */
  lemma {:induction false} PartsPartition(ws: seq<Workspace>, a: seq<nat>, m: nat)
    requires Assigns(a, |ws|, m)
    ensures multiset(Flatten(Parts(ws, a, m))) == multiset(ws)
  {
    if ws == [] {
      FlattenEmpty(Parts(ws, a, m));
    } else {
      var k := |ws| - 1;
      PartsPartition(ws[..k], a[..k], m);
      PartsGrow(ws, a, m);
      LastJoins(Parts(ws[..k], a[..k], m), Parts(ws, a, m), a[k], ws);
    }
  }

  lemma LastJoins<T>(before: seq<seq<T>>, after: seq<seq<T>>, b: nat, ws: seq<T>)
    requires ws != [] && b < |before| && multiset(Flatten(before)) == multiset(ws[..|ws| - 1])
    requires after == before[b := before[b] + [ws[|ws| - 1]]]
    ensures multiset(Flatten(after)) == multiset(ws)
  {
    FlattenAppend(before, b, ws[|ws| - 1]);
    assert ws == ws[..|ws| - 1] + [ws[|ws| - 1]];
  }

  function Min(x: nat, y: nat): nat { if x < y then x else y }

  /** The parts `groupWorkspaces` makes, as the greedy rule assigns them. */
  function GreedyParts(ws: seq<Workspace>, count: nat): (r: seq<seq<Workspace>>)
    requires count > 0
    ensures |r| == Min(count, |Small(ws)|)
  {
    var items := Sorted(Small(ws));
    assert |items| == |multiset(items)| == |Small(ws)|;
    var m := Min(count, |items|);
    if m == 0 then [] else Parts(items, Greedy(Weights(items), m), m)
  }

  method PickBin(bins: array<Bin>) returns (best: nat)
    requires bins.Length > 0
    ensures best < bins.Length
    ensures forall c | 0 <= c < bins.Length :: bins[best].weight <= bins[c].weight
    ensures forall c | 0 <= c < best :: bins[best].weight < bins[c].weight
  {
    best := 0;
    for i := 1 to bins.Length
      invariant best < i
      invariant forall c | 0 <= c < i :: bins[best].weight <= bins[c].weight
      invariant forall c | 0 <= c < best :: bins[best].weight < bins[c].weight
    {
      if bins[i].weight < bins[best].weight {
        best := i;
      }
    }
  }

  /** Whether the bins hold what assignment `a` of `items` puts in them. */
  ghost predicate Hold(bins: seq<Bin>, items: seq<Workspace>, a: seq<nat>)
    requires |a| == |items|
  {
    forall b | 0 <= b < |bins| ::
      bins[b] == Bin(b + 1, Chosen(items, a, b), Load(Weights(items), a, b))
  }

  lemma {:induction false} HoldStep(bins: seq<Bin>, items: seq<Workspace>, a: seq<nat>, w: Workspace, best: nat)
    requires best < |bins| && a == Greedy(Weights(items), |bins|) && Hold(bins, items, a)
    requires forall c | 0 <= c < |bins| :: bins[best].weight <= bins[c].weight
    requires forall c | 0 <= c < best :: bins[best].weight < bins[c].weight
    ensures a + [best] == Greedy(Weights(items + [w]), |bins|)
    ensures Hold(
              bins[best := Bin(bins[best].id, bins[best].workspaces + [w], bins[best].weight + Weight(w))],
              items + [w], a + [best])
  {
    var p, more, b := Weights(items), items + [w], a + [best];
    assert Weights(more)[..|items|] == p && more[..|items|] == items && b[..|items|] == a;
    LeastLoadedIs(p, a, |bins|, best);
    forall c | 0 <= c < |bins|
      ensures Chosen(more, b, c) == Chosen(items, a, c) + if c == best then [w] else []
      ensures Load(Weights(more), b, c) == Load(p, a, c) + if c == best then Weight(w) else 0
    {
    }
  }

  /** One workspace joins the least loaded bin. */
  method PlaceOne(
    bins: array<Bin>, item: Workspace, ghost items: seq<Workspace>, ghost a: seq<nat>)
    returns (ghost best: nat)
    requires bins.Length > 0 && a == Greedy(Weights(items), bins.Length) && Hold(bins[..], items, a)
    modifies bins
    ensures a + [best] == Greedy(Weights(items + [item]), bins.Length)
    ensures Hold(bins[..], items + [item], a + [best])
  {
    var least := PickBin(bins);
    best := least;
    ghost var before := bins[..];
    HoldStep(before, items, a, item, least);
    bins[least] := Bin(bins[least].id, bins[least].workspaces + [item], bins[least].weight + Weight(item));
    assert bins[..] == before[least := bins[least]];
  }

  /** The placing loop. */
  method PlaceAll(items: seq<Workspace>, bins: array<Bin>)
    requires bins.Length > 0
    requires forall b | 0 <= b < bins.Length :: bins[b] == Bin(b + 1, [], 0)
    modifies bins
    ensures Hold(bins[..], items, Greedy(Weights(items), bins.Length))
  {
    NothingHeld(bins[..]);
    ghost var a: seq<nat> := [];
    for i := 0 to |items|
      invariant a == Greedy(Weights(items[..i]), bins.Length)
      invariant Hold(bins[..], items[..i], a)
    {
      ghost var best := PlaceOne(bins, items[i], items[..i], a);
      a := a + [best];
      assert items[..i + 1] == items[..i] + [items[i]];
    }
    assert items[..|items|] == items;
  }

  lemma NothingHeld(bins: seq<Bin>)
    requires |bins| > 0 && forall b | 0 <= b < |bins| :: bins[b] == Bin(b + 1, [], 0)
    ensures Greedy(Weights([]), |bins|) == [] && Hold(bins, [], [])
  {
  }

  method GroupWorkspaces(workspaces: seq<Workspace>, count: nat) returns (groups: seq<Group>)
    requires count > 0
    ensures |groups| == |GreedyParts(workspaces, count)|
    ensures forall b | 0 <= b < |groups| ::
              groups[b] == Group(b + 1, GreedyParts(workspaces, count)[b])
  {
    var items := Sorted(Small(workspaces));
    assert |items| == |multiset(items)| == |Small(workspaces)|;
    var m := Min(count, |items|);
    if m == 0 {
      return [];
    }
    var bins := new Bin[m](i requires 0 <= i < m => Bin(i + 1, [], 0));
    PlaceAll(items, bins);
    groups := Groups(bins[..]);
  }

  function Groups(bins: seq<Bin>): (r: seq<Group>)
    ensures |r| == |bins| && forall b | 0 <= b < |bins| :: r[b] == Group(bins[b].id, bins[b].workspaces)
  {
    seq(|bins|, b requires 0 <= b < |bins| => Group(bins[b].id, bins[b].workspaces))
  }

  lemma {:induction false} LeastLoadedIs(p: seq<nat>, a: seq<nat>, m: nat, b: nat)
    requires |a| == |p| && b < m
    requires forall c: nat | c < m :: Load(p, a, b) <= Load(p, a, c)
    requires forall c: nat | c < b :: Load(p, a, b) < Load(p, a, c)
    ensures LeastLoaded(p, a, m) == b
  {
    var x := LeastLoaded(p, a, m);
    assert Load(p, a, x) <= Load(p, a, b) && Load(p, a, b) <= Load(p, a, x);
  }

  /** Every small workspace is in exactly one group, and no group is empty. */
  lemma {:induction false} GroupsPartition(ws: seq<Workspace>, count: nat)
    requires count > 0
    ensures multiset(Flatten(GreedyParts(ws, count))) == multiset(Small(ws))
    ensures forall b | 0 <= b < |GreedyParts(ws, count)| :: GreedyParts(ws, count)[b] != []
  {
    var items := Sorted(Small(ws));
    assert |items| == |multiset(items)| == |Small(ws)|;
    var m := Min(count, |items|);
    if m > 0 {
      var p := Weights(items);
      PartsPartition(items, Greedy(p, m), m);
      forall b | 0 <= b < m
        ensures GreedyParts(ws, count)[b] != []
      {
        OpensBinsInOrder(p, m, b);
        LoadHolds(p, Greedy(p, m), b, b);
        ChosenWeight(items, Greedy(p, m), b);
      }
    }
  }

  /** The groups are even: any two differ by at most the heaviest item, and the
      heaviest keeps to the average plus `(m - 1)/m` of it. */
  lemma {:induction false} GroupsAreEven(ws: seq<Workspace>, count: nat, heavy: nat, light: nat, maxItem: nat)
    requires count > 0
    requires heavy < |GreedyParts(ws, count)| && light < |GreedyParts(ws, count)|
    requires forall w | w in Small(ws) :: Weight(w) <= maxItem
    ensures var parts := GreedyParts(ws, count);
            && GroupWeight(parts[heavy]) <= GroupWeight(parts[light]) + maxItem
            && WithinAverage(GroupWeight(parts[heavy]), |parts|, GroupWeight(Sorted(Small(ws))), maxItem)
  {
    var items := Sorted(Small(ws));
    var p, m := Weights(items), |GreedyParts(ws, count)|;
    forall i | 0 <= i < |p|
      ensures p[i] <= maxItem
    {
      assert items[i] in multiset(items);
    }
    ChosenWeight(items, Greedy(p, m), heavy);
    ChosenWeight(items, Greedy(p, m), light);
    Balanced(p, m, heavy, light, maxItem);
    ListSchedulingBound(p, m, heavy, maxItem);
  }

  lemma {:induction false} WeightsOfFlatten(parts: seq<seq<Workspace>>, ws: seq<Workspace>, weighed: seq<seq<nat>>)
    requires multiset(Flatten(parts)) == multiset(ws)
    requires |weighed| == |parts| && forall b | 0 <= b < |parts| :: weighed[b] == Weights(parts[b])
    ensures multiset(Flatten(weighed)) == multiset(Weights(ws))
  {
    FlattenWeights(parts, weighed);
    PermutedWeights(Flatten(parts), ws);
  }

  lemma {:induction false} FlattenWeights(parts: seq<seq<Workspace>>, weighed: seq<seq<nat>>)
    requires |weighed| == |parts| && forall b | 0 <= b < |parts| :: weighed[b] == Weights(parts[b])
    ensures Flatten(weighed) == Weights(Flatten(parts))
  {
    if parts != [] {
      var k := |parts| - 1;
      FlattenWeights(parts[..k], weighed[..k]);
    }
  }

  lemma {:induction false} PermutedWeights(x: seq<Workspace>, y: seq<Workspace>)
    requires multiset(x) == multiset(y)
    ensures multiset(Weights(x)) == multiset(Weights(y))
  {
    if x == [] {
      assert |multiset(y)| == |y| == 0;
    } else {
      assert x[0] in multiset(y);
      var i :| 0 <= i < |y| && y[i] == x[0];
      WithoutOne(x, 0);
      WithoutOne(y, i);
      CancelOne(multiset(Without(x, 0)), multiset(Without(y, i)), x[0]);
      PermutedWeights(Without(x, 0), Without(y, i));
      WeightsWithoutOne(x, 0);
      WeightsWithoutOne(y, i);
    }
  }

  lemma {:induction false} WeightsWithoutOne(x: seq<Workspace>, i: nat)
    requires i < |x|
    ensures multiset(Weights(x)) == multiset(Weights(Without(x, i))) + multiset{Weights(x)[i]}
  {
    WithoutOne(Weights(x), i);
    assert Weights(Without(x, i)) == Without(Weights(x), i);
  }

  /** No other way to part the same workspaces into as many groups beats this one
      by more than a third: if its groups all weigh at most `cap`, so do these,
      up to the factor `(4m - 1) / 3m`. */
  lemma {:induction false} GroupsAreNearOptimal(
    ws: seq<Workspace>, count: nat, other: seq<seq<Workspace>>, cap: nat, b: nat)
    requires count > 0 && b < |GreedyParts(ws, count)|
    requires |other| == |GreedyParts(ws, count)| && multiset(Flatten(other)) == multiset(Small(ws))
    requires forall g | g in other :: GroupWeight(g) <= cap
    ensures WithinStretch(GroupWeight(GreedyParts(ws, count)[b]), |GreedyParts(ws, count)|, cap)
  {
    var items, m := Sorted(Small(ws)), |GreedyParts(ws, count)|;
    SortedIsHeaviestFirst(Small(ws));
    ChosenWeight(items, Greedy(Weights(items), m), b);
    var o := OtherAssignment(items, other, cap);
    StretchBound(Weights(items), m, o, cap, b);
  }

  lemma {:induction false} OtherAssignment(items: seq<Workspace>, other: seq<seq<Workspace>>, cap: nat)
    returns (o: seq<nat>)
    requires multiset(Flatten(other)) == multiset(items)
    requires forall g | g in other :: GroupWeight(g) <= cap
    ensures Assigns(o, |items|, |other|) && Fits(Weights(items), o, |other|, cap)
  {
    var weighed := seq(|other|, c requires 0 <= c < |other| => Weights(other[c]));
    WeightsOfFlatten(other, items, weighed);
    o := GroupingIsAssignment(Weights(items), weighed);
    forall c: nat | c < |other|
      ensures Load(Weights(items), o, c) <= cap
    {
      assert other[c] in other;
      assert Load(Weights(items), o, c) == Sum(weighed[c]);
    }
  }
}
