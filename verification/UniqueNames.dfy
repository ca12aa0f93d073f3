/** `_unique` of apps/decision-local/decide.py: cleaned names, kept apart. */
module UniqueNames {
  import opened Basics
  import opened Decimals

  function Suffixed(name: string, separator: string, n: nat): string { name + separator + Decimal(n) }

  /** The suffixes from 2 up to `n`, as names. */
  function Tried(name: string, separator: string, n: nat): (r: set<string>)
    requires n >= 2
  {
    set m | 2 <= m < n :: Suffixed(name, separator, m)
  }

  lemma SuffixesDiffer(name: string, separator: string, a: nat, b: nat)
    requires Suffixed(name, separator, a) == Suffixed(name, separator, b)
    ensures a == b
  {
    var head := name + separator;
    assert Suffixed(name, separator, a)[|head|..] == Decimal(a);
    assert Suffixed(name, separator, b)[|head|..] == Decimal(b);
    DecimalsDiffer(a, b);
  }

  /** There are as many of them as numbers tried. */
  lemma {:induction false} TriedCount(name: string, separator: string, n: nat)
    requires n >= 2
    ensures |Tried(name, separator, n)| == n - 2
  {
    if n > 2 {
      TriedCount(name, separator, n - 1);
      var next := Suffixed(name, separator, n - 1);
      forall m | 2 <= m < n - 1 ensures Suffixed(name, separator, m) != next {
        if Suffixed(name, separator, m) == next {
          SuffixesDiffer(name, separator, m, n - 1);
        }
      }
      assert Tried(name, separator, n) == Tried(name, separator, n - 1) + {next};
    }
  }

  lemma {:induction false} SubsetCount(a: set<string>, b: set<string>)
    requires a <= b
    ensures |a| <= |b|
    decreases a
  {
    if a != {} {
      var x :| x in a;
      SubsetCount(a - {x}, b - {x});
    }
  }

  /** No more numbers can have been tried than names are used: the search ends. */
  lemma SearchBound(name: string, separator: string, used: set<string>, n: nat)
    requires n >= 2 && Tried(name, separator, n) <= used
    ensures n - 2 <= |used|
  {
    TriedCount(name, separator, n);
    SubsetCount(Tried(name, separator, n), used);
  }

  /** The lowest number from `n` on whose suffix is free. */
  function LowestFree(name: string, separator: string, used: set<string>, n: nat): (r: nat)
    requires n >= 2 && Tried(name, separator, n) <= used
    ensures r >= n && Suffixed(name, separator, r) !in used && Tried(name, separator, r) <= used
    decreases |used| + 3 - n
  {
    SearchBound(name, separator, used, n);
    if Suffixed(name, separator, n) !in used then n
    else
      assert Tried(name, separator, n + 1) <= used;
      SearchBound(name, separator, used, n + 1);
      LowestFree(name, separator, used, n + 1)
  }

  /** The name that the last of `names` gets, after `emitted`. */
  function Given(name: string, separator: string, taken: set<string>, emitted: set<string>): string {
    if name in emitted then Suffixed(name, separator, LowestFree(name, separator, taken + emitted, 2)) else name
  }

  function UniqueUpTo(names: seq<string>, separator: string, taken: set<string>): (r: seq<string>)
    ensures |r| == |names|
  {
    if names == [] then []
    else
      var before := UniqueUpTo(names[..|names| - 1], separator, taken);
      before + [Given(names[|names| - 1], separator, taken, SetOf(before))]
  }

  function Unique(names: seq<string>, separator: string): (r: seq<string>)
    ensures |r| == |names|
  {
    UniqueUpTo(names, separator, SetOf(names))
  }

  /** The program: the names one by one, each suffix tried in turn. */
  method MakeUnique(names: seq<string>, separator: string) returns (result: seq<string>)
    ensures result == Unique(names, separator)
  {
    var taken := SetOf(names);
    var emitted: set<string> := {};
    result := [];
    for i := 0 to |names|
      invariant result == UniqueUpTo(names[..i], separator, taken)
      invariant emitted == SetOf(result)
    {
      var candidate := names[i];
      if candidate in emitted {
        var n := FreeSuffix(names[i], separator, taken, emitted);
        candidate := Suffixed(names[i], separator, n);
      }
      assert names[..i + 1][..i] == names[..i];
      emitted := emitted + {candidate};
      result := result + [candidate];
    }
    assert names[..|names|] == names;
  }

  /** The search for a free suffix. */
  method FreeSuffix(name: string, separator: string, taken: set<string>, emitted: set<string>) returns (n: nat)
    ensures n == LowestFree(name, separator, taken + emitted, 2)
  {
    n := 2;
    SearchBound(name, separator, taken + emitted, n);
    while Suffixed(name, separator, n) in taken || Suffixed(name, separator, n) in emitted
      invariant n >= 2 && Tried(name, separator, n) <= taken + emitted && n - 2 <= |taken + emitted|
      invariant LowestFree(name, separator, taken + emitted, n) == LowestFree(name, separator, taken + emitted, 2)
      decreases |taken + emitted| + 3 - n
    {
      assert Tried(name, separator, n + 1) <= taken + emitted;
      SearchBound(name, separator, taken + emitted, n + 1);
      n := n + 1;
    }
  }

  // ----- what the names are -------------------------------------------------

  /** The names given to a prefix do not depend on what follows. */
  lemma {:induction false} PrefixGiven(names: seq<string>, separator: string, taken: set<string>, k: nat)
    requires k <= |names|
    ensures UniqueUpTo(names, separator, taken)[..k] == UniqueUpTo(names[..k], separator, taken)
  {
    if k < |names| {
      var front := names[..|names| - 1];
      PrefixGiven(front, separator, taken, k);
      assert front[..k] == names[..k];
    } else {
      assert names[..k] == names;
    }
  }

  lemma EachGiven(names: seq<string>, separator: string, taken: set<string>, i: nat)
    requires i < |names|
    ensures UniqueUpTo(names, separator, taken)[i] ==
            Given(names[i], separator, taken, SetOf(UniqueUpTo(names, separator, taken)[..i]))
  {
    PrefixGiven(names, separator, taken, i);
    PrefixGiven(names, separator, taken, i + 1);
    assert names[..i + 1][..i] == names[..i];
    var r := UniqueUpTo(names, separator, taken);
    assert r[i] == r[..i + 1][i];
  }

  /** A name has been given exactly when it has been seen: suffixed names avoid the
      names of the list. */
  lemma {:induction false} EmittedIffSeen(names: seq<string>, separator: string, taken: set<string>, name: string)
    requires SetOf(names) <= taken && name in taken
    ensures name in UniqueUpTo(names, separator, taken) <==> name in names
  {
    if names != [] {
      var front, last := names[..|names| - 1], names[|names| - 1];
      assert names == front + [last];
      EmittedIffSeen(front, separator, taken, name);
      EmittedIffSeen(front, separator, taken, last);
    }
  }

  /** What name `i` of a list becomes: itself when it is the first of its kind, else
      with the lowest suffix that is nobody's name and not given yet. */
  ghost predicate GivenRightly(names: seq<string>, separator: string, r: seq<string>, i: nat)
    requires i < |names| == |r|
  {
    if names[i] !in names[..i] then r[i] == names[i]
    else exists n :: LowestSuffix(names, separator, r, i, n)
  }

  ghost predicate LowestSuffix(names: seq<string>, separator: string, r: seq<string>, i: nat, n: nat)
    requires i < |names| == |r|
  {
    && n >= 2 && r[i] == Suffixed(names[i], separator, n) && r[i] !in names && r[i] !in r[..i]
    && forall m | 2 <= m < n :: Suffixed(names[i], separator, m) in names || Suffixed(names[i], separator, m) in r[..i]
  }

  /** For every list of names the result is as long, holds no name twice, keeps every
      first occurrence, and gives every later one the lowest suffix that is free. */
  lemma UniqueIsRight(names: seq<string>, separator: string)
    ensures Distinct(Unique(names, separator))
    ensures forall i | 0 <= i < |names| :: GivenRightly(names, separator, Unique(names, separator), i)
  {
    var r, taken := Unique(names, separator), SetOf(names);
    forall j | 0 <= j < |r| ensures GivenRightly(names, separator, r, j) && r[j] !in r[..j] {
      OneGiven(names, separator, j);
    }
    forall i, j | 0 <= i < j < |r| ensures r[i] != r[j] {
      assert r[i] in r[..j];
    }
  }

  lemma OneGiven(names: seq<string>, separator: string, j: nat)
    requires j < |names|
    ensures var r := Unique(names, separator); GivenRightly(names, separator, r, j) && r[j] !in r[..j]
  {
    var r, taken := Unique(names, separator), SetOf(names);
    var emitted := SetOf(r[..j]);
    EachGiven(names, separator, taken, j);
    PrefixGiven(names, separator, taken, j);
    EmittedIffSeen(names[..j], separator, taken, names[j]);
    if names[j] in emitted {
      var n := LowestFree(names[j], separator, taken + emitted, 2);
      forall m | 2 <= m < n ensures Suffixed(names[j], separator, m) in taken + emitted {
        assert Suffixed(names[j], separator, m) in Tried(names[j], separator, n);
      }
      assert LowestSuffix(names, separator, r, j, n);
    }
  }
}
