/** `lineCounter` of scripts/comment-policy.ts: a binary search over line starts. */
module LineCounter {
  import opened ShellScripts

  /** The offsets at which the lines of `text` start. */
  ghost predicate StartsOf(text: string, starts: seq<nat>) {
    && |starts| == Newlines(text) + 1
    && forall k | 0 <= k < |starts| :: IsStart(text, starts[k], k)
  }

  /** Whether line `k` starts at `offset`. */
  ghost predicate IsStart(text: string, offset: nat, k: nat) {
    && offset <= |text| && Newlines(text[..offset]) == k
    && (if k == 0 then offset == 0 else offset > 0 && text[offset - 1] == '\n')
  }

  lemma NewlinesGrow(text: string, a: nat, b: nat)
    requires a <= b <= |text|
    ensures Newlines(text[..a]) <= Newlines(text[..b])
  {
    assert text[..b] == text[..a] + text[a..b];
    NewlinesAdd(text[..a], text[a..b]);
  }

  lemma NewlinesNext(text: string, a: nat)
    requires a < |text|
    ensures Newlines(text[..a + 1]) == Newlines(text[..a]) + (if text[a] == '\n' then 1 else 0)
  {
    assert text[..a + 1] == text[..a] + [text[a]];
    NewlinesAdd(text[..a], [text[a]]);
  }

  method LineStarts(text: string) returns (starts: seq<nat>)
    ensures StartsOf(text, starts)
  {
    starts := [0];
    for i := 0 to |text|
      invariant |starts| == Newlines(text[..i]) + 1
      invariant forall k | 0 <= k < |starts| :: IsStart(text, starts[k], k)
    {
      NewlinesNext(text, i);
      if text[i] == '\n' {
        starts := starts + [i + 1];
      }
    }
    assert text[..|text|] == text;
  }

  /** The line of `offset`: the lines broken before it, counted from `firstLine`. */
  method LineOf(text: string, starts: seq<nat>, firstLine: int, offset: nat) returns (line: int)
    requires StartsOf(text, starts) && offset <= |text|
    ensures line == firstLine + Newlines(text[..offset])
  {
    var low, high := 0, |starts| - 1;
    while low < high
      invariant 0 <= low <= high < |starts|
      invariant starts[low] <= offset
      invariant high + 1 < |starts| ==> offset < starts[high + 1]
    {
      var middle := (low + high + 1) / 2;
      if starts[middle] <= offset {
        low := middle;
      } else {
        high := middle - 1;
      }
    }
    NewlinesGrow(text, starts[low], offset);
    if low + 1 < |starts| {
      var next := starts[low + 1];
      NewlinesNext(text, next - 1);
      NewlinesGrow(text, offset, next - 1);
    } else {
      assert text[..|text|] == text;
      NewlinesGrow(text, offset, |text|);
    }
    line := firstLine + low;
  }
}
