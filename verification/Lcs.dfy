/** `string_lcs`: the longest common substring by dynamic programming. */
module Lcs {

  /** The length of the longest common suffix of `a[..i]` and `b[..j]`. */
  function CommonSuffix(a: string, b: string, i: nat, j: nat): (n: nat)
    ensures n <= i && n <= j
  {
    if i == 0 || j == 0 || i > |a| || j > |b| || a[i - 1] != b[j - 1] then 0 else 1 + CommonSuffix(a, b, i - 1, j - 1)
  }

  /** `r` stands in `s` at `p`. */
  predicate At(s: string, p: nat, r: string) { p + |r| <= |s| && s[p..p + |r|] == r }

  predicate Occurs(r: string, s: string) { exists p: nat :: p <= |s| && At(s, p, r) }

  /** The table decides which texts are common to the two strings at a pair of places. */
  lemma {:induction false} CommonAt(a: string, b: string, p: nat, q: nat, k: nat)
    requires p + k <= |a| && q + k <= |b|
    ensures a[p..p + k] == b[q..q + k] <==> k <= CommonSuffix(a, b, p + k, q + k)
    decreases k
  {
    if k > 0 {
      LastApart(a, p, k);
      LastApart(b, q, k);
      var x, y := a[p..p + (k - 1)], b[q..q + (k - 1)];
      var c, d := a[p + k - 1], b[q + k - 1];
      assert (x + [c])[..k - 1] == x && (x + [c])[k - 1] == c;
      assert (y + [d])[..k - 1] == y && (y + [d])[k - 1] == d;
      CommonAt(a, b, p, q, k - 1);
    }
  }

  lemma {:induction false} LastApart(s: string, p: nat, k: nat)
    requires 0 < k && p + k <= |s|
    ensures s[p..p + k] == s[p..p + (k - 1)] + [s[p + k - 1]]
  {
  }

  /** Row by row, before entry `(i, j)`. */
  predicate Before(k: nat, l: nat, i: nat, j: nat) { k < i || (k == i && l < j) }

  /** What is known when the entries before `(i, j)` have been looked at: none exceeds `best`, the entry at
      `(endA, endB)` reaches it, and no earlier row does. */
  ghost predicate Best(a: string, b: string, i: nat, j: nat, best: nat, endA: nat, endB: nat)
  {
    best <= endA <= |a| && best <= endB <= |b| && best <= CommonSuffix(a, b, endA, endB) &&
    (forall k: nat, l: nat :: l <= |b| && Before(k, l, i, j) ==> CommonSuffix(a, b, k, l) <= best) &&
    (best > 0 ==> forall k: nat, l: nat :: l <= |b| && k < endA ==> CommonSuffix(a, b, k, l) < best)
  }

  lemma {:induction false} BestStart(a: string, b: string)
    ensures Best(a, b, 1, 1, 0, 0, 0)
  {
  }

  lemma {:induction false} NextRow(a: string, b: string, i: nat, best: nat, endA: nat, endB: nat)
    requires Best(a, b, i, |b| + 1, best, endA, endB)
    ensures Best(a, b, i + 1, 1, best, endA, endB)
  {
    assert CommonSuffix(a, b, i + 1, 0) == 0;
  }

  lemma {:induction false} NextEntry(a: string, b: string, i: nat, j: nat, best: nat, endA: nat, endB: nat)
    requires Best(a, b, i, j, best, endA, endB) && 1 <= i <= |a| && 1 <= j <= |b|
    ensures var n := CommonSuffix(a, b, i, j);
            if n > best then Best(a, b, i, j + 1, n, i, j) else Best(a, b, i, j + 1, best, endA, endB)
  {
    hide CommonSuffix;
    assert forall k: nat, l: nat :: Before(k, l, i, j + 1) ==> Before(k, l, i, j) || (k == i && l == j);
    assert forall k: nat, l: nat :: l <= |b| && k < i ==> Before(k, l, i, j);
  }

  /** The result occurs in both strings and no common substring is longer; among those of its length none starts
      earlier in `a`. */
  method StringLcs(a: string, b: string) returns (r: string, ghost start: nat)
    ensures At(a, start, r) && Occurs(r, b)
    ensures forall t :: Occurs(t, a) && Occurs(t, b) ==> |t| <= |r|
    ensures forall t, p: nat :: |t| == |r| > 0 && At(a, p, t) && Occurs(t, b) ==> start <= p
  {
    hide CommonSuffix, Best, Occurs;
    BestStart(a, b);
    if a == "" || b == "" {
      r, start := "", 0;
      NothingCommon(a, b);
      return;
    }
    var dp := new nat[|a| + 1, |b| + 1]((i, j) => 0);
    var bestLen: nat, bestEndA: nat := 0, 0;
    ghost var bestEndB: nat := 0;
    for i := 1 to |a| + 1
      invariant Filled(a, b, dp, i, 1) && Best(a, b, i, 1, bestLen, bestEndA, bestEndB)
    {
      bestLen, bestEndA, bestEndB := FillRow(a, b, dp, i, bestLen, bestEndA, bestEndB);
      NextRow(a, b, i, bestLen, bestEndA, bestEndB);
    }
    Longest(a, b, bestLen, bestEndA, bestEndB);
    r, start := a[bestEndA - bestLen..bestEndA], bestEndA - bestLen;
  }

  /** The table holds the entries before `(i, j)` and zeros after them. */
  ghost predicate Filled(a: string, b: string, dp: array2<nat>, i: nat, j: nat)
    reads dp
  {
    dp.Length0 == |a| + 1 && dp.Length1 == |b| + 1 &&
    forall k: nat, l: nat :: k <= |a| && l <= |b| ==>
      dp[k, l] == if k == 0 || l == 0 || !Before(k, l, i, j) then 0 else CommonSuffix(a, b, k, l)
  }

  /** The inner loop. */
  method FillRow(a: string, b: string, dp: array2<nat>, i: nat, best: nat, endA: nat, ghost endB: nat)
      returns (bestLen: nat, bestEndA: nat, ghost bestEndB: nat)
    requires 1 <= i <= |a| && Filled(a, b, dp, i, 1) && Best(a, b, i, 1, best, endA, endB)
    modifies dp
    ensures Filled(a, b, dp, i + 1, 1) && Best(a, b, i, |b| + 1, bestLen, bestEndA, bestEndB)
  {
    hide CommonSuffix, Best;
    bestLen, bestEndA, bestEndB := best, endA, endB;
    for j := 1 to |b| + 1
      invariant Filled(a, b, dp, i, j) && Best(a, b, i, j, bestLen, bestEndA, bestEndB)
    {
      Entry(a, b, i, j);
      NextEntry(a, b, i, j, bestLen, bestEndA, bestEndB);
      if a[i - 1] == b[j - 1] {
        dp[i, j] := dp[i - 1, j - 1] + 1;
        if dp[i, j] > bestLen {
          bestLen := dp[i, j];
          bestEndA, bestEndB := i, j;
        }
      }
    }
  }

  lemma {:induction false} Entry(a: string, b: string, i: nat, j: nat)
    requires 1 <= i <= |a| && 1 <= j <= |b|
    ensures CommonSuffix(a, b, i, j) == if a[i - 1] == b[j - 1] then CommonSuffix(a, b, i - 1, j - 1) + 1 else 0
    ensures i == 1 || j == 1 ==> CommonSuffix(a, b, i - 1, j - 1) == 0
  {
  }

  lemma {:induction false} Longest(a: string, b: string, best: nat, endA: nat, endB: nat)
    requires Best(a, b, |a| + 1, 1, best, endA, endB)
    ensures best <= endA <= |a| && Occurs(a[endA - best..endA], b)
    ensures forall t :: Occurs(t, a) && Occurs(t, b) ==> |t| <= best
    ensures forall t, p: nat :: |t| == best > 0 && At(a, p, t) && Occurs(t, b) ==> endA - best <= p
  {
    hide CommonSuffix;
    var r := a[endA - best..endA];
    CommonAt(a, b, endA - best, endB - best, best);
    assert At(b, endB - best, r);
    forall t, p: nat | At(a, p, t) && Occurs(t, b)
      ensures |t| <= best && (|t| == best > 0 ==> endA - best <= p)
    {
      var q: nat :| q <= |b| && At(b, q, t);
      CommonAt(a, b, p, q, |t|);
      assert Before(p + |t|, q + |t|, |a| + 1, 1);
    }
  }

  lemma {:induction false} NothingCommon(a: string, b: string)
    requires a == "" || b == ""
    ensures At(a, 0, "") && Occurs("", b)
    ensures forall t :: Occurs(t, a) && Occurs(t, b) ==> t == ""
  {
    assert At(a, 0, "") && At(b, 0, "");
  }
}
