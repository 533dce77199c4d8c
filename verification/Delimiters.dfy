/** Splitting a token list into message spans at role delimiters, with regions that are skipped. */
module Delimiters {
  import opened Wrappers

  datatype Role = Unknown | System | Assistant | User | Tool

  datatype Span = Span(role: Role, pos: nat, len: nat)

  datatype Delimiter = Delimiter(role: Role, tokens: seq<int>)

  /** A region of `len` tokens from `pos` on. */
  datatype Skip = Skip(pos: nat, len: nat)

  // ---------- what a split is ----------

  predicate Matches(d: Delimiter, tokens: seq<int>, i: nat)
  {
    i + |d.tokens| <= |tokens| && tokens[i..i + |d.tokens|] == d.tokens
  }

  /** `role` belongs to the first listed delimiter that matches at `i`. */
  predicate HasRole(delimiters: seq<Delimiter>, tokens: seq<int>, i: nat, role: Role)
  {
    exists d :: 0 <= d < |delimiters| && Matches(delimiters[d], tokens, i) && delimiters[d].role == role &&
      forall e :: 0 <= e < d ==> !Matches(delimiters[e], tokens, i)
  }

  predicate Skipped(skips: seq<Skip>, i: nat)
  {
    exists k :: 0 <= k < |skips| && skips[k].pos <= i < skips[k].pos + skips[k].len
  }

  /** The regions are in order, as the keys of a map are, and disjoint. */
  predicate Disjoint(skips: seq<Skip>)
  {
    forall j, k :: 0 <= j < k < |skips| ==> skips[j].pos < skips[k].pos && skips[j].pos + skips[j].len <= skips[k].pos
  }

  /** A message starts at `i` with this role. */
  predicate Starts(delimiters: seq<Delimiter>, tokens: seq<int>, skips: seq<Skip>, i: nat, role: Role)
  {
    i < |tokens| && !Skipped(skips, i) && HasRole(delimiters, tokens, i, role)
  }

  /** Spans that are not empty, follow each other without a gap, and end with the tokens. */
  predicate Tiles(spans: seq<Span>, end: nat)
  {
    (forall k :: 0 <= k < |spans| ==> spans[k].len > 0) &&
    (forall k :: 0 <= k < |spans| - 1 ==> spans[k].pos + spans[k].len == spans[k + 1].pos) &&
    (spans != [] ==> spans[|spans| - 1].pos + spans[|spans| - 1].len == end)
  }

  /** Where the span after span `k` starts, or the end. */
  function EndOf(spans: seq<Span>, end: nat, k: nat): (pos: nat) { if k + 1 < |spans| then spans[k + 1].pos else end }

  ghost predicate IsSplit(delimiters: seq<Delimiter>, tokens: seq<int>, skips: seq<Skip>, spans: seq<Span>)
  {
    Tiles(spans, |tokens|) &&
    (forall k :: 0 <= k < |spans| ==> Starts(delimiters, tokens, skips, spans[k].pos, spans[k].role)) &&
    (forall i: nat, role :: Starts(delimiters, tokens, skips, i, role) ==>
      exists k :: 0 <= k < |spans| && spans[k].pos == i)
  }

  // ---------- the spans ----------

  /** The conversion of a position to a 32-bit integer. */
  function ToInt32(n: nat): (r: int)
    ensures n < 0x8000_0000 ==> r == n
  {
    var m := n % 0x1_0000_0000;
    if m < 0x8000_0000 then m else m - 0x1_0000_0000
  }

  class Spans {
    var spans: seq<Span>

    constructor ()
      ensures spans == []
    {
      spans := [];
    }

    method Add(role: Role, pos: nat, len: nat)
      modifies this
      ensures spans == old(spans) + [Span(role, pos, len)]
    {
      spans := spans + [Span(role, pos, len)];
    }

    method IsUserStart(pos: int) returns (r: bool)
      ensures r <==> exists k :: 0 <= k < |spans| && spans[k].role.User? && ToInt32(spans[k].pos) == pos
    {
      for k := 0 to |spans|
        invariant forall j :: 0 <= j < k ==> !(spans[j].role.User? && ToInt32(spans[j].pos) == pos)
      {
        if spans[k].role.User? && pos == ToInt32(spans[k].pos) { return true; }
      }
      r := false;
    }

    method LastUserMessagePos() returns (pos: int)
      ensures pos == LastUserPos(spans)
    {
      assert spans[..|spans|] == spans;
      for k := |spans| downto 0
        invariant forall j :: k <= j < |spans| ==> !spans[j].role.User?
        invariant LastUserPos(spans[..k]) == LastUserPos(spans)
      {
        if spans[k].role.User? {
          return ToInt32(spans[k].pos);
        }
        assert spans[..k + 1][..k] == spans[..k];
      }
      pos := -1;
    }
  }

  function LastUserPos(spans: seq<Span>): (pos: int)
  {
    if spans == [] then -1
    else if spans[|spans| - 1].role.User? then ToInt32(spans[|spans| - 1].pos)
    else LastUserPos(spans[..|spans| - 1])
  }

  // ---------- splitting ----------

  /** The inner loop: the role of the first delimiter that matches at `i`. */
  method FirstMatch(delimiters: seq<Delimiter>, tokens: seq<int>, i: nat) returns (role: Option<Role>)
    requires i < |tokens|
    ensures role.Some? ==> HasRole(delimiters, tokens, i, role.value)
    ensures role.None? ==> forall r :: !HasRole(delimiters, tokens, i, r)
  {
    for d := 0 to |delimiters|
      invariant forall e :: 0 <= e < d ==> !Matches(delimiters[e], tokens, i)
    {
      if i + |delimiters[d].tokens| <= |tokens| && tokens[i..i + |delimiters[d].tokens|] == delimiters[d].tokens {
        assert Matches(delimiters[d], tokens, i);
        return Some(delimiters[d].role);
      }
    }
    role := None;
  }

  lemma {:induction false} OneRole(delimiters: seq<Delimiter>, tokens: seq<int>, i: nat, a: Role, b: Role)
    requires HasRole(delimiters, tokens, i, a) && HasRole(delimiters, tokens, i, b)
    ensures a == b
  {
    var d :| 0 <= d < |delimiters| && Matches(delimiters[d], tokens, i) && delimiters[d].role == a &&
      forall e :: 0 <= e < d ==> !Matches(delimiters[e], tokens, i);
    var e :| 0 <= e < |delimiters| && Matches(delimiters[e], tokens, i) && delimiters[e].role == b &&
      forall f :: 0 <= f < e ==> !Matches(delimiters[f], tokens, i);
    assert d == e;
  }

  /** The matches found below a position: in order, and just the starts. */
  ghost predicate Found(delimiters: seq<Delimiter>, tokens: seq<int>, skips: seq<Skip>, matches: seq<(Role, nat)>,
          i: nat)
  {
    (forall k :: 0 <= k < |matches| ==>
      matches[k].1 < i && Starts(delimiters, tokens, skips, matches[k].1, matches[k].0)) &&
    (forall j, k :: 0 <= j < k < |matches| ==> matches[j].1 < matches[k].1) &&
    (forall p: nat, role :: p < i && Starts(delimiters, tokens, skips, p, role) ==>
      exists k :: 0 <= k < |matches| && matches[k].1 == p)
  }

  /** The scan between skips: everything before region `skip` is behind `i`, and that region is not. */
  predicate Between(skips: seq<Skip>, skip: nat, i: nat)
  {
    skip <= |skips| &&
    (forall k :: 0 <= k < skip ==> skips[k].pos + skips[k].len <= i) &&
    (skip < |skips| ==> i <= skips[skip].pos)
  }

  lemma {:induction false} NotSkipped(skips: seq<Skip>, skip: nat, i: nat)
    requires Disjoint(skips) && Between(skips, skip, i) && (skip < |skips| ==> i < skips[skip].pos)
    ensures !Skipped(skips, i)
  {
    forall k | 0 <= k < |skips|
      ensures !(skips[k].pos <= i < skips[k].pos + skips[k].len)
    {
      if skip < k { assert skips[skip].pos < skips[k].pos; }
    }
  }

  lemma {:induction false} FoundMore(delimiters: seq<Delimiter>, tokens: seq<int>, skips: seq<Skip>,
          matches: seq<(Role, nat)>, i: nat, role: Role)
    requires Found(delimiters, tokens, skips, matches, i) && Starts(delimiters, tokens, skips, i, role)
    ensures Found(delimiters, tokens, skips, matches + [(role, i)], i + 1)
  {
    hide Starts;
    var more := matches + [(role, i)];
    forall p: nat, r | p < i + 1 && Starts(delimiters, tokens, skips, p, r)
      ensures exists k :: 0 <= k < |more| && more[k].1 == p
    {
      if p == i {
        assert more[|matches|].1 == p;
      } else {
        var k :| 0 <= k < |matches| && matches[k].1 == p;
        assert more[k].1 == p;
      }
    }
  }

  lemma {:induction false} FoundNone(delimiters: seq<Delimiter>, tokens: seq<int>, skips: seq<Skip>,
          matches: seq<(Role, nat)>, i: nat, i': nat)
    requires Found(delimiters, tokens, skips, matches, i) && i <= i'
    requires forall p: nat, role :: i <= p < i' ==> !Starts(delimiters, tokens, skips, p, role)
    ensures Found(delimiters, tokens, skips, matches, i')
  {
    hide Starts;
  }

  /** `split`. */
  method Split(delimiters: seq<Delimiter>, tokens: seq<int>, skips: seq<Skip>) returns (r: Spans)
    requires Disjoint(skips)
    ensures fresh(r) && IsSplit(delimiters, tokens, skips, r.spans)
  {
    hide Starts, Skipped, HasRole, Found;
    var matches := FindMatches(delimiters, tokens, skips);
    r := new Spans();
    var all := matches + [(Unknown, |tokens|)];
    for k := 0 to |matches|
      invariant fresh(r) && |r.spans| == k
      invariant forall j :: 0 <= j < k ==> r.spans[j] == Span(all[j].0, all[j].1, all[j + 1].1 - all[j].1)
    {
      FoundOrder(delimiters, tokens, skips, matches, k);
      r.Add(all[k].0, all[k].1, all[k + 1].1 - all[k].1);
    }
    TilesOfMatches(|tokens|, matches, r.spans);
    SpansOfMatches(delimiters, tokens, skips, matches, r.spans);
  }

  lemma {:induction false} FoundOrder(delimiters: seq<Delimiter>, tokens: seq<int>, skips: seq<Skip>,
          matches: seq<(Role, nat)>, k: nat)
    requires Found(delimiters, tokens, skips, matches, |tokens|) && k < |matches|
    ensures var all := matches + [(Unknown, |tokens|)]; all[k].1 < all[k + 1].1
  {
    hide Starts;
  }

  lemma {:induction false} TilesOfMatches(end: nat, matches: seq<(Role, nat)>, spans: seq<Span>)
    requires |spans| == |matches|
    requires var all := matches + [(Unknown, end)];
             forall j :: 0 <= j < |spans| ==>
               all[j].1 < all[j + 1].1 && spans[j] == Span(all[j].0, all[j].1, all[j + 1].1 - all[j].1)
    ensures Tiles(spans, end)
    ensures forall k :: 0 <= k < |spans| ==> spans[k].pos == matches[k].1 && spans[k].role == matches[k].0
  {
    var all := matches + [(Unknown, end)];
    forall k | 0 <= k < |spans|
      ensures spans[k].pos == matches[k].1 && spans[k].role == matches[k].0
      ensures spans[k].len > 0 && spans[k].pos + spans[k].len == EndOf(spans, end, k)
    {
      assert all[k] == matches[k] && spans[k] == Span(all[k].0, all[k].1, all[k + 1].1 - all[k].1);
      if k + 1 < |spans| { assert spans[k + 1] == Span(all[k + 1].0, all[k + 1].1, all[k + 2].1 - all[k + 1].1); }
    }
    assert spans != [] ==> EndOf(spans, end, |spans| - 1) == end;
    assert forall k :: 0 <= k < |spans| - 1 ==> EndOf(spans, end, k) == spans[k + 1].pos;
  }

  lemma {:induction false} SpansOfMatches(delimiters: seq<Delimiter>, tokens: seq<int>, skips: seq<Skip>,
          matches: seq<(Role, nat)>, spans: seq<Span>)
    requires Found(delimiters, tokens, skips, matches, |tokens|) && |spans| == |matches|
    requires Tiles(spans, |tokens|)
    requires forall k :: 0 <= k < |spans| ==> spans[k].pos == matches[k].1 && spans[k].role == matches[k].0
    ensures IsSplit(delimiters, tokens, skips, spans)
  {
    hide Starts, Tiles;
    forall i: nat, role | Starts(delimiters, tokens, skips, i, role)
      ensures exists k :: 0 <= k < |spans| && spans[k].pos == i
    {
      StartsInside(delimiters, tokens, skips, i, role);
      var k :| 0 <= k < |matches| && matches[k].1 == i;
      assert spans[k].pos == i;
    }
    forall k | 0 <= k < |spans|
      ensures Starts(delimiters, tokens, skips, spans[k].pos, spans[k].role)
    {
      assert Starts(delimiters, tokens, skips, matches[k].1, matches[k].0);
    }
  }

  lemma {:induction false} StartsInside(delimiters: seq<Delimiter>, tokens: seq<int>, skips: seq<Skip>, i: nat,
          role: Role)
    requires Starts(delimiters, tokens, skips, i, role)
    ensures i < |tokens|
  {
  }

  /** The scanning loop of `split`. A region of length zero advances the regions but not the position. */
  method FindMatches(delimiters: seq<Delimiter>, tokens: seq<int>, skips: seq<Skip>) returns (matches: seq<(Role, nat)>)
    requires Disjoint(skips)
    ensures Found(delimiters, tokens, skips, matches, |tokens|)
    ensures forall k :: 0 <= k < |matches| ==>
              (matches + [(Unknown, |tokens|)])[k].1 < (matches + [(Unknown, |tokens|)])[k + 1].1
  {
    hide HasRole, Matches;
    matches := [];
    var skip, i := 0, 0;
    while i < |tokens|
      invariant Between(skips, skip, i) && Found(delimiters, tokens, skips, matches, i)
      decreases |tokens| - i, |skips| - skip
    {
      if skip < |skips| && i == skips[skip].pos {
        var i' := i + skips[skip].len;
        NothingInside(delimiters, tokens, skips, skip);
        FoundNone(delimiters, tokens, skips, matches, i, i');
        i := i';
        skip := skip + 1;
        continue;
      }
      var role := FirstMatch(delimiters, tokens, i);
      NotSkipped(skips, skip, i);
      if role.Some? {
        FoundMore(delimiters, tokens, skips, matches, i, role.value);
        matches := matches + [(role.value, i)];
      } else {
        FoundNone(delimiters, tokens, skips, matches, i, i + 1);
      }
      i := i + 1;
    }
    FoundBelow(delimiters, tokens, skips, matches, i);
    forall k | 0 <= k < |matches|
      ensures (matches + [(Unknown, |tokens|)])[k].1 < (matches + [(Unknown, |tokens|)])[k + 1].1
    {
      FoundOrder(delimiters, tokens, skips, matches, k);
    }
  }

  lemma {:induction false} NothingInside(delimiters: seq<Delimiter>, tokens: seq<int>, skips: seq<Skip>, k: nat)
    requires k < |skips|
    ensures forall p: nat, role :: skips[k].pos <= p < skips[k].pos + skips[k].len ==>
      !Starts(delimiters, tokens, skips, p, role)
  {
    forall p: nat | skips[k].pos <= p < skips[k].pos + skips[k].len
      ensures Skipped(skips, p)
    {
    }
  }

  /** Nothing starts past the last token. */
  lemma {:induction false} FoundBelow(delimiters: seq<Delimiter>, tokens: seq<int>, skips: seq<Skip>,
          matches: seq<(Role, nat)>, i: nat)
    requires Found(delimiters, tokens, skips, matches, i) && |tokens| <= i
    ensures Found(delimiters, tokens, skips, matches, |tokens|)
  {
  }

  // ---------- what follows from being a split ----------

  lemma {:induction false} TilesAscend(spans: seq<Span>, end: nat, j: nat, k: nat)
    requires Tiles(spans, end) && j < k < |spans|
    ensures spans[j].pos < spans[k].pos
    decreases k - j
  {
    assert spans[j].pos + spans[j].len == spans[j + 1].pos;
    if j + 1 < k { TilesAscend(spans, end, j + 1, k); }
  }

  /** There is only one split: positions, roles and lengths are determined. */
  lemma {:induction false} SplitUnique(delimiters: seq<Delimiter>, tokens: seq<int>, skips: seq<Skip>, a: seq<Span>,
          b: seq<Span>)
    requires IsSplit(delimiters, tokens, skips, a) && IsSplit(delimiters, tokens, skips, b)
    ensures a == b
  {
    hide Starts, HasRole;
    SamePositions(delimiters, tokens, skips, a, b, |a|);
    SamePositions(delimiters, tokens, skips, b, a, |b|);
    forall k | 0 <= k < |a|
      ensures a[k] == b[k]
    {
      assert Starts(delimiters, tokens, skips, a[k].pos, a[k].role) &&
        Starts(delimiters, tokens, skips, b[k].pos, b[k].role);
      SameRole(delimiters, tokens, skips, a[k].pos, a[k].role, b[k].role);
      TileEnd(a, |tokens|, k);
      TileEnd(b, |tokens|, k);
    }
  }

  lemma {:induction false} TileEnd(spans: seq<Span>, end: nat, k: nat)
    requires Tiles(spans, end) && k < |spans|
    ensures spans[k].pos + spans[k].len == EndOf(spans, end, k)
  {
  }

  lemma {:induction false} SameRole(delimiters: seq<Delimiter>, tokens: seq<int>, skips: seq<Skip>, i: nat, a: Role,
          b: Role)
    requires Starts(delimiters, tokens, skips, i, a) && Starts(delimiters, tokens, skips, i, b)
    ensures a == b
  {
    OneRole(delimiters, tokens, i, a, b);
  }

  /** Every span of one split starts where some span of the other does. */
  lemma {:induction false} StartAt(delimiters: seq<Delimiter>, tokens: seq<int>, skips: seq<Skip>, a: seq<Span>,
          b: seq<Span>, m: nat) returns (k: nat)
    requires IsSplit(delimiters, tokens, skips, a) && IsSplit(delimiters, tokens, skips, b) && m < |a|
    ensures k < |b| && b[k].pos == a[m].pos
  {
    hide Starts;
    assert Starts(delimiters, tokens, skips, a[m].pos, a[m].role);
    k :| 0 <= k < |b| && b[k].pos == a[m].pos;
  }

  lemma {:induction false} SamePositions(delimiters: seq<Delimiter>, tokens: seq<int>, skips: seq<Skip>, a: seq<Span>,
          b: seq<Span>, n: nat)
    requires IsSplit(delimiters, tokens, skips, a) && IsSplit(delimiters, tokens, skips, b) && n <= |a|
    ensures n <= |b| && forall k :: 0 <= k < n ==> a[k].pos == b[k].pos
    decreases n
  {
    hide IsSplit, Tiles;
    if n > 0 {
      SamePositions(delimiters, tokens, skips, a, b, n - 1);
      var m := n - 1;
      SplitTiles(delimiters, tokens, skips, a);
      SplitTiles(delimiters, tokens, skips, b);
      var k := StartAt(delimiters, tokens, skips, a, b, m);
      if k < m { TilesAscend(a, |tokens|, k, m); }
      var j := StartAt(delimiters, tokens, skips, b, a, m);
      if j < m { TilesAscend(b, |tokens|, j, m); }
      if m < j { TilesAscend(a, |tokens|, m, j); }
      if m < k { TilesAscend(b, |tokens|, m, k); }
    }
  }

  lemma {:induction false} SplitTiles(delimiters: seq<Delimiter>, tokens: seq<int>, skips: seq<Skip>, spans: seq<Span>)
    requires IsSplit(delimiters, tokens, skips, spans)
    ensures Tiles(spans, |tokens|)
  {
  }

  /** While positions fit 31 bits, the last user message is the greatest unskipped position whose first matching
      delimiter is the user's, and -1 if there is none. */
  lemma {:induction false} LastUserStart(delimiters: seq<Delimiter>, tokens: seq<int>, skips: seq<Skip>,
          spans: seq<Span>)
    requires IsSplit(delimiters, tokens, skips, spans) && |tokens| < 0x8000_0000
    ensures var pos := LastUserPos(spans);
            (pos == -1 || (pos >= 0 && Starts(delimiters, tokens, skips, pos, User))) &&
            forall i: nat :: Starts(delimiters, tokens, skips, i, User) ==> i <= pos
  {
    hide Starts;
    forall k | 0 <= k < |spans|
      ensures spans[k].pos < |tokens|
    {
      StartsInside(delimiters, tokens, skips, spans[k].pos, spans[k].role);
    }
    LastUserIndex(spans, |tokens|, spans);
    forall i: nat | Starts(delimiters, tokens, skips, i, User)
      ensures i <= LastUserPos(spans)
    {
      var k :| 0 <= k < |spans| && spans[k].pos == i;
      assert Starts(delimiters, tokens, skips, spans[k].pos, spans[k].role);
      SameRole(delimiters, tokens, skips, i, User, spans[k].role);
    }
  }

  lemma {:induction false} LastUserIndex(spans: seq<Span>, end: nat, all: seq<Span>)
    requires spans <= all && Tiles(all, end) && forall k :: 0 <= k < |all| ==> all[k].pos < 0x8000_0000
    ensures var pos := LastUserPos(spans);
            (pos == -1 || exists k :: 0 <= k < |spans| && spans[k].role.User? && spans[k].pos == pos) &&
            forall k :: 0 <= k < |spans| && spans[k].role.User? ==> spans[k].pos <= pos
    decreases |spans|
  {
    if spans != [] {
      var last := |spans| - 1;
      LastUserIndex(spans[..last], end, all);
      if spans[last].role.User? {
        forall k | 0 <= k < last
          ensures spans[k].pos <= spans[last].pos
        {
          TilesAscend(all, end, k, last);
        }
      }
    }
  }
}
