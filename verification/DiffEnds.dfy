/** The split takes out all that is in common: what it reports as different begins and ends with a difference. */
module DiffEnds {
  import opened DiffSplit

  // ---------- segments ----------

  /** From an opening bracket to the first closing one of its kind. */
  predicate Bracketed(v: string)
  {
    |v| >= 2 &&
    ((v[0] == '<' && v[|v| - 1] == '>' && forall i :: 1 <= i < |v| - 1 ==> v[i] != '>') ||
     (v[0] == '[' && v[|v| - 1] == ']' && forall i :: 1 <= i < |v| - 1 ==> v[i] != ']'))
  }

  predicate Plain(v: string) { forall i :: 0 <= i < |v| ==> v[i] != '<' && v[i] != '[' }

  /** An opening bracket that is not closed. */
  predicate Unclosed(v: string)
  {
    v != "" &&
    ((v[0] == '<' && forall i :: 1 <= i < |v| ==> v[i] != '>') ||
     (v[0] == '[' && forall i :: 1 <= i < |v| ==> v[i] != ']'))
  }

  /** A marker is a bracketed text, all else holds no opening bracket, and only the last segment may be left open. */
  predicate GoodSegment(g: Segment, last: bool)
  {
    g.value != "" &&
    if g.isMarker then Bracketed(g.value) else Plain(g.value) || (last && Unclosed(g.value))
  }

  /** Text follows text only as an open bracket at the end. */
  predicate Cut(segs: seq<Segment>)
  {
    (forall i :: 0 <= i < |segs| ==> GoodSegment(segs[i], i == |segs| - 1)) &&
    forall i :: 0 <= i < |segs| - 1 && !segs[i].isMarker ==> segs[i + 1].isMarker || i + 1 == |segs| - 1
  }

  /** What `segmentize_markers` cuts a text into. */
  lemma {:induction false} SegmentsAre(s: string)
    ensures Cut(Segments(s)) && Concat(Segments(s)) == s
    decreases |s|
  {
    hide *;
    Lossless(s);
    if s == "" {
      CutNothing();
    } else {
      FirstSegment(s);
      var rest := s[|Segments(s)[0].value|..];
      SegmentsAre(rest);
      if rest == "" { NoSegments(); } else if IsOpener(rest[0]) { OpensNext(rest); }
      CutMore(Segments(s)[0], Segments(rest));
    }
  }

  lemma {:induction false} CutNothing()
    ensures Cut(Segments(""))
  {
  }

  lemma {:induction false} CutMore(g: Segment, rest: seq<Segment>)
    requires Cut(rest) && GoodSegment(g, rest == [])
    requires !g.isMarker && rest != [] ==> rest[0].isMarker || |rest| == 1
    ensures Cut([g] + rest)
  {
    hide Bracketed, Plain, Unclosed;
    var all := [g] + rest;
    assert forall i :: 1 <= i < |all| ==> all[i] == rest[i - 1];
  }

  lemma {:induction false} OpensNext(s: string)
    requires s != "" && IsOpener(s[0])
    ensures Segments(s) != [] && (Segments(s)[0].isMarker || |Segments(s)| == 1)
  {
  }

  lemma {:induction false} FirstSegment(s: string)
    requires s != ""
    ensures Segments(s) != [] && GoodSegment(Segments(s)[0], |Segments(s)| == 1)
    ensures 0 < |Segments(s)[0].value| <= |s|
    ensures var rest := s[|Segments(s)[0].value|..];
            Segments(s) == [Segments(s)[0]] + Segments(rest) && |rest| < |s| &&
            (rest != "" && !Segments(s)[0].isMarker ==> IsOpener(rest[0]))
  {
    hide Segments, Bracketed, Plain, Unclosed, TextLength, MarkerLength;
    if IsOpener(s[0]) { BracketFirst(s); } else { TextFirst(s); }
  }

  lemma {:induction false} BracketFirst(s: string)
    requires s != "" && IsOpener(s[0])
    ensures var n := MarkerLength(s[0], s[1..]);
            if n + 1 == |s| then Segments(s) == [Segment(false, s)] && Unclosed(s) && s[|s|..] == "" &&
              Segments("") == []
            else
              n + 2 <= |s| && Segments(s) == [Segment(true, s[..n + 2])] + Segments(s[n + 2..]) && Bracketed(s[..n + 2])
  {
    hide MarkerLength;
    var n := MarkerLength(s[0], s[1..]);
    NoSegments();
    if n + 1 == |s| { LeftOpen(s, s[1..]); } else { Closed(s, s[1..], n); }
    hide Segments;
  }

  lemma {:induction false} LeftOpen(s: string, rest: string)
    requires s != "" && IsOpener(s[0]) && rest == s[1..] && forall i :: 0 <= i < |rest| ==> !IsCloser(s[0], rest[i])
    ensures Unclosed(s)
  {
    assert forall i :: 1 <= i < |s| ==> s[i] == rest[i - 1];
  }

  lemma {:induction false} Closed(s: string, rest: string, n: nat)
    requires s != "" && IsOpener(s[0]) && rest == s[1..] && n < |rest| && IsCloser(s[0], rest[n])
    requires forall i :: 0 <= i < n ==> !IsCloser(s[0], rest[i])
    ensures Bracketed(s[..n + 2])
  {
    assert forall i :: 1 <= i < |s| ==> s[i] == rest[i - 1];
  }

  lemma {:induction false} TextFirst(s: string)
    requires s != "" && !IsOpener(s[0])
    ensures var n := TextLength(s);
            0 < n <= |s| && Segments(s) == [Segment(false, s[..n])] + Segments(s[n..]) && Plain(s[..n]) &&
            (n < |s| ==> IsOpener(s[n..][0]))
  {
  }

  // ---------- inputs without brackets ----------

  /** `n` is the length of the longest common tail. */
  predicate LongestTail(a: string, b: string, n: nat)
  {
    n <= |a| && n <= |b| && a[|a| - n..] == b[|b| - n..] &&
    (n == |a| || n == |b| || a[|a| - n - 1] != b[|b| - n - 1])
  }

  predicate LongestHead(a: string, b: string, n: nat)
  {
    n <= |a| && n <= |b| && a[..n] == b[..n] && (n == |a| || n == |b| || a[n] != b[n])
  }

  lemma {:induction false} SuffixLongest(a: string, b: string)
    ensures LongestTail(a, b, CommonSuffix(a, b))
  {
    hide SuffixFrom;
    var n := CommonSuffix(a, b);
    SameEnds(a, b, 0, n);
    assert n < |a| && n < |b| ==> FromEnd(a, n) != FromEnd(b, n);
  }

  lemma {:induction false} PrefixLongest(a: string, b: string)
    ensures LongestHead(a, b, CommonPrefix(a, b))
  {
    hide PrefixFrom;
  }

  lemma {:induction false} PlainSegments(s: string)
    requires Plain(s)
    ensures Segments(s) == if s == "" then [] else [Segment(false, s)]
  {
    if s != "" {
      assert TextLength(s) == |s|;
      assert s[..|s|] == s && s[|s|..] == "";
    }
  }

  /** Without brackets the split is this one: a left input the right one goes on from is all prefix; otherwise the
      suffix is the longest common tail, and the prefix the longest common head of what is before it. */
  lemma {:induction false} PlainSplit(left: string, right: string)
    requires Plain(left) && Plain(right)
    ensures var r := Diff(left, right);
            Decomposes(r, left, right) &&
            if left <= right then r == Split(left, "", "", right[|left|..])
            else
              LongestTail(left, right, |r.suffix|) &&
              LongestHead(left[..|left| - |r.suffix|], right[..|right| - |r.suffix|], |r.prefix|)
  {
    hide Finish, LongestHead, LongestTail, Decomposes, Segments;
    PlainSegments(left);
    PlainSegments(right);
    if left == "" || right == "" {
      EmptyDecomposes(left, right);
      PlainEmpty(left, right);
    } else {
      var L, R := [Segment(false, left)], [Segment(false, right)];
      assert L[0..1] == L && R[0..1] == R && L[1..] == [] && R[1..] == [];
      assert left + "" == left && right + "" == right;
      assert Concat(L) == left && Concat(R) == right;
      assert Diff(left, right) == Finish(left, right, "", "", left, right, true, true);
      assert "" + left + "" == left && "" + right + "" == right;
      FinishGood(left, right, "", "", left, right, true, true);
      FinishPlain(left, right);
    }
  }

  lemma {:induction false} PlainEmpty(left: string, right: string)
    requires left == "" || right == ""
    ensures var r := Diff(left, right);
            if left <= right then r == Split(left, "", "", right[|left|..])
            else
              LongestTail(left, right, |r.suffix|) &&
              LongestHead(left[..|left| - |r.suffix|], right[..|right| - |r.suffix|], |r.prefix|)
  {
    hide Finish, Loop, After;
    Lossless(left);
    Lossless(right);
    assert Segments("") == [];
    assert right[0..] == right;
  }

  lemma {:induction false} FinishPlain(left: string, right: string)
    ensures var r := Finish(left, right, "", "", left, right, true, true);
            if left <= right then r == Split(left, "", "", right[|left|..])
            else
              LongestTail(left, right, |r.suffix|) &&
              LongestHead(left[..|left| - |r.suffix|], right[..|right| - |r.suffix|], |r.prefix|)
  {
    hide LongestHead, LongestTail, CommonSuffix, CommonPrefix, Trimmed, Repair;
    var n := CommonSuffix(left, right);
    SuffixLongest(left, right);
    TailFits(left, right, n);
    var u, v := left[..|left| - n], right[..|right| - n];
    var m := CommonPrefix(u, v);
    PrefixLongest(u, v);
    HeadFits(u, v, m);
    TrimmedPlain(left, right, m, n);
    if left <= right {
      PrefixCut(left, right, n);
      HeadWhole(u, v, m);
      RepairsPrefix(Trimmed("", "", left, right, m, n), left, right);
    } else {
      if m == |u| == |v| { NothingDiffers(left, right, m, n); }
      KeepsOther(Trimmed("", "", left, right, m, n), left, right);
    }
  }

  lemma {:induction false} TrimmedPlain(left: string, right: string, m: nat, n: nat)
    requires m + n <= |left| && m + n <= |right|
    ensures Trimmed("", "", left, right, m, n) ==
            Split(left[..m], left[|left| - n..], left[m..|left| - n], right[m..|right| - n])
  {
    assert "" + left[..m] == left[..m] && left[|left| - n..] + "" == left[|left| - n..];
  }

  lemma {:induction false} PrefixCut(left: string, right: string, n: nat)
    requires left <= right && n <= |left|
    ensures left[..|left| - n] <= right[..|right| - n]
  {
    assert forall i :: 0 <= i < |left| ==> left[i] == right[i];
  }

  lemma {:induction false} RepairsPrefix(r: Split, left: string, right: string)
    requires r.left == "" && left <= right && (r.right == "" ==> |left| == |right|)
    ensures Repair(r, left, right) == Split(left, "", "", right[|left|..])
  {
  }

  lemma {:induction false} KeepsOther(r: Split, left: string, right: string)
    requires !(r.left == "" && r.right == "") && !(left <= right)
    ensures Repair(r, left, right) == r
  {
  }

  lemma {:induction false} TailFits(a: string, b: string, n: nat)
    requires LongestTail(a, b, n)
    ensures n <= |a| && n <= |b| && a[|a| - n..] == b[|b| - n..]
  {
  }

  lemma {:induction false} HeadFits(a: string, b: string, n: nat)
    requires LongestHead(a, b, n)
    ensures n <= |a| && n <= |b| && a[..n] == b[..n]
  {
  }

  lemma {:induction false} HeadWhole(a: string, b: string, n: nat)
    requires LongestHead(a, b, n) && a <= b
    ensures n == |a|
  {
    assert forall i :: 0 <= i < |a| ==> a[i] == b[i];
  }

  lemma {:induction false} NothingDiffers(left: string, right: string, m: nat, n: nat)
    requires n <= |left| && n <= |right| && m == |left| - n == |right| - n
    requires left[..m][..m] == right[..m][..m] && left[|left| - n..] == right[|right| - n..]
    ensures left == right
  {
    assert left[..m] == left[..m][..m] && right[..m] == right[..m][..m];
    assert left == left[..m] + left[m..] && right == right[..m] + right[m..];
  }

  // ---------- any inputs ----------

  /** The loop stops only where a side has one segment left, or neither the first nor the last segments are equal. */
  lemma {:induction false} LoopStops(L: seq<Segment>, R: seq<Segment>, s: State)
    requires Valid(L, R, s)
    ensures var t := Loop(L, R, s);
            t.ls == t.le || t.rs == t.re || (L[t.ls] != R[t.rs] && L[t.le] != R[t.re])
    decreases s.le - s.ls + s.re - s.rs
  {
    if Going(s) && Advances(L, R, s) { LoopStops(L, R, MatchBack(L, R, MatchFront(L, R, s))); }
  }

  /** After the branches behind the loop a side is used up, or the segments left over differ in front and at the end, or
      two equal texts are left to compare. */
  lemma {:induction false} SegmentsDiffer(L: seq<Segment>, R: seq<Segment>)
    requires L != [] && R != []
    ensures var t := After(L, R, Loop(L, R, Start(L, R)));
            (t.leftConsumed ==> t.ls == t.le) && (t.rightConsumed ==> t.rs == t.re) &&
            (t.leftConsumed || t.rightConsumed ||
             (L[t.ls] != R[t.rs] && L[t.le] != R[t.re]) ||
             (t.ls == t.le && t.rs == t.re && L[t.ls] == R[t.rs] && !L[t.ls].isMarker))
  {
    hide Loop;
    LoopStops(L, R, Start(L, R));
  }

  /** Two texts share their first character only if it opens a marker, and their last only if it closes one. */
  predicate FrontDiffers(l: string, r: string)
  {
    l != "" && r != "" && l[0] == r[0] ==> l[0] == '<' || l[0] == '['
  }

  predicate BackDiffers(l: string, r: string)
  {
    l != "" && r != "" && l[|l| - 1] == r[|r| - 1] ==> l[|l| - 1] == '>' || l[|l| - 1] == ']'
  }

  /** A complete marker of `n` characters begins the text. */
  predicate MarkerFront(s: string, n: nat) { n <= |s| && Bracketed(s[..n]) }

  /** No complete marker begins both. */
  predicate MarkersDiffer(l: string, r: string)
  {
    forall n: nat :: MarkerFront(l, n) && n <= |r| ==> l[..n] != r[..n]
  }

  /** Where the split reports a difference on both sides, the differing texts begin and end with one: they share no
      first or last character but a bracket, and no marker at the front. */
  lemma {:induction false} EndsDiffer(left: string, right: string)
    ensures var d := Diff(left, right);
            d.left != "" && d.right != "" ==>
              FrontDiffers(d.left, d.right) && BackDiffers(d.left, d.right) && MarkersDiffer(d.left, d.right)
  {
    hide Segments, Loop, Finish, After, Cut, FrontDiffers, BackDiffers, MarkersDiffer, Remainder;
    SegmentsAre(left);
    SegmentsAre(right);
    NoSegments();
    if left != "" && right != "" && Diff(left, right).left != "" && Diff(left, right).right != "" {
      Lossless(left);
      Lossless(right);
      var L, R := Segments(left), Segments(right);
      SegmentsDiffer(L, R);
      StateEnds(left, right, L, R, After(L, R, Loop(L, R, Start(L, R))));
    }
  }

  function Compared(left: string, right: string, L: seq<Segment>, R: seq<Segment>, t: State): (r: Split)
    requires t.ls <= t.le < |L| && t.rs <= t.re < |R|
  {
    Finish(left, right, t.prefix, t.suffix,
           Remainder(L, t.ls, t.le, t.leftConsumed), Remainder(R, t.rs, t.re, t.rightConsumed),
           !R[t.rs].isMarker && !L[t.ls].isMarker, !L[t.le].isMarker && !R[t.re].isMarker)
  }

  lemma {:induction false} StateEnds(left: string, right: string, L: seq<Segment>, R: seq<Segment>, t: State)
    requires Cut(L) && Cut(R) && t.ls <= t.le < |L| && t.rs <= t.re < |R|
    requires (t.leftConsumed ==> t.ls == t.le) && (t.rightConsumed ==> t.rs == t.re)
    requires t.leftConsumed || t.rightConsumed || L[t.ls] != R[t.rs] || !L[t.ls].isMarker
    requires Compared(left, right, L, R, t).left != "" && Compared(left, right, L, R, t).right != ""
    ensures var r := Compared(left, right, L, R, t);
            FrontDiffers(r.left, r.right) && BackDiffers(r.left, r.right) && MarkersDiffer(r.left, r.right)
  {
    hide Cut, Finish, Remainder, FrontDiffers, BackDiffers, MarkersDiffer;
    var x, y := Remainder(L, t.ls, t.le, t.leftConsumed), Remainder(R, t.rs, t.re, t.rightConsumed);
    var tp, ts := !R[t.rs].isMarker && !L[t.ls].isMarker, !L[t.le].isMarker && !R[t.re].isMarker;
    var r := Compared(left, right, L, R, t);
    var m, n := FinishCuts(left, right, t.prefix, t.suffix, x, y, tp, ts);
    UsedUpEmpty(L, t.ls);
    UsedUpEmpty(R, t.rs);
    RemainderEnds(L, t.ls, t.le);
    RemainderEnds(R, t.rs, t.re);
    FrontOf(L, R, t, r.left, r.right, x, y, m);
    BackOf(L, R, t, r.left, r.right, x, y, n);
    assert MarkersDiffer(r.left, r.right) by { NoCommonMarker(L, R, t, r.left, r.right, x, y, m, n); }
  }

  lemma {:induction false} FinishCuts(left: string, right: string, prefix: string, suffix: string, x: string, y: string,
                                      textPrefix: bool, textSuffix: bool) returns (m: nat, n: nat)
    requires var r := Finish(left, right, prefix, suffix, x, y, textPrefix, textSuffix); r.left != "" && r.right != ""
    ensures m + n < |x| && m + n < |y|
    ensures var r := Finish(left, right, prefix, suffix, x, y, textPrefix, textSuffix);
            r.left == x[m..|x| - n] && r.right == y[m..|y| - n]
    ensures if textPrefix then x[m] != y[m] else m == 0
    ensures if textSuffix then FromEnd(x, n) != FromEnd(y, n) else n == 0
  {
    hide PrefixFrom, SuffixFrom;
    n := if textSuffix then CommonSuffix(x, y) else 0;
    m := if textPrefix then CommonPrefix(x[..|x| - n], y[..|y| - n]) else 0;
    var r := Trimmed(prefix, suffix, x, y, m, n);
    assert Finish(left, right, prefix, suffix, x, y, textPrefix, textSuffix) == Repair(r, left, right);
    assert r.left != "" && r.right != "";
  }

  lemma {:induction false} RemainderEnds(segs: seq<Segment>, start: nat, end: nat)
    requires Cut(segs) && start <= end < |segs|
    ensures var x := Remainder(segs, start, end, false);
            x != "" && x[0] == segs[start].value[0] &&
            x[|x| - 1] == segs[end].value[|segs[end].value| - 1] &&
            segs[start].value <= x && (start == end ==> x == segs[start].value)
  {
    hide Bracketed, Plain, Unclosed;
    assert segs[start..end + 1][1..] == segs[start + 1..end + 1];
    ConcatAppend(segs[start..end], [segs[end]]);
    LastOfSlice(segs, start, end);
    assert Concat([segs[end]]) == segs[end].value + "" == segs[end].value;
  }

  lemma {:induction false} FrontOf(L: seq<Segment>, R: seq<Segment>, t: State, l: string, r: string, x: string,
    y: string,
                                   m: nat)
    requires Cut(L) && Cut(R) && t.ls < |L| && t.rs < |R| && m < |x| && m < |y|
    requires l != "" && r != "" && l[0] == x[m] && r[0] == y[m]
    requires x[0] == L[t.ls].value[0] && y[0] == R[t.rs].value[0]
    requires if !R[t.rs].isMarker && !L[t.ls].isMarker then x[m] != y[m] else m == 0
    ensures FrontDiffers(l, r)
  {
  }

  lemma {:induction false} BackOf(L: seq<Segment>, R: seq<Segment>, t: State, l: string, r: string, x: string,
    y: string,
                                  n: nat)
    requires Cut(L) && Cut(R) && t.le < |L| && t.re < |R| && n < |x| && n < |y|
    requires l != "" && r != "" && l[|l| - 1] == FromEnd(x, n) && r[|r| - 1] == FromEnd(y, n)
    requires FromEnd(x, 0) == FromEnd(L[t.le].value, 0) && FromEnd(y, 0) == FromEnd(R[t.re].value, 0)
    requires if !L[t.le].isMarker && !R[t.re].isMarker then FromEnd(x, n) != FromEnd(y, n) else n == 0
    ensures BackDiffers(l, r)
  {
  }

  lemma {:induction false} NoCommonMarker(L: seq<Segment>, R: seq<Segment>, t: State, l: string, r: string, x: string,
                                          y: string, m: nat, n: nat)
    requires Cut(L) && Cut(R) && t.ls <= t.le < |L| && t.rs <= t.re < |R| && m + n < |x| && m + n < |y|
    requires l == x[m..|x| - n] && r == y[m..|y| - n]
    requires if !R[t.rs].isMarker && !L[t.ls].isMarker then x[m] != y[m] else m == 0
    requires L[t.ls] != R[t.rs] || !L[t.ls].isMarker
    requires L[t.ls].value <= x && (t.ls == t.le ==> x == L[t.ls].value)
    requires R[t.rs].value <= y && (t.rs == t.re ==> y == R[t.rs].value)
    ensures MarkersDiffer(l, r)
  {
    hide Cut, Bracketed;
    forall k: nat | MarkerFront(l, k) && k <= |r|
      ensures l[..k] != r[..k]
    {
      if l[..k] == r[..k] {
        assert k >= 2 by { BracketsLong(l[..k]); }
        assert l[..k][0] == x[m] && r[..k][0] == y[m];
        assert l[..k] == x[..k] && r[..k] == y[..k];
        FrontSegment(L, t.ls, t.le, x, k);
        FrontSegment(R, t.rs, t.re, y, k);
      }
    }
  }

  lemma {:induction false} BracketsLong(v: string)
    requires Bracketed(v)
    ensures |v| >= 2
  {
  }

  /** The marker a remainder begins with is its first segment. */
  lemma {:induction false} FrontSegment(segs: seq<Segment>, start: nat, end: nat, x: string, n: nat)
    requires Cut(segs) && start <= end < |segs| && n <= |x| && Bracketed(x[..n])
    requires segs[start].value <= x && (start == end ==> x == segs[start].value)
    ensures segs[start] == Segment(true, x[..n])
  {
    var v := segs[start].value;
    assert forall i :: 0 <= i < n ==> x[..n][i] == x[i];
    assert forall i :: 0 <= i < |v| ==> v[i] == x[i];
    assert v == x[..|v|];
  }
}
