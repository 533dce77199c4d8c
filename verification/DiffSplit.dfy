/** Comparing two rendered templates: both are cut into markers and texts, matched from both ends, and the rest is
    compared character by character. The split should put the two inputs together again; this file says when. */
module DiffSplit {
  import Text


  datatype Segment = Segment(isMarker: bool, value: string)

  datatype Split = Split(prefix: string, suffix: string, left: string, right: string)

  // ---------- segments ----------

  predicate IsOpener(c: char) { c == '<' || c == '[' }

  predicate IsCloser(opener: char, c: char) { (opener == '<' && c == '>') || (opener == '[' && c == ']') }

  /** How many characters of `s` come before the first opener. */
  function TextLength(s: string): (n: nat)
    ensures n <= |s|
    ensures forall i :: 0 <= i < n ==> !IsOpener(s[i])
    ensures n < |s| ==> IsOpener(s[n])
  {
    if s == "" || IsOpener(s[0]) then 0 else 1 + TextLength(s[1..])
  }

  /** How many characters of `s` come before the first closer. */
  function MarkerLength(opener: char, s: string): (n: nat)
    ensures n <= |s|
    ensures forall i :: 0 <= i < n ==> !IsCloser(opener, s[i])
    ensures n < |s| ==> IsCloser(opener, s[n])
  {
    if s == "" || IsCloser(opener, s[0]) then 0 else 1 + MarkerLength(opener, s[1..])
  }

  /** A marker runs from an opener to the first closer after it; all else is text, and so is a marker that is never
      closed. */
  function Segments(s: string): (segs: seq<Segment>)
    decreases |s|
  {
    if s == "" then []
    else if IsOpener(s[0]) then
      var n := MarkerLength(s[0], s[1..]);
      if n + 1 == |s| then [Segment(false, s)] else [Segment(true, s[..n + 2])] + Segments(s[n + 2..])
    else
      var n := TextLength(s);
      [Segment(false, s[..n])] + Segments(s[n..])
  }

  function Concat(segs: seq<Segment>): (s: string)
  {
    if segs == [] then "" else segs[0].value + Concat(segs[1..])
  }

  predicate NonEmpty(segs: seq<Segment>) { forall i :: 0 <= i < |segs| ==> segs[i].value != "" }

  /** Cutting into segments loses nothing, and no segment is empty. */
  lemma {:induction false} Lossless(s: string)
    ensures Concat(Segments(s)) == s && NonEmpty(Segments(s)) && (s != "" ==> Segments(s) != [])
    decreases |s|
  {
    if s != "" {
      var segs := Segments(s);
      var n := |segs[0].value|;
      assert s[..n] == segs[0].value;
      if n < |s| {
        Lossless(s[n..]);
        assert segs[1..] == Segments(s[n..]) && s[..n] + s[n..] == s;
      } else {
        assert s[n..] == "" && segs[1..] == [];
      }
    }
  }

  lemma {:induction false} ConcatAppend(a: seq<Segment>, b: seq<Segment>)
    ensures Concat(a + b) == Concat(a) + Concat(b)
  {
    if a == [] {
      assert a + b == b;
    } else {
      assert (a + b)[1..] == a[1..] + b;
      ConcatAppend(a[1..], b);
      assert a[0].value + (Concat(a[1..]) + Concat(b)) == a[0].value + Concat(a[1..]) + Concat(b);
    }
  }

  /** `segmentize_markers`. */
  method SegmentizeMarkers(text: string) returns (segs: seq<Segment>)
    ensures segs == Segments(text)
  {
    hide Segments;
    segs := [];
    var inMarker, markerOpener, lastBorder := false, ' ', 0;
    assert text[0..] == text;
    for cur := 0 to |text|
      invariant lastBorder <= cur && segs + Segments(text[lastBorder..]) == Segments(text)
      invariant inMarker ==> lastBorder < cur && markerOpener == text[lastBorder] && IsOpener(markerOpener)
      invariant inMarker ==> forall i :: lastBorder < i < cur ==> !IsCloser(markerOpener, text[i])
      invariant !inMarker ==> forall i :: lastBorder <= i < cur ==> !IsOpener(text[i])
    {
      if !inMarker && IsOpener(text[cur]) {
        if lastBorder < cur {
          NextText(text, lastBorder, cur);
          Text.Regroup(segs, Segment(false, text[lastBorder..cur]), Segments(text[cur..]));
          segs := segs + [Segment(false, text[lastBorder..cur])];
        }
        lastBorder := cur;
        inMarker := true;
        markerOpener := text[cur];
      } else if inMarker && IsCloser(markerOpener, text[cur]) {
        NextMarker(text, lastBorder, cur);
        Text.Regroup(segs, Segment(true, text[lastBorder..cur + 1]), Segments(text[cur + 1..]));
        segs := segs + [Segment(true, text[lastBorder..cur + 1])];
        lastBorder := cur + 1;
        inMarker := false;
        markerOpener := ' ';
      }
    }
    LastText(text, lastBorder, inMarker);
    if lastBorder < |text| {
      segs := segs + [Segment(false, text[lastBorder..])];
    } else {
      assert segs + [] == segs;
    }
  }

  lemma {:induction false} NextText(text: string, from: nat, cur: nat)
    requires from < cur < |text| && IsOpener(text[cur]) && forall i :: from <= i < cur ==> !IsOpener(text[i])
    ensures Segments(text[from..]) == [Segment(false, text[from..cur])] + Segments(text[cur..])
  {
    var s := text[from..];
    assert s[0] == text[from] && s[cur - from] == text[cur];
    assert TextLength(s) == cur - from;
    assert s[..cur - from] == text[from..cur] && s[cur - from..] == text[cur..];
  }

  lemma {:induction false} NextMarker(text: string, from: nat, cur: nat)
    requires from < cur < |text| && IsOpener(text[from]) && IsCloser(text[from], text[cur])
    requires forall i :: from < i < cur ==> !IsCloser(text[from], text[i])
    ensures Segments(text[from..]) == [Segment(true, text[from..cur + 1])] + Segments(text[cur + 1..])
  {
    var s := text[from..];
    var rest := s[1..];
    assert rest[cur - from - 1] == text[cur];
    assert MarkerLength(s[0], rest) == cur - from - 1;
    assert s[..cur - from + 1] == text[from..cur + 1] && s[cur - from + 1..] == text[cur + 1..];
  }

  lemma {:induction false} LastText(text: string, from: nat, inMarker: bool)
    requires from <= |text|
    requires inMarker ==>
      from < |text| && IsOpener(text[from]) && forall i :: from < i < |text| ==> !IsCloser(text[from], text[i])
    requires !inMarker ==> forall i :: from <= i < |text| ==> !IsOpener(text[i])
    ensures Segments(text[from..]) == if from < |text| then [Segment(false, text[from..])] else []
  {
    var s := text[from..];
    if inMarker {
      assert MarkerLength(s[0], s[1..]) + 1 == |s|;
    } else if s != "" {
      assert TextLength(s) == |s|;
      assert s[..|s|] == s && s[|s|..] == "";
    }
  }

  // ---------- common ends of two texts ----------

  /** The number of characters two texts have in common at the front, `n` of them known. */
  function PrefixFrom(a: string, b: string, n: nat): (m: nat)
    requires n <= |a| && n <= |b|
    ensures n <= m <= |a| && m <= |b|
    ensures forall i :: n <= i < m ==> a[i] == b[i]
    ensures m < |a| && m < |b| ==> a[m] != b[m]
    decreases |a| - n
  {
    if n < |a| && n < |b| && a[n] == b[n] then PrefixFrom(a, b, n + 1) else n
  }

  function CommonPrefix(a: string, b: string): (n: nat) { PrefixFrom(a, b, 0) }

  function FromEnd(s: string, i: nat): (c: char)
    requires i < |s|
  {
    s[|s| - 1 - i]
  }

  /** The same at the end. */
  function SuffixFrom(a: string, b: string, n: nat): (m: nat)
    requires n <= |a| && n <= |b|
    ensures n <= m <= |a| && m <= |b|
    ensures forall i :: n <= i < m ==> FromEnd(a, i) == FromEnd(b, i)
    ensures m < |a| && m < |b| ==> FromEnd(a, m) != FromEnd(b, m)
    decreases |a| - n
  {
    if n < |a| && n < |b| && FromEnd(a, n) == FromEnd(b, n) then SuffixFrom(a, b, n + 1) else n
  }

  function CommonSuffix(a: string, b: string): (n: nat) { SuffixFrom(a, b, 0) }

  method CommonPrefixLen(left: string, right: string) returns (n: nat)
    ensures n == CommonPrefix(left, right)
  {
    n := 0;
    var minLen := if |left| < |right| then |left| else |right|;
    while n < minLen && left[n] == right[n]
      invariant n <= minLen && PrefixFrom(left, right, n) == CommonPrefix(left, right)
    {
      n := n + 1;
    }
  }

  method CommonSuffixLen(left: string, right: string) returns (n: nat)
    ensures n == CommonSuffix(left, right)
  {
    n := 0;
    var minLen := if |left| < |right| then |left| else |right|;
    while n < minLen && left[|left| - 1 - n] == right[|right| - 1 - n]
      invariant n <= minLen && SuffixFrom(left, right, n) == CommonSuffix(left, right)
    {
      n := n + 1;
    }
  }

  // ---------- matching from both ends ----------

  /** The first and last segment still unmatched on each side, the flags that say a side's last segment has been
      used up, and the text matched so far. */
  datatype State = State(ls: nat, le: nat, rs: nat, re: nat, leftConsumed: bool, rightConsumed: bool,
                         prefix: string, suffix: string)

  predicate Valid(L: seq<Segment>, R: seq<Segment>, s: State)
  {
    s.ls <= s.le < |L| && s.rs <= s.re < |R| && (s.leftConsumed ==> s.ls == s.le) && (s.rightConsumed ==> s.rs == s.re)
  }

  function Start(L: seq<Segment>, R: seq<Segment>): (s: State)
    requires L != [] && R != []
    ensures Valid(L, R, s)
  {
    State(0, |L| - 1, 0, |R| - 1, false, false, "", "")
  }

  predicate Going(s: State) { s.ls != s.le && s.rs != s.re }

  function MatchFront(L: seq<Segment>, R: seq<Segment>, s: State): (r: State)
    requires Valid(L, R, s) && Going(s)
    ensures Valid(L, R, r)
  {
    if L[s.ls] != R[s.rs] then s else s.(prefix := s.prefix + L[s.ls].value, ls := s.ls + 1, rs := s.rs + 1)
  }

  function MatchBack(L: seq<Segment>, R: seq<Segment>, s: State): (r: State)
    requires Valid(L, R, s)
    ensures Valid(L, R, r)
  {
    if L[s.le] != R[s.re] then s
    else
      State(s.ls, if s.ls != s.le then s.le - 1 else s.le, s.rs, if s.rs != s.re then s.re - 1 else s.re,
            s.leftConsumed || s.ls == s.le, s.rightConsumed || s.rs == s.re, s.prefix, L[s.le].value + s.suffix)
  }

  /** Whether a turn of the loop matches anything. */
  predicate Advances(L: seq<Segment>, R: seq<Segment>, s: State)
    requires Valid(L, R, s) && Going(s)
  {
    L[s.ls] == R[s.rs] || L[s.le] == R[s.re]
  }

  function Loop(L: seq<Segment>, R: seq<Segment>, s: State): (r: State)
    requires Valid(L, R, s)
    ensures Valid(L, R, r)
    decreases s.le - s.ls + s.re - s.rs
  {
    if !Going(s) || !Advances(L, R, s) then s else Loop(L, R, MatchBack(L, R, MatchFront(L, R, s)))
  }

  /** The branches after the loop, when one side has a single segment left. They do not look at the flags. */
  function After(L: seq<Segment>, R: seq<Segment>, s: State): (r: State)
    requires Valid(L, R, s)
    ensures r.ls <= r.le < |L| && r.rs <= r.re < |R|
  {
    if s.ls == s.le && s.rs != s.re then
      if L[s.ls] == R[s.re] then s.(suffix := R[s.re].value + s.suffix, re := s.re - 1, leftConsumed := true)
      else if L[s.ls] == R[s.rs] then s.(prefix := s.prefix + R[s.rs].value, rs := s.rs + 1, leftConsumed := true)
      else s
    else if s.rs == s.re && s.ls != s.le then
      if L[s.le] == R[s.rs] then s.(suffix := L[s.le].value + s.suffix, le := s.le - 1, rightConsumed := true)
      else if L[s.ls] == R[s.rs] then s.(prefix := s.prefix + L[s.ls].value, ls := s.ls + 1, rightConsumed := true)
      else s
    else if s.ls == s.le && s.rs == s.re && L[s.ls] == R[s.rs] && L[s.ls].isMarker then
      s.(prefix := s.prefix + R[s.rs].value, leftConsumed := true, rightConsumed := true)
    else s
  }

  /** The segments left over on a side. */
  function Remainder(segs: seq<Segment>, start: nat, end: nat, consumed: bool): (s: string)
    requires start <= end < |segs|
  {
    Concat(segs[start..if consumed then end else end + 1])
  }

  /** What the texts left over still have in common goes to the ends. */
  function Trimmed(prefix: string, suffix: string, restLeft: string, restRight: string, m: nat, n: nat): (r: Split)
    requires m + n <= |restLeft| && m + n <= |restRight|
  {
    Split(prefix + restLeft[..m], restLeft[|restLeft| - n..] + suffix,
          restLeft[m..|restLeft| - n], restRight[m..|restRight| - n])
  }

  /** The two repairs: no difference at all, and a left input that is a prefix of the right one. */
  function Repair(r: Split, left: string, right: string): (r': Split)
  {
    var r := if r.left == "" && r.right == "" then r.(prefix := left, suffix := "") else r;
    if r.left == "" && r.right != "" && left <= right then
      r.(prefix := left, suffix := "", right := right[|left|..])
    else r
  }

  function Finish(left: string, right: string, prefix: string, suffix: string, restLeft: string, restRight: string,
                  textPrefix: bool, textSuffix: bool): (r: Split)
  {
    var n := if textSuffix then CommonSuffix(restLeft, restRight) else 0;
    var m := if textPrefix then CommonPrefix(restLeft[..|restLeft| - n], restRight[..|restRight| - n]) else 0;
    Repair(Trimmed(prefix, suffix, restLeft, restRight, m, n), left, right)
  }

  function Diff(left: string, right: string): (r: Split)
  {
    Lossless(left); Lossless(right);
    var L, R := Segments(left), Segments(right);
    if L == [] then Split("", "", "", right)
    else if R == [] then Split("", "", left, "")
    else
      var s := After(L, R, Loop(L, R, Start(L, R)));
      Finish(left, right, s.prefix, s.suffix,
             Remainder(L, s.ls, s.le, s.leftConsumed), Remainder(R, s.rs, s.re, s.rightConsumed),
             !R[s.rs].isMarker && !L[s.ls].isMarker, !L[s.le].isMarker && !R[s.re].isMarker)
  }

  /** `calculate_diff_split`. */
  method CalculateDiffSplit(left: string, right: string) returns (r: Split)
    ensures r == Diff(left, right)
  {
    hide Segments, Concat, Finish, Loop, After;
    var L := SegmentizeMarkers(left);
    var R := SegmentizeMarkers(right);
    if L == [] { return Split("", "", "", right); }
    if R == [] { return Split("", "", left, ""); }
    var s := MatchEnds(L, R);
    s := MatchLast(L, R, s);
    r := CompareRest(left, right, s.prefix, s.suffix,
                     Remainder(L, s.ls, s.le, s.leftConsumed), Remainder(R, s.rs, s.re, s.rightConsumed),
                     !R[s.rs].isMarker && !L[s.ls].isMarker, !L[s.le].isMarker && !R[s.re].isMarker);
  }

  /** The loop. */
  method MatchEnds(L: seq<Segment>, R: seq<Segment>) returns (s: State)
    requires L != [] && R != []
    ensures Valid(L, R, s) && s == Loop(L, R, Start(L, R))
  {
    hide Loop;
    s := Start(L, R);
    while s.ls != s.le && s.rs != s.re
      invariant Valid(L, R, s) && Loop(L, R, s) == Loop(L, R, Start(L, R))
      decreases s.le - s.ls + s.re - s.rs
    {
      var advanced := false;
      ghost var before := s;
      LoopStep(L, R, before);
      if L[s.ls] == R[s.rs] {
        s := s.(prefix := s.prefix + L[s.ls].value);
        s := s.(ls := s.ls + 1, rs := s.rs + 1);
        advanced := true;
      }
      if L[s.le] == R[s.re] {
        s := s.(suffix := L[s.le].value + s.suffix);
        if s.ls != s.le { s := s.(le := s.le - 1); } else { s := s.(leftConsumed := true); }
        if s.rs != s.re { s := s.(re := s.re - 1); } else { s := s.(rightConsumed := true); }
        advanced := true;
      }
      if !advanced { break; }
      assert s == MatchBack(L, R, MatchFront(L, R, before));
    }
    if !Going(s) { LoopStep(L, R, s); }
  }

  lemma {:induction false} LoopStep(L: seq<Segment>, R: seq<Segment>, s: State)
    requires Valid(L, R, s)
    ensures Loop(L, R, s) ==
      if Going(s) && Advances(L, R, s) then Loop(L, R, MatchBack(L, R, MatchFront(L, R, s))) else s
  {
    hide MatchBack, MatchFront;
  }

  /** The branches after it. */
  method MatchLast(L: seq<Segment>, R: seq<Segment>, start: State) returns (s: State)
    requires Valid(L, R, start)
    ensures s == After(L, R, start)
  {
    s := start;
    if s.ls == s.le && s.rs != s.re {
      if L[s.ls] == R[s.re] {
        s := s.(suffix := R[s.re].value + s.suffix, re := s.re - 1, leftConsumed := true);
      } else if L[s.ls] == R[s.rs] {
        s := s.(prefix := s.prefix + R[s.rs].value, rs := s.rs + 1, leftConsumed := true);
      }
    } else if s.rs == s.re && s.ls != s.le {
      if L[s.le] == R[s.rs] {
        s := s.(suffix := L[s.le].value + s.suffix, le := s.le - 1, rightConsumed := true);
      } else if L[s.ls] == R[s.rs] {
        s := s.(prefix := s.prefix + L[s.ls].value, ls := s.ls + 1, rightConsumed := true);
      }
    } else if s.ls == s.le && s.rs == s.re && L[s.ls] == R[s.rs] && L[s.ls].isMarker {
      s := s.(prefix := s.prefix + R[s.rs].value, leftConsumed := true, rightConsumed := true);
    }
  }

  method CompareRest(left: string, right: string, prefix: string, suffix: string, restLeft: string, restRight: string,
                     textPrefix: bool, textSuffix: bool) returns (r: Split)
    ensures r == Finish(left, right, prefix, suffix, restLeft, restRight, textPrefix, textSuffix)
  {
    hide PrefixFrom, SuffixFrom, Trimmed;
    var suffixLen, prefixLen := 0, 0;
    if textSuffix { suffixLen := CommonSuffixLen(restLeft, restRight); }
    if textPrefix {
      prefixLen := CommonPrefixLen(restLeft[..|restLeft| - suffixLen], restRight[..|restRight| - suffixLen]);
    }
    r := CutEnds(prefix, suffix, restLeft, restRight, prefixLen, suffixLen);
    hide CommonPrefix, CommonSuffix, Repair, Trimmed;
    r := MakeRepairs(r, left, right);
  }

  method CutEnds(prefix: string, suffix: string, restLeft: string, restRight: string, prefixLen: nat, suffixLen: nat)
      returns (r: Split)
    requires prefixLen + suffixLen <= |restLeft| && prefixLen + suffixLen <= |restRight|
    ensures r == Trimmed(prefix, suffix, restLeft, restRight, prefixLen, suffixLen)
  {
    r := Split(prefix + restLeft[..prefixLen], restLeft[|restLeft| - suffixLen..] + suffix,
               restLeft[prefixLen..|restLeft| - suffixLen], restRight[prefixLen..|restRight| - suffixLen]);
  }

  method MakeRepairs(split: Split, left: string, right: string) returns (r: Split)
    ensures r == Repair(split, left, right)
  {
    r := split;
    if r.left == "" && r.right == "" {
      r := r.(prefix := left, suffix := "");
    }
    if r.left == "" && r.right != "" && |left| <= |right| && right[..|left|] == left {
      r := r.(prefix := left, suffix := "", right := right[|left|..]);
    }
  }

  // ---------- when the split is one ----------

  predicate Decomposes(r: Split, left: string, right: string)
  {
    r.prefix + r.left + r.suffix == left && r.prefix + r.right + r.suffix == right
  }

  /** What has been matched and what is left over make up the side. */
  predicate Kept(segs: seq<Segment>, start: nat, end: nat, consumed: bool, prefix: string, suffix: string)
  {
    start <= end < |segs| && prefix + Remainder(segs, start, end, consumed) + suffix == Concat(segs)
  }

  predicate Good(L: seq<Segment>, R: seq<Segment>, s: State)
  {
    Kept(L, s.ls, s.le, s.leftConsumed, s.prefix, s.suffix) && Kept(R, s.rs, s.re, s.rightConsumed, s.prefix, s.suffix)
  }

  lemma {:induction false} TakeFront(segs: seq<Segment>, start: nat, end: nat, prefix: string, suffix: string)
    requires Kept(segs, start, end, false, prefix, suffix)
    ensures start < end ==> Kept(segs, start + 1, end, false, prefix + segs[start].value, suffix)
    ensures start == end ==> Kept(segs, start, end, true, prefix + segs[start].value, suffix)
  {
    assert segs[start..end + 1][1..] == segs[start + 1..end + 1];
    assert start == end ==> segs[start + 1..end + 1] == [] && segs[start..end] == [];
    var x, rest := segs[start].value, Concat(segs[start + 1..end + 1]);
    assert prefix + (x + rest) + suffix == (prefix + x) + rest + suffix;
  }

  lemma {:induction false} TakeBack(segs: seq<Segment>, start: nat, end: nat, prefix: string, suffix: string)
    requires Kept(segs, start, end, false, prefix, suffix)
    ensures start < end ==> Kept(segs, start, end - 1, false, prefix, segs[end].value + suffix)
    ensures start == end ==> Kept(segs, start, end, true, prefix, segs[end].value + suffix)
  {
    ConcatAppend(segs[start..end], [segs[end]]);
    LastOfSlice(segs, start, end);
    assert Concat([segs[end]]) == segs[end].value + "" == segs[end].value;
    var x, rest := segs[end].value, Concat(segs[start..end]);
    assert prefix + (rest + x) + suffix == prefix + rest + (x + suffix);
  }

  lemma {:induction false} LastOfSlice(segs: seq<Segment>, start: nat, end: nat)
    requires start <= end < |segs|
    ensures segs[start..end + 1] == segs[start..end] + [segs[end]]
  {
  }

  lemma {:induction false} FrontGood(L: seq<Segment>, R: seq<Segment>, s: State)
    requires Valid(L, R, s) && Going(s) && Good(L, R, s) && !s.leftConsumed && !s.rightConsumed
    ensures Good(L, R, MatchFront(L, R, s))
  {
    hide Kept;
    if L[s.ls] == R[s.rs] {
      TakeFront(L, s.ls, s.le, s.prefix, s.suffix);
      TakeFront(R, s.rs, s.re, s.prefix, s.suffix);
    }
  }

  lemma {:induction false} BackGood(L: seq<Segment>, R: seq<Segment>, s: State)
    requires Valid(L, R, s) && Good(L, R, s) && !s.leftConsumed && !s.rightConsumed
    ensures Good(L, R, MatchBack(L, R, s))
  {
    hide Kept;
    if L[s.le] == R[s.re] {
      TakeBack(L, s.ls, s.le, s.prefix, s.suffix);
      TakeBack(R, s.rs, s.re, s.prefix, s.suffix);
    }
  }

  lemma {:induction false} LoopGood(L: seq<Segment>, R: seq<Segment>, s: State)
    requires Valid(L, R, s) && Good(L, R, s) && (Going(s) ==> !s.leftConsumed && !s.rightConsumed)
    ensures Good(L, R, Loop(L, R, s))
    decreases s.le - s.ls + s.re - s.rs
  {
    hide Good;
    if Going(s) && Advances(L, R, s) {
      FrontGood(L, R, s);
      var t := MatchFront(L, R, s);
      BackGood(L, R, t);
      LoopGood(L, R, MatchBack(L, R, t));
    }
  }

  /** The segment that was used up by one side only is matched once more after the loop: as the other side's first
      or last segment if several remain, or as its only one if that is a marker. The prefix repair helps when the
      left input is the consumed one and a prefix of the right. */
  predicate MatchedTwice(L: seq<Segment>, R: seq<Segment>, s: State, left: string, right: string)
    requires Valid(L, R, s)
  {
    if s.leftConsumed && !s.rightConsumed then
      if s.rs != s.re then (L[s.ls] == R[s.re] || L[s.ls] == R[s.rs]) && !(left <= right)
      else L[s.ls] == R[s.rs] && L[s.ls].isMarker
    else if s.rightConsumed && !s.leftConsumed then
      if s.ls != s.le then L[s.le] == R[s.rs] || L[s.ls] == R[s.rs]
      else L[s.ls] == R[s.rs] && L[s.ls].isMarker
    else false
  }

  lemma {:induction false} FinishGood(left: string, right: string, prefix: string, suffix: string, x: string, y: string,
                                      textPrefix: bool, textSuffix: bool)
    requires prefix + x + suffix == left && prefix + y + suffix == right
    ensures Decomposes(Finish(left, right, prefix, suffix, x, y, textPrefix, textSuffix), left, right)
  {
    hide PrefixFrom, SuffixFrom, Repair, Trimmed, Decomposes;
    var n := if textSuffix then CommonSuffix(x, y) else 0;
    var m := if textPrefix then CommonPrefix(x[..|x| - n], y[..|y| - n]) else 0;
    SameEnds(x, y, m, n);
    TrimmedGood(prefix, suffix, x, y, m, n);
    Repaired(Trimmed(prefix, suffix, x, y, m, n), left, right);
  }

  lemma {:induction false} TrimmedGood(prefix: string, suffix: string, x: string, y: string, m: nat, n: nat)
    requires m + n <= |x| && m + n <= |y| && x[..m] == y[..m] && x[|x| - n..] == y[|y| - n..]
    ensures Decomposes(Trimmed(prefix, suffix, x, y, m, n), prefix + x + suffix, prefix + y + suffix)
  {
    Pieces(prefix, x, suffix, m, n);
    Pieces(prefix, y, suffix, m, n);
  }

  lemma {:induction false} Pieces(prefix: string, x: string, suffix: string, m: nat, n: nat)
    requires m + n <= |x|
    ensures (prefix + x[..m]) + x[m..|x| - n] + (x[|x| - n..] + suffix) == prefix + x + suffix
  {
    var a, b, c := x[..m], x[m..|x| - n], x[|x| - n..];
    assert x == a + b + c;
    Rebracket(prefix, a, b, c, suffix);
  }

  lemma {:induction false} Rebracket(p: string, a: string, b: string, c: string, s: string)
    ensures (p + a) + b + (c + s) == p + (a + b + c) + s
  {
  }

  lemma {:induction false} SameEnds(x: string, y: string, m: nat, n: nat)
    requires m + n <= |x| && m + n <= |y|
    requires m == 0 || m == CommonPrefix(x[..|x| - n], y[..|y| - n])
    requires n == 0 || n == CommonSuffix(x, y)
    ensures x[..m] == y[..m] && x[|x| - n..] == y[|y| - n..]
  {
    hide PrefixFrom, SuffixFrom;
    var u, v := x[..|x| - n], y[..|y| - n];
    assert u[..m] == v[..m] && x[..m] == u[..m] && y[..m] == v[..m];
    var s, t := x[|x| - n..], y[|y| - n..];
    forall k | 0 <= k < |s|
      ensures s[k] == t[k]
    {
      assert FromEnd(x, n - 1 - k) == FromEnd(y, n - 1 - k);
    }
  }

  lemma {:induction false} Repaired(r: Split, left: string, right: string)
    requires Decomposes(r, left, right)
    ensures Decomposes(Repair(r, left, right), left, right)
  {
    assert left + "" + "" == left;
    if left <= right { assert left + right[|left|..] + "" == right; }
  }

  /** Unless a segment is matched twice, the branches after the loop keep both sides. */
  lemma {:induction false} AfterGood(L: seq<Segment>, R: seq<Segment>, s: State, left: string, right: string)
    requires Valid(L, R, s) && Good(L, R, s) && (s.leftConsumed <==> s.rightConsumed)
    ensures !s.leftConsumed ==> Good(L, R, After(L, R, s))
  {
    hide Kept;
    if !s.leftConsumed {
      TakeFront(L, s.ls, s.le, s.prefix, s.suffix);
      TakeFront(R, s.rs, s.re, s.prefix, s.suffix);
      TakeBack(L, s.ls, s.le, s.prefix, s.suffix);
      TakeBack(R, s.rs, s.re, s.prefix, s.suffix);
    }
  }

  lemma {:induction false} UsedUp(segs: seq<Segment>, start: nat, prefix: string, suffix: string)
    requires Kept(segs, start, start, true, prefix, suffix)
    ensures prefix + suffix == Concat(segs) && Remainder(segs, start, start, true) == ""
  {
    assert segs[start..start] == [];
    assert prefix + "" + suffix == prefix + suffix;
  }

  lemma {:induction false} SomethingLeft(segs: seq<Segment>, start: nat, end: nat)
    requires start <= end < |segs| && NonEmpty(segs)
    ensures Remainder(segs, start, end, false) != ""
  {
    assert segs[start..end + 1][0] == segs[start];
  }

  /** Where nothing of one side remains, nothing more is compared. */
  lemma {:induction false} FinishOneSide(left: string, right: string, prefix: string, suffix: string, x: string,
          y: string,
                                         textPrefix: bool, textSuffix: bool)
    requires x == "" || y == ""
    ensures Finish(left, right, prefix, suffix, x, y, textPrefix, textSuffix) ==
            if x == "" && y == "" then Split(left, "", "", "")
            else if x == "" && left <= right then Split(left, "", "", right[|left|..])
            else Split(prefix, suffix, x, y)
  {
    assert x[0..|x|] == x && y[0..|y|] == y && x[|x|..] == "" && x[..0] == "";
    assert prefix + "" == prefix && "" + suffix == suffix;
  }

  /** The split puts both inputs together again if and only if no segment is matched twice. */
  lemma {:induction false} DecomposesExactly(left: string, right: string)
    requires left != "" && right != ""
    ensures var L, R := Segments(left), Segments(right);
            L != [] && R != [] &&
            (Decomposes(Diff(left, right), left, right) <==> !MatchedTwice(L, R, Loop(L, R, Start(L, R)), left, right))
  {
    hide Segments, Loop, Finish, Decomposes, Remainder, NonEmpty;
    Lossless(left);
    Lossless(right);
    var L, R := Segments(left), Segments(right);
    var s := Loop(L, R, Start(L, R));
    StartGood(L, R);
    LoopGood(L, R, Start(L, R));
    LoopFlags(L, R, Start(L, R));
    if s.leftConsumed == s.rightConsumed {
      if s.leftConsumed { BothUsed(left, right, L, R, s); } else {
        var t := After(L, R, s);
        AfterGood(L, R, s, left, right);
        FinishGood(left, right, t.prefix, t.suffix, Remainder(L, t.ls, t.le, t.leftConsumed),
          Remainder(R, t.rs, t.re, t.rightConsumed),
                   !R[t.rs].isMarker && !L[t.ls].isMarker, !L[t.le].isMarker && !R[t.re].isMarker);
      }
    } else if s.leftConsumed {
      LeftUsed(left, right, L, R, s);
    } else {
      RightUsed(left, right, L, R, s);
    }
  }

  /** In particular it does whenever the loop does not use up exactly one side. */
  lemma {:induction false} BothOrNeitherDecomposes(left: string, right: string)
    requires left != "" && right != "" && Segments(left) != [] && Segments(right) != []
    requires var s := Loop(Segments(left), Segments(right), Start(Segments(left), Segments(right)));
             s.leftConsumed == s.rightConsumed
    ensures Decomposes(Diff(left, right), left, right)
  {
    hide Segments, Loop, Diff, Decomposes;
    DecomposesExactly(left, right);
  }

  lemma {:induction false} StartGood(L: seq<Segment>, R: seq<Segment>)
    requires L != [] && R != []
    ensures Good(L, R, Start(L, R))
  {
    assert L[0..|L|] == L && R[0..|R|] == R;
    assert "" + Concat(L) + "" == Concat(L) && "" + Concat(R) + "" == Concat(R);
  }

  /** A side is used up only when the loop ends. */
  lemma {:induction false} LoopFlags(L: seq<Segment>, R: seq<Segment>, s: State)
    requires Valid(L, R, s) && (Going(s) ==> !s.leftConsumed && !s.rightConsumed)
    ensures var t := Loop(L, R, s); Going(t) ==> !t.leftConsumed && !t.rightConsumed
    decreases s.le - s.ls + s.re - s.rs
  {
    if Going(s) && Advances(L, R, s) {
      LoopFlags(L, R, MatchBack(L, R, MatchFront(L, R, s)));
    }
  }

  /** The final result from the state the loop ends in. */
  function FinishFrom(left: string, right: string, L: seq<Segment>, R: seq<Segment>, s: State): (r: Split)
    requires Valid(L, R, s)
  {
    var t := After(L, R, s);
    Finish(left, right, t.prefix, t.suffix, Remainder(L, t.ls, t.le, t.leftConsumed),
      Remainder(R, t.rs, t.re, t.rightConsumed),
           !R[t.rs].isMarker && !L[t.ls].isMarker, !L[t.le].isMarker && !R[t.re].isMarker)
  }

  lemma {:induction false} BothUsed(left: string, right: string, L: seq<Segment>, R: seq<Segment>, s: State)
    requires Valid(L, R, s) && Good(L, R, s) && s.leftConsumed && s.rightConsumed && Concat(L) == left &&
      Concat(R) == right
    ensures Decomposes(FinishFrom(left, right, L, R, s), left, right)
  {
    hide Finish, Kept;
    UsedUp(L, s.ls, s.prefix, s.suffix);
    UsedUp(R, s.rs, s.prefix, s.suffix);
    var t := After(L, R, s);
    FinishOneSide(left, right, t.prefix, t.suffix, "", "",
      !R[t.rs].isMarker && !L[t.ls].isMarker, !L[t.le].isMarker && !R[t.re].isMarker);
    assert left + "" + "" == left;
  }

  lemma {:induction false} LeftUsed(left: string, right: string, L: seq<Segment>, R: seq<Segment>, s: State)
    requires Valid(L, R, s) && Good(L, R, s) && s.leftConsumed && !s.rightConsumed && Concat(L) == left &&
      Concat(R) == right
    requires NonEmpty(L) && NonEmpty(R)
    ensures Decomposes(FinishFrom(left, right, L, R, s), left, right) <==> !MatchedTwice(L, R, s, left, right)
  {
    hide Finish, Kept, Remainder, Concat;
    var t := After(L, R, s);
    UsedUp(L, s.ls, s.prefix, s.suffix);
    var x, y := L[s.ls].value, Remainder(R, t.rs, t.re, t.rightConsumed);
    if !t.rightConsumed {
      SomethingLeft(R, t.rs, t.re);
    } else {
      UsedUpEmpty(R, t.rs);
      RestLonger(R, s.rs, s.re, s.prefix, s.suffix);
    }
    FinishOneSide(left, right, t.prefix, t.suffix, "", y,
      !R[t.rs].isMarker && !L[t.ls].isMarker, !L[t.le].isMarker && !R[t.re].isMarker);
    KeptSum(R, s.rs, s.re, false, s.prefix, s.suffix);
    if left <= right { assert left + right[|left|..] + "" == right && left + "" + "" == left; }
    assert s.prefix + "" + s.suffix == s.prefix + s.suffix;
    assert |t.prefix + "" + t.suffix| == |t.prefix| + |t.suffix|;
  }

  lemma {:induction false} RightUsed(left: string, right: string, L: seq<Segment>, R: seq<Segment>, s: State)
    requires Valid(L, R, s) && Good(L, R, s) && !s.leftConsumed && s.rightConsumed && Concat(L) == left &&
      Concat(R) == right
    requires NonEmpty(L) && NonEmpty(R)
    ensures Decomposes(FinishFrom(left, right, L, R, s), left, right) <==> !MatchedTwice(L, R, s, left, right)
  {
    hide Finish, Kept, Remainder, Concat;
    var t := After(L, R, s);
    UsedUp(R, s.rs, s.prefix, s.suffix);
    var x, y := R[s.rs].value, Remainder(L, t.ls, t.le, t.leftConsumed);
    if !t.leftConsumed {
      SomethingLeft(L, t.ls, t.le);
    } else {
      UsedUpEmpty(L, t.ls);
      RestLonger(L, s.ls, s.le, s.prefix, s.suffix);
    }
    FinishOneSide(left, right, t.prefix, t.suffix, y, "",
      !R[t.rs].isMarker && !L[t.ls].isMarker, !L[t.le].isMarker && !R[t.re].isMarker);
    KeptSum(L, s.ls, s.le, false, s.prefix, s.suffix);
    assert s.prefix + "" + s.suffix == s.prefix + s.suffix;
    assert |t.prefix + "" + t.suffix| == |t.prefix| + |t.suffix|;
    assert left + "" + "" == left;
  }

  lemma {:induction false} UsedUpEmpty(segs: seq<Segment>, start: nat)
    requires start < |segs|
    ensures Remainder(segs, start, start, true) == ""
  {
    assert segs[start..start] == [];
  }

  lemma {:induction false} KeptSum(segs: seq<Segment>, start: nat, end: nat, consumed: bool, prefix: string,
          suffix: string)
    requires Kept(segs, start, end, consumed, prefix, suffix)
    ensures prefix + Remainder(segs, start, end, consumed) + suffix == Concat(segs)
  {
  }

  lemma {:induction false} RestLonger(segs: seq<Segment>, start: nat, end: nat, prefix: string, suffix: string)
    requires Kept(segs, start, end, false, prefix, suffix) && NonEmpty(segs)
    ensures |Concat(segs)| > |prefix| + |suffix|
  {
    SomethingLeft(segs, start, end);
  }

  /** With an empty input the split is always one. */
  lemma {:induction false} EmptyDecomposes(left: string, right: string)
    requires left == "" || right == ""
    ensures Decomposes(Diff(left, right), left, right)
  {
    assert Segments("") == [];
    Lossless(left);
    Lossless(right);
    assert "" + left + "" == left && "" + right + "" == right;
  }

  // ---------- inputs without a difference ----------

  lemma {:induction false} SymmetricLoop(L: seq<Segment>, s: State)
    requires Valid(L, L, s) && s.ls == s.rs && s.le == s.re && s.leftConsumed == s.rightConsumed
    ensures var t := Loop(L, L, s);
            t.ls == t.rs == t.le == t.re && t.leftConsumed == t.rightConsumed
    decreases s.le - s.ls
  {
    if Going(s) {
      SymmetricLoop(L, MatchBack(L, L, MatchFront(L, L, s)));
    }
  }

  lemma {:induction false} FinishSame(left: string, prefix: string, suffix: string, x: string, text: bool)
    requires text || x == ""
    ensures Finish(left, left, prefix, suffix, x, x, text, text) == Split(left, "", "", "")
  {
    if text {
      SuffixAll(x, 0);
      assert x[..0] == "" && x[0..0] == "";
    }
  }

  lemma {:induction false} SuffixAll(x: string, n: nat)
    requires n <= |x|
    ensures SuffixFrom(x, x, n) == |x|
  {
  }

  lemma {:induction false} NoneDiffers(s: string)
    ensures Diff(s, s) == Split(s, "", "", "")
  {
    hide Segments, Loop, Finish;
    Lossless(s);
    var L := Segments(s);
    if L != [] {
      var t := Loop(L, L, Start(L, L));
      SymmetricLoop(L, Start(L, L));
      assert L[t.ls..t.ls] == [];
      var u := After(L, L, t);
      FinishSame(s, u.prefix, u.suffix, Remainder(L, u.ls, u.le, u.leftConsumed), !L[u.ls].isMarker);
    }
  }

  /** Wherever the split puts the inputs together again, it reports no difference exactly for equal inputs. */
  lemma {:induction false} NoDifference(left: string, right: string)
    requires Decomposes(Diff(left, right), left, right)
    ensures Diff(left, right).left == "" && Diff(left, right).right == "" <==> left == right
  {
    hide Diff;
    NoneDiffers(left);
  }

  /** The failing case: `<a><b>` and `<a><b><b>` are reported to be the same. */
  lemma {:induction false} DifferenceMissed()
    ensures Diff("<a><b>", "<a><b><b>") == Split("<a><b>", "", "", "")
    ensures !Decomposes(Diff("<a><b>", "<a><b><b>"), "<a><b>", "<a><b><b>")
  {
    hide Segments, Loop, Finish;
    var a, b := Segment(true, "<a>"), Segment(true, "<b>");
    ThreeTags();
    var L, R := [a, b], [a, b, b];
    var s0 := Start(L, R);
    LoopStep(L, R, s0);
    var s1 := MatchBack(L, R, MatchFront(L, R, s0));
    assert s1 == State(1, 1, 1, 1, true, false, "" + "<a>", "<b>" + "");
    LoopStep(L, R, s1);
    assert L[1..1] == [] && R[1..1] == [];
    var t := After(L, R, s1);
    FinishOneSide("<a><b>", "<a><b><b>", t.prefix, t.suffix, "", "", false, false);
  }

  lemma {:induction false} OneTag(c: char, rest: string)
    requires c != '>'
    ensures Segments(['<', c, '>'] + rest) == [Segment(true, ['<', c, '>'])] + Segments(rest)
  {
    var s := ['<', c, '>'] + rest;
    assert s[1..] == [c] + (['>'] + rest);
    assert s[1..][1..] == ['>'] + rest;
    assert MarkerLength('<', s[1..]) == 1;
    assert s[..3] == ['<', c, '>'] && s[3..] == rest;
  }

  lemma {:induction false} NoSegments()
    ensures Segments("") == []
  {
  }

  lemma {:induction false} ThreeTags()
    ensures Segments("<a><b>") == [Segment(true, "<a>"), Segment(true, "<b>")]
    ensures Segments("<a><b><b>") == [Segment(true, "<a>"), Segment(true, "<b>"), Segment(true, "<b>")]
  {
    hide Segments;
    NoSegments();
    OneTag('b', "");
    assert Segments("<b>") == [Segment(true, "<b>")] by { assert "<b>" + "" == "<b>"; }
    OneTag('b', "<b>");
    assert Segments("<b><b>") == [Segment(true, "<b>"), Segment(true, "<b>")] by { assert "<b>" + "<b>" == "<b><b>"; }
    OneTag('a', "<b>");
    assert "<a>" + "<b>" == "<a><b>";
    OneTag('a', "<b><b>");
    assert "<a>" + "<b><b>" == "<a><b><b>";
  }
}
