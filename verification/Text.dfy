/** Character classes, trimming, and small facts about strings the models share. */
module Text {
  import opened Wrappers

  /** isspace in the C locale. */
  predicate IsSpace(c: char)
  {
    c == ' ' || c == '\t' || c == '\n' || c == '\r' || c == '\U{B}' || c == '\U{C}'
  }

  predicate IsAlnum(c: char) { '0' <= c <= '9' || 'A' <= c <= 'Z' || 'a' <= c <= 'z' }

  lemma {:induction false} Associate<T>(a: seq<T>, b: seq<T>, c: seq<T>)
    ensures a + b + c == a + (b + c)
  {
  }

  lemma {:induction false} Regroup<T>(a: seq<T>, x: T, b: seq<T>)
    ensures a + ([x] + b) == a + [x] + b
  {
  }

  lemma {:induction false} Reassociate<T>(a: seq<T>, b: seq<T>, c: seq<T>, d: seq<T>)
    ensures a + b + c + d == a + (b + c + d) == a + b + (c + d)
  {
  }

  lemma {:induction false} PrefixAppend<T>(a: seq<T>, b: seq<T>, c: seq<T>)
    ensures a + b <= a + c <==> b <= c
  {
    assert b == (a + b)[|a|..] && c == (a + c)[|a|..];
    if a + b <= a + c {
      assert forall i :: 0 <= i < |b| ==> b[i] == (a + b)[|a| + i] && (a + b)[|a| + i] == (a + c)[|a| + i];
    }
  }

  // ---------- trimming (chat-peg-parser.cpp, lines 11-37) ----------

  /** `s` without the spaces at its end. */
  function TrimTrailing(s: string): (r: string)
    ensures r <= s
    ensures r == "" || !IsSpace(r[|r| - 1])
    ensures forall i :: |r| <= i < |s| ==> IsSpace(s[i])
  {
    if s != "" && IsSpace(s[|s| - 1]) then TrimTrailing(s[..|s| - 1]) else s
  }

  /** `trim`: at most one space goes from the front, all spaces go from the end. */
  function Trim(s: string): (r: string)
  {
    TrimTrailing(if s != "" && IsSpace(s[0]) then s[1..] else s)
  }

  method TrimTrailingSpace(s: string, max: Option<nat>) returns (sv: string)
    ensures max.None? ==> sv == TrimTrailing(s)
    ensures sv <= s && (max.Some? ==> |s| - |sv| <= max.value)
    ensures sv == "" || !IsSpace(sv[|sv| - 1]) || max == Some(|s| - |sv|)
  {
    sv := s;
    var count := 0;
    while sv != "" && IsSpace(sv[|sv| - 1])
      invariant sv <= s && count == |s| - |sv|
      invariant max.None? ==> TrimTrailing(sv) == TrimTrailing(s)
      invariant max.Some? ==> count <= max.value
      decreases |sv|
    {
      if max.Some? && count >= max.value {
        break;
      }
      sv := sv[..|sv| - 1];
      count := count + 1;
    }
  }

  method TrimLeadingSpace(s: string, max: Option<nat>) returns (sv: string)
    ensures exists k :: 0 <= k <= |s| && sv == s[k..] && (max.Some? ==> k <= max.value) &&
              (forall i :: 0 <= i < k ==> IsSpace(s[i])) &&
              (k == |s| || !IsSpace(s[k]) || max == Some(k))
  {
    sv := s;
    var count := 0;
    while sv != "" && IsSpace(sv[0])
      invariant count <= |s| && sv == s[count..]
      invariant forall i :: 0 <= i < count ==> IsSpace(s[i])
      invariant max.Some? ==> count <= max.value
      decreases |sv|
    {
      if max.Some? && count >= max.value {
        break;
      }
      sv := sv[1..];
      count := count + 1;
    }
    assert sv == s[count..];
  }

  method TrimText(s: string) returns (sv: string)
    ensures sv == Trim(s)
  {
    var front := TrimLeadingSpace(s, Some(1));
    assert front == if s != "" && IsSpace(s[0]) then s[1..] else s;
    sv := TrimTrailingSpace(front, None);
  }

  lemma {:induction false} TrimMonotone(s: string, t: string)
    requires s <= t
    ensures TrimTrailing(s) <= TrimTrailing(t)
    decreases |t|
  {
    if |s| < |t| && IsSpace(t[|t| - 1]) {
      TrimMonotone(s, t[..|t| - 1]);
    } else if |s| == |t| {
      assert s == t;
    }
  }
}
