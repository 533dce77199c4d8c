/** Searching, splitting, joining and replacing strings. */
module Strings {
  import opened Wrappers
  import Text

  /** `pattern` stands in `s` at `i`. */
  predicate At(s: string, i: nat, pattern: string) { i + |pattern| <= |s| && s[i..i + |pattern|] == pattern }

  /** `find`: the first place at or after `from`. */
  function Find(s: string, pattern: string, from: nat): (r: Option<nat>)
    requires from <= |s|
    ensures r.Some? ==> from <= r.value && At(s, r.value, pattern)
    ensures r.Some? ==> forall i :: from <= i < r.value ==> !At(s, i, pattern)
    ensures r.None? ==> forall i :: from <= i <= |s| ==> !At(s, i, pattern)
    decreases |s| - from
  {
    if At(s, from, pattern) then Some(from)
    else if from == |s| then None
    else Find(s, pattern, from + 1)
  }

  /** The parts between the occurrences of a delimiter, taken from the left. */
  function Split(s: string, delimiter: string): (parts: seq<string>)
    requires delimiter != ""
    ensures parts != []
    decreases |s|
  {
    var i := Find(s, delimiter, 0);
    if i.None? then [s] else [s[..i.value]] + Split(s[i.value + |delimiter|..], delimiter)
  }

  function Join(parts: seq<string>, separator: string): (s: string)
  {
    if parts == [] then "" else if |parts| == 1 then parts[0] else parts[0] + separator + Join(parts[1..], separator)
  }

  /** Replacing is splitting and joining; nothing is replaced by searching for nothing. */
  function Replaced(s: string, search: string, replace: string): (r: string)
  {
    if search == "" then s else Join(Split(s, search), replace)
  }

  lemma {:induction false} JoinMore(parts: seq<string>, more: seq<string>, separator: string)
    requires parts != [] && more != []
    ensures Join(parts + more, separator) == Join(parts, separator) + separator + Join(more, separator)
    decreases |parts|
  {
    if |parts| == 1 {
      assert (parts + more)[1..] == more;
    } else {
      assert (parts + more)[1..] == parts[1..] + more;
      JoinMore(parts[1..], more, separator);
      assert parts[0] + separator + (Join(parts[1..], separator) + separator + Join(more, separator)) ==
             (parts[0] + separator + Join(parts[1..], separator)) + separator + Join(more, separator);
    }
  }

  /** Searching in what follows a place is searching from that place on. */
  lemma {:induction false} FindShift(s: string, pattern: string, start: nat, from: nat)
    requires start <= from <= |s|
    ensures var r, q := Find(s, pattern, from), Find(s[start..], pattern, from - start);
            (r.Some? <==> q.Some?) && (r.Some? ==> r.value == start + q.value)
    decreases |s| - from
  {
    assert At(s, from, pattern) <==> At(s[start..], from - start, pattern) by {
      if from + |pattern| <= |s| {
        assert s[start..][from - start..from - start + |pattern|] == s[from..from + |pattern|];
      }
    }
    if from < |s| { FindShift(s, pattern, start, from + 1); }
  }

  /** One part of a split. */
  lemma {:induction false} SplitStep(s: string, delimiter: string, start: nat)
    requires delimiter != "" && start <= |s|
    ensures var i := Find(s, delimiter, start);
            Split(s[start..], delimiter) ==
            if i.None? then [s[start..]] else [s[start..i.value]] + Split(s[i.value + |delimiter|..], delimiter)
  {
    hide Find;
    FindShift(s, delimiter, start, start);
    var i := Find(s, delimiter, start);
    if i.Some? {
      assert s[start..][..i.value - start] == s[start..i.value];
      assert s[start..][i.value - start + |delimiter|..] == s[i.value + |delimiter|..];
    }
  }

  /** `string_split`. With an empty delimiter the program does not stop. */
  method StringSplit(str: string, delimiter: string) returns (parts: seq<string>)
    requires delimiter != ""
    ensures parts == Split(str, delimiter)
  {
    hide Split, Find;
    parts := [];
    var start := 0;
    var end := Find(str, delimiter, 0);
    assert str[0..] == str;
    while end.Some?
      invariant start <= |str| && end == Find(str, delimiter, start)
      invariant parts + Split(str[start..], delimiter) == Split(str, delimiter)
      decreases |str| - start
    {
      SplitStep(str, delimiter, start);
      var part := str[start..end.value];
      assert parts + ([part] + Split(str[end.value + |delimiter|..], delimiter)) ==
             parts + [part] + Split(str[end.value + |delimiter|..], delimiter);
      parts := parts + [part];
      start := end.value + |delimiter|;
      end := Find(str, delimiter, start);
    }
    SplitStep(str, delimiter, start);
    parts := parts + [str[start..]];
  }

  /** `string_join`. */
  method StringJoin(values: seq<string>, separator: string) returns (result: string)
    ensures result == Join(values, separator)
  {
    hide Join;
    result := "";
    JoinFew([], separator);
    for i := 0 to |values|
      invariant result == Join(values[..i], separator)
    {
      assert values[..i + 1] == values[..i] + [values[i]];
      JoinFew([values[i]], separator);
      if i > 0 {
        JoinMore(values[..i], [values[i]], separator);
        result := result + separator;
      } else {
        assert values[..1] == [values[0]] && "" + values[0] == values[0];
      }
      result := result + values[i];
    }
    assert values[..|values|] == values;
  }

  lemma {:induction false} JoinFew(parts: seq<string>, separator: string)
    requires |parts| <= 1
    ensures Join(parts, separator) == if parts == [] then "" else parts[0]
  {
  }

  /** What has been built before a place, and the replacement of the rest. */
  lemma {:induction false} ReplaceStep(s: string, search: string, replace: string, lastPos: nat)
    requires search != "" && lastPos <= |s|
    ensures var pos := Find(s, search, lastPos);
            Replaced(s[lastPos..], search, replace) ==
            if pos.None? then s[lastPos..]
            else s[lastPos..pos.value] + replace + Replaced(s[pos.value + |search|..], search, replace)
  {
    hide Split, Join, Find;
    SplitStep(s, search, lastPos);
    var pos := Find(s, search, lastPos);
    if pos.Some? {
      var rest := Split(s[pos.value + |search|..], search);
      JoinMore([s[lastPos..pos.value]], rest, replace);
      JoinFew([s[lastPos..pos.value]], replace);
    } else {
      JoinFew([s[lastPos..]], replace);
    }
  }

  /** `string_replace_all`: split on the search string, then join with the replacement. */
  method StringReplaceAll(s: string, search: string, replace: string) returns (s': string)
    ensures s' == Replaced(s, search, replace)
  {
    hide Replaced, Find, At;
    if search == "" {
      NothingReplaced(s, replace);
      return s;
    }
    var builder := "";
    var lastPos := 0;
    assert s[0..] == s;
    var pos := Find(s, search, lastPos);
    while pos.Some?
      invariant lastPos <= |s| && pos == Find(s, search, lastPos)
      invariant builder + Replaced(s[lastPos..], search, replace) == Replaced(s, search, replace)
      decreases |s| - lastPos
    {
      ReplaceStep(s, search, replace, lastPos);
      FoundInside(s, search, pos.value);
      var piece := s[lastPos..pos.value];
      Text.Reassociate(builder, piece, replace, Replaced(s[pos.value + |search|..], search, replace));
      builder := builder + piece;
      builder := builder + replace;
      lastPos := pos.value + |search|;
      pos := Find(s, search, lastPos);
    }
    ReplaceStep(s, search, replace, lastPos);
    s' := builder + s[lastPos..];
  }

  lemma {:induction false} NothingReplaced(s: string, replace: string)
    ensures Replaced(s, "", replace) == s
  {
  }

  lemma {:induction false} FoundInside(s: string, pattern: string, i: nat)
    requires At(s, i, pattern)
    ensures i + |pattern| <= |s|
  {
  }

  // ---------- what splitting and replacing mean ----------

  /** Splitting loses nothing, and no part contains the delimiter. */
  lemma {:induction false} SplitJoin(s: string, delimiter: string)
    requires delimiter != ""
    ensures Join(Split(s, delimiter), delimiter) == s
    ensures forall k, i :: 0 <= k < |Split(s, delimiter)| && 0 <= i <= |s| ==> !At(Split(s, delimiter)[k], i, delimiter)
    decreases |s|
  {
    hide Find;
    var i := Find(s, delimiter, 0);
    if i.Some? {
      var rest := s[i.value + |delimiter|..];
      SplitJoin(rest, delimiter);
      var parts := Split(s, delimiter);
      assert parts[1..] == Split(rest, delimiter);
      assert s == s[..i.value] + delimiter + rest;
      forall k, j | 0 <= k < |parts| && 0 <= j <= |s|
        ensures !At(parts[k], j, delimiter)
      {
        if k == 0 {
          NotBefore(s, delimiter, i.value, j);
        } else {
          assert parts[k] == parts[1..][k - 1];
          PartLength(rest, delimiter, k - 1);
        }
      }
    }
  }

  lemma {:induction false} NotBefore(s: string, delimiter: string, end: nat, j: nat)
    requires end <= |s| && delimiter != "" && forall k :: 0 <= k < end ==> !At(s, k, delimiter)
    ensures !At(s[..end], j, delimiter)
  {
    if j + |delimiter| <= end {
      assert s[..end][j..j + |delimiter|] == s[j..j + |delimiter|];
      assert !At(s, j, delimiter);
    }
  }

  lemma {:induction false} PartLength(s: string, delimiter: string, k: nat)
    requires delimiter != "" && k < |Split(s, delimiter)|
    ensures |Split(s, delimiter)[k]| <= |s|
    decreases |s|
  {
    hide Find;
    var i := Find(s, delimiter, 0);
    if i.Some? && k > 0 { PartLength(s[i.value + |delimiter|..], delimiter, k - 1); }
  }

  /** Replacing read from the front, one occurrence or one character at a time. */
  lemma {:induction false} ReplacedFront(s: string, search: string, replace: string)
    requires search != ""
    ensures Replaced(s, search, replace) ==
            if At(s, 0, search) then replace + Replaced(s[|search|..], search, replace)
            else if s == "" then ""
            else [s[0]] + Replaced(s[1..], search, replace)
  {
    hide Replaced, Find;
    assert s[0..] == s && s[0..0] == "";
    ReplaceStep(s, search, replace, 0);
    FindStep(s, search);
    if At(s, 0, search) {
      assert "" + replace == replace;
    } else if s != "" {
      ReplaceStep(s, search, replace, 1);
      var pos := Find(s, search, 1);
      if pos.Some? {
        assert s[0..pos.value] == [s[0]] + s[1..pos.value];
        Text.Reassociate([s[0]], s[1..pos.value], replace, Replaced(s[pos.value + |search|..], search, replace));
      } else {
        assert s == [s[0]] + s[1..];
      }
    }
  }

  lemma {:induction false} FindStep(s: string, pattern: string)
    ensures Find(s, pattern, 0) == if At(s, 0, pattern) then Some(0) else if s == "" then None else Find(s, pattern, 1)
  {
  }
}
