/** The glob matcher, and the language it decides. */
module Glob {

  /** A plain `char`: signed, eight bits. */
  type CChar = c: int | -128 <= c < 128

  const SLASH: CChar := 47
  const STAR: CChar := 42
  const QUESTION: CChar := 63
  const OPEN: CChar := 91
  const CLOSE: CChar := 93
  const DASH: CChar := 45
  const BANG: CChar := 33

  // ---------- patterns ----------

  /** The parts of a pattern: `**`, `*`, `?`, a class with the text between its brackets, or a character that
      stands for itself. */
  datatype Token = AnyRun | Run | One | Class(body: seq<CChar>) | Literal(c: CChar)

  /** The position of the bracket that closes the class a pattern starts with, or the end of the pattern. A bracket
      or dash right after the opening one does not count. */
  function ClassEnd(pattern: seq<CChar>): (end: nat)
    requires pattern != []
    ensures 1 <= end <= |pattern|
    ensures end < |pattern| ==> pattern[end] == CLOSE
  {
    var from := if |pattern| > 1 && (pattern[1] == CLOSE || pattern[1] == DASH) then 2 else 1;
    NextClose(pattern, from)
  }

  function NextClose(pattern: seq<CChar>, from: nat): (end: nat)
    requires from <= |pattern|
    ensures from <= end <= |pattern|
    ensures end < |pattern| ==> pattern[end] == CLOSE
    decreases |pattern| - from
  {
    if from == |pattern| || pattern[from] == CLOSE then from else NextClose(pattern, from + 1)
  }

  function Tokens(pattern: seq<CChar>): (ts: seq<Token>)
  {
    if pattern == [] then []
    else if pattern[0] == STAR then
      if |pattern| > 1 && pattern[1] == STAR then [AnyRun] + Tokens(pattern[2..]) else [Run] + Tokens(pattern[1..])
    else if pattern[0] == QUESTION then [One] + Tokens(pattern[1..])
    else if pattern[0] == OPEN && ClassEnd(pattern) < |pattern| then
      [Class(pattern[1..ClassEnd(pattern)])] + Tokens(pattern[ClassEnd(pattern) + 1..])
    else [Literal(pattern[0])] + Tokens(pattern[1..])
  }

  // ---------- classes ----------

  datatype ClassItem = Single(c: CChar) | Range(lo: CChar, hi: CChar)

  function Items(body: seq<CChar>): (items: seq<ClassItem>)
  {
    if body == [] then []
    else if |body| > 2 && body[1] == DASH && body[2] != CLOSE then [Range(body[0], body[2])] + Items(body[3..])
    else [Single(body[0])] + Items(body[1..])
  }

  /** A bracket or dash at the front stands for itself and starts no range. */
  function ClassItems(body: seq<CChar>): (items: seq<ClassItem>)
  {
    if body != [] && (body[0] == CLOSE || body[0] == DASH) then [Single(body[0])] + Items(body[1..]) else Items(body)
  }

  predicate ItemHas(item: ClassItem, c: CChar)
  {
    match item
    case Single(x) => c == x
    case Range(lo, hi) => lo <= c <= hi
  }

  predicate SomeHas(items: seq<ClassItem>, c: CChar) { exists i :: 0 <= i < |items| && ItemHas(items[i], c) }

  predicate InClass(body: seq<CChar>, c: CChar)
  {
    if body != [] && body[0] == BANG then !SomeHas(ClassItems(body[1..]), c) else SomeHas(ClassItems(body), c)
  }

  lemma {:induction false} SomeHasCons(item: ClassItem, items: seq<ClassItem>, c: CChar)
    ensures SomeHas([item] + items, c) <==> ItemHas(item, c) || SomeHas(items, c)
  {
    var all := [item] + items;
    assert all[0] == item;
    forall i | 0 <= i < |items|
      ensures ItemHas(items[i], c) ==> SomeHas(all, c)
    {
      assert all[i + 1] == items[i];
    }
    if SomeHas(all, c) {
      var i :| 0 <= i < |all| && ItemHas(all[i], c);
      assert i > 0 ==> all[i] == items[i - 1];
    }
  }

  /** `glob_class_match`; the class ends at position `classEnd`. */
  method GlobClassMatch(c: CChar, pattern: seq<CChar>, classEnd: nat) returns (r: bool)
    requires classEnd < |pattern| && pattern[classEnd] == CLOSE
    ensures r <==> InClass(pattern[..classEnd], c)
  {
    hide SomeHas;
    var classStart, negated := 0, false;
    if pattern[classStart] == BANG {
      negated := true;
      classStart := classStart + 1;
    }
    ghost var from := classStart;
    ClassCases(pattern, classEnd, from, c);
    assert negated ==> pattern[..classEnd][1..] == pattern[from..classEnd];
    if pattern[classStart] == CLOSE || pattern[classStart] == DASH {
      if classStart < classEnd && pattern[classStart] == c {
        return !negated;
      }
      classStart := classStart + 1;
    }
    var matched := MatchItems(c, pattern, classStart, classEnd);
    return if negated then !matched else matched;
  }

  /** What is in a class, by how its text after a negation starts. */
  lemma {:induction false} ClassCases(pattern: seq<CChar>, classEnd: nat, from: nat, c: CChar)
    requires from <= classEnd < |pattern| && pattern[classEnd] == CLOSE
    ensures var has := SomeHas(ClassItems(pattern[from..classEnd]), c);
            if pattern[from] != CLOSE && pattern[from] != DASH then
              from < classEnd && (has <==> SomeHas(Items(pattern[from..classEnd]), c))
            else
              has <==>
              from < classEnd &&
              (c == pattern[from] || (from + 1 < classEnd && SomeHas(Items(pattern[from + 1..classEnd]), c)))
  {
    hide SomeHas;
    var rest := pattern[from..classEnd];
    NoItems(c);
    if rest != [] {
      assert rest[1..] == pattern[from + 1..classEnd];
      SomeHasCons(Single(rest[0]), Items(rest[1..]), c);
      if rest[1..] == [] { assert Items(rest[1..]) == []; }
    }
  }

  lemma {:induction false} NoItems(c: CChar)
    ensures !SomeHas([], c) && ClassItems([]) == []
  {
  }

  /** The loop over ranges and single characters. */
  method MatchItems(c: CChar, pattern: seq<CChar>, start: nat, classEnd: nat) returns (matched: bool)
    requires classEnd < |pattern|
    ensures matched <==> start < classEnd && SomeHas(Items(pattern[start..classEnd]), c)
  {
    hide SomeHas;
    var classStart := start;
    while classStart < classEnd
      invariant start <= classStart && (start <= classEnd ==> classStart <= classEnd)
      invariant start < classEnd ==>
                  (SomeHas(Items(pattern[start..classEnd]), c) <==> SomeHas(Items(pattern[classStart..classEnd]), c))
    {
      ghost var body := pattern[classStart..classEnd];
      if classStart + 2 < classEnd && pattern[classStart + 1] == DASH && pattern[classStart + 2] != CLOSE {
        var startChar, endChar := pattern[classStart], pattern[classStart + 2];
        SomeHasCons(Range(startChar, endChar), Items(body[3..]), c);
        assert body[3..] == pattern[classStart + 3..classEnd];
        if startChar <= c <= endChar {
          return true;
        }
        classStart := classStart + 3;
      } else {
        SomeHasCons(Single(pattern[classStart]), Items(body[1..]), c);
        assert body[1..] == pattern[classStart + 1..classEnd];
        if pattern[classStart] == c {
          return true;
        }
        classStart := classStart + 1;
      }
    }
    assert start < classEnd ==> pattern[classStart..classEnd] == [];
    NoItems(c);
    matched := false;
  }

  // ---------- the language ----------

  predicate NoSlash(s: seq<CChar>) { forall i :: 0 <= i < |s| ==> s[i] != SLASH }

  /** The strings one part of a pattern stands for. */
  predicate Fits(t: Token, s: seq<CChar>)
  {
    match t
    case AnyRun => true
    case Run => NoSlash(s)
    case One => |s| == 1 && s[0] != SLASH
    case Class(body) => |s| == 1 && InClass(body, s[0])
    case Literal(c) => s == [c]
  }

  function Concat(pieces: seq<seq<CChar>>): (s: seq<CChar>)
  {
    if pieces == [] then [] else pieces[0] + Concat(pieces[1..])
  }

  /** The string can be cut into one fitting piece for each part of the pattern. */
  ghost predicate InLanguage(ts: seq<Token>, s: seq<CChar>)
  {
    exists pieces: seq<seq<CChar>> :: IsCut(ts, s, pieces)
  }

  predicate IsCut(ts: seq<Token>, s: seq<CChar>, pieces: seq<seq<CChar>>)
  {
    |pieces| == |ts| && Concat(pieces) == s && forall i :: 0 <= i < |ts| ==> Fits(ts[i], pieces[i])
  }

  lemma {:induction false} LanguageEmpty(s: seq<CChar>)
    ensures InLanguage([], s) <==> s == []
  {
    if s == [] { assert IsCut([], s, []); }
  }

  /** The first part takes some prefix. */
  lemma {:induction false} LanguageCons(t: Token, ts: seq<Token>, s: seq<CChar>)
    ensures InLanguage([t] + ts, s) <==> exists k :: 0 <= k <= |s| && Fits(t, s[..k]) && InLanguage(ts, s[k..])
  {
    hide Fits;
    var all := [t] + ts;
    if InLanguage(all, s) {
      var pieces :| IsCut(all, s, pieces);
      var k := |pieces[0]|;
      assert s[..k] == pieces[0] && s[k..] == Concat(pieces[1..]) && all[0] == t;
      assert forall i :: 0 <= i < |ts| ==> ts[i] == all[i + 1];
      assert IsCut(ts, s[k..], pieces[1..]);
    }
    if exists k :: 0 <= k <= |s| && Fits(t, s[..k]) && InLanguage(ts, s[k..]) {
      var k :| 0 <= k <= |s| && Fits(t, s[..k]) && InLanguage(ts, s[k..]);
      var pieces :| IsCut(ts, s[k..], pieces);
      var more := [s[..k]] + pieces;
      assert more[1..] == pieces && s[..k] + s[k..] == s;
      assert IsCut(all, s, more);
    }
  }

  /** A part that takes exactly one character. */
  lemma {:induction false} LanguageOne(t: Token, ts: seq<Token>, s: seq<CChar>)
    requires !t.AnyRun? && !t.Run?
    ensures InLanguage([t] + ts, s) <==> s != [] && Fits(t, s[..1]) && InLanguage(ts, s[1..])
  {
    hide InLanguage;
    LanguageCons(t, ts, s);
    assert forall k :: 0 <= k <= |s| && Fits(t, s[..k]) ==> k == 1;
  }

  /** A run takes nothing, or a character and the rest of a run. */
  lemma {:induction false} LanguageRun(t: Token, ts: seq<Token>, s: seq<CChar>)
    requires t.AnyRun? || t.Run?
    ensures InLanguage([t] + ts, s) <==>
            InLanguage(ts, s) || (s != [] && (t.AnyRun? || s[0] != SLASH) && InLanguage([t] + ts, s[1..]))
  {
    hide InLanguage;
    LanguageCons(t, ts, s);
    assert s[0..] == s && Fits(t, s[..0]);
    if s != [] {
      var u := s[1..];
      LanguageCons(t, ts, u);
      if t.AnyRun? || s[0] != SLASH {
        forall k | 0 <= k <= |u|
          ensures u[k..] == s[k + 1..] && (Fits(t, u[..k]) <==> Fits(t, s[..k + 1]))
        {
          assert s[..k + 1] == [s[0]] + u[..k];
          assert forall i :: 0 <= i < k ==> s[..k + 1][i + 1] == u[..k][i];
        }
        if exists k :: 0 <= k <= |s| && Fits(t, s[..k]) && InLanguage(ts, s[k..]) {
          var k :| 0 <= k <= |s| && Fits(t, s[..k]) && InLanguage(ts, s[k..]);
          if k > 0 {
            assert u[k - 1..] == s[k..] && Fits(t, u[..k - 1]);
          }
        }
        if InLanguage([t] + ts, u) {
          var k :| 0 <= k <= |u| && Fits(t, u[..k]) && InLanguage(ts, u[k..]);
          assert s[k + 1..] == u[k..] && Fits(t, s[..k + 1]);
        }
      } else {
        SlashStops(s);
      }
    }
  }

  lemma {:induction false} SlashStops(s: seq<CChar>)
    requires s != [] && s[0] == SLASH
    ensures forall k :: 1 <= k <= |s| ==> !Fits(Run, s[..k])
  {
    forall k | 1 <= k <= |s|
      ensures !Fits(Run, s[..k])
    {
      assert s[..k][0] == SLASH;
    }
  }

  // ---------- the matcher ----------

  /** A C string: a `std::string` up to its first NUL. */
  function CString(s: seq<CChar>): (r: seq<CChar>)
    ensures forall i :: 0 <= i < |r| ==> r[i] != 0
  {
    if s == [] || s[0] == 0 then [] else [s[0]] + CString(s[1..])
  }

  method FindClassEnd(pattern: seq<CChar>) returns (classEnd: nat)
    requires pattern != []
    ensures classEnd == ClassEnd(pattern)
  {
    classEnd := 1;
    if classEnd < |pattern| && (pattern[classEnd] == CLOSE || pattern[classEnd] == DASH) {
      classEnd := classEnd + 1;
    }
    while classEnd < |pattern| && pattern[classEnd] != CLOSE
      invariant classEnd <= |pattern| && NextClose(pattern, classEnd) == ClassEnd(pattern)
    {
      classEnd := classEnd + 1;
    }
  }

  /** `glob_match` on C strings, here without their terminators: it decides the language of the pattern. */
  method GlobMatch(pattern: seq<CChar>, str: seq<CChar>) returns (r: bool)
    ensures r <==> InLanguage(Tokens(pattern), str)
    decreases |pattern|, |str|
  {
    hide InLanguage, Tokens;
    TokensStep(pattern);
    if pattern == [] {
      LanguageEmpty(str);
      return str == [];
    }
    if |pattern| > 1 && pattern[0] == STAR && pattern[1] == STAR {
      LanguageRun(AnyRun, Tokens(pattern[2..]), str);
      r := GlobMatch(pattern[2..], str);
      if r { return true; }
      if str != [] {
        r := GlobMatch(pattern, str[1..]);
        return;
      }
      return false;
    }
    if pattern[0] == STAR {
      r := GlobRun(pattern[1..], str);
      return;
    }
    if pattern[0] == QUESTION && str != [] && str[0] != SLASH {
      LanguageOne(One, Tokens(pattern[1..]), str);
      r := GlobMatch(pattern[1..], str[1..]);
      return;
    }
    if pattern[0] == OPEN {
      var classEnd := FindClassEnd(pattern);
      if classEnd < |pattern| {
        LanguageOne(Class(pattern[1..classEnd]), Tokens(pattern[classEnd + 1..]), str);
        if str == [] { return false; }
        var matched := GlobClassMatch(str[0], pattern[1..], classEnd - 1);
        assert pattern[1..][..classEnd - 1] == pattern[1..classEnd] && str[..1][0] == str[0];
        if matched { r := GlobMatch(pattern[classEnd + 1..], str[1..]); } else { r := false; }
        return;
      } else {
        LanguageOne(Literal(OPEN), Tokens(pattern[1..]), str);
        LiteralFits(OPEN, str);
        if str != [] && str[0] == OPEN {
          r := GlobMatch(pattern[1..], str[1..]);
          return;
        }
        return false;
      }
    }
    QuestionOrLiteral(pattern, str);
    if str != [] && pattern[0] == str[0] {
      r := GlobMatch(pattern[1..], str[1..]);
      return;
    }
    r := false;
  }

  /** The loop behind a single star. */
  method GlobRun(p: seq<CChar>, start: seq<CChar>) returns (r: bool)
    ensures r <==> InLanguage([Run] + Tokens(p), start)
    decreases |p|, |start| + 1
  {
    hide InLanguage, Tokens;
    var str := start;
    while str != [] && str[0] != SLASH
      invariant |str| <= |start|
      invariant InLanguage([Run] + Tokens(p), start) <==> InLanguage([Run] + Tokens(p), str)
      decreases |str|
    {
      LanguageRun(Run, Tokens(p), str);
      r := GlobMatch(p, str);
      if r { return true; }
      str := str[1..];
    }
    LanguageRun(Run, Tokens(p), str);
    r := GlobMatch(p, str);
  }

  lemma {:induction false} LiteralFits(c: CChar, str: seq<CChar>)
    ensures str != [] ==> (Fits(Literal(c), str[..1]) <==> str[0] == c)
  {
  }

  /** One part peeled off a pattern. */
  lemma {:induction false} TokensStep(pattern: seq<CChar>)
    ensures pattern == [] ==> Tokens(pattern) == []
    ensures pattern != [] && pattern[0] == STAR && |pattern| > 1 && pattern[1] == STAR ==>
              Tokens(pattern) == [AnyRun] + Tokens(pattern[2..])
    ensures pattern != [] && pattern[0] == STAR && !(|pattern| > 1 && pattern[1] == STAR) ==>
              Tokens(pattern) == [Run] + Tokens(pattern[1..])
    ensures pattern != [] && pattern[0] == QUESTION ==> Tokens(pattern) == [One] + Tokens(pattern[1..])
    ensures pattern != [] && pattern[0] == OPEN ==>
              var end := ClassEnd(pattern);
              Tokens(pattern) == if end < |pattern| then [Class(pattern[1..end])] + Tokens(pattern[end + 1..])
                                 else [Literal(OPEN)] + Tokens(pattern[1..])
    ensures pattern != [] && pattern[0] !in {STAR, QUESTION, OPEN} ==>
              Tokens(pattern) == [Literal(pattern[0])] + Tokens(pattern[1..])
  {
  }

  lemma {:induction false} QuestionOrLiteral(pattern: seq<CChar>, str: seq<CChar>)
    requires pattern != [] && pattern[0] != STAR && pattern[0] != OPEN
    requires pattern[0] == QUESTION ==> str == [] || str[0] == SLASH
    ensures InLanguage(Tokens(pattern), str) <==>
      str != [] && pattern[0] == str[0] && InLanguage(Tokens(pattern[1..]), str[1..])
  {
    hide InLanguage, Tokens;
    TokensStep(pattern);
    if pattern[0] == QUESTION {
      LanguageOne(One, Tokens(pattern[1..]), str);
    } else {
      LanguageOne(Literal(pattern[0]), Tokens(pattern[1..]), str);
      LiteralFits(pattern[0], str);
    }
  }

  /** The overload on C++ strings. */
  method GlobMatchStrings(pattern: seq<CChar>, str: seq<CChar>) returns (r: bool)
    ensures r <==> InLanguage(Tokens(CString(pattern)), CString(str))
  {
    hide InLanguage, Tokens;
    r := GlobMatch(CString(pattern), CString(str));
  }

  // ---------- slashes ----------

  function Slashes(s: seq<CChar>): (n: nat)
  {
    if s == [] then 0 else (if s[0] == SLASH then 1 else 0) + Slashes(s[1..])
  }

  lemma {:induction false} SlashesAppend(a: seq<CChar>, b: seq<CChar>)
    ensures Slashes(a + b) == Slashes(a) + Slashes(b)
  {
    if a == [] {
      assert a + b == b;
    } else {
      assert (a + b)[1..] == a[1..] + b;
      SlashesAppend(a[1..], b);
    }
  }

  lemma {:induction false} NoSlashes(s: seq<CChar>)
    requires NoSlash(s)
    ensures Slashes(s) == 0
  {
    if s != [] { NoSlashes(s[1..]); }
  }

  predicate Plain(ts: seq<Token>) { forall i :: 0 <= i < |ts| ==> !ts[i].AnyRun? && !ts[i].Class? }

  function SlashTokens(ts: seq<Token>): (n: nat)
  {
    if ts == [] then 0 else (if ts[0] == Literal(SLASH) then 1 else 0) + SlashTokens(ts[1..])
  }

  lemma {:induction false} FitSlashes(t: Token, s: seq<CChar>)
    requires Fits(t, s) && !t.AnyRun? && !t.Class?
    ensures Slashes(s) == if t == Literal(SLASH) then 1 else 0
  {
    if t.Run? {
      NoSlashes(s);
    } else {
      assert s == [s[0]] && s[1..] == [];
    }
  }

  lemma {:induction false} CutSlashes(ts: seq<Token>, s: seq<CChar>, pieces: seq<seq<CChar>>)
    requires Plain(ts) && IsCut(ts, s, pieces)
    ensures Slashes(s) == SlashTokens(ts)
    decreases |ts|
  {
    hide Fits, Slashes;
    if ts == [] {
      NoSlashes([]);
    } else {
      FitSlashes(ts[0], pieces[0]);
      assert IsCut(ts[1..], Concat(pieces[1..]), pieces[1..]);
      CutSlashes(ts[1..], Concat(pieces[1..]), pieces[1..]);
      SlashesAppend(pieces[0], Concat(pieces[1..]));
    }
  }

  lemma {:induction false} PlainPattern(pattern: seq<CChar>)
    requires Plain(Tokens(pattern))
    ensures SlashTokens(Tokens(pattern)) == Slashes(pattern)
    decreases |pattern|
  {
    hide Tokens;
    TokensStep(pattern);
    if pattern != [] {
      var ts := Tokens(pattern);
      assert !ts[0].AnyRun? && !ts[0].Class?;
      assert ts == [ts[0]] + Tokens(pattern[1..]);
      assert ts[1..] == Tokens(pattern[1..]);
      PlainPattern(pattern[1..]);
    }
  }

  /** A pattern without `**` and classes matches only strings with as many slashes as it has itself. */
  lemma {:induction false} SameSlashes(pattern: seq<CChar>, str: seq<CChar>)
    requires InLanguage(Tokens(pattern), str) && Plain(Tokens(pattern))
    ensures Slashes(str) == Slashes(pattern)
  {
    hide Tokens, Slashes, SlashTokens;
    var pieces :| IsCut(Tokens(pattern), str, pieces);
    CutSlashes(Tokens(pattern), str, pieces);
    PlainPattern(pattern);
  }
}
