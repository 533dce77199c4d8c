/** What `normalize_quotes_to_json` makes of the values Python writes. */
module PythonValues {
  import opened Wrappers
  import opened Text
  import opened Quotes
  import Json

  // ---------- words ----------

  /** Outside strings a whole word True, False or None becomes true, false or null. */
  lemma {:induction false} WholeWords(rest: string)
    requires rest == "" || !IsWord(rest[0])
    ensures Normalize("True" + rest, Outside, false) == "true" + Normalize(rest, Outside, true)
    ensures Normalize("False" + rest, Outside, false) == "false" + Normalize(rest, Outside, true)
    ensures Normalize("None" + rest, Outside, false) == "null" + Normalize(rest, Outside, true)
  {
    hide Literal, LiteralLength;
    OneWord("True", "true", rest);
    OneWord("False", "false", rest);
    OneWord("None", "null", rest);
  }

  lemma {:induction false} OneWord(word: string, spelling: string, rest: string)
    requires rest == "" || !IsWord(rest[0])
    requires (word, spelling) in [("True", "true"), ("False", "false"), ("None", "null")]
    ensures Normalize(word + rest, Outside, false) == spelling + Normalize(rest, Outside, true)
  {
    hide Normalize;
    var s := word + rest;
    assert WordLength(s) == |word| by { WordBefore(word, rest); }
    assert s[..|word|] == word && s[|word|..] == rest && s[|word| - 1] == word[|word| - 1];
    Spelled(word, spelling);
    assert Turn(s, Outside, false) == (spelling, |word|, Outside);
    assert s != "";
    UnfoldTurn(s, Outside, false);
  }

  lemma {:induction false} Spelled(word: string, spelling: string)
    requires (word, spelling) in [("True", "true"), ("False", "false"), ("None", "null")]
    ensures Literal(word) == spelling && LiteralLength(word) == |word| && IsLiteralStart(word[0])
    ensures IsWord(word[|word| - 1]) && forall i :: 0 <= i < |word| ==> IsWord(word[i])
  {
    assert "true"[..4] == "true" && "false"[..5] == "false" && "null"[..4] == "null";
  }

  lemma {:induction false} WordBefore(word: string, rest: string)
    requires rest == "" || !IsWord(rest[0])
    requires forall i :: 0 <= i < |word| ==> IsWord(word[i])
    ensures WordLength(word + rest) == |word|
  {
    if word == "" {
      assert word + rest == rest;
    } else {
      WordBefore(word[1..], rest);
      assert (word + rest)[1..] == word[1..] + rest;
    }
  }

  lemma {:induction false} UnfoldTurn(s: string, mode: Mode, afterWord: bool)
    requires s != ""
    ensures var (out, n, mode') := Turn(s, mode, afterWord);
            Normalize(s, mode, afterWord) == out + Normalize(s[n..], mode', IsWord(s[n - 1]))
  {
    hide Turn;
  }

  // ---------- values as Python writes them ----------

  /** A character of a text between quotes of one kind. */
  function PythonChar(c: char, quote: char): (r: string)
  {
    if c == quote then ['\\', c]
    else if c == '\\' then "\\\\"
    else if c == '\n' then "\\n"
    else if c == '\r' then "\\r"
    else if c == '\t' then "\\t"
    else [c]
  }

  function PythonChars(s: string, quote: char): (r: string)
  {
    if s == "" then "" else PythonChar(s[0], quote) + PythonChars(s[1..], quote)
  }

  /** Texts stand in single quotes, or in double quotes if there are single quotes but no double quotes in them. */
  function QuoteOf(s: string): (c: char) { if '\'' in s && '"' !in s then '"' else '\'' }

  function PythonText(s: string): (r: string) { [QuoteOf(s)] + PythonChars(s, QuoteOf(s)) + [QuoteOf(s)] }

  /** Spaces behind a separator: Python itself writes one. */
  predicate Gap(gap: string) { forall i :: 0 <= i < |gap| ==> gap[i] == ' ' }

  /** A value as `repr` writes it, with any number of spaces behind the separators. */
  function Python(v: Json.Value, gap: string): (r: string)
    decreases v
  {
    match v
    case Null => "None"
    case Bool(b) => if b then "True" else "False"
    case Number(text) => text
    case String(s) => PythonText(s)
    case Array(items) => "[" + PythonItems(items, gap) + "]"
    case Object(members) => "{" + PythonMembers(members, gap) + "}"
  }

  function PythonItems(items: seq<Json.Value>, gap: string): (r: string)
    decreases items
  {
    if items == [] then ""
    else if |items| == 1 then Python(items[0], gap)
    else Python(items[0], gap) + "," + (gap + PythonItems(items[1..], gap))
  }

  function PythonMember(m: Json.Member, gap: string): (r: string)
    decreases m
  {
    PythonText(m.key) + ":" + (gap + Python(m.value, gap))
  }

  function PythonMembers(members: seq<Json.Member>, gap: string): (r: string)
    decreases members
  {
    if members == [] then ""
    else if |members| == 1 then PythonMember(members[0], gap)
    else PythonMember(members[0], gap) + "," + (gap + PythonMembers(members[1..], gap))
  }

  /** JSON with the same spaces. */
  function Spaced(v: Json.Value, gap: string): (r: string)
    decreases v
  {
    match v
    case Array(items) => "[" + SpacedItems(items, gap) + "]"
    case Object(members) => "{" + SpacedMembers(members, gap) + "}"
    case _ => Json.Print(v)
  }

  function SpacedItems(items: seq<Json.Value>, gap: string): (r: string)
    decreases items
  {
    if items == [] then ""
    else if |items| == 1 then Spaced(items[0], gap)
    else Spaced(items[0], gap) + "," + (gap + SpacedItems(items[1..], gap))
  }

  function SpacedMember(m: Json.Member, gap: string): (r: string)
    decreases m
  {
    Json.Quote(m.key) + ":" + (gap + Spaced(m.value, gap))
  }

  function SpacedMembers(members: seq<Json.Member>, gap: string): (r: string)
    decreases members
  {
    if members == [] then ""
    else if |members| == 1 then SpacedMember(members[0], gap)
    else SpacedMember(members[0], gap) + "," + (gap + SpacedMembers(members[1..], gap))
  }

  /** No control characters but newlines, returns and tabs: Python writes the others as JSON does not. */
  predicate Shown(s: string)
  {
    forall i :: 0 <= i < |s| ==> s[i] >= ' ' || s[i] == '\n' || s[i] == '\r' || s[i] == '\t'
  }

  predicate AllShown(v: Json.Value)
    decreases v
  {
    match v
    case String(s) => Shown(s)
    case Array(items) => forall i :: 0 <= i < |items| ==> AllShown(items[i])
    case Object(members) => forall i :: 0 <= i < |members| ==> Shown(members[i].key) && AllShown(members[i].value)
    case _ => true
  }

  // ---------- they become JSON ----------

  /** What can follow a value or a key. */
  predicate Follows(rest: string) { rest == "" || IsMark(rest[0]) }

  predicate IsMark(c: char) { c == ',' || c == ':' || c == '[' || c == ']' || c == '{' || c == '}' }

  lemma {:induction false} MarkKept(c: char, rest: string, afterWord: bool)
    requires IsMark(c)
    ensures Normalize([c] + rest, Outside, afterWord) == [c] + Normalize(rest, Outside, false)
  {
    hide Normalize;
    var s := [c] + rest;
    assert Turn(s, Outside, afterWord) == ([c], 1, Outside);
    assert s[1..] == rest && s[0] == c;
    UnfoldTurn(s, Outside, afterWord);
  }

  lemma {:induction false} Indifferent(rest: string, afterWord: bool)
    requires Follows(rest)
    ensures Normalize(rest, Outside, afterWord) == Normalize(rest, Outside, false)
  {
    hide Normalize;
    if rest == "" {
      NormalizeNothing(Outside, afterWord);
      NormalizeNothing(Outside, false);
    } else {
      assert rest == [rest[0]] + rest[1..];
      MarkKept(rest[0], rest[1..], afterWord);
      MarkKept(rest[0], rest[1..], false);
    }
  }

  lemma {:induction false} DigitKept(c: char, rest: string, afterWord: bool)
    requires Json.IsNumberChar(c)
    ensures Normalize([c] + rest, Outside, afterWord) == [c] + Normalize(rest, Outside, IsWord(c))
  {
    hide Normalize;
    var s := [c] + rest;
    assert Turn(s, Outside, afterWord) == ([c], 1, Outside);
    assert s[1..] == rest && s[0] == c;
    UnfoldTurn(s, Outside, afterWord);
  }

  lemma {:induction false} NumberKept(text: string, rest: string, afterWord: bool)
    requires Follows(rest) && forall i :: 0 <= i < |text| ==> Json.IsNumberChar(text[i])
    ensures Normalize(text + rest, Outside, afterWord) == text + Normalize(rest, Outside, false)
  {
    hide Normalize, Json.IsNumberChar, IsWord;
    if text == "" {
      assert text + rest == rest;
      Indifferent(rest, afterWord);
    } else {
      var c, t := text[0], text[1..];
      assert text == [c] + t;
      Associate([c], t, rest);
      DigitKept(c, t + rest, afterWord);
      NumberKept(t, rest, IsWord(c));
      Associate([c], t, Normalize(rest, Outside, false));
    }
  }

  function Inside(quote: char): (m: Mode) { if quote == '"' then Double else Single }

  /** One character, as Python escapes it, becomes the character as JSON escapes it. */
  lemma {:induction false} CharNormal(c: char, quote: char, rest: string, afterWord: bool) returns (w: bool)
    requires Shown([c]) && (quote == '\'' || (quote == '"' && c != '"'))
    ensures Normalize(PythonChar(c, quote) + rest, Inside(quote), afterWord) ==
            Json.EscapeChar(c) + Normalize(rest, Inside(quote), w)
  {
    hide Normalize;
    var p, mode := PythonChar(c, quote), Inside(quote);
    var s := p + rest;
    assert [c][0] == c;
    assert s[0] == p[0] && s[|p|..] == rest;
    if |p| > 1 { assert s[1] == p[1]; }
    assert Turn(s, mode, afterWord) == (Json.EscapeChar(c), |p|, mode);
    UnfoldTurn(s, mode, afterWord);
    w := IsWord(s[|p| - 1]);
  }

  lemma {:induction false} CharsNormal(s: string, quote: char, rest: string, afterWord: bool)
    requires Shown(s) && (quote == '\'' || (quote == '"' && '"' !in s))
    ensures Normalize(PythonChars(s, quote) + ([quote] + rest), Inside(quote), afterWord) ==
            Json.Escape(s) + ("\"" + Normalize(rest, Outside, false))
    decreases |s|
  {
    hide Normalize, PythonChar, Json.EscapeChar;
    var t, out := [quote] + rest, "\"" + Normalize(rest, Outside, false);
    if s == "" {
      assert "" + t == t && "" + out == out;
      assert Turn(t, Inside(quote), afterWord) == ("\"", 1, Outside);
      assert t[1..] == rest && t[0] == quote;
      UnfoldTurn(t, Inside(quote), afterWord);
    } else {
      var p, q := PythonChar(s[0], quote), PythonChars(s[1..], quote);
      Associate(p, q, t);
      assert Shown([s[0]]) && Shown(s[1..]);
      var w := CharNormal(s[0], quote, q + t, afterWord);
      CharsNormal(s[1..], quote, rest, w);
      Associate(Json.EscapeChar(s[0]), Json.Escape(s[1..]), out);
    }
  }

  /** Texts come into double quotes and keep their characters. */
  lemma {:induction false} TextNormal(s: string, rest: string)
    requires Shown(s)
    ensures Normalize(PythonText(s) + rest, Outside, false) == Json.Quote(s) + Normalize(rest, Outside, false)
  {
    hide Normalize;
    var quote := QuoteOf(s);
    var chars := PythonChars(s, quote);
    var t := PythonText(s) + rest;
    assert t == [quote] + (chars + ([quote] + rest));
    assert t[0] == quote && t[1..] == chars + ([quote] + rest);
    assert Turn(t, Outside, false) == ("\"", 1, Inside(quote));
    UnfoldTurn(t, Outside, false);
    CharsNormal(s, quote, rest, false);
    Reassociate("\"", Json.Escape(s), "\"", Normalize(rest, Outside, false));
    Associate(Json.Escape(s), "\"", Normalize(rest, Outside, false));
  }

  lemma {:induction false} GapKept(gap: string, rest: string)
    requires Gap(gap)
    ensures Normalize(gap + rest, Outside, false) == gap + Normalize(rest, Outside, false)
  {
    hide Normalize;
    if gap == "" {
      assert gap + rest == rest && "" + Normalize(rest, Outside, false) == Normalize(rest, Outside, false);
    } else {
      var t := gap[1..] + rest;
      assert gap + rest == [' '] + t && (gap + rest)[1..] == t;
      assert Turn([' '] + t, Outside, false) == ([' '], 1, Outside);
      UnfoldTurn([' '] + t, Outside, false);
      GapKept(gap[1..], rest);
      Associate([' '], gap[1..], Normalize(rest, Outside, false));
    }
  }

  lemma {:induction false} ValueNormal(v: Json.Value, gap: string, rest: string)
    requires Json.Printable(v) && AllShown(v) && Gap(gap) && Follows(rest)
    ensures Normalize(Python(v, gap) + rest, Outside, false) == Spaced(v, gap) + Normalize(rest, Outside, false)
    decreases v
  {
    hide Normalize, Json.IsNumber;
    match v
    case Null =>
      WholeWords(rest);
      Indifferent(rest, true);
    case Bool(b) =>
      WholeWords(rest);
      Indifferent(rest, true);
    case Number(text) =>
      Json.NumberChars(text);
      NumberKept(text, rest, false);
    case String(s) => TextNormal(s, rest);
    case Array(items) =>
      ItemsNormal(items, gap, "]" + rest);
      Bracket('[', ']', PythonItems(items, gap), SpacedItems(items, gap), rest);
    case Object(members) =>
      MembersNormal(members, gap, "}" + rest);
      Bracket('{', '}', PythonMembers(members, gap), SpacedMembers(members, gap), rest);
  }

  lemma {:induction false} Bracket(open: char, close: char, inner: string, out: string, rest: string)
    requires IsMark(open) && IsMark(close)
    requires Normalize(inner + ([close] + rest), Outside, false) == out + Normalize([close] + rest, Outside, false)
    ensures Normalize([open] + inner + [close] + rest, Outside, false) ==
            [open] + out + [close] + Normalize(rest, Outside, false)
  {
    hide Normalize;
    Reassociate([open], inner, [close], rest);
    assert inner + [close] + rest == inner + ([close] + rest);
    MarkKept(open, inner + ([close] + rest), false);
    MarkKept(close, rest, false);
    Reassociate([open], out, [close], Normalize(rest, Outside, false));
    Associate(out, [close], Normalize(rest, Outside, false));
  }

  /** Two parts with a separator and spaces between them. */
  lemma {:induction false} Separated(c: char, gap: string, x: string, out: string, t: string, more: string,
    rest: string)
    requires IsMark(c) && Gap(gap)
    requires Normalize(x + ([c] + (gap + (t + rest))), Outside, false) ==
             out + Normalize([c] + (gap + (t + rest)), Outside, false)
    requires Normalize(t + rest, Outside, false) == more + Normalize(rest, Outside, false)
    ensures Normalize(x + [c] + (gap + t) + rest, Outside, false) ==
            out + [c] + (gap + more) + Normalize(rest, Outside, false)
  {
    hide Normalize;
    assert x + [c] + (gap + t) + rest == x + ([c] + (gap + (t + rest)));
    MarkKept(c, gap + (t + rest), false);
    GapKept(gap, t + rest);
    var n := Normalize(rest, Outside, false);
    Associate(gap, more, n);
    Reassociate(out, [c], gap + more, n);
    Associate([c], gap + more, n);
  }

  lemma {:induction false} ItemsNormal(items: seq<Json.Value>, gap: string, rest: string)
    requires Gap(gap) && Follows(rest)
    requires forall i :: 0 <= i < |items| ==> Json.Printable(items[i]) && AllShown(items[i])
    ensures Normalize(PythonItems(items, gap) + rest, Outside, false) ==
            SpacedItems(items, gap) + Normalize(rest, Outside, false)
    decreases items
  {
    hide Normalize, Json.Printable, AllShown, Spaced, Python, Gap;
    if items == [] {
      assert "" + rest == rest && "" + Normalize(rest, Outside, false) == Normalize(rest, Outside, false);
    } else if |items| == 1 {
      ValueNormal(items[0], gap, rest);
    } else {
      var x, t := Python(items[0], gap), PythonItems(items[1..], gap);
      ValueNormal(items[0], gap, "," + (gap + (t + rest)));
      ItemsNormal(items[1..], gap, rest);
      Separated(',', gap, x, Spaced(items[0], gap), t, SpacedItems(items[1..], gap), rest);
    }
  }

  lemma {:induction false} MemberNormal(m: Json.Member, gap: string, rest: string)
    requires Gap(gap) && Follows(rest) && Shown(m.key) && Json.Printable(m.value) && AllShown(m.value)
    ensures Normalize(PythonMember(m, gap) + rest, Outside, false) ==
            SpacedMember(m, gap) + Normalize(rest, Outside, false)
    decreases m, 0
  {
    hide Normalize, Json.Printable, AllShown, Spaced, Python, Gap, Json.Quote, PythonText, Shown;
    var k, x := PythonText(m.key), Python(m.value, gap);
    TextNormal(m.key, ":" + (gap + (x + rest)));
    ValueNormal(m.value, gap, rest);
    Separated(':', gap, k, Json.Quote(m.key), x, Spaced(m.value, gap), rest);
  }

  lemma {:induction false} MembersNormal(members: seq<Json.Member>, gap: string, rest: string)
    requires Gap(gap) && Follows(rest)
    requires forall i :: 0 <= i < |members| ==>
      Shown(members[i].key) && Json.Printable(members[i].value) && AllShown(members[i].value)
    ensures Normalize(PythonMembers(members, gap) + rest, Outside, false) ==
            SpacedMembers(members, gap) + Normalize(rest, Outside, false)
    decreases members
  {
    hide Normalize, Json.Printable, AllShown, SpacedMember, PythonMember, Shown, Gap;
    if members == [] {
      assert "" + rest == rest && "" + Normalize(rest, Outside, false) == Normalize(rest, Outside, false);
    } else if |members| == 1 {
      MemberNormal(members[0], gap, rest);
    } else {
      var x, t := PythonMember(members[0], gap), PythonMembers(members[1..], gap);
      MemberNormal(members[0], gap, "," + (gap + (t + rest)));
      MembersNormal(members[1..], gap, rest);
      Separated(',', gap, x, SpacedMember(members[0], gap), t, SpacedMembers(members[1..], gap), rest);
    }
  }

  // ---------- and the JSON reads back ----------

  lemma {:induction false} GapSkipped(gap: string, s: string)
    requires Gap(gap)
    ensures Json.SkipBlanks(gap + s) == Json.SkipBlanks(s)
    decreases |gap|
  {
    if gap == "" {
      assert gap + s == s;
    } else {
      assert (gap + s)[1..] == gap[1..] + s;
      GapSkipped(gap[1..], s);
    }
  }

  lemma {:induction false} GapRead(gap: string, s: string)
    requires Gap(gap)
    ensures Json.ReadValue(gap + s) == Json.ReadValue(s) && Json.ReadMember(gap + s) == Json.ReadMember(s)
    ensures Json.ReadItems(gap + s) == Json.ReadItems(s) && Json.ReadMembers(gap + s) == Json.ReadMembers(s)
  {
    hide Json.SkipBlanks, Json.ReadScalar, Json.ReadChars;
    GapSkipped(gap, s);
  }

  lemma {:induction false} SpacedStart(v: Json.Value, gap: string)
    requires Json.Printable(v)
    ensures Spaced(v, gap) != "" && !Json.IsBlank(Spaced(v, gap)[0]) && Spaced(v, gap)[0] != ']'
  {
    hide Json.IsNumber;
    Json.PrintStart(v);
  }

  lemma {:induction false} ReadSpaced(v: Json.Value, gap: string, rest: string)
    requires Json.Printable(v) && Gap(gap) && Json.Terminated(rest)
    ensures Json.ReadValue(Spaced(v, gap) + rest) == Some((v, rest))
    decreases v, 0
  {
    hide Json.ReadValue, Json.Terminated, Json.ReadItems, Json.ReadMembers, Gap;
    match v
    case Array(items) =>
      if items == [] {
        Json.ReadEmpty(rest);
      } else {
        ReadSpacedItems(items, gap, rest);
        SpacedStart(items[0], gap);
        Json.ReadArray(SpacedItems(items, gap) + "]" + rest, items, rest);
        Reassociate("[", SpacedItems(items, gap), "]", rest);
      }
    case Object(members) =>
      if members == [] {
        Json.ReadEmpty(rest);
      } else {
        ReadSpacedMembers(members, gap, rest);
        Json.ReadObject(SpacedMembers(members, gap) + "}" + rest, members, rest);
        Reassociate("{", SpacedMembers(members, gap), "}", rest);
      }
    case _ => Json.ReadPrinted(v, rest);
  }

  lemma {:induction false} ReadSpacedItems(items: seq<Json.Value>, gap: string, rest: string)
    requires items != [] && Gap(gap) && forall i :: 0 <= i < |items| ==> Json.Printable(items[i])
    ensures Json.ReadItems(SpacedItems(items, gap) + "]" + rest) == Some((items, rest))
    decreases items, 1
  {
    hide Json.ReadValue, Json.ReadItems, Json.Printable, Spaced, Gap;
    var x := Spaced(items[0], gap);
    if |items| == 1 {
      ReadSpaced(items[0], gap, "]" + rest);
      assert x + "]" + rest == x + ("]" + rest);
      Json.ReadLastItem(x + ("]" + rest), items[0], rest);
      assert items == [items[0]];
    } else {
      var t := gap + (SpacedItems(items[1..], gap) + "]" + rest);
      ReadSpaced(items[0], gap, "," + t);
      ReadSpacedItems(items[1..], gap, rest);
      GapRead(gap, SpacedItems(items[1..], gap) + "]" + rest);
      Json.ReadMoreItems(x + ("," + t), items[0], t, items[1..], rest);
      Tail(x, gap, SpacedItems(items[1..], gap), "]", rest);
      assert items == [items[0]] + items[1..];
    }
  }

  lemma {:induction false} Tail(x: string, gap: string, more: string, close: string, rest: string)
    ensures x + "," + (gap + more) + close + rest == x + ("," + (gap + (more + close + rest)))
  {
  }

  lemma {:induction false} ReadSpacedMember(m: Json.Member, gap: string, rest: string)
    requires Gap(gap) && Json.ReadValue(Spaced(m.value, gap) + rest) == Some((m.value, rest))
    ensures Json.ReadMember(SpacedMember(m, gap) + rest) == Some((m, rest))
  {
    hide Json.ReadMember, Json.ReadValue, Json.ReadChars, Spaced, Gap;
    var s, t := SpacedMember(m, gap) + rest, gap + (Spaced(m.value, gap) + rest);
    assert s[1..] == Json.Escape(m.key) + "\"" + (":" + t);
    Json.ReadEscaped(m.key, ":" + t);
    GapRead(gap, Spaced(m.value, gap) + rest);
    Json.ReadMemberParts(s, m.key, m.value, t, rest);
  }

  lemma {:induction false} ReadSpacedMembers(members: seq<Json.Member>, gap: string, rest: string)
    requires members != [] && Gap(gap) && forall i :: 0 <= i < |members| ==> Json.Printable(members[i].value)
    ensures Json.ReadMembers(SpacedMembers(members, gap) + "}" + rest) == Some((members, rest))
    decreases members, 1
  {
    hide Json.ReadValue, Json.ReadMember, Json.ReadMembers, Json.Printable, SpacedMember, Gap;
    var m, x := members[0], SpacedMember(members[0], gap);
    if |members| == 1 {
      ReadSpaced(m.value, gap, "}" + rest);
      ReadSpacedMember(m, gap, "}" + rest);
      assert x + "}" + rest == x + ("}" + rest);
      Json.ReadLastMember(x + ("}" + rest), m, rest);
      assert members == [m];
    } else {
      var more := SpacedMembers(members[1..], gap);
      var t := gap + (more + "}" + rest);
      ReadSpaced(m.value, gap, "," + t);
      ReadSpacedMember(m, gap, "," + t);
      ReadSpacedMembers(members[1..], gap, rest);
      GapRead(gap, more + "}" + rest);
      Json.ReadMoreMembers(x + ("," + t), m, t, members[1..], rest);
      Tail(x, gap, more, "}", rest);
      assert members == [m] + members[1..];
    }
  }

  /** A value as Python writes it becomes JSON with the same spaces, and parses to that value. */
  lemma {:induction false} PythonReadsBack(v: Json.Value, gap: string)
    requires Json.Printable(v) && AllShown(v) && Gap(gap)
    ensures NormalizeAll(Python(v, gap)) == Spaced(v, gap) && Json.Parse(Spaced(v, gap)) == Some(v)
  {
    hide Normalize, Json.Printable, AllShown, Spaced, Python, Gap, Json.ReadValue;
    ValueNormal(v, gap, "");
    NormalizeNothing(Outside, false);
    assert Python(v, gap) + "" == Python(v, gap) && Spaced(v, gap) + "" == Spaced(v, gap);
    ReadSpaced(v, gap, "");
  }
}
