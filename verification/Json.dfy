/** JSON text: the string escaping the program prints with, a compact printer, and a reader that follows
    RFC 8259 (sections 2 to 7). The printer and the reader are the yardstick for the tool-call arguments. */
module Json {
  import opened Wrappers
  import Text

  datatype Member = Member(key: string, value: Value)

  datatype Value =
    | Null
    | Bool(b: bool)
    | Number(text: string)
    | String(s: string)
    | Array(items: seq<Value>)
    | Object(members: seq<Member>)

  // ---------- strings: escaping (section 7) ----------

  function HexDigit(n: nat): (c: char)
    requires n < 16
  {
    if n < 10 then '0' + n as char else 'a' + (n - 10) as char
  }

  function HexValue(c: char): (n: Option<nat>)
    ensures n.Some? ==> n.value < 16
  {
    if '0' <= c <= '9' then Some((c - '0') as nat)
    else if 'a' <= c <= 'f' then Some((c - 'a') as nat + 10)
    else if 'A' <= c <= 'F' then Some((c - 'A') as nat + 10)
    else None
  }

  /** One character as the JSON library prints it inside a string. */
  function EscapeChar(c: char): (r: string)
    ensures r != ""
  {
    if c == '"' then "\\\""
    else if c == '\\' then "\\\\"
    else if c == '\U{8}' then "\\b"
    else if c == '\U{C}' then "\\f"
    else if c == '\n' then "\\n"
    else if c == '\r' then "\\r"
    else if c == '\t' then "\\t"
    else if c < ' ' then "\\u00" + [HexDigit(c as nat / 16), HexDigit(c as nat % 16)]
    else [c]
  }

  function Escape(s: string): (r: string)
  {
    if s == "" then "" else EscapeChar(s[0]) + Escape(s[1..])
  }

  function Quote(s: string): (r: string) { "\"" + Escape(s) + "\"" }

  lemma {:induction false} EscapeAppend(a: string, b: string)
    ensures Escape(a + b) == Escape(a) + Escape(b)
  {
    if a == "" {
      assert a + b == b;
    } else {
      assert (a + b)[1..] == a[1..] + b;
      EscapeAppend(a[1..], b);
      assert EscapeChar(a[0]) + (Escape(a[1..]) + Escape(b)) == EscapeChar(a[0]) + Escape(a[1..]) + Escape(b);
    }
  }

  /** Escaping works character by character, so a longer text escapes to a longer text. */
  lemma {:induction false} EscapeMonotone(a: string, b: string)
    requires a <= b
    ensures Escape(a) <= Escape(b)
  {
    assert b == a + b[|a|..];
    EscapeAppend(a, b[|a|..]);
  }

  // ---------- strings: reading ----------

  /** The character named by the escape that follows a backslash, and the number of characters it takes.
      Escapes that name half of a surrogate pair are rejected: a `char` here is a whole code point. */
  function ReadEscape(s: string): (r: Option<(char, nat)>)
    ensures r.Some? ==> 1 <= r.value.1 <= |s|
  {
    if s == "" then None
    else if s[0] == '"' || s[0] == '\\' || s[0] == '/' then Some((s[0], 1))
    else if s[0] == 'b' then Some(('\U{8}', 1))
    else if s[0] == 'f' then Some(('\U{C}', 1))
    else if s[0] == 'n' then Some(('\n', 1))
    else if s[0] == 'r' then Some(('\r', 1))
    else if s[0] == 't' then Some(('\t', 1))
    else if s[0] == 'u' && |s| >= 5 then
      var h0, h1, h2, h3 := HexValue(s[1]), HexValue(s[2]), HexValue(s[3]), HexValue(s[4]);
      if h0.Some? && h1.Some? && h2.Some? && h3.Some? then
        var code := ((h0.value * 16 + h1.value) * 16 + h2.value) * 16 + h3.value;
        if 0xD800 <= code < 0xE000 then None else Some((code as char, 5))
      else None
    else None
  }

  /** Reads string content up to and including the closing quote. */
  function ReadChars(s: string): (r: Option<(string, string)>)
    ensures r.Some? ==> |r.value.1| < |s|
    decreases |s|
  {
    if s == "" then None
    else if s[0] == '"' then Some(("", s[1..]))
    else if s[0] == '\\' then
      var e := ReadEscape(s[1..]);
      if e.None? then None
      else
        var tail := ReadChars(s[1 + e.value.1..]);
        if tail.None? then None else Some(([e.value.0] + tail.value.0, tail.value.1))
    else if s[0] < ' ' then None
    else
      var tail := ReadChars(s[1..]);
      if tail.None? then None else Some(([s[0]] + tail.value.0, tail.value.1))
  }

  /** Reading one escaped character gives the character back and leaves the rest alone. */
  lemma {:induction false} ReadEscapedChar(c: char, rest: string)
    ensures var r := ReadChars(rest);
            ReadChars(EscapeChar(c) + rest) == if r.None? then None else Some(([c] + r.value.0, r.value.1))
  {
    var e := EscapeChar(c);
    var s := e + rest;
    if |e| == 6 {
      assert s[0] == '\\' && s[1..][..5] == e[1..];
      assert s[6..] == rest;
      HexRoundTrip(c as nat / 16);
      HexRoundTrip(c as nat % 16);
      assert ReadEscape(s[1..]) == Some((c, 5));
    } else if |e| == 2 {
      assert s[0] == '\\' && s[1..][0] == e[1];
      assert s[2..] == rest;
      assert ReadEscape(s[1..]) == Some((c, 1));
    } else {
      assert s[1..] == rest;
    }
  }

  lemma {:induction false} HexRoundTrip(n: nat)
    requires n < 16
    ensures HexValue(HexDigit(n)) == Some(n)
  {
  }

  lemma {:induction false} ReadEscaped(s: string, rest: string)
    ensures ReadChars(Escape(s) + "\"" + rest) == Some((s, rest))
    decreases |s|
  {
    if s == "" {
      assert Escape(s) + "\"" + rest == "\"" + rest;
    } else {
      var tail := Escape(s[1..]) + "\"" + rest;
      assert Escape(s) + "\"" + rest == EscapeChar(s[0]) + tail;
      ReadEscaped(s[1..], rest);
      ReadEscapedChar(s[0], tail);
      assert [s[0]] + s[1..] == s;
    }
  }

  // ---------- numbers (section 6) ----------

  predicate IsDigit(c: char) { '0' <= c <= '9' }

  predicate IsNumberChar(c: char) { IsDigit(c) || c == '-' || c == '+' || c == '.' || c == 'e' || c == 'E' }

  /** How many leading characters of `s` satisfy `p`. */
  function Span(s: string, p: char -> bool): (n: nat)
    ensures n <= |s|
  {
    if s == "" || !p(s[0]) then 0 else 1 + Span(s[1..], p)
  }

  lemma {:induction false} SpanPrefix(s: string, p: char -> bool)
    ensures forall k :: 0 <= k < Span(s, p) ==> p(s[k])
    ensures Span(s, p) < |s| ==> !p(s[Span(s, p)])
  {
    if s != "" && p(s[0]) {
      SpanPrefix(s[1..], p);
      assert forall k :: 1 <= k < Span(s, p) ==> s[k] == s[1..][k - 1];
    }
  }

  predicate IsExponent(s: string)
  {
    s == "" ||
    ((s[0] == 'e' || s[0] == 'E') &&
     var t := if |s| > 1 && (s[1] == '+' || s[1] == '-') then s[2..] else s[1..];
     t != "" && Span(t, IsDigit) == |t|)
  }

  predicate IsFraction(s: string)
  {
    if s != "" && s[0] == '.' then
      var n := Span(s[1..], IsDigit);
      n > 0 && IsExponent(s[1 + n..])
    else IsExponent(s)
  }

  predicate IsNumber(s: string)
  {
    var t := if s != "" && s[0] == '-' then s[1..] else s;
    var n := Span(t, IsDigit);
    n > 0 && (t[0] == '0' ==> n == 1) && IsFraction(t[n..])
  }

  lemma {:induction false} AllDigits(s: string)
    requires Span(s, IsDigit) == |s|
    ensures forall k :: 0 <= k < |s| ==> IsNumberChar(s[k])
  {
    SpanPrefix(s, IsDigit);
    assert forall k :: 0 <= k < |s| ==> IsDigit(s[k]);
  }

  lemma {:induction false} ExponentChars(s: string)
    requires IsExponent(s)
    ensures forall k :: 0 <= k < |s| ==> IsNumberChar(s[k])
  {
    if s != "" {
      var m := if |s| > 1 && (s[1] == '+' || s[1] == '-') then 2 else 1;
      AllDigits(s[m..]);
      forall k | 0 <= k < |s|
        ensures IsNumberChar(s[k])
      {
        if k >= m { assert s[k] == s[m..][k - m]; }
      }
    }
  }

  lemma {:induction false} FractionChars(s: string)
    requires IsFraction(s)
    ensures forall k :: 0 <= k < |s| ==> IsNumberChar(s[k])
  {
    if s != "" && s[0] == '.' {
      var n := Span(s[1..], IsDigit);
      SpanPrefix(s[1..], IsDigit);
      ExponentChars(s[1 + n..]);
      forall k | 0 <= k < |s|
        ensures IsNumberChar(s[k])
      {
        if 1 <= k < 1 + n {
          assert s[k] == s[1..][k - 1];
        } else if k >= 1 + n {
          assert s[k] == s[1 + n..][k - 1 - n];
        }
      }
    } else {
      ExponentChars(s);
    }
  }

  /** A JSON number consists of number characters and starts with a digit or a minus sign. */
  lemma {:induction false} NumberChars(s: string)
    requires IsNumber(s)
    ensures s != "" && (IsDigit(s[0]) || s[0] == '-')
    ensures forall k :: 0 <= k < |s| ==> IsNumberChar(s[k])
  {
    var m := if s[0] == '-' then 1 else 0;
    var n := Span(s[m..], IsDigit);
    SpanPrefix(s[m..], IsDigit);
    assert s[m..][n..] == s[m + n..];
    FractionChars(s[m + n..]);
    forall k | 0 <= k < |s|
      ensures IsNumberChar(s[k])
    {
      if m <= k < m + n {
        assert s[k] == s[m..][k - m];
      } else if k >= m + n {
        assert s[k] == s[m + n..][k - m - n];
      }
    }
  }

  lemma {:induction false} SpanAppend(s: string, rest: string, p: char -> bool)
    requires forall k :: 0 <= k < |s| ==> p(s[k])
    requires rest == "" || !p(rest[0])
    ensures Span(s + rest, p) == |s|
  {
    if s == "" {
      assert s + rest == rest;
    } else {
      assert (s + rest)[1..] == s[1..] + rest;
      SpanAppend(s[1..], rest, p);
    }
  }

  // ---------- values: printing ----------

  function Print(v: Value): (r: string)
    decreases v
  {
    match v
    case Null => "null"
    case Bool(b) => if b then "true" else "false"
    case Number(text) => text
    case String(s) => Quote(s)
    case Array(items) => "[" + PrintItems(items) + "]"
    case Object(members) => "{" + PrintMembers(members) + "}"
  }

  function PrintItems(items: seq<Value>): (r: string)
    decreases items
  {
    if items == [] then ""
    else if |items| == 1 then Print(items[0])
    else Print(items[0]) + "," + PrintItems(items[1..])
  }

  function PrintMember(m: Member): (r: string)
    decreases m
  {
    Quote(m.key) + ":" + Print(m.value)
  }

  function PrintMembers(members: seq<Member>): (r: string)
    decreases members
  {
    if members == [] then ""
    else if |members| == 1 then PrintMember(members[0])
    else PrintMember(members[0]) + "," + PrintMembers(members[1..])
  }

  /** Values the printer turns into JSON: every number text is a JSON number. */
  predicate Printable(v: Value)
    decreases v
  {
    match v
    case Number(text) => IsNumber(text)
    case Array(items) => forall i :: 0 <= i < |items| ==> Printable(items[i])
    case Object(members) => forall i :: 0 <= i < |members| ==> Printable(members[i].value)
    case _ => true
  }

  // ---------- values: reading (sections 2 to 5) ----------

  predicate IsBlank(c: char) { c == ' ' || c == '\t' || c == '\n' || c == '\r' }

  function SkipBlanks(s: string): (r: string)
    ensures |r| <= |s|
  {
    if s != "" && IsBlank(s[0]) then SkipBlanks(s[1..]) else s
  }

  function ReadNumber(s: string): (r: Option<(Value, string)>)
    ensures r.Some? ==> |r.value.1| < |s|
  {
    var n := Span(s, IsNumberChar);
    if IsNumber(s[..n]) then Some((Number(s[..n]), s[n..])) else None
  }

  /** The three literal names, or else a number. */
  function ReadScalar(s: string): (r: Option<(Value, string)>)
    ensures r.Some? ==> |r.value.1| < |s|
  {
    if "null" <= s then Some((Null, s[4..]))
    else if "true" <= s then Some((Bool(true), s[4..]))
    else if "false" <= s then Some((Bool(false), s[5..]))
    else ReadNumber(s)
  }

  function ReadValue(input: string): (r: Option<(Value, string)>)
    ensures r.Some? ==> |r.value.1| < |input|
    decreases |input|, 0
  {
    var s := SkipBlanks(input);
    if s == "" then None
    else if s[0] == '"' then
      var r := ReadChars(s[1..]);
      if r.None? then None else Some((String(r.value.0), r.value.1))
    else if s[0] == '[' then
      var t := SkipBlanks(s[1..]);
      if t != "" && t[0] == ']' then Some((Array([]), t[1..]))
      else
        var r := ReadItems(s[1..]);
        if r.None? then None else Some((Array(r.value.0), r.value.1))
    else if s[0] == '{' then
      var t := SkipBlanks(s[1..]);
      if t != "" && t[0] == '}' then Some((Object([]), t[1..]))
      else
        var r := ReadMembers(s[1..]);
        if r.None? then None else Some((Object(r.value.0), r.value.1))
    else ReadScalar(s)
  }

  /** One or more comma-separated values and the closing bracket. */
  function ReadItems(input: string): (r: Option<(seq<Value>, string)>)
    ensures r.Some? ==> |r.value.1| < |input|
    decreases |input|, 1
  {
    var v := ReadValue(input);
    if v.None? then None
    else
      var s := SkipBlanks(v.value.1);
      if s == "" then None
      else if s[0] == ']' then Some(([v.value.0], s[1..]))
      else if s[0] == ',' then
        var r := ReadItems(s[1..]);
        if r.None? then None else Some(([v.value.0] + r.value.0, r.value.1))
      else None
  }

  function ReadMember(input: string): (r: Option<(Member, string)>)
    ensures r.Some? ==> |r.value.1| < |input|
    decreases |input|, 1
  {
    var s := SkipBlanks(input);
    if s == "" || s[0] != '"' then None
    else
      var k := ReadChars(s[1..]);
      if k.None? then None
      else
        var t := SkipBlanks(k.value.1);
        if t == "" || t[0] != ':' then None
        else
          var v := ReadValue(t[1..]);
          if v.None? then None else Some((Member(k.value.0, v.value.0), v.value.1))
  }

  /** One or more comma-separated members and the closing brace. */
  function ReadMembers(input: string): (r: Option<(seq<Member>, string)>)
    ensures r.Some? ==> |r.value.1| < |input|
    decreases |input|, 2
  {
    var m := ReadMember(input);
    if m.None? then None
    else
      var s := SkipBlanks(m.value.1);
      if s == "" then None
      else if s[0] == '}' then Some(([m.value.0], s[1..]))
      else if s[0] == ',' then
        var r := ReadMembers(s[1..]);
        if r.None? then None else Some(([m.value.0] + r.value.0, r.value.1))
      else None
  }

  // ---------- the reader inverts the printer ----------

  /** What may follow a printed value: nothing a number could swallow. */
  predicate Terminated(rest: string) { rest == "" || !IsNumberChar(rest[0]) }

  lemma {:induction false} SkipNothing(s: string)
    requires s != "" && !IsBlank(s[0])
    ensures SkipBlanks(s) == s
  {
  }

  lemma {:induction false} PrintStart(v: Value)
    requires Printable(v)
    ensures Print(v) != "" && !IsBlank(Print(v)[0]) && Print(v)[0] != ']' && Print(v)[0] != '}'
  {
    if v.Number? { NumberChars(v.text); }
  }

  lemma {:induction false} ReadOneValue(v: Value, rest: string)
    requires v.Null? || v.Bool?
    ensures ReadValue(Print(v) + rest) == Some((v, rest))
  {
    var p := Print(v);
    var s := p + rest;
    SkipNothing(s);
    assert s[..|p|] == p && s[|p|..] == rest;
  }

  lemma {:induction false} ReadNumberText(text: string, rest: string)
    requires IsNumber(text) && Terminated(rest)
    ensures ReadNumber(text + rest) == Some((Number(text), rest))
  {
    var s := text + rest;
    NumberChars(text);
    SpanAppend(text, rest, IsNumberChar);
    assert s[..|text|] == text && s[|text|..] == rest;
  }

  lemma {:induction false} ReadNumberValue(text: string, rest: string)
    requires IsNumber(text) && Terminated(rest)
    ensures ReadValue(text + rest) == Some((Number(text), rest))
  {
    hide IsNumber, ReadNumber;
    var s := text + rest;
    NumberChars(text);
    assert s[0] == text[0];
    SkipNothing(s);
    ReadNumberText(text, rest);
  }

  lemma {:induction false} ReadString(t: string, rest: string)
    ensures ReadValue(Quote(t) + rest) == Some((String(t), rest))
  {
    var s := Quote(t) + rest;
    SkipNothing(s);
    assert s[1..] == Escape(t) + "\"" + rest;
    ReadEscaped(t, rest);
  }

  lemma {:induction false} ReadEmpty(rest: string)
    ensures ReadValue("[]" + rest) == Some((Array([]), rest))
    ensures ReadValue("{}" + rest) == Some((Object([]), rest))
    ensures Print(Array([])) == "[]" && Print(Object([])) == "{}"
  {
    var a, o := "[]" + rest, "{}" + rest;
    assert a[1..] == "]" + rest && o[1..] == "}" + rest;
    assert ("]" + rest)[1..] == rest && ("}" + rest)[1..] == rest;
    SkipNothing(a);
    SkipNothing(o);
    SkipNothing("]" + rest);
    SkipNothing("}" + rest);
  }

  lemma {:induction false} ReadArray(t: string, items: seq<Value>, rest: string)
    requires t != "" && !IsBlank(t[0]) && t[0] != ']'
    requires ReadItems(t) == Some((items, rest))
    ensures ReadValue("[" + t) == Some((Array(items), rest))
  {
    var s := "[" + t;
    SkipNothing(s);
    SkipNothing(t);
    assert s[1..] == t;
  }

  lemma {:induction false} ReadObject(t: string, members: seq<Member>, rest: string)
    requires t != "" && !IsBlank(t[0]) && t[0] != '}'
    requires ReadMembers(t) == Some((members, rest))
    ensures ReadValue("{" + t) == Some((Object(members), rest))
  {
    var s := "{" + t;
    SkipNothing(s);
    SkipNothing(t);
    assert s[1..] == t;
  }

  lemma {:induction false} ReadLastItem(s: string, v: Value, rest: string)
    requires ReadValue(s) == Some((v, "]" + rest))
    ensures ReadItems(s) == Some(([v], rest))
  {
    SkipNothing("]" + rest);
    assert ("]" + rest)[1..] == rest;
  }

  lemma {:induction false} ReadMoreItems(s: string, v: Value, t: string, items: seq<Value>, rest: string)
    requires ReadValue(s) == Some((v, "," + t)) && ReadItems(t) == Some((items, rest))
    ensures ReadItems(s) == Some(([v] + items, rest))
  {
    SkipNothing("," + t);
    assert ("," + t)[1..] == t;
  }

  lemma {:induction false} ReadLastMember(s: string, m: Member, rest: string)
    requires ReadMember(s) == Some((m, "}" + rest))
    ensures ReadMembers(s) == Some(([m], rest))
  {
    SkipNothing("}" + rest);
    assert ("}" + rest)[1..] == rest;
  }

  lemma {:induction false} ReadMoreMembers(s: string, m: Member, t: string, members: seq<Member>, rest: string)
    requires ReadMember(s) == Some((m, "," + t)) && ReadMembers(t) == Some((members, rest))
    ensures ReadMembers(s) == Some(([m] + members, rest))
  {
    SkipNothing("," + t);
    assert ("," + t)[1..] == t;
  }

  lemma {:induction false} ReadPrintedArray(items: seq<Value>, rest: string)
    requires items != [] && Printable(items[0])
    requires ReadItems(PrintItems(items) + "]" + rest) == Some((items, rest))
    ensures ReadValue(Print(Array(items)) + rest) == Some((Array(items), rest))
  {
    var t := PrintItems(items) + "]" + rest;
    PrintStart(items[0]);
    ReadArray(t, items, rest);
    Text.Reassociate("[", PrintItems(items), "]", rest);
  }

  lemma {:induction false} ReadPrintedObject(members: seq<Member>, rest: string)
    requires members != []
    requires ReadMembers(PrintMembers(members) + "}" + rest) == Some((members, rest))
    ensures ReadValue(Print(Object(members)) + rest) == Some((Object(members), rest))
  {
    var t := PrintMembers(members) + "}" + rest;
    ReadObject(t, members, rest);
    Text.Reassociate("{", PrintMembers(members), "}", rest);
  }

  lemma {:induction false} ReadPrinted(v: Value, rest: string)
    requires Printable(v) && Terminated(rest)
    ensures ReadValue(Print(v) + rest) == Some((v, rest))
    decreases v, 0
  {
    hide ReadValue, Terminated;
    match v
    case Null => ReadOneValue(v, rest);
    case Bool(b) => ReadOneValue(v, rest);
    case Number(text) => ReadNumberValue(text, rest);
    case String(t) => ReadString(t, rest);
    case Array(items) =>
      if items == [] {
        ReadEmpty(rest);
      } else {
        ReadPrintedItems(items, rest);
        ReadPrintedArray(items, rest);
      }
    case Object(members) =>
      if members == [] {
        ReadEmpty(rest);
      } else {
        ReadPrintedMembers(members, rest);
        ReadPrintedObject(members, rest);
      }
  }

  /** Where the rest of a printed list starts after its first element. */
  function TailOfItems(xs: seq<Value>, rest: string): (r: string)
    requires xs != []
  {
    if |xs| == 1 then "]" + rest else "," + (PrintItems(xs[1..]) + "]" + rest)
  }

  lemma {:induction false} PrintItemsSplit(xs: seq<Value>, rest: string)
    requires xs != []
    ensures PrintItems(xs) + "]" + rest == Print(xs[0]) + TailOfItems(xs, rest)
  {
  }

  lemma {:induction false} ReadPrintedItemsStep(xs: seq<Value>, rest: string)
    requires xs != []
    requires ReadValue(Print(xs[0]) + TailOfItems(xs, rest)) == Some((xs[0], TailOfItems(xs, rest)))
    requires |xs| > 1 ==> ReadItems(PrintItems(xs[1..]) + "]" + rest) == Some((xs[1..], rest))
    ensures ReadItems(PrintItems(xs) + "]" + rest) == Some((xs, rest))
  {
    hide ReadValue, ReadItems, Print;
    var s := Print(xs[0]) + TailOfItems(xs, rest);
    PrintItemsSplit(xs, rest);
    if |xs| == 1 {
      ReadLastItem(s, xs[0], rest);
      assert xs == [xs[0]];
    } else {
      ReadMoreItems(s, xs[0], PrintItems(xs[1..]) + "]" + rest, xs[1..], rest);
      assert xs == [xs[0]] + xs[1..];
    }
  }

  lemma {:induction false} ReadPrintedItems(items: seq<Value>, rest: string)
    requires items != []
    requires forall i :: 0 <= i < |items| ==> Printable(items[i])
    ensures ReadItems(PrintItems(items) + "]" + rest) == Some((items, rest))
    decreases items, 1
  {
    ReadPrinted(items[0], TailOfItems(items, rest));
    if |items| > 1 { ReadPrintedItems(items[1..], rest); }
    ReadPrintedItemsStep(items, rest);
  }

  lemma {:induction false} ReadMemberParts(s: string, k: string, v: Value, t: string, rest: string)
    requires s != "" && s[0] == '"'
    requires ReadChars(s[1..]) == Some((k, ":" + t))
    requires ReadValue(t) == Some((v, rest))
    ensures ReadMember(s) == Some((Member(k, v), rest))
  {
    SkipNothing(s);
    SkipNothing(":" + t);
    assert (":" + t)[1..] == t;
  }

  lemma {:induction false} ReadPrintedMember(m: Member, rest: string)
    requires ReadValue(Print(m.value) + rest) == Some((m.value, rest))
    ensures ReadMember(PrintMember(m) + rest) == Some((m, rest))
  {
    hide ReadMember, ReadValue, ReadChars, Print;
    var s := PrintMember(m) + rest;
    var t := Print(m.value) + rest;
    assert s[1..] == Escape(m.key) + "\"" + (":" + t);
    ReadEscaped(m.key, ":" + t);
    ReadMemberParts(s, m.key, m.value, t, rest);
  }

  /** Where the rest of a printed list starts after its first element. */
  function TailOfMembers(xs: seq<Member>, rest: string): (r: string)
    requires xs != []
  {
    if |xs| == 1 then "}" + rest else "," + (PrintMembers(xs[1..]) + "}" + rest)
  }

  lemma {:induction false} PrintMembersSplit(xs: seq<Member>, rest: string)
    requires xs != []
    ensures PrintMembers(xs) + "}" + rest == PrintMember(xs[0]) + TailOfMembers(xs, rest)
  {
  }

  lemma {:induction false} ReadPrintedMembersStep(xs: seq<Member>, rest: string)
    requires xs != []
    requires ReadMember(PrintMember(xs[0]) + TailOfMembers(xs, rest)) == Some((xs[0], TailOfMembers(xs, rest)))
    requires |xs| > 1 ==> ReadMembers(PrintMembers(xs[1..]) + "}" + rest) == Some((xs[1..], rest))
    ensures ReadMembers(PrintMembers(xs) + "}" + rest) == Some((xs, rest))
  {
    hide ReadMember, ReadMembers, PrintMember;
    var s := PrintMember(xs[0]) + TailOfMembers(xs, rest);
    PrintMembersSplit(xs, rest);
    if |xs| == 1 {
      ReadLastMember(s, xs[0], rest);
      assert xs == [xs[0]];
    } else {
      ReadMoreMembers(s, xs[0], PrintMembers(xs[1..]) + "}" + rest, xs[1..], rest);
      assert xs == [xs[0]] + xs[1..];
    }
  }

  lemma {:induction false} ReadPrintedMembers(members: seq<Member>, rest: string)
    requires members != []
    requires forall i :: 0 <= i < |members| ==> Printable(members[i].value)
    ensures ReadMembers(PrintMembers(members) + "}" + rest) == Some((members, rest))
    decreases members, 1
  {
    var tail := TailOfMembers(members, rest);
    ReadPrinted(members[0].value, tail);
    ReadPrintedMember(members[0], tail);
    if |members| > 1 { ReadPrintedMembers(members[1..], rest); }
    ReadPrintedMembersStep(members, rest);
  }

  /** A whole JSON text: one value and nothing but blanks after it. */
  function Parse(text: string): (r: Option<Value>)
  {
    var v := ReadValue(text);
    if v.Some? && SkipBlanks(v.value.1) == "" then Some(v.value.0) else None
  }

  /** Reading a printed value gives that value. */
  lemma {:induction false} ParsePrinted(v: Value)
    requires Printable(v)
    ensures Parse(Print(v)) == Some(v)
  {
    ReadPrinted(v, "");
    assert Print(v) + "" == Print(v);
  }
}
