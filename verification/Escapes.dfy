/** `string_process_escapes`: backslash escapes replaced inside the buffer that holds them. */
module Escapes {
  import opened Wrappers

  type Byte = b: nat | b < 256

  const BACKSLASH: Byte := 92
  const LETTER_X: Byte := 120

  // ---------- what an escape stands for ----------

  /** The escapes with one letter or mark. */
  function Named(c: Byte): (r: Option<Byte>)
  {
    match c
    case 110 => Some(10)
    case 114 => Some(13)
    case 116 => Some(9)
    case 39 => Some(39)
    case 34 => Some(34)
    case 92 => Some(92)
    case _ => None
  }

  function HexValue(c: Byte): (v: Option<nat>)
    ensures v.Some? ==> v.value < 16
  {
    if 48 <= c <= 57 then Some(c - 48)
    else if 65 <= c <= 70 then Some(c - 65 + 10)
    else if 97 <= c <= 102 then Some(c - 97 + 10)
    else None
  }

  predicate IsSpace(c: Byte) { c == 32 || 9 <= c <= 13 }

  /** What `strtol` in base 16 makes of two characters when it takes both: two digits, or one digit after a space or
      a sign. The result is stored in a byte. */
  function TwoCharacters(c: Byte, d: Byte): (r: Option<Byte>)
  {
    var x, y := HexValue(c), HexValue(d);
    if y.None? then None
    else if x.Some? then Some(x.value * 16 + y.value)
    else if IsSpace(c) || c == 43 then Some(y.value)
    else if c == 45 then Some((256 - y.value) % 256)
    else None
  }

  /** The first thing a text says: the bytes it stands for and the number of characters it takes. */
  function First(s: seq<Byte>): (r: (seq<Byte>, nat))
    requires s != []
    ensures 1 <= r.1 <= |s| && |r.0| <= r.1
  {
    if s[0] != BACKSLASH || |s| == 1 then ([s[0]], 1)
    else if Named(s[1]).Some? then ([Named(s[1]).value], 2)
    else if s[1] == LETTER_X && |s| > 3 && TwoCharacters(s[2], s[3]).Some? then ([TwoCharacters(s[2], s[3]).value], 4)
    else ([BACKSLASH, s[1]], 2)
  }

  function Unescaped(s: seq<Byte>): (r: seq<Byte>)
    ensures |r| <= |s|
    decreases |s|
  {
    if s == [] then [] else First(s).0 + Unescaped(s[First(s).1..])
  }

  // ---------- in place ----------

  lemma {:induction false} UnescapedStep(text: seq<Byte>, i: nat, out: seq<Byte>)
    requires i < |text|
    ensures var (bytes, n) := First(text[i..]);
            out + Unescaped(text[i..]) == out + bytes + Unescaped(text[i + n..])
  {
    hide First;
    var (bytes, n) := First(text[i..]);
    assert text[i..][n..] == text[i + n..];
    assert out + (bytes + Unescaped(text[i + n..])) == out + bytes + Unescaped(text[i + n..]);
  }

  /** The escapes are replaced in the buffer itself: writing never overtakes reading, so the first `length` bytes
      become the unescaped text, as if it had been built apart. */
  method ProcessEscapes(input: array<Byte>) returns (length: nat)
    modifies input
    ensures length <= input.Length && input[..length] == Unescaped(old(input[..]))
  {
    hide Unescaped, Named, TwoCharacters;
    ghost var text := input[..];
    var inputLen, inputIdx, outputIdx := input.Length, 0, 0;
    assert text[0..] == text;
    while inputIdx < inputLen
      invariant outputIdx <= inputIdx <= inputLen
      invariant forall k :: inputIdx <= k < inputLen ==> input[k] == text[k]
      invariant input[..outputIdx] + Unescaped(text[inputIdx..]) == Unescaped(text)
    {
      ghost var start, out := inputIdx, input[..outputIdx];
      UnescapedStep(text, start, out);
      FirstAt(text, start);
      if input[inputIdx] == BACKSLASH && inputIdx + 1 < inputLen {
        inputIdx := inputIdx + 1;
        var named := Named(input[inputIdx]);
        var value: Option<Byte> := None;
        if named.None? && input[inputIdx] == LETTER_X && inputIdx + 2 < inputLen {
          value := TwoCharacters(input[inputIdx + 1], input[inputIdx + 2]);
        }
        if named.Some? {
          input[outputIdx] := named.value;
          outputIdx := outputIdx + 1;
          assert input[..outputIdx] == out + [named.value];
        } else if value.Some? {
          inputIdx := inputIdx + 2;
          input[outputIdx] := value.value;
          outputIdx := outputIdx + 1;
          assert input[..outputIdx] == out + [value.value];
        } else {
          input[outputIdx] := BACKSLASH;
          outputIdx := outputIdx + 1;
          input[outputIdx] := input[inputIdx];
          outputIdx := outputIdx + 1;
          assert input[..outputIdx] == out + [BACKSLASH, text[inputIdx]];
        }
      } else {
        input[outputIdx] := input[inputIdx];
        outputIdx := outputIdx + 1;
        assert input[..outputIdx] == out + [text[inputIdx]];
      }
      inputIdx := inputIdx + 1;
    }
    assert text[inputIdx..] == [];
    NothingUnescaped();
    assert input[..outputIdx] + [] == input[..outputIdx];
    length := outputIdx;
  }

  lemma {:induction false} NothingUnescaped()
    ensures Unescaped([]) == []
  {
  }

  lemma {:induction false} FirstAt(text: seq<Byte>, i: nat)
    requires i < |text|
    ensures First(text[i..]) ==
            if text[i] != BACKSLASH || i + 1 == |text| then ([text[i]], 1)
            else if Named(text[i + 1]).Some? then ([Named(text[i + 1]).value], 2)
            else if text[i + 1] == LETTER_X && i + 3 < |text| && TwoCharacters(text[i + 2], text[i + 3]).Some? then
              ([TwoCharacters(text[i + 2], text[i + 3]).value], 4)
            else ([BACKSLASH, text[i + 1]], 2)
  {
    hide Named, TwoCharacters;
    var s := text[i..];
    assert forall k :: 0 <= k < |s| ==> s[k] == text[i + k];
  }

  // ---------- an inverse ----------

  /** Whether a byte is written in hexadecimal, and whether its two digits are then capitals. */
  datatype Form = Plain | Hex(capital: bool, capital2: bool)

  function HexDigit(v: nat, capital: bool): (c: Byte)
    requires v < 16
  {
    if v < 10 then 48 + v else (if capital then 65 else 97) + (v - 10)
  }

  /** How a byte is written: named where there is a name, in hexadecimal if asked for, and as itself otherwise. */
  function Written(b: Byte, form: Form): (r: seq<Byte>)
  {
    match b
    case 10 => [BACKSLASH, 110]
    case 13 => [BACKSLASH, 114]
    case 9 => [BACKSLASH, 116]
    case 39 => [BACKSLASH, 39]
    case 34 => [BACKSLASH, 34]
    case 92 => [BACKSLASH, 92]
    case _ =>
      if form.Hex? then [BACKSLASH, LETTER_X, HexDigit(b / 16, form.capital), HexDigit(b % 16, form.capital2)] else [b]
  }

  function Escaped(s: seq<Byte>, forms: seq<Form>): (r: seq<Byte>)
    requires |forms| == |s|
  {
    if s == [] then [] else Written(s[0], forms[0]) + Escaped(s[1..], forms[1..])
  }

  lemma {:induction false} HexBack(v: nat, capital: bool)
    requires v < 16
    ensures HexValue(HexDigit(v, capital)) == Some(v)
  {
  }

  lemma {:induction false} FirstWritten(b: Byte, form: Form, rest: seq<Byte>)
    ensures First(Written(b, form) + rest) == ([b], |Written(b, form)|)
  {
    var s := Written(b, form) + rest;
    assert forall k :: 0 <= k < |Written(b, form)| ==> s[k] == Written(b, form)[k];
    if form.Hex? {
      HexBack(b / 16, form.capital);
      HexBack(b % 16, form.capital2);
    }
  }

  /** Processing the escapes of an escaped text gives the text, whichever bytes were written in hexadecimal,
    in small letters or
      capitals. */
  lemma {:induction false} RoundTrip(s: seq<Byte>, forms: seq<Form>)
    requires |forms| == |s|
    ensures Unescaped(Escaped(s, forms)) == s
    decreases |s|
  {
    hide First, Written;
    if s != [] {
      var rest := Escaped(s[1..], forms[1..]);
      FirstWritten(s[0], forms[0], rest);
      assert (Written(s[0], forms[0]) + rest)[|Written(s[0], forms[0])|..] == rest;
      RoundTrip(s[1..], forms[1..]);
      WrittenSomething(s[0], forms[0]);
    }
  }

  lemma {:induction false} WrittenSomething(b: Byte, form: Form)
    ensures Written(b, form) != []
  {
  }

  /** A backslash before a named letter or mark, or before an x and two characters `strtol` reads. */
  predicate EscapeAt(s: seq<Byte>, i: nat)
    requires i < |s|
  {
    s[i] == BACKSLASH && i + 1 < |s| &&
    (Named(s[i + 1]).Some? || (s[i + 1] == LETTER_X && i + 3 < |s| && TwoCharacters(s[i + 2], s[i + 3]).Some?))
  }

  predicate Inert(s: seq<Byte>)
  {
    forall i :: 0 <= i < |s| ==> !EscapeAt(s, i)
  }

  /** A text is left alone if and only if none of its backslashes introduces an escape. */
  lemma {:induction false} Unchanged(s: seq<Byte>)
    ensures Unescaped(s) == s <==> Inert(s)
    decreases |s|
  {
    hide First, Inert;
    if s == [] {
      NothingUnescaped();
      NothingInert();
    } else {
      var (bytes, n) := First(s);
      Unchanged(s[n..]);
      InertStep(s);
      assert s == s[..n] + s[n..];
      if Unescaped(s) == s {
        assert |bytes| == n;
        assert Unescaped(s)[..n] == bytes && Unescaped(s)[n..] == Unescaped(s[n..]);
      }
    }
  }

  lemma {:induction false} NothingInert()
    ensures Inert([])
  {
  }

  lemma {:induction false} InertStep(s: seq<Byte>)
    requires s != []
    ensures Inert(s) <==> First(s).0 == s[..First(s).1] && Inert(s[First(s).1..])
  {
    hide Named, TwoCharacters, EscapeAt;
    var n := First(s).1;
    FirstKeeps(s);
    InertFrom(s, n);
    if First(s).0 != s[..n] { assert EscapeAt(s, 0); }
  }

  /** The first thing a text says is what it writes exactly if no escape starts there; then none starts before the
      next thing either, because a backslash is itself named. */
  lemma {:induction false} FirstKeeps(s: seq<Byte>)
    requires s != []
    ensures First(s).0 == s[..First(s).1] <==> !EscapeAt(s, 0)
    ensures !EscapeAt(s, 0) ==> forall i :: 0 <= i < First(s).1 ==> !EscapeAt(s, i)
  {
    if s[0] == BACKSLASH && |s| > 1 && !EscapeAt(s, 0) {
      assert Named(s[1]).None? && s[1] != BACKSLASH;
      assert s[..2] == [BACKSLASH, s[1]];
    }
  }

  lemma {:induction false} InertFrom(s: seq<Byte>, n: nat)
    requires n <= |s|
    ensures Inert(s) <==> Inert(s[n..]) && forall i :: 0 <= i < n ==> !EscapeAt(s, i)
  {
    hide Named, TwoCharacters;
    assert forall i :: 0 <= i < |s| - n ==> EscapeAt(s[n..], i) == EscapeAt(s, i + n);
    if Inert(s[n..]) && forall i :: 0 <= i < n ==> !EscapeAt(s, i) {
      forall i | 0 <= i < |s|
        ensures !EscapeAt(s, i)
      {
        if i >= n { assert !EscapeAt(s[n..], i - n); }
      }
    }
  }
}
