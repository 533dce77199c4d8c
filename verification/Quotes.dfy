/** `normalize_quotes_to_json` and `json_brace_depth`: Python-style values turned into JSON text while the text
    is still growing, and the scanner that counts open braces. */
module Quotes {
  import opened Text

  /** Which quotes the scanner is between. */
  datatype Mode = Outside | Single | Double

  predicate IsWord(c: char) { IsAlnum(c) || c == '_' }

  /** The length of the word `s` starts with. */
  function WordLength(s: string): (n: nat)
    ensures n <= |s|
  {
    if s == "" || !IsWord(s[0]) then 0 else 1 + WordLength(s[1..])
  }

  predicate IsLiteralStart(c: char) { c == 'T' || c == 'F' || c == 'N' }

  /** The JSON spelling of a word that is a prefix of a Python literal, or the word's own first character. */
  function Literal(word: string): (r: string)
    requires word != ""
    ensures r != ""
    ensures r == [word[0]] || |r| == |word|
  {
    if word <= "True" then "true"[..|word|]
    else if word <= "False" then "false"[..|word|]
    else if word <= "None" then "null"[..|word|]
    else [word[0]]
  }

  /** How many characters `Literal` consumes. */
  function LiteralLength(word: string): (n: nat)
    requires word != ""
    ensures 1 <= n <= |word|
  {
    if word <= "True" || word <= "False" || word <= "None" then |word| else 1
  }

  /** One turn of the loop on the text still to be read: the output, the characters consumed and the new mode.
      `afterWord` tells whether the character before `s` is a word character. */
  function Turn(s: string, mode: Mode, afterWord: bool): (r: (string, nat, Mode))
    requires s != ""
    ensures 1 <= r.1 <= |s| && r.0 != ""
  {
    var c := s[0];
    if c == '\\' && |s| > 1 then
      if mode == Single then
        (if s[1] == '\'' then "'" else if s[1] == '"' then "\\\"" else [c, s[1]], 2, mode)
      else if mode == Double then ([c, s[1]], 2, mode)
      else ([c], 1, mode)
    else if c == '"' then
      if mode == Single then ("\\\"", 1, mode) else ([c], 1, if mode == Double then Outside else Double)
    else if c == '\'' then
      if mode == Double then ([c], 1, mode) else ("\"", 1, if mode == Single then Outside else Single)
    else if mode == Outside && IsLiteralStart(c) && !afterWord then
      var word := s[..if WordLength(s) == 0 then 1 else WordLength(s)];
      (Literal(word), LiteralLength(word), mode)
    else ([c], 1, mode)
  }

  /** The normalised form of the text from a state of the scanner on. */
  function Normalize(s: string, mode: Mode, afterWord: bool): (r: string)
    decreases |s|
  {
    if s == "" then ""
    else
      var (out, n, mode') := Turn(s, mode, afterWord);
      out + Normalize(s[n..], mode', IsWord(s[n - 1]))
  }

  /** `normalize_quotes_to_json`. */
  function NormalizeAll(input: string): (r: string) { Normalize(input, Outside, false) }

  method NormalizeQuotesToJson(input: string) returns (result: string)
    ensures result == NormalizeAll(input)
  {
    hide Normalize, Literal, LiteralLength;
    result := "";
    var inSingleQuoted, inDoubleQuoted := false, false;
    var i := 0;
    while i < |input|
      invariant 0 <= i <= |input|
      invariant !(inSingleQuoted && inDoubleQuoted)
      invariant result + Normalize(input[i..], ModeOf(inSingleQuoted, inDoubleQuoted), i > 0 && IsWord(input[i - 1])) ==
                NormalizeAll(input)
    {
      ghost var mode, at, before := ModeOf(inSingleQuoted, inDoubleQuoted), i, result;
      ghost var afterWord := i > 0 && IsWord(input[i - 1]);
      ghost var turn := Turn(input[i..], mode, afterWord);
      NormalizeStep(input, i, mode, afterWord, result);
      var c := input[i];
      if c == '\\' && i + 1 < |input| {
        var next := input[i + 1];
        if inSingleQuoted {
          result := result + if next == '\'' then "'" else if next == '"' then "\\\"" else [c, next];
          i := i + 2;
        } else if inDoubleQuoted {
          result := result + [c, next];
          i := i + 2;
        } else {
          result := result + [c];
          i := i + 1;
        }
      } else if c == '"' {
        if inSingleQuoted {
          result := result + "\\\"";
        } else {
          inDoubleQuoted := !inDoubleQuoted;
          result := result + [c];
        }
        i := i + 1;
      } else if c == '\'' {
        if inDoubleQuoted {
          result := result + [c];
        } else {
          inSingleQuoted := !inSingleQuoted;
          result := result + "\"";
        }
        i := i + 1;
      } else if !inSingleQuoted && !inDoubleQuoted && IsLiteralStart(c) && (i == 0 || !IsWord(input[i - 1])) {
        var n := WordAt(input, i);
        var word := input[i..i + n];
        assert word == input[i..][..n];
        result := result + Literal(word);
        i := i + LiteralLength(word);
      } else {
        result := result + [c];
        i := i + 1;
      }
      assert result == before + turn.0 && i == at + turn.1 && ModeOf(inSingleQuoted, inDoubleQuoted) == turn.2;
      assert input[at..][i - at..] == input[i..] && input[at..][i - at - 1] == input[i - 1];
    }
    assert input[i..] == "";
    NormalizeNothing(ModeOf(inSingleQuoted, inDoubleQuoted), i > 0 && IsWord(input[i - 1]));
  }

  lemma {:induction false} NormalizeNothing(mode: Mode, afterWord: bool)
    ensures Normalize("", mode, afterWord) == ""
  {
  }

  /** The inner loop: the length of the word at position `i`. */
  method WordAt(input: string, i: nat) returns (n: nat)
    requires i <= |input|
    ensures n == WordLength(input[i..]) && i + n <= |input|
  {
    n := 0;
    while i + n < |input| && IsWord(input[i + n])
      invariant i + n <= |input|
      invariant n + WordLength(input[i + n..]) == WordLength(input[i..])
    {
      assert input[i + n..][1..] == input[i + n + 1..];
      n := n + 1;
    }
  }

  function ModeOf(inSingleQuoted: bool, inDoubleQuoted: bool): (m: Mode)
  {
    if inSingleQuoted then Single else if inDoubleQuoted then Double else Outside
  }

  lemma {:induction false} NormalizeStep(input: string, i: nat, mode: Mode, afterWord: bool, before: string)
    requires i < |input|
    ensures var s := input[i..];
            var (out, n, mode') := Turn(s, mode, afterWord);
            before + Normalize(s, mode, afterWord) == before + out + Normalize(s[n..], mode', IsWord(s[n - 1]))
  {
    var s := input[i..];
    var (out, n, mode') := Turn(s, mode, afterWord);
    Associate(before, out, Normalize(s[n..], mode', IsWord(s[n - 1])));
  }

  // ---------- normalising twice ----------

  /** The mode in which the output of a mode is read again: all strings are double-quoted by then. */
  function Reread(mode: Mode): (m: Mode) { if mode == Single then Double else mode }

  /** One turn peeled off a text that starts with `out`. */
  lemma {:induction false} NormalizeTurn(out: string, t: string, mode: Mode, afterWord: bool, mode': Mode)
    requires out != "" && Turn(out + t, mode, afterWord) == (out, |out|, mode')
    ensures Normalize(out + t, mode, afterWord) == out + Normalize(t, mode', IsWord(out[|out| - 1]))
  {
    assert (out + t)[|out|..] == t && (out + t)[|out| - 1] == out[|out| - 1];
  }

  predicate Lowercase(s: string) { forall i :: 0 <= i < |s| ==> 'a' <= s[i] <= 'z' }

  lemma {:induction false} LowercaseKept(out: string, t: string, afterWord: bool)
    requires Lowercase(out)
    ensures Normalize(out + t, Outside, afterWord) ==
            out + Normalize(t, Outside, if out == "" then afterWord else true)
  {
    if out == "" {
      assert out + t == t;
    } else {
      assert out + t == [out[0]] + (out[1..] + t);
      NormalizeTurn([out[0]], out[1..] + t, Outside, afterWord, Outside);
      LowercaseKept(out[1..], t, true);
      assert out == [out[0]] + out[1..];
      Associate([out[0]], out[1..], Normalize(t, Outside, true));
    }
  }

  /** Inside a word nothing is rewritten, so the output continues the word with the same characters. */
  lemma {:induction false} WordKept(s: string)
    ensures var t := Normalize(s, Outside, true);
            WordLength(t) == WordLength(s) && t[..WordLength(s)] == s[..WordLength(s)]
  {
    if s == "" {
      NormalizeNothing(Outside, true);
    } else {
      var t := Normalize(s, Outside, true);
      var (out, n, mode') := Turn(s, Outside, true);
      if IsWord(s[0]) {
        WordKept(s[1..]);
        WordKeptStep(s);
      } else {
        assert t[0] == out[0] && !IsWord(out[0]);
      }
    }
  }

  lemma {:induction false} WordKeptStep(s: string)
    requires s != "" && IsWord(s[0])
    requires var t := Normalize(s[1..], Outside, true);
             WordLength(t) == WordLength(s[1..]) && t[..WordLength(s[1..])] == s[1..][..WordLength(s[1..])]
    ensures var t := Normalize(s, Outside, true);
            WordLength(t) == WordLength(s) && t[..WordLength(s)] == s[..WordLength(s)]
  {
    hide WordLength;
    var rest := Normalize(s[1..], Outside, true);
    PlainTurn(s);
    hide Normalize;
    WordCons(s[0], rest);
    WordCons(s[0], s[1..]);
    assert s == [s[0]] + s[1..];
  }

  lemma {:induction false} PlainTurn(s: string)
    requires s != "" && IsWord(s[0])
    ensures Normalize(s, Outside, true) == [s[0]] + Normalize(s[1..], Outside, true)
  {
    assert Turn(s, Outside, true) == ([s[0]], 1, Outside);
  }

  lemma {:induction false} WordCons(c: char, r: string)
    requires IsWord(c)
    ensures WordLength([c] + r) == 1 + WordLength(r)
    ensures ([c] + r)[..1 + WordLength(r)] == [c] + r[..WordLength(r)]
  {
    assert ([c] + r)[1..] == r;
  }

  lemma {:induction false} LiteralLowercase(word: string)
    requires word != "" && LiteralLength(word) == |word| && (word <= "True" || word <= "False" || word <= "None")
    ensures Lowercase(Literal(word))
  {
  }

  /** The turn's output, read again in front of the rest of the output, is reproduced. */
  lemma {:induction false} TurnKept(s: string, mode: Mode, afterWord: bool, afterWord': bool) returns (w: bool)
    requires s != "" && (mode == Outside ==> afterWord' == afterWord)
    ensures var (out, n, mode') := Turn(s, mode, afterWord);
            var t := Normalize(s[n..], mode', IsWord(s[n - 1]));
            (mode' == Outside ==> w == IsWord(s[n - 1])) &&
            Normalize(out + t, Reread(mode), afterWord') == out + Normalize(t, Reread(mode'), w)
  {
    hide Normalize;
    var (out, n, mode') := Turn(s, mode, afterWord);
    var t := Normalize(s[n..], mode', IsWord(s[n - 1]));
    if mode == Outside && IsLiteralStart(s[0]) && !afterWord {
      LiteralKept(s);
      w := true;
    } else {
      if s[n..] == "" { NormalizeNothing(mode', IsWord(s[n - 1])); }
      PlainTurnKept(s, mode, afterWord, afterWord', t);
      NormalizeTurn(out, t, Reread(mode), afterWord', Reread(mode'));
      w := IsWord(out[|out| - 1]);
    }
  }

  lemma {:induction false} PlainTurnKept(s: string, mode: Mode, afterWord: bool, afterWord': bool, t: string)
    requires s != "" && (mode == Outside ==> afterWord' == afterWord)
    requires !(mode == Outside && IsLiteralStart(s[0]) && !afterWord)
    requires s[Turn(s, mode, afterWord).1..] == "" ==> t == ""
    ensures var (out, n, mode') := Turn(s, mode, afterWord);
            Turn(out + t, Reread(mode), afterWord') == (out, |out|, Reread(mode')) &&
            (mode' == Outside ==> IsWord(out[|out| - 1]) == IsWord(s[n - 1]))
  {
    var (out, n, mode') := Turn(s, mode, afterWord);
    assert (out + t)[0] == out[0];
    if |out| > 1 { assert (out + t)[1] == out[1]; }
  }

  lemma {:induction false} LiteralKept(s: string)
    requires s != "" && IsLiteralStart(s[0])
    ensures var (out, n, mode') := Turn(s, Outside, false);
            var t := Normalize(s[n..], Outside, IsWord(s[n - 1]));
            mode' == Outside && IsWord(s[n - 1]) &&
              Normalize(out + t, Outside, false) == out + Normalize(t, Outside, true)
  {
    hide Normalize;
    var word := s[..WordLength(s)];
    var (out, n, mode') := Turn(s, Outside, false);
    WordChars(s, n - 1);
    var t := Normalize(s[n..], Outside, true);
    if word <= "True" || word <= "False" || word <= "None" {
      LiteralLowercase(word);
      LowercaseKept(out, t, false);
    } else {
      WordKept(s[1..]);
      var s' := out + t;
      assert s'[1..] == t && WordLength(s') == WordLength(s) && s'[..WordLength(s)] == word;
      NormalizeTurn(out, t, Outside, false, Outside);
    }
  }

  lemma {:induction false} WordChars(s: string, i: nat)
    requires i < WordLength(s)
    ensures IsWord(s[i])
  {
    if i > 0 { WordChars(s[1..], i - 1); }
  }

  lemma {:induction false} Idempotent(s: string, mode: Mode, afterWord: bool, afterWord': bool)
    requires mode == Outside ==> afterWord' == afterWord
    ensures Normalize(Normalize(s, mode, afterWord), Reread(mode), afterWord') == Normalize(s, mode, afterWord)
    decreases |s|
  {
    if s == "" {
      NormalizeNothing(mode, afterWord);
      NormalizeNothing(Reread(mode), afterWord');
    } else {
      hide Normalize, Turn, WordLength, IsWord, Reread;
      var (out, n, mode') := Turn(s, mode, afterWord);
      OneTurn(s, mode, afterWord, n);
      var w := TurnKept(s, mode, afterWord, afterWord');
      var more := IsWord(s[n - 1]);
      Idempotent(s[n..], mode', more, w);
      var t := Normalize(s[n..], mode', more);
      assert Normalize(s, mode, afterWord) == out + t && Normalize(t, Reread(mode'), w) == t;
    }
  }

  /** Normalising a normalised text changes nothing. */
  lemma {:induction false} NormalizeTwice(input: string)
    ensures NormalizeAll(NormalizeAll(input)) == NormalizeAll(input)
  {
    Idempotent(input, Outside, false, false);
  }

  // ---------- counting braces (lines 41-67) ----------

  /** `json_brace_depth` from a state of the scanner on. */
  function DepthFrom(s: string, inString: bool, escaped: bool): (d: int)
  {
    if s == "" then 0
    else if escaped then DepthFrom(s[1..], inString, false)
    else if s[0] == '\\' && inString then DepthFrom(s[1..], inString, true)
    else if s[0] == '"' then DepthFrom(s[1..], !inString, false)
    else
      (if inString then 0 else if s[0] == '{' then 1 else if s[0] == '}' then -1 else 0) +
      DepthFrom(s[1..], inString, false)
  }

  function BraceDepth(s: string): (d: int) { DepthFrom(s, false, false) }

  method JsonBraceDepth(s: string) returns (depth: int)
    ensures depth == BraceDepth(s)
  {
    depth := 0;
    var inString, escaped := false, false;
    for i := 0 to |s|
      invariant depth + DepthFrom(s[i..], inString, escaped) == BraceDepth(s)
    {
      var c := s[i];
      assert s[i..][1..] == s[i + 1..];
      if escaped {
        escaped := false;
      } else if c == '\\' && inString {
        escaped := true;
      } else if c == '"' {
        inString := !inString;
      } else if !inString {
        if c == '{' {
          depth := depth + 1;
        } else if c == '}' {
          depth := depth - 1;
        }
      }
    }
  }

  /** Opening minus closing braces outside strings, in a text whose strings may have either kind of quote. */
  function OutsideBraces(s: string, mode: Mode): (d: int)
    decreases |s|
  {
    if s == "" then 0
    else if mode == Outside then
      (if s[0] == '{' then 1 else if s[0] == '}' then -1 else 0) +
      OutsideBraces(s[1..], if s[0] == '"' then Double else if s[0] == '\'' then Single else Outside)
    else if s[0] == '\\' && |s| > 1 then OutsideBraces(s[2..], mode)
    else OutsideBraces(s[1..], if s[0] == (if mode == Single then '\'' else '"') then Outside else mode)
  }

  lemma {:induction false} WordBraces(s: string, n: nat)
    requires n <= WordLength(s)
    ensures OutsideBraces(s, Outside) == OutsideBraces(s[n..], Outside)
  {
    if n > 0 { WordBraces(s[1..], n - 1); }
  }

  lemma {:induction false} LowercaseDepth(out: string, t: string)
    requires Lowercase(out)
    ensures DepthFrom(out + t, false, false) == DepthFrom(t, false, false)
  {
    if out == "" {
      assert out + t == t;
    } else {
      assert (out + t)[1..] == out[1..] + t;
      LowercaseDepth(out[1..], t);
    }
  }

  /** One turn counts the same braces on both sides. */
  lemma {:induction false} TurnBraces(s: string, mode: Mode, afterWord: bool, t: string)
    requires s != "" && (s[Turn(s, mode, afterWord).1..] == "" ==> t == "")
    ensures var (out, n, mode') := Turn(s, mode, afterWord);
            DepthFrom(out + t, mode != Outside, false) - DepthFrom(t, mode' != Outside, false) ==
            OutsideBraces(s, mode) - OutsideBraces(s[n..], mode')
  {
    var (out, n, mode') := Turn(s, mode, afterWord);
    if mode == Outside && IsLiteralStart(s[0]) && !afterWord {
      LiteralBraces(s, t);
    } else {
      assert (out + t)[0] == out[0];
      if |out| == 1 {
        assert (out + t)[1..] == t;
      } else {
        assert (out + t)[1..][0] == out[1] && (out + t)[1..][1..] == t;
      }
    }
  }

  lemma {:induction false} LiteralBraces(s: string, t: string)
    requires s != "" && IsLiteralStart(s[0])
    ensures var (out, n, mode') := Turn(s, Outside, false);
            DepthFrom(out + t, false, false) == DepthFrom(t, false, false) &&
            OutsideBraces(s, Outside) == OutsideBraces(s[n..], mode')
  {
    hide DepthFrom, OutsideBraces;
    var word := s[..WordLength(s)];
    var (out, n, mode') := Turn(s, Outside, false);
    WordBraces(s, n);
    if word <= "True" || word <= "False" || word <= "None" {
      LiteralLowercase(word);
      LowercaseDepth(out, t);
    } else {
      PlainDepth(s[0], t);
    }
  }

  lemma {:induction false} PlainDepth(c: char, t: string)
    requires IsWord(c)
    ensures DepthFrom([c] + t, false, false) == DepthFrom(t, false, false)
  {
    assert ([c] + t)[1..] == t;
  }

  lemma {:induction false} NormalizedBraces(s: string, mode: Mode, afterWord: bool)
    ensures DepthFrom(Normalize(s, mode, afterWord), mode != Outside, false) == OutsideBraces(s, mode)
    decreases |s|
  {
    if s != "" {
      hide Turn, DepthFrom, OutsideBraces;
      var (out, n, mode') := Turn(s, mode, afterWord);
      if s[n..] == "" { NormalizeNothing(mode', IsWord(s[n - 1])); }
      TurnBraces(s, mode, afterWord, Normalize(s[n..], mode', IsWord(s[n - 1])));
      NormalizedBraces(s[n..], mode', IsWord(s[n - 1]));
    }
  }

  /** The brace depth of the normalised text is the balance of braces outside the strings of the input. */
  lemma {:induction false} NormalizedDepth(input: string)
    ensures BraceDepth(NormalizeAll(input)) == OutsideBraces(input, Outside)
  {
    NormalizedBraces(input, Outside, false);
  }

  // ---------- growing input ----------

  predicate IsLiteralPrefix(word: string) { word <= "True" || word <= "False" || word <= "None" }

  /** What the end of `s` leaves open: a backslash inside a single-quoted string, or a word outside strings that
      has been rewritten as the beginning of a literal. */
  function OpenTail(s: string, mode: Mode, afterWord: bool): (r: (Mode, string))
    decreases |s|
  {
    if s == "" then (mode, "")
    else if mode == Single && s == "\\" then (mode, s)
    else if mode == Outside && !afterWord && IsLiteralStart(s[0]) && WordLength(s) == |s| && IsLiteralPrefix(s) then
      (mode, s)
    else
      var (out, n, mode') := Turn(s, mode, afterWord);
      OpenTail(s[n..], mode', IsWord(s[n - 1]))
  }

  /** Whether `more` continues what is left open the way it has been printed: the backslash does not turn out to
      escape a single quote, and the word remains a prefix of a literal. */
  predicate Continues(open: (Mode, string), more: string)
  {
    open.1 == "" || more == "" ||
    if open.0 == Single then more[0] != '\'' else IsLiteralPrefix(open.1 + more[..WordLength(more)])
  }

  /** The cut between `s` and the rest of `t` is one the output survives. */
  predicate CleanCut(s: string, t: string)
    requires s <= t
  {
    Continues(OpenTail(s, Outside, false), t[|s|..])
  }

  lemma {:induction false} WordAppend(s: string, more: string)
    ensures WordLength(s + more) == if WordLength(s) == |s| then |s| + WordLength(more) else WordLength(s)
  {
    if s == "" {
      assert s + more == more;
    } else if IsWord(s[0]) {
      assert (s + more)[1..] == s[1..] + more;
      WordAppend(s[1..], more);
    }
  }

  predicate Opens(s: string, mode: Mode, afterWord: bool)
  {
    (mode == Single && s == "\\") ||
    (s != "" && mode == Outside && !afterWord && IsLiteralStart(s[0]) && WordLength(s) == |s| && IsLiteralPrefix(s))
  }

  /** A turn that leaves nothing open does not look at what follows. */
  lemma {:induction false} TurnStable(s: string, mode: Mode, afterWord: bool, more: string)
    requires s != "" && !Opens(s, mode, afterWord) && !(mode == Double && s == "\\")
    ensures var (out, n, mode') := Turn(s, mode, afterWord);
            Turn(s + more, mode, afterWord) == (out, n, mode')
  {
    if mode == Outside && IsLiteralStart(s[0]) && !afterWord {
      WordAppend(s, more);
      var w := WordLength(s);
      assert s[..w] == (s + more)[..w];
      if w == |s| {
        assert (s + more)[..WordLength(s + more)][..w] == s[..w];
      }
    } else {
      assert (s + more)[0] == s[0];
      if |s| > 1 { assert (s + more)[1] == s[1]; }
    }
  }

  lemma {:induction false} BackslashGrows(more: string, mode: Mode, afterWord: bool)
    requires mode != Outside && more != ""
    ensures Normalize("\\", mode, afterWord) == "\\"
    ensures "\\" <= Normalize("\\" + more, mode, afterWord) <==> mode == Double || more[0] != '\''
  {
    var s := "\\" + more;
    assert s[0] == '\\' && s[1] == more[0] && "\\"[1..] == "";
    NormalizeNothing(mode, false);
    var (out, n, mode') := Turn(s, mode, afterWord);
    assert Normalize(s, mode, afterWord)[0] == out[0];
  }

  lemma {:induction false} WordGrows(s: string, more: string)
    requires s != "" && IsLiteralStart(s[0]) && WordLength(s) == |s| && IsLiteralPrefix(s)
    ensures Normalize(s, Outside, false) <= Normalize(s + more, Outside, false) <==>
            IsLiteralPrefix(s + more[..WordLength(more)])
  {
    var word := s + more[..WordLength(more)];
    WordAppend(s, more);
    assert (s + more)[..WordLength(s + more)] == word && s[..|s|] == s;
    NormalizeNothing(Outside, IsWord(s[|s| - 1]));
    assert s[|s|..] == "";
    assert Normalize(s, Outside, false) == Literal(s);
    var (out, n, mode') := Turn(s + more, Outside, false);
    assert out == Literal(word);
    LiteralGrows(s, word);
    assert Normalize(s + more, Outside, false)[0] == out[0];
    if IsLiteralPrefix(word) {
      assert out <= Normalize(s + more, Outside, false);
    }
  }

  lemma {:induction false} LiteralGrows(s: string, word: string)
    requires s != "" && s <= word && IsLiteralPrefix(s) && IsLiteralStart(s[0])
    ensures IsLiteralPrefix(word) ==> Literal(s) <= Literal(word)
    ensures !IsLiteralPrefix(word) ==> Literal(s)[0] != Literal(word)[0]
  {
    assert s[0] == word[0];
  }

  lemma {:induction false} OpenTailStep(s: string, mode: Mode, afterWord: bool)
    requires s != ""
    ensures OpenTail(s, mode, afterWord) ==
            if Opens(s, mode, afterWord) then (mode, s)
            else
              var (out, n, mode') := Turn(s, mode, afterWord);
              OpenTail(s[n..], mode', IsWord(s[n - 1]))
  {
    hide Turn;
  }

  lemma {:induction false} OpenGrows(s: string, mode: Mode, afterWord: bool, more: string)
    requires more != "" && (Opens(s, mode, afterWord) || (s == "\\" && mode == Double))
    ensures Normalize(s, mode, afterWord) <= Normalize(s + more, mode, afterWord) <==>
            Continues(OpenTail(s, mode, afterWord), more)
  {
    hide Normalize, IsLiteralPrefix, OpenTail;
    OpenTailStep(s, mode, afterWord);
    if s == "\\" {
      BackslashGrows(more, mode, afterWord);
      assert s[1..] == "";
      OpenNothing(mode, IsWord(s[0]));
    } else {
      WordGrows(s, more);
    }
  }

  lemma {:induction false} OpenNothing(mode: Mode, afterWord: bool)
    ensures OpenTail("", mode, afterWord) == (mode, "")
  {
  }

  lemma {:induction false} NormalizeGrows(s: string, mode: Mode, afterWord: bool, more: string)
    ensures Normalize(s, mode, afterWord) <= Normalize(s + more, mode, afterWord) <==>
            Continues(OpenTail(s, mode, afterWord), more)
    decreases |s|
  {
    hide Turn, Normalize, Opens, OpenTail, Continues;
    if s == "" {
      EmptyGrows(mode, afterWord, more);
    } else if more == "" {
      assert s + more == s;
      NothingMore(OpenTail(s, mode, afterWord));
    } else if Opens(s, mode, afterWord) || (s == "\\" && mode == Double) {
      OpenGrows(s, mode, afterWord, more);
    } else {
      var (out, n, mode') := Turn(s, mode, afterWord);
      NormalizeGrows(s[n..], mode', IsWord(s[n - 1]), more);
      StableGrows(s, mode, afterWord, more);
    }
  }

  lemma {:induction false} NothingMore(open: (Mode, string))
    ensures Continues(open, "")
  {
  }

  lemma {:induction false} EmptyGrows(mode: Mode, afterWord: bool, more: string)
    ensures Normalize("", mode, afterWord) == "" && Continues(OpenTail("", mode, afterWord), more)
  {
  }

  lemma {:induction false} StableGrows(s: string, mode: Mode, afterWord: bool, more: string)
    requires s != "" && !Opens(s, mode, afterWord) && !(s == "\\" && mode == Double)
    requires var (out, n, mode') := Turn(s, mode, afterWord);
             Normalize(s[n..], mode', IsWord(s[n - 1])) <= Normalize(s[n..] + more, mode', IsWord(s[n - 1])) <==>
             Continues(OpenTail(s[n..], mode', IsWord(s[n - 1])), more)
    ensures Normalize(s, mode, afterWord) <= Normalize(s + more, mode, afterWord) <==>
            Continues(OpenTail(s, mode, afterWord), more)
  {
    hide Turn, Continues, Opens, OpenTail;
    OpenTailStep(s, mode, afterWord);
    TurnStable(s, mode, afterWord, more);
    var (out, n, mode') := Turn(s, mode, afterWord);
    assert (s + more)[n..] == s[n..] + more && (s + more)[n - 1] == s[n - 1];
    PrefixAppend(out, Normalize(s[n..], mode', IsWord(s[n - 1])), Normalize(s[n..] + more, mode', IsWord(s[n - 1])));
  }

  /** A growing input gives a growing output exactly when the cut is clean. */
  lemma {:induction false} NormalizeMonotone(s: string, t: string)
    requires s <= t
    ensures NormalizeAll(s) <= NormalizeAll(t) <==> CleanCut(s, t)
  {
    assert t == s + t[|s|..];
    NormalizeGrows(s, Outside, false, t[|s|..]);
  }

  lemma {:induction false} OneTurn(s: string, mode: Mode, afterWord: bool, n: nat)
    requires s != "" && n == Turn(s, mode, afterWord).1
    ensures Normalize(s, mode, afterWord) ==
            Turn(s, mode, afterWord).0 + Normalize(s[n..], Turn(s, mode, afterWord).2, IsWord(s[n - 1]))
  {
    hide Turn;
  }

  /** A backslash cut from its single quote, and a word cut where it still looks like `True`: neither output grows. */
  lemma {:induction false} OutputShrinks()
    ensures NormalizeAll("'\\") == "\"\\" && NormalizeAll("'\\'") == "\"'"
    ensures NormalizeAll("T") == "t" && NormalizeAll("Tx") == "Tx"
  {
    hide Normalize;
    NormalizeNothing(Single, false);
    OneTurn("'\\", Outside, false, 1);
    assert "'\\"[1..] == "\\" && "\\"[1..] == "";
    OneTurn("\\", Single, false, 1);
    OneTurn("'\\'", Outside, false, 1);
    assert "'\\'"[1..] == "\\'" && "\\'"[2..] == "";
    OneTurn("\\'", Single, false, 2);
    WordCut();
  }

  lemma {:induction false} WordCut()
    ensures NormalizeAll("T") == "t" && NormalizeAll("Tx") == "Tx"
  {
    hide Normalize;
    NormalizeNothing(Outside, true);
    assert "T"[1..] == "" && "Tx"[1..] == "x" && "x"[1..] == "";
    assert WordLength("") == 0 && WordLength("x") == 1 && WordLength("T") == 1 && WordLength("Tx") == 2;
    assert "T"[..1] == "T" && "Tx"[..2] == "Tx" && "true"[..1] == "t";
    assert "T" <= "True" && "Tx"[1] != "True"[1] && !("Tx" <= "True");
    OneTurn("T", Outside, false, 1);
    OneTurn("Tx", Outside, false, 1);
    OneTurn("x", Outside, true, 1);
  }
}
