/** Base64 (sections 4 and 5 of RFC 4648): the encoder, the decoder with its three alphabets and two behaviours,
    and decoding in place. Shifts and masks are written as divisions and remainders, and the or of two disjoint
    bit fields as their sum. */
module Base64 {
  import opened Wrappers
  import opened Text

  type Byte = b: nat | b < 256

  type Sextet = v: nat | v < 64

  datatype Alphabet = Auto | Standard | UrlSafe

  datatype Behavior = Moderate | Loose

  datatype Error = InvalidCharacter

  const PAD: Byte := 61

  // ---------- the encoding as the standard describes it ----------

  /** The character of a 6-bit value. */
  function Symbol(a: Alphabet, v: Sextet): (c: Byte)
    ensures c != PAD
  {
    if v < 26 then 65 + v
    else if v < 52 then 97 + (v - 26)
    else if v < 62 then 48 + (v - 52)
    else if a.UrlSafe? then (if v == 62 then 45 else 95)
    else (if v == 62 then 43 else 47)
  }

  /** The 6-bit value of a character; `Auto` knows the characters both alphabets share. */
  function ValueOf(a: Alphabet, c: Byte): (v: Option<Sextet>)
  {
    if 65 <= c <= 90 then Some(c - 65)
    else if 97 <= c <= 122 then Some(c - 97 + 26)
    else if 48 <= c <= 57 then Some(c - 48 + 52)
    else if a.Standard? && c == 43 then Some(62)
    else if a.Standard? && c == 47 then Some(63)
    else if a.UrlSafe? && c == 45 then Some(62)
    else if a.UrlSafe? && c == 95 then Some(63)
    else None
  }

  const UPPER := "ABCDEFGHIJKLMNOPQRSTUVWXYZ"
  const LOWER := "abcdefghijklmnopqrstuvwxyz"

  /** The alphabets as the standard tabulates them (tables 1 and 2 of RFC 4648). */
  lemma {:induction false} SymbolsAre(v: Sextet)
    ensures |UPPER| == |LOWER| == 26 && |"0123456789+/"| == |"0123456789-_"| == 12
    ensures Symbol(Standard, v) as char ==
            if v < 26 then UPPER[v] else if v < 52 then LOWER[v - 26] else "0123456789+/"[v - 52]
    ensures Symbol(UrlSafe, v) as char ==
            if v < 26 then UPPER[v] else if v < 52 then LOWER[v - 26] else "0123456789-_"[v - 52]
  {
    if v < 26 { Capital(v); } else if v < 52 { Small(v - 26); }
  }

  lemma {:induction false} Capital(k: nat)
    requires k < 26
    ensures UPPER[k] == (65 + k) as char
  {
  }

  lemma {:induction false} Small(k: nat)
    requires k < 26
    ensures LOWER[k] == (97 + k) as char
  {
  }

  /** A 24-bit number, three bytes, cut into four values. */
  function Cut(b0: Byte, b1: Byte, b2: Byte): (vs: seq<Sextet>)
    ensures |vs| == 4
  {
    var n: nat := b0 * 65536 + b1 * 256 + b2;
    [n / 262144, n / 4096 % 64, n / 64 % 64, n % 64]
  }

  /** Groups of three bytes are cut into four values; a shorter last group is filled up with zero bytes, and only
      the values that hold some of its bits are kept. */
  function SextetsOf(bytes: seq<Byte>): (vs: seq<Sextet>)
  {
    if bytes == [] then []
    else if |bytes| == 1 then Cut(bytes[0], 0, 0)[..2]
    else if |bytes| == 2 then Cut(bytes[0], bytes[1], 0)[..3]
    else Cut(bytes[0], bytes[1], bytes[2]) + SextetsOf(bytes[3..])
  }

  function Padding(n: nat): (p: seq<Byte>)
  {
    if n % 3 == 0 then [] else if n % 3 == 1 then [PAD, PAD] else [PAD]
  }

  function Symbols(a: Alphabet, vs: seq<Sextet>): (text: seq<Byte>)
    ensures |text| == |vs|
    ensures forall i :: 0 <= i < |vs| ==> text[i] == Symbol(a, vs[i])
  {
    seq(|vs|, i requires 0 <= i < |vs| => Symbol(a, vs[i]))
  }

  function Encoded(bytes: seq<Byte>, a: Alphabet): (text: seq<Byte>)
  {
    Symbols(a, SextetsOf(bytes)) + Padding(|bytes|)
  }

  /** A 24-bit number, four values, cut into three bytes. */
  function Merge(v0: Sextet, v1: Sextet, v2: Sextet, v3: Sextet): (bytes: seq<Byte>)
    ensures |bytes| == 3
  {
    var n: nat := v0 * 262144 + v1 * 4096 + v2 * 64 + v3;
    [n / 65536, n / 256 % 256, n % 256]
  }

  /** Groups of four values are merged into three bytes; of a shorter last group the whole bytes are kept and the
      bits left over are dropped. */
  function BytesOf(vs: seq<Sextet>): (bytes: seq<Byte>)
  {
    if |vs| < 2 then []
    else if |vs| == 2 then Merge(vs[0], vs[1], 0, 0)[..1]
    else if |vs| == 3 then Merge(vs[0], vs[1], vs[2], 0)[..2]
    else Merge(vs[0], vs[1], vs[2], vs[3]) + BytesOf(vs[4..])
  }

  // ---------- what decoding accepts ----------

  /** The position of the first padding character. */
  function DataLength(text: seq<Byte>): (n: nat)
    ensures n <= |text|
    ensures forall i :: 0 <= i < n ==> text[i] != PAD
    ensures n < |text| ==> text[n] == PAD
  {
    if text == [] || text[0] == PAD then 0 else 1 + DataLength(text[1..])
  }

  predicate AllIn(a: Alphabet, data: seq<Byte>) { forall i :: 0 <= i < |data| ==> ValueOf(a, data[i]).Some? }

  function Values(a: Alphabet, data: seq<Byte>): (vs: seq<Sextet>)
    requires AllIn(a, data)
    ensures |vs| == |data|
    ensures forall i :: 0 <= i < |vs| ==> vs[i] == ValueOf(a, data[i]).value
  {
    seq(|data|, i requires 0 <= i < |data| => ValueOf(a, data[i]).value)
  }

  /** Only padding follows the first padding character. */
  predicate PaddedOnly(text: seq<Byte>) { forall i :: DataLength(text) <= i < |text| ==> text[i] == PAD }

  predicate Accepts(a: Alphabet, behavior: Behavior, text: seq<Byte>)
  {
    AllIn(a, text[..DataLength(text)]) && (behavior.Loose? || PaddedOnly(text))
  }

  /** The bytes of a text under one alphabet. */
  function DecodedUnder(a: Alphabet, behavior: Behavior, text: seq<Byte>): (r: Result<seq<Byte>, Error>)
  {
    if Accepts(a, behavior, text) then Ok(BytesOf(Values(a, text[..DataLength(text)]))) else Err(InvalidCharacter)
  }

  /** The bytes of a text; with `Auto`, under whichever of the two alphabets accepts it. */
  function Decoded(a: Alphabet, behavior: Behavior, text: seq<Byte>): (r: Result<seq<Byte>, Error>)
  {
    if a.Auto? && Accepts(Standard, behavior, text) then DecodedUnder(Standard, behavior, text)
    else if a.Auto? then DecodedUnder(UrlSafe, behavior, text)
    else DecodedUnder(a, behavior, text)
  }

  /** When both alphabets accept a text they give the same bytes. */
  lemma {:induction false} SameBytes(behavior: Behavior, text: seq<Byte>)
    requires Accepts(Standard, behavior, text) && Accepts(UrlSafe, behavior, text)
    ensures Decoded(Standard, behavior, text) == Decoded(UrlSafe, behavior, text)
  {
    hide BytesOf;
    var data := text[..DataLength(text)];
    forall i | 0 <= i < |data|
      ensures Values(Standard, data)[i] == Values(UrlSafe, data)[i]
    {
      assert ValueOf(Standard, data[i]).Some? && ValueOf(UrlSafe, data[i]).Some?;
    }
    assert Values(Standard, data) == Values(UrlSafe, data);
  }

  /** Detecting the alphabet succeeds exactly when one of the two alphabets does, with the bytes of either. */
  lemma {:induction false} AutoDetects(behavior: Behavior, text: seq<Byte>, bytes: seq<Byte>)
    ensures Decoded(Auto, behavior, text) == Ok(bytes) <==>
            Decoded(Standard, behavior, text) == Ok(bytes) || Decoded(UrlSafe, behavior, text) == Ok(bytes)
  {
    hide Accepts, BytesOf, Values;
    if Accepts(Standard, behavior, text) && Accepts(UrlSafe, behavior, text) {
      SameBytes(behavior, text);
    }
  }

  // ---------- encoding ----------

  lemma {:induction false} By64(n: nat, q: nat, r: nat)
    requires n == 64 * q + r && r < 64
    ensures n / 64 == q && n % 64 == r
  {
  }

  lemma {:induction false} By4096(n: nat, q: nat, r: nat)
    requires n == 4096 * q + r && r < 4096
    ensures n / 4096 == q
  {
  }

  lemma {:induction false} By262144(n: nat, q: nat, r: nat)
    requires n == 262144 * q + r && r < 262144
    ensures n / 262144 == q
  {
  }

  lemma {:induction false} CutBits(b0: Byte, b1: Byte, b2: Byte)
    ensures Cut(b0, b1, b2) == [b0 / 4, b0 % 4 * 16 + b1 / 16, b1 % 16 * 4 + b2 / 64, b2 % 64]
  {
    var n: nat := b0 * 65536 + b1 * 256 + b2;
    var q0: nat, r0: nat, q1: nat, r1: nat, q2: nat, r2: nat := b0 / 4, b0 % 4, b1 / 16, b1 % 16, b2 / 64, b2 % 64;
    var y: nat, z: nat := 64 * q0 + 16 * r0 + q1, 4 * r1 + q2;
    assert n == 262144 * q0 + 65536 * r0 + 4096 * q1 + 256 * r1 + 64 * q2 + r2 by {
      assert b0 == 4 * q0 + r0 && b1 == 16 * q1 + r1 && b2 == 64 * q2 + r2;
    }
    By64(n, 64 * y + z, r2);
    By64(64 * y + z, y, z);
    By4096(n, y, 64 * z + r2);
    By64(y, q0, 16 * r0 + q1);
    By262144(n, q0, 65536 * r0 + 4096 * q1 + 256 * r1 + 64 * q2 + r2);
  }

  lemma {:induction false} SymbolsAppend(a: Alphabet, x: seq<Sextet>, y: seq<Sextet>)
    ensures Symbols(a, x + y) == Symbols(a, x) + Symbols(a, y)
  {
  }

  /** `encode`. */
  method Encode(input: seq<Byte>, a: Alphabet) returns (out: seq<Byte>)
    ensures out == Encoded(input, a)
  {
    hide Encoded, Symbol;
    out := [];
    var i := 0;
    EncodedNothing(a);
    assert input[0..] == input;
    while i != |input|
      invariant i <= |input|
      invariant out + Encoded(input[i..], a) == Encoded(input, a)
    {
      ghost var before, rest := out, input[i..];
      var i0 := input[i];
      i := i + 1;
      out := out + [Symbol(a, i0 / 4)];
      if i != |input| {
        var i1 := input[i];
        i := i + 1;
        out := out + [Symbol(a, i0 % 4 * 16 + i1 / 16)];
        if i != |input| {
          var i2 := input[i];
          i := i + 1;
          out := out + [Symbol(a, i1 % 16 * 4 + i2 / 64)];
          out := out + [Symbol(a, i2 % 64)];
          assert rest[3..] == input[i..];
          EncodedGroup(rest, a);
          ghost var group := [Symbol(a, i0 / 4), Symbol(a, i0 % 4 * 16 + i1 / 16), Symbol(a, i1 % 16 * 4 + i2 / 64),
            Symbol(a, i2 % 64)];
          assert out == before + group;
          Associate(before, group, Encoded(input[i..], a));
        } else {
          out := out + [Symbol(a, i1 % 16 * 4)];
          out := out + [PAD];
          EncodedPair(rest, a);
          assert out == before + Encoded(rest, a) && input[i..] == [];
          break;
        }
      } else {
        out := out + [Symbol(a, i0 % 4 * 16)];
        out := out + [PAD];
        out := out + [PAD];
        EncodedSingle(rest, a);
        assert out == before + Encoded(rest, a) && input[i..] == [];
        break;
      }
    }
    assert input[i..] == [] && out + [] == out;
  }

  lemma {:induction false} EncodedNothing(a: Alphabet)
    ensures Encoded([], a) == []
  {
  }

  lemma {:induction false} EncodedSingle(bytes: seq<Byte>, a: Alphabet)
    requires |bytes| == 1
    ensures Encoded(bytes, a) == [Symbol(a, bytes[0] / 4), Symbol(a, bytes[0] % 4 * 16), PAD, PAD]
  {
    hide Symbol, Cut;
    CutBits(bytes[0], 0, 0);
    assert SextetsOf(bytes) == [bytes[0] / 4, bytes[0] % 4 * 16];
  }

  lemma {:induction false} EncodedPair(bytes: seq<Byte>, a: Alphabet)
    requires |bytes| == 2
    ensures var b0, b1 := bytes[0], bytes[1];
            Encoded(bytes, a) == [Symbol(a, b0 / 4), Symbol(a, b0 % 4 * 16 + b1 / 16), Symbol(a, b1 % 16 * 4), PAD]
  {
    hide Symbol, Cut;
    CutBits(bytes[0], bytes[1], 0);
    assert SextetsOf(bytes) == [bytes[0] / 4, bytes[0] % 4 * 16 + bytes[1] / 16, bytes[1] % 16 * 4];
  }

  lemma {:induction false} EncodedGroup(bytes: seq<Byte>, a: Alphabet)
    requires |bytes| >= 3
    ensures var b0, b1, b2 := bytes[0], bytes[1], bytes[2];
            Encoded(bytes, a) ==
            [Symbol(a, b0 / 4), Symbol(a, b0 % 4 * 16 + b1 / 16), Symbol(a, b1 % 16 * 4 + b2 / 64),
              Symbol(a, b2 % 64)] +
            Encoded(bytes[3..], a)
  {
    hide Symbol, Cut;
    var head := Cut(bytes[0], bytes[1], bytes[2]);
    CutBits(bytes[0], bytes[1], bytes[2]);
    SymbolsAppend(a, head, SextetsOf(bytes[3..]));
    assert Symbols(a, head) == [Symbol(a, head[0]), Symbol(a, head[1]), Symbol(a, head[2]), Symbol(a, head[3])];
    SamePadding(bytes);
    Associate(Symbols(a, head), Symbols(a, SextetsOf(bytes[3..])), Padding(|bytes|));
  }

  lemma {:induction false} SamePadding(bytes: seq<Byte>)
    requires |bytes| >= 3
    ensures Padding(|bytes[3..]|) == Padding(|bytes|)
  {
  }

  /** `required_encode_size`. */
  function RequiredEncodeSize(size: nat): (n: nat) { (size / 3 + if size % 3 != 0 then 1 else 0) * 4 }

  /** `max_decode_size`. */
  function MaxDecodeSize(size: nat): (n: nat) { (size / 4 + if size % 4 != 0 then 1 else 0) * 3 }

  lemma {:induction false} SextetCount(bytes: seq<Byte>)
    ensures |SextetsOf(bytes)| == (|bytes| * 4 + 2) / 3
  {
    hide Cut;
    if |bytes| >= 3 { SextetCount(bytes[3..]); }
  }

  /** The encoded length is exactly the announced one. */
  lemma {:induction false} EncodedSize(bytes: seq<Byte>, a: Alphabet)
    ensures |Encoded(bytes, a)| == RequiredEncodeSize(|bytes|)
  {
    hide SextetsOf;
    SextetCount(bytes);
  }

  lemma {:induction false} ByteCount(vs: seq<Sextet>)
    ensures |BytesOf(vs)| == |vs| * 6 / 8
  {
    hide Merge;
    if |vs| >= 4 { ByteCount(vs[4..]); }
  }

  /** No text decodes to more than the announced maximum. */
  lemma {:induction false} DecodedSize(a: Alphabet, behavior: Behavior, text: seq<Byte>)
    requires Decoded(a, behavior, text).Ok?
    ensures |Decoded(a, behavior, text).value| == DataLength(text) * 6 / 8 <= MaxDecodeSize(|text|)
    decreases a.Auto?
  {
    hide BytesOf, Values;
    if a.Auto? {
      DecodedSize(if Accepts(Standard, behavior, text) then Standard else UrlSafe, behavior, text);
    } else {
      ByteCount(Values(a, text[..DataLength(text)]));
    }
  }

  // ---------- the round trip ----------

  lemma {:induction false} CutMerged(b0: Byte, b1: Byte, b2: Byte)
    ensures var vs := Cut(b0, b1, b2); Merge(vs[0], vs[1], vs[2], vs[3]) == [b0, b1, b2]
    ensures b1 == 0 && b2 == 0 ==> var vs := Cut(b0, b1, b2); vs[2] == vs[3] == 0
    ensures b2 == 0 ==> Cut(b0, b1, b2)[3] == 0
  {
    CutBits(b0, b1, b2);
    hide Cut, Merge;
    var v0: nat, v1: nat, v2: nat, v3: nat := b0 / 4, b0 % 4 * 16 + b1 / 16, b1 % 16 * 4 + b2 / 64, b2 % 64;
    MergeBits(v0, v1, v2, v3);
    assert v1 / 16 == b0 % 4 && v1 % 16 == b1 / 16;
    assert v2 / 4 == b1 % 16 && v2 % 4 == b2 / 64;
  }

  lemma {:induction false} BytesBack(bytes: seq<Byte>)
    ensures BytesOf(SextetsOf(bytes)) == bytes
  {
    hide Cut, Merge;
    if |bytes| == 1 {
      CutMerged(bytes[0], 0, 0);
    } else if |bytes| == 2 {
      CutMerged(bytes[0], bytes[1], 0);
    } else if |bytes| >= 3 {
      CutMerged(bytes[0], bytes[1], bytes[2]);
      BytesBack(bytes[3..]);
      var head := Cut(bytes[0], bytes[1], bytes[2]);
      assert (head + SextetsOf(bytes[3..]))[4..] == SextetsOf(bytes[3..]);
    }
  }

  lemma {:induction false} SymbolBack(a: Alphabet, v: Sextet)
    ensures ValueOf(if a.Auto? then Standard else a, Symbol(a, v)) == Some(v)
  {
  }

  lemma {:induction false} ValuesBack(a: Alphabet, vs: seq<Sextet>)
    requires !a.Auto?
    ensures AllIn(a, Symbols(a, vs)) && Values(a, Symbols(a, vs)) == vs
  {
    forall i | 0 <= i < |vs|
      ensures ValueOf(a, Symbols(a, vs)[i]) == Some(vs[i])
    {
      SymbolBack(a, vs[i]);
    }
  }

  lemma {:induction false} DataOf(data: seq<Byte>, padding: seq<Byte>)
    requires (forall i :: 0 <= i < |data| ==> data[i] != PAD) && (forall i :: 0 <= i < |padding| ==> padding[i] == PAD)
    ensures DataLength(data + padding) == |data| && PaddedOnly(data + padding)
  {
    var text := data + padding;
    if data == [] {
      assert text == padding;
    } else {
      assert text[1..] == data[1..] + padding;
      DataOf(data[1..], padding);
    }
    assert forall i :: |data| <= i < |text| ==> text[i] == padding[i - |data|];
  }

  /** Decoding inverts encoding for every byte string, both alphabets, either behaviour, the alphabet given or
      detected, and with all, some or none of the padding kept. */
  lemma {:induction false} RoundTrip(bytes: seq<Byte>, a: Alphabet, detect: bool, behavior: Behavior, kept: nat)
    requires !a.Auto? && kept <= |Padding(|bytes|)|
    ensures Decoded(if detect then Auto else a, behavior, Symbols(a, SextetsOf(bytes)) + Padding(|bytes|)[..kept]) ==
      Ok(bytes)
  {
    hide SextetsOf, BytesOf, Symbol, ValueOf;
    var data, padding := Symbols(a, SextetsOf(bytes)), Padding(|bytes|)[..kept];
    var text := data + padding;
    ValuesBack(a, SextetsOf(bytes));
    BytesBack(bytes);
    DataOf(data, padding);
    assert text[..|data|] == data;
    assert Decoded(a, behavior, text) == Ok(bytes);
    if detect { AutoDetects(behavior, text, bytes); }
  }

  // ---------- decoding ----------

  /** `_base64_value`: the value of a character and the alphabet from there on. */
  method Base64Value(alphabet: Alphabet, c: Byte) returns (v: Result<Sextet, Error>, alphabet': Alphabet)
    ensures v.Ok? ==> alphabet' == Detect(alphabet, c) && ValueOf(alphabet', c) == Some(v.value)
    ensures v.Err? ==> alphabet' == alphabet && ValueOf(Detect(alphabet, c), c).None?
  {
    alphabet' := alphabet;
    if 65 <= c <= 90 {
      return Ok(c - 65), alphabet';
    } else if 97 <= c <= 122 {
      return Ok(c - 97 + 26), alphabet';
    } else if 48 <= c <= 57 {
      return Ok(c - 48 + 52), alphabet';
    }
    if alphabet.Standard? {
      if c == 43 {
        return Ok(62), alphabet';
      } else if c == 47 {
        return Ok(63), alphabet';
      }
    } else if alphabet.UrlSafe? {
      if c == 45 {
        return Ok(62), alphabet';
      } else if c == 95 {
        return Ok(63), alphabet';
      }
    } else {
      if c == 43 {
        return Ok(62), Standard;
      } else if c == 47 {
        return Ok(63), Standard;
      } else if c == 45 {
        return Ok(62), UrlSafe;
      } else if c == 95 {
        return Ok(63), UrlSafe;
      }
    }
    v := Err(InvalidCharacter);
  }

  /** The alphabet a character settles. */
  function Detect(a: Alphabet, c: Byte): (r: Alphabet)
  {
    if !a.Auto? then a
    else if c == 43 || c == 47 then Standard
    else if c == 45 || c == 95 then UrlSafe
    else Auto
  }

  /** The bits still waiting after `n` characters. */
  function BitsAfter(n: nat): (bits: nat)
  {
    if n % 4 == 0 then 0 else if n % 4 == 1 then 6 else if n % 4 == 2 then 4 else 2
  }

  function Power(n: nat): (p: nat) ensures p > 0 { if n == 0 then 1 else 2 * Power(n - 1) }

  /** The byte the loop writes: the waiting bits of the last value above the first bits of the new one, cut to
      eight bits by the store. */
  function Combine(last: Sextet, part: Sextet, bits: nat): (b: Byte)
    requires 2 <= bits <= 6
  {
    (last * Power(8 - bits) + part / Power(bits - 2)) % 256
  }

  /** One more value completes a byte unless it starts a group. */
  lemma {:induction false} BytesMore(vs: seq<Sextet>, v: Sextet)
    ensures var bits := BitsAfter(|vs|);
            BytesOf(vs + [v]) == if bits == 0 then BytesOf(vs) else BytesOf(vs) + [Combine(vs[|vs| - 1], v, bits)]
    decreases |vs|
  {
    hide Merge, Combine;
    if |vs| >= 4 {
      var rest := vs[4..];
      BytesMore(rest, v);
      assert (vs + [v])[4..] == rest + [v];
      assert (vs + [v])[..4] == vs[..4];
      SameBits(|vs|);
      if BitsAfter(|vs|) != 0 {
        assert rest[|rest| - 1] == vs[|vs| - 1];
        Associate(Merge(vs[0], vs[1], vs[2], vs[3]), BytesOf(rest), [Combine(vs[|vs| - 1], v, BitsAfter(|vs|))]);
      }
    } else {
      FewBytesMore(vs, v);
    }
  }

  lemma {:induction false} SameBits(n: nat)
    requires n >= 4
    ensures BitsAfter(n - 4) == BitsAfter(n)
  {
  }

  lemma {:induction false} FewBytesMore(vs: seq<Sextet>, v: Sextet)
    requires |vs| < 4
    ensures var bits := BitsAfter(|vs|);
            BytesOf(vs + [v]) == if bits == 0 then BytesOf(vs) else BytesOf(vs) + [Combine(vs[|vs| - 1], v, bits)]
  {
    hide Merge, Combine;
    if |vs| > 0 { CombineBits(vs[|vs| - 1], v); }
    if |vs| == 1 {
      MergeBits(vs[0], v, 0, 0);
    } else if |vs| == 2 {
      MergeBits(vs[0], vs[1], 0, 0);
      MergeBits(vs[0], vs[1], v, 0);
    } else if |vs| == 3 {
      MergeBits(vs[0], vs[1], vs[2], 0);
      MergeBits(vs[0], vs[1], vs[2], v);
      assert (vs + [v])[4..] == [];
    }
  }

  lemma {:induction false} Powers()
    ensures Power(0) == 1 && Power(2) == 4 && Power(4) == 16 && Power(6) == 64
  {
    assert Power(1) == 2 && Power(3) == 8 && Power(5) == 32;
  }

  /** The bytes of a group, read off its values. */
  lemma {:induction false} MergeBits(v0: Sextet, v1: Sextet, v2: Sextet, v3: Sextet)
    ensures Merge(v0, v1, v2, v3) == [v0 * 4 + v1 / 16, v1 % 16 * 16 + v2 / 4, v2 % 4 * 64 + v3]
  {
    var n: nat := v0 * 262144 + v1 * 4096 + v2 * 64 + v3;
    var q1: nat, r1: nat, q2: nat, r2: nat := v1 / 16, v1 % 16, v2 / 4, v2 % 4;
    var x: nat, y: nat, z: nat := v0 * 4 + q1, r1 * 16 + q2, r2 * 64 + v3;
    assert n == 65536 * x + 256 * y + z by { assert v1 == 16 * q1 + r1 && v2 == 4 * q2 + r2; }
    By256(n, 256 * x + y, z);
    By256(256 * x + y, x, y);
    By65536(n, x, 256 * y + z);
  }

  lemma {:induction false} By256(n: nat, q: nat, r: nat)
    requires n == 256 * q + r && r < 256
    ensures n / 256 == q && n % 256 == r
  {
  }

  lemma {:induction false} By65536(n: nat, q: nat, r: nat)
    requires n == 65536 * q + r && r < 65536
    ensures n / 65536 == q
  {
  }

  lemma {:induction false} CombineBits(last: Sextet, part: Sextet)
    ensures Combine(last, part, 6) == last * 4 + part / 16
    ensures Combine(last, part, 4) == last % 16 * 16 + part / 4
    ensures Combine(last, part, 2) == last % 4 * 64 + part
  {
    Powers();
    hide Power;
    var n: nat, m: nat := last * 16 + part / 4, last * 64 + part;
    By256(n, last / 16, last % 16 * 16 + part / 4);
    By256(m, last / 4, last % 4 * 64 + part);
    assert part / 1 == part;
  }

  /** Where the decoding loop stands after `i` characters. */
  predicate Scanned(asked: Alphabet, alphabet: Alphabet, text: seq<Byte>, i: nat)
  {
    i <= DataLength(text) && AllIn(alphabet, text[..i]) && (!asked.Auto? ==> alphabet == asked) &&
    (asked.Auto? && alphabet.Standard? ==> !AllIn(UrlSafe, text[..i])) &&
    (asked.Auto? && alphabet.UrlSafe? ==> !AllIn(Standard, text[..i]))
  }

  lemma {:induction false} ScanMore(asked: Alphabet, alphabet: Alphabet, text: seq<Byte>, i: nat, v: Sextet)
    requires Scanned(asked, alphabet, text, i) && i < |text| && text[i] != PAD
    requires ValueOf(Detect(alphabet, text[i]), text[i]) == Some(v)
    ensures var alphabet' := Detect(alphabet, text[i]);
            Scanned(asked, alphabet', text, i + 1) &&
              Values(alphabet', text[..i + 1]) == Values(alphabet, text[..i]) + [v]
  {
    var alphabet' := Detect(alphabet, text[i]);
    DataGoesOn(text, i);
    assert text[..i + 1] == text[..i] + [text[i]];
    forall k | 0 <= k < i + 1
      ensures ValueOf(alphabet', text[..i + 1][k]).Some?
      ensures k < i ==> ValueOf(alphabet', text[k]) == ValueOf(alphabet, text[k])
    {
      assert k < i ==> text[..i][k] == text[k] && ValueOf(alphabet, text[k]).Some?;
    }
    assert text[..i + 1][i] == text[i];
    if asked.Auto? && alphabet.Standard? {
      SomeOutside(UrlSafe, text, i);
    } else if asked.Auto? && alphabet.UrlSafe? {
      SomeOutside(Standard, text, i);
    }
  }

  lemma {:induction false} DataGoesOn(text: seq<Byte>, i: nat)
    requires i <= DataLength(text) && i < |text| && text[i] != PAD
    ensures i < DataLength(text)
  {
  }

  lemma {:induction false} SomeOutside(a: Alphabet, text: seq<Byte>, i: nat)
    requires i < |text| && !AllIn(a, text[..i])
    ensures forall n :: i <= n <= |text| ==> !AllIn(a, text[..n])
  {
    var k :| 0 <= k < i && ValueOf(a, text[..i][k]).None?;
    forall n | i <= n <= |text|
      ensures !AllIn(a, text[..n])
    {
      assert text[..n][k] == text[..i][k];
    }
  }

  lemma {:induction false} ScanFails(asked: Alphabet, alphabet: Alphabet, text: seq<Byte>, i: nat, behavior: Behavior)
    requires Scanned(asked, alphabet, text, i) && i < |text| && text[i] != PAD &&
      ValueOf(Detect(alphabet, text[i]), text[i]).None?
    ensures Decoded(asked, behavior, text) == Err(InvalidCharacter)
  {
    hide BytesOf, Values;
    DataGoesOn(text, i);
    var data := text[..DataLength(text)];
    assert data[i] == text[i];
    if asked.Auto? {
      if alphabet.Standard? { SomeOutside(UrlSafe, text, i); }
      if alphabet.UrlSafe? { SomeOutside(Standard, text, i); }
    }
  }

  lemma {:induction false} ScanEnds(asked: Alphabet, alphabet: Alphabet, text: seq<Byte>, behavior: Behavior)
    requires var n := DataLength(text); Scanned(asked, alphabet, text, n)
    ensures Decoded(asked, behavior, text) ==
            if behavior.Loose? || PaddedOnly(text) then Ok(BytesOf(Values(alphabet, text[..DataLength(text)])))
            else Err(InvalidCharacter)
  {
    hide BytesOf, PaddedOnly;
    var data := text[..DataLength(text)];
    if asked.Auto? && alphabet.Auto? {
      forall i | 0 <= i < |data|
        ensures ValueOf(Standard, data[i]) == ValueOf(Auto, data[i])
      {
        assert ValueOf(Auto, data[i]).Some?;
      }
      assert Values(Standard, data) == Values(Auto, data);
    }
  }

  /** The check of what follows the first padding character. */
  method CheckPadding(text: seq<Byte>, start: nat) returns (ok: bool)
    requires start == (if DataLength(text) < |text| then DataLength(text) + 1 else |text|)
    ensures ok <==> PaddedOnly(text)
  {
    var i := start;
    while i != |text|
      invariant start <= i <= |text|
      invariant forall k :: DataLength(text) <= k < i ==> text[k] == PAD
    {
      var c := text[i];
      i := i + 1;
      if c != PAD { return false; }
    }
    ok := true;
  }

  /** `decode`. */
  method Decode(text: seq<Byte>, asked: Alphabet, behavior: Behavior) returns (r: Result<seq<Byte>, Error>)
    ensures r == Decoded(asked, behavior, text)
  {
    hide BytesOf, Values, ValueOf, Detect, Combine, Scanned, Decoded, DataLength, PaddedOnly, AllIn;
    var out: seq<Byte> := [];
    var alphabet, last: Sextet, bits, i := asked, 0, 0, 0;
    ScanStarts(asked, text);
    while i != |text| && text[i] != PAD
      invariant i <= |text| && Scanned(asked, alphabet, text, i) && AllIn(alphabet, text[..i])
      invariant out == BytesOf(Values(alphabet, text[..i])) && bits == BitsAfter(i)
      invariant i > 0 ==> last == Values(alphabet, text[..i])[i - 1]
    {
      var part, alphabet' := Base64Value(alphabet, text[i]);
      if part.Err? {
        ScanFails(asked, alphabet, text, i, behavior);
        return Err(InvalidCharacter);
      }
      ScanMore(asked, alphabet, text, i, part.value);
      BytesMore(Values(alphabet, text[..i]), part.value);
      alphabet, i := alphabet', i + 1;
      if bits + 6 >= 8 {
        out := out + [Combine(last, part.value, bits)];
        bits := bits - 2;
      } else {
        bits := bits + 6;
      }
      last := part.value;
    }
    ScanStops(asked, alphabet, text, i);
    ScanEnds(asked, alphabet, text, behavior);
    if behavior != Loose {
      var ok := CheckPadding(text, if i != |text| then i + 1 else i);
      if !ok { return Err(InvalidCharacter); }
    }
    r := Ok(out);
  }

  lemma {:induction false} ScanStarts(asked: Alphabet, text: seq<Byte>)
    ensures Scanned(asked, asked, text, 0) && AllIn(asked, text[..0]) && BytesOf(Values(asked, text[..0])) == []
  {
  }

  lemma {:induction false} ScanStops(asked: Alphabet, alphabet: Alphabet, text: seq<Byte>, i: nat)
    requires Scanned(asked, alphabet, text, i) && (i == |text| || (i < |text| && text[i] == PAD))
    ensures i == DataLength(text)
  {
  }

  /** `decode_inplace`: the text and the bytes share the buffer. The bytes written never reach a character still to
      be read, so the result is that of decoding into a separate buffer; beyond the bytes nothing changes. */
  method DecodeInplace(buffer: array<Byte>, asked: Alphabet, behavior: Behavior) returns (r: Result<nat, Error>)
    modifies buffer
    ensures Decoded(asked, behavior, old(buffer[..])).Err? <==> r.Err?
    ensures r.Ok? ==> r.value <= buffer.Length && Decoded(asked, behavior, old(buffer[..])) == Ok(buffer[..r.value])
    ensures r.Ok? ==> forall k :: r.value <= k < buffer.Length ==> buffer[k] == old(buffer[k])
  {
    hide BytesOf, Values, ValueOf, Detect, Combine, Scanned, Decoded, DataLength, PaddedOnly, AllIn, BitsAfter;
    ghost var text := buffer[..];
    var n := buffer.Length;
    var alphabet, last: Sextet, bits, i, w := asked, 0, BitsAfter(0), 0, 0;
    ScanStarts(asked, text);
    while i != n && buffer[i] != PAD
      invariant w <= i <= buffer.Length && Scanned(asked, alphabet, text, i) && AllIn(alphabet, text[..i])
      invariant bits == BitsAfter(i)
      invariant buffer[..w] == BytesOf(Values(alphabet, text[..i]))
      invariant forall k :: w <= k < buffer.Length ==> buffer[k] == text[k]
      invariant i > 0 ==> last == Values(alphabet, text[..i])[i - 1]
    {
      var part, alphabet' := Base64Value(alphabet, buffer[i]);
      if part.Err? {
        ScanFails(asked, alphabet, text, i, behavior);
        return Err(InvalidCharacter);
      }
      ScanMore(asked, alphabet, text, i, part.value);
      BytesMore(Values(alphabet, text[..i]), part.value);
      NextBits(i);
      alphabet, i := alphabet', i + 1;
      if bits + 6 >= 8 {
        ghost var before := buffer[..w];
        buffer[w] := Combine(last, part.value, bits);
        w := w + 1;
        assert buffer[..w] == before + [buffer[w - 1]];
        bits := bits - 2;
      } else {
        bits := bits + 6;
      }
      last := part.value;
    }
    ScanStops(asked, alphabet, text, i);
    ScanEnds(asked, alphabet, text, behavior);
    if behavior != Loose {
      var ok := CheckBufferPadding(buffer, text, if i != n then i + 1 else i, w);
      if !ok { return Err(InvalidCharacter); }
    }
    r := Ok(w);
  }

  lemma {:induction false} NextBits(i: nat)
    ensures BitsAfter(i) == 0 <==> BitsAfter(i) + 6 < 8
    ensures BitsAfter(i) != 0 ==> 2 <= BitsAfter(i) <= 6 && i > 0
    ensures BitsAfter(i + 1) == if BitsAfter(i) == 0 then 6 else BitsAfter(i) - 2
    ensures BitsAfter(0) == 0
  {
  }

  method CheckBufferPadding(buffer: array<Byte>, ghost text: seq<Byte>, start: nat, ghost w: nat) returns (ok: bool)
    requires |text| == buffer.Length && w <= start && forall k :: w <= k < buffer.Length ==> buffer[k] == text[k]
    requires start == (if DataLength(text) < |text| then DataLength(text) + 1 else |text|)
    ensures ok <==> PaddedOnly(text)
  {
    var i := start;
    while i != buffer.Length
      invariant start <= i <= buffer.Length
      invariant forall k :: DataLength(text) <= k < i ==> text[k] == PAD
    {
      var c := buffer[i];
      i := i + 1;
      if c != PAD { return false; }
    }
    ok := true;
  }
}
