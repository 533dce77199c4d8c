/** What a well-formed file of the old formats is, and what loading one finds: everything that was written, and
    byte ranges that lie one behind the other. */
module GgmlFiles {
  import opened Wrappers
  import opened Ggml
  import opened GgmlBlocks

  // ---------- writing a file ----------

  /** A tensor as it is written: `fill` is the byte its padding is made of. */
  datatype TensorFile = TensorFile(name: seq<Byte>, dims: seq<nat>, dtype: nat, fill: Byte, bytes: seq<Byte>)

  datatype File = File(format: Format, version: nat, hyper: Hyper, items: seq<Item>, tensors: seq<TensorFile>)

  predicate IsWord(n: nat) { n < 0x1_0000_0000 }

  function WordBytes(n: nat): (b: seq<Byte>)
    requires IsWord(n)
    ensures |b| == 4
  {
    [n % 256, n / 256 % 256, n / 65536 % 256, n / 16777216]
  }

  function WordsBytes(ws: seq<nat>): (b: seq<Byte>)
    requires forall i :: 0 <= i < |ws| ==> IsWord(ws[i])
    ensures |b| == 4 * |ws|
  {
    if ws == [] then [] else WordBytes(ws[0]) + WordsBytes(ws[1..])
  }

  function HeaderBytes(format: Format, version: nat): (b: seq<Byte>)
    requires IsWord(version)
  {
    match format
    case GGML => GGML_MAGIC
    case GGMF => GGMF_MAGIC + WordBytes(version)
    case GGJT => GGJT_MAGIC + WordBytes(version)
  }

  function HyperWords(h: Hyper): (ws: seq<nat>)
    ensures |ws| == 7
  {
    [h.nVocab, h.nEmbd, h.nMult, h.nHead, h.nLayer, h.nRot, h.ftype]
  }

  predicate GoodItem(item: Item, scores: bool)
  {
    |item.text| < 4096 && IsWord(item.score) && (!scores ==> item.score == 0)
  }

  function ItemBytes(item: Item, scores: bool): (b: seq<Byte>)
    requires GoodItem(item, scores)
    ensures |b| >= 4
  {
    WordBytes(|item.text|) + item.text + if scores then WordBytes(item.score) else []
  }

  function ItemsBytes(items: seq<Item>, scores: bool): (b: seq<Byte>)
    requires forall i :: 0 <= i < |items| ==> GoodItem(items[i], scores)
  {
    if items == [] then [] else ItemBytes(items[0], scores) + ItemsBytes(items[1..], scores)
  }

  /** A tensor with as many bytes as the blocks of its type take. */
  predicate GoodTensor(t: TensorFile)
  {
    |t.name| < 4096 && |t.dims| <= 4 && (forall i :: 0 <= i < |t.dims| ==> IsWord(t.dims[i])) && IsWord(t.dtype) &&
    LayoutOf(t.dtype).Some? && t.dtype != Q8_1 && |t.bytes| == Stored(t.dims, LayoutOf(t.dtype).value) &&
    Product(t.dims) * BlockBytes(LayoutOf(t.dtype).value) < TWO_63
  }

  lemma {:induction false} GoodLength(t: TensorFile)
    requires GoodTensor(t)
    ensures QuantSize(t.dtype).Some? && ByteLength(t.dims, QuantSize(t.dtype).value) == |t.bytes|
  {
    hide LayoutOf, QuantSize, Product, ByteLength, Stored;
    LengthExactly(t.dims, t.dtype);
  }

  function TensorHeader(t: TensorFile): (b: seq<Byte>)
    requires GoodTensor(t)
    ensures |b| == 12 + 4 * |t.dims| + |t.name|
  {
    WordsBytes([|t.dims|, |t.name|, t.dtype]) + WordsBytes(t.dims) + t.name
  }

  /** Where the bytes of a tensor written at `offset` start. */
  function StartOf(t: TensorFile, offset: nat, padded: bool): (start: nat)
    requires GoodTensor(t)
    ensures start >= offset + 12
  {
    var end := offset + |TensorHeader(t)|;
    end + PadLength(end, padded)
  }

  function Fill(b: Byte, n: nat): (s: seq<Byte>)
    ensures |s| == n
  {
    seq(n, i => b)
  }

  function TensorBytes(t: TensorFile, offset: nat, padded: bool): (b: seq<Byte>)
    requires GoodTensor(t)
    ensures offset + |b| == StartOf(t, offset, padded) + |t.bytes|
  {
    TensorHeader(t) + Fill(t.fill, PadLength(offset + |TensorHeader(t)|, padded)) + t.bytes
  }

  predicate GoodTensors(ts: seq<TensorFile>) { forall i :: 0 <= i < |ts| ==> GoodTensor(ts[i]) }

  function TensorsBytes(ts: seq<TensorFile>, offset: nat, padded: bool): (b: seq<Byte>)
    requires GoodTensors(ts)
    decreases |ts|
  {
    if ts == [] then []
    else
      var first := TensorBytes(ts[0], offset, padded);
      first + TensorsBytes(ts[1..], offset + |first|, padded)
  }

  predicate Describes(info: Info, t: TensorFile)
  {
    info.name == t.name && info.dims == t.dims && info.dtype == t.dtype && info.len == |t.bytes|
  }

  /** The infos of tensors written from `offset` on. */
  function InfosAt(ts: seq<TensorFile>, offset: nat, padded: bool): (infos: seq<Info>)
    requires GoodTensors(ts)
    ensures |infos| == |ts|
    ensures forall i :: 0 <= i < |ts| ==> Describes(infos[i], ts[i])
    decreases |ts|
  {
    if ts == [] then []
    else
      var t := ts[0];
      [Info(t.name, t.dims, t.dtype, StartOf(t, offset, padded), |t.bytes|)] +
      InfosAt(ts[1..], offset + |TensorBytes(t, offset, padded)|, padded)
  }

  predicate GoodVersion(format: Format, version: nat)
  {
    if format.GGJT? then 1 <= version <= 3 else version == 1
  }

  /** A file the converter is for. Tensor `ff` is the last of the name the feed-forward width is looked up by. */
  predicate WellFormed(f: File, ff: nat)
  {
    GoodVersion(f.format, f.version) &&
    (forall i :: 0 <= i < 7 ==> IsWord(HyperWords(f.hyper)[i])) && IsFtype(f.hyper.ftype) &&
    Convertible(f.format, f.version, f.hyper.ftype) &&
    |f.items| == f.hyper.nVocab && (forall i :: 0 <= i < |f.items| ==> GoodItem(f.items[i], !f.format.GGML?)) &&
    GoodTensors(f.tensors) &&
    ff < |f.tensors| && f.tensors[ff].name == FEED_FORWARD && |f.tensors[ff].dims| >= 2 &&
    forall i :: ff < i < |f.tensors| ==> f.tensors[i].name != FEED_FORWARD
  }

  /** Everything before the tensors. */
  function FrontBytes(f: File, ff: nat): (b: seq<Byte>)
    requires WellFormed(f, ff)
  {
    HeaderBytes(f.format, f.version) + WordsBytes(HyperWords(f.hyper)) + ItemsBytes(f.items, !f.format.GGML?)
  }

  function Serialize(f: File, ff: nat): (b: seq<Byte>)
    requires WellFormed(f, ff)
  {
    FrontBytes(f, ff) + TensorsBytes(f.tensors, |FrontBytes(f, ff)|, f.format.GGJT?)
  }

  // ---------- reading what was written ----------

  /** `s` stands in the data at `offset`. */
  predicate At(data: seq<Byte>, offset: nat, s: seq<Byte>)
  {
    offset + |s| <= |data| && data[offset..offset + |s|] == s
  }

  lemma {:induction false} AtSplit(data: seq<Byte>, offset: nat, a: seq<Byte>, b: seq<Byte>)
    requires At(data, offset, a + b)
    ensures At(data, offset, a) && At(data, offset + |a|, b)
  {
    var s := data[offset..offset + |a + b|];
    assert data[offset..offset + |a|] == s[..|a|] == a;
    assert data[offset + |a|..offset + |a| + |b|] == s[|a|..] == b;
  }

  /** What stands in the data stands in a prefix of them, if it ends in time. */
  lemma {:induction false} AtPrefix(data: seq<Byte>, full: seq<Byte>, offset: nat, s: seq<Byte>)
    requires data <= full && offset + |s| <= |data| && At(full, offset, s)
    ensures At(data, offset, s)
  {
    assert data[offset..offset + |s|] == full[offset..offset + |s|];
  }

  lemma {:induction false} WordAt(data: seq<Byte>, offset: nat, n: nat)
    requires IsWord(n) && At(data, offset, WordBytes(n))
    ensures Word(data, offset) == n
  {
    var b := WordBytes(n);
    var s := data[offset..offset + 4];
    assert s[0] == data[offset] && s[1] == data[offset + 1] && s[2] == data[offset + 2] && s[3] == data[offset + 3];
    Digits(n);
  }

  lemma {:induction false} Digits(n: nat)
    ensures n == n % 256 + n / 256 % 256 * 256 + n / 65536 % 256 * 65536 + n / 16777216 * 16777216
  {
    var a, b, c := n / 256, n / 65536, n / 16777216;
    assert b == a / 256 && c == b / 256;
    assert n == a * 256 + n % 256 && a == b * 256 + a % 256 && b == c * 256 + b % 256;
  }

  lemma {:induction false} WordsAt(data: seq<Byte>, offset: nat, ws: seq<nat>)
    requires (forall i :: 0 <= i < |ws| ==> IsWord(ws[i])) && At(data, offset, WordsBytes(ws))
    ensures Words(data, offset, |ws|) == Ok(ws)
  {
    forall i | 0 <= i < |ws|
      ensures Word(data, offset + 4 * i) == ws[i]
    {
      WordInside(data, offset, ws, i);
    }
    assert Words(data, offset, |ws|).value == ws;
  }

  lemma {:induction false} WordInside(data: seq<Byte>, offset: nat, ws: seq<nat>, i: nat)
    requires (forall i :: 0 <= i < |ws| ==> IsWord(ws[i])) && At(data, offset, WordsBytes(ws)) && i < |ws|
    ensures offset + 4 * i + 4 <= |data| && Word(data, offset + 4 * i) == ws[i]
    decreases i
  {
    hide WordBytes, Word, At;
    AtSplit(data, offset, WordBytes(ws[0]), WordsBytes(ws[1..]));
    if i == 0 {
      AtInside(data, offset, WordBytes(ws[0]));
      WordAt(data, offset, ws[0]);
    } else {
      WordInside(data, offset + 4, ws[1..], i - 1);
    }
  }

  lemma {:induction false} AtInside(data: seq<Byte>, offset: nat, s: seq<Byte>)
    requires At(data, offset, s)
    ensures offset + |s| <= |data| && Slice(data, offset, |s|) == s
  {
  }

  lemma {:induction false} OneWordAt(data: seq<Byte>, offset: nat, n: nat)
    requires IsWord(n) && At(data, offset, WordBytes(n))
    ensures Words(data, offset, 1) == Ok([n])
  {
    assert WordsBytes([n]) == WordBytes(n) by { assert [n][1..] == []; assert WordBytes(n) + [] == WordBytes(n); }
    WordsAt(data, offset, [n]);
  }

  lemma {:induction false} ItemAt(data: seq<Byte>, offset: nat, item: Item, scores: bool)
    requires GoodItem(item, scores) && At(data, offset, ItemBytes(item, scores))
    ensures ReadItem(data, offset, scores) == Ok((item, offset + |ItemBytes(item, scores)|))
  {
    hide At, Words, Slice, WordBytes;
    var score := if scores then WordBytes(item.score) else [];
    AtSplit(data, offset, WordBytes(|item.text|) + item.text, score);
    AtSplit(data, offset, WordBytes(|item.text|), item.text);
    OneWordAt(data, offset, |item.text|);
    AtInside(data, offset + 4, item.text);
    if scores { OneWordAt(data, offset + 4 + |item.text|, item.score); }
  }

  lemma {:induction false} ItemsAt(data: seq<Byte>, offset: nat, items: seq<Item>, scores: bool)
    requires (forall i :: 0 <= i < |items| ==> GoodItem(items[i], scores)) &&
      At(data, offset, ItemsBytes(items, scores))
    ensures ReadItems(data, offset, |items|, scores) == Ok((items, offset + |ItemsBytes(items, scores)|))
    decreases |items|
  {
    hide At, ReadItem, ItemBytes, GoodItem;
    if items != [] {
      AtSplit(data, offset, ItemBytes(items[0], scores), ItemsBytes(items[1..], scores));
      ItemAt(data, offset, items[0], scores);
      ItemsAt(data, offset + |ItemBytes(items[0], scores)|, items[1..], scores);
      assert [items[0]] + items[1..] == items;
    }
  }

  /** A tensor is read off its header alone. */
  lemma {:induction false} TensorAt(data: seq<Byte>, offset: nat, t: TensorFile, padded: bool)
    requires GoodTensor(t) && At(data, offset, TensorHeader(t)) && StartOf(t, offset, padded) + |t.bytes| < TWO_63
    ensures ReadTensor(data, offset, padded) ==
            Ok((Info(t.name, t.dims, t.dtype, StartOf(t, offset, padded), |t.bytes|),
                StartOf(t, offset, padded) + |t.bytes|))
  {
    hide At, Words, Slice, WordsBytes, PadLength, ByteLength, QuantSize, LayoutOf, Stored, Ggml.Product;
    GoodLength(t);
    var head := [|t.dims|, |t.name|, t.dtype];
    AtSplit(data, offset, WordsBytes(head) + WordsBytes(t.dims), t.name);
    AtSplit(data, offset, WordsBytes(head), WordsBytes(t.dims));
    WordsAt(data, offset, head);
    WordsAt(data, offset + 12, t.dims);
    AtInside(data, offset + 12 + 4 * |t.dims|, t.name);
  }

  lemma {:induction false} HeaderFits(ts: seq<TensorFile>, offset: nat, padded: bool)
    requires GoodTensors(ts) && ts != []
    ensures |TensorsBytes(ts, offset, padded)| >= 12 + |ts[|ts| - 1].bytes|
    ensures |ts| == 1 ==> |TensorsBytes(ts, offset, padded)| == |TensorBytes(ts[0], offset, padded)|
    ensures |ts| > 1 ==>
      |TensorsBytes(ts, offset, padded)| >= |TensorBytes(ts[0], offset, padded)| + 12 + |ts[|ts| - 1].bytes|
    decreases |ts|
  {
    hide TensorBytes, GoodTensor;
    if |ts| > 1 {
      assert ts[1..][|ts[1..]| - 1] == ts[|ts| - 1];
      HeaderFits(ts[1..], offset + |TensorBytes(ts[0], offset, padded)|, padded);
    } else {
      assert ts[1..] == [];
    }
  }

  /** The header of the first tensor, and the place of the rest. */
  lemma {:induction false} FirstAt(full: seq<Byte>, offset: nat, ts: seq<TensorFile>, padded: bool)
    requires GoodTensors(ts) && ts != [] && At(full, offset, TensorsBytes(ts, offset, padded))
    ensures At(full, offset, TensorHeader(ts[0]))
    ensures var next := StartOf(ts[0], offset, padded) + |ts[0].bytes|;
            At(full, next, TensorsBytes(ts[1..], next, padded)) && At(full, StartOf(ts[0], offset, padded), ts[0].bytes)
  {
    hide At, TensorHeader, PadLength, GoodTensor;
    var t := ts[0];
    var fill := Fill(t.fill, PadLength(offset + |TensorHeader(t)|, padded));
    AtSplit(full, offset, TensorBytes(t, offset, padded),
      TensorsBytes(ts[1..], offset + |TensorBytes(t, offset, padded)|, padded));
    AtSplit(full, offset, TensorHeader(t) + fill, t.bytes);
    AtSplit(full, offset, TensorHeader(t), fill);
  }

  /** `data` are the full data without some of the bytes of the last tensor. */
  predicate CutShort(data: seq<Byte>, full: seq<Byte>, ts: seq<TensorFile>)
  {
    data <= full && |full| - |data| <= if ts == [] then 0 else |ts[|ts| - 1].bytes|
  }

  /** Tensors are read back, even when bytes of the last one are missing at the end. */
  lemma {:induction false} TensorsAt(data: seq<Byte>, full: seq<Byte>, offset: nat, ts: seq<TensorFile>, padded: bool)
    requires GoodTensors(ts) && At(full, offset, TensorsBytes(ts, offset, padded))
    requires |full| == offset + |TensorsBytes(ts, offset, padded)| < TWO_63 && CutShort(data, full, ts)
    ensures ReadTensors(data, offset, padded) == Ok((InfosAt(ts, offset, padded), |full|))
    decreases |ts|
  {
    hide At, ReadTensor, ReadTensors, TensorBytes, TensorsBytes, TensorHeader, StartOf, GoodTensor, InfosAt;
    if ts == [] {
      NoTensorBytes(offset, padded);
      TensorsEnd(data, offset, padded);
    } else {
      var t := ts[0];
      var next := StartOf(t, offset, padded) + |t.bytes|;
      HeaderFits(ts, offset, padded);
      FirstAt(full, offset, ts, padded);
      HeaderEnds(t, offset, padded);
      AtPrefix(data, full, offset, TensorHeader(t));
      TensorAt(data, offset, t, padded);
      FirstBytes(ts, offset, padded);
      TensorsStep(data, offset, padded);
      if |ts| == 1 {
        assert ts[1..] == [];
        NoTensorBytes(next, padded);
        TensorsEnd(data, next, padded);
      } else {
        assert ts[1..][|ts[1..]| - 1] == ts[|ts| - 1];
        TensorsAt(data, full, next, ts[1..], padded);
      }
    }
  }

  lemma {:induction false} NoTensorBytes(offset: nat, padded: bool)
    ensures TensorsBytes([], offset, padded) == [] && InfosAt([], offset, padded) == []
  {
  }

  lemma {:induction false} FirstBytes(ts: seq<TensorFile>, offset: nat, padded: bool)
    requires GoodTensors(ts) && ts != []
    ensures var t := ts[0]; var next := StartOf(t, offset, padded) + |t.bytes|;
            |TensorsBytes(ts, offset, padded)| == next - offset + |TensorsBytes(ts[1..], next, padded)| &&
            InfosAt(ts, offset, padded) ==
            [Info(t.name, t.dims, t.dtype, StartOf(t, offset, padded), |t.bytes|)] + InfosAt(ts[1..], next, padded)
  {
    hide TensorBytes, StartOf, GoodTensor;
    HeaderEnds(ts[0], offset, padded);
  }

  lemma {:induction false} HeaderEnds(t: TensorFile, offset: nat, padded: bool)
    requires GoodTensor(t)
    ensures offset + |TensorHeader(t)| <= StartOf(t, offset, padded)
    ensures offset + |TensorBytes(t, offset, padded)| == StartOf(t, offset, padded) + |t.bytes|
  {
  }

  /** The bytes of every tensor stand where its info says. */
  lemma {:induction false} BytesAt(full: seq<Byte>, offset: nat, ts: seq<TensorFile>, padded: bool, i: nat)
    requires GoodTensors(ts) && At(full, offset, TensorsBytes(ts, offset, padded)) && i < |ts|
    ensures At(full, InfosAt(ts, offset, padded)[i].start, ts[i].bytes)
    decreases i
  {
    hide At, TensorBytes, TensorsBytes, StartOf, GoodTensor, InfosAt;
    FirstAt(full, offset, ts, padded);
    FirstBytes(ts, offset, padded);
    if i > 0 { BytesAt(full, StartOf(ts[0], offset, padded) + |ts[0].bytes|, ts[1..], padded, i - 1); }
  }

  lemma {:induction false} HeaderAt(data: seq<Byte>, format: Format, version: nat)
    requires GoodVersion(format, version) && At(data, 0, HeaderBytes(format, version))
    ensures ReadHeader(data, 0) == Ok(Header(format, version, |HeaderBytes(format, version)|))
  {
    hide Words, Slice, WordBytes, At;
    if format.GGML? {
      AtInside(data, 0, GGML_MAGIC);
    } else {
      var magic := if format.GGMF? then GGMF_MAGIC else GGJT_MAGIC;
      AtSplit(data, 0, magic, WordBytes(version));
      AtInside(data, 0, magic);
      OneWordAt(data, 4, version);
    }
    Magics();
  }

  lemma {:induction false} Magics()
    ensures GGML_MAGIC != GGUF_MAGIC && GGMF_MAGIC != GGUF_MAGIC && GGJT_MAGIC != GGUF_MAGIC
    ensures GGMF_MAGIC != GGML_MAGIC && GGJT_MAGIC != GGML_MAGIC && GGJT_MAGIC != GGMF_MAGIC
  {
    assert GGUF_MAGIC[0] == 71 && GGML_MAGIC[0] == 108 && GGMF_MAGIC[0] == 102 && GGJT_MAGIC[0] == 116;
  }

  /** A text in ASCII. */
  function Ascii(s: string): (b: seq<Byte>)
    ensures |b| == |s|
  {
    seq(|s|, i requires 0 <= i < |s| => if s[i] < '\U{80}' then s[i] as nat else 0)
  }

  /** The words the reader looks for, spelled out. */
  lemma {:induction false} Spelled()
    ensures GGUF_MAGIC == Ascii("GGUF") && GGML_MAGIC == Ascii("lmgg")
    ensures GGMF_MAGIC == Ascii("fmgg") && GGJT_MAGIC == Ascii("tjgg")
    ensures FEED_FORWARD == Ascii("layers.0.feed_forward.w1.weight")
  {
  }

  lemma {:induction false} WordBack(data: seq<Byte>, offset: nat)
    requires offset + 4 <= |data|
    ensures At(data, offset, WordBytes(Word(data, offset)))
  {
    var b0: nat, b1: nat, b2: nat, b3: nat := data[offset], data[offset + 1], data[offset + 2], data[offset + 3];
    var w := Word(data, offset);
    assert w % 256 == b0 && w / 256 == b1 + b2 * 256 + b3 * 65536;
    assert w / 65536 == w / 256 / 256 && w / 16777216 == w / 65536 / 256;
  }

  /** A file begins with a header if and only if it begins with a magic word and, except in the oldest format, a version
      that exists. */
  lemma {:induction false} HeaderExactly(data: seq<Byte>, h: Header)
    ensures ReadHeader(data, 0) == Ok(h) <==>
            GoodVersion(h.format, h.version) && h.size == |HeaderBytes(h.format, h.version)| &&
            At(data, 0, HeaderBytes(h.format, h.version))
  {
    if GoodVersion(h.format, h.version) && At(data, 0, HeaderBytes(h.format, h.version)) {
      HeaderAt(data, h.format, h.version);
    }
    if ReadHeader(data, 0) == Ok(h) {
      assert |Slice(data, 0, 4)| == 4 ==> |data| >= 4 && Slice(data, 0, 4) == data[..4];
      if !h.format.GGML? {
        WordBack(data, 4);
        assert data[..8] == data[..4] + data[4..8];
      }
    }
  }

  lemma {:induction false} HyperAt(data: seq<Byte>, offset: nat, h: Hyper)
    requires (forall i :: 0 <= i < 7 ==> IsWord(HyperWords(h)[i])) && IsFtype(h.ftype)
    requires At(data, offset, WordsBytes(HyperWords(h)))
    ensures ReadHyper(data, offset) == Ok(h)
  {
    hide Words, WordsBytes, At;
    WordsAt(data, offset, HyperWords(h));
  }

  lemma {:induction false} FeedForwardFound(infos: seq<Info>, ff: nat)
    requires ff < |infos| && infos[ff].name == FEED_FORWARD && |infos[ff].dims| >= 2
    requires forall i :: ff < i < |infos| ==> infos[i].name != FEED_FORWARD
    ensures FeedForward(IndexOf(infos), infos) == Ok(infos[ff].dims[1])
  {
    hide FEED_FORWARD;
    var index := IndexOf(infos);
    hide IndexOf;
    assert infos[ff].name in index && ff <= index[infos[ff].name];
  }

  /** Loading inverts writing: from the bytes of a well-formed file the reader finds the hyperparameters, the
      vocabulary and the tensor headers that were written, and ends behind the last tensor. The same happens when
      bytes are missing at the end, up to all bytes of the last tensor: only the offset tells. */
  lemma {:induction false} LoadInverts(f: File, ff: nat, data: seq<Byte>)
    requires WellFormed(f, ff) && |Serialize(f, ff)| < TWO_63 && CutShort(data, Serialize(f, ff), f.tensors)
    ensures ReadModel(data, 0) ==
            Ok(Loaded(f.format, f.version, f.hyper, f.tensors[ff].dims[1], f.items,
                      InfosAt(f.tensors, |FrontBytes(f, ff)|, f.format.GGJT?), |Serialize(f, ff)|))
  {
    hide At, ReadHeader, ReadHyper, ReadItems, ReadTensors, HeaderBytes, WordsBytes, ItemsBytes, TensorsBytes, InfosAt,
      GoodTensor, GoodItem, FeedForward, IndexOf, Convertible, HyperWords, FEED_FORWARD;
    var full, front := Serialize(f, ff), FrontBytes(f, ff);
    FrontKept(f, ff, data);
    FrontAt(f, ff, data);
    TensorsAt(data, full, |front|, f.tensors, f.format.GGJT?);
    FeedForwardFound(InfosAt(f.tensors, |front|, f.format.GGJT?), ff);
  }

  /** A file with a single tensor of one number, whose four bytes are gone: it loads, and the tensor is said to lie
      behind the end of the data. */
  lemma {:induction false} TruncatedLoads()
    ensures var t := TensorFile(FEED_FORWARD, [1, 1], 0, 0, [0, 0, 0, 0]);
            var f := File(GGML, 1, Hyper(0, 0, 0, 0, 0, 0, 0), [], [t]);
            WellFormed(f, 0) && |Serialize(f, 0)| >= 4 &&
            var data := Serialize(f, 0)[..|Serialize(f, 0)| - 4];
            ReadModel(data, 0).Ok? && ReadModel(data, 0).value.offset == |data| + 4
  {
    hide Serialize, ReadModel, GoodTensor, FEED_FORWARD;
    var t := TensorFile(FEED_FORWARD, [1, 1], 0, 0, [0, 0, 0, 0]);
    var f := File(GGML, 1, Hyper(0, 0, 0, 0, 0, 0, 0), [], [t]);
    OneNumber(t);
    EndsInBytes(f);
    LoadInverts(f, 0, Serialize(f, 0)[..|Serialize(f, 0)| - 4]);
  }

  lemma {:induction false} OneNumber(t: TensorFile)
    requires t.name == FEED_FORWARD && t.dims == [1, 1] && t.dtype == 0 && |t.bytes| == 4
    ensures GoodTensor(t)
  {
    assert [1, 1][..1] == [1] && [1][..0] == [];
    assert Ggml.Product([]) == 1 && Ggml.Product([1]) == 1 && Ggml.Product([1, 1]) == 1;
  }

  lemma {:induction false} EndsInBytes(f: File)
    requires WellFormed(f, 0) && f.format.GGML? && f.items == [] && |f.tensors| == 1
    ensures |Serialize(f, 0)| == 4 + 28 + |TensorHeader(f.tensors[0])| + |f.tensors[0].bytes|
  {
    hide GoodTensor, TensorHeader, WordsBytes;
    HeaderFits(f.tensors, |FrontBytes(f, 0)|, false);
  }

  /** In the written file the bytes of every tensor stand where the load says they are. */
  lemma {:induction false} StoredBytes(f: File, ff: nat, i: nat)
    requires WellFormed(f, ff) && i < |f.tensors|
    ensures At(Serialize(f, ff), InfosAt(f.tensors, |FrontBytes(f, ff)|, f.format.GGJT?)[i].start, f.tensors[i].bytes)
  {
    hide At, TensorsBytes, InfosAt, GoodTensor, WellFormed;
    Uncut(f, ff);
    FrontKept(f, ff, Serialize(f, ff));
    FrontAt(f, ff, Serialize(f, ff));
    BytesAt(Serialize(f, ff), |FrontBytes(f, ff)|, f.tensors, f.format.GGJT?, i);
  }

  lemma {:induction false} Uncut(f: File, ff: nat)
    requires WellFormed(f, ff)
    ensures GoodTensors(f.tensors) && CutShort(Serialize(f, ff), Serialize(f, ff), f.tensors)
  {
    hide GoodTensor, GoodItem;
  }

  lemma {:induction false} FrontKept(f: File, ff: nat, data: seq<Byte>)
    requires WellFormed(f, ff) && CutShort(data, Serialize(f, ff), f.tensors)
    ensures |data| >= |FrontBytes(f, ff)|
  {
    hide FrontBytes, TensorsBytes, GoodTensor, GoodItem;
    HeaderFits(f.tensors, |FrontBytes(f, ff)|, f.format.GGJT?);
  }

  lemma {:induction false} FrontAt(f: File, ff: nat, data: seq<Byte>)
    requires WellFormed(f, ff) && data <= Serialize(f, ff) && |data| >= |FrontBytes(f, ff)|
    ensures var size := |HeaderBytes(f.format, f.version)|;
            At(Serialize(f, ff), |FrontBytes(f, ff)|, TensorsBytes(f.tensors, |FrontBytes(f, ff)|, f.format.GGJT?)) &&
            ReadHeader(data, 0) == Ok(Header(f.format, f.version, size)) &&
            ReadHyper(data, size) == Ok(f.hyper) &&
            ReadItems(data, size + 28, |f.items|, !f.format.GGML?) == Ok((f.items, |FrontBytes(f, ff)|))
  {
    hide At, ReadHeader, ReadHyper, ReadItems, HeaderBytes, WordsBytes, ItemsBytes, TensorsBytes, GoodTensor,
      GoodItem, HyperWords;
    var full, front := Serialize(f, ff), FrontBytes(f, ff);
    var head, hyper, items :=
      HeaderBytes(f.format, f.version), WordsBytes(HyperWords(f.hyper)), ItemsBytes(f.items, !f.format.GGML?);
    Whole(full);
    AtSplit(full, 0, front, TensorsBytes(f.tensors, |front|, f.format.GGJT?));
    AtPrefix(data, full, 0, front);
    AtSplit(data, 0, head + hyper, items);
    AtSplit(data, 0, head, hyper);
    HeaderAt(data, f.format, f.version);
    HyperAt(data, |head|, f.hyper);
    ItemsAt(data, |head| + 28, f.items, !f.format.GGML?);
  }

  lemma {:induction false} Whole(full: seq<Byte>)
    ensures At(full, 0, full)
  {
  }

  // ---------- the ranges ----------

  predicate InOrder(infos: seq<Info>, from: nat, end: nat, padded: bool)
  {
    (forall i :: 0 <= i < |infos| ==> from < infos[i].start && infos[i].start + infos[i].len <= end) &&
    (padded ==> forall i :: 0 <= i < |infos| ==> infos[i].start % 32 == 0) &&
    (forall i, j :: 0 <= i < j < |infos| ==> infos[i].start + infos[i].len < infos[j].start) &&
    (infos != [] ==> infos[|infos| - 1].start + infos[|infos| - 1].len == end)
  }

  /** In every file that loads going forward, well-formed or not, the ranges are increasing and disjoint, in GGJT files
      each starts at a multiple of 32, and they lie inside the file if and only if the load ends exactly at its end.
      `GgmlCuts.LoadCut` says for which files it does. */
  lemma {:induction false} RangesInOrder(data: seq<Byte>, offset: nat, padded: bool)
    requires ReadTensors(data, offset, padded).Ok? && offset <= |data|
    ensures var (infos, end) := ReadTensors(data, offset, padded).value;
            InOrder(infos, offset, end, padded) && end >= |data| &&
            ((forall i :: 0 <= i < |infos| ==> infos[i].start + infos[i].len <= |data|) <==> end == |data|)
    decreases |data| - offset
  {
    hide InOrder;
    OrderFrom(data, offset, padded);
    var (infos, end) := ReadTensors(data, offset, padded).value;
    LastEnds(infos, offset, end, padded);
    if infos == [] { TensorsStepped(data, offset, padded); }
  }

  lemma {:induction false} LastEnds(infos: seq<Info>, from: nat, end: nat, padded: bool)
    requires InOrder(infos, from, end, padded)
    ensures forall i :: 0 <= i < |infos| ==> infos[i].start + infos[i].len <= end
    ensures infos != [] ==> infos[|infos| - 1].start + infos[|infos| - 1].len == end
  {
  }

  /** Only a file without room for a tensor gives none. */
  lemma {:induction false} TensorsStepped(data: seq<Byte>, offset: nat, padded: bool)
    requires ReadTensors(data, offset, padded).Ok? && ReadTensors(data, offset, padded).value.0 == []
    ensures offset >= |data| && ReadTensors(data, offset, padded).value.1 == offset
  {
    hide ReadTensor;
  }

  lemma {:induction false} OrderFrom(data: seq<Byte>, offset: nat, padded: bool)
    requires ReadTensors(data, offset, padded).Ok?
    ensures var (infos, end) := ReadTensors(data, offset, padded).value;
            InOrder(infos, offset, end, padded) && end >= |data| && end >= offset
    decreases |data| - offset
  {
    if offset >= |data| {
      TensorsEnd(data, offset, padded);
    } else {
      hide *;
      FirstTensor(data, offset, padded);
      var t := ReadTensor(data, offset, padded).value;
      OrderFrom(data, t.1, padded);
      var (rest, end) := ReadTensors(data, t.1, padded).value;
      if rest == [] { TensorsStepped(data, t.1, padded); }
      OrderMore(t.0, rest, offset, t.1, end, padded);
    }
  }

  lemma {:induction false} FirstTensor(data: seq<Byte>, offset: nat, padded: bool)
    requires ReadTensors(data, offset, padded).Ok? && offset < |data|
    ensures var t := ReadTensor(data, offset, padded);
            t.Ok? && offset < t.value.0.start && offset < t.value.1 == t.value.0.start + t.value.0.len &&
            (padded ==> t.value.0.start % 32 == 0) && ReadTensors(data, t.value.1, padded).Ok? &&
            var rest := ReadTensors(data, t.value.1, padded).value;
            ReadTensors(data, offset, padded).value == ([t.value.0] + rest.0, rest.1)
  {
    hide ReadTensor, ReadTensors, Wrap;
    TensorsStep(data, offset, padded);
    var t := ReadTensor(data, offset, padded).value;
    GoesForward(offset, t.0.start, t.0.len);
  }

  /** A sum that wraps around is an earlier offset. */
  lemma {:induction false} GoesForward(offset: nat, start: nat, len: int)
    requires offset + 12 <= start < offset + 8192 && -TWO_63 <= len < TWO_63 && Wrap(start + len) > offset
    ensures Wrap(start + len) == start + len
  {
    hide Wrap;
    WrapTurns(start + len);
  }

  lemma {:induction false} OrderMore(info: Info, rest: seq<Info>, offset: nat, next: nat, end: nat, padded: bool)
    requires offset < info.start && offset < next == info.start + info.len && (padded ==> info.start % 32 == 0)
    requires InOrder(rest, next, end, padded) && next <= end && (rest == [] ==> next == end)
    ensures InOrder([info] + rest, offset, end, padded)
  {
    var infos := [info] + rest;
    assert forall i :: 1 <= i < |infos| ==> infos[i] == rest[i - 1];
  }
}
