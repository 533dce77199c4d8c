/** The reader of the GGML, GGMF and GGJT model files that came before GGUF. Each class has the fields of the
    Python class and a `Load` that sets them; the functions beside it say what the bytes mean. */
module Ggml {
  import opened Wrappers

  type Byte = b: nat | b < 256

  datatype LoadError =
    | AlreadyGguf | BadVersion | BadMagic | ShortRead | BadFtype | NotConvertible | AbsurdItem | TooManyDims
    | AbsurdName | UnknownType | Backwards | MissingFeedForward | MissingDimension

  type Outcome<+T> = Result<T, LoadError>

  // ---------- bytes ----------

  /** A slice that, as in Python, is cut at the end of the data. */
  function Slice(data: seq<Byte>, offset: nat, n: nat): (s: seq<Byte>)
    ensures offset + n <= |data| ==> s == data[offset..offset + n]
  {
    var from, to := if offset < |data| then offset else |data|, if offset + n < |data| then offset + n else |data|;
    data[from..to]
  }

  /** A little-endian 32-bit word. */
  function Word(data: seq<Byte>, offset: nat): (w: nat)
    requires offset + 4 <= |data|
    ensures w < 0x1_0000_0000
  {
    var b0: nat, b1: nat, b2: nat, b3: nat := data[offset], data[offset + 1], data[offset + 2], data[offset + 3];
    b0 + b1 * 256 + b2 * 65536 + b3 * 16777216
  }

  /** `k` words in a row, or a failure if the data ends before. */
  function Words(data: seq<Byte>, offset: nat, k: nat): (r: Outcome<seq<nat>>)
    ensures r.Ok? ==> |r.value| == k && forall i :: 0 <= i < k ==> r.value[i] < 0x1_0000_0000
    ensures r.Ok? <==> offset + 4 * k <= |data|
  {
    if offset + 4 * k <= |data| then Ok(seq(k, i requires 0 <= i < k => Word(data, offset + 4 * i))) else Err(ShortRead)
  }

  // ---------- the header ----------

  datatype Format = GGML | GGMF | GGJT

  datatype Header = Header(format: Format, version: nat, size: nat)

  /** A magic number is spelled as the bytes it has in the file. */
  const GGUF_MAGIC: seq<Byte> := [71, 71, 85, 70]
  const GGML_MAGIC: seq<Byte> := [108, 109, 103, 103]
  const GGMF_MAGIC: seq<Byte> := [102, 109, 103, 103]
  const GGJT_MAGIC: seq<Byte> := [116, 106, 103, 103]

  function ReadHeader(data: seq<Byte>, offset: nat): (r: Outcome<Header>)
  {
    var magic := Slice(data, offset, 4);
    if magic == GGUF_MAGIC then Err(AlreadyGguf)
    else if magic == GGML_MAGIC then Ok(Header(GGML, 1, 4))
    else
      var version := Words(data, offset + 4, 1);
      if version.Err? then Err(ShortRead)
      else if magic == GGMF_MAGIC then if version.value[0] != 1 then Err(BadVersion) else Ok(Header(GGMF, 1, 8))
      else if magic == GGJT_MAGIC then
        if version.value[0] < 1 || version.value[0] > 3 then Err(BadVersion) else Ok(Header(GGJT, version.value[0], 8))
      else Err(BadMagic)
  }

  // ---------- hyperparameters ----------

  datatype Hyper = Hyper(nVocab: nat, nEmbd: nat, nMult: nat, nHead: nat, nLayer: nat, nRot: nat, ftype: nat)

  /** The file types that have a name: 0 to 4 and 7 to 18. */
  predicate IsFtype(ftype: nat) { ftype <= 4 || 7 <= ftype <= 18 }

  function ReadHyper(data: seq<Byte>, offset: nat): (r: Outcome<Hyper>)
  {
    var w := Words(data, offset, 7);
    if w.Err? then Err(ShortRead)
    else if !IsFtype(w.value[6]) then Err(BadFtype)
    else Ok(Hyper(w.value[0], w.value[1], w.value[2], w.value[3], w.value[4], w.value[5], w.value[6]))
  }

  /** Old quantised files cannot be converted: before the second GGJT version no quantised ones, in the second none
      of the types 2, 3, 4 and 7. */
  predicate Convertible(format: Format, version: nat, ftype: nat)
  {
    if !format.GGJT? || version < 2 then ftype in {0, 1}
    else if version == 2 then ftype !in {2, 3, 4, 7}
    else true
  }

  class Hyperparameters {
    var nVocab: nat
    var nEmbd: nat
    var nMult: nat
    var nHead: nat
    var nLayer: nat
    var nRot: nat
    var nFf: nat
    var ftype: nat

    constructor ()
    {
      nVocab, nEmbd, nMult, nHead, nLayer, nRot, nFf, ftype := 0, 0, 0, 0, 0, 0, 0, 0;
    }

    ghost function View(): (h: Hyper)
      reads this
    {
      Hyper(nVocab, nEmbd, nMult, nHead, nLayer, nRot, ftype)
    }

    method Load(data: seq<Byte>, offset: nat) returns (r: Outcome<nat>)
      modifies this
      ensures r == var h := ReadHyper(data, offset); if h.Err? then Err(h.error) else Ok(28)
      ensures r.Ok? ==> Ok(View()) == ReadHyper(data, offset)
    {
      var w := Words(data, offset, 7);
      if w.Err? { return Err(ShortRead); }
      nVocab, nEmbd, nMult, nHead, nLayer, nRot :=
        w.value[0], w.value[1], w.value[2], w.value[3], w.value[4], w.value[5];
      if !IsFtype(w.value[6]) { return Err(BadFtype); }
      ftype := w.value[6];
      r := Ok(28);
    }

    /** `set_n_ff`: the width of the feed-forward layer is the second dimension of a tensor looked up by name. */
    method SetNFf(model: GGMLModel, ghost infos: seq<Info>) returns (r: Outcome<()>)
      requires Shows(model.tensors, infos) && model.tensorMap == IndexOf(infos)
      modifies this`nFf
      ensures r == var n := FeedForward(IndexOf(infos), infos); if n.Err? then Err(n.error) else Ok(())
      ensures r.Ok? ==> Ok(nFf) == FeedForward(IndexOf(infos), infos)
    {
      if FEED_FORWARD !in model.tensorMap { return Err(MissingFeedForward); }
      var ffTensor := model.tensors[model.tensorMap[FEED_FORWARD]];
      if |ffTensor.dims| < 2 { return Err(MissingDimension); }
      nFf := ffTensor.dims[1];
      r := Ok(());
    }
  }

  // ---------- vocabulary ----------

  /** A token and its score, as the four bytes of the float. */
  datatype Item = Item(text: seq<Byte>, score: nat)

  /** An item and the offset after it. */
  function ReadItem(data: seq<Byte>, offset: nat, scores: bool): (r: Outcome<(Item, nat)>)
    ensures r.Ok? ==> r.value.1 >= offset + 4
  {
    var len := Words(data, offset, 1);
    if len.Err? then Err(ShortRead)
    else if len.value[0] >= 4096 then Err(AbsurdItem)
    else
      var text, next := Slice(data, offset + 4, len.value[0]), offset + 4 + len.value[0];
      if !scores then Ok((Item(text, 0), next))
      else
        var score := Words(data, next, 1);
        if score.Err? then Err(ShortRead) else Ok((Item(text, score.value[0]), next + 4))
  }

  /** `n` items and the offset after them. */
  function ReadItems(data: seq<Byte>, offset: nat, n: nat, scores: bool): (r: Outcome<(seq<Item>, nat)>)
    ensures r.Ok? ==> |r.value.0| == n && r.value.1 >= offset
    decreases n
  {
    if n == 0 then Ok(([], offset))
    else
      var item := ReadItem(data, offset, scores);
      if item.Err? then Err(item.error)
      else Prepend([item.value.0], ReadItems(data, item.value.1, n - 1, scores))
  }

  function Prepend<T>(items: seq<T>, r: Outcome<(seq<T>, nat)>): (r': Outcome<(seq<T>, nat)>)
  {
    if r.Err? then r else Ok((items + r.value.0, r.value.1))
  }

  lemma {:induction false} PrependNothing<T>(r: Outcome<(seq<T>, nat)>)
    ensures Prepend([], r) == r
  {
    if r.Ok? { assert [] + r.value.0 == r.value.0; }
  }

  lemma {:induction false} PrependMore<T>(items: seq<T>, item: T, r: Outcome<(seq<T>, nat)>)
    ensures Prepend(items + [item], r) == Prepend(items, Prepend([item], r))
  {
    if r.Ok? { assert items + [item] + r.value.0 == items + ([item] + r.value.0); }
  }

  lemma {:induction false} PrependToNothing<T>(items: seq<T>, offset: nat)
    ensures Prepend(items, Ok(([], offset))) == Ok((items, offset))
  {
    assert items + [] == items;
  }

  class Vocab {
    var items: seq<Item>
    const loadScores: bool

    constructor (loadScores: bool)
      ensures items == [] && this.loadScores == loadScores
    {
      items := [];
      this.loadScores := loadScores;
    }

    method Load(data: seq<Byte>, start: nat, nVocab: nat) returns (r: Outcome<nat>)
      requires items == []
      modifies this
      ensures r ==
        var v := ReadItems(data, start, nVocab, loadScores); if v.Err? then Err(v.error) else Ok(v.value.1 - start)
      ensures r.Ok? ==> Ok((items, start + r.value)) == ReadItems(data, start, nVocab, loadScores)
    {
      hide Prepend, Words, Slice;
      var offset := start;
      PrependNothing(ReadItems(data, start, nVocab, loadScores));
      for i := 0 to nVocab
        invariant offset >= start
        invariant ReadItems(data, start, nVocab, loadScores) ==
          Prepend(items, ReadItems(data, offset, nVocab - i, loadScores))
      {
        ghost var before, at := items, offset;
        if ReadItem(data, at, loadScores).Err? { PrependFailure(before, ReadItem(data, at, loadScores).error); }
        var len := Words(data, offset, 1);
        if len.Err? { return Err(ShortRead); }
        if len.value[0] >= 4096 { return Err(AbsurdItem); }
        offset := offset + 4;
        var text := Slice(data, offset, len.value[0]);
        offset := offset + len.value[0];
        var score := 0;
        if loadScores {
          var w := Words(data, offset, 1);
          if w.Err? { return Err(ShortRead); }
          score := w.value[0];
          offset := offset + 4;
        }
        items := items + [Item(text, score)];
        PrependMore(before, Item(text, score), ReadItems(data, offset, nVocab - i - 1, loadScores));
      }
      PrependToNothing(items, offset);
      r := Ok(offset - start);
    }
  }

  lemma {:induction false} PrependFailure<T>(items: seq<T>, e: LoadError)
    ensures Prepend(items, Err(e)) == Err(e)
  {
  }

  // ---------- tensors ----------

  /** What is known of a tensor: its header, and where its bytes are said to be. */
  datatype Info = Info(name: seq<Byte>, dims: seq<nat>, dtype: nat, start: nat, len: int)

  /** The block size and the bytes a block takes, by type number. */
  function QuantSize(dtype: nat): (r: Option<(nat, nat)>)
    ensures r.Some? ==> r.value.0 > 0 && r.value.1 > 0
  {
    match dtype
    case 0 => Some((1, 4))
    case 1 => Some((1, 2))
    case 2 => Some((32, 18))
    case 3 => Some((32, 20))
    case 6 => Some((32, 22))
    case 7 => Some((32, 24))
    case 8 => Some((32, 34))
    case 9 => Some((32, 40))
    case 10 => Some((256, 84))
    case 11 => Some((256, 110))
    case 12 => Some((256, 144))
    case 13 => Some((256, 176))
    case 14 => Some((256, 210))
    case 15 => Some((256, 292))
    case 16 => Some((256, 66))
    case 17 => Some((256, 74))
    case 18 => Some((256, 98))
    case 19 => Some((256, 50))
    case 20 => Some((32, 18))
    case 21 => Some((256, 110))
    case 22 => Some((256, 82))
    case 23 => Some((256, 136))
    case 24 => Some((1, 1))
    case 25 => Some((1, 2))
    case 26 => Some((1, 4))
    case 27 => Some((1, 8))
    case 28 => Some((1, 8))
    case 29 => Some((256, 56))
    case 30 => Some((1, 2))
    case 34 => Some((256, 54))
    case 35 => Some((256, 66))
    case 39 => Some((32, 17))
    case 40 => Some((64, 36))
    case 41 => Some((128, 18))
    case 42 => Some((64, 18))
    case _ => None
  }

  function Product(dims: seq<nat>): (n: nat)
  {
    if dims == [] then 1 else Product(dims[..|dims| - 1]) * dims[|dims| - 1]
  }

  const TWO_63 := 0x8000_0000_0000_0000
  const TWO_64 := 0x1_0000_0000_0000_0000

  /** The 64-bit integer a number wraps around to. */
  function Wrap(x: int): (r: int)
    ensures -TWO_63 <= r < TWO_63
    ensures -TWO_63 <= x < TWO_63 ==> r == x
  {
    (x + TWO_63) % TWO_64 - TWO_63
  }

  /** `np.prod`: the product of the dimensions in 64-bit arithmetic. */
  function Elements(dims: seq<nat>): (n: int)
  {
    if dims == [] then 1 else Wrap(Elements(dims[..|dims| - 1]) * dims[|dims| - 1])
  }

  /** The bytes of a tensor as computed, wrapped around or not. */
  function ByteLength(dims: seq<nat>, size: (nat, nat)): (n: int)
    requires size.0 > 0
    ensures -TWO_63 <= n < TWO_63
  {
    Quotient(Wrap(Elements(dims) * size.1), size.0);
    Wrap(Elements(dims) * size.1) / size.0
  }

  lemma {:induction false} Quotient(x: int, b: nat)
    requires b > 0
    ensures x >= 0 ==> 0 <= x / b <= x
    ensures x < 0 ==> x <= x / b < 0
  {
    var q := x / b;
    assert q * b <= x < q * b + b;
    assert (q + 1) * b == q * b + b;
    TimesSize(q, b);
    TimesSize(q + 1, b);
  }

  lemma {:induction false} TimesSize(q: int, b: nat)
    requires b > 0
    ensures q >= 0 ==> q * b >= q
    ensures q <= 0 ==> q * b <= q
  {
    if q >= 0 {
      assert q * b == q * (b - 1) + q;
      assert q * (b - 1) >= 0;
    } else {
      assert q * b == q * (b - 1) + q;
      assert q * (b - 1) <= 0;
    }
  }

  lemma {:induction false} WrapTurns(x: int)
    ensures Wrap(x) == x - (x + TWO_63) / TWO_64 * TWO_64
  {
  }

  lemma {:induction false} MulAdd(a: int, b: int, m: int)
    ensures (a + b) * m == a * m + b * m
  {
  }

  /** Wrapping around on the way changes nothing. */
  lemma {:induction false} WrapTimes(x: int, d: int)
    ensures Wrap(Wrap(x) * d) == Wrap(x * d)
  {
    hide Wrap;
    WrapTurns(x);
    var k := (x + TWO_63) / TWO_64;
    assert Wrap(x) * d == x * d + -(k * d) * TWO_64 by { Distribute(x, k, d, TWO_64); }
    WrapShift(x * d, -(k * d));
  }

  lemma {:induction false} Distribute(x: int, k: int, d: int, m: int)
    ensures (x - k * m) * d == x * d + -(k * d) * m
  {
    MulAdd(x, -(k * m), d);
    assert (k * m) * d == (k * d) * m;
  }

  lemma {:induction false} WrapShift(x: int, k: int)
    ensures Wrap(x + k * TWO_64) == Wrap(x)
  {
  }

  lemma {:induction false} ElementsWrap(dims: seq<nat>)
    ensures Elements(dims) == Wrap(Product(dims))
  {
    hide Wrap;
    if dims != [] {
      var m := |dims| - 1;
      ElementsWrap(dims[..m]);
      WrapTimes(Product(dims[..m]), dims[m]);
    }
  }

  /** The length of a tensor is computed right if and only if its dimensions times the size of a block fit 63 bits:
      a wrapped product differs by more than any block can hide. */
  lemma {:induction false} SizeExactly(dims: seq<nat>, size: (nat, nat))
    requires 0 < size.0 <= 256
    ensures ByteLength(dims, size) == Product(dims) * size.1 / size.0 <==> Product(dims) * size.1 < TWO_63
  {
    hide Wrap, Elements, Product, ByteLength;
    var bytes: nat := Product(dims) * size.1;
    WrappedSize(dims, size);
    if bytes >= TWO_63 {
      WrapTurns(bytes);
      FarApart(Wrap(bytes), bytes, size.0);
    }
  }

  lemma {:induction false} WrappedSize(dims: seq<nat>, size: (nat, nat))
    requires size.0 > 0
    ensures ByteLength(dims, size) == Wrap(Product(dims) * size.1) / size.0
  {
    hide Wrap, Elements, Product;
    ElementsWrap(dims);
    WrapTimes(Product(dims), size.1);
  }

  /** Four dimensions of 65536 make a tensor of no bytes. */
  lemma {:induction false} SizeWraps()
    ensures ByteLength([65536, 65536, 65536, 65536], (1, 4)) == 0
  {
    hide Elements;
    ElementsMore([], 65536);
    ElementsMore([65536], 65536);
    ElementsMore([65536, 65536], 65536);
    ElementsMore([65536, 65536, 65536], 65536);
    assert [] + [65536] == [65536] && [65536] + [65536] == [65536, 65536];
    assert [65536, 65536] + [65536] == [65536, 65536, 65536];
    assert [65536, 65536, 65536] + [65536] == [65536, 65536, 65536, 65536];
    assert Elements([]) == 1 by { NoElements(); }
  }

  lemma {:induction false} NoElements()
    ensures Elements([]) == 1
  {
  }

  lemma {:induction false} ElementsMore(dims: seq<nat>, d: nat)
    ensures Elements(dims + [d]) == Wrap(Elements(dims) * d)
  {
    assert (dims + [d])[..|dims|] == dims;
  }

  lemma {:induction false} FarApart(x: int, y: int, b: nat)
    requires x + 256 <= y && 0 < b <= 256
    ensures x / b < y / b
  {
    var q, r := x / b, y / b;
    assert q * b <= x && y < r * b + b;
    MulAdd(q - r, r, b);
    assert q >= r ==> (q - r) * b >= 0;
  }

  /** The padding that takes an offset to the next multiple of 32. */
  function PadLength(offset: nat, padded: bool): (n: nat)
    ensures padded ==> (offset + n) % 32 == 0 && n < 32
    ensures !padded ==> n == 0
  {
    if padded then (offset + 31) / 32 * 32 - offset else 0
  }

  /** The tensor at an offset and the offset after its bytes, in 64-bit arithmetic: it is an earlier one if the length
      wraps around to a negative one or the sum does. The bytes themselves are not looked at. */
  function ReadTensor(data: seq<Byte>, offset: nat, padded: bool): (r: Outcome<(Info, int)>)
    ensures r.Ok? ==> offset + 12 <= r.value.0.start < offset + 8192 && -TWO_63 <= r.value.0.len < TWO_63
    ensures r.Ok? ==> r.value.1 == Wrap(r.value.0.start + r.value.0.len)
    ensures r.Ok? && padded ==> r.value.0.start % 32 == 0
  {
    var head := Words(data, offset, 3);
    if head.Err? then Err(ShortRead)
    else
      var nDims, nameLen, dtype := head.value[0], head.value[1], head.value[2];
      if nDims > 4 then Err(TooManyDims)
      else if nameLen >= 4096 then Err(AbsurdName)
      else if QuantSize(dtype).None? then Err(UnknownType)
      else
        var dims := Words(data, offset + 12, nDims);
        if dims.Err? then Err(ShortRead)
        else
          var nameAt := offset + 12 + 4 * nDims;
          var end := nameAt + nameLen;
          var start := end + PadLength(end, padded);
          var len := ByteLength(dims.value, QuantSize(dtype).value);
          Ok((Info(Slice(data, nameAt, nameLen), dims.value, dtype, start, len), Wrap(start + len)))
  }

  class Tensor {
    var name: seq<Byte>
    var dims: seq<nat>
    var dtype: nat
    var startOffset: nat
    var lenBytes: int
    const usePadding: bool

    constructor (usePadding: bool)
      ensures this.usePadding == usePadding
    {
      name, dims, dtype, startOffset, lenBytes := [], [], 0, 0, 0;
      this.usePadding := usePadding;
    }

    ghost function View(): (t: Info)
      reads this
    {
      Info(name, dims, dtype, startOffset, lenBytes)
    }

    method Load(data: seq<Byte>, start: nat) returns (r: Outcome<int>)
      modifies this
      ensures r == var t := ReadTensor(data, start, usePadding); if t.Err? then Err(t.error) else Ok(t.value.1 - start)
      ensures r.Ok? ==> Ok((View(), start + r.value)) == ReadTensor(data, start, usePadding)
    {
      hide QuantSize, ByteLength, PadLength;
      var offset: int := start;
      var head := Words(data, offset, 3);
      if head.Err? { return Err(ShortRead); }
      var nDims, nameLen := head.value[0], head.value[1];
      if nDims > 4 { return Err(TooManyDims); }
      if nameLen >= 4096 { return Err(AbsurdName); }
      dtype := head.value[2];
      var quant := QuantSize(dtype);
      if quant.None? { return Err(UnknownType); }
      offset := offset + 12;
      var words := Words(data, offset, nDims);
      if words.Err? { return Err(ShortRead); }
      dims := words.value;
      offset := offset + 4 * nDims;
      name := Slice(data, offset, nameLen);
      offset := offset + nameLen;
      offset := offset + PadLength(offset, usePadding);
      var nBytes := ByteLength(dims, quant.value);
      startOffset := offset;
      lenBytes := nBytes;
      offset := Wrap(offset + nBytes);
      r := Ok(offset - start);
    }
  }

  /** The tensors, by their fields. */
  ghost predicate Shows(tensors: seq<Tensor>, infos: seq<Info>)
    reads tensors
  {
    |tensors| == |infos| && forall i :: 0 <= i < |tensors| ==> tensors[i].View() == infos[i]
  }

  // ---------- the model ----------

  /** The tensors from an offset to the end of the data. A tensor that ends before it starts is an error here: the
      program goes back in the data. */
  function ReadTensors(data: seq<Byte>, offset: nat, padded: bool): (r: Outcome<(seq<Info>, nat)>)
    decreases |data| - offset
  {
    if offset >= |data| then Ok(([], offset))
    else
      var t := ReadTensor(data, offset, padded);
      if t.Err? then Err(t.error)
      else if t.value.1 <= offset then Err(Backwards)
      else Prepend([t.value.0], ReadTensors(data, t.value.1, padded))
  }

  /** Later tensors of the same name replace earlier ones. */
  function IndexOf(tensors: seq<Info>): (m: map<seq<Byte>, nat>)
    ensures forall name :: name in m ==> m[name] < |tensors| && tensors[m[name]].name == name
    ensures forall i :: 0 <= i < |tensors| ==> tensors[i].name in m && i <= m[tensors[i].name]
  {
    if tensors == [] then map[]
    else
      var last := |tensors| - 1;
      var m := IndexOf(tensors[..last]);
      assert forall i :: 0 <= i < last ==> tensors[..last][i] == tensors[i];
      m[tensors[last].name := last]
  }

  /** b'layers.0.feed_forward.w1.weight' */
  const FEED_FORWARD: seq<Byte> :=
    [108, 97, 121, 101, 114, 115, 46, 48, 46, 102, 101, 101, 100, 95, 102, 111, 114, 119, 97, 114, 100, 46, 119, 49, 46,
     119, 101, 105, 103, 104, 116]

  function FeedForward(index: map<seq<Byte>, nat>, tensors: seq<Info>): (r: Outcome<nat>)
    requires forall name :: name in index ==> index[name] < |tensors|
  {
    if FEED_FORWARD !in index then Err(MissingFeedForward)
    else if |tensors[index[FEED_FORWARD]].dims| < 2 then Err(MissingDimension)
    else Ok(tensors[index[FEED_FORWARD]].dims[1])
  }

  /** Everything a load finds out. */
  datatype Loaded = Loaded(format: Format, version: nat, hyper: Hyper, nFf: nat, items: seq<Item>,
                           tensors: seq<Info>, offset: nat)

  function ReadModel(data: seq<Byte>, offset: nat): (r: Outcome<Loaded>)
  {
    var head := ReadHeader(data, offset);
    if head.Err? then Err(head.error)
    else
      var Header(format, version, size) := head.value;
      var hyper := ReadHyper(data, offset + size);
      if hyper.Err? then Err(hyper.error)
      else if !Convertible(format, version, hyper.value.ftype) then Err(NotConvertible)
      else
        ReadBody(data, offset + size + 28, format, version, hyper.value)
  }

  /** What follows the hyperparameters. */
  function ReadBody(data: seq<Byte>, offset: nat, format: Format, version: nat, hyper: Hyper): (r: Outcome<Loaded>)
  {
    var vocab := ReadItems(data, offset, hyper.nVocab, !format.GGML?);
    if vocab.Err? then Err(vocab.error)
    else
      var tensors := ReadTensors(data, vocab.value.1, format.GGJT?);
      if tensors.Err? then Err(tensors.error)
      else
        var nFf := FeedForward(IndexOf(tensors.value.0), tensors.value.0);
        if nFf.Err? then Err(nFf.error)
        else Ok(Loaded(format, version, hyper, nFf.value, vocab.value.0, tensors.value.0, tensors.value.1))
  }

  class GGMLModel {
    var fileFormat: Format
    var formatVersion: nat
    var hyperparameters: Hyperparameters?
    var vocab: Vocab?
    var tensorMap: map<seq<Byte>, nat>
    var tensors: seq<Tensor>

    constructor ()
      ensures hyperparameters == null && vocab == null && tensorMap == map[] && tensors == []
    {
      fileFormat, formatVersion := GGML, 0;
      hyperparameters, vocab := null, null;
      tensorMap, tensors := map[], [];
    }

    /** The fields agree with what was found out. */
    ghost predicate Holds(l: Loaded)
      reads this, hyperparameters, vocab, tensors
    {
      fileFormat == l.format && formatVersion == l.version &&
      hyperparameters != null && hyperparameters.View() == l.hyper && hyperparameters.nFf == l.nFf &&
      vocab != null && vocab.items == l.items &&
      Shows(tensors, l.tensors) && tensorMap == IndexOf(l.tensors)
    }

    method ValidateHeader(data: seq<Byte>, offset: nat) returns (r: Outcome<nat>)
      modifies this`fileFormat, this`formatVersion
      ensures r == var h := ReadHeader(data, offset); if h.Err? then Err(h.error) else Ok(h.value.size)
      ensures r.Ok? ==> Ok(Header(fileFormat, formatVersion, r.value)) == ReadHeader(data, offset)
    {
      var magic := Slice(data, offset, 4);
      if magic == GGUF_MAGIC { return Err(AlreadyGguf); }
      if magic == GGML_MAGIC {
        fileFormat, formatVersion := GGML, 1;
        return Ok(4);
      }
      var words := Words(data, offset + 4, 1);
      if words.Err? { return Err(ShortRead); }
      var version := words.value[0];
      if magic == GGMF_MAGIC {
        if version != 1 { return Err(BadVersion); }
        fileFormat, formatVersion := GGMF, version;
        return Ok(8);
      }
      if magic == GGJT_MAGIC {
        if version < 1 || version > 3 { return Err(BadVersion); }
        fileFormat, formatVersion := GGJT, version;
        return Ok(8);
      }
      r := Err(BadMagic);
    }

    method ValidateConversion(ftype: nat) returns (r: Outcome<()>)
      ensures r == if Convertible(fileFormat, formatVersion, ftype) then Ok(()) else Err(NotConvertible)
    {
      var refused := false;
      if !fileFormat.GGJT? || formatVersion < 2 {
        if ftype !in {0, 1} { refused := true; }
      } else if fileFormat.GGJT? && formatVersion == 2 {
        if ftype in {2, 3, 4, 7} { refused := true; }
      }
      r := if refused then Err(NotConvertible) else Ok(());
    }

    /** `load`: returns the offset behind the last tensor. */
    method Load(data: seq<Byte>, start: nat) returns (r: Outcome<nat>)
      modifies this
      ensures r == var l := ReadModel(data, start); if l.Err? then Err(l.error) else Ok(l.value.offset)
      ensures r.Ok? ==> Holds(ReadModel(data, start).value)
    {
      hide ReadHeader, ReadHyper, ReadBody, Convertible, Holds;
      var size := ValidateHeader(data, start);
      if size.Err? { return size; }
      var offset := start + size.value;
      var hp := new Hyperparameters();
      var hpSize := hp.Load(data, offset);
      if hpSize.Err? { return hpSize; }
      offset := offset + hpSize.value;
      var eligible := ValidateConversion(hp.ftype);
      if eligible.Err? { return Err(NotConvertible); }
      r := LoadBody(data, offset, hp);
    }

    /** The vocabulary, the tensors, and the feed-forward width they give. */
    method LoadBody(data: seq<Byte>, start: nat, hp: Hyperparameters) returns (r: Outcome<nat>)
      modifies this, hp
      ensures r == var l := ReadBody(data, start, old(fileFormat), old(formatVersion), old(hp.View()));
                   if l.Err? then Err(l.error) else Ok(l.value.offset)
      ensures r.Ok? ==> Holds(ReadBody(data, start, old(fileFormat), old(formatVersion), old(hp.View())).value)
    {
      hide ReadItems, ReadTensors, FeedForward, IndexOf, Shows;
      var v := new Vocab(!fileFormat.GGML?);
      var size := v.Load(data, start, hp.nVocab);
      if size.Err? { return size; }
      var read, index, end, infos := LoadTensors(data, start + size.value, fileFormat.GGJT?);
      if end.Err? { return end; }
      hyperparameters, vocab := hp, v;
      tensors, tensorMap := read, index;
      var done := hp.SetNFf(this, infos);
      if done.Err? { return Err(done.error); }
      r := end;
    }

    method LoadTensor(data: seq<Byte>, offset: nat, padded: bool) returns (tensor: Tensor, size: Outcome<int>)
      ensures fresh(tensor)
      ensures size == var t := ReadTensor(data, offset, padded); if t.Err? then Err(t.error) else Ok(t.value.1 - offset)
      ensures size.Ok? ==> tensor.View() == ReadTensor(data, offset, padded).value.0
    {
      hide ReadTensor;
      tensor := new Tensor(padded);
      size := tensor.Load(data, offset);
    }

    /** The loop over the tensors. */
    method LoadTensors(data: seq<Byte>, start: nat, padded: bool)
        returns (read: seq<Tensor>, index: map<seq<Byte>, nat>, end: Outcome<nat>, ghost infos: seq<Info>)
      ensures end == var ts := ReadTensors(data, start, padded); if ts.Err? then Err(ts.error) else Ok(ts.value.1)
      ensures end.Ok? ==> Ok((infos, end.value)) == ReadTensors(data, start, padded)
      ensures fresh(read) && Shows(read, infos) && index == IndexOf(infos)
    {
      hide IndexOf, ReadTensor, ReadTensors, Prepend, Shows;
      read, index, infos := [], map[], [];
      var offset := start;
      IndexNothing();
      ShowsNothing();
      PrependNothing(ReadTensors(data, start, padded));
      while offset < |data|
        invariant fresh(read) && Shows(read, infos) && index == IndexOf(infos)
        invariant ReadTensors(data, start, padded) == Prepend(infos, ReadTensors(data, offset, padded))
        decreases |data| - offset
      {
        ghost var t := ReadTensor(data, offset, padded);
        TensorsStep(data, offset, padded);
        if t.Err? { PrependFailure(infos, t.error); }
        PrependFailure(infos, Backwards);
        var tensor, size := LoadTensor(data, offset, padded);
        if size.Err? { return read, index, Err(size.error), infos; }
        if size.value <= 0 { return read, index, Err(Backwards), infos; }
        offset := offset + size.value;
        ghost var info := tensor.View();
        ShowsMore(read, infos, tensor);
        IndexMore(infos, info);
        PrependMore(infos, info, ReadTensors(data, offset, padded));
        index := index[tensor.name := |read|];
        read, infos := read + [tensor], infos + [info];
      }
      TensorsEnd(data, offset, padded);
      PrependToNothing(infos, offset);
      end := Ok(offset);
    }
  }

  lemma {:induction false} TensorsStep(data: seq<Byte>, offset: nat, padded: bool)
    requires offset < |data|
    ensures ReadTensors(data, offset, padded) ==
            var t := ReadTensor(data, offset, padded);
            if t.Err? then Err(t.error)
            else if t.value.1 <= offset then Err(Backwards)
            else Prepend([t.value.0], ReadTensors(data, t.value.1, padded))
  {
    hide ReadTensor;
  }

  lemma {:induction false} TensorsEnd(data: seq<Byte>, offset: nat, padded: bool)
    requires offset >= |data|
    ensures ReadTensors(data, offset, padded) == Ok(([], offset))
  {
  }

  lemma {:induction false} ShowsNothing()
    ensures Shows([], [])
  {
  }

  lemma {:induction false} ShowsMore(tensors: seq<Tensor>, infos: seq<Info>, tensor: Tensor)
    requires Shows(tensors, infos)
    ensures |tensors| == |infos| && Shows(tensors + [tensor], infos + [tensor.View()])
  {
  }

  lemma {:induction false} IndexNothing()
    ensures IndexOf([]) == map[]
  {
  }

  lemma {:induction false} IndexMore(infos: seq<Info>, info: Info)
    ensures IndexOf(infos + [info]) == IndexOf(infos)[info.name := |infos|]
  {
    assert (infos + [info])[..|infos|] == infos;
  }
}
