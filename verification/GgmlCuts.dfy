/** Files of the old formats that are cut short: exactly which prefixes of a written file load, and what is read from
    them. Only the fixed part of a tensor's header has to be there; a name or the bytes may be missing. */
module GgmlCuts {
  import opened Wrappers
  import opened Ggml
  import opened GgmlBlocks
  import opened GgmlFiles

  // ---------- where a file is cut ----------

  /** The length of the part of a header the reader asks for: three words and the dimensions. */
  function Fixed(t: TensorFile): (n: nat) { 12 + 4 * |t.dims| }

  /** The offset behind a tensor written at `offset`. */
  function Next(t: TensorFile, offset: nat, padded: bool): (n: nat)
    requires GoodTensor(t)
    ensures n >= offset + Fixed(t) + |t.name|
  {
    offset + |TensorBytes(t, offset, padded)|
  }

  /** Where tensor `i` stands in a file whose tensors begin at `offset`; the last place is the end of the file. */
  function Place(ts: seq<TensorFile>, offset: nat, padded: bool, i: nat): (n: nat)
    requires GoodTensors(ts) && i <= |ts|
    ensures n >= offset
    decreases i
  {
    if i == 0 then offset else Place(ts[1..], Next(ts[0], offset, padded), padded, i - 1)
  }

  /** The cut falls inside no fixed part of a header. */
  predicate Readable(ts: seq<TensorFile>, offset: nat, padded: bool, n: nat)
    requires GoodTensors(ts)
  {
    forall i :: 0 <= i < |ts| ==>
      !(Place(ts, offset, padded, i) < n < Place(ts, offset, padded, i) + Fixed(ts[i]))
  }

  /** The cut falls between two tensors, or in front of the first or behind the last one. */
  predicate AtBoundary(ts: seq<TensorFile>, offset: nat, padded: bool, n: nat)
    requires GoodTensors(ts)
  {
    exists i :: 0 <= i <= |ts| && Place(ts, offset, padded, i) == n
  }

  // ---------- what is read ----------

  /** How much of a tensor's name is left. */
  function Left(t: TensorFile, offset: nat, n: nat): (k: nat)
    ensures k <= |t.name|
  {
    var at := offset + Fixed(t);
    if n <= at then 0 else if n - at < |t.name| then n - at else |t.name|
  }

  function CutInfo(t: TensorFile, offset: nat, padded: bool, n: nat): (info: Info)
    requires GoodTensor(t)
  {
    Info(t.name[..Left(t, offset, n)], t.dims, t.dtype, StartOf(t, offset, padded), |t.bytes|)
  }

  /** The number of tensors that begin before the cut. */
  function Begun(ts: seq<TensorFile>, offset: nat, padded: bool, n: nat): (k: nat)
    requires GoodTensors(ts)
    ensures k <= |ts|
    decreases |ts|
  {
    if ts == [] || n <= offset then 0 else 1 + Begun(ts[1..], Next(ts[0], offset, padded), padded, n)
  }

  /** The last name shortened to `k` bytes. */
  function Trimmed(infos: seq<Info>, k: nat): (r: seq<Info>)
    requires infos != [] && k <= |infos[|infos| - 1].name|
    ensures |r| == |infos|
  {
    var m := |infos| - 1;
    infos[m := infos[m].(name := infos[m].name[..k])]
  }

  /** The infos of the tensors that begin before the cut, the last one with what is left of its name. */
  function CutInfos(ts: seq<TensorFile>, offset: nat, padded: bool, n: nat): (infos: seq<Info>)
    requires GoodTensors(ts)
    ensures |infos| == Begun(ts, offset, padded, n)
  {
    var k := Begun(ts, offset, padded, n);
    if k == 0 then []
    else Trimmed(InfosAt(ts, offset, padded)[..k], Left(ts[k - 1], Place(ts, offset, padded, k - 1), n))
  }

  /** Exactly the tensors that stand before the cut have begun. */
  lemma {:induction false} BegunExactly(ts: seq<TensorFile>, offset: nat, padded: bool, n: nat, i: nat)
    requires GoodTensors(ts) && i < |ts|
    ensures i < Begun(ts, offset, padded, n) <==> Place(ts, offset, padded, i) < n
    decreases i
  {
    hide GoodTensor;
    if i > 0 { BegunExactly(ts[1..], Next(ts[0], offset, padded), padded, n, i - 1); }
  }

  // ---------- reading a cut file ----------

  lemma {:induction false} SliceCut(data: seq<Byte>, full: seq<Byte>, at: nat, s: seq<Byte>)
    requires At(full, at, s) && data <= full && at <= |data|
    ensures Slice(data, at, |s|) == s[..if |data| - at < |s| then |data| - at else |s|]
  {
    var k := if |data| - at < |s| then |data| - at else |s|;
    assert full[at..at + |s|][..k] == full[at..at + k] == data[at..at + k];
  }

  lemma {:induction false} CutTensor(data: seq<Byte>, full: seq<Byte>, offset: nat, t: TensorFile, padded: bool)
    requires GoodTensor(t) && At(full, offset, TensorHeader(t)) && data <= full && offset < |data|
    requires Next(t, offset, padded) < TWO_63
    ensures ReadTensor(data, offset, padded) ==
            if |data| < offset + Fixed(t) then Err(ShortRead)
            else Ok((CutInfo(t, offset, padded, |data|), Next(t, offset, padded)))
  {
    hide At, Words, Slice, WordsBytes, PadLength, ByteLength, QuantSize, LayoutOf, Stored, Ggml.Product;
    GoodLength(t);
    var head := [|t.dims|, |t.name|, t.dtype];
    AtSplit(full, offset, WordsBytes(head) + WordsBytes(t.dims), t.name);
    AtSplit(full, offset, WordsBytes(head), WordsBytes(t.dims));
    if |data| >= offset + 12 {
      WordsCut(data, full, offset, head);
      WordsCut(data, full, offset + 12, t.dims);
      if |data| >= offset + Fixed(t) { SliceCut(data, full, offset + Fixed(t), t.name); }
    }
  }

  lemma {:induction false} WordsCut(data: seq<Byte>, full: seq<Byte>, offset: nat, ws: seq<nat>)
    requires (forall i :: 0 <= i < |ws| ==> IsWord(ws[i])) && At(full, offset, WordsBytes(ws)) && data <= full
    ensures Words(data, offset, |ws|) == if |data| < offset + 4 * |ws| then Err(ShortRead) else Ok(ws)
  {
    hide At, WordsBytes;
    if |data| >= offset + 4 * |ws| {
      AtPrefix(data, full, offset, WordsBytes(ws));
      WordsAt(data, offset, ws);
    }
  }

  lemma {:induction false} ReadableStep(ts: seq<TensorFile>, offset: nat, padded: bool, n: nat)
    requires GoodTensors(ts)
    ensures n <= offset ==> Readable(ts, offset, padded, n)
    ensures ts != [] && n > offset ==>
      (Readable(ts, offset, padded, n) <==>
       n >= offset + Fixed(ts[0]) && Readable(ts[1..], Next(ts[0], offset, padded), padded, n))
  {
    hide GoodTensor, Next, Fixed;
    if ts != [] && n > offset {
      var next := Next(ts[0], offset, padded);
      assert forall i :: 1 <= i < |ts| ==> Place(ts, offset, padded, i) == Place(ts[1..], next, padded, i - 1);
      if n >= offset + Fixed(ts[0]) && Readable(ts[1..], next, padded, n) {
        forall i | 0 <= i < |ts|
          ensures !(Place(ts, offset, padded, i) < n < Place(ts, offset, padded, i) + Fixed(ts[i]))
        {
          if i > 0 { assert ts[1..][i - 1] == ts[i]; }
        }
      }
      if Readable(ts, offset, padded, n) {
        assert Place(ts, offset, padded, 0) == offset;
        forall i | 0 <= i < |ts[1..]|
          ensures !(Place(ts[1..], next, padded, i) < n < Place(ts[1..], next, padded, i) + Fixed(ts[1..][i]))
        {
          assert ts[1..][i] == ts[i + 1] && Place(ts, offset, padded, i + 1) == Place(ts[1..], next, padded, i);
        }
      }
    }
  }

  lemma {:induction false} TrimmedMore(info: Info, rest: seq<Info>, k: nat)
    requires rest != [] && k <= |rest[|rest| - 1].name|
    ensures ([info] + rest)[|rest|] == rest[|rest| - 1] && Trimmed([info] + rest, k) == [info] + Trimmed(rest, k)
  {
  }

  lemma {:induction false} MoreInfos(info: Info, rest: seq<Info>, k: nat)
    requires k <= |rest|
    ensures ([info] + rest)[..k + 1] == [info] + rest[..k]
  {
  }

  lemma {:induction false} BegunStep(ts: seq<TensorFile>, offset: nat, padded: bool, n: nat)
    requires GoodTensors(ts) && ts != [] && n > offset
    ensures Begun(ts, offset, padded, n) == 1 + Begun(ts[1..], Next(ts[0], offset, padded), padded, n)
    ensures Begun(ts[1..], Next(ts[0], offset, padded), padded, n) > 0 ==> n > Next(ts[0], offset, padded)
  {
    hide GoodTensor, Next;
  }

  /** One tensor more in front. */
  lemma {:induction false} CutInfosStep(ts: seq<TensorFile>, offset: nat, padded: bool, n: nat)
    requires GoodTensors(ts) && ts != [] && n > offset
    ensures var next := Next(ts[0], offset, padded);
            CutInfos(ts, offset, padded, n) == [CutInfo(ts[0], offset, padded, n)] + CutInfos(ts[1..], next, padded, n)
  {
    hide GoodTensor, StartOf, InfosAt, Next, Left, Place, Begun, Trimmed;
    var next := Next(ts[0], offset, padded);
    var rest := InfosAt(ts[1..], next, padded);
    var k := Begun(ts[1..], next, padded, n);
    BegunStep(ts, offset, padded, n);
    FirstInfo(ts, offset, padded);
    MoreInfos(InfosAt(ts, offset, padded)[0], rest, k);
    if k == 0 {
      OnlyTrimmed(ts[0], offset, padded, n);
      NoneBegun(ts, offset, padded);
    } else {
      hide CutInfo;
      WholeInfo(ts[0], offset, padded, n);
      NextPlace(ts, offset, padded, k);
      TrimmedMore(InfosAt(ts, offset, padded)[0], rest[..k], Left(ts[k], Place(ts, offset, padded, k), n));
    }
  }

  lemma {:induction false} OnlyTrimmed(t: TensorFile, offset: nat, padded: bool, n: nat)
    requires GoodTensor(t)
    ensures Trimmed([Info(t.name, t.dims, t.dtype, StartOf(t, offset, padded), |t.bytes|)], Left(t, offset, n)) ==
            [CutInfo(t, offset, padded, n)]
  {
    hide GoodTensor, StartOf, Left;
  }

  lemma {:induction false} NextPlace(ts: seq<TensorFile>, offset: nat, padded: bool, k: nat)
    requires GoodTensors(ts) && 0 < k <= |ts|
    ensures Place(ts, offset, padded, k) == Place(ts[1..], Next(ts[0], offset, padded), padded, k - 1)
  {
    hide GoodTensor, Next;
  }

  lemma {:induction false} FirstInfo(ts: seq<TensorFile>, offset: nat, padded: bool)
    requires GoodTensors(ts) && ts != []
    ensures var t := ts[0];
            InfosAt(ts, offset, padded) ==
            [Info(t.name, t.dims, t.dtype, StartOf(t, offset, padded), |t.bytes|)] +
            InfosAt(ts[1..], Next(t, offset, padded), padded)
  {
    hide StartOf, GoodTensor, TensorBytes;
  }

  lemma {:induction false} WholeInfo(t: TensorFile, offset: nat, padded: bool, n: nat)
    requires GoodTensor(t) && n > Next(t, offset, padded)
    ensures CutInfo(t, offset, padded, n) == Info(t.name, t.dims, t.dtype, StartOf(t, offset, padded), |t.bytes|)
  {
    hide StartOf, GoodTensor, TensorBytes;
    assert t.name[..|t.name|] == t.name;
  }

  /** From a prefix of a written file the tensors that begin before the cut are read, or none if the cut falls into the
      fixed part of a header. */
  lemma {:induction false} CutTensors(data: seq<Byte>, full: seq<Byte>, offset: nat, ts: seq<TensorFile>,
                                      padded: bool)
    requires GoodTensors(ts) && At(full, offset, TensorsBytes(ts, offset, padded))
    requires |full| == offset + |TensorsBytes(ts, offset, padded)| < TWO_63 && data <= full
    ensures ReadTensors(data, offset, padded) ==
            if Readable(ts, offset, padded, |data|) then
              Ok((CutInfos(ts, offset, padded, |data|), Place(ts, offset, padded, Begun(ts, offset, padded, |data|))))
            else Err(ShortRead)
    decreases |ts|
  {
    hide At, ReadTensor, ReadTensors, TensorBytes, TensorsBytes, TensorHeader, StartOf, GoodTensor, InfosAt, CutInfos,
      CutInfo, Readable;
    var n := |data|;
    ReadableStep(ts, offset, padded, n);
    if n <= offset {
      TensorsEnd(data, offset, padded);
      assert CutInfos(ts, offset, padded, n) == [];
    } else if ts == [] {
      NoTensorBytes(offset, padded);
      assert false;
    } else {
      var next := Next(ts[0], offset, padded);
      FirstAt(full, offset, ts, padded);
      HeaderEnds(ts[0], offset, padded);
      FirstBytes(ts, offset, padded);
      CutTensor(data, full, offset, ts[0], padded);
      TensorsStep(data, offset, padded);
      if n >= offset + Fixed(ts[0]) {
        CutTensors(data, full, next, ts[1..], padded);
        CutInfosStep(ts, offset, padded, n);
      }
    }
  }

  // ---------- the ranges ----------

  lemma {:induction false} PlaceStep(ts: seq<TensorFile>, offset: nat, padded: bool, i: nat)
    requires GoodTensors(ts) && i < |ts|
    ensures Place(ts, offset, padded, i) < Place(ts, offset, padded, i + 1)
    ensures var info := InfosAt(ts, offset, padded)[i]; info.start + info.len == Place(ts, offset, padded, i + 1)
    decreases i
  {
    hide GoodTensor, TensorBytes, InfosAt, StartOf;
    var next := Next(ts[0], offset, padded);
    FirstInfo(ts, offset, padded);
    HeaderEnds(ts[0], offset, padded);
    if i == 0 {
      assert Place(ts[1..], next, padded, 0) == next;
    } else {
      PlaceStep(ts[1..], next, padded, i - 1);
    }
  }

  lemma {:induction false} PlacesGrow(ts: seq<TensorFile>, offset: nat, padded: bool, i: nat, j: nat)
    requires GoodTensors(ts) && i <= j <= |ts|
    ensures Place(ts, offset, padded, i) <= Place(ts, offset, padded, j)
    decreases j
  {
    hide GoodTensor, Place;
    if i < j {
      PlaceStep(ts, offset, padded, j - 1);
      PlacesGrow(ts, offset, padded, i, j - 1);
    }
  }

  /** The last place is the end of the bytes. */
  lemma {:induction false} PlaceEnds(ts: seq<TensorFile>, offset: nat, padded: bool)
    requires GoodTensors(ts)
    ensures Place(ts, offset, padded, |ts|) == offset + |TensorsBytes(ts, offset, padded)|
    decreases |ts|
  {
    hide GoodTensor, TensorBytes, TensorsBytes, InfosAt, StartOf;
    if ts == [] {
      NoTensorBytes(offset, padded);
    } else {
      HeaderEnds(ts[0], offset, padded);
      FirstBytes(ts, offset, padded);
      PlaceEnds(ts[1..], Next(ts[0], offset, padded), padded);
    }
  }

  predicate Inside(infos: seq<Info>, n: nat)
  {
    forall i :: 0 <= i < |infos| ==> infos[i].start + infos[i].len <= n
  }

  /** The ranges that are read lie inside a file exactly if it is cut at a boundary. */
  lemma {:induction false} RangesInside(ts: seq<TensorFile>, offset: nat, padded: bool, n: nat)
    requires GoodTensors(ts) && offset <= n <= Place(ts, offset, padded, |ts|)
    ensures Inside(CutInfos(ts, offset, padded, n), n) <==> AtBoundary(ts, offset, padded, n)
  {
    hide GoodTensor, Place, Begun, InfosAt, Left;
    var k := Begun(ts, offset, padded, n);
    var infos := CutInfos(ts, offset, padded, n);
    forall i | 0 <= i < k
      ensures infos[i].start + infos[i].len == Place(ts, offset, padded, i + 1) && Place(ts, offset, padded, i) < n
    {
      PlaceStep(ts, offset, padded, i);
      BegunExactly(ts, offset, padded, n, i);
    }
    if k < |ts| { BegunExactly(ts, offset, padded, n, k); }
    if Inside(infos, n) {
      if k > 0 { assert infos[k - 1].start + infos[k - 1].len <= n; }
      NoneBegun(ts, offset, padded);
      assert Place(ts, offset, padded, k) == n;
    }
    if AtBoundary(ts, offset, padded, n) {
      var j: nat :| j <= |ts| && Place(ts, offset, padded, j) == n;
      forall i: nat | i < k
        ensures infos[i].start + infos[i].len <= n
      {
        if j <= i { PlacesGrow(ts, offset, padded, j, i); } else { PlacesGrow(ts, offset, padded, i + 1, j); }
      }
    }
  }

  lemma {:induction false} NoneBegun(ts: seq<TensorFile>, offset: nat, padded: bool)
    requires GoodTensors(ts)
    ensures Place(ts, offset, padded, 0) == offset
  {
  }

  // ---------- the feed-forward width ----------

  /** Info `i` is the last one with the name the width is looked up by, and has a second dimension. */
  predicate GivesWidth(infos: seq<Info>, i: nat)
  {
    i < |infos| && infos[i].name == FEED_FORWARD && |infos[i].dims| >= 2 &&
    forall j :: i < j < |infos| ==> infos[j].name != FEED_FORWARD
  }

  lemma {:induction false} WidthExactly(infos: seq<Info>)
    ensures FeedForward(IndexOf(infos), infos).Ok? <==> exists i: nat :: i < |infos| && GivesWidth(infos, i)
    ensures forall i: nat :: i < |infos| && GivesWidth(infos, i) ==>
      FeedForward(IndexOf(infos), infos) == Ok(infos[i].dims[1])
  {
    hide FEED_FORWARD;
    var index := IndexOf(infos);
    hide IndexOf;
    if FeedForward(index, infos).Ok? {
      var i := index[FEED_FORWARD];
      assert GivesWidth(infos, i);
    }
    forall i: nat | i < |infos| && GivesWidth(infos, i)
      ensures FeedForward(index, infos) == Ok(infos[i].dims[1])
    {
      assert infos[i].name in index && i <= index[infos[i].name];
    }
  }

  // ---------- what stands before the tensors ----------

  lemma {:induction false} WordsPrefix(data: seq<Byte>, full: seq<Byte>, offset: nat, k: nat)
    requires data <= full && Words(data, offset, k).Ok?
    ensures Words(full, offset, k) == Words(data, offset, k)
  {
    assert forall i :: 0 <= i < |data| ==> data[i] == full[i];
    assert Words(full, offset, k).value == Words(data, offset, k).value;
  }

  lemma {:induction false} HeaderPrefix(data: seq<Byte>, full: seq<Byte>)
    requires data <= full && ReadHeader(data, 0).Ok?
    ensures ReadHeader(full, 0) == ReadHeader(data, 0)
  {
    hide Words;
    if |data| >= 4 {
      assert Slice(data, 0, 4) == data[0..4] == full[0..4] == Slice(full, 0, 4);
    }
    if Words(data, 4, 1).Ok? { WordsPrefix(data, full, 4, 1); }
  }

  lemma {:induction false} HyperPrefix(data: seq<Byte>, full: seq<Byte>, offset: nat)
    requires data <= full && ReadHyper(data, offset).Ok?
    ensures ReadHyper(full, offset) == ReadHyper(data, offset)
  {
    hide Words;
    WordsPrefix(data, full, offset, 7);
  }

  /** The words decide where an item ends, even if its text is cut. */
  lemma {:induction false} ItemPrefix(data: seq<Byte>, full: seq<Byte>, offset: nat, scores: bool)
    requires data <= full && ReadItem(data, offset, scores).Ok?
    ensures ReadItem(full, offset, scores).Ok?
    ensures ReadItem(full, offset, scores).value.1 == ReadItem(data, offset, scores).value.1
  {
    hide Words, Slice;
    WordsPrefix(data, full, offset, 1);
    if scores { WordsPrefix(data, full, offset + 4 + Words(data, offset, 1).value[0], 1); }
  }

  lemma {:induction false} ItemsPrefix(data: seq<Byte>, full: seq<Byte>, offset: nat, n: nat, scores: bool)
    requires data <= full && ReadItems(data, offset, n, scores).Ok?
    ensures ReadItems(full, offset, n, scores).Ok?
    ensures ReadItems(full, offset, n, scores).value.1 == ReadItems(data, offset, n, scores).value.1
    decreases n
  {
    hide ReadItem;
    if n > 0 {
      ItemPrefix(data, full, offset, scores);
      ItemsPrefix(data, full, ReadItem(data, offset, scores).value.1, n - 1, scores);
    }
  }

  /** A file that is cut before its tensors does not load: if the vocabulary can be read, no tensor can. */
  lemma {:induction false} FrontMissing(f: File, ff: nat, data: seq<Byte>)
    requires WellFormed(f, ff) && data <= Serialize(f, ff) && |data| < |FrontBytes(f, ff)|
    ensures ReadModel(data, 0).Err?
  {
    hide ReadHeader, ReadHyper, ReadItems, ReadTensors, WellFormed, Serialize, FrontBytes, FeedForward, IndexOf,
      Convertible;
    var full := Serialize(f, ff);
    FrontFits(f, ff);
    FrontAt(f, ff, full);
    if ReadHeader(data, 0).Ok? {
      HeaderPrefix(data, full);
      var size := ReadHeader(data, 0).value.size;
      if ReadHyper(data, size).Ok? {
        HyperPrefix(data, full, size);
        if ReadItems(data, size + 28, f.hyper.nVocab, !f.format.GGML?).Ok? {
          ItemsPrefix(data, full, size + 28, f.hyper.nVocab, !f.format.GGML?);
          TensorsEnd(data, |FrontBytes(f, ff)|, f.format.GGJT?);
          WidthExactly([]);
        }
      }
    }
  }

  lemma {:induction false} FrontFits(f: File, ff: nat)
    requires WellFormed(f, ff)
    ensures |FrontBytes(f, ff)| <= |Serialize(f, ff)| && |f.items| == f.hyper.nVocab
  {
    hide FrontBytes, TensorsBytes, GoodTensor, GoodItem;
  }

  // ---------- the theorem ----------

  /** What becomes of any prefix of a written file. It loads if and only if the cut falls inside no fixed part of a
      tensor's header and, among the tensors that begin before the cut, the last with the feed-forward name has two
      dimensions. Then everything in front is read as it was written, and so are the tensors that begin before the cut,
      except that the last one has what is left of its name. Their ranges lie inside the prefix if and only if it ends
      at the end of a tensor. */
  lemma {:induction false} LoadCut(f: File, ff: nat, data: seq<Byte>)
    requires WellFormed(f, ff) && |Serialize(f, ff)| < TWO_63 && data <= Serialize(f, ff)
    ensures var from, padded := |FrontBytes(f, ff)|, f.format.GGJT?;
            var infos, l := CutInfos(f.tensors, from, padded, |data|), ReadModel(data, 0);
            (l.Ok? <==>
             Readable(f.tensors, from, padded, |data|) && exists i: nat :: i < |infos| && GivesWidth(infos, i)) &&
            (l.Ok? ==>
             (forall i: nat :: i < |infos| && GivesWidth(infos, i) ==>
                l == Ok(Loaded(f.format, f.version, f.hyper, infos[i].dims[1], f.items, infos,
                               Place(f.tensors, from, padded, Begun(f.tensors, from, padded, |data|))))) &&
             (Inside(infos, |data|) <==> AtBoundary(f.tensors, from, padded, |data|)))
  {
    hide ReadHeader, ReadHyper, ReadItems, ReadTensors, WellFormed, Serialize, FrontBytes, FeedForward, IndexOf,
      Convertible, At, CutInfos, Readable, Inside, AtBoundary, GivesWidth, Place, TensorsBytes;
    WellFormedParts(f, ff);
    var from, padded, n := |FrontBytes(f, ff)|, f.format.GGJT?, |data|;
    var infos := CutInfos(f.tensors, from, padded, n);
    if n < from {
      FrontMissing(f, ff, data);
      NothingLeft(f.tensors, from, padded, n);
    } else {
      FrontAt(f, ff, data);
      SerializeEnds(f, ff);
      CutTensors(data, Serialize(f, ff), from, f.tensors, padded);
      WidthExactly(infos);
      PlaceEnds(f.tensors, from, padded);
      RangesInside(f.tensors, from, padded, n);
    }
  }

  lemma {:induction false} WellFormedParts(f: File, ff: nat)
    requires WellFormed(f, ff)
    ensures GoodTensors(f.tensors) && |f.items| == f.hyper.nVocab && Convertible(f.format, f.version, f.hyper.ftype)
  {
  }

  lemma {:induction false} SerializeEnds(f: File, ff: nat)
    requires WellFormed(f, ff)
    ensures GoodTensors(f.tensors)
    ensures |Serialize(f, ff)| == |FrontBytes(f, ff)| + |TensorsBytes(f.tensors, |FrontBytes(f, ff)|, f.format.GGJT?)|
  {
    hide FrontBytes, TensorsBytes, GoodTensor, GoodItem;
  }

  lemma {:induction false} NothingLeft(ts: seq<TensorFile>, offset: nat, padded: bool, n: nat)
    requires GoodTensors(ts) && n <= offset
    ensures CutInfos(ts, offset, padded, n) == []
  {
  }

  // ---------- a wrong name ----------

  const WIDTH := TensorFile(FEED_FORWARD, [1, 1], 0, 0, [0, 0, 0, 0])
  const OTHER := TensorFile([98, 98], [1], 0, 0, [0, 0, 0, 0])
  const TWO := File(GGML, 1, Hyper(0, 0, 0, 0, 0, 0, 0), [], [WIDTH, OTHER])

  /** A file that ends inside the name of its second tensor: it loads, and the tensor is called `b` instead of `bb`. */
  lemma {:induction false} NameCut()
    ensures WellFormed(TWO, 0) && |Serialize(TWO, 0)| >= 5 &&
            var data := Serialize(TWO, 0)[..|Serialize(TWO, 0)| - 5];
            ReadModel(data, 0).Ok? && |ReadModel(data, 0).value.tensors| == 2 &&
            ReadModel(data, 0).value.tensors[1].name == [98] && ReadModel(data, 0).value.offset == |data| + 5
  {
    hide Serialize, ReadModel, GoodTensor, FEED_FORWARD, FrontBytes, CutInfos, Place, Readable, GivesWidth, WIDTH,
      OTHER;
    GoodTwo();
    TwoEnds();
    var from := |FrontBytes(TWO, 0)|;
    var data := Serialize(TWO, 0)[..|Serialize(TWO, 0)| - 5];
    TwoCut(from, |data|);
    LoadCut(TWO, 0, data);
    assert GivesWidth(CutInfos(TWO.tensors, from, false, |data|), 0);
  }

  lemma {:induction false} GoodTwo()
    ensures GoodTensor(WIDTH) && GoodTensor(OTHER) && WellFormed(TWO, 0)
  {
    OneNumber(WIDTH);
    assert [1][..0] == [] && Ggml.Product([]) == 1 && Ggml.Product([1]) == 1;
  }

  lemma {:induction false} TwoEnds()
    requires WellFormed(TWO, 0)
    ensures |FrontBytes(TWO, 0)| == 32
    ensures |Serialize(TWO, 0)| == Place(TWO.tensors, 32, false, 2) < TWO_63
  {
    SerializeEnds(TWO, 0);
    PlaceEnds(TWO.tensors, 32, false);
  }

  lemma {:induction false} TwoCut(from: nat, n: nat)
    requires GoodTensors(TWO.tensors) && n + 5 == Place(TWO.tensors, from, false, 2)
    ensures var infos := CutInfos(TWO.tensors, from, false, n);
            Readable(TWO.tensors, from, false, n) && Begun(TWO.tensors, from, false, n) == 2 && |infos| == 2 &&
            infos[1].name == [98] && GivesWidth(infos, 0)
  {
  }
}
