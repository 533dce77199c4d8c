/** What the operations that cut and join `LoraTorchTensor` do to the matrix, entry by entry: reshapes, subscripts,
    `split`, `stack`, `cat` and scaling. */
module LoraPieces {
  import opened Wrappers
  import opened Tensors
  import opened Lora
  import opened LoraJoins
  import opened LoraPrograms
  import opened LoraEntries

  // ---------- reshape ----------

  /** `reshape`: the same entries in row-major order, under the shape that was asked for. */
  lemma {:induction false} ReshapeEntries(l: LoraTensor, dims: seq<int>)
    requires WellFormed(l) && SafeReshape(l, dims) && ReshapeFactors(l, dims).Ok?
    ensures var r := ReshapeFactors(l, dims).value;
            |Shape(r)| == |dims| >= 2 && (forall i :: 0 <= i < |dims| && dims[i] != -1 ==> Shape(r)[i] == dims[i]) &&
            Product(Shape(r)) == Product(Shape(l)) && Dense(r).data == Dense(l).data
  {
    hide Dense, Product, ReshapeTo, WellFormed, Reshapes;
    WellFormedBuilt(l);
    ReshapeExact(l, dims);
    var r := ReshapeFactors(l, dims).value;
    var shape := ExpandShape(Shape(l), dims).value;
    DenseShape(l);
    DenseShape(r);
    ReshapeDense(l, shape);
    Expanded(Shape(l), dims);
  }

  lemma {:induction false} Expanded(orig: seq<nat>, dims: seq<int>)
    requires ExpandShape(orig, dims).Ok?
    ensures forall i :: 0 <= i < |dims| && dims[i] != -1 ==> ExpandShape(orig, dims).value[i] == dims[i]
  {
    hide Product;
  }

  /** When `reshape` succeeds: the shape, with -1 filled in, keeps the columns, the rows of B fit before them, and A has
      no batches of its own; of factors without entries less is asked. */
  lemma {:induction false} ReshapeSucceeds(l: LoraTensor, dims: seq<int>)
    requires WellFormed(l)
    ensures ReshapeFactors(l, dims).Ok? <==>
      |dims| >= 2 && ExpandShape(Shape(l), dims).Ok? &&
      var shape := ExpandShape(Shape(l), dims).value;
      shape[|dims| - 1] == Columns(l) &&
      (Rank(l) == 0 || Product(shape[..|dims| - 1]) == Product(RowsB(l))) &&
      (Rank(l) == 0 || Columns(l) == 0 || forall d :: 0 <= d < Dims(l) - 2 ==> l.a.shape[d] == 1)
  {
    hide Product, ExpandShape, ReshapeTo, WellFormed;
    WellFormedBuilt(l);
    if |dims| >= 2 && ExpandShape(Shape(l), dims).Ok? {
      var shape := ExpandShape(Shape(l), dims).value;
      var m := |shape| - 1;
      ToSucceeds(l, shape);
      RowsFit(shape[..m], RowsB(l), Rank(l));
      BatchesFit(m - 1, LeadA(l), Rank(l), Columns(l));
      assert forall d :: 0 <= d < Dims(l) - 2 ==> LeadA(l)[d] == l.a.shape[d];
    }
  }

  lemma {:induction false} ToSucceeds(l: LoraTensor, shape: seq<nat>)
    requires Built(l) && |shape| >= 2
    ensures var m := |shape| - 1;
            ReshapeTo(l, shape).Ok? <==>
            shape[m] == Columns(l) && Product(shape[..m] + [Rank(l)]) == Product(RowsB(l) + [Rank(l)]) &&
            Product(Ones(m - 1) + [Rank(l), Columns(l)]) == Product(LeadA(l) + [Rank(l), Columns(l)])
  {
    hide Product;
    Shapes(l);
    var m := |shape| - 1;
    assert |Ones(m - 1) + [Rank(l), Columns(l)]| == |shape[..m] + [Rank(l)]| == m + 1;
    assert (Ones(m - 1) + [Rank(l), Columns(l)])[m - 1] == (shape[..m] + [Rank(l)])[m] == Rank(l);
  }

  lemma {:induction false} RowsFit(s: seq<nat>, rows: seq<nat>, rank: nat)
    ensures Product(s + [rank]) == Product(rows + [rank]) <==> rank == 0 || Product(s) == Product(rows)
  {
    hide Product;
    ProductAppend(s, rank);
    ProductAppend(rows, rank);
    if rank > 0 && Product(s) * rank == Product(rows) * rank { CancelFactor(Product(s), Product(rows), rank); }
  }

  lemma {:induction false} BatchesFit(k: nat, lead: seq<nat>, rank: nat, columns: nat)
    ensures Product(Ones(k) + [rank, columns]) == Product(lead + [rank, columns]) <==>
            rank == 0 || columns == 0 || forall d :: 0 <= d < |lead| ==> lead[d] == 1
  {
    hide Product;
    assert Ones(k) + [rank] + [columns] == Ones(k) + [rank, columns];
    assert lead + [rank] + [columns] == lead + [rank, columns];
    OnesProduct(k);
    RowsFit(Ones(k) + [rank], lead + [rank], columns);
    RowsFit(Ones(k), lead, rank);
    if Product(lead) == 1 { ProductPositive(lead); }
    if forall d :: 0 <= d < |lead| ==> lead[d] == 1 { assert lead == Ones(|lead|); OnesProduct(|lead|); }
  }

  // ---------- what a slice means in Python ----------

  /** A slice of `n` positions begins at `Begin` and stops before `Stop`: negative bounds count from the end, bounds out
      of range are moved into it, and absent ones are the whole. */
  function Begin(r: Range, n: nat): (p: nat)
  {
    match r.start
    case None => 0
    case Some(v) => if n + v < 0 then 0 else if v < 0 then n + v else if v <= n then v else n
  }

  function Stop(r: Range, n: nat): (p: nat)
  {
    match r.stop
    case None => n
    case Some(v) => if n + v < 0 then 0 else if v < 0 then n + v else if v <= n then v else n
  }

  /** The position slot `k` of a slice reads. */
  function Reads(r: Range, n: nat, k: nat): (p: nat)
    requires r.step > 0
  {
    MulNonNegative(k, r.step);
    Begin(r, n) + k * r.step
  }

  /** A slice has exactly the slots whose position is before the stop. */
  lemma {:induction false} SliceMeans(r: Range, n: nat)
    requires ResolveRange(r, n).Ok?
    ensures r.step > 0 && ResolveRange(r, n).value.Run?
    ensures var e := ResolveRange(r, n).value;
            e.start == Begin(r, n) && e.step == r.step &&
            forall k: nat :: k < e.len <==> Reads(r, n, k) < Stop(r, n)
  {
    var e := ResolveRange(r, n).value;
    forall k: nat
      ensures k < e.len <==> Reads(r, n, k) < Stop(r, n)
    {
      var d := Stop(r, n) - Begin(r, n);
      if d <= 0 {
        MulAtLeast(k, r.step, 0);
      } else {
        CountSlots(d, r.step, k);
      }
    }
  }

  lemma {:induction false} CountSlots(d: nat, s: nat, k: nat)
    requires d > 0 && s > 0
    ensures k < (d + s - 1) / s <==> k * s < d
  {
    var q := (d + s - 1) / s;
    assert q * s <= d + s - 1 < q * s + s;
    if k < q { MulLess(k, q, s); } else { MulLess(q, k, s); }
  }

  lemma {:induction false} SliceSucceeds(r: Range, n: nat)
    ensures ResolveRange(r, n).Ok? <==> r.step > 0
  {
  }

  // ---------- gathering with runs ----------

  predicate AllRuns(es: seq<Entry>) { forall d :: 0 <= d < |es| ==> es[d].Run? }

  /** Runs keep every dimension, and read each at its own stride. */
  lemma {:induction false} RunsGather(es: seq<Entry>, idx: seq<nat>)
    requires AllRuns(es) && |idx| == |es|
    ensures |GatherShape(es)| == |es| && forall d :: 0 <= d < |es| ==> GatherShape(es)[d] == es[d].len
    ensures forall d :: 0 <= d < |es| ==> GatherIndex(es, idx)[d] == StepTo(es[d], idx[d])
    decreases |es|
  {
    if es != [] {
      var m := |es| - 1;
      RunsGather(es[..m], idx[..m]);
    }
  }

  /** A tensor subscripted in one dimension. */
  lemma {:induction false} OneGather(t: Tensor, d: nat, e: Entry, idx: seq<nat>)
    requires d < |t.shape| && e.Run? && Gather(t, OneEntry(t.shape, d, e)).Ok? && |idx| == |t.shape|
    ensures Gather(t, OneEntry(t.shape, d, e)).value.shape == t.shape[d := e.len]
    ensures In(idx, t.shape[d := e.len]) ==>
      At(Gather(t, OneEntry(t.shape, d, e)).value, idx) == At(t, idx[d := StepTo(e, idx[d])])
  {
    hide At, Product, Subscripted;
    var es := OneEntry(t.shape, d, e);
    RunsGather(es, idx);
    assert GatherShape(es) == t.shape[d := e.len];
    GatherError(t, es);
    if In(idx, t.shape[d := e.len]) {
      SubscriptedAt(t, es, idx);
      assert GatherIndex(es, idx) == idx[d := StepTo(e, idx[d])];
    }
  }

  // ---------- a single subscript ----------

  /** `t[start:stop:step]`: slot `k` of the result is the position the slice reads there, and there are as many slots as
      positions before the stop. */
  lemma {:induction false} SliceEntries(l: LoraTensor, r: Range)
    requires WellFormed(l) && SafeFirst(l, Slice(r)) && FirstFactors(l, Slice(r)).Ok?
    ensures r.step > 0
    ensures var out, n := FirstFactors(l, Slice(r)).value, Shape(l)[0];
            |Shape(out)| == Dims(l) && Shape(out)[1..] == Shape(l)[1..] &&
            (forall k: nat :: k < Shape(out)[0] <==> Reads(r, n, k) < Stop(r, n)) &&
            forall idx :: In(idx, Shape(out)) ==> At(Dense(out), idx) == At(Dense(l), idx[0 := Reads(r, n, idx[0])])
  {
    hide Dense, At, Product, FirstFactors, ResolveRange, Gather, WellFormed, SafeFirst, OneEntry, Reads, Stop;
    WellFormedBuilt(l);
    FirstCorrect(l, Slice(r));
    var out, n := FirstFactors(l, Slice(r)).value, Shape(l)[0];
    WellFormedBuilt(out);
    DenseShape(l);
    DenseShape(out);
    FirstDefined(Dense(l), Slice(r));
    var e := ResolveRange(r, n).value;
    SliceMeans(r, n);
    OneGather(Dense(l), 0, e, Shape(l));
    assert Shape(out) == Shape(l)[0 := e.len];
    forall idx | In(idx, Shape(out))
      ensures At(Dense(out), idx) == At(Dense(l), idx[0 := Reads(r, n, idx[0])])
    {
      OneGather(Dense(l), 0, e, idx);
      assert Reads(r, n, idx[0]) == StepTo(e, idx[0]) by { ReadsStep(r, n, e, idx[0]); }
    }
  }

  lemma {:induction false} ReadsStep(r: Range, n: nat, e: Entry, k: nat)
    requires r.step > 0 && e.Run? && e.start == Begin(r, n) && e.step == r.step
    ensures Reads(r, n, k) == StepTo(e, k)
  {
  }

  lemma {:induction false} FirstDefined(t: Tensor, ix: Ix)
    requires FirstDense(t, ix).Ok?
    ensures t.shape != [] && Resolve(ix, t.shape[0]).Ok?
    ensures Gather(t, OneEntry(t.shape, 0, Resolve(ix, t.shape[0]).value)) == FirstDense(t, ix)
  {
    hide Resolve, Gather, OneEntry;
  }

  /** `t[i]` of three or more dimensions drops the first and reads one position of it. */
  lemma {:induction false} PositionEntries(l: LoraTensor, i: int)
    requires WellFormed(l) && FirstFactors(l, Position(i)).Ok?
    ensures InRange(i, Shape(l)[0])
    ensures var out := FirstFactors(l, Position(i)).value;
            Shape(out) == Shape(l)[1..] &&
            forall idx :: In(idx, Shape(out)) ==> At(Dense(out), idx) == At(Dense(l), [Spot(i, Shape(l)[0])] + idx)
  {
    hide Dense, At, Product, FirstFactors, Gather, WellFormed, OneEntry;
    WellFormedBuilt(l);
    FirstCorrect(l, Position(i));
    var out, n := FirstFactors(l, Position(i)).value, Shape(l)[0];
    WellFormedBuilt(out);
    DenseShape(l);
    DenseShape(out);
    FirstDefined(Dense(l), Position(i));
    var p := Spot(i, n);
    assert Resolve(Position(i), n) == Ok(Pick(p));
    PickGather(Dense(l), p, Shape(l)[1..]);
    forall idx | In(idx, Shape(out))
      ensures At(Dense(out), idx) == At(Dense(l), [p] + idx)
    {
      PickGather(Dense(l), p, idx);
    }
  }

  /** A tensor subscripted by one position in front. */
  lemma {:induction false} PickGather(t: Tensor, p: nat, idx: seq<nat>)
    requires t.shape != [] && Gather(t, OneEntry(t.shape, 0, Pick(p))).Ok? && |idx| == |t.shape| - 1
    ensures Gather(t, OneEntry(t.shape, 0, Pick(p))).value.shape == t.shape[1..]
    ensures In(idx, t.shape[1..]) ==> At(Gather(t, OneEntry(t.shape, 0, Pick(p))).value, idx) == At(t, [p] + idx)
  {
    hide At, Product, Subscripted, GatherShape, GatherIndex, OneEntry, Gather;
    var es := OneEntry(t.shape, 0, Pick(p));
    PickedIs(t.shape, p, idx);
    GatherError(t, es);
    if In(idx, t.shape[1..]) { SubscriptedAt(t, es, idx); }
  }

  lemma {:induction false} PickedIs(shape: seq<nat>, p: nat, idx: seq<nat>)
    requires shape != [] && |idx| == |shape| - 1
    ensures GatherShape(OneEntry(shape, 0, Pick(p))) == shape[1..]
    ensures GatherIndex(OneEntry(shape, 0, Pick(p)), idx) == [p] + idx
  {
    hide GatherShape, GatherIndex;
    var es := OneEntry(shape, 0, Pick(p));
    assert es == [Pick(p)] + es[1..];
    PickFront(p, es[1..], idx);
  }

  lemma {:induction false} PickFront(p: nat, es: seq<Entry>, idx: seq<nat>)
    requires AllRuns(es) && |idx| == |es|
    ensures var all := [Pick(p)] + es;
            |GatherShape(all)| == |es| && (forall d :: 0 <= d < |es| ==> GatherShape(all)[d] == es[d].len) &&
            GatherIndex(all, idx)[0] == p &&
            forall d :: 0 <= d < |es| ==> GatherIndex(all, idx)[d + 1] == StepTo(es[d], idx[d])
    decreases |es|
  {
    var all := [Pick(p)] + es;
    if es == [] {
      assert all[..0] == [];
    } else {
      var m := |es| - 1;
      PickFront(p, es[..m], idx[..m]);
      assert all[..m + 1] == [Pick(p)] + es[..m];
    }
  }

  /** Slices succeed exactly with a positive step, positions exactly inside both factors' first of three or more
      dimensions. */
  lemma {:induction false} FirstSucceeds(l: LoraTensor, ix: Ix)
    requires WellFormed(l)
    ensures ix.Slice? ==> (FirstFactors(l, ix).Ok? <==> ix.r.step > 0)
    ensures ix.Position? ==>
      (FirstFactors(l, ix).Ok? <==> Dims(l) > 2 && InRange(ix.i, l.a.shape[0]) && InRange(ix.i, l.b.shape[0]))
    ensures ix.Ellipsis? ==> FirstFactors(l, ix).Err?
  {
    hide WellFormed, GatherFactors, ResolveRange;
    WellFormedBuilt(l);
    if ix.Slice? {
      SliceSucceeds(ix.r, l.a.shape[0]);
      SliceSucceeds(ix.r, l.b.shape[0]);
    }
    if Dims(l) > 2 && Resolve(ix, l.a.shape[0]).Ok? && Resolve(ix, l.b.shape[0]).Ok? {
      BatchSucceeds(l, ix);
    }
    if Dims(l) == 2 && ix.Slice? && Resolve(ix, l.b.shape[0]).Ok? {
      RowsSlice(l, ix);
    }
  }

  lemma {:induction false} BatchSucceeds(l: LoraTensor, ix: Ix)
    requires WellFormed(l) && Dims(l) > 2 && Resolve(ix, l.a.shape[0]).Ok? && Resolve(ix, l.b.shape[0]).Ok?
    ensures var ea, eb := Resolve(ix, l.a.shape[0]).value, Resolve(ix, l.b.shape[0]).value;
            GatherFactors(l, OneEntry(LeadA(l), 0, ea), OneEntry(LeadB(l), 0, eb), FullRun(l.b.shape[Dims(l) - 2]),
                          FullRun(Columns(l))).Ok?
  {
    hide WellFormed, GatherFactors, Resolve, GatherShape, Fits, OneEntry;
    WellFormedBuilt(l);
    var ea, eb := Resolve(ix, l.a.shape[0]).value, Resolve(ix, l.b.shape[0]).value;
    ResolveFits(ix, l.a.shape[0]);
    ResolveFits(ix, l.b.shape[0]);
    ResolveKind(ix, l.a.shape[0]);
    ResolveKind(ix, l.b.shape[0]);
    SameKept(LeadA(l), LeadB(l), 0, ea, eb);
    FullFits(l.b.shape[Dims(l) - 2]);
    FullFits(Columns(l));
    GathersFit(l, OneEntry(LeadA(l), 0, ea), OneEntry(LeadB(l), 0, eb), FullRun(l.b.shape[Dims(l) - 2]),
               FullRun(Columns(l)));
  }

  lemma {:induction false} RowsSlice(l: LoraTensor, ix: Ix)
    requires WellFormed(l) && Dims(l) == 2 && ix.Slice? && Resolve(ix, l.b.shape[0]).Ok?
    ensures GatherFactors(l, [], [], Resolve(ix, l.b.shape[0]).value, FullRun(Columns(l))).Ok?
  {
    hide WellFormed, GatherFactors, Resolve;
    WellFormedBuilt(l);
    ResolveFits(ix, l.b.shape[0]);
    ResolveKind(ix, l.b.shape[0]);
    FullFits(Columns(l));
    assert LeadA(l) == [] && LeadB(l) == [];
    GathersFit(l, [], [], Resolve(ix, l.b.shape[0]).value, FullRun(Columns(l)));
  }

  lemma {:induction false} FullFits(n: nat)
    ensures FullRun(n).Run? && EntryFits(FullRun(n), n)
  {
  }

  /** Entries that fit give factors, if they keep as many batches of both and the rows and columns are runs. */
  lemma {:induction false} GathersFit(l: LoraTensor, ea: seq<Entry>, eb: seq<Entry>, row: Entry, col: Entry)
    requires Built(l) && Fits(ea, LeadA(l)) && Fits(eb, LeadB(l)) && row.Run? && col.Run?
    requires EntryFits(row, l.b.shape[Dims(l) - 2]) && EntryFits(col, Columns(l))
    requires |GatherShape(ea)| == |GatherShape(eb)|
    ensures GatherFactors(l, ea, eb, row, col).Ok?
  {
    hide Product, Subscripted, GatherShape;
    var n := Dims(l);
    var ca, cb := ea + [FullRun(Rank(l)), col], eb + [row, FullRun(Rank(l))];
    assert Fits(ca, l.a.shape) by {
      assert forall d :: 0 <= d < n - 2 ==> ca[d] == ea[d] && LeadA(l)[d] == l.a.shape[d];
    }
    assert Fits(cb, l.b.shape) by {
      assert forall d :: 0 <= d < n - 2 ==> cb[d] == eb[d] && LeadB(l)[d] == l.b.shape[d];
    }
    GatherMatrixShape(ea, FullRun(Rank(l)), col);
    GatherMatrixShape(eb, row, FullRun(Rank(l)));
  }

  lemma {:induction false} SameKept(sa: seq<nat>, sb: seq<nat>, d: nat, ea: Entry, eb: Entry)
    requires |sa| == |sb| && d < |sa| && (ea.Run? <==> eb.Run?)
    ensures |GatherShape(OneEntry(sa, d, ea))| == |GatherShape(OneEntry(sb, d, eb))|
    ensures EntryFits(ea, sa[d]) ==> Fits(OneEntry(sa, d, ea), sa)
    ensures EntryFits(eb, sb[d]) ==> Fits(OneEntry(sb, d, eb), sb)
  {
    KindsKept(OneEntry(sa, d, ea), OneEntry(sb, d, eb));
  }

  lemma {:induction false} KindsKept(es: seq<Entry>, fs: seq<Entry>)
    requires |es| == |fs| && forall d :: 0 <= d < |es| ==> (es[d].Run? <==> fs[d].Run?)
    ensures |GatherShape(es)| == |GatherShape(fs)|
  {
    if es != [] { KindsKept(es[..|es| - 1], fs[..|fs| - 1]); }
  }

  // ---------- a tuple of subscripts ----------

  /** The tuple reads place `jdx` for slot `idx`: a position is one place and takes no slot, a slice reads the place of
      its slot. */
  predicate TupleReads(ixs: seq<Ix>, shape: seq<nat>, idx: seq<nat>, jdx: seq<nat>)
    requires |ixs| == |shape| == |jdx|
    decreases |ixs|
  {
    if ixs == [] then idx == []
    else
      var m, s := |ixs| - 1, |idx| - 1;
      match ixs[m]
      case Position(i) =>
        InRange(i, shape[m]) && jdx[m] == Spot(i, shape[m]) && TupleReads(ixs[..m], shape[..m], idx, jdx[..m])
      case Slice(r) =>
        idx != [] && r.step > 0 && jdx[m] == Reads(r, shape[m], idx[s]) < Stop(r, shape[m]) &&
        TupleReads(ixs[..m], shape[..m], idx[..s], jdx[..m])
      case Ellipsis => false
  }

  lemma {:induction false} ResolvedReads(ixs: seq<Ix>, shape: seq<nat>, es: seq<Entry>, idx: seq<nat>)
    requires ResolveAll(ixs, shape) == Ok(es) && In(idx, GatherShape(es))
    ensures |ixs| == |shape| && TupleReads(ixs, shape, idx, GatherIndex(es, idx))
    decreases |ixs|
  {
    hide *;
    LastResolved(ixs, shape, es);
    if ixs == [] {
      NothingRead(shape, es, idx);
    } else {
      var m := |ixs| - 1;
      if ixs[m].Slice? {
        SliceSlot(es, idx);
        ResolvedReads(ixs[..m], shape[..m], es[..m], idx[..|idx| - 1]);
        SliceRead(ixs, shape, es, idx);
      } else {
        PositionSlot(es, idx);
        ResolvedReads(ixs[..m], shape[..m], es[..m], idx);
        PositionRead(ixs, shape, es, idx);
      }
    }
  }

  lemma {:induction false} LastResolved(ixs: seq<Ix>, shape: seq<nat>, es: seq<Entry>)
    requires ResolveAll(ixs, shape) == Ok(es)
    ensures |ixs| == |shape| == |es|
    ensures ixs != [] ==>
      var m := |ixs| - 1;
      ResolveAll(ixs[..m], shape[..m]) == Ok(es[..m]) && Resolve(ixs[m], shape[m]) == Ok(es[m]) &&
      (es[m].Run? <==> ixs[m].Slice?)
  {
    hide ResolveRange;
    if ixs != [] {
      var m := |ixs| - 1;
      assert es[..m] == ResolveAll(ixs[..m], shape[..m]).value;
      ResolveKind(ixs[m], shape[m]);
    }
  }

  lemma {:induction false} NothingRead(shape: seq<nat>, es: seq<Entry>, idx: seq<nat>)
    requires |shape| == |es| == 0 && In(idx, GatherShape(es))
    ensures TupleReads([], shape, idx, GatherIndex(es, idx))
  {
  }

  lemma {:induction false} SliceSlot(es: seq<Entry>, idx: seq<nat>)
    requires es != [] && es[|es| - 1].Run? && In(idx, GatherShape(es))
    ensures idx != [] && idx[|idx| - 1] < es[|es| - 1].len
    ensures In(idx[..|idx| - 1], GatherShape(es[..|es| - 1]))
    ensures GatherIndex(es, idx) ==
      GatherIndex(es[..|es| - 1], idx[..|idx| - 1]) + [StepTo(es[|es| - 1], idx[|idx| - 1])]
  {
    hide StepTo;
    assert GatherShape(es) == GatherShape(es[..|es| - 1]) + [es[|es| - 1].len];
  }

  lemma {:induction false} PositionSlot(es: seq<Entry>, idx: seq<nat>)
    requires es != [] && es[|es| - 1].Pick? && In(idx, GatherShape(es))
    ensures In(idx, GatherShape(es[..|es| - 1]))
    ensures GatherIndex(es, idx) == GatherIndex(es[..|es| - 1], idx) + [es[|es| - 1].i]
  {
  }

  lemma {:induction false} SliceRead(ixs: seq<Ix>, shape: seq<nat>, es: seq<Entry>, idx: seq<nat>)
    requires ixs != [] && |ixs| == |shape| == |es| && idx != []
    requires var m := |ixs| - 1;
             ixs[m].Slice? && es[m].Run? && Resolve(ixs[m], shape[m]) == Ok(es[m]) && idx[|idx| - 1] < es[m].len &&
             GatherIndex(es, idx) == GatherIndex(es[..m], idx[..|idx| - 1]) + [StepTo(es[m], idx[|idx| - 1])] &&
             TupleReads(ixs[..m], shape[..m], idx[..|idx| - 1], GatherIndex(es[..m], idx[..|idx| - 1]))
    ensures TupleReads(ixs, shape, idx, GatherIndex(es, idx))
  {
    hide ResolveRange, Reads, Stop, Begin, GatherIndex, StepTo;
    var m, s := |ixs| - 1, |idx| - 1;
    SliceMeans(ixs[m].r, shape[m]);
    ReadsStep(ixs[m].r, shape[m], es[m], idx[s]);
    assert GatherIndex(es, idx)[..m] == GatherIndex(es[..m], idx[..s]);
  }

  lemma {:induction false} PositionRead(ixs: seq<Ix>, shape: seq<nat>, es: seq<Entry>, idx: seq<nat>)
    requires ixs != [] && |ixs| == |shape| == |es|
    requires var m := |ixs| - 1;
             es[m].Pick? && Resolve(ixs[m], shape[m]) == Ok(es[m]) &&
             GatherIndex(es, idx) == GatherIndex(es[..m], idx) + [es[m].i] &&
             TupleReads(ixs[..m], shape[..m], idx, GatherIndex(es[..m], idx))
    ensures TupleReads(ixs, shape, idx, GatherIndex(es, idx))
  {
    hide ResolveRange, Reads, Stop, Begin, GatherIndex;
    var m := |ixs| - 1;
    ResolveKind(ixs[m], shape[m]);
    assert GatherIndex(es, idx)[..m] == GatherIndex(es[..m], idx);
  }

  /** `t[i, start:stop, ...]`: every entry of the result is the entry the tuple reads. */
  lemma {:induction false} TupleEntries(l: LoraTensor, ixs: seq<Ix>, idx: seq<nat>) returns (jdx: seq<nat>)
    requires WellFormed(l) && SafeTuple(l, ixs) && TupleFactors(l, ixs).Ok?
    requires In(idx, Shape(TupleFactors(l, ixs).value))
    ensures |TorchExpand(ixs, Dims(l))| == Dims(l) && In(jdx, Shape(l))
    ensures TupleReads(TorchExpand(ixs, Dims(l)), Shape(l), idx, jdx)
    ensures At(Dense(TupleFactors(l, ixs).value), idx) == At(Dense(l), jdx)
  {
    hide Dense, At, Product, TupleFactors, Gather, WellFormed, SafeTuple, TorchExpand, ResolveAll, GatherShape,
      TupleReads;
    WellFormedBuilt(l);
    TupleCorrect(l, ixs);
    var out := TupleFactors(l, ixs).value;
    WellFormedBuilt(out);
    DenseShape(l);
    DenseShape(out);
    var es := ResolveAll(TorchExpand(ixs, Dims(l)), Shape(l)).value;
    GatherError(Dense(l), es);
    GatheredShape(Dense(l), es);
    SubscriptedAt(Dense(l), es, idx);
    ResolvedReads(TorchExpand(ixs, Dims(l)), Shape(l), es, idx);
    jdx := GatherIndex(es, idx);
    GatherIn(es, Shape(l), idx);
  }

  /** An entry a dimension of `n` can be subscripted with. */
  predicate Usable(ix: Ix, n: nat)
  {
    match ix
    case Position(i) => InRange(i, n)
    case Slice(r) => r.step > 0
    case Ellipsis => false
  }

  lemma {:induction false} UsableExactly(ix: Ix, n: nat)
    ensures Usable(ix, n) <==> Resolve(ix, n).Ok?
  {
  }

  /** When a tuple with slices for row and column succeeds: it has as many entries as there are dimensions, and every
      entry is usable in its own. */
  lemma {:induction false} TupleSucceeds(l: LoraTensor, ixs: seq<Ix>)
    requires WellFormed(l) && ExpandTuple(ixs, Dims(l)).Ok?
    requires var es := ExpandTuple(ixs, Dims(l)).value;
             |es| == Dims(l) ==> es[Dims(l) - 2].Slice? && es[Dims(l) - 1].Slice?
    ensures var es := ExpandTuple(ixs, Dims(l)).value;
            TupleFactors(l, ixs).Ok? <==> |es| == Dims(l) && forall d :: 0 <= d < |es| ==> Usable(es[d], Shape(l)[d])
  {
    hide ExpandTuple, LeadEntries, Resolve, GatherFactors, Usable, WellFormed, GatherShape, Fits;
    WellFormedBuilt(l);
    var n, es := Dims(l), ExpandTuple(ixs, Dims(l)).value;
    if |es| == n {
      BatchSizes(l);
      LeadSucceeds(es[..n - 2], LeadA(l), LeadB(l));
      UsableExactly(es[n - 2], Shape(l)[n - 2]);
      UsableExactly(es[n - 1], Shape(l)[n - 1]);
      assert forall d :: 0 <= d < n - 2 ==> Shape(l)[d] == LeadB(l)[d];
      if forall d :: 0 <= d < n ==> Usable(es[d], Shape(l)[d]) {
        var lead := LeadEntries(es[..n - 2], LeadA(l), LeadB(l)).value;
        ResolveFits(es[n - 2], Shape(l)[n - 2]);
        ResolveFits(es[n - 1], Shape(l)[n - 1]);
        ResolveKind(es[n - 2], Shape(l)[n - 2]);
        ResolveKind(es[n - 1], Shape(l)[n - 1]);
        GathersFit(l, lead.0, lead.1, Resolve(es[n - 2], Shape(l)[n - 2]).value,
          Resolve(es[n - 1], Shape(l)[n - 1]).value);
      }
    }
  }

  lemma {:induction false} BatchSizes(l: LoraTensor)
    requires WellFormed(l)
    ensures forall d :: 0 <= d < Dims(l) - 2 ==> LeadA(l)[d] == 1 || LeadA(l)[d] == LeadB(l)[d]
  {
  }

  lemma {:induction false} LeadSucceeds(ixs: seq<Ix>, sa: seq<nat>, sb: seq<nat>)
    requires |ixs| == |sa| == |sb| && forall d :: 0 <= d < |sa| ==> sa[d] == 1 || sa[d] == sb[d]
    ensures LeadEntries(ixs, sa, sb).Ok? <==> forall d :: 0 <= d < |ixs| ==> Usable(ixs[d], sb[d])
    ensures LeadEntries(ixs, sa, sb).Ok? ==>
      var (ea, eb) := LeadEntries(ixs, sa, sb).value;
      Fits(ea, sa) && Fits(eb, sb) && |GatherShape(ea)| == |GatherShape(eb)|
    decreases |ixs|
  {
    hide *;
    LeadStep(ixs, sa, sb);
    if ixs == [] {
      NothingFits(sa, sb);
    } else {
      var m := |ixs| - 1;
      LeadSucceeds(ixs[..m], sa[..m], sb[..m]);
      LastLead(ixs[m], sa[m], sb[m]);
      if LeadEntries(ixs, sa, sb).Ok? {
        var (ea, eb) := LeadEntries(ixs[..m], sa[..m], sb[..m]).value;
        var e := if ixs[m].Position? then Pick(ixs[m].i % sa[m]) else FullRun(sa[m]);
        MoreFits(ea, e, sa);
        MoreFits(eb, Resolve(ixs[m], sb[m]).value, sb);
      }
    }
  }

  lemma {:induction false} LeadStep(ixs: seq<Ix>, sa: seq<nat>, sb: seq<nat>)
    requires |ixs| == |sa| == |sb|
    ensures if ixs == [] then LeadEntries(ixs, sa, sb) == Ok(([], []))
            else
              var m := |ixs| - 1;
              var init, eb := LeadEntries(ixs[..m], sa[..m], sb[..m]), Resolve(ixs[m], sb[m]);
              (LeadEntries(ixs, sa, sb).Ok? <==> init.Ok? && eb.Ok? && !(ixs[m].Position? && sa[m] == 0)) &&
              (LeadEntries(ixs, sa, sb).Ok? ==>
               var ea := if ixs[m].Position? then Pick(ixs[m].i % sa[m]) else FullRun(sa[m]);
               LeadEntries(ixs, sa, sb).value == (init.value.0 + [ea], init.value.1 + [eb.value]))
  {
    hide Resolve;
  }

  lemma {:induction false} NothingFits(sa: seq<nat>, sb: seq<nat>)
    requires sa == [] && sb == []
    ensures Fits([], sa) && Fits([], sb) && GatherShape([]) == []
  {
  }

  lemma {:induction false} MoreFits(es: seq<Entry>, e: Entry, shape: seq<nat>)
    requires shape != [] && Fits(es, shape[..|shape| - 1]) && EntryFits(e, shape[|shape| - 1])
    ensures Fits(es + [e], shape) && |GatherShape(es + [e])| == |GatherShape(es)| + if e.Run? then 1 else 0
  {
    GatherMore(es, e);
  }

  lemma {:induction false} LastLead(ix: Ix, sa: nat, sb: nat)
    requires sa == 1 || sa == sb
    ensures ix.Position? && Usable(ix, sb) ==> sa > 0 && EntryFits(Pick(ix.i % sa), sa)
    ensures EntryFits(FullRun(sa), sa) && FullRun(sa).Run?
    ensures Usable(ix, sb) <==> Resolve(ix, sb).Ok?
    ensures Usable(ix, sb) ==>
      Resolve(ix, sb).Ok? && EntryFits(Resolve(ix, sb).value, sb) && (Resolve(ix, sb).value.Run? <==> ix.Slice?) &&
      !ix.Ellipsis?
  {
    UsableExactly(ix, sb);
    if Usable(ix, sb) { ResolveFits(ix, sb); }
  }

  // ---------- split ----------

  /** Where part `k` of a dimension begins, and how long it is. */
  function PartStart(spec: LoraPrograms.Sizes, k: nat): (p: nat)
  {
    match spec
    case Every(size) =>
      MulNonNegative(k, size);
      k * size
    case Sections(sizes) => Sum(if k <= |sizes| then sizes[..k] else sizes)
  }

  function Sum(s: seq<nat>): (n: nat) { if s == [] then 0 else Sum(s[..|s| - 1]) + s[|s| - 1] }

  function PartLength(spec: LoraPrograms.Sizes, total: nat, k: nat): (n: int)
  {
    match spec
    case Every(size) => if total - k * size < size then total - k * size else size
    case Sections(sizes) => if k < |sizes| then sizes[k] else 0
  }

  /** The parts a dimension can be cut into: sections have to add up to it; equal parts need a size,
    and there is one part
      if there is nothing to cut. */
  predicate HasPart(spec: LoraPrograms.Sizes, total: nat, k: nat)
  {
    match spec
    case Every(size) => (size > 0 || total == 0) && (k == 0 || k * size < total)
    case Sections(sizes) => Sum(sizes) == total && k < |sizes|
  }

  lemma {:induction false} SumTotal(s: seq<nat>)
    ensures Sum(s) == Total(s)
  {
    if s != [] {
      var m := |s| - 1;
      SumTotal(s[..m]);
      TotalMore(s[..m], s[m]);
      assert s == s[..m] + [s[m]];
    }
  }

  lemma {:induction false} TotalMore(s: seq<nat>, x: nat)
    ensures Total(s + [x]) == Total(s) + x
  {
    if s == [] {
      assert [] + [x] == [x] && [x][1..] == [] && Total([x]) == x;
    } else {
      assert (s + [x])[1..] == s[1..] + [x];
      TotalMore(s[1..], x);
    }
  }

  lemma {:induction false} SectionAt(start: nat, sizes: seq<nat>, k: nat)
    requires k < |sizes|
    ensures |SectionRuns(start, sizes)| == |sizes|
    ensures SectionRuns(start, sizes)[k] == Run(start + Total(sizes[..k]), sizes[k], 1)
    decreases |sizes|
  {
    SectionCount(start, sizes);
    if k > 0 {
      SectionAt(start + sizes[0], sizes[1..], k - 1);
      assert sizes[..k][1..] == sizes[1..][..k - 1];
    }
  }

  lemma {:induction false} SectionCount(start: nat, sizes: seq<nat>)
    ensures |SectionRuns(start, sizes)| == |sizes|
    decreases |sizes|
  {
    if sizes != [] { SectionCount(start + sizes[0], sizes[1..]); }
  }

  /** The parts torch makes are these. */
  lemma {:induction false} ChunksMean(total: nat, spec: LoraPrograms.Sizes, k: nat)
    ensures Chunks(total, spec).Ok? && k < |Chunks(total, spec).value| <==> HasPart(spec, total, k)
    ensures HasPart(spec, total, k) ==>
      PartLength(spec, total, k) >= 0 &&
      Chunks(total, spec).value[k] == Run(PartStart(spec, k), PartLength(spec, total, k), 1) &&
      PartStart(spec, k) + PartLength(spec, total, k) <= total
  {
    match spec
    case Every(size) => EveryMean(total, size, k);
    case Sections(sizes) =>
      SumTotal(sizes);
      SectionCount(0, sizes);
      if k < |sizes| {
        SectionAt(0, sizes, k);
        SumTotal(sizes[..k]);
        PrefixTotal(sizes, k);
      }
  }

  lemma {:induction false} PrefixTotal(sizes: seq<nat>, k: nat)
    requires k < |sizes|
    ensures Total(sizes[..k]) + sizes[k] <= Total(sizes)
  {
    if k > 0 {
      PrefixTotal(sizes[1..], k - 1);
      assert sizes[..k][1..] == sizes[1..][..k - 1];
    }
  }

  lemma {:induction false} EveryMean(total: nat, size: nat, k: nat)
    ensures var spec := Every(size);
            (Chunks(total, spec).Ok? && k < |Chunks(total, spec).value| <==> HasPart(spec, total, k)) &&
            (HasPart(spec, total, k) ==>
             PartLength(spec, total, k) >= 0 &&
             Chunks(total, spec).value[k] == Run(PartStart(spec, k), PartLength(spec, total, k), 1) &&
             PartStart(spec, k) + PartLength(spec, total, k) <= total)
  {
    MulNonNegative(k, size);
    if size > 0 && total > 0 { CountSlots(total, size, k); }
  }

  /** Part `k` of `split`: as long as the part, and its entries are the ones from its start on. */
  lemma {:induction false} SplitEntries(l: LoraTensor, spec: LoraPrograms.Sizes, dim: int, k: nat)
    requires WellFormed(l) && SplitFactors(l, spec, dim, k).Ok?
    ensures InRange(dim, Dims(l)) && HasPart(spec, Shape(l)[Spot(dim, Dims(l))], k)
    ensures var r, d := SplitFactors(l, spec, dim, k).value, Spot(dim, Dims(l));
            PartLength(spec, Shape(l)[d], k) >= 0 && Shape(r) == Shape(l)[d := PartLength(spec, Shape(l)[d], k)] &&
            forall idx :: In(idx, Shape(r)) ==>
              At(Dense(r), idx) == At(Dense(l), idx[d := PartStart(spec, k) + idx[d]])
  {
    hide Dense, At, Product, SplitFactors, Gather, WellFormed, OneEntry, HasPart, PartStart, PartLength, Chunks;
    WellFormedBuilt(l);
    SplitCorrect(l, spec, dim, k);
    var r, n := SplitFactors(l, spec, dim, k).value, Dims(l);
    WellFormedBuilt(r);
    DenseShape(l);
    DenseShape(r);
    NormalIs(dim, n);
    var d := Spot(dim, n);
    ChunksMean(Shape(l)[d], spec, k);
    var e := Chunks(Shape(l)[d], spec).value[k];
    OneGather(Dense(l), d, e, Shape(l));
    forall idx | In(idx, Shape(r))
      ensures At(Dense(r), idx) == At(Dense(l), idx[d := PartStart(spec, k) + idx[d]])
    {
      OneGather(Dense(l), d, e, idx);
    }
  }

  lemma {:induction false} NormalIs(dim: int, n: nat)
    ensures NormalDim(dim, n) == if InRange(dim, n) then Some(Spot(dim, n)) else None
  {
  }

  /** `split` has a part `k` exactly for a dimension in range that has one. */
  lemma {:induction false} SplitSucceeds(l: LoraTensor, spec: LoraPrograms.Sizes, dim: int, k: nat)
    requires WellFormed(l)
    ensures SplitFactors(l, spec, dim, k).Ok? <==>
      InRange(dim, Dims(l)) && HasPart(spec, Shape(l)[Spot(dim, Dims(l))], k)
  {
    hide WellFormed, GatherFactors, HasPart, Chunks, Product, OneEntry, FullRuns;
    WellFormedBuilt(l);
    NormalIs(dim, Dims(l));
    if InRange(dim, Dims(l)) {
      var d := Spot(dim, Dims(l));
      ChunksMean(Shape(l)[d], spec, k);
      if HasPart(spec, Shape(l)[d], k) {
        SplitBatch(l, d);
        PartFits(l, d, Chunks(Shape(l)[d], spec).value[k]);
      }
    }
  }

  lemma {:induction false} PartFits(l: LoraTensor, d: nat, e: Entry)
    requires WellFormed(l) && d < Dims(l) && e.Run? && e.step == 1 && e.start + e.len <= Shape(l)[d]
    ensures var n := Dims(l);
            var rows, cols := FullRun(l.b.shape[n - 2]), FullRun(Columns(l));
            if d == n - 1 then GatherFactors(l, FullRuns(LeadA(l)), FullRuns(LeadB(l)), rows, e).Ok?
            else if d == n - 2 then GatherFactors(l, FullRuns(LeadA(l)), FullRuns(LeadB(l)), e, cols).Ok?
            else if l.a.shape[d] == 1 then
              GatherFactors(l, FullRuns(LeadA(l)), OneEntry(LeadB(l), d, e), rows, cols).Ok?
            else GatherFactors(l, OneEntry(LeadA(l), d, e), OneEntry(LeadB(l), d, e), rows, cols).Ok?
  {
    hide WellFormed, GatherFactors, GatherShape, Fits, OneEntry, FullRuns, EntryFits;
    WellFormedBuilt(l);
    SplitBatch(l, d);
    var n := Dims(l);
    FullFits(l.b.shape[n - 2]);
    FullFits(Columns(l));
    AllFit(LeadA(l), LeadB(l));
    OneFits(e, Shape(l)[d]);
    if d < n - 2 {
      SameKept(LeadA(l), LeadB(l), d, e, e);
      FullFits(LeadA(l)[d]);
      FullIsOne(LeadA(l), d);
      SameKept(LeadA(l), LeadB(l), d, FullRun(LeadA(l)[d]), e);
      if l.a.shape[d] == 1 {
        GathersFit(l, FullRuns(LeadA(l)), OneEntry(LeadB(l), d, e), FullRun(l.b.shape[n - 2]), FullRun(Columns(l)));
      } else {
        GathersFit(l, OneEntry(LeadA(l), d, e), OneEntry(LeadB(l), d, e), FullRun(l.b.shape[n - 2]),
                   FullRun(Columns(l)));
      }
    } else if d == n - 2 {
      GathersFit(l, FullRuns(LeadA(l)), FullRuns(LeadB(l)), e, FullRun(Columns(l)));
    } else {
      GathersFit(l, FullRuns(LeadA(l)), FullRuns(LeadB(l)), FullRun(l.b.shape[n - 2]), e);
    }
  }

  lemma {:induction false} OneFits(e: Entry, n: nat)
    requires e.Run? && e.step == 1 && e.start + e.len <= n
    ensures EntryFits(e, n)
  {
  }

  lemma {:induction false} FullIsOne(s: seq<nat>, d: nat)
    requires d < |s|
    ensures OneEntry(s, d, FullRun(s[d])) == FullRuns(s)
  {
  }

  lemma {:induction false} AllFit(s: seq<nat>, t: seq<nat>)
    requires |s| == |t|
    ensures Fits(FullRuns(s), s) && Fits(FullRuns(t), t)
    ensures |GatherShape(FullRuns(s))| == |GatherShape(FullRuns(t))|
  {
    KindsKept(FullRuns(s), FullRuns(t));
  }

  // ---------- stack ----------

  /** `stack`: a new first dimension counts the parts, and each part's entries stand behind its number. */
  lemma {:induction false} StackEntries(ls: seq<LoraTensor>)
    requires AllWellFormed(ls) && StackFactors(ls).Ok?
    ensures ls != [] && forall p :: 0 <= p < |ls| ==> Shape(ls[p]) == Shape(ls[0])
    ensures var r := StackFactors(ls).value;
            Shape(r) == [|ls|] + Shape(ls[0]) &&
            forall p: nat, idx :: p < |ls| && In(idx, Shape(ls[0])) ==> At(Dense(r), [p] + idx) == At(Dense(ls[p]), idx)
  {
    hide Dense, At, Product, StackFactors, WellFormed, Stacked, Shape;
    StackCorrect(ls);
    var r := StackFactors(ls).value;
    WellFormedBuilt(r);
    DenseShape(r);
    forall p | 0 <= p < |ls|
      ensures Built(ls[p]) && Dense(ls[p]).shape == Shape(ls[p])
    {
      WellFormedBuilt(ls[p]);
      DenseShape(ls[p]);
    }
    var ts := Denses(ls);
    assert ts != [] && SameShapes(ts) && Dense(r) == Stacked(ts);
    assert forall p :: 0 <= p < |ls| ==> ts[p].shape == ts[0].shape;
    forall p: nat, idx | p < |ls| && In(idx, Shape(ls[0]))
      ensures At(Dense(r), [p] + idx) == At(Dense(ls[p]), idx)
    {
      StackedAt(ts, p, idx);
    }
  }

  /** `stack` takes parts of one shape, factor by factor. */
  lemma {:induction false} StackSucceeds(ls: seq<LoraTensor>)
    requires AllWellFormed(ls)
    ensures StackFactors(ls).Ok? <==>
      ls != [] && forall p :: 0 <= p < |ls| ==> ls[p].a.shape == ls[0].a.shape && ls[p].b.shape == ls[0].b.shape
  {
    hide Stacked, Product;
    var ta, tb := FactorsA(ls), FactorsB(ls);
    assert SameShapes(ta) <==> forall p :: 0 <= p < |ls| ==> ta[p].shape == ta[0].shape;
    assert SameShapes(tb) <==> forall p :: 0 <= p < |ls| ==> tb[p].shape == tb[0].shape;
    if ls != [] && SameShapes(ta) && SameShapes(tb) {
      var l := LoraTensor(Stacked(ta), Stacked(tb));
      var n := Dims(ls[0]);
      assert WellFormed(ls[0]);
      assert l.a.shape[n - 1] == ls[0].a.shape[n - 2] && l.b.shape[n] == ls[0].b.shape[n - 1];
    }
  }

  // ---------- cat ----------

  function Height(t: Tensor): (n: nat) { if t.shape == [] then 0 else t.shape[0] }

  /** The rows of the parts before part `p`. */
  function Before(ts: seq<Tensor>, p: nat): (n: nat)
    requires p <= |ts|
  {
    if p == 0 then 0 else Before(ts, p - 1) + Height(ts[p - 1])
  }

  lemma {:induction false} BeforeTail(ts: seq<Tensor>, p: nat)
    requires 0 < p <= |ts|
    ensures Before(ts, p) == Height(ts[0]) + Before(ts[1..], p - 1)
  {
    if p > 1 { BeforeTail(ts, p - 1); }
  }

  lemma {:induction false} RowsBefore(ts: seq<Tensor>)
    requires SameRows(ts)
    ensures Rows(ts) == Before(ts, |ts|)
  {
    if ts != [] {
      RowsBefore(ts[1..]);
      BeforeTail(ts, |ts|);
    }
  }

  lemma {:induction false} CatPlace(ts: seq<Tensor>, p: nat, y: nat, rest: seq<nat>)
    requires SameRows(ts) && p < |ts| && y < ts[p].shape[0]
    ensures CatAt(ts, Before(ts, p) + y, rest) == At(ts[p], [y] + rest)
    ensures Before(ts, p) + y < Rows(ts)
  {
    hide At;
    if p > 0 {
      BeforeTail(ts, p);
      CatPlace(ts[1..], p - 1, y, rest);
    }
  }

  /** The parts stand one below the other: entry `idx` of part `p` is found behind the rows of the parts before it. */
  ghost predicate OneBelowAnother(ts: seq<Tensor>, t: Tensor)
  {
    ts != [] && (forall p :: 0 <= p < |ts| ==> ts[p].shape != []) &&
    t.shape == [Before(ts, |ts|)] + ts[0].shape[1..] &&
    forall p: nat, idx: seq<nat> :: p < |ts| && In(idx, ts[p].shape) ==>
      At(t, idx[0 := Before(ts, p) + idx[0]]) == At(ts[p], idx)
  }

  /** `cat` puts the parts one below the other. */
  lemma {:induction false} CatEntries(ls: seq<LoraTensor>, r: LoraTensor)
    requires AllWellFormed(ls) && SafeCat(ls) && CatFactors(ls) == Ok(r)
    ensures WellFormed(r) && OneBelowAnother(Denses(ls), Dense(r))
  {
    hide *;
    CatCorrect(ls);
    CatDefined(Denses(ls), Dense(r));
    CatStands(Denses(ls));
  }

  lemma {:induction false} CatStands(ts: seq<Tensor>)
    requires ts != [] && SameRows(ts)
    ensures OneBelowAnother(ts, Concatenated(ts))
  {
    hide Concatenated, Before, At, Product;
    RowsBefore(ts);
    forall p: nat, idx: seq<nat> | p < |ts| && In(idx, ts[p].shape)
      ensures At(Concatenated(ts), idx[0 := Before(ts, p) + idx[0]]) == At(ts[p], idx)
    {
      var y, rest := idx[0], idx[1..];
      assert idx == [y] + rest;
      CatEntryAt(ts, p, y, rest);
      assert idx[0 := Before(ts, p) + y] == [Before(ts, p) + y] + rest;
    }
  }

  lemma {:induction false} CatDefined(ts: seq<Tensor>, t: Tensor)
    requires Cat(ts) == Ok(t)
    ensures ts != [] && SameRows(ts) && t == Concatenated(ts)
  {
  }

  lemma {:induction false} CatEntryAt(ts: seq<Tensor>, p: nat, y: nat, rest: seq<nat>)
    requires SameRows(ts) && p < |ts| && In([y] + rest, ts[p].shape)
    ensures At(Concatenated(ts), [Before(ts, p) + y] + rest) == At(ts[p], [y] + rest)
  {
    hide At, Concatenated, Before;
    var idx, s := [y] + rest, ts[p].shape;
    assert idx[0] == y && |idx| == |s| && y < s[0];
    assert In(rest, ts[0].shape[1..]) by {
      assert forall d :: 0 <= d < |rest| ==> rest[d] == idx[d + 1] && s[1..][d] == s[d + 1];
    }
    CatPlace(ts, p, y, rest);
    ConcatenatedAt(ts, Before(ts, p) + y, rest);
  }

  /** `cat` takes parts that differ in the first dimension only; two-dimensional ones have to share their A. */
  lemma {:induction false} CatSucceeds(ls: seq<LoraTensor>)
    requires AllWellFormed(ls)
    ensures CatFactors(ls).Ok? <==>
      ls != [] && (forall p :: 0 <= p < |ls| ==> ls[p].b.shape[1..] == ls[0].b.shape[1..]) &&
      if Dims(ls[0]) > 2 then forall p :: 0 <= p < |ls| ==> ls[p].a.shape[1..] == ls[0].a.shape[1..]
      else forall p :: 0 <= p < |ls| ==> ls[p].a == ls[0].a
  {
    hide Concatenated, Product;
    forall p | 0 <= p < |ls|
      ensures ls[p].a.shape != [] && ls[p].b.shape != []
    {
      assert WellFormed(ls[p]);
    }
    var ta, tb := FactorsA(ls), FactorsB(ls);
    RowsSame(ta);
    RowsSame(tb);
    if ls != [] && SameRows(tb) {
      var z, n := ls[0], Dims(ls[0]);
      assert WellFormed(z);
      CatBuilt(z, Concatenated(tb).shape);
      if n > 2 && SameRows(ta) {
        assert Concatenated(ta).shape[n - 2] == z.a.shape[1..][n - 3] == z.a.shape[n - 2];
      }
    }
  }

  lemma {:induction false} RowsSame(ts: seq<Tensor>)
    requires forall p :: 0 <= p < |ts| ==> ts[p].shape != []
    ensures SameRows(ts) <==> forall p :: 0 <= p < |ts| ==> ts[p].shape[1..] == ts[0].shape[1..]
  {
  }

  lemma {:induction false} CatBuilt(z: LoraTensor, shape: seq<nat>)
    requires Built(z) && shape != [] && shape[1..] == z.b.shape[1..]
    ensures |shape| == Dims(z) && shape[Dims(z) - 1] == z.b.shape[Dims(z) - 1]
  {
    assert shape[Dims(z) - 1] == shape[1..][Dims(z) - 2];
  }

  // ---------- scaling ----------

  /** `jdx` is the place a tensor of this shape has for `idx`, dimensions aligned at the end: its own unit dimensions
      repeat. */
  predicate Repeated(shape: seq<nat>, idx: seq<nat>, jdx: seq<nat>)
  {
    |jdx| == |shape| <= |idx| &&
    forall d :: 0 <= d < |shape| ==> jdx[d] == if shape[d] == 1 then 0 else idx[|idx| - |shape| + d]
  }

  /** Multiplying by a number or a tensor multiplies every entry by the multiplier there; unit dimensions of either
      side repeat. */
  lemma {:induction false} ScaleEntries(l: LoraTensor, m: Tensor, idx: seq<nat>, jdx: seq<nat>, kdx: seq<nat>)
    requires WellFormed(l) && |m.shape| <= Dims(l) && ScaleFactors(l, m).Ok?
    requires In(idx, Shape(ScaleFactors(l, m).value)) && Repeated(Shape(l), idx, jdx) && Repeated(m.shape, idx, kdx)
    ensures var shape, e := Shape(l), Dims(l) - |m.shape|;
            |Shape(ScaleFactors(l, m).value)| == Dims(l) &&
            forall d :: 0 <= d < Dims(l) ==>
              Shape(ScaleFactors(l, m).value)[d] == if d >= e && shape[d] == 1 then m.shape[d - e] else shape[d]
    ensures At(Dense(ScaleFactors(l, m).value), idx) == At(m, kdx) * At(Dense(l), jdx)
  {
    hide Dense, At, Product, ScaleFactors, WellFormed, Multiplied, Shape, Repeated, Broadcast, JoinShape;
    WellFormedBuilt(l);
    ScaleCorrect(l, m);
    var r := ScaleFactors(l, m).value;
    WellFormedBuilt(r);
    DenseShape(l);
    DenseShape(r);
    JoinedShape(Shape(l), m.shape);
    MultipliedAt(Dense(l), m, idx);
    RepeatedIs(Shape(l), idx, jdx);
    RepeatedIs(m.shape, idx, kdx);
  }

  lemma {:induction false} JoinedShape(s: seq<nat>, t: seq<nat>)
    requires |t| <= |s|
    ensures var e := |s| - |t|;
            forall d :: 0 <= d < |s| ==> JoinShape(s, t)[d] == if d >= e && s[d] == 1 then t[d - e] else s[d]
  {
  }

  lemma {:induction false} RepeatedIs(shape: seq<nat>, idx: seq<nat>, jdx: seq<nat>)
    requires Repeated(shape, idx, jdx)
    ensures jdx == Broadcast(shape, idx)
  {
  }

  /** A multiplier is a number, or a tensor whose last dimension is 1 and whose others fit those of B. */
  lemma {:induction false} ScaleSucceeds(l: LoraTensor, m: Tensor)
    requires WellFormed(l)
    ensures ScaleFactors(l, m).Ok? <==>
      (m.shape == [] || m.shape[|m.shape| - 1] == 1) && |m.shape| <= Dims(l) &&
      forall d :: 0 <= d < |m.shape| ==>
        var size := l.b.shape[Dims(l) - |m.shape| + d]; size == m.shape[d] || size == 1 || m.shape[d] == 1
  {
    hide Multiplied, Product;
  }
}
