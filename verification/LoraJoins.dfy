/** Stacking, concatenating and scaling `LoraTorchTensor` values. */
module LoraJoins {
  import opened Wrappers
  import opened Tensors
  import opened Lora

  function FactorsA(ls: seq<LoraTensor>): (ts: seq<Tensor>)
    ensures |ts| == |ls| && forall p :: 0 <= p < |ls| ==> ts[p] == ls[p].a
  {
    seq(|ls|, p requires 0 <= p < |ls| => ls[p].a)
  }

  function FactorsB(ls: seq<LoraTensor>): (ts: seq<Tensor>)
    ensures |ts| == |ls| && forall p :: 0 <= p < |ls| ==> ts[p] == ls[p].b
  {
    seq(|ls|, p requires 0 <= p < |ls| => ls[p].b)
  }

  predicate AllWellFormed(ls: seq<LoraTensor>)
  {
    forall p :: 0 <= p < |ls| ==> WellFormed(ls[p])
  }

  function Denses(ls: seq<LoraTensor>): (ts: seq<Tensor>)
    requires AllWellFormed(ls)
    ensures |ts| == |ls| && forall p :: 0 <= p < |ls| ==> ts[p] == Dense(ls[p])
  {
    seq(|ls|, p requires 0 <= p < |ls| => Dense(ls[p]))
  }

  // ---------- stack (lines 240-248) ----------

  function StackFactors(ls: seq<LoraTensor>): (r: Outcome<LoraTensor>)
    ensures r.Ok? ==> Built(r.value)
  {
    var a, b := Stack(FactorsA(ls)), Stack(FactorsB(ls));
    if a.Err? then Err(a.error) else if b.Err? then Err(b.error) else Make(a.value, b.value)
  }

  lemma {:induction false} BroadcastCons(s: nat, shape: seq<nat>, x: nat, idx: seq<nat>)
    requires |shape| == |idx| && x < s
    ensures Broadcast([s] + shape, [x] + idx) == [x] + Broadcast(shape, idx)
  {
  }

  predicate Stackable(ls: seq<LoraTensor>)
  {
    ls != [] && AllWellFormed(ls) && SameShapes(FactorsA(ls)) && SameShapes(FactorsB(ls))
  }

  function StackedFactors(ls: seq<LoraTensor>): (l: LoraTensor)
    requires Stackable(ls)
    ensures l.a.shape == [|ls|] + ls[0].a.shape && l.b.shape == [|ls|] + ls[0].b.shape
  {
    LoraTensor(Stacked(FactorsA(ls)), Stacked(FactorsB(ls)))
  }

  lemma {:induction false} StackShapes(ls: seq<LoraTensor>, p: nat)
    requires Stackable(ls) && p < |ls|
    ensures var l := StackedFactors(ls);
            WellFormed(l) && Dims(l) == Dims(ls[p]) + 1 && Rank(l) == Rank(ls[p]) && Columns(l) == Columns(ls[p]) &&
            LeadA(l) == [|ls|] + LeadA(ls[p]) && RowsB(l) == [|ls|] + RowsB(ls[p]) && Shape(l) == [|ls|] + Shape(ls[p])
    ensures FactorsA(ls)[p].shape == FactorsA(ls)[0].shape && FactorsB(ls)[p].shape == FactorsB(ls)[0].shape
  {
    hide StackedFactors;
    var l := StackedFactors(ls);
    var q := ls[p];
    assert FactorsA(ls)[p].shape == FactorsA(ls)[0].shape && FactorsB(ls)[p].shape == FactorsB(ls)[0].shape;
    assert l.a.shape == [|ls|] + q.a.shape && l.b.shape == [|ls|] + q.b.shape;
    assert LeadA(l) == [|ls|] + LeadA(q) && RowsB(l) == [|ls|] + RowsB(q);
  }

  lemma {:induction false} StackEntry(ls: seq<LoraTensor>, p: nat, i: seq<nat>, j: nat)
    requires Stackable(ls) && p < |ls| && Built(StackedFactors(ls)) && Dims(StackedFactors(ls)) == Dims(ls[p]) + 1
    requires |i| == Dims(ls[p]) - 1 && In(i, RowsB(ls[p])) && j < Columns(ls[p])
    ensures DotAt(StackedFactors(ls), [p] + i, j) == DotAt(ls[p], i, j)
  {
    hide At, Stacked, DotAt, Tensors.In, SameShapes, WellFormed;
    var l, q := StackedFactors(ls), ls[p];
    StackShapes(ls, p);
    var n := Dims(q);
    Shapes(q);
    LeadIn(q, i);
    assert ([p] + i)[..n - 1] == [p] + i[..n - 2];
    BroadcastCons(|ls|, LeadA(q), p, i[..n - 2]);
    var bi := Broadcast(LeadA(q), i[..n - 2]);
    forall k: nat | k < Rank(q)
      ensures TermAt(l, [p] + i, j, k) == TermAt(q, i, j, k)
    {
      InAppend(i, RowsB(q), k, Rank(q));
      StackedAt(FactorsB(ls), p, i + [k]);
      assert [p] + i + [k] == [p] + (i + [k]);
      InPair(bi, LeadA(q), k, Rank(q), j, Columns(q));
      StackedAt(FactorsA(ls), p, bi + [k, j]);
      assert [p] + bi + [k, j] == [p] + (bi + [k, j]);
    }
    DotEqual(l, [p] + i, q, i, j, j);
  }

  lemma {:induction false} LeadIn(l: LoraTensor, i: seq<nat>)
    requires WellFormed(l) && In(i, RowsB(l))
    ensures In(Broadcast(LeadA(l), i[..Dims(l) - 2]), LeadA(l))
  {
  }

  /** Stacking the factors stacks the products. */
  lemma {:induction false} StackDense(ls: seq<LoraTensor>)
    requires Stackable(ls)
    ensures WellFormed(StackedFactors(ls))
    ensures Stack(Denses(ls)) == Ok(Dense(StackedFactors(ls)))
  {
    hide At, Dense, DotAt, Stacked, StackedFactors;
    var l := StackedFactors(ls);
    var ds := Denses(ls);
    StackShapes(ls, 0);
    forall p | 0 <= p < |ds|
      ensures ds[p].shape == ds[0].shape
    {
      StackShapes(ls, p);
    }
    forall i: seq<nat>, j: nat | In(i, RowsB(l)) && j < Columns(l)
      ensures At(Stacked(ds), i + [j]) == DotAt(l, i, j)
    {
      StackAt(ls, i[0], i[1..], j);
      assert i == [i[0]] + i[1..];
    }
    IsDense(l, Stacked(ds));
  }

  lemma {:induction false} StackAt(ls: seq<LoraTensor>, p: nat, i: seq<nat>, j: nat)
    requires Stackable(ls) && p < |ls| && SameShapes(Denses(ls)) && Built(StackedFactors(ls))
    requires In([p] + i, RowsB(StackedFactors(ls))) && j < Columns(StackedFactors(ls))
    ensures At(Stacked(Denses(ls)), [p] + i + [j]) == DotAt(StackedFactors(ls), [p] + i, j)
  {
    hide At, Dense, DotAt, Stacked, StackedFactors, SameShapes;
    var l, q := StackedFactors(ls), ls[p];
    StackShapes(ls, p);
    assert In(i, RowsB(q)) by { InTail([p] + i, RowsB(l)); assert ([p] + i)[1..] == i && RowsB(l)[1..] == RowsB(q); }
    StackShapes(ls, 0);
    InAppend(i, RowsB(q), j, Columns(q));
    StackedAt(Denses(ls), p, i + [j]);
    assert [p] + i + [j] == [p] + (i + [j]);
    DenseAt(q, i, j);
    StackEntry(ls, p, i, j);
  }

  lemma {:induction false} InTail(idx: seq<nat>, shape: seq<nat>)
    requires In(idx, shape) && idx != []
    ensures In(idx[1..], shape[1..]) && idx[0] < shape[0]
  {
  }

  // ---------- scaling (lines 209-217) ----------

  /** `__mul__`: a plain number is a tensor without dimensions. */
  function ScaleFactors(l: LoraTensor, m: Tensor): (r: Outcome<LoraTensor>)
    requires Built(l)
    ensures r.Ok? ==> Built(r.value)
  {
    if m.shape != [] && m.shape[|m.shape| - 1] != 1 then Err(Raised("not implemented"))
    else if |m.shape| > Dims(l) then Err(Rejected)
    else
      var b := Multiply(l.b, m);
      if b.Err? then Err(b.error) else Make(l.a, b.value)
  }

  predicate Scalable(l: LoraTensor, m: Tensor)
  {
    WellFormed(l) && (m.shape == [] || m.shape[|m.shape| - 1] == 1) && Broadcastable(l.b.shape, m.shape)
  }

  function ScaledFactors(l: LoraTensor, m: Tensor): (r: LoraTensor)
    requires Scalable(l, m)
  {
    LoraTensor(l.a, Multiplied(l.b, m))
  }

  lemma {:induction false} ScaleShapes(l: LoraTensor, m: Tensor)
    requires Scalable(l, m)
    ensures var l' := ScaledFactors(l, m);
            WellFormed(l') && Rank(l') == Rank(l) && Broadcastable(Shape(l), m.shape) &&
            Shape(l') == JoinShape(Shape(l), m.shape)
  {
    hide Multiplied;
    var l' := ScaledFactors(l, m);
    var n := Dims(l);
    assert Rank(l') == Rank(l);
    forall d | 0 <= d < |m.shape|
      ensures var e := Shape(l)[n - |m.shape| + d]; e == m.shape[d] || e == 1 || m.shape[d] == 1
    {
      if d < |m.shape| - 1 { assert Shape(l)[n - |m.shape| + d] == l.b.shape[n - |m.shape| + d]; }
    }
    assert Shape(l') == JoinShape(Shape(l), m.shape);
  }

  /** The rows of B a scaled row comes from. */
  function ScaledRow(l: LoraTensor, i: seq<nat>): (r: seq<nat>)
    requires Built(l) && |i| == Dims(l) - 1
    ensures |r| == |i|
  {
    Broadcast(RowsB(l), i)
  }

  /** The multiplier's entry only depends on the row. */
  lemma {:induction false} MultiplierRow(m: Tensor, i: seq<nat>, x: nat, y: nat)
    requires m.shape == [] || m.shape[|m.shape| - 1] == 1
    requires |m.shape| <= |i| + 1
    ensures Broadcast(m.shape, i + [x]) == Broadcast(m.shape, i + [y])
  {
  }

  lemma {:induction false} RowBroadcast(shape: seq<nat>, rows: seq<nat>, c: nat, i: seq<nat>, x: nat)
    requires shape == rows + [c] && |i| == |rows| && x < c
    ensures Broadcast(shape, i + [x]) == Broadcast(rows, i) + [x]
  {
  }

  lemma {:induction false} ScaleTerm(l: LoraTensor, m: Tensor, i: seq<nat>, j: nat, k: nat)
    requires Scalable(l, m) && WellFormed(ScaledFactors(l, m)) && Rank(ScaledFactors(l, m)) == Rank(l)
    requires |i| == Dims(l) - 1 && In(i, RowsB(ScaledFactors(l, m))) && j < Columns(l) && k < Rank(l)
    ensures TermAt(ScaledFactors(l, m), i, j, k) ==
            At(m, Broadcast(m.shape, i + [j])) * TermAt(l, ScaledRow(l, i), j, k)
  {
    hide At, Multiplied, Tensors.In;
    var l' := ScaledFactors(l, m);
    var i0 := ScaledRow(l, i);
    Shapes(l);
    Shapes(l');
    ScaledSize(l, m, i);
    InAppend(i, RowsB(l'), k, Rank(l));
    MultipliedAt(l.b, m, i + [k]);
    MultiplierRow(m, i, k, j);
    RowBroadcast(l.b.shape, RowsB(l), Rank(l), i, k);
    LeadBroadcast(l, m, i);
    MultiplyOut(At(m, Broadcast(m.shape, i + [j])), At(l.b, i0 + [k]),
      At(l.a, Broadcast(LeadA(l), i0[..Dims(l) - 2]) + [k, j]));
  }

  lemma {:induction false} MultiplyOut(x: real, y: real, z: real)
    ensures (x * y) * z == x * (y * z)
  {
  }

  lemma {:induction false} ScaledSize(l: LoraTensor, m: Tensor, i: seq<nat>)
    requires Scalable(l, m) && Built(ScaledFactors(l, m)) && In(i, RowsB(ScaledFactors(l, m)))
    ensures |i| == Dims(l) - 1
    ensures ScaledFactors(l, m).b.shape == JoinShape(l.b.shape, m.shape)
    ensures Dims(ScaledFactors(l, m)) == Dims(l)
  {
  }

  lemma {:induction false} LeadBroadcast(l: LoraTensor, m: Tensor, i: seq<nat>)
    requires WellFormed(l) && |i| == Dims(l) - 1
    ensures Broadcast(LeadA(l), i[..Dims(l) - 2]) == Broadcast(LeadA(l), ScaledRow(l, i)[..Dims(l) - 2])
  {
  }

  lemma {:induction false} ScaledRowIn(l: LoraTensor, m: Tensor, i: seq<nat>)
    requires Scalable(l, m) && Built(ScaledFactors(l, m))
    requires |i| == Dims(l) - 1 && In(i, RowsB(ScaledFactors(l, m)))
    ensures In(ScaledRow(l, i), RowsB(l))
  {
    hide Multiplied;
    var l' := ScaledFactors(l, m);
    forall d | 0 <= d < |i|
      ensures ScaledRow(l, i)[d] < RowsB(l)[d]
    {
      assert i[d] < l'.b.shape[d] && l'.b.shape[d] == JoinShape(l.b.shape, m.shape)[d];
    }
  }

  lemma {:induction false} ScaleEntry(l: LoraTensor, m: Tensor, i: seq<nat>, j: nat)
    requires Scalable(l, m) && WellFormed(ScaledFactors(l, m)) && Rank(ScaledFactors(l, m)) == Rank(l)
    requires Shape(ScaledFactors(l, m)) == JoinShape(Shape(l), m.shape)
    requires |i| == Dims(l) - 1 && In(i, RowsB(ScaledFactors(l, m))) && j < Columns(l)
    ensures At(Multiplied(Dense(l), m), i + [j]) == DotAt(ScaledFactors(l, m), i, j)
  {
    hide At, Multiplied, Dense, TermAt, Tensors.In, JoinShape, Broadcast, ScaledFactors, ScaledRow, Broadcastable;
    var l' := ScaledFactors(l, m);
    var i0 := ScaledRow(l, i);
    ScaledRowIn(l, m, i);
    ScaledSize(l, m, i);
    ScaledColumns(l, m);
    ScaledFits(l, m);
    InAppend(i, RowsB(l'), j, Columns(l));
    assert Shape(l') == RowsB(l') + [Columns(l)];
    MultipliedAt(Dense(l), m, i + [j]);
    ScaledDenseIndex(l, i, j);
    DenseAt(l, i0, j);
    var c := At(m, Broadcast(m.shape, i + [j]));
    forall k: nat | k < Rank(l)
      ensures Term(l', i, j)(k) == c * Term(l, i0, j)(k)
    {
      ScaleTerm(l, m, i, j, k);
    }
    SumScaled(Rank(l), Term(l, i0, j), Term(l', i, j), c);
  }

  lemma {:induction false} ScaledColumns(l: LoraTensor, m: Tensor)
    requires Scalable(l, m) && Built(ScaledFactors(l, m))
    ensures Columns(ScaledFactors(l, m)) == Columns(l)
  {
    hide Multiplied;
  }

  lemma {:induction false} ScaledFits(l: LoraTensor, m: Tensor)
    requires Scalable(l, m)
    ensures |m.shape| <= Dims(l)
  {
  }

  lemma {:induction false} ScaledDenseIndex(l: LoraTensor, i: seq<nat>, j: nat)
    requires Built(l) && |i| == Dims(l) - 1 && j < Columns(l)
    ensures Broadcast(Dense(l).shape, i + [j]) == ScaledRow(l, i) + [j]
  {
    hide Dense;
    RowBroadcast(Dense(l).shape, RowsB(l), Columns(l), i, j);
  }

  /** Scaling B on the output side scales the product. */
  lemma {:induction false} ScaleDense(l: LoraTensor, m: Tensor)
    requires Scalable(l, m)
    ensures WellFormed(ScaledFactors(l, m))
    ensures Multiply(Dense(l), m) == Ok(Dense(ScaledFactors(l, m)))
  {
    hide At, Multiplied, Dense, DotAt, JoinShape, ScaledFactors, Broadcastable;
    var l' := ScaledFactors(l, m);
    ScaledFits(l, m);
    ScaleShapes(l, m);
    ScaledColumns(l, m);
    forall i: seq<nat>, j: nat | In(i, RowsB(l')) && j < Columns(l')
      ensures At(Multiplied(Dense(l), m), i + [j]) == DotAt(l', i, j)
    {
      ScaledSize(l, m, i);
      ScaleEntry(l, m, i, j);
    }
    IsDense(l', Multiplied(Dense(l), m));
  }

  // ---------- cat (lines 249-266) ----------

  function CatFactors(ls: seq<LoraTensor>): (r: Outcome<LoraTensor>)
    ensures r.Ok? ==> Built(r.value)
  {
    if ls == [] then Err(Raised("list index out of range"))
    else if Dims(ls[0]) > 2 then
      var a, b := Cat(FactorsA(ls)), Cat(FactorsB(ls));
      if a.Err? then Err(a.error) else if b.Err? then Err(b.error) else Make(a.value, b.value)
    else if forall p :: 0 <= p < |ls| ==> ls[p].a == ls[0].a then
      var b := Cat(FactorsB(ls));
      if b.Err? then Err(b.error) else Make(ls[0].a, b.value)
    else Err(Raised("not implemented"))
  }

  function Sizes(ts: seq<Tensor>): (s: seq<nat>)
    requires SameRows(ts)
    ensures |s| == |ts| && forall p :: 0 <= p < |ts| ==> s[p] == ts[p].shape[0]
  {
    seq(|ts|, p requires 0 <= p < |ts| => ts[p].shape[0])
  }

  function Total(sizes: seq<nat>): (n: nat)
  {
    if sizes == [] then 0 else sizes[0] + Total(sizes[1..])
  }

  /** The part row `x` falls into, and its row there. */
  function Locate(sizes: seq<nat>, x: nat): (r: (nat, nat))
    requires x < Total(sizes)
    ensures r.0 < |sizes| && r.1 < sizes[r.0]
  {
    if x < sizes[0] then (0, x)
    else
      var r := Locate(sizes[1..], x - sizes[0]);
      (r.0 + 1, r.1)
  }

  lemma {:induction false} RowsTotal(ts: seq<Tensor>)
    requires SameRows(ts)
    ensures Rows(ts) == Total(Sizes(ts))
  {
    if ts != [] {
      RowsTotal(ts[1..]);
      assert Sizes(ts)[1..] == Sizes(ts[1..]);
    }
  }

  lemma {:induction false} CatLocate(ts: seq<Tensor>, x: nat, rest: seq<nat>)
    requires SameRows(ts) && x < Total(Sizes(ts))
    ensures var (p, y) := Locate(Sizes(ts), x); CatAt(ts, x, rest) == At(ts[p], [y] + rest)
  {
    assert Sizes(ts)[1..] == Sizes(ts[1..]);
    if x >= ts[0].shape[0] {
      CatLocate(ts[1..], x - ts[0].shape[0], rest);
    }
  }

  /** An entry of a concatenation is an entry of one of its parts. */
  lemma {:induction false} PartAt(ts: seq<Tensor>, x: nat, rest: seq<nat>)
    requires ts != [] && SameRows(ts) && x < Total(Sizes(ts)) && In(rest, ts[0].shape[1..])
    ensures var (p, y) := Locate(Sizes(ts), x); At(Concatenated(ts), [x] + rest) == At(ts[p], [y] + rest)
  {
    RowsTotal(ts);
    ConcatenatedAt(ts, x, rest);
    CatLocate(ts, x, rest);
  }

  predicate SharedA(ls: seq<LoraTensor>)
    requires ls != []
  {
    Dims(ls[0]) == 2 && forall p :: 0 <= p < |ls| ==> ls[p].a == ls[0].a
  }

  predicate BatchedA(ls: seq<LoraTensor>)
    requires ls != []
  {
    Dims(ls[0]) > 2 && SameRows(FactorsA(ls)) &&
    forall p :: 0 <= p < |ls| ==>
      ls[p].a.shape != [] && ls[p].b.shape != [] && ls[p].a.shape[0] == ls[p].b.shape[0]
  }

  /** The cases in which `cat` keeps the product: two dimensions with one A for all parts, or more dimensions
      with the first dimension of every A as long as that of its B. */
  predicate Catable(ls: seq<LoraTensor>)
  {
    ls != [] && AllWellFormed(ls) && SameRows(FactorsB(ls)) && (SharedA(ls) || BatchedA(ls))
  }

  function ConcatenatedFactors(ls: seq<LoraTensor>): (l: LoraTensor)
    requires Catable(ls)
    ensures l.b == Concatenated(FactorsB(ls))
    ensures l.a == if SharedA(ls) then ls[0].a else Concatenated(FactorsA(ls))
  {
    LoraTensor(if SharedA(ls) then ls[0].a else Concatenated(FactorsA(ls)), Concatenated(FactorsB(ls)))
  }

  lemma {:induction false} CatBasics(ls: seq<LoraTensor>)
    requires Catable(ls)
    ensures ls != [] && AllWellFormed(ls) && SameRows(FactorsB(ls))
    ensures Dims(ls[0]) > 2 ==> SameRows(FactorsA(ls)) && BatchedA(ls)
  {
  }

  lemma {:induction false} CatParts(ls: seq<LoraTensor>, p: nat)
    requires Catable(ls) && p < |ls|
    ensures Dims(ls[p]) == Dims(ls[0]) && Rank(ls[p]) == Rank(ls[0]) && Columns(ls[p]) == Columns(ls[0])
    ensures RowsB(ls[p])[1..] == RowsB(ls[0])[1..]
    ensures Dims(ls[0]) > 2 ==> LeadA(ls[p])[1..] == LeadA(ls[0])[1..] && ls[p].a.shape[1..] == ls[0].a.shape[1..]
  {
    var q, z := ls[p], ls[0];
    assert WellFormed(q) && WellFormed(z);
    assert FactorsB(ls)[p].shape[1..] == FactorsB(ls)[0].shape[1..];
    SameTail(q.b.shape, z.b.shape);
    if Dims(z) > 2 {
      assert FactorsA(ls)[p].shape[1..] == FactorsA(ls)[0].shape[1..];
      SameTail(q.a.shape, z.a.shape);
    }
  }

  /** Shapes that differ in the first dimension only. */
  lemma {:induction false} SameTail(s: seq<nat>, t: seq<nat>)
    requires s != [] && t != [] && s[1..] == t[1..]
    ensures |s| == |t| && forall d :: 1 <= d < |s| ==> s[d] == t[d]
    ensures forall n :: 1 <= n <= |s| ==> s[..n][1..] == t[..n][1..]
  {
    assert forall d :: 1 <= d < |s| ==> s[d] == s[1..][d - 1];
    assert forall d :: 1 <= d < |t| ==> t[d] == t[1..][d - 1];
  }

  lemma {:induction false} DenseRows(ls: seq<LoraTensor>)
    requires Catable(ls)
    ensures SameRows(Denses(ls)) && Sizes(Denses(ls)) == Sizes(FactorsB(ls))
    ensures Dims(ls[0]) > 2 ==> Sizes(FactorsA(ls)) == Sizes(FactorsB(ls))
  {
    hide Dense, Product;
    forall p | 0 <= p < |ls|
      ensures Denses(ls)[p].shape != [] && Denses(ls)[p].shape[1..] == Denses(ls)[0].shape[1..]
      ensures Denses(ls)[p].shape[0] == ls[p].b.shape[0]
    {
      hide Catable;
      DenseRow(ls, p);
    }
    assert Sizes(Denses(ls)) == Sizes(FactorsB(ls));
    if Dims(ls[0]) > 2 { assert Sizes(FactorsA(ls)) == Sizes(FactorsB(ls)); }
  }

  lemma {:induction false} DenseRow(ls: seq<LoraTensor>, p: nat)
    requires Catable(ls) && p < |ls|
    ensures ls != [] && Built(ls[p]) && Built(ls[0])
    ensures Shape(ls[p])[1..] == Shape(ls[0])[1..] && Shape(ls[p])[0] == ls[p].b.shape[0]
  {
    hide Product;
    CatParts(ls, p);
    assert Shape(ls[p])[1..] == RowsB(ls[p])[1..] + [Columns(ls[p])];
    assert Shape(ls[0])[1..] == RowsB(ls[0])[1..] + [Columns(ls[0])];
  }

  lemma {:induction false} CatShapes(ls: seq<LoraTensor>)
    requires Catable(ls)
    ensures var l := ConcatenatedFactors(ls);
            var rows := Total(Sizes(FactorsB(ls)));
            WellFormed(l) && Dims(l) == Dims(ls[0]) && Rank(l) == Rank(ls[0]) && Columns(l) == Columns(ls[0]) &&
            RowsB(l) == [rows] + RowsB(ls[0])[1..] && Shape(l) == [rows] + Shape(ls[0])[1..] &&
            (Dims(l) > 2 ==> LeadA(l) == [rows] + LeadA(ls[0])[1..])
  {
    hide Concatenated;
    var l, z := ConcatenatedFactors(ls), ls[0];
    var n := Dims(z);
    RowsTotal(FactorsB(ls));
    assert l.b.shape == [Rows(FactorsB(ls))] + z.b.shape[1..];
    assert RowsB(l) == [Rows(FactorsB(ls))] + RowsB(z)[1..];
    if n > 2 {
      RowsTotal(FactorsA(ls));
      DenseRows(ls);
      assert l.a.shape == [Rows(FactorsA(ls))] + z.a.shape[1..];
      assert LeadA(l) == [Rows(FactorsA(ls))] + LeadA(z)[1..];
    }
  }

  /** The shapes behind the first dimension, with the matrix dimensions split off. */
  lemma {:induction false} TailShapes(l: LoraTensor)
    requires Built(l)
    ensures l.b.shape[1..] == RowsB(l)[1..] + [Rank(l)]
    ensures Shape(l)[1..] == RowsB(l)[1..] + [Columns(l)]
    ensures Dims(l) > 2 ==> l.a.shape[1..] == LeadA(l)[1..] + [Rank(l), Columns(l)]
  {
  }

  lemma {:induction false} ConsAppend<T>(x: T, s: seq<T>, t: seq<T>)
    ensures [x] + s + t == [x] + (s + t)
  {
  }

  lemma {:induction false} CatTermB(ls: seq<LoraTensor>, x: nat, i: seq<nat>, k: nat)
    requires Catable(ls) && x < Total(Sizes(FactorsB(ls))) && In(i, RowsB(ls[0])[1..]) && k < Rank(ls[0])
    ensures var (p, y) := Locate(Sizes(FactorsB(ls)), x);
            At(ConcatenatedFactors(ls).b, [x] + i + [k]) == At(ls[p].b, [y] + i + [k])
  {
    hide At, Concatenated, Catable, Locate, In, SameRows, Sizes, Total;
    CatBasics(ls);
    TailShapes(ls[0]);
    InAppend(i, RowsB(ls[0])[1..], k, Rank(ls[0]));
    PartAt(FactorsB(ls), x, i + [k]);
    var (p, y) := Locate(Sizes(FactorsB(ls)), x);
    ConsAppend(x, i, [k]);
    ConsAppend(y, i, [k]);
  }

  lemma {:induction false} CatTermA(ls: seq<LoraTensor>, x: nat, i: seq<nat>, k: nat, j: nat)
    requires Catable(ls) && Dims(ls[0]) > 2 && Sizes(FactorsA(ls)) == Sizes(FactorsB(ls))
    requires x < Total(Sizes(FactorsB(ls))) && In(i, LeadA(ls[0])[1..]) && k < Rank(ls[0]) && j < Columns(ls[0])
    ensures var (p, y) := Locate(Sizes(FactorsB(ls)), x);
            At(ConcatenatedFactors(ls).a, [x] + i + [k, j]) == At(ls[p].a, [y] + i + [k, j])
  {
    hide At, Concatenated, Locate, Catable, In, SameRows, Sizes, Total;
    CatBasics(ls);
    TailShapes(ls[0]);
    InPair(i, LeadA(ls[0])[1..], k, Rank(ls[0]), j, Columns(ls[0]));
    PartAt(FactorsA(ls), x, i + [k, j]);
    var (p, y) := Locate(Sizes(FactorsB(ls)), x);
    ConsAppend(x, i, [k, j]);
    ConsAppend(y, i, [k, j]);
  }

  lemma {:induction false} BroadcastRow(lead: seq<nat>, s: nat, rest: seq<nat>, x: nat, i: seq<nat>)
    requires lead == [s] + rest && x < s && |i| == |rest| + 1
    ensures Broadcast(lead, ([x] + i)[..|lead|]) == [x] + Broadcast(rest, i[..|rest|])
  {
    assert ([x] + i)[..|lead|] == [x] + i[..|rest|];
    BroadcastCons(s, rest, x, i[..|rest|]);
  }

  /** A batch position inside the rows of B is one A can be read at. */
  lemma {:induction false} BatchIn(l: LoraTensor, i: seq<nat>)
    requires WellFormed(l) && Dims(l) > 2 && In(i, RowsB(l)[1..])
    ensures |i| == Dims(l) - 2
    ensures In(Broadcast(LeadA(l)[1..], i[..Dims(l) - 3]), LeadA(l)[1..])
  {
    forall d | 0 <= d < Dims(l) - 3
      ensures Broadcast(LeadA(l)[1..], i[..Dims(l) - 3])[d] < LeadA(l)[1..][d]
    {
      assert i[d] < RowsB(l)[1..][d];
    }
  }

  /** The row of A a part reads: its own first position, the shared rest. */
  lemma {:induction false} CatLead(ls: seq<LoraTensor>, p: nat, y: nat, i: seq<nat>)
    requires Catable(ls) && p < |ls| && Dims(ls[0]) > 2 && y < ls[p].b.shape[0]
    requires |i| == Dims(ls[0]) - 2 && Dims(ls[p]) == Dims(ls[0])
    ensures Broadcast(LeadA(ls[p]), ([y] + i)[..Dims(ls[0]) - 2]) ==
            [y] + Broadcast(LeadA(ls[0])[1..], i[..Dims(ls[0]) - 3])
  {
    hide Broadcast, Catable, SameRows;
    CatBasics(ls);
    CatParts(ls, p);
    assert LeadA(ls[p]) == [ls[p].a.shape[0]] + LeadA(ls[p])[1..];
    BroadcastRow(LeadA(ls[p]), ls[p].a.shape[0], LeadA(ls[p])[1..], y, i);
  }

  lemma {:induction false} CatTerm(l: LoraTensor, q: LoraTensor, x: nat, y: nat, i: seq<nat>,
                                   j: nat, k: nat)
    requires Built(l) && Built(q) && |i| == Dims(l) - 2 == Dims(q) - 2
    requires At(l.b, [x] + i + [k]) == At(q.b, [y] + i + [k])
    requires At(l.a, Broadcast(LeadA(l), ([x] + i)[..Dims(l) - 2]) + [k, j]) ==
             At(q.a, Broadcast(LeadA(q), ([y] + i)[..Dims(l) - 2]) + [k, j])
    ensures TermAt(l, [x] + i, j, k) == TermAt(q, [y] + i, j, k)
  {
    hide At, LeadA, Broadcast;
  }

  lemma {:induction false} CatEntry(ls: seq<LoraTensor>, x: nat, i: seq<nat>, j: nat)
    requires Catable(ls) && x < Total(Sizes(FactorsB(ls))) && In(i, RowsB(ls[0])[1..]) && j < Columns(ls[0])
    requires |i| == Dims(ls[0]) - 2 && Built(ConcatenatedFactors(ls)) && Dims(ConcatenatedFactors(ls)) == Dims(ls[0])
    ensures var (p, y) := Locate(Sizes(FactorsB(ls)), x);
            |i| == Dims(ls[p]) - 2 && DotAt(ConcatenatedFactors(ls), [x] + i, j) == DotAt(ls[p], [y] + i, j)
  {
    hide At, Concatenated, DotAt, Catable, In, Locate, ConcatenatedFactors, Total, Sizes, SameRows, BatchedA,
      Broadcast, TermAt;
    CatBasics(ls);
    var l := ConcatenatedFactors(ls);
    var (p, y) := Locate(Sizes(FactorsB(ls)), x);
    CatShapes(ls);
    CatParts(ls, p);
    DenseRows(ls);
    if Dims(ls[0]) > 2 {
      CatLead(ls, p, y, i);
      BroadcastRow(LeadA(l), Total(Sizes(FactorsB(ls))), LeadA(ls[0])[1..], x, i);
      BatchIn(ls[0], i);
    } else {
      SharedTerm(ls, p, x, y, i);
    }
    forall k: nat | k < Rank(l)
      ensures TermAt(l, [x] + i, j, k) == TermAt(ls[p], [y] + i, j, k)
    {
      CatTermB(ls, x, i, k);
      if Dims(ls[0]) > 2 { CatTermA(ls, x, Broadcast(LeadA(ls[0])[1..], i[..Dims(ls[0]) - 3]), k, j); }
      CatTerm(l, ls[p], x, y, i, j, k);
    }
    DotEqual(l, [x] + i, ls[p], [y] + i, j, j);
  }

  lemma {:induction false} SharedTerm(ls: seq<LoraTensor>, p: nat, x: nat, y: nat, i: seq<nat>)
    requires Catable(ls) && p < |ls| && Dims(ls[0]) == 2 && |i| == 0 && Dims(ls[p]) == 2
    requires Built(ConcatenatedFactors(ls)) && Dims(ConcatenatedFactors(ls)) == 2
    ensures ConcatenatedFactors(ls).a == ls[p].a
    ensures Broadcast(LeadA(ConcatenatedFactors(ls)), ([x] + i)[..0]) == Broadcast(LeadA(ls[p]), ([y] + i)[..0])
  {
  }

  lemma {:induction false} PartIndex(l: LoraTensor, y: nat, i: seq<nat>)
    requires Built(l) && y < l.b.shape[0] && In(i, RowsB(l)[1..])
    ensures In([y] + i, RowsB(l))
  {
    assert RowsB(l) == [RowsB(l)[0]] + RowsB(l)[1..];
  }

  lemma {:induction false} CatDenseAt(ls: seq<LoraTensor>, x: nat, i: seq<nat>, j: nat)
    requires Catable(ls) && SameRows(Denses(ls)) && Built(ConcatenatedFactors(ls))
    requires |i| == Dims(ls[0]) - 2 && Dims(ConcatenatedFactors(ls)) == Dims(ls[0])
    requires x < Total(Sizes(FactorsB(ls))) && In(i, RowsB(ls[0])[1..]) && j < Columns(ls[0])
    ensures At(Concatenated(Denses(ls)), [x] + i + [j]) == DotAt(ConcatenatedFactors(ls), [x] + i, j)
  {
    hide At, Concatenated, DotAt, Dense, Catable, Locate, ConcatenatedFactors, Total, Sizes, SameRows;
    CatBasics(ls);
    DenseRows(ls);
    InAppend(i, RowsB(ls[0])[1..], j, Columns(ls[0]));
    TailShapes(ls[0]);
    PartAt(Denses(ls), x, i + [j]);
    var (p, y) := Locate(Sizes(FactorsB(ls)), x);
    ConsAppend(x, i, [j]);
    ConsAppend(y, i, [j]);
    CatParts(ls, p);
    PartIndex(ls[p], y, i);
    DenseAt(ls[p], [y] + i, j);
    CatEntry(ls, x, i, j);
  }

  /** Concatenating the factors concatenates the products. */
  lemma {:induction false} CatDense(ls: seq<LoraTensor>)
    requires Catable(ls)
    ensures WellFormed(ConcatenatedFactors(ls))
    ensures Cat(Denses(ls)) == Ok(Dense(ConcatenatedFactors(ls)))
  {
    hide At, Dense, DotAt, Concatenated, ConcatenatedFactors, Catable, Total, Sizes, SameRows;
    CatBasics(ls);
    var l := ConcatenatedFactors(ls);
    CatShapes(ls);
    DenseRows(ls);
    RowsTotal(Denses(ls));
    CatDenseShape(ls);
    forall i: seq<nat>, j: nat | In(i, RowsB(l)) && j < Columns(l)
      ensures At(Concatenated(Denses(ls)), i + [j]) == DotAt(l, i, j)
    {
      CatDenseIndex(ls, i, j);
    }
    IsDense(l, Concatenated(Denses(ls)));
  }

  lemma {:induction false} CatDenseIndex(ls: seq<LoraTensor>, i: seq<nat>, j: nat)
    requires Catable(ls) && SameRows(Denses(ls)) && Built(ConcatenatedFactors(ls))
    requires Dims(ConcatenatedFactors(ls)) == Dims(ls[0])
    requires RowsB(ConcatenatedFactors(ls)) == [Total(Sizes(FactorsB(ls)))] + RowsB(ls[0])[1..]
    requires In(i, RowsB(ConcatenatedFactors(ls))) && j < Columns(ls[0])
    ensures At(Concatenated(Denses(ls)), i + [j]) == DotAt(ConcatenatedFactors(ls), i, j)
  {
    hide At, Dense, DotAt, Concatenated, ConcatenatedFactors, Catable, Total, Sizes, SameRows;
    CatBasics(ls);
    var l := ConcatenatedFactors(ls);
    InTail(i, RowsB(l));
    assert RowsB(l)[1..] == RowsB(ls[0])[1..];
    assert i == [i[0]] + i[1..];
    CatDenseAt(ls, i[0], i[1..], j);
  }

  lemma {:induction false} CatDenseShape(ls: seq<LoraTensor>)
    requires Catable(ls) && SameRows(Denses(ls)) && Rows(Denses(ls)) == Total(Sizes(FactorsB(ls)))
    ensures ls != [] && Built(ls[0]) &&
      Concatenated(Denses(ls)).shape == [Total(Sizes(FactorsB(ls)))] + Shape(ls[0])[1..]
  {
    hide Dense, Concatenated, Catable;
    CatBasics(ls);
    assert Denses(ls)[0].shape == Shape(ls[0]);
  }
}
