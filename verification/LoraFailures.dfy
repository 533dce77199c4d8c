/** Inputs on which `LoraTorchTensor` raises no error and goes wrong, one for each exact condition of
    `LoraPrograms`. */
module LoraFailures {
  import opened Wrappers
  import opened Tensors
  import opened Lora
  import opened LoraJoins
  import opened LoraPrograms

  function Filled(shape: seq<nat>): (t: Tensor)
    ensures t.shape == shape
  {
    Tabulate(shape, _ => 1.0)
  }

  /** Factors with a batch dimension of `n` for A and of 2 for B, and nothing else. */
  function Batches(n: nat): (l: LoraTensor)
    ensures l.a.shape == [n, 1, 1] && l.b.shape == [2, 1, 1] && Built(l)
    ensures n == 1 || n == 2 ==> WellFormed(l)
  {
    LoraTensor(Filled([n, 1, 1]), Filled([2, 1, 1]))
  }

  /** Torch multiplies the factors to `made` batches, and the `shape` property says `told`. */
  predicate Mismatch(l: LoraTensor, made: nat, told: nat)
  {
    Built(l) && Dims(l) == 3 && Broadcastable(l.b.shape[..1], l.a.shape[..1]) &&
    JoinShape(l.b.shape[..1], l.a.shape[..1]) == [made] && Shape(l)[0] == told
  }

  /** `t[1:]` where A repeats its only batch: nothing of A is left for the one batch of B, and the product is empty. */
  lemma {:induction false} FirstGoesWrong()
    ensures var ix := Slice(Range(Some(1), None, 1));
            FirstFactors(Batches(1), ix).Ok? && !WellFormed(FirstFactors(Batches(1), ix).value) &&
            Mismatch(FirstFactors(Batches(1), ix).value, 0, 1)
  {
    hide Batches, Product, GatherFactors, ResolveRange, OneEntry, WellFormed, Built, LeadA, LeadB, Mismatch;
    var l, ix := Batches(1), Slice(Range(Some(1), None, 1));
    FromSecond();
    BatchRun(l, Run(1, 0, 1), Run(1, 1, 1));
    FirstExact(l, ix);
  }

  lemma {:induction false} FromSecond()
    ensures var r := Range(Some(1), None, 1);
            ResolveRange(r, 1) == Ok(Run(1, 0, 1)) && ResolveRange(r, 2) == Ok(Run(1, 1, 1))
  {
  }

  /** Runs of the batch dimensions that fit give factors. */
  lemma {:induction false} BatchRun(l: LoraTensor, ea: Entry, eb: Entry)
    requires Built(l) && Dims(l) == 3 && ea.Run? && eb.Run?
    requires EntryFits(ea, l.a.shape[0]) && EntryFits(eb, l.b.shape[0])
    ensures OneEntry(LeadA(l), 0, ea) == [ea] && OneEntry(LeadB(l), 0, eb) == [eb]
    ensures var r := GatherFactors(l, [ea], [eb], FullRun(l.b.shape[1]), FullRun(Columns(l)));
            r.Ok? && (eb.len == 1 ==> Mismatch(r.value, ea.len, eb.len))
  {
    hide Product, Subscripted, GatherShape;
    var a, b := [ea] + [FullRun(Rank(l)), FullRun(Columns(l))], [eb] + [FullRun(l.b.shape[1]), FullRun(Rank(l))];
    assert Fits(a, l.a.shape) && Fits(b, l.b.shape);
    GatherMatrixShape([ea], FullRun(Rank(l)), FullRun(Columns(l)));
    GatherMatrixShape([eb], FullRun(l.b.shape[1]), FullRun(Rank(l)));
    RunShape(ea);
    RunShape(eb);
    GatheredShape(l.a, a);
    GatheredShape(l.b, b);
    var r := GatherFactors(l, [ea], [eb], FullRun(l.b.shape[1]), FullRun(Columns(l))).value;
    if eb.len == 1 { OneBatchTold(r, ea.len); }
  }

  lemma {:induction false} OneBatchTold(r: LoraTensor, made: nat)
    requires Built(r) && Dims(r) == 3 && r.a.shape[0] == made && r.b.shape[0] == 1
    ensures Mismatch(r, made, 1)
  {
    assert r.b.shape[..1] == [1] && r.a.shape[..1] == [made];
    assert JoinShape([1], [made]) == [made];
  }

  lemma {:induction false} RunShape(e: Entry)
    requires e.Run?
    ensures GatherShape([e]) == [e.len]
  {
    GatherAppendShape([], e);
    assert [] + [e] == [e];
  }

  /** Two parts whose A repeats: the A's span two batches and the B's four, which torch refuses to multiply. */
  lemma {:induction false} CatGoesWrong()
    ensures var ls := [Batches(1), Batches(1)]; CatFactors(ls).Ok? && !WellFormed(CatFactors(ls).value)
  {
    hide Batches, Product, CatFactors, WellFormed;
    var l := Batches(1);
    TwoParts(l);
    CatSums([l, l]);
    assert FirstsA([l, l]) == [1, 1] && FirstsB([l, l]) == [2, 2];
    Twice(1);
    Twice(2);
  }

  lemma {:induction false} Twice(n: nat)
    ensures Total([n, n]) == n + n
  {
    assert [n, n][1..] == [n] && [n][1..] == [] && Total([n]) == n;
  }

  lemma {:induction false} TwoParts(l: LoraTensor)
    requires Built(l) && Dims(l) == 3
    ensures CatFactors([l, l]).Ok?
  {
    hide Product, Concatenated;
    assert FactorsA([l, l]) == [l.a, l.a] && FactorsB([l, l]) == [l.b, l.b];
  }

  /** One part with `n` batches that share an A of one number. */
  function Part(n: nat, x: real): (l: LoraTensor)
    ensures l.a.shape == [1, 1, 1] && l.b.shape == [n, 1, 1] && WellFormed(l)
  {
    LoraTensor(Tabulate([1, 1, 1], _ => x), Filled([n, 1, 1]))
  }

  /** A part without batches, and one with two. */
  function Misaligned(): (ls: seq<LoraTensor>)
    ensures ls == [Part(0, 5.0), Part(2, 1.0)] && AllWellFormed(ls)
  {
    [Part(0, 5.0), Part(2, 1.0)]
  }

  /** Their A's together are as long as their B's, but the first batch of the second part is multiplied by the A of the
      first. */
  lemma {:induction false} CatMisaligned()
    ensures var r, dense := CatFactors(Misaligned()), Cat(Denses(Misaligned()));
            r.Ok? && WellFormed(r.value) && dense.Ok? && dense != Ok(Dense(r.value))
  {
    hide Misaligned, Part, Product, Concatenated, Dense, At, CatAt, Cat, WellFormed;
    var p, q := Part(0, 5.0), Part(2, 1.0);
    var ls := Misaligned();
    assert FactorsA(ls) == [p.a, q.a] && FactorsB(ls) == [p.b, q.b] && Denses(ls) == [Dense(p), Dense(q)];
    DenseShape(p);
    DenseShape(q);
    TwoRows(p.a, q.a);
    TwoRows(p.b, q.b);
    TwoRows(Dense(p), Dense(q));
    var r := CatFactors(ls).value;
    LongAs(r);
    PartAt(0, 5.0);
    PartAt(2, 1.0);
    OneTerm(q);
    OneTerm(r);
    assert At(Dense(r), [0, 0, 0]) == 5.0;
    assert At(Cat(Denses(ls)).value, [0, 0, 0]) == 1.0;
  }

  lemma {:induction false} LongAs(l: LoraTensor)
    requires Built(l) && l.a.shape == l.b.shape
    ensures WellFormed(l)
  {
  }

  /** The first entry of two tensors laid one behind the other. */
  lemma {:induction false} TwoRows(t: Tensor, u: Tensor)
    requires |t.shape| == |u.shape| == 3 && t.shape[1..] == u.shape[1..] == [1, 1] && t.shape[0] + u.shape[0] > 0
    ensures Cat([t, u]).Ok? && Cat([t, u]).value.shape == [t.shape[0] + u.shape[0], 1, 1]
    ensures At(Cat([t, u]).value, [0, 0, 0]) == At(if t.shape[0] > 0 then t else u, [0, 0, 0])
  {
    hide Product, Concatenated, At;
    assert SameRows([t, u]) && [t, u][1..] == [u] && [u][1..] == [];
    assert Rows([]) == 0 && Rows([u]) == u.shape[0] && Rows([t, u]) == t.shape[0] + u.shape[0];
    assert [0] + [0, 0] == [0, 0, 0] && [t.shape[0] + u.shape[0]] + [1, 1] == [t.shape[0] + u.shape[0], 1, 1];
    ConcatenatedAt([t, u], 0, [0, 0]);
    assert CatAt([t, u], 0, [0, 0]) == if t.shape[0] > 0 then At(t, [0, 0, 0]) else CatAt([u], 0, [0, 0]);
  }

  lemma {:induction false} PartAt(n: nat, x: real)
    ensures At(Part(n, x).a, [0, 0, 0]) == x && (n > 0 ==> At(Part(n, x).b, [0, 0, 0]) == 1.0)
  {
    hide At, Tabulate;
    TabulateAt([1, 1, 1], _ => x, [0, 0, 0]);
    if n > 0 { TabulateAt([n, 1, 1], _ => 1.0, [0, 0, 0]); }
  }

  /** The first entry of a product with rank 1. */
  lemma {:induction false} OneTerm(l: LoraTensor)
    requires WellFormed(l) && Dims(l) == 3 && l.b.shape[0] > 0 && l.a.shape[0] > 0
    requires l.b.shape[1..] == [1, 1] && l.a.shape[1..] == [1, 1]
    ensures At(Dense(l), [0, 0, 0]) == At(l.b, [0, 0, 0]) * At(l.a, [0, 0, 0])
  {
    hide Product, At, Dense;
    var i := [0, 0];
    assert i + [0] == [0, 0, 0] && RowsB(l)[0] == l.b.shape[0] && RowsB(l)[1] == 1;
    DenseAt(l, i, 0);
    assert Rank(l) == 1 && Columns(l) == 1;
    assert DotAt(l, i, 0) == TermAt(l, i, 0, 0) by { assert Sum(0, Term(l, i, 0)) == 0.0; }
    assert Broadcast(LeadA(l), i[..1]) == [0];
    assert [0] + [0, 0] == [0, 0, 0];
  }

  /** `t[0:1, :, :]` where A does not repeat: both batches of A are left for the one batch of B, and the product has
      two. */
  lemma {:induction false} TupleGoesWrong()
    ensures var ixs := [Slice(Range(Some(0), Some(1), 1)), ALL, ALL];
            TupleFactors(Batches(2), ixs).Ok? && !WellFormed(TupleFactors(Batches(2), ixs).value) &&
            Mismatch(TupleFactors(Batches(2), ixs).value, 2, 1)
  {
    hide Batches, Product, GatherFactors, ExpandTuple, Mismatch;
    var l, ix := Batches(2), Slice(Range(Some(0), Some(1), 1));
    var ixs := [ix, ALL, ALL];
    PlainTuple(ixs);
    assert Resolve(ix, 2) == Ok(Run(0, 1, 1)) && Resolve(ALL, 1) == Ok(FullRun(1));
    assert ixs[..1] == [ix];
    OneBatch(ix, 2, 2);
    BatchRun(l, FullRun(2), Run(0, 1, 1));
    TupleShapesExact(l, ixs);
    assert !KeepsBatch([ix][0], LeadA(l)[0], LeadB(l)[0]);
  }

  lemma {:induction false} PlainTuple(ixs: seq<Ix>)
    requires ixs != [] && Ellipsis !in ixs
    ensures ExpandTuple(ixs, |ixs|) == Ok(ixs)
  {
    assert ixs[|ixs| - 1] in ixs;
    ExpandsInside(ixs, |ixs|);
    NoEllipsis(ixs, |ixs| - 1);
    assert ixs + Alls(0) == ixs;
  }

  lemma {:induction false} OneBatch(ix: Ix, sa: nat, sb: nat)
    requires ix.Slice? && Resolve(ix, sb).Ok?
    ensures LeadEntries([ix], [sa], [sb]) == Ok(([FullRun(sa)], [Resolve(ix, sb).value]))
  {
    hide Resolve;
    assert [ix][..0] == [] && [sa][..0] == [] && [sb][..0] == [];
    assert LeadEntries([], [], []) == Ok(([], []));
    assert [] + [FullRun(sa)] == [FullRun(sa)] && [] + [Resolve(ix, sb).value] == [Resolve(ix, sb).value];
  }

  /** `t[..., :, :]` on three dimensions becomes four entries, and `t[..., 0]` takes the second dimension. */
  lemma {:induction false} EllipsisGoesWrong()
    ensures ExpandTuple([Ellipsis, ALL, ALL], 3).Ok? && |ExpandTuple([Ellipsis, ALL, ALL], 3).value| == 4
    ensures ExpandTuple([Ellipsis, Position(0)], 3) == Ok([ALL, Position(0), ALL])
    ensures TorchExpand([Ellipsis, Position(0)], 3) == [ALL, ALL, Position(0)]
  {
    hide ExpandTuple, TorchExpand;
    EllipsisExact([], [ALL, ALL], 3);
    assert AroundEllipsis([], [ALL, ALL]) == [Ellipsis, ALL, ALL];
    Expansions([], [Position(0)], 3);
    assert AroundEllipsis([], [Position(0)]) == [Ellipsis, Position(0)];
    assert Alls(1) == [ALL] && Alls(2) == [ALL, ALL];
    assert [] + Alls(1) + [Position(0)] + Alls(1) == [ALL, Position(0), ALL];
    assert [] + Alls(2) + [Position(0)] == [ALL, ALL, Position(0)];
  }

  /** Factors of rank 0 for two rows take the shape of five. */
  lemma {:induction false} ReshapeGoesWrong()
    ensures var l := LoraTensor(Filled([0, 1]), Filled([2, 0]));
            WellFormed(l) && ReshapeFactors(l, [5, 1]).Ok? && ReshapeDenseBy(Dense(l), [5, 1]).Err?
  {
    hide Dense, Filled, Product, ReshapeTo;
    var l := LoraTensor(Filled([0, 1]), Filled([2, 0]));
    assert Shape(l) == [2, 1];
    assert FillDims([5, 1], 0) == [5, 1];
    assert ExpandShape([2, 1], [5, 1]) == Ok([5, 1]);
    EmptyReshapes(l, [5, 1]);
    ColumnCount(5);
    ColumnCount(2);
  }

  lemma {:induction false} ColumnCount(n: nat)
    ensures Product([n, 1]) == n
  {
    hide Product;
    assert Product([]) == 1 by { NoDimensions(); }
    assert [] + [n] == [n] && [n] + [1] == [n, 1];
    ProductAppend([], n);
    ProductAppend([n], 1);
  }

  lemma {:induction false} NoDimensions()
    ensures Product([]) == 1
  {
  }

  /** Without a rank there is no data, so any shape with the same last dimension will do. */
  lemma {:induction false} EmptyReshapes(l: LoraTensor, shape: seq<nat>)
    requires Built(l) && Rank(l) == 0 && |shape| >= 2 && shape[|shape| - 1] == Columns(l)
    ensures ReshapeTo(l, shape).Ok?
  {
    hide Product;
    var m := |shape| - 1;
    Shapes(l);
    MatrixCount(LeadA(l), 0, Columns(l));
    MatrixCount(Ones(m - 1), 0, Columns(l));
    ProductAppend(RowsB(l), 0);
    ProductAppend(shape[..m], 0);
  }
}
