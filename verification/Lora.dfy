/** `LoraTorchTensor`: a weight delta kept as two factors. Every operation acts on the factors alone.
    `LoraPrograms.ProgramCorrect` says that, for whole programs of operations, the factors keep describing the
    matrix product the same program would have produced. */
module Lora {
  import opened Wrappers
  import opened Tensors

  datatype LoraTensor = LoraTensor(a: Tensor, b: Tensor)

  /** What the constructor asserts. */
  predicate Built(l: LoraTensor)
  {
    var n := |l.a.shape|;
    |l.b.shape| == n && n >= 2 && l.a.shape[n - 2] == l.b.shape[n - 1]
  }

  function Make(a: Tensor, b: Tensor): (r: Outcome<LoraTensor>)
    ensures r.Ok? ==> Built(r.value)
  {
    if Built(LoraTensor(a, b)) then Ok(LoraTensor(a, b)) else Err(Rejected)
  }

  function Dims(l: LoraTensor): (n: nat) { |l.a.shape| }

  function Rank(l: LoraTensor): (r: nat)
    requires Built(l)
  {
    l.b.shape[Dims(l) - 1]
  }

  function Columns(l: LoraTensor): (c: nat)
    requires Built(l)
  {
    l.a.shape[Dims(l) - 1]
  }

  /** The leading (batch) dimensions of A, and everything but the rank of B. */
  function LeadA(l: LoraTensor): (s: seq<nat>)
    requires Built(l)
    ensures |s| == Dims(l) - 2
  {
    l.a.shape[..Dims(l) - 2]
  }

  function RowsB(l: LoraTensor): (s: seq<nat>)
    requires Built(l)
    ensures |s| == Dims(l) - 1
  {
    l.b.shape[..Dims(l) - 1]
  }

  /** The `shape` property. */
  function Shape(l: LoraTensor): (s: seq<nat>)
    requires Built(l)
    ensures |s| == Dims(l)
  {
    RowsB(l) + [Columns(l)]
  }

  /** The factors multiply as batched matrices to the reported shape: a batch dimension of A repeats or matches that
      of B. */
  predicate WellFormed(l: LoraTensor)
  {
    Built(l) &&
    forall d :: 0 <= d < Dims(l) - 2 ==> l.a.shape[d] == 1 || l.a.shape[d] == l.b.shape[d]
  }

  /** That is, torch broadcasts the batch dimensions of the factors and gets those of B. */
  lemma {:induction false} MultipliesAsReported(l: LoraTensor)
    requires Built(l)
    ensures var n := Dims(l) - 2;
            WellFormed(l) <==>
            Broadcastable(l.b.shape[..n], LeadA(l)) && JoinShape(l.b.shape[..n], LeadA(l)) == Shape(l)[..n]
  {
    hide Product;
    var n := Dims(l) - 2;
    var b, a := l.b.shape[..n], LeadA(l);
    assert Shape(l)[..n] == b;
    assert forall d :: 0 <= d < n ==> a[d] == l.a.shape[d] && b[d] == l.b.shape[d];
    if Broadcastable(b, a) && JoinShape(b, a) == b {
      forall d | 0 <= d < n
        ensures a[d] == 1 || a[d] == b[d]
      {
        assert JoinShape(b, a)[d] == b[d];
      }
    }
  }

  lemma {:induction false} Shapes(l: LoraTensor)
    requires Built(l)
    ensures l.a.shape == LeadA(l) + [Rank(l), Columns(l)]
    ensures l.b.shape == RowsB(l) + [Rank(l)]
  {
  }

  // ---------- the matrix the factors stand for ----------

  function TermAt(l: LoraTensor, i: seq<nat>, j: nat, k: nat): (x: real)
    requires Built(l) && |i| == Dims(l) - 1
  {
    At(l.b, i + [k]) * At(l.a, Broadcast(LeadA(l), i[..Dims(l) - 2]) + [k, j])
  }

  function Term(l: LoraTensor, i: seq<nat>, j: nat): (f: nat -> real)
    requires Built(l) && |i| == Dims(l) - 1
  {
    (k: nat) => TermAt(l, i, j, k)
  }

  function DotAt(l: LoraTensor, i: seq<nat>, j: nat): (x: real)
    requires Built(l) && |i| == Dims(l) - 1
  {
    Sum(Rank(l), Term(l, i, j))
  }

  lemma {:induction false} DotEqual(l: LoraTensor, i: seq<nat>, l': LoraTensor, i': seq<nat>, j: nat, j': nat)
    requires Built(l) && |i| == Dims(l) - 1 && Built(l') && |i'| == Dims(l') - 1 && Rank(l) == Rank(l')
    requires forall k: nat :: k < Rank(l) ==> TermAt(l, i, j, k) == TermAt(l', i', j', k)
    ensures DotAt(l, i, j) == DotAt(l', i', j')
  {
    SumEqual(Rank(l), Term(l, i, j), Term(l', i', j'));
  }

  /** B times A, with torch's broadcasting of the batch dimensions. */
  function Dense(l: LoraTensor): (t: Tensor)
    requires Built(l)
    ensures t.shape == Shape(l)
  {
    Tabulate(Shape(l), idx =>
      if |idx| == Dims(l) then DotAt(l, idx[..Dims(l) - 1], idx[Dims(l) - 1]) else 0.0)
  }

  lemma {:induction false} DenseAt(l: LoraTensor, i: seq<nat>, j: nat)
    requires Built(l) && In(i, RowsB(l)) && j < Columns(l)
    ensures At(Dense(l), i + [j]) == DotAt(l, i, j)
  {
    InAppend(i, RowsB(l), j, Columns(l));
    var f := (idx: seq<nat>) =>
      if |idx| == Dims(l) then DotAt(l, idx[..Dims(l) - 1], idx[Dims(l) - 1]) else 0.0;
    TabulateAt(Shape(l), f, i + [j]);
    assert (i + [j])[..Dims(l) - 1] == i;
  }

  lemma {:induction false} IsDense(l: LoraTensor, t: Tensor)
    requires Built(l) && t.shape == Shape(l)
    requires forall i: seq<nat>, j: nat :: In(i, RowsB(l)) && j < Columns(l) ==> At(t, i + [j]) == DotAt(l, i, j)
    ensures t == Dense(l)
  {
    forall idx | In(idx, t.shape)
      ensures At(t, idx) == At(Dense(l), idx)
    {
      InSplit(idx, t.shape);
      var i, j := idx[..|idx| - 1], idx[|idx| - 1];
      assert t.shape[..|idx| - 1] == RowsB(l);
      DenseAt(l, i, j);
    }
    Extensional(t, Dense(l));
  }

  // ---------- reshape (lines 136-160) ----------

  function FillDims(dims: seq<int>, fill: nat): (s: seq<nat>)
    requires forall i :: 0 <= i < |dims| ==> dims[i] >= -1
    ensures |s| == |dims|
  {
    seq(|dims|, i requires 0 <= i < |dims| => (if dims[i] == -1 then fill else dims[i]) as nat)
  }

  /** Replaces -1 by what is left of the element count. */
  function ExpandShape(orig: seq<nat>, dims: seq<int>): (r: Outcome<seq<nat>>)
    ensures r.Ok? ==> |r.value| == |dims|
  {
    if exists i :: 0 <= i < |dims| && dims[i] < -1 then Err(Raised("invalid shape dimension"))
    else if -1 in dims then
      var known := Product(FillDims(dims, 1));
      if known == 0 then Err(Raised("division by zero"))
      else if Product(orig) % known != 0 then Err(Raised("assertion"))
      else Ok(FillDims(dims, Product(orig) / known))
    else Ok(FillDims(dims, 0))
  }

  function Ones(n: nat): (s: seq<nat>) { seq(n, _ => 1) }

  function ReshapeTo(l: LoraTensor, shape: seq<nat>): (r: Outcome<LoraTensor>)
    requires Built(l) && |shape| >= 2
    ensures r.Ok? ==> Built(r.value)
  {
    var m := |shape| - 1;
    if shape[m] != Columns(l) then Err(Raised("can't reshape the row size trivially"))
    else
      var a := Reshape(l.a, Ones(m - 1) + [Rank(l), Columns(l)]);
      var b := Reshape(l.b, shape[..m] + [Rank(l)]);
      if a.Err? then Err(a.error) else if b.Err? then Err(b.error) else Make(a.value, b.value)
  }

  function ReshapeFactors(l: LoraTensor, dims: seq<int>): (r: Outcome<LoraTensor>)
    requires Built(l)
    ensures r.Ok? ==> Built(r.value)
  {
    if |dims| < 2 then Err(Raised("can't become a vector"))
    else
      var shape := ExpandShape(Shape(l), dims);
      if shape.Err? then Err(shape.error) else ReshapeTo(l, shape.value)
  }

  lemma {:induction false} ProductPositive(s: seq<nat>)
    requires Product(s) == 1
    ensures forall d :: 0 <= d < |s| ==> s[d] == 1
  {
    if s != [] {
      var m := |s| - 1;
      var p := Product(s[..m]);
      assert p * s[m] == 1;
      assert s[m] >= 1 && p >= 1;
      assert s[m] == 1 && p == 1 by { UnitFactors(p, s[m]); }
      ProductPositive(s[..m]);
      assert forall d :: 0 <= d < m ==> s[d] == s[..m][d];
    }
  }

  lemma {:induction false} UnitFactors(p: nat, q: nat)
    requires p * q == 1
    ensures p == 1 && q == 1
  {
    assert p >= 2 ==> p * q >= 2 * q;
    assert q >= 2 ==> p * q >= p * 2;
  }

  lemma {:induction false} CancelFactor(p: nat, q: nat, c: nat)
    requires c > 0 && p * c == q * c
    ensures p == q
  {
    assert p < q ==> (p + 1) * c <= q * c;
    assert q < p ==> (q + 1) * c <= p * c;
  }

  lemma {:induction false} OnesProduct(n: nat)
    ensures Product(Ones(n)) == 1
  {
    if n > 0 {
      assert Ones(n) == Ones(n - 1) + [1];
      ProductAppend(Ones(n - 1), 1);
      OnesProduct(n - 1);
    }
  }

  lemma {:induction false} UnitRavel(shape: seq<nat>, idx: seq<nat>)
    requires In(idx, shape) && forall d :: 0 <= d < |shape| ==> shape[d] == 1
    ensures Ravel(shape, idx) == 0
  {
    if shape != [] {
      var m := |shape| - 1;
      InSplit(idx, shape);
      UnitRavel(shape[..m], idx[..m]);
    }
  }

  /** Where an entry sits in the data, its last two indices split off. */
  lemma {:induction false} AtMatrix(t: Tensor, lead: seq<nat>, r: nat, c: nat, i: seq<nat>, k: nat, j: nat)
    requires t.shape == lead + [r, c] && In(i, lead) && k < r && j < c
    ensures In(i + [k, j], t.shape)
    ensures 0 <= (Ravel(lead, i) * r + k) * c + j < |t.data|
    ensures At(t, i + [k, j]) == t.data[(Ravel(lead, i) * r + k) * c + j]
  {
    assert lead + [r, c] == (lead + [r]) + [c] && i + [k, j] == (i + [k]) + [j];
    InAppend(i, lead, k, r);
    InAppend(i + [k], lead + [r], j, c);
    RavelAppend(lead, i, r, k);
    RavelAppend(lead + [r], i + [k], c, j);
    RavelUnravel(t.shape, i + [k, j]);
  }

  lemma {:induction false} AtRow(t: Tensor, lead: seq<nat>, c: nat, i: seq<nat>, j: nat)
    requires t.shape == lead + [c] && In(i, lead) && j < c
    ensures In(i + [j], t.shape)
    ensures 0 <= Ravel(lead, i) * c + j < |t.data|
    ensures At(t, i + [j]) == t.data[Ravel(lead, i) * c + j]
  {
    InAppend(i, lead, j, c);
    RavelAppend(lead, i, c, j);
    RavelUnravel(t.shape, i + [j]);
  }

  lemma {:induction false} BroadcastIn(shape: seq<nat>, full: seq<nat>, idx: seq<nat>)
    requires |shape| == |full| && In(idx, full)
    requires forall d :: 0 <= d < |shape| ==> shape[d] == 1 || shape[d] == full[d]
    ensures In(Broadcast(shape, idx), shape)
  {
  }

  /** After a reshape both sides read the same data: B at (q, k) and A at (k, j), where q is the row number. */
  lemma {:induction false} ReshapeTerm(l: LoraTensor, l': LoraTensor, i: seq<nat>, i': seq<nat>, k: nat, j: nat)
    requires WellFormed(l) && WellFormed(l') && l'.a.data == l.a.data && l'.b.data == l.b.data
    requires Rank(l') == Rank(l) && Columns(l') == Columns(l)
    requires Product(LeadA(l)) == 1 && Product(LeadA(l')) == 1
    requires In(i, RowsB(l)) && In(i', RowsB(l')) && Ravel(RowsB(l), i) == Ravel(RowsB(l'), i')
    requires k < Rank(l) && j < Columns(l)
    ensures TermAt(l, i, j, k) == TermAt(l', i', j, k)
  {
    hide At, Ravel, Product, In;
    Shapes(l);
    Shapes(l');
    AtRow(l.b, RowsB(l), Rank(l), i, k);
    AtRow(l'.b, RowsB(l'), Rank(l), i', k);
    UnitLeadAt(l, i, k, j);
    UnitLeadAt(l', i', k, j);
  }

  lemma {:induction false} UnitLeadAt(l: LoraTensor, i: seq<nat>, k: nat, j: nat)
    requires WellFormed(l) && Product(LeadA(l)) == 1 && In(i, RowsB(l)) && k < Rank(l) && j < Columns(l)
    ensures 0 <= k * Columns(l) + j < |l.a.data|
    ensures At(l.a, Broadcast(LeadA(l), i[..Dims(l) - 2]) + [k, j]) == l.a.data[k * Columns(l) + j]
  {
    var lead := LeadA(l);
    var at := Broadcast(lead, i[..Dims(l) - 2]);
    ProductPositive(lead);
    assert In(at, lead);
    UnitRavel(lead, at);
    assert l.a.shape == lead + [Rank(l), Columns(l)];
    AtMatrix(l.a, lead, Rank(l), Columns(l), at, k, j);
  }

  /** Factors of rank 0 hold no data, so torch reshapes them to any shape with the same last dimension. */
  predicate Reshapes(l: LoraTensor, shape: seq<nat>)
    requires Built(l)
  {
    Rank(l) > 0 || Product(shape) == Product(Shape(l))
  }

  /** Reshaping the factors reshapes the product, unless they are of rank 0 and the new shape has another number of
      elements: torch refuses it for the product and accepts it for the factors. */
  lemma {:induction false} ReshapeDense(l: LoraTensor, shape: seq<nat>)
    requires WellFormed(l) && |shape| >= 2
    ensures ReshapeTo(l, shape) != Err(Rejected)
    ensures ReshapeTo(l, shape).Ok? ==>
      WellFormed(ReshapeTo(l, shape).value) &&
      (Reshape(Dense(l), shape) == Ok(Dense(ReshapeTo(l, shape).value)) <==> Reshapes(l, shape))
  {
    if ReshapeTo(l, shape).Ok? {
      ReshapeShapes(l, shape);
      if Reshapes(l, shape) { ReshapeWhole(l, shape); }
    }
  }

  lemma {:induction false} ReshapeWhole(l: LoraTensor, shape: seq<nat>)
    requires WellFormed(l) && |shape| >= 2 && ReshapeTo(l, shape).Ok? && Reshapes(l, shape)
    ensures Reshape(Dense(l), shape) == Ok(Dense(ReshapeTo(l, shape).value))
  {
    hide Product, ReshapeTo, Dense, At, DotAt;
    ReshapeShapes(l, shape);
    var l' := ReshapeTo(l, shape).value;
    var w := RawTensor(shape, Dense(l).data);
    OnesProduct(Dims(l') - 2);
    forall i: seq<nat>, j: nat | In(i, RowsB(l')) && j < Columns(l')
      ensures At(w, i + [j]) == DotAt(l', i, j)
    {
      ReshapeEntry(l, l', w, i, j);
    }
    IsDense(l', w);
  }

  lemma {:induction false} ReshapeShapes(l: LoraTensor, shape: seq<nat>)
    requires WellFormed(l) && |shape| >= 2 && ReshapeTo(l, shape).Ok?
    ensures var l' := ReshapeTo(l, shape).value;
            WellFormed(l') && l'.a.data == l.a.data && l'.b.data == l.b.data && LeadA(l') == Ones(Dims(l') - 2) &&
            Rank(l') == Rank(l) && Columns(l') == Columns(l) && Shape(l') == shape
    ensures Reshapes(l, shape) ==> Product(shape) == Product(Shape(l))
    ensures Reshapes(l, shape) && Columns(l) > 0 ==> Product(RowsB(l)) == Product(RowsB(ReshapeTo(l, shape).value))
  {
    hide Product;
    var l' := ReshapeTo(l, shape).value;
    var m := |shape| - 1;
    Shapes(l);
    assert LeadA(l') == Ones(m - 1) && RowsB(l') == shape[..m];
    assert shape == shape[..m] + [Columns(l)];
    SameCounts(shape[..m], RowsB(l), Rank(l), Columns(l));
  }

  lemma {:induction false} SameCounts(s: seq<nat>, t: seq<nat>, r: nat, c: nat)
    requires Product(s + [r]) == Product(t + [r])
    ensures r > 0 ==> Product(s + [c]) == Product(t + [c])
    ensures c > 0 && (r > 0 || Product(s + [c]) == Product(t + [c])) ==> Product(s) == Product(t)
  {
    hide Product;
    ProductAppend(s, r);
    ProductAppend(t, r);
    ProductAppend(s, c);
    ProductAppend(t, c);
    if r > 0 { CancelFactor(Product(s), Product(t), r); }
    if c > 0 && r == 0 && Product(s + [c]) == Product(t + [c]) { CancelFactor(Product(s), Product(t), c); }
  }

  lemma {:induction false} ReshapeEntry(l: LoraTensor, l': LoraTensor, w: Tensor, i: seq<nat>, j: nat)
    requires WellFormed(l) && WellFormed(l') && l'.a.data == l.a.data && l'.b.data == l.b.data
    requires Rank(l') == Rank(l) && Columns(l') == Columns(l)
    requires Product(LeadA(l')) == 1 && Product(RowsB(l)) == Product(RowsB(l'))
    requires w.shape == Shape(l') && w.data == Dense(l).data
    requires In(i, RowsB(l')) && j < Columns(l)
    ensures At(w, i + [j]) == DotAt(l', i, j)
  {
    hide At, Dense, DotAt, TermAt, Ravel, Unravel, Product;
    var q := Ravel(RowsB(l'), i);
    RavelUnravel(RowsB(l'), i);
    UnravelRavel(RowsB(l), q);
    var i0 := Unravel(RowsB(l), q);
    AtRow(w, RowsB(l'), Columns(l), i, j);
    AtRow(Dense(l), RowsB(l), Columns(l), i0, j);
    DenseAt(l, i0, j);
    if Rank(l) > 0 { UnitLead(l, l', j); }
    forall k: nat | k < Rank(l)
      ensures TermAt(l, i0, j, k) == TermAt(l', i, j, k)
    {
      ReshapeTerm(l, l', i0, i, k, j);
    }
    DotEqual(l, i0, l', i, j, j);
  }

  /** A reshape only succeeds on an A whose batch dimensions are all 1. */
  lemma {:induction false} UnitLead(l: LoraTensor, l': LoraTensor, j: nat)
    requires WellFormed(l) && WellFormed(l') && l'.a.data == l.a.data
    requires Rank(l') == Rank(l) && Columns(l') == Columns(l) && j < Columns(l) && Product(LeadA(l')) == 1
    requires Rank(l) > 0
    ensures Product(LeadA(l)) == 1
  {
    hide Product;
    var r, c := Rank(l), Columns(l);
    Shapes(l);
    Shapes(l');
    MatrixCount(LeadA(l), r, c);
    MatrixCount(LeadA(l'), r, c);
    assert r * c > 0 by { assert (r - 1) * c >= 0; }
    CancelFactor(Product(LeadA(l)), 1, r * c);
  }

  lemma {:induction false} MatrixCount(lead: seq<nat>, r: nat, c: nat)
    ensures Product(lead + [r, c]) == Product(lead) * (r * c)
  {
    assert lead + [r, c] == (lead + [r]) + [c];
    ProductAppend(lead, r);
    ProductAppend(lead + [r], c);
  }

  // ---------- permute and transpose (lines 171-184) ----------

  /** Dimensions counted from either end, as positions from the front. */
  function NormalDims(dims: seq<int>, n: nat): (r: Option<seq<nat>>)
    ensures r.Some? ==> |r.value| == |dims|
  {
    if forall i :: 0 <= i < |dims| ==> 0 <= dims[i] + n && dims[i] < n then
      Some(seq(|dims|, i requires 0 <= i < |dims| => (if dims[i] < 0 then dims[i] + n else dims[i]) as nat))
    else None
  }

  function PermuteTo(l: LoraTensor, dims: seq<nat>): (r: Outcome<LoraTensor>)
    requires Built(l) && dims != []
    ensures r.Ok? ==> Built(r.value)
  {
    var n := Dims(l);
    if dims[|dims| - 1] == n - 1 then
      if !UnitLeads(l) then Err(Raised("assertion"))
      else
        var b := Permute(l.b, dims);
        if b.Err? then Err(b.error) else Make(l.a, b.value)
    else if n == 2 && dims == SWAP then
      var a, b := Permute(l.b, dims), Permute(l.a, dims);
      if a.Err? then Err(a.error) else if b.Err? then Err(b.error) else Make(a.value, b.value)
    else Err(Raised("not implemented"))
  }

  function PermuteFactors(l: LoraTensor, dims: seq<int>): (r: Outcome<LoraTensor>)
    requires Built(l)
    ensures r.Ok? ==> Built(r.value)
  {
    var nd := NormalDims(dims, Dims(l));
    if dims == [] || nd.None? then Err(Raised("dimension out of range")) else PermuteTo(l, nd.value)
  }

  /** The dims list of `transpose`: the identity with two entries exchanged. */
  function Exchanged(n: nat, d0: nat, d1: nat): (dims: seq<nat>)
    requires d0 < n && d1 < n
    ensures |dims| == n
  {
    seq(n, i requires 0 <= i < n => if i == d0 then d1 else if i == d1 then d0 else i)
  }

  function TransposeFactors(l: LoraTensor, d0: int, d1: int): (r: Outcome<LoraTensor>)
    requires Built(l)
    ensures r.Ok? ==> Built(r.value)
  {
    var nd := NormalDims([d0, d1], Dims(l));
    if nd.None? then Err(Raised("list index out of range"))
    else PermuteTo(l, Exchanged(Dims(l), nd.value[0], nd.value[1]))
  }

  lemma {:induction false} ScatteredAppend(dims: seq<nat>, idx: seq<nat>, k: nat)
    requires dims != [] && IsPermutation(dims) && dims[|dims| - 1] == |dims| - 1 && |idx| == |dims| - 1
    ensures Scattered(dims, idx + [k]) == Scattered(dims[..|dims| - 1], idx) + [k]
  {
    var m := |dims| - 1;
    forall d | 0 <= d < |dims|
      ensures Scattered(dims, idx + [k])[d] == (Scattered(dims[..m], idx) + [k])[d]
    {
      var i := Find(dims, d);
      if d < m {
        FindAppend(dims[..m], m, d);
        assert dims == dims[..m] + [m];
        assert d in dims;
      } else {
        assert dims[m] in dims;
      }
    }
  }

  lemma {:induction false} FindAppend(dims: seq<nat>, e: nat, d: nat)
    requires d != e
    ensures Find(dims + [e], d) == if d in dims then Find(dims, d) else |dims| + 1
  {
    if dims == [] {
      assert ([e] + [])[1..] == [];
    } else {
      assert (dims + [e])[1..] == dims[1..] + [e];
      FindAppend(dims[1..], e, d);
      assert d in dims <==> d == dims[0] || d in dims[1..];
    }
  }

  lemma {:induction false} ScatteredIn(dims: seq<nat>, shape: seq<nat>, idx: seq<nat>)
    requires |dims| == |shape| && IsPermutation(dims) && In(idx, Gathered(shape, dims))
    ensures In(Scattered(dims, idx), shape)
  {
    forall d | 0 <= d < |shape|
      ensures Scattered(dims, idx)[d] < shape[d]
    {
      assert d in dims;
    }
  }

  /** A permutation of all dimensions that keeps the last one in place. */
  predicate KeepsLast(dims: seq<nat>, n: nat)
  {
    n > 0 && |dims| == n && dims[n - 1] == n - 1 && IsPermutation(dims) && IsPermutation(dims[..n - 1])
  }

  /** It moves whole rows. */
  lemma {:induction false} PermuteRowAt(t: Tensor, dims: seq<nat>, rows: seq<nat>, c: nat, i: seq<nat>, k: nat)
    requires t.shape == rows + [c] && KeepsLast(dims, |t.shape|)
    requires In(i, Gathered(rows, dims[..|rows|])) && k < c
    ensures At(Permuted(t, dims), i + [k]) == At(t, Scattered(dims[..|rows|], i) + [k])
  {
    hide At, Permuted, Scattered;
    assert Gathered(t.shape, dims) == Gathered(rows, dims[..|rows|]) + [c];
    InAppend(i, Gathered(rows, dims[..|rows|]), k, c);
    PermutedAt(t, dims, i + [k]);
    ScatteredAppend(dims, i, k);
  }

  predicate UnitLeads(l: LoraTensor)
    requires Built(l)
  {
    forall d :: 0 <= d < Dims(l) - 2 ==> l.a.shape[d] == 1
  }

  function RowPermuted(l: LoraTensor, dims: seq<nat>): (r: LoraTensor)
    requires Built(l) && KeepsLast(dims, Dims(l))
  {
    LoraTensor(l.a, Permuted(l.b, dims))
  }

  lemma {:induction false} RowPermutedShapes(l: LoraTensor, dims: seq<nat>)
    requires WellFormed(l) && UnitLeads(l) && KeepsLast(dims, Dims(l))
    ensures var l' := RowPermuted(l, dims);
            WellFormed(l') && RowsB(l') == Gathered(RowsB(l), dims[..Dims(l) - 1]) &&
            Shape(l') == Permuted(Dense(l), dims).shape
  {
    hide Permuted, Dense;
    var l' := RowPermuted(l, dims);
    assert RowsB(l') == Gathered(RowsB(l), dims[..Dims(l) - 1]);
  }

  lemma {:induction false} RowPermutedEntry(l: LoraTensor, dims: seq<nat>, i: seq<nat>, j: nat)
    requires WellFormed(l) && UnitLeads(l) && KeepsLast(dims, Dims(l))
    requires In(i, Gathered(RowsB(l), dims[..Dims(l) - 1])) && j < Columns(l)
    requires WellFormed(RowPermuted(l, dims))
    ensures At(Permuted(Dense(l), dims), i + [j]) == DotAt(RowPermuted(l, dims), i, j)
  {
    hide At, Permuted, IsPermutation, Dense, DotAt, Scattered;
    var l' := RowPermuted(l, dims);
    var i0 := Scattered(dims[..Dims(l) - 1], i);
    ScatteredIn(dims[..Dims(l) - 1], RowsB(l), i);
    PermuteRowAt(Dense(l), dims, RowsB(l), Columns(l), i, j);
    DenseAt(l, i0, j);
    Shapes(l);
    assert Broadcast(LeadA(l), i[..Dims(l) - 2]) == Broadcast(LeadA(l), i0[..Dims(l) - 2]);
    forall k: nat | k < Rank(l)
      ensures TermAt(l, i0, j, k) == TermAt(l', i, j, k)
    {
      PermuteRowAt(l.b, dims, RowsB(l), Rank(l), i, k);
    }
    DotEqual(l, i0, l', i, j, j);
  }

  lemma {:induction false} PermuteRows(l: LoraTensor, dims: seq<nat>)
    requires WellFormed(l) && UnitLeads(l) && KeepsLast(dims, Dims(l))
    ensures WellFormed(RowPermuted(l, dims))
    ensures Permuted(Dense(l), dims) == Dense(RowPermuted(l, dims))
  {
    hide At, Permuted, IsPermutation, Dense, DotAt;
    var l' := RowPermuted(l, dims);
    RowPermutedShapes(l, dims);
    forall i: seq<nat>, j: nat | In(i, RowsB(l')) && j < Columns(l')
      ensures At(Permuted(Dense(l), dims), i + [j]) == DotAt(l', i, j)
    {
      RowPermutedEntry(l, dims, i, j);
    }
    IsDense(l', Permuted(Dense(l), dims));
  }

  lemma {:induction false} RowPermutation(dims: seq<nat>)
    requires dims != [] && IsPermutation(dims) && dims[|dims| - 1] == |dims| - 1
    ensures IsPermutation(dims[..|dims| - 1])
  {
    var m := |dims| - 1;
    forall d | 0 <= d < m
      ensures d in dims[..m]
    {
      assert d in dims;
      var i :| 0 <= i < |dims| && dims[i] == d;
      assert dims[..m][i] == d;
    }
  }

  const SWAP: seq<nat> := [1, 0]

  lemma {:induction false} SwapIsPermutation()
    ensures IsPermutation(SWAP)
  {
    assert SWAP[0] == 1 && SWAP[1] == 0;
  }

  lemma {:induction false} SwapAt(t: Tensor, x: nat, y: nat)
    requires |t.shape| == 2 && x < t.shape[1] && y < t.shape[0] && IsPermutation(SWAP)
    ensures At(Permuted(t, SWAP), [x, y]) == At(t, [y, x])
  {
    assert Gathered(t.shape, SWAP) == [t.shape[1], t.shape[0]];
    PermutedAt(t, SWAP, [x, y]);
    assert Find(SWAP, 1) == 0 && Find(SWAP, 0) == 1;
    assert Scattered(SWAP, [x, y]) == [y, x];
  }

  /** The transpose of a product: the factors change places. */
  function Swapped(l: LoraTensor): (r: LoraTensor)
    requires Built(l) && Dims(l) == 2 && IsPermutation(SWAP)
    ensures r.a.shape == [l.b.shape[1], l.b.shape[0]] && r.b.shape == [l.a.shape[1], l.a.shape[0]]
  {
    LoraTensor(Permuted(l.b, SWAP), Permuted(l.a, SWAP))
  }

  lemma {:induction false} MatrixTerm(l: LoraTensor, x: nat, j: nat, k: nat)
    requires Built(l) && Dims(l) == 2
    ensures TermAt(l, [x], j, k) == At(l.b, [x, k]) * At(l.a, [k, j])
  {
    hide At;
    assert [x] + [k] == [x, k];
    assert Broadcast(LeadA(l), [x][..0]) + [k, j] == [k, j];
  }

  lemma {:induction false} SwapEntry(l: LoraTensor, x: nat, j: nat)
    requires WellFormed(l) && Dims(l) == 2 && IsPermutation(SWAP)
    requires x < Columns(l) && j < l.b.shape[0]
    ensures At(Permuted(Dense(l), SWAP), [x] + [j]) == DotAt(Swapped(l), [x], j)
  {
    hide At, Permuted, Dense, DotAt, TermAt, IsPermutation;
    var l' := Swapped(l);
    SwapAt(Dense(l), x, j);
    DenseAt(l, [j], x);
    assert [j] + [x] == [j, x] && [x] + [j] == [x, j];
    forall k: nat | k < Rank(l)
      ensures TermAt(l, [j], x, k) == TermAt(l', [x], j, k)
    {
      MatrixTerm(l, j, x, k);
      MatrixTerm(l', x, j, k);
      SwapAt(l.a, x, k);
      SwapAt(l.b, k, j);
    }
    DotEqual(l, [j], l', [x], x, j);
  }

  lemma {:induction false} SwapMatrix(l: LoraTensor)
    requires WellFormed(l) && Dims(l) == 2 && IsPermutation(SWAP)
    ensures WellFormed(Swapped(l))
    ensures Permuted(Dense(l), SWAP) == Dense(Swapped(l))
  {
    hide At, Permuted, Dense, DotAt, Swapped;
    var l' := Swapped(l);
    assert |Dense(l).shape| == 2 && SWAP[0] == 1 && SWAP[1] == 0;
    assert Gathered(Dense(l).shape, SWAP) == Shape(l');
    forall i: seq<nat>, j: nat | In(i, RowsB(l')) && j < Columns(l')
      ensures At(Permuted(Dense(l), SWAP), i + [j]) == DotAt(l', i, j)
    {
      assert i == [i[0]];
      SwapEntry(l, i[0], j);
    }
    IsDense(l', Permuted(Dense(l), SWAP));
  }

  /** Permuting the factors permutes the product. */
  lemma {:induction false} PermuteDense(l: LoraTensor, dims: seq<nat>)
    requires WellFormed(l) && dims != []
    ensures PermuteTo(l, dims) != Err(Rejected)
    ensures PermuteTo(l, dims).Ok? ==>
      WellFormed(PermuteTo(l, dims).value) &&
      Permute(Dense(l), dims) == Ok(Dense(PermuteTo(l, dims).value))
  {
    hide At, DotAt, Dense, Permuted;
    var n := Dims(l);
    if dims[|dims| - 1] == n - 1 {
      if |dims| == n && IsPermutation(dims) && UnitLeads(l) {
        RowPermutation(dims);
        PermuteRows(l, dims);
      }
    } else if n == 2 && dims == SWAP {
      SwapIsPermutation();
      SwapMatrix(l);
    }
  }

  // ---------- subscripts: the shared core of __getitem__ and split ----------

  /** Subscripting A and B by their own entries; the row entry belongs to B, the column entry to A. */
  function GatherFactors(l: LoraTensor, ea: seq<Entry>, eb: seq<Entry>, row: Entry,
          col: Entry): (r: Outcome<LoraTensor>)
    requires Built(l)
    ensures r.Ok? ==> Built(r.value)
  {
    var a := Gather(l.a, ea + [FullRun(Rank(l)), col]);
    var b := Gather(l.b, eb + [row, FullRun(Rank(l))]);
    if a.Err? then Err(a.error) else if b.Err? then Err(b.error) else Make(a.value, b.value)
  }

  /** The entry A needs where B uses `eb`: a repeated dimension stays put, any other follows B. */
  predicate AlignedEntry(ea: Entry, eb: Entry, sizeA: nat)
  {
    match ea
    case Pick(i) => eb.Pick? && i == if sizeA == 1 then 0 else eb.i
    case Run(start, len, step) =>
      eb.Run? && ((len == 0 && eb.len == 0) || if sizeA == 1 then start == 0 && len == 1 else ea == eb)
  }

  predicate Aligned(ea: seq<Entry>, eb: seq<Entry>, shapeA: seq<nat>)
  {
    |ea| == |eb| == |shapeA| && forall d :: 0 <= d < |ea| ==> AlignedEntry(ea[d], eb[d], shapeA[d])
  }

  lemma {:induction false} AlignedShape(ea: seq<Entry>, eb: seq<Entry>, shapeA: seq<nat>)
    requires Aligned(ea, eb, shapeA)
    ensures |GatherShape(ea)| == |GatherShape(eb)|
    ensures forall d :: 0 <= d < |GatherShape(ea)| ==>
      GatherShape(ea)[d] == 1 || GatherShape(ea)[d] == GatherShape(eb)[d]
  {
    if ea != [] {
      var m := |ea| - 1;
      AlignedShape(ea[..m], eb[..m], shapeA[..m]);
      assert AlignedEntry(ea[m], eb[m], shapeA[m]);
    }
  }

  /** Subscripting commutes with broadcasting the batch dimensions. */
  lemma {:induction false} AlignedIndex(ea: seq<Entry>, eb: seq<Entry>, shapeA: seq<nat>, idx: seq<nat>)
    requires Aligned(ea, eb, shapeA) && In(idx, GatherShape(eb)) && |GatherShape(ea)| == |GatherShape(eb)|
    ensures GatherIndex(ea, Broadcast(GatherShape(ea), idx)) == Broadcast(shapeA, GatherIndex(eb, idx))
    decreases |ea|
  {
    hide In, GatherShape, Broadcast, AlignedEntry;
    if ea != [] {
      var m := |ea| - 1;
      AlignedShape(ea[..m], eb[..m], shapeA[..m]);
      AlignedInit(ea, eb, shapeA, idx);
      assert ea == ea[..m] + [ea[m]] && eb == eb[..m] + [eb[m]] && shapeA == shapeA[..m] + [shapeA[m]];
      if ea[m].Pick? {
        AlignedIndex(ea[..m], eb[..m], shapeA[..m], idx);
        AlignedPick(ea[..m], ea[m], eb[..m], eb[m], shapeA[..m], shapeA[m], idx);
      } else {
        var k := |idx| - 1;
        assert idx == idx[..k] + [idx[k]];
        AlignedIndex(ea[..m], eb[..m], shapeA[..m], idx[..k]);
        AlignedRun(ea[..m], ea[m], eb[..m], eb[m], shapeA[..m], shapeA[m], idx[..k], idx[k]);
      }
    }
  }

  lemma {:induction false} AlignedInit(ea: seq<Entry>, eb: seq<Entry>, shapeA: seq<nat>, idx: seq<nat>)
    requires Aligned(ea, eb, shapeA) && In(idx, GatherShape(eb)) && ea != []
    ensures AlignedEntry(ea[|ea| - 1], eb[|ea| - 1], shapeA[|ea| - 1])
    ensures ea[|ea| - 1].Pick? ==> In(idx, GatherShape(eb[..|ea| - 1])) && |idx| == |GatherShape(eb[..|ea| - 1])|
    ensures ea[|ea| - 1].Run? ==>
      |idx| == |GatherShape(eb[..|ea| - 1])| + 1 && In(idx[..|idx| - 1], GatherShape(eb[..|ea| - 1])) &&
        idx[|idx| - 1] < eb[|ea| - 1].len
  {
    var m := |ea| - 1;
    assert AlignedEntry(ea[m], eb[m], shapeA[m]);
    if ea[m].Run? {
      InSplit(idx, GatherShape(eb));
      assert GatherShape(eb)[..|idx| - 1] == GatherShape(eb[..m]);
    }
  }

  lemma {:induction false} AlignedPick(ea: seq<Entry>, e: Entry, eb: seq<Entry>, f: Entry, shape: seq<nat>, s: nat,
                                       idx: seq<nat>)
    requires AlignedEntry(e, f, s) && e.Pick? && |shape| == |eb| && |GatherShape(ea)| == |idx|
    requires GatherIndex(ea, Broadcast(GatherShape(ea), idx)) == Broadcast(shape, GatherIndex(eb, idx))
    ensures GatherShape(ea + [e]) == GatherShape(ea)
    ensures GatherIndex(ea + [e], Broadcast(GatherShape(ea + [e]), idx)) ==
            Broadcast(shape + [s], GatherIndex(eb + [f], idx))
  {
    hide Broadcast;
    GatherAppendShape(ea, e);
    assert (ea + [e])[..|ea|] == ea && (eb + [f])[..|eb|] == eb;
    BroadcastAppend(shape, s, GatherIndex(eb, idx), f.i);
  }

  lemma {:induction false} AlignedRun(ea: seq<Entry>, e: Entry, eb: seq<Entry>, f: Entry, shape: seq<nat>, s: nat,
                                      idx: seq<nat>, x: nat)
    requires AlignedEntry(e, f, s) && e.Run? && x < f.len && |shape| == |eb| && |GatherShape(ea)| == |idx|
    requires GatherIndex(ea, Broadcast(GatherShape(ea), idx)) == Broadcast(shape, GatherIndex(eb, idx))
    ensures GatherShape(ea + [e]) == GatherShape(ea) + [e.len]
    ensures GatherIndex(ea + [e], Broadcast(GatherShape(ea + [e]), idx + [x])) ==
            Broadcast(shape + [s], GatherIndex(eb + [f], idx + [x]))
  {
    hide Broadcast, GatherIndex;
    GatherAppendShape(ea, e);
    BroadcastAppend(GatherShape(ea), e.len, idx, x);
    GatherAppendRun(ea, e, Broadcast(GatherShape(ea), idx), if e.len == 1 then 0 else x);
    GatherAppendRun(eb, f, idx, x);
    BroadcastAppend(shape, s, GatherIndex(eb, idx), StepTo(f, x));
    assert StepTo(e, if e.len == 1 then 0 else x) == if s == 1 then 0 else StepTo(f, x);
  }

  lemma {:induction false} BroadcastAppend(shape: seq<nat>, s: nat, idx: seq<nat>, k: nat)
    requires |shape| == |idx|
    ensures Broadcast(shape + [s], idx + [k]) == Broadcast(shape, idx) + [if s == 1 then 0 else k]
  {
  }

  predicate Subscripts(l: LoraTensor, ea: seq<Entry>, eb: seq<Entry>, row: Entry, col: Entry)
  {
    WellFormed(l) && |ea| == |eb| == Dims(l) - 2 && row.Run? && col.Run? &&
    Aligned(ea, eb, LeadA(l)) &&
    Fits(ea + [FullRun(Rank(l)), col], l.a.shape) && Fits(eb + [row, FullRun(Rank(l))], l.b.shape)
  }

  function SubscriptedFactors(l: LoraTensor, ea: seq<Entry>, eb: seq<Entry>, row: Entry, col: Entry): (r: LoraTensor)
    requires Subscripts(l, ea, eb, row, col)
    ensures r.a.shape == GatherShape(ea) + [Rank(l), col.len]
    ensures r.b.shape == GatherShape(eb) + [row.len, Rank(l)]
  {
    GatherMatrixShape(ea, FullRun(Rank(l)), col);
    GatherMatrixShape(eb, row, FullRun(Rank(l)));
    LoraTensor(Subscripted(l.a, ea + [FullRun(Rank(l)), col]), Subscripted(l.b, eb + [row, FullRun(Rank(l))]))
  }

  lemma {:induction false} GatherMatrixShape(es: seq<Entry>, e: Entry, f: Entry)
    requires e.Run? && f.Run?
    ensures GatherShape(es + [e, f]) == GatherShape(es) + [e.len, f.len]
  {
    assert es + [e, f] == (es + [e]) + [f];
    GatherAppendShape(es, e);
    GatherAppendShape(es + [e], f);
  }

  lemma {:induction false} GatherMatrixIndex(es: seq<Entry>, e: Entry, f: Entry, idx: seq<nat>, x: nat, y: nat)
    requires e.Run? && f.Run?
    ensures GatherIndex(es + [e, f], idx + [x, y]) ==
            GatherIndex(es, idx) + [StepTo(e, x), StepTo(f, y)]
  {
    assert es + [e, f] == (es + [e]) + [f] && idx + [x, y] == (idx + [x]) + [y];
    GatherAppendRun(es, e, idx, x);
    GatherAppendRun(es + [e], f, idx + [x], y);
  }

  lemma {:induction false} DenseFits(l: LoraTensor, ea: seq<Entry>, eb: seq<Entry>, row: Entry, col: Entry)
    requires Subscripts(l, ea, eb, row, col)
    ensures Fits(eb + [row, col], Shape(l))
  {
    var ca, cb := ea + [FullRun(Rank(l)), col], eb + [row, FullRun(Rank(l))];
    forall d | 0 <= d < Dims(l)
      ensures EntryFits((eb + [row, col])[d], Shape(l)[d])
    {
      assert EntryFits(ca[d], l.a.shape[d]) && EntryFits(cb[d], l.b.shape[d]);
    }
  }

  lemma {:induction false} SubscriptedShape(l: LoraTensor, ea: seq<Entry>, eb: seq<Entry>, row: Entry, col: Entry)
    requires Subscripts(l, ea, eb, row, col)
    ensures var l' := SubscriptedFactors(l, ea, eb, row, col);
            WellFormed(l') && RowsB(l') == GatherShape(eb) + [row.len] && LeadA(l') == GatherShape(ea) &&
            Shape(l') == GatherShape(eb + [row, col]) && Rank(l') == Rank(l)
  {
    hide SubscriptedFactors, Aligned, Fits, GatherShape;
    var l' := SubscriptedFactors(l, ea, eb, row, col);
    AlignedShape(ea, eb, LeadA(l));
    GatherMatrixShape(eb, row, col);
    Pair(GatherShape(eb), row.len, col.len);
    assert LeadA(l') == GatherShape(ea) && RowsB(l') == GatherShape(eb) + [row.len];
  }

  lemma {:induction false} FactorsOf(l: LoraTensor, ea: seq<Entry>, eb: seq<Entry>, row: Entry, col: Entry)
    requires Subscripts(l, ea, eb, row, col)
    ensures SubscriptedFactors(l, ea, eb, row, col) ==
      LoraTensor(Subscripted(l.a, ea + [FullRun(Rank(l)), col]), Subscripted(l.b, eb + [row, FullRun(Rank(l))]))
  {
    hide Subscripted;
  }

  lemma {:induction false} SubscriptedBAt(l: LoraTensor, eb: seq<Entry>, row: Entry, i: seq<nat>, x: nat, k: nat)
    requires Built(l) && row.Run? && Fits(eb + [row, FullRun(Rank(l))], l.b.shape)
    requires In(i, GatherShape(eb)) && x < row.len && k < Rank(l)
    ensures At(Subscripted(l.b, eb + [row, FullRun(Rank(l))]), i + [x] + [k]) ==
            At(l.b, GatherIndex(eb, i) + [StepTo(row, x)] + [k])
  {
    hide At, Subscripted, Fits, In, GatherShape, GatherIndex;
    var full := FullRun(Rank(l));
    GatherMatrixShape(eb, row, full);
    Pair(i, x, k);
    InPair(i, GatherShape(eb), x, row.len, k, Rank(l));
    SubscriptedAt(l.b, eb + [row, full], i + [x, k]);
    GatherMatrixIndex(eb, row, full, i, x, k);
    Pair(GatherIndex(eb, i), StepTo(row, x), k);
  }

  lemma {:induction false} SubscriptedAAt(l: LoraTensor, ea: seq<Entry>, col: Entry, i: seq<nat>, k: nat, j: nat)
    requires Built(l) && col.Run? && Fits(ea + [FullRun(Rank(l)), col], l.a.shape)
    requires In(i, GatherShape(ea)) && k < Rank(l) && j < col.len
    ensures At(Subscripted(l.a, ea + [FullRun(Rank(l)), col]), i + [k, j]) ==
            At(l.a, GatherIndex(ea, i) + [k, StepTo(col, j)])
  {
    hide At, Subscripted, Fits, In, GatherShape, GatherIndex;
    var full := FullRun(Rank(l));
    GatherMatrixShape(ea, full, col);
    InPair(i, GatherShape(ea), k, Rank(l), j, col.len);
    SubscriptedAt(l.a, ea + [full, col], i + [k, j]);
    GatherMatrixIndex(ea, full, col, i, k, j);
  }

  lemma {:induction false} SplitIndex(l: LoraTensor, i: seq<nat>, j: nat)
    requires Built(l) && In(i + [j], Shape(l))
    ensures In(i, RowsB(l)) && j < Columns(l)
  {
    InSplit(i + [j], Shape(l));
    assert (i + [j])[..|i|] == i && Shape(l)[..|i|] == RowsB(l);
  }

  lemma {:induction false} SubscriptedEntry(l: LoraTensor, ea: seq<Entry>, eb: seq<Entry>, row: Entry, col: Entry,
                                             i: seq<nat>, x: nat, j: nat)
    requires Subscripts(l, ea, eb, row, col) && Fits(eb + [row, col], Shape(l))
    requires In(i, GatherShape(eb)) && x < row.len && j < col.len
    ensures Built(SubscriptedFactors(l, ea, eb, row, col))
    ensures Dims(SubscriptedFactors(l, ea, eb, row, col)) == |i| + 2
    ensures At(Subscripted(Dense(l), eb + [row, col]), i + [x] + [j]) ==
            DotAt(SubscriptedFactors(l, ea, eb, row, col), i + [x], j)
  {
    hide At, Subscripted, Fits, SubscriptedFactors, Dense, DotAt, In, GatherShape, GatherIndex, Aligned;
    var l' := SubscriptedFactors(l, ea, eb, row, col);
    SubscriptedShape(l, ea, eb, row, col);
    AlignedShape(ea, eb, LeadA(l));
    BroadcastIn(GatherShape(ea), GatherShape(eb), i);
    var i0, j0 := GatherIndex(eb, i) + [StepTo(row, x)], StepTo(col, j);
    GatherMatrixShape(eb, row, col);
    Pair(i, x, j);
    InPair(i, GatherShape(eb), x, row.len, j, col.len);
    SubscriptedAt(Dense(l), eb + [row, col], i + [x, j]);
    GatherMatrixIndex(eb, row, col, i, x, j);
    GatherIn(eb + [row, col], Shape(l), i + [x, j]);
    Pair(GatherIndex(eb, i), StepTo(row, x), j0);
    SplitIndex(l, i0, j0);
    DenseAt(l, i0, j0);
    AlignedIndex(ea, eb, LeadA(l), i);
    FactorsOf(l, ea, eb, row, col);
    forall k: nat | k < Rank(l)
      ensures TermAt(l', i + [x], j, k) == TermAt(l, i0, j0, k)
    {
      SubscriptedBAt(l, eb, row, i, x, k);
      SubscriptedAAt(l, ea, col, Broadcast(GatherShape(ea), i), k, j);
    }
    DotEqual(l', i + [x], l, i0, j, j0);
  }

  /** Subscripting the factors subscripts the product. */
  lemma {:induction false} SubscriptedDense(l: LoraTensor, ea: seq<Entry>, eb: seq<Entry>, row: Entry, col: Entry)
    requires Subscripts(l, ea, eb, row, col)
    ensures WellFormed(SubscriptedFactors(l, ea, eb, row, col))
    ensures Gather(Dense(l), eb + [row, col]) == Ok(Dense(SubscriptedFactors(l, ea, eb, row, col)))
  {
    hide At, Subscripted, SubscriptedFactors, Dense, DotAt, Fits, Aligned;
    var l' := SubscriptedFactors(l, ea, eb, row, col);
    DenseFits(l, ea, eb, row, col);
    SubscriptedShape(l, ea, eb, row, col);
    forall i: seq<nat>, j: nat | In(i, RowsB(l')) && j < Columns(l')
      ensures At(Subscripted(Dense(l), eb + [row, col]), i + [j]) == DotAt(l', i, j)
    {
      InSplit(i, RowsB(l'));
      assert RowsB(l')[..|i| - 1] == GatherShape(eb);
      SubscriptedEntry(l, ea, eb, row, col, i[..|i| - 1], i[|i| - 1], j);
    }
    IsDense(l', Subscripted(Dense(l), eb + [row, col]));
  }
}
