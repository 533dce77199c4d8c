/** What the operations on `LoraTorchTensor` do to the matrix, entry by entry. The statements name only the shape and
    the entries of the product before and after, and what Python and torch say of an argument. */
module LoraEntries {
  import opened Wrappers
  import opened Tensors
  import opened Lora
  import opened LoraJoins
  import opened LoraPrograms

  // ---------- the product itself ----------

  /** The first `k` terms of the product of row `i` of B and column `j` of A, both stored row by row. */
  function Dot(a: seq<real>, b: seq<real>, rank: nat, columns: nat, i: nat, j: nat, k: nat): (x: real)
  {
    if k == 0 then 0.0
    else
      var p, q := i * rank + (k - 1), (k - 1) * columns + j;
      Dot(a, b, rank, columns, i, j, k - 1) + (if p < |b| && q < |a| then b[p] * a[q] else 0.0)
  }

  /** The matrix two-dimensional factors stand for is B times A. */
  lemma {:induction false} MatrixProduct(l: LoraTensor, i: nat, j: nat)
    requires WellFormed(l) && Dims(l) == 2 && i < l.b.shape[0] && j < Columns(l)
    ensures 0 <= i * Columns(l) + j < |Dense(l).data|
    ensures Dense(l).data[i * Columns(l) + j] == Dot(l.a.data, l.b.data, Rank(l), Columns(l), i, j, Rank(l))
  {
    hide Product, Dense, At, DotAt, Dot;
    assert RowsB(l) == [l.b.shape[0]] && Shape(l) == [l.b.shape[0], Columns(l)];
    DenseAt(l, [i], j);
    assert [i] + [j] == [i, j];
    Entry2(Dense(l), i, j);
    assert DotAt(l, [i], j) == Sum(Rank(l), Term(l, [i], j)) by { DotIs(l, [i], j); }
    Terms(l, i, j, Rank(l));
  }

  lemma {:induction false} DotIs(l: LoraTensor, i: seq<nat>, j: nat)
    requires Built(l) && |i| == Dims(l) - 1
    ensures DotAt(l, i, j) == Sum(Rank(l), Term(l, i, j))
  {
  }

  /** Row-major order in two dimensions. */
  lemma {:induction false} Entry2(t: Tensor, i: nat, j: nat)
    requires |t.shape| == 2 && i < t.shape[0] && j < t.shape[1]
    ensures 0 <= i * t.shape[1] + j < |t.data| && At(t, [i, j]) == t.data[i * t.shape[1] + j]
  {
    hide Product, At;
    AtMatrix(t, [], t.shape[0], t.shape[1], [], i, j);
    assert [] + [i, j] == [i, j] && [] + [t.shape[0], t.shape[1]] == t.shape;
    assert Ravel([], []) == 0;
  }

  lemma {:induction false} Terms(l: LoraTensor, i: nat, j: nat, k: nat)
    requires WellFormed(l) && Dims(l) == 2 && i < l.b.shape[0] && j < Columns(l) && k <= Rank(l)
    ensures Sum(k, Term(l, [i], j)) == Dot(l.a.data, l.b.data, Rank(l), Columns(l), i, j, k)
  {
    hide Product, At;
    if k > 0 {
      Terms(l, i, j, k - 1);
      Entry2(l.b, i, k - 1);
      Entry2(l.a, k - 1, j);
      assert [i] + [k - 1] == [i, k - 1] && [i][..0] == [] && LeadA(l) == [];
      assert Broadcast([], []) + [k - 1, j] == [k - 1, j];
    }
  }

  /** The first `k` terms of one entry of a batched product: batch `i` of B, batch `ia` of A. */
  function Products(l: LoraTensor, i: seq<nat>, ia: seq<nat>, x: nat, j: nat, k: nat): (v: real)
  {
    if k == 0 then 0.0
    else Products(l, i, ia, x, j, k - 1) + At(l.b, i + [x, k - 1]) * At(l.a, ia + [k - 1, j])
  }

  /** With more dimensions every batch of the product is the product of the batches,
    where unit dimensions of A repeat. */
  lemma {:induction false} BatchProduct(l: LoraTensor, i: seq<nat>, ia: seq<nat>, x: nat, j: nat)
    requires WellFormed(l) && |ia| == |i| && In(i + [x, j], Shape(l))
    requires forall d :: 0 <= d < |i| && d < Dims(l) - 2 ==> ia[d] == if l.a.shape[d] == 1 then 0 else i[d]
    ensures |i| == Dims(l) - 2 && At(Dense(l), i + [x, j]) == Products(l, i, ia, x, j, Rank(l))
  {
    hide Product, Dense, At, DotAt, Products;
    Shapes(l);
    var row, idx := i + [x], i + [x, j];
    assert row + [j] == idx && idx[|i|] == x && idx[|i| + 1] == j;
    assert In(row, RowsB(l)) by
      { assert forall d :: 0 <= d < |row| ==> row[d] == idx[d] && Shape(l)[d] == RowsB(l)[d]; }
    DenseAt(l, row, j);
    DotIs(l, row, j);
    assert row[..Dims(l) - 2] == i;
    assert ia == Broadcast(LeadA(l), i);
    BatchTerms(l, i, ia, x, j, Rank(l));
  }

  lemma {:induction false} BatchTerms(l: LoraTensor, i: seq<nat>, ia: seq<nat>, x: nat, j: nat, k: nat)
    requires Built(l) && |i| == Dims(l) - 2 && ia == Broadcast(LeadA(l), i)
    ensures Sum(k, Term(l, i + [x], j)) == Products(l, i, ia, x, j, k)
  {
    hide At, Product;
    if k > 0 {
      BatchTerms(l, i, ia, x, j, k - 1);
      assert i + [x] + [k - 1] == i + [x, k - 1] && (i + [x])[..Dims(l) - 2] == i;
    }
  }

  // ---------- permute and transpose ----------

  /** A dimension counted from either end, as a place from the front. */
  predicate InRange(d: int, n: nat) { 0 <= n + d && d < n }

  function Spot(d: int, n: nat): (p: nat)
    requires InRange(d, n)
    ensures p < n
  {
    if d >= 0 then d else n + d
  }

  lemma {:induction false} NormalSpots(dims: seq<int>, n: nat)
    ensures NormalDims(dims, n).Some? <==> forall i :: 0 <= i < |dims| ==> InRange(dims[i], n)
    ensures NormalDims(dims, n).Some? ==>
      |NormalDims(dims, n).value| == |dims| &&
      forall i :: 0 <= i < |dims| ==> InRange(dims[i], n) && NormalDims(dims, n).value[i] == Spot(dims[i], n)
  {
  }

  /** The result has the argument's dimension `dims[i]` as its `i`-th. */
  ghost predicate Reorders(t: Tensor, dims: seq<nat>, r: Tensor)
  {
    |t.shape| == |r.shape| == |dims| &&
    (forall i :: 0 <= i < |dims| ==> dims[i] < |dims| && r.shape[i] == t.shape[dims[i]]) &&
    forall idx: seq<nat>, jdx: seq<nat> ::
      |idx| == |dims| && In(jdx, t.shape) && (forall i :: 0 <= i < |dims| ==> idx[i] == jdx[dims[i]]) ==>
        In(idx, r.shape) && At(r, idx) == At(t, jdx)
  }

  lemma {:induction false} PermutedReorders(t: Tensor, dims: seq<nat>)
    requires |dims| == |t.shape| && IsPermutation(dims)
    ensures Reorders(t, dims, Permuted(t, dims))
  {
    hide At, Permuted, Product;
    var r := Permuted(t, dims);
    forall idx: seq<nat>, jdx: seq<nat> |
      |idx| == |dims| && In(jdx, t.shape) && forall i :: 0 <= i < |dims| ==> idx[i] == jdx[dims[i]]
      ensures In(idx, r.shape) && At(r, idx) == At(t, jdx)
    {
      ScatteredIs(dims, idx, jdx);
      PermutedAt(t, dims, idx);
    }
  }

  lemma {:induction false} ScatteredIs(dims: seq<nat>, idx: seq<nat>, jdx: seq<nat>)
    requires IsPermutation(dims) && |idx| == |jdx| == |dims|
    requires forall i :: 0 <= i < |dims| ==> idx[i] == jdx[dims[i]]
    ensures Scattered(dims, idx) == jdx
  {
    forall d | 0 <= d < |dims|
      ensures Scattered(dims, idx)[d] == jdx[d]
    {
      assert d in dims && dims[Find(dims, d)] == d;
    }
  }

  /** `permute`: the matrix afterwards has the dimensions of the matrix before in the order of the list. */
  lemma {:induction false} PermuteEntries(l: LoraTensor, dims: seq<int>)
    requires WellFormed(l) && PermuteFactors(l, dims).Ok?
    ensures |dims| == Dims(l) && forall i :: 0 <= i < |dims| ==> InRange(dims[i], Dims(l))
    ensures Reorders(Dense(l), seq(|dims|, i requires 0 <= i < |dims| => Spot(dims[i], Dims(l))),
                     Dense(PermuteFactors(l, dims).value))
  {
    hide Dense, Reorders, Permuted, PermuteTo, WellFormed;
    WellFormedBuilt(l);
    NormalSpots(dims, Dims(l));
    var nd := NormalDims(dims, Dims(l)).value;
    PermuteDense(l, nd);
    DenseShape(l);
    PermuteDefined(Dense(l), nd);
    PermutedReorders(Dense(l), nd);
    assert nd == seq(|dims|, i requires 0 <= i < |dims| => Spot(dims[i], Dims(l)));
  }

  lemma {:induction false} PermuteDefined(t: Tensor, dims: seq<nat>)
    ensures Permute(t, dims).Ok? ==>
      |dims| == |t.shape| && IsPermutation(dims) && Permute(t, dims).value == Permuted(t, dims)
  {
  }

  /** Entries `x` and `y` exchanged. */
  function Swapped<T>(s: seq<T>, x: nat, y: nat): (r: seq<T>)
    requires x < |s| && y < |s|
    ensures |r| == |s|
  {
    s[x := s[y]][y := s[x]]
  }

  lemma {:induction false} SwappedIn(shape: seq<nat>, idx: seq<nat>, x: nat, y: nat)
    requires x < |shape| && y < |shape| && In(idx, Swapped(shape, x, y))
    ensures In(Swapped(idx, x, y), shape)
  {
  }

  /** `transpose`: the shape has two entries exchanged, and the entry at an index is the entry before at the index with
      these two exchanged. */
  lemma {:induction false} TransposeEntries(l: LoraTensor, d0: int, d1: int)
    requires WellFormed(l) && TransposeFactors(l, d0, d1).Ok?
    ensures InRange(d0, Dims(l)) && InRange(d1, Dims(l))
    ensures var r := TransposeFactors(l, d0, d1).value;
            var x, y := Spot(d0, Dims(l)), Spot(d1, Dims(l));
            Shape(r) == Swapped(Shape(l), x, y) &&
            forall idx: seq<nat> :: In(idx, Shape(r)) ==> At(Dense(r), idx) == At(Dense(l), Swapped(idx, x, y))
  {
    hide Dense, Permuted, PermuteTo, WellFormed, At, Reorders, Exchanged;
    WellFormedBuilt(l);
    var n := Dims(l);
    assert [d0, d1][0] == d0 && [d0, d1][1] == d1;
    NormalSpots([d0, d1], n);
    var ex := Exchanged(n, Spot(d0, n), Spot(d1, n));
    var r := TransposeFactors(l, d0, d1).value;
    PermuteDense(l, ex);
    DenseShape(l);
    DenseShape(r);
    PermuteDefined(Dense(l), ex);
    PermutedReorders(Dense(l), ex);
    SwapReorders(Dense(l), Spot(d0, n), Spot(d1, n), Dense(r));
  }

  lemma {:induction false} SwapReorders(t: Tensor, x: nat, y: nat, r: Tensor)
    requires x < |t.shape| && y < |t.shape| && Reorders(t, Exchanged(|t.shape|, x, y), r)
    ensures r.shape == Swapped(t.shape, x, y)
    ensures forall idx: seq<nat> :: In(idx, r.shape) ==> At(r, idx) == At(t, Swapped(idx, x, y))
  {
    hide At, Product;
    var ex := Exchanged(|t.shape|, x, y);
    assert r.shape == Swapped(t.shape, x, y);
    forall idx: seq<nat> | In(idx, r.shape)
      ensures At(r, idx) == At(t, Swapped(idx, x, y))
    {
      SwappedIn(t.shape, idx, x, y);
      assert forall i :: 0 <= i < |idx| ==> idx[i] == Swapped(idx, x, y)[ex[i]];
    }
  }

  /** A list of all places in some order: as many as there are, and no two the same. */
  predicate Ordering(dims: seq<int>, n: nat)
  {
    |dims| == n && (forall i :: 0 <= i < n ==> InRange(dims[i], n)) &&
    forall i, j :: 0 <= i < j < n ==> Spot(dims[i], n) != Spot(dims[j], n)
  }

  function Below(n: nat): (s: set<nat>)
    ensures |s| == n && forall k: nat :: k in s <==> k < n
  {
    if n == 0 then {} else Below(n - 1) + {n - 1}
  }

  lemma {:induction false} SubsetSmaller(a: set<nat>, b: set<nat>)
    requires a <= b
    ensures |a| <= |b|
    decreases |a|
  {
    if a != {} {
      var x :| x in a;
      SubsetSmaller(a - {x}, b - {x});
    }
  }

  function Elements(s: seq<nat>): (r: set<nat>) { set x | x in s }

  lemma {:induction false} DistinctSize(s: seq<nat>)
    requires forall i, j :: 0 <= i < j < |s| ==> s[i] != s[j]
    ensures |Elements(s)| == |s|
  {
    if s != [] {
      var m := |s| - 1;
      DistinctSize(s[..m]);
      assert s == s[..m] + [s[m]];
      assert Elements(s) == Elements(s[..m]) + {s[m]};
      assert s[m] !in s[..m];
    }
  }

  /** Distinct places, as many as there are, are all of them. */
  lemma {:induction false} DistinctAll(dims: seq<nat>)
    requires forall i :: 0 <= i < |dims| ==> dims[i] < |dims|
    requires forall i, j :: 0 <= i < j < |dims| ==> dims[i] != dims[j]
    ensures IsPermutation(dims)
  {
    DistinctSize(dims);
    var s := Elements(dims);
    forall d | 0 <= d < |dims|
      ensures d in dims
    {
      if d !in dims {
        var others := Below(|dims|) - {d};
        assert s <= others && |others| == |dims| - 1;
        SubsetSmaller(s, others);
      }
    }
  }

  /** `permute` succeeds exactly for an ordering of the dimensions, if there are two of them or the last one stays where
      it is and A has no batches of its own. */
  lemma {:induction false} PermuteSucceeds(l: LoraTensor, dims: seq<int>)
    requires WellFormed(l)
    ensures PermuteFactors(l, dims).Ok? <==>
            Ordering(dims, Dims(l)) &&
            (Dims(l) == 2 ||
             (Spot(dims[Dims(l) - 1], Dims(l)) == Dims(l) - 1 &&
              forall d :: 0 <= d < Dims(l) - 2 ==> l.a.shape[d] == 1))
  {
    hide Product, Permuted;
    var n := Dims(l);
    NormalSpots(dims, n);
    if dims != [] && NormalDims(dims, n).Some? {
      var nd := NormalDims(dims, n).value;
      OrderingIs(dims, nd, n);
      PermuteToSucceeds(l, nd);
    }
  }

  lemma {:induction false} OrderingIs(dims: seq<int>, nd: seq<nat>, n: nat)
    requires |nd| == |dims| && forall i :: 0 <= i < |dims| ==> InRange(dims[i], n) && nd[i] == Spot(dims[i], n)
    ensures Ordering(dims, n) <==> |dims| == n && IsPermutation(nd)
  {
    if Ordering(dims, n) { DistinctAll(nd); }
  }

  lemma {:induction false} PermuteToSucceeds(l: LoraTensor, dims: seq<nat>)
    requires WellFormed(l) && dims != []
    ensures PermuteTo(l, dims).Ok? <==>
            |dims| == Dims(l) && IsPermutation(dims) &&
            (Dims(l) == 2 ||
             (dims[Dims(l) - 1] == Dims(l) - 1 && forall d :: 0 <= d < Dims(l) - 2 ==> l.a.shape[d] == 1))
  {
    hide Product, Permuted, WellFormed, IsPermutation, Dense;
    WellFormedBuilt(l);
    PermuteDefined(l.b, dims);
    PermuteDefined(l.a, dims);
    if |dims| == Dims(l) && IsPermutation(dims) {
      if dims[Dims(l) - 1] == Dims(l) - 1 {
        RowsSucceed(l, dims);
      } else if Dims(l) == 2 {
        TwoSwapped(dims);
        SwapSucceeds(l);
      }
    } else {
      SwapOrders();
    }
  }

  lemma {:induction false} RowsSucceed(l: LoraTensor, dims: seq<nat>)
    requires Built(l) && |dims| == Dims(l) && IsPermutation(dims) && dims[Dims(l) - 1] == Dims(l) - 1
    ensures PermuteTo(l, dims).Ok? <==> forall d :: 0 <= d < Dims(l) - 2 ==> l.a.shape[d] == 1
  {
    hide Product;
    var n := Dims(l);
    assert Permuted(l.b, dims).shape[n - 1] == l.b.shape[n - 1];
    assert forall d :: 0 <= d < n - 2 ==> LeadA(l)[d] == l.a.shape[d];
  }

  lemma {:induction false} TwoSwapped(dims: seq<nat>)
    requires |dims| == 2 && IsPermutation(dims) && dims[1] != 1
    ensures dims == SWAP
  {
  }

  lemma {:induction false} SwapOrders()
    ensures IsPermutation(SWAP) && |SWAP| == 2
  {
    assert SWAP[0] == 1 && SWAP[1] == 0;
  }

  lemma {:induction false} SwapSucceeds(l: LoraTensor)
    requires Built(l) && Dims(l) == 2
    ensures PermuteTo(l, SWAP).Ok?
  {
    hide Product;
    SwapOrders();
    assert SWAP[0] == 1 && SWAP[1] == 0;
  }

  /** So a matrix can always be transposed, and more dimensions if neither is the last, or nothing moves, and A has no
      batches of its own. */
  lemma {:induction false} TransposeSucceeds(l: LoraTensor, d0: int, d1: int)
    requires WellFormed(l)
    ensures var n := Dims(l);
            TransposeFactors(l, d0, d1).Ok? <==>
            InRange(d0, n) && InRange(d1, n) &&
            (n == 2 ||
             ((Spot(d0, n) == Spot(d1, n) || (Spot(d0, n) < n - 1 && Spot(d1, n) < n - 1)) &&
              forall d :: 0 <= d < n - 2 ==> l.a.shape[d] == 1))
  {
    hide Product, Permuted, WellFormed, PermuteTo;
    WellFormedBuilt(l);
    var n := Dims(l);
    assert [d0, d1][0] == d0 && [d0, d1][1] == d1;
    NormalSpots([d0, d1], n);
    if InRange(d0, n) && InRange(d1, n) {
      var x, y := Spot(d0, n), Spot(d1, n);
      assert NormalDims([d0, d1], n).value == [x, y];
      ExchangedOrders(n, x, y);
      PermuteToSucceeds(l, Exchanged(n, x, y));
    }
  }

  lemma {:induction false} ExchangedOrders(n: nat, x: nat, y: nat)
    requires x < n && y < n
    ensures IsPermutation(Exchanged(n, x, y))
  {
    var ex := Exchanged(n, x, y);
    forall d | 0 <= d < n
      ensures d in ex
    {
      assert ex[if d == x then y else if d == y then x else d] == d;
    }
  }
}
