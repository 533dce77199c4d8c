/** Dense n-dimensional tensors of reals, stored row-major, with the torch operations the LoRA factors go
    through. Indices and shapes are split at their last entry, the way row-major order nests. */
module Tensors {
  import opened Wrappers

  /** Why an operation fails: the LoRA constructor's assertions, or anything else Python raises. */
  datatype Failure = Rejected | Raised(what: string)

  type Outcome<+T> = Result<T, Failure>

  function Product(shape: seq<nat>): (n: nat)
  {
    if shape == [] then 1 else Product(shape[..|shape| - 1]) * shape[|shape| - 1]
  }

  datatype RawTensor = RawTensor(shape: seq<nat>, data: seq<real>)

  type Tensor = t: RawTensor | |t.data| == Product(t.shape) witness RawTensor([], [0.0])

  predicate In(idx: seq<nat>, shape: seq<nat>)
  {
    |idx| == |shape| && forall d :: 0 <= d < |idx| ==> idx[d] < shape[d]
  }

  // ---------- row-major positions ----------

  function Ravel(shape: seq<nat>, idx: seq<nat>): (n: nat)
    requires |idx| == |shape|
  {
    if shape == [] then 0
    else
      var m := |shape| - 1;
      Ravel(shape[..m], idx[..m]) * shape[m] + idx[m]
  }

  function Unravel(shape: seq<nat>, n: nat): (idx: seq<nat>)
    ensures |idx| == |shape|
  {
    if shape == [] then []
    else
      var m := |shape| - 1;
      if shape[m] == 0 then Unravel(shape[..m], 0) + [0]
      else Unravel(shape[..m], n / shape[m]) + [n % shape[m]]
  }

  lemma {:induction false} MulNonNegative(a: nat, b: nat)
    ensures a * b >= 0
  {
  }

  lemma {:induction false} MulDistribute(a: int, b: int, s: int)
    ensures (a + b) * s == a * s + b * s
  {
  }

  lemma {:induction false} MulLess(a: nat, b: nat, s: nat)
    ensures a < b ==> a * s + s <= b * s
  {
    if a < b {
      MulDistribute(a + 1, b - a - 1, s);
      MulDistribute(a, 1, s);
      MulNonNegative(b - a - 1, s);
    }
  }

  lemma {:induction false} DivUnique(n: nat, s: nat, q: nat, k: nat)
    requires s > 0 && n == q * s + k && k < s
    ensures n / s == q && n % s == k
  {
    var q' := n / s;
    assert n == q' * s + n % s;
    MulLess(q, q', s);
    MulLess(q', q, s);
  }

  lemma {:induction false} MulBelow(q: nat, p: nat, s: nat, k: nat)
    requires q < p && k < s
    ensures q * s + k < p * s
    ensures (q * s + k) / s == q && (q * s + k) % s == k
  {
    MulLess(q, p, s);
    DivUnique(q * s + k, s, q, k);
  }

  lemma {:induction false} DivBelow(n: nat, p: nat, s: nat)
    requires n < p * s
    ensures s > 0 && n / s < p && n % s < s && n / s * s + n % s == n
  {
    assert s > 0 by { assert s == 0 ==> p * s == 0; }
    MulLess(p, n / s, s);
    assert n == n / s * s + n % s;
  }

  lemma {:induction false} InSplit(idx: seq<nat>, shape: seq<nat>)
    requires In(idx, shape) && shape != []
    ensures In(idx[..|idx| - 1], shape[..|shape| - 1]) && idx[|idx| - 1] < shape[|shape| - 1]
    ensures idx == idx[..|idx| - 1] + [idx[|idx| - 1]]
  {
  }

  lemma {:induction false} InAppend(idx: seq<nat>, shape: seq<nat>, k: nat, s: nat)
    requires In(idx, shape) && k < s
    ensures In(idx + [k], shape + [s])
  {
  }

  lemma {:induction false} Pair<T>(s: seq<T>, x: T, y: T)
    ensures s + [x] + [y] == s + [x, y]
    ensures (s + [x, y])[..|s|] == s && (s + [x])[..|s|] == s
  {
  }

  lemma {:induction false} InPair(idx: seq<nat>, shape: seq<nat>, x: nat, m: nat, y: nat, n: nat)
    requires In(idx, shape) && x < m && y < n
    ensures In(idx + [x, y], shape + [m, n])
  {
  }

  lemma {:induction false} RavelAppend(shape: seq<nat>, idx: seq<nat>, s: nat, k: nat)
    requires |idx| == |shape|
    ensures Ravel(shape + [s], idx + [k]) == Ravel(shape, idx) * s + k
  {
    assert (shape + [s])[..|shape|] == shape && (idx + [k])[..|shape|] == idx;
  }

  lemma {:induction false} ProductAppend(shape: seq<nat>, s: nat)
    ensures Product(shape + [s]) == Product(shape) * s
  {
    assert (shape + [s])[..|shape|] == shape;
  }

  /** A valid index has a position inside the data, and that position leads back to the index. */
  lemma {:induction false} RavelUnravel(shape: seq<nat>, idx: seq<nat>)
    requires In(idx, shape)
    ensures Ravel(shape, idx) < Product(shape)
    ensures Unravel(shape, Ravel(shape, idx)) == idx
  {
    if shape != [] {
      var m := |shape| - 1;
      InSplit(idx, shape);
      RavelUnravel(shape[..m], idx[..m]);
      MulBelow(Ravel(shape[..m], idx[..m]), Product(shape[..m]), shape[m], idx[m]);
    }
  }

  /** A position inside the data has a valid index, and that index leads back to the position. */
  lemma {:induction false} UnravelRavel(shape: seq<nat>, n: nat)
    requires n < Product(shape)
    ensures In(Unravel(shape, n), shape)
    ensures Ravel(shape, Unravel(shape, n)) == n
  {
    if shape != [] {
      var m := |shape| - 1;
      DivBelow(n, Product(shape[..m]), shape[m]);
      UnravelRavel(shape[..m], n / shape[m]);
      UnravelStep(shape, n);
    }
  }

  lemma {:induction false} UnravelStep(shape: seq<nat>, n: nat)
    requires shape != []
    requires var m := |shape| - 1;
             shape[m] > 0 && n / shape[m] * shape[m] + n % shape[m] == n &&
             In(Unravel(shape[..m], n / shape[m]), shape[..m]) &&
             Ravel(shape[..m], Unravel(shape[..m], n / shape[m])) == n / shape[m]
    ensures In(Unravel(shape, n), shape)
    ensures Ravel(shape, Unravel(shape, n)) == n
  {
    hide In;
    var m := |shape| - 1;
    var q := Unravel(shape[..m], n / shape[m]);
    assert Unravel(shape, n) == q + [n % shape[m]];
    InAppend(q, shape[..m], n % shape[m], shape[m]);
    RavelAppend(shape[..m], q, shape[m], n % shape[m]);
    assert shape[..m] + [shape[m]] == shape;
  }

  // ---------- reading and building ----------

  function At(t: Tensor, idx: seq<nat>): (x: real)
  {
    if In(idx, t.shape) then
      RavelUnravel(t.shape, idx);
      t.data[Ravel(t.shape, idx)]
    else 0.0
  }

  function Tabulate(shape: seq<nat>, f: seq<nat> -> real): (t: Tensor)
    ensures t.shape == shape
  {
    RawTensor(shape, seq(Product(shape), n requires 0 <= n => f(Unravel(shape, n))))
  }

  lemma {:induction false} TabulateAt(shape: seq<nat>, f: seq<nat> -> real, idx: seq<nat>)
    requires In(idx, shape)
    ensures At(Tabulate(shape, f), idx) == f(idx)
  {
    RavelUnravel(shape, idx);
  }

  /** Tensors with the same shape and the same entries are the same tensor. */
  lemma {:induction false} Extensional(t: Tensor, u: Tensor)
    requires t.shape == u.shape
    requires forall idx :: In(idx, t.shape) ==> At(t, idx) == At(u, idx)
    ensures t == u
  {
    forall n | 0 <= n < |t.data|
      ensures t.data[n] == u.data[n]
    {
      UnravelRavel(t.shape, n);
      assert At(t, Unravel(t.shape, n)) == At(u, Unravel(t.shape, n));
    }
    assert t.data == u.data;
  }

  // ---------- sums ----------

  function Sum(n: nat, f: nat -> real): (s: real)
  {
    if n == 0 then 0.0 else Sum(n - 1, f) + f(n - 1)
  }

  lemma {:induction false} SumEqual(n: nat, f: nat -> real, g: nat -> real)
    requires forall k: nat :: k < n ==> f(k) == g(k)
    ensures Sum(n, f) == Sum(n, g)
  {
    if n > 0 { SumEqual(n - 1, f, g); }
  }

  lemma {:induction false} SumScaled(n: nat, f: nat -> real, g: nat -> real, c: real)
    requires forall k: nat :: k < n ==> g(k) == c * f(k)
    ensures Sum(n, g) == c * Sum(n, f)
  {
    if n > 0 { SumScaled(n - 1, f, g, c); }
  }

  // ---------- reshape ----------

  /** torch's reshape: the same data under another shape with as many elements. */
  function Reshape(t: Tensor, shape: seq<nat>): (r: Outcome<Tensor>)
  {
    if Product(shape) == Product(t.shape) then Ok(RawTensor(shape, t.data))
    else Err(Raised("shape is invalid for input"))
  }

  // ---------- permute ----------

  predicate IsPermutation(dims: seq<nat>)
  {
    (forall i :: 0 <= i < |dims| ==> dims[i] < |dims|) &&
    (forall i, j :: 0 <= i < j < |dims| ==> dims[i] != dims[j]) &&
    (forall d :: 0 <= d < |dims| ==> d in dims)
  }

  /** The entry `i` of the result is the entry `dims[i]` of the argument. */
  function Gathered<T>(xs: seq<T>, dims: seq<nat>): (r: seq<T>)
    requires forall i :: 0 <= i < |dims| ==> dims[i] < |xs|
    ensures |r| == |dims|
    ensures forall i :: 0 <= i < |dims| ==> r[i] == xs[dims[i]]
  {
    seq(|dims|, i requires 0 <= i < |dims| => xs[dims[i]])
  }

  /** The position of `d` in `dims`, or its length. */
  function Find(dims: seq<nat>, d: nat): (i: nat)
    ensures i <= |dims|
    ensures i < |dims| ==> dims[i] == d
    ensures d in dims ==> i < |dims|
  {
    if dims == [] || dims[0] == d then 0 else 1 + Find(dims[1..], d)
  }

  /** The index whose entry `dims[i]` is entry `i` of `idx`. */
  function Scattered(dims: seq<nat>, idx: seq<nat>): (r: seq<nat>)
    ensures |r| == |dims|
  {
    seq(|dims|, d requires 0 <= d < |dims| =>
      var i := Find(dims, d);
      if i < |idx| then idx[i] else 0)
  }

  function Permuted(t: Tensor, dims: seq<nat>): (r: Tensor)
    requires |dims| == |t.shape| && IsPermutation(dims)
    ensures r.shape == Gathered(t.shape, dims)
  {
    Tabulate(Gathered(t.shape, dims), idx => At(t, Scattered(dims, idx)))
  }

  /** torch.permute: dimension `i` of the result is dimension `dims[i]` of the argument. */
  function Permute(t: Tensor, dims: seq<nat>): (r: Outcome<Tensor>)
  {
    if |dims| == |t.shape| && IsPermutation(dims) then Ok(Permuted(t, dims))
    else Err(Raised("dims is not a permutation"))
  }

  lemma {:induction false} PermutedAt(t: Tensor, dims: seq<nat>, idx: seq<nat>)
    requires |dims| == |t.shape| && IsPermutation(dims) && In(idx, Gathered(t.shape, dims))
    ensures At(Permuted(t, dims), idx) == At(t, Scattered(dims, idx))
  {
    TabulateAt(Gathered(t.shape, dims), x => At(t, Scattered(dims, x)), idx);
  }

  // ---------- narrowing and gathering ----------

  /** One resolved index of a subscript: a position, or `len` positions from `start` on with a stride. */
  datatype Entry = Pick(i: nat) | Run(start: nat, len: nat, step: nat)

  predicate Fits(es: seq<Entry>, shape: seq<nat>)
  {
    |es| == |shape| &&
    forall d :: 0 <= d < |es| ==> EntryFits(es[d], shape[d])
  }

  predicate EntryFits(e: Entry, n: nat)
  {
    match e
    case Pick(i) => i < n
    case Run(start, len, step) => len > 0 ==> start + (len - 1) * step < n
  }

  /** The position a run reaches after `x` strides. */
  function StepTo(e: Entry, x: nat): (n: nat)
    requires e.Run?
  {
    e.start + x * e.step
  }

  function GatherShape(es: seq<Entry>): (shape: seq<nat>)
    ensures |shape| <= |es|
  {
    if es == [] then []
    else
      var m := |es| - 1;
      if es[m].Run? then GatherShape(es[..m]) + [es[m].len] else GatherShape(es[..m])
  }

  function GatherIndex(es: seq<Entry>, idx: seq<nat>): (r: seq<nat>)
    ensures |r| == |es|
    decreases |es|
  {
    if es == [] then []
    else
      var m := |es| - 1;
      match es[m]
      case Pick(i) => GatherIndex(es[..m], idx) + [i]
      case Run(start, len, step) =>
        if idx == [] then GatherIndex(es[..m], idx) + [start]
        else GatherIndex(es[..m], idx[..|idx| - 1]) + [StepTo(es[m], idx[|idx| - 1])]
  }

  /** Basic subscripting: positions drop their dimension, runs shrink it. */
  function Subscripted(t: Tensor, es: seq<Entry>): (r: Tensor)
    requires Fits(es, t.shape)
    ensures r.shape == GatherShape(es)
  {
    Tabulate(GatherShape(es), idx => At(t, GatherIndex(es, idx)))
  }

  function Gather(t: Tensor, es: seq<Entry>): (r: Outcome<Tensor>)
  {
    if Fits(es, t.shape) then Ok(Subscripted(t, es)) else Err(Raised("index out of range"))
  }

  lemma {:induction false} SubscriptedAt(t: Tensor, es: seq<Entry>, idx: seq<nat>)
    requires Fits(es, t.shape) && In(idx, GatherShape(es))
    ensures At(Subscripted(t, es), idx) == At(t, GatherIndex(es, idx))
  {
    TabulateAt(GatherShape(es), x => At(t, GatherIndex(es, x)), idx);
  }

  function FullRun(n: nat): (e: Entry) { Run(0, n, 1) }

  function FullRuns(shape: seq<nat>): (es: seq<Entry>)
    ensures |es| == |shape|
    ensures forall d :: 0 <= d < |es| ==> es[d] == FullRun(shape[d])
  {
    seq(|shape|, d requires 0 <= d < |shape| => FullRun(shape[d]))
  }

  lemma {:induction false} StepBound(start: nat, len: nat, step: nat, k: nat, n: nat)
    requires k < len && start + (len - 1) * step < n
    ensures start + k * step < n
  {
    assert k * step <= (len - 1) * step;
  }

  lemma {:induction false} GatherIn(es: seq<Entry>, shape: seq<nat>, idx: seq<nat>)
    requires Fits(es, shape) && In(idx, GatherShape(es))
    ensures In(GatherIndex(es, idx), shape)
    decreases |es|
  {
    if es != [] {
      var m := |es| - 1;
      assert EntryFits(es[m], shape[m]);
      match es[m]
      case Pick(i) => GatherIn(es[..m], shape[..m], idx);
      case Run(start, len, step) =>
        InSplit(idx, GatherShape(es));
        assert GatherShape(es)[..|idx| - 1] == GatherShape(es[..m]);
        GatherIn(es[..m], shape[..m], idx[..|idx| - 1]);
        StepBound(start, len, step, idx[|idx| - 1], shape[m]);
    }
  }

  lemma {:induction false} GatherAppendShape(es: seq<Entry>, e: Entry)
    ensures GatherShape(es + [e]) == if e.Run? then GatherShape(es) + [e.len] else GatherShape(es)
  {
    assert (es + [e])[..|es|] == es;
  }

  lemma {:induction false} GatherAppendRun(es: seq<Entry>, e: Entry, idx: seq<nat>, k: nat)
    requires e.Run?
    ensures GatherIndex(es + [e], idx + [k]) == GatherIndex(es, idx) + [StepTo(e, k)]
  {
    assert (es + [e])[..|es|] == es && (idx + [k])[..|idx|] == idx;
  }

  // ---------- joining ----------

  predicate SameShapes(ts: seq<Tensor>)
  {
    forall i :: 0 <= i < |ts| ==> ts[i].shape == ts[0].shape
  }

  function Stacked(ts: seq<Tensor>): (r: Tensor)
    requires ts != [] && SameShapes(ts)
    ensures r.shape == [|ts|] + ts[0].shape
  {
    Tabulate([|ts|] + ts[0].shape, idx => if idx != [] && idx[0] < |ts| then At(ts[idx[0]], idx[1..]) else 0.0)
  }

  /** torch.stack along a new first dimension. */
  function Stack(ts: seq<Tensor>): (r: Outcome<Tensor>)
  {
    if ts != [] && SameShapes(ts) then Ok(Stacked(ts)) else Err(Raised("stack expects tensors of equal size"))
  }

  lemma {:induction false} StackedAt(ts: seq<Tensor>, x: nat, idx: seq<nat>)
    requires ts != [] && SameShapes(ts) && x < |ts| && In(idx, ts[0].shape)
    ensures At(Stacked(ts), [x] + idx) == At(ts[x], idx)
  {
    var f := (idx: seq<nat>) => if idx != [] && idx[0] < |ts| then At(ts[idx[0]], idx[1..]) else 0.0;
    assert In([x] + idx, [|ts|] + ts[0].shape);
    TabulateAt([|ts|] + ts[0].shape, f, [x] + idx);
    assert ([x] + idx)[1..] == idx;
  }

  predicate SameRows(ts: seq<Tensor>)
  {
    forall i :: 0 <= i < |ts| ==> ts[i].shape != [] && ts[0].shape != [] && ts[i].shape[1..] == ts[0].shape[1..]
  }

  function Rows(ts: seq<Tensor>): (n: nat)
    requires SameRows(ts)
  {
    if ts == [] then 0 else ts[0].shape[0] + Rows(ts[1..])
  }

  /** The entry at row `i` of the tensors laid one after the other. */
  function CatAt(ts: seq<Tensor>, i: nat, rest: seq<nat>): (x: real)
    requires SameRows(ts)
  {
    if ts == [] then 0.0
    else if i < ts[0].shape[0] then At(ts[0], [i] + rest)
    else CatAt(ts[1..], i - ts[0].shape[0], rest)
  }

  function Concatenated(ts: seq<Tensor>): (r: Tensor)
    requires ts != [] && SameRows(ts)
    ensures r.shape == [Rows(ts)] + ts[0].shape[1..]
  {
    Tabulate([Rows(ts)] + ts[0].shape[1..], idx => if idx != [] then CatAt(ts, idx[0], idx[1..]) else 0.0)
  }

  /** torch.cat along the first dimension. */
  function Cat(ts: seq<Tensor>): (r: Outcome<Tensor>)
  {
    if ts != [] && SameRows(ts) then Ok(Concatenated(ts))
    else Err(Raised("sizes of tensors must match except in dimension 0"))
  }

  lemma {:induction false} ConcatenatedAt(ts: seq<Tensor>, x: nat, idx: seq<nat>)
    requires ts != [] && SameRows(ts) && x < Rows(ts) && In(idx, ts[0].shape[1..])
    ensures At(Concatenated(ts), [x] + idx) == CatAt(ts, x, idx)
  {
    var f := (idx: seq<nat>) => if idx != [] then CatAt(ts, idx[0], idx[1..]) else 0.0;
    assert In([x] + idx, [Rows(ts)] + ts[0].shape[1..]);
    TabulateAt([Rows(ts)] + ts[0].shape[1..], f, [x] + idx);
    assert ([x] + idx)[1..] == idx;
  }

  // ---------- broadcast multiplication ----------

  /** `idx` as seen by a tensor of shape `shape`, whose unit dimensions repeat; dimensions align at the end. */
  function Broadcast(shape: seq<nat>, idx: seq<nat>): (r: seq<nat>)
    requires |shape| <= |idx|
    ensures |r| == |shape|
  {
    seq(|shape|, d requires 0 <= d < |shape| => if shape[d] == 1 then 0 else idx[|idx| - |shape| + d])
  }

  predicate Broadcastable(s: seq<nat>, t: seq<nat>)
  {
    |t| <= |s| &&
    forall d :: 0 <= d < |t| ==> var e := s[|s| - |t| + d]; e == t[d] || e == 1 || t[d] == 1
  }

  /** The shape of an elementwise product; `t` has at most as many dimensions as `s`. */
  function JoinShape(s: seq<nat>, t: seq<nat>): (r: seq<nat>)
    requires |t| <= |s|
    ensures |r| == |s|
  {
    seq(|s|, d requires 0 <= d < |s| =>
      var e := d - (|s| - |t|);
      if e >= 0 && s[d] == 1 then t[e] else s[d])
  }

  function MultipliedEntry(t: Tensor, m: Tensor, idx: seq<nat>): (x: real)
    requires |m.shape| <= |t.shape|
  {
    if |idx| == |t.shape| then At(m, Broadcast(m.shape, idx)) * At(t, Broadcast(t.shape, idx)) else 0.0
  }

  function Multiplied(t: Tensor, m: Tensor): (r: Tensor)
    requires |m.shape| <= |t.shape|
    ensures r.shape == JoinShape(t.shape, m.shape)
  {
    Tabulate(JoinShape(t.shape, m.shape), idx => MultipliedEntry(t, m, idx))
  }

  function Multiply(t: Tensor, m: Tensor): (r: Outcome<Tensor>)
  {
    if Broadcastable(t.shape, m.shape) then Ok(Multiplied(t, m)) else Err(Raised("sizes do not broadcast"))
  }

  lemma {:induction false} MultipliedAt(t: Tensor, m: Tensor, idx: seq<nat>)
    requires |m.shape| <= |t.shape| && In(idx, JoinShape(t.shape, m.shape))
    ensures At(Multiplied(t, m), idx) == At(m, Broadcast(m.shape, idx)) * At(t, Broadcast(t.shape, idx))
  {
    hide At, JoinShape;
    TabulateAt(JoinShape(t.shape, m.shape), x => MultipliedEntry(t, m, x), idx);
  }
}
