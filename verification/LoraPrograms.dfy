/** Python subscripts, `split`, and whole programs over `LoraTorchTensor`. */
module LoraPrograms {
  import opened Wrappers
  import opened Tensors
  import opened Lora
  import opened LoraJoins

  // ---------- resolving Python indices ----------

  /** A slice with an absent bound written `None`. */
  datatype Range = Range(start: Option<int>, stop: Option<int>, step: int)

  datatype Ix = Position(i: int) | Slice(r: Range) | Ellipsis

  const ALL := Slice(Range(None, None, 1))

  function ResolvePosition(i: int, n: nat): (r: Outcome<Entry>)
    ensures r != Err(Rejected)
  {
    if 0 <= i + n && i < n then Ok(Pick(if i < 0 then i + n else i)) else Err(Raised("index out of range"))
  }

  function Clamp(v: int, n: nat): (r: nat)
    ensures r <= n
  {
    if v < 0 then if v + n < 0 then 0 else v + n
    else if v > n then n else v
  }

  function ResolveRange(r: Range, n: nat): (e: Outcome<Entry>)
    ensures e.Ok? ==> e.value.Run? && e.value.step > 0
    ensures e != Err(Rejected)
  {
    if r.step <= 0 then Err(Raised("slice step must be positive"))
    else
      var lo := if r.start.None? then 0 else Clamp(r.start.value, n);
      var hi := if r.stop.None? then n else Clamp(r.stop.value, n);
      Ok(Run(lo, if hi <= lo then 0 else (hi - lo + r.step - 1) / r.step, r.step))
  }

  function Resolve(ix: Ix, n: nat): (e: Outcome<Entry>)
    ensures e != Err(Rejected)
  {
    match ix
    case Position(i) => ResolvePosition(i, n)
    case Slice(r) => ResolveRange(r, n)
    case Ellipsis => Err(Raised("ellipsis"))
  }

  /** A resolved index never leaves its dimension. */
  lemma {:induction false} ResolveFits(ix: Ix, n: nat)
    requires Resolve(ix, n).Ok?
    ensures EntryFits(Resolve(ix, n).value, n)
  {
    if ix.Slice? {
      var e := ResolveRange(ix.r, n).value;
      if e.len > 0 {
        var hi := if ix.r.stop.None? then n else Clamp(ix.r.stop.value, n);
        CeilDiv(hi - e.start, e.step);
      }
    }
  }

  lemma {:induction false} CeilDiv(d: nat, s: nat)
    requires d > 0 && s > 0
    ensures ((d + s - 1) / s - 1) * s < d
  {
    var q := (d + s - 1) / s;
    MulDistribute(q, -1, s);
    assert q * s <= d + s - 1;
  }

  function ResolveAll(ixs: seq<Ix>, shape: seq<nat>): (r: Outcome<seq<Entry>>)
    ensures r.Ok? ==>
      |r.value| == |ixs| == |shape| && forall d :: 0 <= d < |ixs| ==> Resolve(ixs[d], shape[d]) == Ok(r.value[d])
  {
    if |ixs| != |shape| then Err(Raised("too many indices"))
    else if ixs == [] then Ok([])
    else
      var m := |ixs| - 1;
      var init := ResolveAll(ixs[..m], shape[..m]);
      var last := Resolve(ixs[m], shape[m]);
      if init.Err? then Err(init.error) else if last.Err? then Err(last.error) else Ok(init.value + [last.value])
  }

  // ---------- __getitem__ (lines 58-116) ----------

  /** The method's own expansion: a trailing ellipsis is dropped, any other becomes one full slice for every
      other entry of the tuple, and missing entries are appended as full slices. */
  function ExpandTuple(ixs: seq<Ix>, n: nat): (r: Outcome<seq<Ix>>)
    ensures r != Err(Rejected)
  {
    if ixs == [] then Err(Raised("assertion"))
    else if ixs[|ixs| - 1] == Ellipsis then ExpandTuple(ixs[..|ixs| - 1], n)
    else
      var es := ReplaceEllipsis(ixs, |ixs| - 1);
      Ok(es + seq(if |es| < n then n - |es| else 0, _ => ALL))
  }

  function ReplaceEllipsis(ixs: seq<Ix>, count: nat): (r: seq<Ix>)
  {
    if ixs == [] then []
    else (if ixs[0] == Ellipsis then seq(count, _ => ALL) else [ixs[0]]) + ReplaceEllipsis(ixs[1..], count)
  }

  function Ellipses(ixs: seq<Ix>): (n: nat)
  {
    if ixs == [] then 0 else (if ixs[0] == Ellipsis then 1 else 0) + Ellipses(ixs[1..])
  }

  /** torch's expansion: one ellipsis stands for as many full slices as complete the tuple; a second one stays and is
      rejected when the entries are resolved. */
  function TorchExpand(ixs: seq<Ix>, n: nat): (r: seq<Ix>)
  {
    if Ellipses(ixs) == 1 && |ixs| - 1 <= n then ReplaceEllipsis(ixs, n - (|ixs| - 1))
    else ixs + seq(if |ixs| < n then n - |ixs| else 0, _ => ALL)
  }

  /** The entries for the batch dimensions: positions wrap around in A, slices leave A whole. */
  function LeadEntries(ixs: seq<Ix>, sa: seq<nat>, sb: seq<nat>): (r: Outcome<(seq<Entry>, seq<Entry>)>)
    requires |ixs| == |sa| == |sb|
    ensures r.Ok? ==> |r.value.0| == |r.value.1| == |ixs|
    ensures r != Err(Rejected)
  {
    if ixs == [] then Ok(([], []))
    else
      var m := |ixs| - 1;
      var init := LeadEntries(ixs[..m], sa[..m], sb[..m]);
      var eb := Resolve(ixs[m], sb[m]);
      if init.Err? then Err(init.error)
      else if ixs[m].Position? && sa[m] == 0 then Err(Raised("modulo by zero"))
      else if eb.Err? then Err(eb.error)
      else
        var ea := if ixs[m].Position? then Pick(ixs[m].i % sa[m]) else FullRun(sa[m]);
        Ok((init.value.0 + [ea], init.value.1 + [eb.value]))
  }

  function LeadB(l: LoraTensor): (s: seq<nat>)
    requires Built(l)
    ensures |s| == Dims(l) - 2
  {
    l.b.shape[..Dims(l) - 2]
  }

  function TupleFactors(l: LoraTensor, ixs: seq<Ix>): (r: Outcome<LoraTensor>)
    requires Built(l)
    ensures r.Ok? ==> Built(r.value)
  {
    var n := Dims(l);
    var es := ExpandTuple(ixs, n);
    if es.Err? then Err(es.error)
    else if |es.value| != n then Err(Raised("too many indices"))
    else
      var lead := LeadEntries(es.value[..n - 2], LeadA(l), LeadB(l));
      var row, col := Resolve(es.value[n - 2], l.b.shape[n - 2]), Resolve(es.value[n - 1], Columns(l));
      if lead.Err? then Err(lead.error)
      else if row.Err? then Err(row.error)
      else if col.Err? then Err(col.error)
      else GatherFactors(l, lead.value.0, lead.value.1, row.value, col.value)
  }

  function TupleDense(t: Tensor, ixs: seq<Ix>): (r: Outcome<Tensor>)
  {
    var es := ResolveAll(TorchExpand(ixs, |t.shape|), t.shape);
    if es.Err? then Err(es.error) else Gather(t, es.value)
  }

  /** A slice of a batch dimension that A does not repeat, which A ignores, has to keep its length. */
  predicate KeepsBatch(ix: Ix, sa: nat, sb: nat)
  {
    ix.Slice? && sa != 1 && ResolveRange(ix.r, sb).Ok? ==> ResolveRange(ix.r, sb).value.len == sa
  }

  predicate KeepsBatches(ixs: seq<Ix>, sa: seq<nat>, sb: seq<nat>)
    requires |ixs| == |sa| == |sb|
  {
    forall d :: 0 <= d < |ixs| ==> KeepsBatch(ixs[d], sa[d], sb[d])
  }

  /** The tuples `__getitem__` is right for: its expansion is torch's, rows and columns are slices (a position
      would leave a vector), and a batch dimension of A that does not repeat keeps its length. */
  predicate SafeTuple(l: LoraTensor, ixs: seq<Ix>)
    requires Built(l)
  {
    var n := Dims(l);
    var es := ExpandTuple(ixs, n);
    es.Ok? && |es.value| == n ==>
      es.value == TorchExpand(ixs, n) && es.value[n - 2].Slice? && es.value[n - 1].Slice? &&
      KeepsBatches(es.value[..n - 2], LeadA(l), LeadB(l))
  }

  lemma {:induction false} LeadAligned(ixs: seq<Ix>, sa: seq<nat>, sb: seq<nat>)
    requires |ixs| == |sa| == |sb| && LeadEntries(ixs, sa, sb).Ok?
    requires forall d :: 0 <= d < |sa| ==> sa[d] == 1 || sa[d] == sb[d]
    requires KeepsBatches(ixs, sa, sb)
    ensures Aligned(LeadEntries(ixs, sa, sb).value.0, LeadEntries(ixs, sa, sb).value.1, sa)
    ensures ResolveAll(ixs, sb) == Ok(LeadEntries(ixs, sa, sb).value.1)
  {
    if ixs != [] {
      var m := |ixs| - 1;
      assert KeepsBatch(ixs[m], sa[m], sb[m]);
      assert forall d :: 0 <= d < m ==> KeepsBatch(ixs[..m][d], sa[..m][d], sb[..m][d]) by {
        assert forall d :: 0 <= d < m ==> KeepsBatch(ixs[d], sa[d], sb[d]);
      }
      LeadAligned(ixs[..m], sa[..m], sb[..m]);
      LeadLast(ixs[m], sa[m], sb[m]);
    }
  }

  lemma {:induction false} LeadLast(ix: Ix, sa: nat, sb: nat)
    requires Resolve(ix, sb).Ok? && (sa == 1 || sa == sb) && (ix.Position? ==> sa > 0)
    requires KeepsBatch(ix, sa, sb)
    ensures AlignedEntry(if ix.Position? then Pick(ix.i % sa) else FullRun(sa), Resolve(ix, sb).value, sa)
  {
    if ix.Slice? && sa != 1 {
      ResolveFits(ix, sb);
      if sb > 0 { WholeRun(ResolveRange(ix.r, sb).value, sb); }
    } else if ix.Position? && sa != 1 {
      if ix.i < 0 {
        assert ix.i == -1 * sa + (ix.i + sa);
        assert ix.i % sa == ix.i + sa by { NegativeMod(ix.i, sa); }
      }
    }
  }

  /** A run as long as its dimension, which has more than one place, is all of it. */
  lemma {:induction false} WholeRun(e: Entry, n: nat)
    requires n > 1 && e.Run? && e.step > 0 && e.len == n && EntryFits(e, n)
    ensures e == FullRun(n)
  {
    MulDistribute(e.step - 1, 1, n - 1);
    assert (n - 1) * e.step < n;
    if e.step > 1 {
      assert (n - 1) * e.step >= (n - 1) * 2 by { MulAtLeast(n - 1, e.step, 2); }
    }
  }

  lemma {:induction false} MulAtLeast(a: nat, b: nat, c: nat)
    requires b >= c
    ensures a * b >= a * c
  {
  }

  lemma {:induction false} NegativeMod(i: int, n: nat)
    requires i < 0 <= i + n
    ensures i % n == i + n
  {
    var q, k := i / n, i % n;
    assert i == q * n + k;
    assert q <= -1 by { assert q >= 0 ==> q * n >= 0; }
    assert q >= -1 by { assert q <= -2 ==> q * n <= -2 * n; }
  }

  /** The core of all subscripts: entries that line up subscript the product. */
  lemma {:induction false} GatherFactorsDense(l: LoraTensor, ea: seq<Entry>, eb: seq<Entry>, row: Entry, col: Entry)
    requires WellFormed(l) && |ea| == |eb| == Dims(l) - 2 && row.Run? && col.Run? && Aligned(ea, eb, LeadA(l))
    ensures var r := GatherFactors(l, ea, eb, row, col);
            r != Err(Rejected) &&
            (r.Ok? ==> WellFormed(r.value) && Gather(Dense(l), eb + [row, col]) == Ok(Dense(r.value)))
  {
    hide Dense, Gather, Fits, Aligned, WellFormed, Product, GatherShape, Subscripted, FullRun, SubscriptedFactors;
    WellFormedBuilt(l);
    var ca, cb := ea + [FullRun(Rank(l)), col], eb + [row, FullRun(Rank(l))];
    GatherError(l.a, ca);
    GatherError(l.b, cb);
    if Gather(l.a, ca).Ok? && Gather(l.b, cb).Ok? {
      GatherBuilt(l, ea, eb, row, col);
    }
  }

  lemma {:induction false} GatherBuilt(l: LoraTensor, ea: seq<Entry>, eb: seq<Entry>, row: Entry, col: Entry)
    requires Subscripts(l, ea, eb, row, col)
    ensures GatherFactors(l, ea, eb, row, col) == Ok(SubscriptedFactors(l, ea, eb, row, col))
    ensures WellFormed(SubscriptedFactors(l, ea, eb, row, col))
    ensures Gather(Dense(l), eb + [row, col]) == Ok(Dense(SubscriptedFactors(l, ea, eb, row, col)))
  {
    hide Dense, Fits, Aligned, WellFormed, Product, GatherShape, Subscripted, FullRun, SubscriptedFactors;
    SubscriptedDense(l, ea, eb, row, col);
    FactorsOf(l, ea, eb, row, col);
    WellFormedBuilt(SubscriptedFactors(l, ea, eb, row, col));
  }

  lemma {:induction false} WellFormedBuilt(l: LoraTensor)
    requires WellFormed(l)
    ensures Built(l)
  {
  }

  lemma {:induction false} GatherError(t: Tensor, es: seq<Entry>)
    ensures Gather(t, es) != Err(Rejected)
    ensures Gather(t, es).Ok? ==> Fits(es, t.shape) && Gather(t, es).value == Subscripted(t, es)
  {
  }

  lemma {:induction false} TupleCorrect(l: LoraTensor, ixs: seq<Ix>)
    requires WellFormed(l) && SafeTuple(l, ixs)
    ensures TupleFactors(l, ixs) != Err(Rejected)
    ensures TupleFactors(l, ixs).Ok? ==>
      WellFormed(TupleFactors(l, ixs).value) && TupleDense(Dense(l), ixs) == Ok(Dense(TupleFactors(l, ixs).value))
  {
    hide Dense, Gather, GatherFactors, TorchExpand, ExpandTuple, LeadEntries, Aligned, Resolve, Product, ResolveRange,
      ResolveAll;
    var n := Dims(l);
    if ExpandTuple(ixs, n).Ok? && |ExpandTuple(ixs, n).value| == n &&
      LeadEntries(ExpandTuple(ixs, n).value[..n - 2], LeadA(l), LeadB(l)).Ok? &&
      Resolve(ExpandTuple(ixs, n).value[n - 2], l.b.shape[n - 2]).Ok? &&
        Resolve(ExpandTuple(ixs, n).value[n - 1], Columns(l)).Ok?
    {
      var es := ExpandTuple(ixs, n).value;
      var lead := LeadEntries(es[..n - 2], LeadA(l), LeadB(l)).value;
      var row, col := Resolve(es[n - 2], l.b.shape[n - 2]).value, Resolve(es[n - 1], Columns(l)).value;
      LeadAligned(es[..n - 2], LeadA(l), LeadB(l));
      ResolveSlice(es[n - 2], l.b.shape[n - 2]);
      ResolveSlice(es[n - 1], Columns(l));
      GatherFactorsDense(l, lead.0, lead.1, row, col);
      ResolvePair(es[..n - 2], LeadB(l), es[n - 2], l.b.shape[n - 2], es[n - 1], Columns(l));
      assert es == es[..n - 2] + [es[n - 2], es[n - 1]];
      assert Shape(l) == LeadB(l) + [l.b.shape[n - 2], Columns(l)];
    }
  }

  lemma {:induction false} ResolveSlice(ix: Ix, n: nat)
    requires ix.Slice? && Resolve(ix, n).Ok?
    ensures Resolve(ix, n).value.Run?
  {
  }

  lemma {:induction false} ResolvePair(ixs: seq<Ix>, shape: seq<nat>, x: Ix, m: nat, y: Ix, n: nat)
    requires ResolveAll(ixs, shape).Ok? && Resolve(x, m).Ok? && Resolve(y, n).Ok?
    ensures ResolveAll(ixs + [x, y], shape + [m, n]) ==
            Ok(ResolveAll(ixs, shape).value + [Resolve(x, m).value, Resolve(y, n).value])
  {
    hide Resolve;
    ResolveOne(ixs, shape, x, m);
    ResolveOne(ixs + [x], shape + [m], y, n);
    Pair(ixs, x, y);
    Pair(shape, m, n);
    Pair(ResolveAll(ixs, shape).value, Resolve(x, m).value, Resolve(y, n).value);
  }

  lemma {:induction false} ResolveOne(ixs: seq<Ix>, shape: seq<nat>, x: Ix, m: nat)
    requires ResolveAll(ixs, shape).Ok? && Resolve(x, m).Ok?
    ensures ResolveAll(ixs + [x], shape + [m]) == Ok(ResolveAll(ixs, shape).value + [Resolve(x, m).value])
  {
    hide Resolve;
    assert (ixs + [x])[..|ixs|] == ixs && (shape + [m])[..|shape|] == shape;
  }

  /** Positions drop a batch dimension of both factors, slices keep one of both. */
  lemma {:induction false} LeadExact(ixs: seq<Ix>, sa: seq<nat>, sb: seq<nat>)
    requires |ixs| == |sa| == |sb| && LeadEntries(ixs, sa, sb).Ok?
    ensures ResolveAll(ixs, sb) == Ok(LeadEntries(ixs, sa, sb).value.1)
    ensures var (ea, eb) := LeadEntries(ixs, sa, sb).value;
            |GatherShape(ea)| == |GatherShape(eb)| &&
              (Repeats(GatherShape(ea), GatherShape(eb)) <==> KeepsBatches(ixs, sa, sb))
  {
    hide Resolve, ResolveRange, KeepsBatch;
    if ixs != [] {
      var m := |ixs| - 1;
      LeadExact(ixs[..m], sa[..m], sb[..m]);
      var (ea, eb) := LeadEntries(ixs, sa, sb).value;
      var e, f := ea[m], eb[m];
      assert ea == ea[..m] + [e] && eb == eb[..m] + [f];
      BatchEntry(ixs[m], sa[m], sb[m]);
      KeepsMore(ixs, sa, sb);
      GatherMore(ea[..m], e);
      GatherMore(eb[..m], f);
      if e.Run? { RepeatsMore(GatherShape(ea[..m]), e.len, GatherShape(eb[..m]), f.len); }
    }
  }

  /** A batch dimension repeats or matches. */
  predicate Repeats(sa: seq<nat>, sb: seq<nat>)
    requires |sa| == |sb|
  {
    forall d :: 0 <= d < |sa| ==> sa[d] == 1 || sa[d] == sb[d]
  }

  lemma {:induction false} RepeatsMore(sa: seq<nat>, x: nat, sb: seq<nat>, y: nat)
    requires |sa| == |sb|
    ensures Repeats(sa + [x], sb + [y]) <==> Repeats(sa, sb) && (x == 1 || x == y)
  {
    var s, t := sa + [x], sb + [y];
    assert s[|sa|] == x && t[|sa|] == y;
    assert forall d :: 0 <= d < |sa| ==> s[d] == sa[d] && t[d] == sb[d];
  }

  lemma {:induction false} KeepsMore(ixs: seq<Ix>, sa: seq<nat>, sb: seq<nat>)
    requires |ixs| == |sa| == |sb| && ixs != []
    ensures var m := |ixs| - 1;
            KeepsBatches(ixs, sa, sb) <==> KeepsBatches(ixs[..m], sa[..m], sb[..m]) && KeepsBatch(ixs[m], sa[m], sb[m])
  {
    hide KeepsBatch;
    var m := |ixs| - 1;
    assert forall d :: 0 <= d < m ==> ixs[..m][d] == ixs[d] && sa[..m][d] == sa[d] && sb[..m][d] == sb[d];
  }

  lemma {:induction false} GatherMore(es: seq<Entry>, e: Entry)
    ensures GatherShape(es + [e]) == GatherShape(es) + if e.Run? then [e.len] else []
  {
    GatherAppendShape(es, e);
  }

  /** One batch entry: both factors keep the dimension or both drop it, and where they keep it the lengths go together
      exactly if the slice keeps the batch. */
  lemma {:induction false} BatchEntry(ix: Ix, sa: nat, sb: nat)
    requires Resolve(ix, sb).Ok? && (ix.Position? ==> sa > 0)
    ensures var ea := if ix.Position? then Pick(ix.i % sa) else FullRun(sa); var eb := Resolve(ix, sb).value;
            (ea.Run? <==> eb.Run?) &&
            (KeepsBatch(ix, sa, sb) <==> (ea.Run? ==> ea.len == 1 || ea.len == eb.len))
  {
  }

  lemma {:induction false} GatheredShape(t: Tensor, es: seq<Entry>)
    requires Gather(t, es).Ok?
    ensures Gather(t, es).value.shape == GatherShape(es)
  {
  }

  /** Where a tuple succeeds with slices of rows and columns, the factors it leaves multiply to the reported shape if
      and only if every batch slice keeps the length of a dimension A does not repeat: A is not sliced at all. */
  lemma {:induction false} TupleShapesExact(l: LoraTensor, ixs: seq<Ix>)
    requires WellFormed(l) && TupleFactors(l, ixs).Ok?
    requires var es := ExpandTuple(ixs, Dims(l)).value; es[Dims(l) - 2].Slice? && es[Dims(l) - 1].Slice?
    ensures WellFormed(TupleFactors(l, ixs).value) <==>
            KeepsBatches(ExpandTuple(ixs, Dims(l)).value[..Dims(l) - 2], LeadA(l), LeadB(l))
  {
    hide ExpandTuple, LeadEntries, Resolve, Gather, Product, GatherShape, KeepsBatches, Repeats;
    var n, es, r := Dims(l), ExpandTuple(ixs, Dims(l)).value, TupleFactors(l, ixs).value;
    var (ea, eb) := LeadEntries(es[..n - 2], LeadA(l), LeadB(l)).value;
    var row, col := Resolve(es[n - 2], l.b.shape[n - 2]).value, Resolve(es[n - 1], Columns(l)).value;
    LeadExact(es[..n - 2], LeadA(l), LeadB(l));
    ResolveSlice(es[n - 2], l.b.shape[n - 2]);
    ResolveSlice(es[n - 1], Columns(l));
    GatheredShape(l.a, ea + [FullRun(Rank(l)), col]);
    GatheredShape(l.b, eb + [row, FullRun(Rank(l))]);
    GatherMatrixShape(ea, FullRun(Rank(l)), col);
    GatherMatrixShape(eb, row, FullRun(Rank(l)));
    BatchesOf(r, GatherShape(ea), Rank(l), col.len, GatherShape(eb), row.len);
  }

  lemma {:induction false} BatchesOf(r: LoraTensor, sa: seq<nat>, rank: nat, cols: nat, sb: seq<nat>, rows: nat)
    requires r.a.shape == sa + [rank, cols] && r.b.shape == sb + [rows, rank] && |sa| == |sb|
    ensures WellFormed(r) <==> Repeats(sa, sb)
  {
    assert forall d :: 0 <= d < |sa| ==> r.a.shape[d] == sa[d] && r.b.shape[d] == sb[d];
  }

  /** A position for the row or the column alone is refused by the constructor. Positions for both pass it only when the
      last batch dimension A keeps is as long as the rank, and then the result has one dimension too many. */
  lemma {:induction false} TuplePositions(l: LoraTensor, ixs: seq<Ix>)
    requires WellFormed(l) && TupleFactors(l, ixs).Ok?
    ensures var n, es := Dims(l), ExpandTuple(ixs, Dims(l)).value;
            es[n - 2].Slice? == es[n - 1].Slice? &&
            (!es[n - 1].Slice? && es == TorchExpand(ixs, n) && TupleDense(Dense(l), ixs).Ok? ==>
             |Shape(TupleFactors(l, ixs).value)| == |TupleDense(Dense(l), ixs).value.shape| + 1)
  {
    hide ExpandTuple, TorchExpand, LeadEntries, Resolve, ResolveAll, Gather, Product, GatherShape, KeepsBatches,
      Repeats, Dense;
    var n, es, r := Dims(l), ExpandTuple(ixs, Dims(l)).value, TupleFactors(l, ixs).value;
    var (ea, eb) := LeadEntries(es[..n - 2], LeadA(l), LeadB(l)).value;
    var row, col := Resolve(es[n - 2], l.b.shape[n - 2]).value, Resolve(es[n - 1], Columns(l)).value;
    LeadExact(es[..n - 2], LeadA(l), LeadB(l));
    ResolveKind(es[n - 2], l.b.shape[n - 2]);
    ResolveKind(es[n - 1], Columns(l));
    GatheredShape(l.a, ea + [FullRun(Rank(l)), col]);
    GatheredShape(l.b, eb + [row, FullRun(Rank(l))]);
    GatherTwo(ea, FullRun(Rank(l)), col);
    GatherTwo(eb, row, FullRun(Rank(l)));
    GatherTwo(eb, row, col);
    ResolvePair(es[..n - 2], LeadB(l), es[n - 2], l.b.shape[n - 2], es[n - 1], Columns(l));
    assert es == es[..n - 2] + [es[n - 2], es[n - 1]];
    assert Shape(l) == LeadB(l) + [l.b.shape[n - 2], Columns(l)];
    if es == TorchExpand(ixs, n) && TupleDense(Dense(l), ixs).Ok? { GatheredShape(Dense(l), eb + [row, col]); }
  }

  lemma {:induction false} ResolveKind(ix: Ix, n: nat)
    requires Resolve(ix, n).Ok?
    ensures Resolve(ix, n).value.Run? <==> ix.Slice?
  {
  }

  lemma {:induction false} GatherTwo(es: seq<Entry>, e: Entry, f: Entry)
    ensures |GatherShape(es + [e, f])| == |GatherShape(es)| + (if e.Run? then 1 else 0) + if f.Run? then 1 else 0
  {
    assert es + [e, f] == (es + [e]) + [f];
    GatherAppendShape(es, e);
    GatherAppendShape(es + [e], f);
  }

  /** Where its expansion is torch's, a tuple subscript that succeeds leaves the subscripted product exactly if it is
      safe. */
  lemma {:induction false} TupleExact(l: LoraTensor, ixs: seq<Ix>)
    requires WellFormed(l) && TupleFactors(l, ixs).Ok? && ExpandTuple(ixs, Dims(l)) == Ok(TorchExpand(ixs, Dims(l)))
    ensures var r := TupleFactors(l, ixs).value;
            WellFormed(r) && TupleDense(Dense(l), ixs) == Ok(Dense(r)) <==> SafeTuple(l, ixs)
  {
    hide TupleDense, Product, KeepsBatches, LeadEntries, Resolve, GatherFactors, TorchExpand, ExpandTuple;
    var r := TupleFactors(l, ixs).value;
    if SafeTuple(l, ixs) {
      hide Dense, TupleFactors, SafeTuple;
      TupleCorrect(l, ixs);
    } else {
      TuplePositions(l, ixs);
      var es := ExpandTuple(ixs, Dims(l)).value;
      if es[Dims(l) - 1].Slice? {
        TupleShapesExact(l, ixs);
      } else if WellFormed(r) {
        DenseShape(r);
      }
    }
  }

  lemma {:induction false} DenseShape(l: LoraTensor)
    requires Built(l)
    ensures Dense(l).shape == Shape(l)
  {
  }

  /** Full slices for all dimensions but one. */
  function OneEntry(shape: seq<nat>, d: nat, e: Entry): (es: seq<Entry>)
    requires d < |shape|
    ensures |es| == |shape|
  {
    FullRuns(shape)[d := e]
  }

  /** A single position or slice: on more than two dimensions both factors take it, on two only B does. */
  function FirstFactors(l: LoraTensor, ix: Ix): (r: Outcome<LoraTensor>)
    requires Built(l)
    ensures r.Ok? ==> Built(r.value)
  {
    var n := Dims(l);
    if n > 2 then
      var ea, eb := Resolve(ix, l.a.shape[0]), Resolve(ix, l.b.shape[0]);
      if ea.Err? then Err(ea.error)
      else if eb.Err? then Err(eb.error)
      else GatherFactors(l, OneEntry(LeadA(l), 0, ea.value), OneEntry(LeadB(l), 0, eb.value),
                         FullRun(l.b.shape[n - 2]), FullRun(Columns(l)))
    else if !ix.Slice? then Err(Raised("can't return a vector"))
    else
      var row := Resolve(ix, l.b.shape[0]);
      if row.Err? then Err(row.error) else GatherFactors(l, [], [], row.value, FullRun(Columns(l)))
  }

  function FirstDense(t: Tensor, ix: Ix): (r: Outcome<Tensor>)
  {
    if t.shape == [] then Err(Raised("too many indices"))
    else
      var e := Resolve(ix, t.shape[0]);
      if e.Err? then Err(e.error) else Gather(t, OneEntry(t.shape, 0, e.value))
  }

  /** A slice of the first of three or more dimensions is right when A has that dimension in full, when the
      slice keeps the single row A repeats, or when it keeps no row of B. */
  predicate SafeFirst(l: LoraTensor, ix: Ix)
    requires Built(l)
  {
    Dims(l) > 2 && ix.Slice? && l.a.shape[0] != l.b.shape[0] && Resolve(ix, 1).Ok? ==>
      Resolve(ix, 1).value.len == 1 || Resolve(ix, l.b.shape[0]).value.len == 0
  }

  lemma {:induction false} FullAligned(sa: seq<nat>, sb: seq<nat>, d: nat, ea: Entry, eb: Entry)
    requires |sa| == |sb| && d < |sa| && AlignedEntry(ea, eb, sa[d])
    requires forall k :: 0 <= k < |sa| ==> sa[k] == 1 || sa[k] == sb[k]
    ensures Aligned(OneEntry(sa, d, ea), OneEntry(sb, d, eb), sa)
  {
  }

  lemma {:induction false} NoneAligned(sa: seq<nat>, sb: seq<nat>)
    requires |sa| == |sb| && forall k :: 0 <= k < |sa| ==> sa[k] == 1 || sa[k] == sb[k]
    ensures Aligned(FullRuns(sa), FullRuns(sb), sa)
  {
  }

  lemma {:induction false} OneEntryShape(l: LoraTensor, d: nat, e: Entry)
    requires Built(l) && d < Dims(l)
    ensures var n := Dims(l);
            var rows, cols := FullRun(l.b.shape[n - 2]), FullRun(Columns(l));
            OneEntry(Shape(l), d, e) ==
              if d < n - 2 then OneEntry(LeadB(l), d, e) + [rows, cols]
              else FullRuns(LeadB(l)) + if d == n - 2 then [e, cols] else [rows, e]
  {
  }

  lemma {:induction false} FirstAligned(ix: Ix, sa: nat, sb: nat)
    requires Resolve(ix, sa).Ok? && Resolve(ix, sb).Ok? && (sa == 1 || sa == sb)
    requires ix.Slice? && sa != sb ==> Resolve(ix, 1).value.len == 1 || Resolve(ix, sb).value.len == 0
    ensures AlignedEntry(Resolve(ix, sa).value, Resolve(ix, sb).value, sa)
  {
    hide ResolveRange;
    ResolveFits(ix, sa);
    if sa == 1 && ix.Slice? { OneStep(Resolve(ix, 1).value); }
  }

  /** A run that fits one position keeps that position or nothing. */
  lemma {:induction false} OneStep(e: Entry)
    requires e.Run? && e.step > 0 && EntryFits(e, 1)
    ensures e.len == 0 || (e.start == 0 && e.len == 1)
  {
    MulLess(0, e.step, if e.len == 0 then 0 else e.len - 1);
  }

  /** Exactly the slices `SafeFirst` admits leave factors that still multiply to the reported shape: otherwise the
      method returns, without an error, a tensor whose batch dimensions do not match. */
  lemma {:induction false} FirstExact(l: LoraTensor, ix: Ix)
    requires WellFormed(l) && Dims(l) > 2 && FirstFactors(l, ix).Ok?
    ensures WellFormed(FirstFactors(l, ix).value) <==> SafeFirst(l, ix)
  {
    hide Dense, Product, Resolve, GatherFactors;
    if SafeFirst(l, ix) {
      FirstCorrect(l, ix);
    } else {
      UnsafeFirst(l, ix);
    }
  }

  lemma {:induction false} UnsafeFirst(l: LoraTensor, ix: Ix)
    requires Built(l) && WellFormed(l) && Dims(l) > 2 && FirstFactors(l, ix).Ok? && !SafeFirst(l, ix)
    ensures !WellFormed(FirstFactors(l, ix).value)
  {
    hide Product, Subscripted, ResolveRange, GatherShape;
    var r := FirstFactors(l, ix).value;
    var ea, eb := Resolve(ix, l.a.shape[0]).value, Resolve(ix, l.b.shape[0]).value;
    FirstShape(l.a.shape, ea);
    FirstShape(l.b.shape, eb);
    OneEntryFactors(l, ea, eb);
    ResolveFits(ix, 1);
    OneStep(ea);
    assert r.a.shape[0] == ea.len && r.b.shape[0] == eb.len;
    assert |r.a.shape| == Dims(l);
  }

  lemma {:induction false} OneEntryFactors(l: LoraTensor, ea: Entry, eb: Entry)
    requires Built(l) && Dims(l) > 2
    ensures var n := Dims(l);
            OneEntry(LeadA(l), 0, ea) + [FullRun(Rank(l)), FullRun(Columns(l))] == OneEntry(l.a.shape, 0, ea) &&
            OneEntry(LeadB(l), 0, eb) + [FullRun(l.b.shape[n - 2]), FullRun(Rank(l))] == OneEntry(l.b.shape, 0, eb)
  {
  }

  lemma {:induction false} FirstShape(shape: seq<nat>, e: Entry)
    requires shape != [] && e.Run?
    ensures GatherShape(OneEntry(shape, 0, e)) == [e.len] + shape[1..]
  {
    hide GatherShape;
    if |shape| > 1 {
      var m := |shape| - 1;
      FirstShape(shape[..m], e);
      FirstSplit(shape, e);
      GatherAppendShape(OneEntry(shape[..m], 0, e), FullRun(shape[m]));
    } else {
      assert OneEntry(shape, 0, e) == [] + [e] && shape[1..] == [];
      GatherAppendShape([], e);
      assert GatherShape([]) == [] by { GatherNothing(); }
    }
  }

  lemma {:induction false} GatherNothing()
    ensures GatherShape([]) == []
  {
  }

  lemma {:induction false} FirstSplit(shape: seq<nat>, e: Entry)
    requires |shape| > 1
    ensures var m := |shape| - 1;
            OneEntry(shape, 0, e) == OneEntry(shape[..m], 0, e) + [FullRun(shape[m])] &&
            shape[1..] == shape[..m][1..] + [shape[m]]
  {
  }

  lemma {:induction false} FirstCorrect(l: LoraTensor, ix: Ix)
    requires WellFormed(l) && SafeFirst(l, ix)
    ensures FirstFactors(l, ix) != Err(Rejected)
    ensures FirstFactors(l, ix).Ok? ==>
      WellFormed(FirstFactors(l, ix).value) && FirstDense(Dense(l), ix) == Ok(Dense(FirstFactors(l, ix).value))
  {
    hide Dense, Gather, GatherFactors, Aligned, Product, ResolveRange;
    var n := Dims(l);
    if n > 2 && Resolve(ix, l.a.shape[0]).Ok? && Resolve(ix, l.b.shape[0]).Ok? {
      var ea, eb := Resolve(ix, l.a.shape[0]).value, Resolve(ix, l.b.shape[0]).value;
      FirstAligned(ix, l.a.shape[0], l.b.shape[0]);
      FullAligned(LeadA(l), LeadB(l), 0, ea, eb);
      GatherFactorsDense(l, OneEntry(LeadA(l), 0, ea), OneEntry(LeadB(l), 0, eb), FullRun(l.b.shape[n - 2]),
        FullRun(Columns(l)));
      OneEntryShape(l, 0, eb);
    } else if n == 2 && ix.Slice? && Resolve(ix, l.b.shape[0]).Ok? {
      var row := Resolve(ix, l.b.shape[0]).value;
      NoneAligned([], []);
      GatherFactorsDense(l, [], [], row, FullRun(Columns(l)));
      OneEntryShape(l, 0, row);
    }
  }

  // ---------- split (lines 186-205) ----------

  datatype Sizes = Every(size: nat) | Sections(sizes: seq<nat>)

  function SectionRuns(start: nat, sizes: seq<nat>): (es: seq<Entry>)
    ensures forall k :: 0 <= k < |es| ==> es[k].Run?
    decreases |sizes|
  {
    if sizes == [] then [] else [Run(start, sizes[0], 1)] + SectionRuns(start + sizes[0], sizes[1..])
  }

  function ChunkRun(total: nat, size: nat, k: nat): (e: Entry)
  {
    Run(k * size, if k * size + size <= total then size else if k * size < total then total - k * size else 0, 1)
  }

  /** torch's chunks of a dimension: equal ones with a shorter last, or the listed sections. */
  function Chunks(total: nat, spec: Sizes): (r: Outcome<seq<Entry>>)
    ensures r.Ok? ==> forall k :: 0 <= k < |r.value| ==> r.value[k].Run?
    ensures r != Err(Rejected)
  {
    match spec
    case Every(size) =>
      if size == 0 && total > 0 then Err(Raised("split_size can only be 0 if dimension size is 0"))
      else
        var count := if total == 0 then 1 else (total + size - 1) / size;
        Ok(seq(count, k requires 0 <= k => ChunkRun(total, size, k)))
    case Sections(sizes) =>
      if Total(sizes) != total then Err(Raised("split_sizes must sum to the dimension")) else Ok(SectionRuns(0, sizes))
  }

  function NormalDim(dim: int, n: nat): (d: Option<nat>)
    ensures d.Some? ==> d.value < n
  {
    if 0 <= dim < n then Some(dim) else if dim < 0 && 0 <= dim + n then Some(dim + n) else None
  }

  /** Part `k` of `split`: columns come from A, rows from B, batches from B and, unless A repeats, from A. */
  function SplitFactors(l: LoraTensor, spec: Sizes, dim: int, k: nat): (r: Outcome<LoraTensor>)
    requires Built(l)
    ensures r.Ok? ==> Built(r.value)
  {
    var n := Dims(l);
    var rows, cols := FullRun(l.b.shape[n - 2]), FullRun(Columns(l));
    var d := NormalDim(dim, n);
    if d.None? then Err(Raised("dimension out of range"))
    else
      var chunks := Chunks(Shape(l)[d.value], spec);
      if chunks.Err? then Err(chunks.error)
      else if k >= |chunks.value| then Err(Raised("no such part"))
      else
        var e := chunks.value[k];
        if d.value == n - 1 then GatherFactors(l, FullRuns(LeadA(l)), FullRuns(LeadB(l)), rows, e)
        else if d.value == n - 2 then GatherFactors(l, FullRuns(LeadA(l)), FullRuns(LeadB(l)), e, cols)
        else if l.a.shape[d.value] == 1 then
          GatherFactors(l, FullRuns(LeadA(l)), OneEntry(LeadB(l), d.value, e), rows, cols)
        else
          var chunksA := Chunks(l.a.shape[d.value], spec);
          if chunksA.Err? then Err(chunksA.error)
          else if k >= |chunksA.value| then Err(Raised("no such part"))
          else
            GatherFactors(l, OneEntry(LeadA(l), d.value, chunksA.value[k]), OneEntry(LeadB(l), d.value, e), rows, cols)
  }

  function SplitDense(t: Tensor, spec: Sizes, dim: int, k: nat): (r: Outcome<Tensor>)
  {
    var d := NormalDim(dim, |t.shape|);
    if d.None? then Err(Raised("dimension out of range"))
    else
      var chunks := Chunks(t.shape[d.value], spec);
      if chunks.Err? then Err(chunks.error)
      else if k >= |chunks.value| then Err(Raised("no such part"))
      else Gather(t, OneEntry(t.shape, d.value, chunks.value[k]))
  }

  lemma {:induction false} SplitCorrect(l: LoraTensor, spec: Sizes, dim: int, k: nat)
    requires WellFormed(l)
    ensures SplitFactors(l, spec, dim, k) != Err(Rejected)
    ensures SplitFactors(l, spec, dim, k).Ok? ==>
      WellFormed(SplitFactors(l, spec, dim, k).value) &&
      SplitDense(Dense(l), spec, dim, k) == Ok(Dense(SplitFactors(l, spec, dim, k).value))
  {
    hide Dense, Gather, GatherFactors, Aligned, Product, Chunks, WellFormed;
    var n := Dims(l);
    WellFormedBuilt(l);
    var d := NormalDim(dim, n);
    if d.Some? && Chunks(Shape(l)[d.value], spec).Ok? && k < |Chunks(Shape(l)[d.value], spec).value| {
      SplitPart(l, d.value, Chunks(Shape(l)[d.value], spec).value[k]);
      SplitBatch(l, d.value);
    }
  }

  lemma {:induction false} SplitBatch(l: LoraTensor, d: nat)
    requires WellFormed(l) && d < Dims(l)
    ensures d < Dims(l) - 2 && l.a.shape[d] != 1 ==> l.a.shape[d] == Shape(l)[d]
  {
  }

  lemma {:induction false} SplitPart(l: LoraTensor, d: nat, e: Entry)
    requires WellFormed(l) && d < Dims(l) && e.Run?
    ensures var n := Dims(l);
            var r := if d == n - 1 then
                       GatherFactors(l, FullRuns(LeadA(l)), FullRuns(LeadB(l)), FullRun(l.b.shape[n - 2]), e)
                     else if d == n - 2 then
                       GatherFactors(l, FullRuns(LeadA(l)), FullRuns(LeadB(l)), e, FullRun(Columns(l)))
                     else if l.a.shape[d] == 1 then
                       GatherFactors(l, FullRuns(LeadA(l)), OneEntry(LeadB(l), d, e), FullRun(l.b.shape[n - 2]),
                         FullRun(Columns(l)))
                     else GatherFactors(l, OneEntry(LeadA(l), d, e), OneEntry(LeadB(l), d, e),
                                         FullRun(l.b.shape[n - 2]), FullRun(Columns(l)));
            r != Err(Rejected) &&
            (r.Ok? ==> WellFormed(r.value) && Gather(Dense(l), OneEntry(Shape(l), d, e)) == Ok(Dense(r.value)))
  {
    hide Dense, Gather, GatherFactors, Aligned, Product;
    var n := Dims(l);
    var rows, cols := FullRun(l.b.shape[n - 2]), FullRun(Columns(l));
    OneEntryShape(l, d, e);
    if d >= n - 2 {
      NoneAligned(LeadA(l), LeadB(l));
      GatherFactorsDense(l, FullRuns(LeadA(l)), FullRuns(LeadB(l)),
        if d == n - 1 then rows else e, if d == n - 1 then e else cols);
    } else {
      var ea := if l.a.shape[d] == 1 then FullRun(LeadA(l)[d]) else e;
      FullAligned(LeadA(l), LeadB(l), d, ea, e);
      assert l.a.shape[d] == 1 ==> OneEntry(LeadA(l), d, ea) == FullRuns(LeadA(l));
      GatherFactorsDense(l, OneEntry(LeadA(l), d, ea), OneEntry(LeadB(l), d, e), rows, cols);
    }
  }

  // ---------- programs ----------

  /** A program over LoRA tensors. `SplitPart` picks one tensor of the tuple `split` returns. */
  datatype Program =
    | Factors(a: Tensor, b: Tensor)
    | Reshaped(p: Program, dims: seq<int>)
    | PermutedBy(p: Program, dims: seq<int>)
    | Transposed(p: Program, d0: int, d1: int)
    | PartOf(p: Program, sizes: Sizes, dim: int, part: nat)
    | First(p: Program, ix: Ix)
    | TupleAt(p: Program, ixs: seq<Ix>)
    | Scaled(p: Program, m: Tensor)
    | StackOf(ps: seq<Program>)
    | CatOf(ps: seq<Program>)

  function Operate(p: Program, l: LoraTensor): (r: Outcome<LoraTensor>)
    requires Built(l) && !p.Factors? && !p.StackOf? && !p.CatOf?
    ensures r.Ok? ==> Built(r.value)
  {
    match p
    case Reshaped(_, dims) => ReshapeFactors(l, dims)
    case PermutedBy(_, dims) => PermuteFactors(l, dims)
    case Transposed(_, d0, d1) => TransposeFactors(l, d0, d1)
    case PartOf(_, sizes, dim, part) => SplitFactors(l, sizes, dim, part)
    case First(_, ix) => FirstFactors(l, ix)
    case TupleAt(_, ixs) => TupleFactors(l, ixs)
    case Scaled(_, m) => ScaleFactors(l, m)
  }

  function ReshapeDenseBy(t: Tensor, dims: seq<int>): (r: Outcome<Tensor>)
  {
    var shape := ExpandShape(t.shape, dims);
    if shape.Err? then Err(shape.error) else Reshape(t, shape.value)
  }

  function PermuteDenseBy(t: Tensor, dims: seq<int>): (r: Outcome<Tensor>)
  {
    var nd := NormalDims(dims, |t.shape|);
    if nd.None? then Err(Raised("dimension out of range")) else Permute(t, nd.value)
  }

  function TransposeDense(t: Tensor, d0: int, d1: int): (r: Outcome<Tensor>)
  {
    var nd := NormalDims([d0, d1], |t.shape|);
    if nd.None? then Err(Raised("dimension out of range"))
    else Permute(t, Exchanged(|t.shape|, nd.value[0], nd.value[1]))
  }

  function OperateDense(p: Program, t: Tensor): (r: Outcome<Tensor>)
    requires !p.Factors? && !p.StackOf? && !p.CatOf?
  {
    match p
    case Reshaped(_, dims) => ReshapeDenseBy(t, dims)
    case PermutedBy(_, dims) => PermuteDenseBy(t, dims)
    case Transposed(_, d0, d1) => TransposeDense(t, d0, d1)
    case PartOf(_, sizes, dim, part) => SplitDense(t, sizes, dim, part)
    case First(_, ix) => FirstDense(t, ix)
    case TupleAt(_, ixs) => TupleDense(t, ixs)
    case Scaled(_, m) => Multiply(t, m)
  }

  /** The program run on factors. */
  function RunFactors(p: Program): (r: Outcome<LoraTensor>)
    ensures r.Ok? ==> Built(r.value)
    decreases p
  {
    match p
    case Factors(a, b) => Make(a, b)
    case StackOf(ps) =>
      var ls := RunAllFactors(ps);
      if ls.Err? then Err(ls.error) else StackFactors(ls.value)
    case CatOf(ps) =>
      var ls := RunAllFactors(ps);
      if ls.Err? then Err(ls.error) else CatFactors(ls.value)
    case _ =>
      var l := RunFactors(p.p);
      if l.Err? then Err(l.error) else Operate(p, l.value)
  }

  function RunAllFactors(ps: seq<Program>): (r: Outcome<seq<LoraTensor>>)
    ensures r.Ok? ==> |r.value| == |ps|
    decreases ps
  {
    if ps == [] then Ok([])
    else
      var l := RunFactors(ps[0]);
      var rest := RunAllFactors(ps[1..]);
      if l.Err? then Err(l.error) else if rest.Err? then Err(rest.error) else Ok([l.value] + rest.value)
  }

  /** The same program run on the matrices themselves. */
  function RunDense(p: Program): (r: Outcome<Tensor>)
    decreases p
  {
    match p
    case Factors(a, b) =>
      if Built(LoraTensor(a, b)) then Ok(Dense(LoraTensor(a, b))) else Err(Raised("shapes do not match"))
    case StackOf(ps) =>
      var ts := RunAllDense(ps);
      if ts.Err? then Err(ts.error) else Stack(ts.value)
    case CatOf(ps) =>
      var ts := RunAllDense(ps);
      if ts.Err? then Err(ts.error) else Cat(ts.value)
    case _ =>
      var t := RunDense(p.p);
      if t.Err? then Err(t.error) else OperateDense(p, t.value)
  }

  function RunAllDense(ps: seq<Program>): (r: Outcome<seq<Tensor>>)
    decreases ps
  {
    if ps == [] then Ok([])
    else
      var t := RunDense(ps[0]);
      var rest := RunAllDense(ps[1..]);
      if t.Err? then Err(t.error) else if rest.Err? then Err(rest.error) else Ok([t.value] + rest.value)
  }

  /** The reshapes the method is right for. */
  predicate SafeReshape(l: LoraTensor, dims: seq<int>)
    requires Built(l)
  {
    |dims| >= 2 && ExpandShape(Shape(l), dims).Ok? ==> Reshapes(l, ExpandShape(Shape(l), dims).value)
  }

  /** What the methods leave unchecked: a reshape of factors of rank 0 must keep the number of elements, a subscript
      must not shorten a batch dimension of A that does not repeat, several parts of more than two dimensions
      concatenate only when every A spans the first one or all parts but one are empty, and a scale has
      no more dimensions than the tensor. Every other restriction is an error the methods raise themselves. */
  predicate Guard(p: Program, l: LoraTensor)
    requires Built(l)
  {
    match p
    case Reshaped(_, dims) => SafeReshape(l, dims)
    case First(_, ix) => SafeFirst(l, ix)
    case TupleAt(_, ixs) => SafeTuple(l, ixs)
    case Scaled(_, m) => |m.shape| <= Dims(l)
    case _ => true
  }

  predicate GuardCat(ls: seq<LoraTensor>)
  {
    ls != [] && Dims(ls[0]) > 2 ==>
      forall i :: 0 <= i < |ls| ==> ls[i].a.shape != [] && ls[i].b.shape != [] && ls[i].a.shape[0] == ls[i].b.shape[0]
  }

  /** The concatenations the method is right for. */
  predicate SafeCat(ls: seq<LoraTensor>)
  {
    GuardCat(ls) || exists k: nat :: k < |ls| && Alone(ls, k)
  }

  /** All other parts are empty. */
  predicate Alone(ls: seq<LoraTensor>, k: nat)
  {
    forall i :: 0 <= i < |ls| && i != k ==>
      ls[i].a.shape != [] && ls[i].b.shape != [] && ls[i].a.shape[0] == 0 && ls[i].b.shape[0] == 0
  }

  predicate Safe(p: Program)
    decreases p
  {
    match p
    case Factors(a, b) => WellFormed(LoraTensor(a, b))
    case StackOf(ps) => SafeAll(ps)
    case CatOf(ps) => SafeAll(ps) && (RunAllFactors(ps).Ok? ==> SafeCat(RunAllFactors(ps).value))
    case _ => Safe(p.p) && (RunFactors(p.p).Ok? ==> Guard(p, RunFactors(p.p).value))
  }

  predicate SafeAll(ps: seq<Program>)
    decreases ps
  {
    ps != [] ==> Safe(ps[0]) && SafeAll(ps[1..])
  }

  // ---------- the theorem ----------

  /** A reshape that succeeds is the reshape of the product exactly if it is safe. */
  lemma {:induction false} ReshapeExact(l: LoraTensor, dims: seq<int>)
    requires WellFormed(l)
    ensures ReshapeFactors(l, dims) != Err(Rejected)
    ensures ReshapeFactors(l, dims).Ok? ==>
      WellFormed(ReshapeFactors(l, dims).value) &&
      (ReshapeDenseBy(Dense(l), dims) == Ok(Dense(ReshapeFactors(l, dims).value)) <==> SafeReshape(l, dims))
  {
    hide Dense, ReshapeTo, Product, WellFormed;
    WellFormedBuilt(l);
    var shape := ExpandShape(Shape(l), dims);
    if |dims| >= 2 && shape.Ok? { ReshapeDense(l, shape.value); }
  }

  lemma {:induction false} PermuteCorrect(l: LoraTensor, dims: seq<int>)
    requires WellFormed(l)
    ensures PermuteFactors(l, dims) != Err(Rejected)
    ensures PermuteFactors(l, dims).Ok? ==>
      WellFormed(PermuteFactors(l, dims).value) &&
        PermuteDenseBy(Dense(l), dims) == Ok(Dense(PermuteFactors(l, dims).value))
  {
    hide Dense, PermuteTo, Product, WellFormed, Permute;
    WellFormedBuilt(l);
    var nd := NormalDims(dims, Dims(l));
    if dims != [] && nd.Some? { PermuteDense(l, nd.value); }
  }

  lemma {:induction false} TransposeCorrect(l: LoraTensor, d0: int, d1: int)
    requires WellFormed(l)
    ensures TransposeFactors(l, d0, d1) != Err(Rejected)
    ensures TransposeFactors(l, d0, d1).Ok? ==>
      WellFormed(TransposeFactors(l, d0, d1).value) &&
      TransposeDense(Dense(l), d0, d1) == Ok(Dense(TransposeFactors(l, d0, d1).value))
  {
    hide Dense, PermuteTo, Product, WellFormed, Permute;
    WellFormedBuilt(l);
    var nd := NormalDims([d0, d1], Dims(l));
    if nd.Some? { PermuteDense(l, Exchanged(Dims(l), nd.value[0], nd.value[1])); }
  }

  lemma {:induction false} ScaleCorrect(l: LoraTensor, m: Tensor)
    requires WellFormed(l) && |m.shape| <= Dims(l)
    ensures ScaleFactors(l, m) != Err(Rejected)
    ensures ScaleFactors(l, m).Ok? ==>
      WellFormed(ScaleFactors(l, m).value) && Multiply(Dense(l), m) == Ok(Dense(ScaleFactors(l, m).value))
  {
    hide Dense, Product, Multiplied;
    if (m.shape == [] || m.shape[|m.shape| - 1] == 1) && Multiply(l.b, m).Ok? { ScaleDense(l, m); }
  }

  lemma {:induction false} StackCorrect(ls: seq<LoraTensor>)
    requires AllWellFormed(ls)
    ensures StackFactors(ls) != Err(Rejected)
    ensures StackFactors(ls).Ok? ==>
      WellFormed(StackFactors(ls).value) && Stack(Denses(ls)) == Ok(Dense(StackFactors(ls).value))
  {
    hide Dense, Product, Stacked, SameShapes;
    if ls != [] && SameShapes(FactorsA(ls)) && SameShapes(FactorsB(ls)) { StackDense(ls); }
  }

  lemma {:induction false} CatCorrect(ls: seq<LoraTensor>)
    requires AllWellFormed(ls) && SafeCat(ls)
    ensures CatFactors(ls) != Err(Rejected)
    ensures CatFactors(ls).Ok? ==>
      WellFormed(CatFactors(ls).value) && Cat(Denses(ls)) == Ok(Dense(CatFactors(ls).value))
  {
    hide Dense, Product, Concatenated, SameRows, CatFactors, Cat, Alone;
    if GuardCat(ls) {
      CatMany(ls);
    } else {
      var k: nat :| k < |ls| && Alone(ls, k);
      CatAlone(ls, k);
    }
  }

  lemma {:induction false} CatMany(ls: seq<LoraTensor>)
    requires AllWellFormed(ls) && GuardCat(ls)
    ensures CatFactors(ls) != Err(Rejected)
    ensures CatFactors(ls).Ok? ==>
      WellFormed(CatFactors(ls).value) && Cat(Denses(ls)) == Ok(Dense(CatFactors(ls).value))
  {
    hide Dense, Product, Concatenated, SameRows;
    if ls != [] && SameRows(FactorsB(ls)) {
      if Dims(ls[0]) > 2 && SameRows(FactorsA(ls)) {
        CatDense(ls);
      } else if Dims(ls[0]) == 2 && SharedA(ls) {
        CatDense(ls);
      }
    }
  }

  /** Where all other parts are empty, the concatenation is the part that is left. */
  lemma {:induction false} CatAlone(ls: seq<LoraTensor>, k: nat)
    requires AllWellFormed(ls) && k < |ls| && Dims(ls[0]) > 2 && Alone(ls, k)
    ensures CatFactors(ls) != Err(Rejected)
    ensures CatFactors(ls).Ok? ==> CatFactors(ls) == Ok(ls[k]) && Cat(Denses(ls)) == Ok(Dense(ls[k]))
  {
    hide Product, Concatenated, Dense, SameRows;
    if SameRows(FactorsA(ls)) && SameRows(FactorsB(ls)) {
      hide Cat;
      CatLone(FactorsA(ls), k);
      CatLone(FactorsB(ls), k);
      SameDenseRows(ls);
      CatLone(Denses(ls), k);
    }
  }

  lemma {:induction false} SameDenseRows(ls: seq<LoraTensor>)
    requires AllWellFormed(ls) && ls != [] && Dims(ls[0]) > 2 && SameRows(FactorsA(ls)) && SameRows(FactorsB(ls))
    ensures SameRows(Denses(ls))
    ensures forall i :: 0 <= i < |ls| ==> ls[i].b.shape != [] && Denses(ls)[i].shape[0] == ls[i].b.shape[0]
  {
    hide Product, Dense;
    forall i | 0 <= i < |ls|
      ensures Denses(ls)[i].shape != [] && Denses(ls)[i].shape[0] == ls[i].b.shape[0]
      ensures Denses(ls)[i].shape[1..] == Denses(ls)[0].shape[1..]
    {
      assert FactorsA(ls)[i].shape[1..] == FactorsA(ls)[0].shape[1..];
      assert FactorsB(ls)[i].shape[1..] == FactorsB(ls)[0].shape[1..];
      DenseTail(ls[i]);
      DenseTail(ls[0]);
    }
  }

  lemma {:induction false} DenseTail(l: LoraTensor)
    requires Built(l) && Dims(l) > 2
    ensures var a, b, n := l.a.shape[1..], l.b.shape[1..], Dims(l) - 1;
            Dense(l).shape[0] == l.b.shape[0] && Dense(l).shape[1..] == b[..n - 1] + [a[n - 1]]
  {
  }

  lemma {:induction false} CatLone(ts: seq<Tensor>, k: nat)
    requires SameRows(ts) && k < |ts|
    requires forall i :: 0 <= i < |ts| && i != k ==> ts[i].shape[0] == 0
    ensures Cat(ts) == Ok(ts[k])
  {
    hide Product, Concatenated, At;
    RowsLone(ts, k);
    var r, t := Concatenated(ts), ts[k];
    assert r.shape == [t.shape[0]] + t.shape[1..] == t.shape;
    forall idx | In(idx, t.shape)
      ensures At(r, idx) == At(t, idx)
    {
      assert idx == [idx[0]] + idx[1..];
      assert In(idx[1..], t.shape[1..]);
      ConcatenatedAt(ts, idx[0], idx[1..]);
      CatAtLone(ts, k, idx[0], idx[1..]);
    }
    Extensional(r, t);
  }

  lemma {:induction false} RowsLone(ts: seq<Tensor>, k: nat)
    requires SameRows(ts) && k < |ts|
    requires forall i :: 0 <= i < |ts| && i != k ==> ts[i].shape[0] == 0
    ensures Rows(ts) == ts[k].shape[0]
    decreases |ts|
  {
    if k > 0 { RowsLone(ts[1..], k - 1); } else { RowsNone(ts[1..]); }
  }

  lemma {:induction false} RowsNone(ts: seq<Tensor>)
    requires SameRows(ts) && forall i :: 0 <= i < |ts| ==> ts[i].shape[0] == 0
    ensures Rows(ts) == 0
    decreases |ts|
  {
    if ts != [] { RowsNone(ts[1..]); }
  }

  lemma {:induction false} CatAtLone(ts: seq<Tensor>, k: nat, x: nat, rest: seq<nat>)
    requires SameRows(ts) && k < |ts| && x < ts[k].shape[0]
    requires forall i :: 0 <= i < |ts| && i != k ==> ts[i].shape[0] == 0
    ensures CatAt(ts, x, rest) == At(ts[k], [x] + rest)
    decreases |ts|
  {
    hide At;
    if k > 0 { CatAtLone(ts[1..], k - 1, x, rest); }
  }

  lemma {:induction false} OperateCorrect(p: Program, l: LoraTensor)
    requires WellFormed(l) && !p.Factors? && !p.StackOf? && !p.CatOf? && Guard(p, l)
    ensures Operate(p, l) != Err(Rejected)
    ensures Operate(p, l).Ok? ==>
      WellFormed(Operate(p, l).value) && OperateDense(p, Dense(l)) == Ok(Dense(Operate(p, l).value))
  {
    hide Dense, Product, WellFormed, ReshapeFactors, PermuteFactors, TransposeFactors, SplitFactors, FirstFactors,
      TupleFactors, ScaleFactors, ReshapeDenseBy, PermuteDenseBy, TransposeDense, SplitDense, FirstDense, TupleDense,
        Multiply;
    match p
    case Reshaped(_, dims) => ReshapeExact(l, dims);
    case PermutedBy(_, dims) => PermuteCorrect(l, dims);
    case Transposed(_, d0, d1) => TransposeCorrect(l, d0, d1);
    case PartOf(_, sizes, dim, part) => SplitCorrect(l, sizes, dim, part);
    case First(_, ix) => FirstCorrect(l, ix);
    case TupleAt(_, ixs) => TupleCorrect(l, ixs);
    case Scaled(_, m) => ScaleCorrect(l, m);
  }

  /** The factors of any program stand for the matrix the program computes: for every safe program that runs on
      factors, the program also runs on matrices and gives exactly the product of the resulting factors. */
  lemma {:induction false} ProgramCorrect(p: Program)
    requires Safe(p)
    ensures RunFactors(p) != Err(Rejected)
    ensures RunFactors(p).Ok? ==> WellFormed(RunFactors(p).value) && RunDense(p) == Ok(Dense(RunFactors(p).value))
    decreases p
  {
    hide Dense, Product, Operate, OperateDense, Guard, StackFactors, CatFactors, Stack, Cat, WellFormed, Make, SafeCat;
    match p
    case Factors(a, b) => MakeWellFormed(a, b);
    case StackOf(ps) =>
      ProgramsCorrect(ps);
      if RunAllFactors(ps).Ok? { StackCorrect(RunAllFactors(ps).value); }
    case CatOf(ps) =>
      ProgramsCorrect(ps);
      if RunAllFactors(ps).Ok? { CatCorrect(RunAllFactors(ps).value); }
    case _ =>
      ProgramCorrect(p.p);
      if RunFactors(p.p).Ok? { OperateCorrect(p, RunFactors(p.p).value); }
  }

  /** The `shape` property of the result is the shape of the matrix the program computes. */
  lemma {:induction false} ReportedShape(p: Program)
    requires Safe(p) && RunFactors(p).Ok?
    ensures RunDense(p).Ok? && RunDense(p).value.shape == Shape(RunFactors(p).value)
  {
    hide Dense, RunDense, RunFactors, Safe;
    ProgramCorrect(p);
    DenseShape(RunFactors(p).value);
  }

  lemma {:induction false} MakeWellFormed(a: Tensor, b: Tensor)
    requires WellFormed(LoraTensor(a, b))
    ensures Built(LoraTensor(a, b)) && Make(a, b) == Ok(LoraTensor(a, b))
  {
  }

  lemma {:induction false} ProgramsCorrect(ps: seq<Program>)
    requires SafeAll(ps)
    ensures RunAllFactors(ps) != Err(Rejected)
    ensures RunAllFactors(ps).Ok? ==>
      AllWellFormed(RunAllFactors(ps).value) && RunAllDense(ps) == Ok(Denses(RunAllFactors(ps).value))
    decreases ps
  {
    if ps != [] {
      ProgramCorrect(ps[0]);
      ProgramsCorrect(ps[1..]);
      if RunAllFactors(ps).Ok? { DensesCons(RunFactors(ps[0]).value, RunAllFactors(ps[1..]).value); }
    }
  }

  lemma {:induction false} DensesCons(l: LoraTensor, ls: seq<LoraTensor>)
    requires WellFormed(l) && AllWellFormed(ls)
    ensures AllWellFormed([l] + ls) && Denses([l] + ls) == [Dense(l)] + Denses(ls)
  {
    hide Dense, Product;
    assert AllWellFormed([l] + ls);
    assert Denses([l] + ls)[0] == Dense(l);
  }

  // ---------- where the methods stop short ----------

  function Alls(n: nat): (s: seq<Ix>) { seq(n, _ => ALL) }

  /** The tuple with an ellipsis between `xs` and `ys`. */
  function AroundEllipsis(xs: seq<Ix>, ys: seq<Ix>): (ixs: seq<Ix>) { xs + [Ellipsis] + ys }

  /** An ellipsis that is not the last entry is expanded as torch does exactly when the other entries cover half the
      dimensions, or fewer and those after the ellipsis are full slices. When they cover more than half, the method's
      own expansion has more entries than there are dimensions. */
  lemma {:induction false} EllipsisExact(xs: seq<Ix>, ys: seq<Ix>, n: nat)
    requires Ellipsis !in xs && Ellipsis !in ys && ys != [] && |xs| + |ys| <= n
    ensures var m, es := |xs| + |ys|, ExpandTuple(AroundEllipsis(xs, ys), n);
            es.Ok? && (2 * m > n ==> |es.value| == 2 * m) &&
            (es.value == TorchExpand(AroundEllipsis(xs, ys), n) <==>
             n == 2 * m || (2 * m < n && forall i :: 0 <= i < |ys| ==> ys[i] == ALL))
  {
    hide ExpandTuple, TorchExpand;
    var m := |xs| + |ys|;
    Expansions(xs, ys, n);
    if 2 * m <= n {
      var d := n - 2 * m;
      var code, torch := Alls(m) + ys + Alls(d), Alls(m + d) + ys;
      assert xs + Alls(m) + ys + Alls(d) == xs + code && xs + Alls(m + d) + ys == xs + torch;
      PrefixEqual(xs, code, torch);
      if code == torch && d > 0 {
        forall i | 0 <= i < |ys|
          ensures ys[i] == ALL
        {
          ShiftedAll(ys, m, d, code, torch, i);
        }
      }
    }
  }

  lemma {:induction false} PrefixEqual(xs: seq<Ix>, a: seq<Ix>, b: seq<Ix>)
    ensures xs + a == xs + b <==> a == b
  {
    assert (xs + a)[|xs|..] == a && (xs + b)[|xs|..] == b;
  }

  lemma {:induction false} Expansions(xs: seq<Ix>, ys: seq<Ix>, n: nat)
    requires Ellipsis !in xs && Ellipsis !in ys && ys != [] && |xs| + |ys| <= n
    ensures var m, ixs := |xs| + |ys|, AroundEllipsis(xs, ys);
            ExpandTuple(ixs, n) == Ok(xs + Alls(m) + ys + Alls(if 2 * m < n then n - 2 * m else 0)) &&
            TorchExpand(ixs, n) == xs + Alls(n - m) + ys
  {
    hide ExpandTuple, ReplaceEllipsis, Ellipses, AroundEllipsis;
    var m, ixs := |xs| + |ys|, AroundEllipsis(xs, ys);
    AroundReplaced(xs, ys, m);
    AroundReplaced(xs, ys, n - m);
    OneEllipsis(xs, ys);
    AroundLength(xs, ys);
    ExpandsInside(ixs, n);
  }

  lemma {:induction false} AroundLength(xs: seq<Ix>, ys: seq<Ix>)
    requires Ellipsis !in ys && ys != []
    ensures var ixs := AroundEllipsis(xs, ys);
            |ixs| == |xs| + |ys| + 1 && ixs[|ixs| - 1] != Ellipsis
  {
    var ixs := AroundEllipsis(xs, ys);
    assert ixs[|ixs| - 1] == ys[|ys| - 1] && ys[|ys| - 1] in ys;
  }

  lemma {:induction false} ExpandsInside(ixs: seq<Ix>, n: nat)
    requires ixs != [] && ixs[|ixs| - 1] != Ellipsis
    ensures var es := ReplaceEllipsis(ixs, |ixs| - 1);
            ExpandTuple(ixs, n) == Ok(es + Alls(if |es| < n then n - |es| else 0))
  {
    hide ReplaceEllipsis;
  }

  lemma {:induction false} AroundReplaced(xs: seq<Ix>, ys: seq<Ix>, count: nat)
    requires Ellipsis !in xs && Ellipsis !in ys
    ensures ReplaceEllipsis(AroundEllipsis(xs, ys), count) == xs + Alls(count) + ys
    decreases |xs|
  {
    hide ReplaceEllipsis, Alls;
    if xs == [] {
      assert AroundEllipsis(xs, ys) == [Ellipsis] + ys;
      ReplaceFirst(Ellipsis, ys, count);
      NoEllipsis(ys, count);
    } else {
      var x, rest := xs[0], xs[1..];
      assert x in xs && forall y :: y in rest ==> y in xs;
      assert AroundEllipsis(xs, ys) == [x] + AroundEllipsis(rest, ys);
      ReplaceFirst(x, AroundEllipsis(rest, ys), count);
      AroundReplaced(rest, ys, count);
      assert [x] + (rest + Alls(count) + ys) == ([x] + rest) + Alls(count) + ys;
    }
  }

  lemma {:induction false} ReplaceFirst(x: Ix, rest: seq<Ix>, count: nat)
    ensures ReplaceEllipsis([x] + rest, count) ==
            (if x == Ellipsis then Alls(count) else [x]) + ReplaceEllipsis(rest, count)
  {
    assert ([x] + rest)[1..] == rest;
  }

  lemma {:induction false} OneEllipsis(xs: seq<Ix>, ys: seq<Ix>)
    requires Ellipsis !in xs && Ellipsis !in ys
    ensures Ellipses(AroundEllipsis(xs, ys)) == 1
    decreases |xs|
  {
    var ixs := AroundEllipsis(xs, ys);
    if xs == [] {
      assert ixs[1..] == ys;
      NoEllipsis(ys, 0);
    } else {
      assert xs[0] in xs && forall x :: x in xs[1..] ==> x in xs;
      assert ixs[1..] == AroundEllipsis(xs[1..], ys);
      OneEllipsis(xs[1..], ys);
    }
  }

  lemma {:induction false} NoEllipsis(xs: seq<Ix>, count: nat)
    requires Ellipsis !in xs
    ensures ReplaceEllipsis(xs, count) == xs && Ellipses(xs) == 0
  {
    if xs != [] {
      assert xs[0] in xs && forall x :: x in xs[1..] ==> x in xs;
      NoEllipsis(xs[1..], count);
    }
  }

  lemma {:induction false} ShiftedAll(ys: seq<Ix>, m: nat, d: nat, code: seq<Ix>, torch: seq<Ix>, i: nat)
    requires d > 0 && i < |ys| && code == torch
    requires code == Alls(m) + ys + Alls(d) && torch == Alls(m + d) + ys
    ensures ys[i] == ALL
    decreases i
  {
    assert code[m + i] == ys[i];
    if i >= d {
      assert torch[m + i] == ys[i - d];
      ShiftedAll(ys, m, d, code, torch, i - d);
    }
  }

  /** An ellipsis at the end is expanded as torch does, unless it stands alone: then an assertion fails. */
  lemma {:induction false} TrailingEllipsis(xs: seq<Ix>, n: nat)
    requires Ellipsis !in xs && |xs| <= n
    ensures var es := ExpandTuple(AroundEllipsis(xs, []), n);
            if xs == [] then es.Err? else es == Ok(TorchExpand(AroundEllipsis(xs, []), n))
  {
    var ixs := AroundEllipsis(xs, []);
    assert ixs[|ixs| - 1] == Ellipsis && ixs[..|ixs| - 1] == xs;
    assert ExpandTuple(ixs, n) == ExpandTuple(xs, n);
    AroundReplaced(xs, [], n - |xs|);
    OneEllipsis(xs, []);
    if xs != [] {
      assert xs[|xs| - 1] in xs;
      NoEllipsis(xs, |xs| - 1);
      assert ExpandTuple(xs, n) == Ok(xs + Alls(n - |xs|));
      assert xs + Alls(n - |xs|) + [] == xs + Alls(n - |xs|);
    }
  }

  lemma {:induction false} TotalBelow(a: seq<nat>, b: seq<nat>)
    requires |a| == |b| && forall i :: 0 <= i < |a| ==> a[i] <= b[i]
    ensures Total(a) <= Total(b)
    ensures Total(a) == Total(b) ==> a == b
  {
    if a != [] {
      TotalBelow(a[1..], b[1..]);
      assert a == [a[0]] + a[1..] && b == [b[0]] + b[1..];
    }
  }

  lemma {:induction false} TotalNone(a: seq<nat>)
    requires Total(a) == 0
    ensures forall i :: 0 <= i < |a| ==> a[i] == 0
  {
    if a != [] {
      TotalNone(a[1..]);
      assert forall i :: 1 <= i < |a| ==> a[i] == a[1..][i - 1];
    }
  }

  /** Numbers that add up to one. */
  lemma {:induction false} TotalOne(a: seq<nat>) returns (k: nat)
    requires Total(a) == 1
    ensures k < |a| && forall i :: 0 <= i < |a| && i != k ==> a[i] == 0
  {
    if a[0] == 1 {
      TotalNone(a[1..]);
      k := 0;
    } else {
      var j := TotalOne(a[1..]);
      k := j + 1;
    }
    assert forall i :: 1 <= i < |a| ==> a[i] == a[1..][i - 1];
  }

  /** The lengths of the first dimensions of the factors. */
  function FirstsA(ls: seq<LoraTensor>): (s: seq<nat>)
    ensures |s| == |ls|
  {
    seq(|ls|, i requires 0 <= i < |ls| => if ls[i].a.shape == [] then 0 else ls[i].a.shape[0])
  }

  function FirstsB(ls: seq<LoraTensor>): (s: seq<nat>)
    ensures |s| == |ls|
  {
    seq(|ls|, i requires 0 <= i < |ls| => if ls[i].b.shape == [] then 0 else ls[i].b.shape[0])
  }

  /** Concatenating three or more dimensions gives factors that multiply to the reported shape exactly when it is safe
      or the A's together happen to be as long as the B's, which takes an empty part: every A as long as its B, or all
      parts empty but one, is safe. `cat` raises no error otherwise. */
  lemma {:induction false} CatExact(ls: seq<LoraTensor>)
    requires ls != [] && AllWellFormed(ls) && Dims(ls[0]) > 2 && CatFactors(ls).Ok?
    ensures WellFormed(CatFactors(ls).value) <==> SafeCat(ls) || Total(FirstsA(ls)) == Total(FirstsB(ls))
    ensures (forall i :: 0 <= i < |ls| ==> FirstsB(ls)[i] > 0) ==>
      (WellFormed(CatFactors(ls).value) <==> SafeCat(ls))
  {
    hide Dense, Product, Concatenated, CatFactors, WellFormed, SameRows, Total, Alone;
    CatSums(ls);
    CatDims(ls);
    if SafeCat(ls) {
      CatCorrect(ls);
    } else if WellFormed(CatFactors(ls).value) {
      CatLengths(ls);
    }
  }

  /** The shapes alone: the first dimensions add up. */
  lemma {:induction false} CatSums(ls: seq<LoraTensor>)
    requires ls != [] && AllWellFormed(ls) && Dims(ls[0]) > 2 && CatFactors(ls).Ok?
    ensures WellFormed(CatFactors(ls).value) <==>
            Total(FirstsA(ls)) == 1 || Total(FirstsA(ls)) == Total(FirstsB(ls))
  {
    hide Product, Concatenated, Total;
    var l := CatFactors(ls).value;
    RowsTotal(FactorsA(ls));
    RowsTotal(FactorsB(ls));
    assert LoraJoins.Sizes(FactorsA(ls)) == FirstsA(ls) && LoraJoins.Sizes(FactorsB(ls)) == FirstsB(ls);
    FirstDiffers(ls[0], l, Total(FirstsA(ls)), Total(FirstsB(ls)));
  }

  lemma {:induction false} FirstDiffers(z: LoraTensor, l: LoraTensor, x: nat, y: nat)
    requires WellFormed(z) && Dims(z) > 2 && Built(l)
    requires l.a.shape == [x] + z.a.shape[1..] && l.b.shape == [y] + z.b.shape[1..]
    ensures WellFormed(l) <==> x == 1 || x == y
  {
    hide Product;
    assert l.a.shape[0] == x && l.b.shape[0] == y;
    assert forall d :: 1 <= d < Dims(z) ==> l.a.shape[d] == z.a.shape[d] && l.b.shape[d] == z.b.shape[d];
  }

  lemma {:induction false} CatDims(ls: seq<LoraTensor>)
    requires ls != [] && AllWellFormed(ls) && Dims(ls[0]) > 2 && CatFactors(ls).Ok?
    ensures forall i :: 0 <= i < |ls| ==> Dims(ls[i]) > 2
  {
    hide Product, Concatenated;
    forall i | 0 <= i < |ls|
      ensures Dims(ls[i]) > 2
    {
      assert FactorsA(ls)[i].shape[1..] == FactorsA(ls)[0].shape[1..];
    }
  }

  lemma {:induction false} CatLengths(ls: seq<LoraTensor>)
    requires ls != [] && AllWellFormed(ls) && Dims(ls[0]) > 2 && !SafeCat(ls)
    requires forall i :: 0 <= i < |ls| ==> Dims(ls[i]) > 2
    requires Total(FirstsA(ls)) == 1 || Total(FirstsA(ls)) == Total(FirstsB(ls))
    ensures Total(FirstsA(ls)) == Total(FirstsB(ls)) && exists i :: 0 <= i < |ls| && FirstsB(ls)[i] == 0
  {
    hide Product, Total, SafeCat, WellFormed;
    var sa, sb := FirstsA(ls), FirstsB(ls);
    forall i | 0 <= i < |ls|
      ensures sa[i] == 1 || sa[i] == sb[i]
      ensures ls[i].a.shape != [] && ls[i].b.shape != [] && sa[i] == ls[i].a.shape[0] && sb[i] == ls[i].b.shape[0]
    {
      FirstFits(ls[i]);
    }
    if Total(sa) == 1 {
      var k := TotalOne(sa);
      forall i | 0 <= i < |ls| && i != k
        ensures ls[i].a.shape[0] == 0 && ls[i].b.shape[0] == 0
      {
        assert sa[i] == 0;
      }
      IsSafe(ls, k);
      assert false;
    } else if forall i :: 0 <= i < |ls| ==> sb[i] > 0 {
      forall i | 0 <= i < |sa|
        ensures sa[i] <= sb[i]
      {
      }
      TotalBelow(sa, sb);
      AllSpan(ls);
      assert false;
    }
  }

  lemma {:induction false} FirstFits(l: LoraTensor)
    requires WellFormed(l) && Dims(l) > 2
    ensures l.a.shape != [] && l.b.shape != [] && (l.a.shape[0] == 1 || l.a.shape[0] == l.b.shape[0])
  {
  }

  lemma {:induction false} IsSafe(ls: seq<LoraTensor>, k: nat)
    requires k < |ls| && Alone(ls, k)
    ensures SafeCat(ls)
  {
  }

  lemma {:induction false} AllSpan(ls: seq<LoraTensor>)
    requires FirstsA(ls) == FirstsB(ls)
    requires forall i :: 0 <= i < |ls| ==> ls[i].a.shape != [] && ls[i].b.shape != []
    ensures SafeCat(ls)
  {
    forall i | 0 <= i < |ls|
      ensures ls[i].a.shape[0] == ls[i].b.shape[0]
    {
      assert FirstsA(ls)[i] == FirstsB(ls)[i];
    }
    assert GuardCat(ls);
  }
}
