/**
  Low-rank adapters. A pair (A, B) stands for the product B·A and is pushed through the same
  shape operations as an ordinary weight. Every operation here mirrors the pair's code; the
  theorems relate it to the dense operation on the product.
 */
module Lora {
  import opened Wrappers
  import opened Tensors

  datatype LoraTensor = LoraTensor(a: Tensor<real>, b: Tensor<real>)

  // ---------------------------------------------------------------- the pair

  ghost predicate Constructed(l: LoraTensor) {
    && l.a.Valid() && l.b.Valid()
    && |l.a.shape| == |l.b.shape| >= 2
    && l.a.shape[|l.a.shape| - 2] == Last(l.b.shape)
  }

  /** The constructor's assertions: equal ranks of at least two, and one shared inner extent. */
  function MakeLora(a: Tensor<real>, b: Tensor<real>): (r: Result<LoraTensor, TensorError>)
    requires a.Valid() && b.Valid()
    ensures r.Ok? ==> r.value == LoraTensor(a, b) && Constructed(r.value)
  {
    if |a.shape| != |b.shape| then Err(AssertionFailed)
    else if |a.shape| < 2 then Err(BadIndex)
    else if a.shape[|a.shape| - 2] != Last(b.shape) then Err(AssertionFailed)
    else Ok(LoraTensor(a, b))
  }

  function Rank(l: LoraTensor): nat
    requires l.b.shape != []
  {
    Last(l.b.shape)
  }

  function Shape(l: LoraTensor): seq<nat>
    requires l.a.shape != [] && l.b.shape != []
  {
    Front(l.b.shape) + [Last(l.a.shape)]
  }

  function ALead(l: LoraTensor): seq<nat>
    requires |l.a.shape| >= 2
  {
    Front(Front(l.a.shape))
  }

  /** A broadcasts over B's batch axes: each is 1 or equal to B's. */
  ghost predicate WellFormed(l: LoraTensor) {
    && Constructed(l)
    && forall i :: 0 <= i < |ALead(l)| ==> ALead(l)[i] == 1 || ALead(l)[i] == l.b.shape[i]
  }

  predicate AllOnes(s: seq<nat>) {
    forall i :: 0 <= i < |s| ==> s[i] == 1
  }

  /** The pairs on which reshape and permute are defined: A is not batched. */
  ghost predicate Unbatched(l: LoraTensor) {
    Constructed(l) && AllOnes(ALead(l))
  }

  // ---------------------------------------------------------------- the product

  function Dot(u: seq<real>, v: seq<real>): real
    requires |u| == |v|
  {
    if u == [] then 0.0 else Dot(Front(u), Front(v)) + Last(u) * Last(v)
  }

  /** Where A is read for a batch index of B. */
  function Broadcast(lead: seq<nat>, batch: seq<nat>): (r: seq<nat>)
    requires |lead| == |batch|
    ensures |r| == |lead|
  {
    seq(|lead|, i requires 0 <= i < |lead| => if lead[i] == 1 then 0 else batch[i])
  }

  /** The last-axis fibre of t at `row`. */
  function RowAt(t: Tensor<real>, row: seq<nat>): (r: seq<real>)
    requires t.Valid() && t.shape != [] && InShape(Front(t.shape), row)
    ensures |r| == Last(t.shape)
  {
    seq(Last(t.shape), q requires 0 <= q < Last(t.shape) => At(t, row + [q]))
  }

  /** The second-to-last-axis fibre of t at `batch` and column c. */
  function ColumnAt(t: Tensor<real>, batch: seq<nat>, c: nat): (r: seq<real>)
    requires t.Valid() && |t.shape| >= 2 && InShape(Front(Front(t.shape)), batch) && c < Last(t.shape)
    ensures |r| == Last(Front(t.shape))
  {
    seq(Last(Front(t.shape)), q requires 0 <= q < Last(Front(t.shape)) => At(t, batch + [q, c]))
  }

  lemma BroadcastInShape(l: LoraTensor, idx: seq<nat>)
    requires WellFormed(l) && InShape(Shape(l), idx)
    ensures InShape(Front(l.b.shape), Front(idx))
    ensures InShape(ALead(l), Broadcast(ALead(l), Front(Front(idx))))
  {
    assert Front(Shape(l)) == Front(l.b.shape);
    assert forall i :: 0 <= i < |idx| - 2 ==> Front(Front(idx))[i] == idx[i] < Shape(l)[i] == l.b.shape[i];
  }

  ghost function ProductAt(l: LoraTensor, idx: seq<nat>): real
    requires WellFormed(l) && InShape(Shape(l), idx)
  {
    BroadcastInShape(l, idx);
    Dot(RowAt(l.b, Front(idx)), ColumnAt(l.a, Broadcast(ALead(l), Front(Front(idx))), Last(idx)))
  }

  /** B·A with A broadcast over the batch axes. */
  ghost function Product(l: LoraTensor): (t: Tensor<real>)
    requires WellFormed(l)
    ensures t.Valid() && t.shape == Shape(l)
  {
    Tensor(Shape(l), seq(Prod(Shape(l)), k requires 0 <= k < Prod(Shape(l)) => ProductAt(l, Unflat(Shape(l), k))))
  }

  function RowOf(t: Tensor<real>, p: nat): (r: seq<real>)
    requires t.Valid() && t.shape != [] && p < Rows(t)
    ensures |r| == Width(t)
  {
    seq(Width(t), q requires 0 <= q < Width(t) => Cell(t, p, q))
  }

  function ColumnOf(t: Tensor<real>, c: nat): (r: seq<real>)
    requires t.Valid() && t.shape != [] && c < Width(t)
    ensures |r| == Rows(t)
  {
    seq(Rows(t), q requires 0 <= q < Rows(t) => Cell(t, q, c))
  }

  lemma {:induction false} OnesProd(s: seq<nat>)
    requires AllOnes(s)
    ensures Prod(s) == 1
  {
    if s != [] {
      OnesProd(Front(s));
    }
  }

  lemma UnbatchedRows(l: LoraTensor)
    requires Unbatched(l)
    ensures WellFormed(l) && Rows(l.a) == Rank(l) && Width(l.b) == Rank(l)
  {
    var s := Front(l.a.shape);
    assert s == ALead(l) + [Rank(l)];
    OnesProd(ALead(l));
  }

  lemma RowAtIsRow(t: Tensor<real>, row: seq<nat>)
    requires t.Valid() && t.shape != [] && InShape(Front(t.shape), row)
    ensures Flat(Front(t.shape), row) < Rows(t) && RowAt(t, row) == RowOf(t, Flat(Front(t.shape), row))
  {
    hide Prod, Flat, Unflat, Cell, At;
    FlatBound(Front(t.shape), row);
    forall q: nat | q < Width(t)
      ensures InShape(t.shape, row + [q]) && At(t, row + [q]) == Cell(t, Flat(Front(t.shape), row), q)
    {
      assert Front(row + [q]) == row;
      CellIsAt(t, row, q);
    }
  }

  lemma ColumnAtIsColumn(l: LoraTensor, batch: seq<nat>, c: nat)
    requires Unbatched(l) && |batch| == |ALead(l)| && (forall i :: 0 <= i < |batch| ==> batch[i] == 0) && c < Width(l.a)
    ensures InShape(ALead(l), batch) && ColumnAt(l.a, batch, c) == ColumnOf(l.a, c)
  {
    hide Prod, Flat, Unflat, Cell, At;
    UnbatchedRows(l);
    forall q: nat | q < Rank(l)
      ensures InShape(l.a.shape, batch + [q, c]) && At(l.a, batch + [q, c]) == Cell(l.a, q, c)
    {
      assert batch + [q, c] == batch + [q] + [c];
      BatchRow(l, batch, q);
      CellIsAt(l.a, batch + [q], c);
    }
  }

  /** On an unbatched pair the product is the plain matrix product of B's rows with A's columns. */
  lemma ProductCell(l: LoraTensor, p: nat, c: nat)
    requires Unbatched(l) && p < Rows(l.b) && c < Width(l.a)
    ensures WellFormed(l) && Rows(l.a) == Rank(l)
    ensures Rows(Product(l)) == Rows(l.b) && Width(Product(l)) == Width(l.a)
    ensures Cell(Product(l), p, c) == Dot(RowOf(l.b, p), ColumnOf(l.a, c))
  {
    hide Prod, Flat, Unflat, RowAt, ColumnAt, RowOf, ColumnOf;
    UnbatchedRows(l);
    var shape := Shape(l);
    assert Front(shape) == Front(l.b.shape);
    UnflatRow(shape, p, c);
    var row := Unflat(Front(shape), p);
    var idx := row + [c];
    assert Front(idx) == row;
    BroadcastInShape(l, idx);
    RowAtIsRow(l.b, row);
    ColumnAtIsColumn(l, Broadcast(ALead(l), Front(row)), c);
  }

  lemma BatchRow(l: LoraTensor, batch: seq<nat>, q: nat)
    requires Unbatched(l) && |batch| == |ALead(l)| && q < Rank(l)
    requires forall i :: 0 <= i < |batch| ==> batch[i] == 0
    ensures InShape(Front(l.a.shape), batch + [q]) && Flat(Front(l.a.shape), batch + [q]) == q
  {
    var s := Front(l.a.shape);
    assert Front(batch + [q]) == batch;
    ZeroFlat(ALead(l), batch);
  }

  lemma {:induction false} ZeroFlat(shape: seq<nat>, idx: seq<nat>)
    requires |shape| == |idx| && forall i :: 0 <= i < |idx| ==> idx[i] == 0
    ensures Flat(shape, idx) == 0
  {
    if shape != [] {
      ZeroFlat(Front(shape), Front(idx));
    }
  }

  // ---------------------------------------------------------------- operations on the pair

  function Ones(n: nat): seq<int> {
    seq(n, i => 1)
  }

  function LoraReshape(l: LoraTensor, dims: seq<int>): (r: Result<LoraTensor, TensorError>)
    requires Constructed(l)
    ensures r.Ok? ==> Constructed(r.value)
  {
    if |dims| < 2 then Err(NotImplemented)
    else
      var shape :- ExpandShape(Prod(Shape(l)), dims);
      if Last(shape) != Last(Shape(l)) then Err(NotImplemented)
      else
        var a :- Reshape(l.a, Ones(|dims| - 2) + [Rank(l), Last(Shape(l))]);
        var b :- Reshape(l.b, Front(shape) + [Rank(l)]);
        MakeLora(a, b)
  }

  function NegativeDims(dims: seq<int>, rank: nat): (r: seq<int>)
    ensures |r| == |dims|
  {
    seq(|dims|, i requires 0 <= i < |dims| => if dims[i] >= 0 then dims[i] - rank else dims[i])
  }

  function LoraPermute(l: LoraTensor, dims: seq<int>): (r: Result<LoraTensor, TensorError>)
    requires Constructed(l)
    ensures r.Ok? ==> Constructed(r.value)
  {
    var rank := |Shape(l)|;
    var neg := NegativeDims(dims, rank);
    if neg == [] then Err(BadIndex)
    else if Last(neg) == -1 then
      if !AllOnes(ALead(l)) then Err(AssertionFailed)
      else
        var b :- Permute(l.b, neg);
        MakeLora(l.a, b)
    else if rank == 2 && |neg| >= 2 && Last(neg) == -2 && neg[|neg| - 2] == -1 then
      var a :- Permute(l.b, neg);
      var b :- Permute(l.a, neg);
      MakeLora(a, b)
    else
      Err(NotImplemented)
  }

  function LoraTranspose(l: LoraTensor, d0: int, d1: int): (r: Result<LoraTensor, TensorError>)
    requires Constructed(l)
    ensures r.Ok? ==> Constructed(r.value)
  {
    var dims :- SwapDims(|Shape(l)|, d0, d1);
    LoraPermute(l, dims)
  }

  /** The pair's own reading of an index tuple: each inner ellipsis becomes |items| - 1 slices. */
  function LoraExpand(items: seq<Item>, rank: nat): Result<seq<Item>, TensorError> {
    if items == [] then Err(AssertionFailed)
    else if Last(items).Ellipsis? then LoraExpand(Front(items), rank)
    else
      var spliced := SpliceEllipsis(items, |items| - 1);
      Ok(spliced + Fulls(if |spliced| < rank then rank - |spliced| else 0))
  }

  /** What A's batch axes are indexed with: integers wrapped by A's extent, slices dropped. */
  function LeadItems(items: seq<Item>, lead: seq<nat>): (r: Result<seq<Item>, TensorError>)
    requires |items| == |lead|
    ensures r.Ok? ==> |r.value| == |items|
  {
    if items == [] then Ok([])
    else
      var front :- LeadItems(Front(items), Front(lead));
      match Last(items)
      case Int(i) => if Last(lead) == 0 then Err(BadIndex) else Ok(front + [Int(i % Last(lead))])
      case _ => Ok(front + [FULL])
  }

  function LoraIndex(l: LoraTensor, items: seq<Item>): (r: Result<LoraTensor, TensorError>)
    requires Constructed(l)
    ensures r.Ok? ==> Constructed(r.value)
  {
    var rank := |Shape(l)|;
    var e :- LoraExpand(items, rank);
    if |e| != rank then Err(BadIndex)
    else
      var lead :- LeadItems(e[..rank - 2], ALead(l));
      var a :- Index(l.a, lead + [FULL, Last(e)]);
      var b :- Index(l.b, Front(e) + [FULL]);
      MakeLora(a, b)
  }

  // ---------------------------------------------------------------- homomorphism, one step

  datatype Op =
    | ReshapeTo(dims: seq<int>)
    | PermuteTo(dims: seq<int>)
    | SwapAxes(d0: int, d1: int)
    | IndexBy(items: seq<Item>)

  function LoraStep(l: LoraTensor, op: Op): (r: Result<LoraTensor, TensorError>)
    requires Constructed(l)
    ensures r.Ok? ==> Constructed(r.value)
  {
    match op
    case ReshapeTo(dims) => LoraReshape(l, dims)
    case PermuteTo(dims) => LoraPermute(l, dims)
    case SwapAxes(d0, d1) => LoraTranspose(l, d0, d1)
    case IndexBy(items) => LoraIndex(l, items)
  }

  function DenseIndex(t: Tensor<real>, items: seq<Item>): (r: Result<Tensor<real>, TensorError>)
    requires t.Valid()
    ensures r.Ok? ==> r.value.Valid()
  {
    var e :- DenseExpand(items, |t.shape|);
    Index(t, e)
  }

  function DenseStep(t: Tensor<real>, op: Op): (r: Result<Tensor<real>, TensorError>)
    requires t.Valid()
    ensures r.Ok? ==> r.value.Valid()
  {
    match op
    case ReshapeTo(dims) => Reshape(t, dims)
    case PermuteTo(dims) => Permute(t, dims)
    case SwapAxes(d0, d1) => Transpose(t, d0, d1)
    case IndexBy(items) => DenseIndex(t, items)
  }

  /** What an expanded index tuple selects of a shape. */
  function Chosen(e: Result<seq<Item>, TensorError>, shape: seq<nat>): (r: Result<seq<Selector>, TensorError>)
    ensures r.Ok? ==> e.Ok? && SelectorsFit(r.value, shape)
  {
    var items :- e;
    if |items| != |shape| then Err(BadIndex)
    else if CountLists(items) > 1 then Err(NotImplemented)
    else ResolveAll(items, shape)
  }

  /** Two selections read the same positions of every tensor of a shape. */
  predicate SameSelection(s: seq<Selector>, t: seq<Selector>, shape: seq<nat>)
    requires SelectorsFit(s, shape) && SelectorsFit(t, shape)
  {
    && SelectedShape(s) == SelectedShape(t)
    && forall k: nat | k < Prod(SelectedShape(s)) :: SelectSource(shape, s, k) == SelectSource(shape, t, k)
  }

  /** The pair's reading of an index tuple and the dense one come to the same, with no integer on the last axis. */
  predicate ReadsAlike(items: seq<Item>, shape: seq<nat>) {
    var e := LoraExpand(items, |shape|);
    var pair, dense := Chosen(e, shape), Chosen(DenseExpand(items, |shape|), shape);
    && pair.Ok? && dense.Ok? && e.value != [] && !Last(e.value).Int?
    && SameSelection(pair.value, dense.value, shape)
  }

  /**
    The operations on which the pair can be trusted, decided from shapes alone: one inferred
    extent, dimensions in range, both readings of an index tuple the same.
   */
  predicate Supported(op: Op, shape: seq<nat>, rank: nat) {
    match op
    case ReshapeTo(dims) =>
      && CountInferred(dims) <= 1
      && (rank > 0 || ResolveShape(Prod(shape), dims).Ok?)
    case PermuteTo(dims) => DimsInRange(dims, |shape|)
    case SwapAxes(_, _) => true
    case IndexBy(items) => ReadsAlike(items, shape)
  }

  ghost predicate IsProductCell(l: LoraTensor, t: Tensor<real>, p: nat, c: nat)
    requires Unbatched(l) && WellFormed(l) && Rows(l.a) == Rank(l)
    requires t.Valid() && t.shape != [] && p < Rows(t) && c < Width(t)
  {
    p < Rows(l.b) && c < Width(l.a) && Cell(t, p, c) == Dot(RowOf(l.b, p), ColumnOf(l.a, c))
  }

  lemma SameProduct(l: LoraTensor, t: Tensor<real>)
    requires Unbatched(l) && t.Valid() && t.shape == Shape(l)
    requires WellFormed(l) && Rows(l.a) == Rank(l)
    requires forall p: nat, c: nat | p < Rows(t) && c < Width(t) :: IsProductCell(l, t, p, c)
    ensures t == Product(l)
  {
    assert Front(Shape(l)) == Front(l.b.shape);
    forall p: nat, c: nat | p < Rows(t) && c < Width(t)
      ensures Cell(t, p, c) == Cell(Product(l), p, c)
    {
      assert IsProductCell(l, t, p, c);
      ProductCell(l, p, c);
    }
    SameCells(t, Product(l));
  }

  // -- reshape

  lemma {:induction false} CountInferredSplit(s: seq<int>, x: int)
    ensures CountInferred(s + [x]) == CountInferred(s) + (if x == -1 then 1 else 0)
    ensures KnownProd(s + [x]) == KnownProd(s) * (if x == -1 then 1 else x)
  {
    assert Front(s + [x]) == s;
  }

  lemma {:induction false} NoneInferred(s: seq<int>)
    requires forall i :: 0 <= i < |s| ==> s[i] != -1
    ensures CountInferred(s) == 0
  {
    if s != [] {
      NoneInferred(Front(s));
    }
  }

  lemma {:induction false} SomeInferred(s: seq<int>, i: nat)
    requires i < |s| && s[i] == -1
    ensures CountInferred(s) > 0
  {
    if i < |s| - 1 {
      SomeInferred(Front(s), i);
    }
  }

  lemma ExpandedNonNegative(numel: nat, dims: seq<int>)
    requires ExpandShape(numel, dims).Ok?
    ensures CountInferred(ExpandShape(numel, dims).value) == 0
  {
    var e := ExpandShape(numel, dims).value;
    forall i | 0 <= i < |e|
      ensures e[i] != -1
    {
      if dims[i] == -1 {
        SomeInferred(dims, i);
      }
    }
    NoneInferred(e);
  }

  lemma ShapeRows(lead: seq<nat>, w: nat)
    ensures Front(lead + [w]) == lead && Last(lead + [w]) == w
    ensures Prod(lead + [w]) == Prod(lead) * w
  {
    RowSplit(lead, w);
  }

  /** A reshape in which nothing is inferred. */
  lemma ReshapeExact<T>(t: Tensor<T>, to: seq<int>)
    requires t.Valid() && CountInferred(to) == 0 && Reshape(t, to).Ok?
    ensures Reshape(t, to).value.shape == to && Reshape(t, to).value.data == t.data
    ensures forall i :: 0 <= i < |to| ==> to[i] >= 0
  {
    hide Prod, CountInferred;
  }

  /** What a successful reshape of the pair looks like. */
  lemma ReshapedPair(l: LoraTensor, dims: seq<int>)
    requires Unbatched(l) && LoraReshape(l, dims).Ok?
    ensures WellFormed(l) && |dims| >= 2
    ensures ExpandShape(Prod(Shape(l)), dims).Ok?
    ensures var l' := LoraReshape(l, dims).value;
            var e := ExpandShape(Prod(Shape(l)), dims).value;
            && Unbatched(l')
            && (forall i :: 0 <= i < |e| ==> e[i] >= 0)
            && Shape(l') == e
            && l'.b == Tensor(Front(AsShape(e)) + [Rank(l)], l.b.data)
            && l'.a.data == l.a.data
            && Rank(l') == Rank(l) && Width(l'.a) == Width(l.a)
            && Rows(l'.b) * Rank(l) == Rows(l.b) * Rank(l)
  {
    hide Prod, Flat, Unflat, Reshape, ResolveShape, ExpandShape, CountInferred;
    UnbatchedRows(l);
    var e := ExpandShape(Prod(Shape(l)), dims).value;
    ExpandedNonNegative(Prod(Shape(l)), dims);
    var to := Front(e) + [Rank(l)];
    assert e == Front(e) + [Last(e)];
    CountInferredSplit(Front(e), Last(e));
    CountInferredSplit(Front(e), Rank(l));
    var b := Reshape(l.b, to).value;
    ReshapeExact(l.b, to);
    assert forall i :: 0 <= i < |e| - 1 ==> e[i] == to[i];
    var toA := Ones(|dims| - 2) + [Rank(l), Last(Shape(l))];
    NoneInferred(toA);
    var a := Reshape(l.a, toA).value;
    ReshapeExact(l.a, toA);
    ShapeRows(Front(b.shape), Rank(l));
    ShapeRows(Front(l.b.shape), Rank(l));
    assert b.shape == Front(b.shape) + [Rank(l)];
    assert l.b.shape == Front(l.b.shape) + [Rank(l)];
  }

  lemma SameDataCell<T>(t: Tensor<T>, u: Tensor<T>, p: nat, q: nat)
    requires t.Valid() && u.Valid() && t.shape != [] && u.shape != [] && t.data == u.data
    requires Width(t) == Width(u) && p < Rows(t) && p < Rows(u) && q < Width(t)
    ensures Cell(t, p, q) == Cell(u, p, q)
  {
  }

  lemma ReshapeKeepsProduct(l: LoraTensor, l': LoraTensor, t: Tensor<real>)
    requires Unbatched(l) && Unbatched(l') && WellFormed(l)
    requires l'.a.data == l.a.data && l'.b.data == l.b.data
    requires Rank(l') == Rank(l) && Width(l'.a) == Width(l.a) && Rows(l'.b) == Rows(l.b)
    requires t == Tensor(Shape(l'), Product(l).data) && t.Valid()
    ensures WellFormed(l') && t == Product(l')
  {
    hide Prod, Cell, Product, PermuteSource;
    UnbatchedRows(l);
    UnbatchedRows(l');
    assert Front(Shape(l')) == Front(l'.b.shape);
    forall p: nat, c: nat | p < Rows(t) && c < Width(t)
      ensures IsProductCell(l', t, p, c)
    {
      ProductCell(l, p, c);
      SameDataCell(t, Product(l), p, c);
      forall q | 0 <= q < Rank(l)
        ensures Cell(l'.b, p, q) == Cell(l.b, p, q) && Cell(l'.a, q, c) == Cell(l.a, q, c)
      {
        SameDataCell(l'.b, l.b, p, q);
        SameDataCell(l'.a, l.a, q, c);
      }
      assert RowOf(l'.b, p) == RowOf(l.b, p);
      assert ColumnOf(l'.a, c) == ColumnOf(l.a, c);
    }
    SameProduct(l', t);
  }

  lemma CancelFactor(x: nat, y: nat, w: nat)
    requires x * w == y * w && w > 0
    ensures x == y
  {
    MulMonotone(x + 1, y, w);
    MulMonotone(y + 1, x, w);
  }

  /** A reshape that the pair accepts is the dense reshape exactly when it is supported. */
  lemma ReshapeStep(l: LoraTensor, dims: seq<int>)
    requires Unbatched(l) && LoraReshape(l, dims).Ok?
    ensures WellFormed(l) && Unbatched(LoraReshape(l, dims).value) && WellFormed(LoraReshape(l, dims).value)
    ensures Supported(ReshapeTo(dims), Shape(l), Rank(l))
            <==> Reshape(Product(l), dims) == Ok(Product(LoraReshape(l, dims).value))
  {
    ReshapedPair(l, dims);
    var l' := LoraReshape(l, dims).value;
    var numel := Prod(Shape(l));
    UnbatchedRows(l);
    UnbatchedRows(l');
    if Supported(ReshapeTo(dims), Shape(l), Rank(l)) {
      assert ResolveShape(numel, dims).Ok? by {
        if Rank(l) > 0 {
          CancelFactor(Rows(l'.b), Rows(l.b), Rank(l));
          SameCount(l, l');
        }
      }
      var t := Reshape(Product(l), dims).value;
      assert t == Tensor(Shape(l'), Product(l).data);
      if Width(l.a) > 0 {
        SameCount(l, l');
        assert Rows(l'.b) * Width(l.a) == Rows(l.b) * Width(l.a);
        CancelFactor(Rows(l'.b), Rows(l.b), Width(l.a));
        ReshapeKeepsProduct(l, l', t);
      } else {
        SameCells(t, Product(l'));
      }
    }
  }

  lemma SameCount(l: LoraTensor, l': LoraTensor)
    requires Constructed(l) && Constructed(l')
    ensures Prod(Shape(l)) == Rows(l.b) * Width(l.a)
    ensures Prod(Shape(l')) == Rows(l'.b) * Width(l'.a)
  {
    ShapeRows(Front(l.b.shape), Width(l.a));
    ShapeRows(Front(l'.b.shape), Width(l'.a));
  }

  // -- permute and transpose

  /** Moving B's rows moves the rows of the product. */
  lemma PermuteRowsStep(l: LoraTensor, axes: seq<nat>)
    requires Unbatched(l) && |axes| == |l.b.shape| && IsPermutation(axes) && Last(axes) == |axes| - 1
    ensures var l' := LoraTensor(l.a, PermuteAxes(l.b, axes));
            WellFormed(l) && Unbatched(l') && WellFormed(l') && PermuteAxes(Product(l), axes) == Product(l')
  {
    hide Prod, Cell, Product, PermuteSource;
    UnbatchedRows(l);
    FrontPermutation(axes);
    var l' := LoraTensor(l.a, PermuteAxes(l.b, axes));
    var lead := PermutedShape(Front(l.b.shape), Front(axes));
    assert l'.b.shape == lead + [Rank(l)];
    var t := PermuteAxes(Product(l), axes);
    assert Front(Shape(l)) == Front(l.b.shape);
    assert t.shape == lead + [Width(l.a)];
    assert t.shape == Shape(l');
    UnbatchedRows(l');
    forall p: nat, c: nat | p < Rows(t) && c < Width(t)
      ensures IsProductCell(l', t, p, c)
    {
      PermuteRows(Product(l), axes, p, c);
      var from := PermuteSource(Front(l.b.shape), Front(axes), p);
      ProductCell(l, from, c);
      forall q | 0 <= q < Rank(l)
        ensures Cell(l'.b, p, q) == Cell(l.b, from, q)
      {
        PermuteRows(l.b, axes, p, q);
      }
      assert RowOf(l'.b, p) == RowOf(l.b, from);
    }
    SameProduct(l', t);
  }

  lemma {:induction false} DotCommutes(u: seq<real>, v: seq<real>)
    requires |u| == |v|
    ensures Dot(u, v) == Dot(v, u)
  {
    if u != [] {
      DotCommutes(Front(u), Front(v));
    }
  }

  lemma SwapCell(t: Tensor<real>, i: nat, j: nat)
    requires t.Valid() && |t.shape| == 2 && i < Width(t) && j < Rows(t)
    ensures IsPermutation([1, 0])
    ensures var u := PermuteAxes(t, [1, 0]);
            u.shape == [t.shape[1], t.shape[0]] && Rows(t) == t.shape[0] && Rows(u) == t.shape[1]
    ensures Cell(PermuteAxes(t, [1, 0]), i, j) == Cell(t, j, i)
  {
    hide Prod, Flat, Unflat, Cell, At, PermuteAxes;
    var p: seq<nat> := [1, 0];
    assert p[0] == 1 && p[1] == 0;
    var u := PermuteAxes(t, p);
    RowsOfMatrix(t);
    RowsOfMatrix(u);
    assert Position(p, 0) == 1 && Position(p, 1) == 0;
    assert Unpermuted(p, [i, j]) == [j, i];
    PermuteAt(t, p, [i, j]);
    assert [i] + [j] == [i, j] && [j] + [i] == [j, i];
    assert Front(u.shape) == [Rows(u)] && Front(t.shape) == [Rows(t)];
    FlatOne(Rows(u), i);
    FlatOne(Rows(t), j);
    CellIsAt(u, [i], j);
    CellIsAt(t, [j], i);
  }

  /** Swapping the transposed factors transposes the product. */
  lemma SwapFactorsStep(l: LoraTensor)
    requires Unbatched(l) && |l.b.shape| == 2
    ensures IsPermutation([1, 0])
    ensures var l' := LoraTensor(PermuteAxes(l.b, [1, 0]), PermuteAxes(l.a, [1, 0]));
            && WellFormed(l) && Unbatched(l') && WellFormed(l')
            && PermuteAxes(Product(l), [1, 0]) == Product(l')
  {
    hide Prod, Cell, Product;
    assert [1, 0][0] == 1 && [1, 0][1] == 0;
    UnbatchedRows(l);
    var l' := LoraTensor(PermuteAxes(l.b, [1, 0]), PermuteAxes(l.a, [1, 0]));
    UnbatchedRows(l');
    var t := PermuteAxes(Product(l), [1, 0]);
    assert t.shape == Shape(l');
    RowsOfMatrix(l.a);
    RowsOfMatrix(l.b);
    RowsOfMatrix(l'.b);
    RowsOfMatrix(l'.a);
    RowsOfMatrix(t);
    forall i: nat, j: nat | i < Rows(t) && j < Width(t)
      ensures IsProductCell(l', t, i, j)
    {
      ProductCell(l, j, i);
      SwapCell(Product(l), i, j);
      forall q | 0 <= q < Rank(l)
        ensures Cell(l'.b, i, q) == Cell(l.a, q, i) && Cell(l'.a, q, j) == Cell(l.b, j, q)
      {
        SwapCell(l.a, i, q);
        SwapCell(l.b, q, j);
      }
      assert RowOf(l'.b, i) == ColumnOf(l.a, i);
      assert ColumnOf(l'.a, j) == RowOf(l.b, j);
      DotCommutes(RowOf(l.b, j), ColumnOf(l.a, i));
    }
    SameProduct(l', t);
  }

  lemma RowsOfMatrix<T>(t: Tensor<T>)
    requires |t.shape| == 2
    ensures Rows(t) == t.shape[0]
  {
    FlatOne(t.shape[0], 0);
    assert Front(t.shape) == [t.shape[0]];
  }

  /** What a successful permute of the pair looks like: the rows move, or the factors change places. */
  lemma PermutedPair(l: LoraTensor, dims: seq<int>)
    requires Unbatched(l) && LoraPermute(l, dims).Ok?
    ensures |dims| == |Shape(l)| && DimsInRange(NegativeDims(dims, |dims|), |dims|)
    ensures var (axes, l') := (WrapDims(NegativeDims(dims, |dims|), |dims|), LoraPermute(l, dims).value);
            && IsPermutation(axes)
            && if Last(axes) == |axes| - 1 then l' == LoraTensor(l.a, PermuteAxes(l.b, axes))
               else |dims| == 2 && axes == [1, 0] && l' == LoraTensor(PermuteAxes(l.b, axes), PermuteAxes(l.a, axes))
  {
    hide PermuteAxes, IsPermutation;
    var neg := NegativeDims(dims, |Shape(l)|);
    if Last(neg) != -1 {
      assert neg == [-1, -2];
      assert WrapDims(neg, 2) == [1, 0];
    }
  }

  /** In range, a dimension and its negative form name the same axis. */
  lemma SameAxes(dims: seq<int>, rank: nat)
    requires DimsInRange(dims, rank) && DimsInRange(NegativeDims(dims, rank), rank)
    ensures WrapDims(dims, rank) == WrapDims(NegativeDims(dims, rank), rank)
  {
  }

  /** A permute that the pair accepts is the dense permute exactly when its dimensions are in range. */
  lemma PermuteStep(l: LoraTensor, dims: seq<int>)
    requires Unbatched(l) && LoraPermute(l, dims).Ok?
    ensures WellFormed(l) && Unbatched(LoraPermute(l, dims).value) && WellFormed(LoraPermute(l, dims).value)
    ensures Supported(PermuteTo(dims), Shape(l), Rank(l))
            <==> Permute(Product(l), dims) == Ok(Product(LoraPermute(l, dims).value))
  {
    hide Product, PermuteAxes, Prod, AllOnes, IsPermutation, NegativeDims, WrapDims, DimsInRange, LoraPermute, WellFormed;
    UnbatchedRows(l);
    PermutedPair(l, dims);
    var axes := WrapDims(NegativeDims(dims, |dims|), |dims|);
    if Last(axes) == |axes| - 1 {
      PermuteRowsStep(l, axes);
    } else {
      SwapFactorsStep(l);
    }
    if DimsInRange(dims, |dims|) {
      SameAxes(dims, |dims|);
    }
  }

  lemma TransposeStep(l: LoraTensor, d0: int, d1: int)
    requires Unbatched(l) && LoraTranspose(l, d0, d1).Ok?
    ensures WellFormed(l) && Unbatched(LoraTranspose(l, d0, d1).value) && WellFormed(LoraTranspose(l, d0, d1).value)
    ensures Transpose(Product(l), d0, d1) == Ok(Product(LoraTranspose(l, d0, d1).value))
  {
    PermuteStep(l, SwapDims(|Shape(l)|, d0, d1).value);
  }

  // -- tuple indexing

  lemma {:induction false} LeadSelection(items: seq<Item>, lead: seq<nat>)
    requires |items| == |lead| && AllOnes(lead) && LeadItems(items, lead).Ok?
    ensures ResolveAll(LeadItems(items, lead).value, lead).Ok?
    ensures AllOnes(SelectedShape(ResolveAll(LeadItems(items, lead).value, lead).value))
    ensures CountLists(LeadItems(items, lead).value) == 0
  {
    if items == [] {
    } else {
      LeadSelection(Front(items), Front(lead));
      LastLeadItem(items, lead);
      hide Resolve, ResolveAll, SelectedShape, CountLists, LeadItems;
      var front := LeadItems(Front(items), Front(lead)).value;
      var last := Last(LeadItems(items, lead).value);
      assert LeadItems(items, lead).value == front + [last] && lead == Front(lead) + [1];
      ResolveSplit(front, last, Front(lead), 1);
      SelectedOne(ResolveAll(front, Front(lead)).value, Resolve(last, 1).value);
    }
  }

  /** On an axis of extent one, A's last batch item selects that one position or drops the axis. */
  lemma LastLeadItem(items: seq<Item>, lead: seq<nat>)
    requires |items| == |lead| > 0 && Last(lead) == 1 && LeadItems(items, lead).Ok?
    ensures LeadItems(Front(items), Front(lead)).Ok?
    ensures var last := Last(LeadItems(items, lead).value);
            && LeadItems(items, lead).value == LeadItems(Front(items), Front(lead)).value + [last]
            && !last.List? && Resolve(last, 1).Ok?
            && (Resolve(last, 1).value.Take? ==> |Resolve(last, 1).value.rows| == 1)
  {
    FullSelection(1);
  }

  lemma SelectedOne(sels: seq<Selector>, s: Selector)
    requires AllOnes(SelectedShape(sels)) && (s.Take? ==> |s.rows| == 1)
    ensures AllOnes(SelectedShape(sels + [s]))
  {
    hide SelectedShape, AllOnes;
    SelectedNext(sels, s);
    if s.Take? {
      OneMoreOne(SelectedShape(sels));
    }
  }

  lemma SelectedNext(sels: seq<Selector>, s: Selector)
    ensures SelectedShape(sels + [s]) == if s.Pick? then SelectedShape(sels) else SelectedShape(sels) + [|s.rows|]
  {
    assert Front(sels + [s]) == sels;
  }

  lemma OneMoreOne(shape: seq<nat>)
    requires AllOnes(shape)
    ensures AllOnes(shape + [1])
  {
  }

  lemma ResolveSplit(items: seq<Item>, item: Item, shape: seq<nat>, n: nat)
    requires |items| == |shape|
    ensures ResolveAll(items + [item], shape + [n]).Ok? <==> ResolveAll(items, shape).Ok? && Resolve(item, n).Ok?
    ensures ResolveAll(items + [item], shape + [n]).Ok? ==>
              ResolveAll(items + [item], shape + [n]).value == ResolveAll(items, shape).value + [Resolve(item, n).value]
    ensures CountLists(items + [item]) == CountLists(items) + (if item.List? then 1 else 0)
  {
    assert Front(items + [item]) == items && Front(shape + [n]) == shape;
  }

  lemma FullSelection(n: nat)
    ensures Resolve(FULL, n).Ok? && Resolve(FULL, n).value.Take?
    ensures |Resolve(FULL, n).value.rows| == n
    ensures forall j :: 0 <= j < n ==> Resolve(FULL, n).value.rows[j] == j
  {
  }

  /** The selector of a whole axis. */
  function AllRows(n: nat): (s: Selector)
    ensures s.Take? && |s.rows| == n && forall j :: 0 <= j < n ==> s.rows[j] == j
    ensures Resolve(FULL, n) == Ok(s)
  {
    FullSelection(n);
    Resolve(FULL, n).value
  }

  /** A pair and the selectors that thin its rows and columns, A's batch axes staying trivial. */
  ghost predicate Selectable(l: LoraTensor, lead: seq<Selector>, rows: seq<Selector>, all: Selector, columns: Selector) {
    && Unbatched(l)
    && SelectorsFit(lead, ALead(l)) && AllOnes(SelectedShape(lead))
    && SelectorsFit(rows, Front(l.b.shape))
    && all.Take? && |all.rows| == Rank(l) && (forall j :: 0 <= j < Rank(l) ==> all.rows[j] == j)
    && columns.Take? && Fits(columns, Width(l.a))
    && |SelectedShape(lead)| + 1 == |SelectedShape(rows)|
  }

  lemma FitsAll(all: Selector, n: nat)
    requires all.Take? && |all.rows| == n && forall j :: 0 <= j < n ==> all.rows[j] == j
    ensures Fits(all, n)
  {
  }

  lemma FitsNext(sels: seq<Selector>, shape: seq<nat>, s: Selector, n: nat)
    requires SelectorsFit(sels, shape) && Fits(s, n)
    ensures SelectorsFit(sels + [s], shape + [n])
  {
    hide Fits;
  }

  lemma TakenShape(sels: seq<Selector>, s: Selector)
    requires s.Take?
    ensures SelectedShape(sels + [s]) == SelectedShape(sels) + [|s.rows|]
  {
    assert Front(sels + [s]) == sels;
  }

  lemma SelectedPair(l: LoraTensor, lead: seq<Selector>, rows: seq<Selector>, all: Selector, columns: Selector)
    requires Selectable(l, lead, rows, all, columns)
    ensures SelectorsFit(lead + [all] + [columns], l.a.shape) && SelectorsFit(rows + [all], l.b.shape)
    ensures WellFormed(l) && SelectorsFit(rows + [columns], Shape(l))
    ensures var l' := LoraTensor(Select(l.a, lead + [all] + [columns]), Select(l.b, rows + [all]));
            && Unbatched(l') && WellFormed(l') && Rows(l'.a) == Rank(l') == Rank(l)
            && Select(Product(l), rows + [columns]).shape == Shape(l')
            && Front(l'.b.shape) == SelectedShape(rows)
            && Width(l'.a) == |columns.rows|
  {
    hide Prod, Cell, Product, SelectSource, Select, SelectedShape, Fits, AllOnes, Rows;
    UnbatchedRows(l);
    var sa, sb, sp := lead + [all] + [columns], rows + [all], rows + [columns];
    assert l.a.shape == ALead(l) + [Rank(l)] + [Width(l.a)];
    assert l.b.shape == Front(l.b.shape) + [Rank(l)];
    FitsAll(all, Rank(l));
    FitsNext(lead, ALead(l), all, Rank(l));
    FitsNext(lead + [all], ALead(l) + [Rank(l)], columns, Width(l.a));
    FitsNext(rows, Front(l.b.shape), all, Rank(l));
    FitsNext(rows, Front(l.b.shape), columns, Width(l.a));
    var l' := LoraTensor(Select(l.a, sa), Select(l.b, sb));
    TakenShape(lead, all);
    TakenShape(lead + [all], columns);
    TakenShape(rows, all);
    TakenShape(rows, columns);
    assert l'.a.shape == SelectedShape(lead) + [Rank(l)] + [|columns.rows|];
    assert l'.b.shape == SelectedShape(rows) + [Rank(l)];
    assert ALead(l') == SelectedShape(lead);
    UnbatchedRows(l');
  }

  lemma SelectedCell(l: LoraTensor, lead: seq<Selector>, rows: seq<Selector>, all: Selector, columns: Selector, p: nat, c: nat)
    requires Selectable(l, lead, rows, all, columns)
    requires SelectorsFit(lead + [all] + [columns], l.a.shape) && SelectorsFit(rows + [all], l.b.shape)
    requires WellFormed(l) && SelectorsFit(rows + [columns], Shape(l))
    requires p < Prod(SelectedShape(rows)) && c < |columns.rows|
    ensures var l' := LoraTensor(Select(l.a, lead + [all] + [columns]), Select(l.b, rows + [all]));
            var t := Select(Product(l), rows + [columns]);
            && Unbatched(l') && WellFormed(l') && Rows(l'.a) == Rank(l')
            && t.shape != [] && p < Rows(t) && c < Width(t) && IsProductCell(l', t, p, c)
  {
    hide Prod, Cell, Product, SelectSource, Select;
    SelectedPair(l, lead, rows, all, columns);
    var sa, sb, sp := lead + [all] + [columns], rows + [all], rows + [columns];
    assert Front(sb) == rows && Front(sp) == rows && Front(sa) == lead + [all];
    var l' := LoraTensor(Select(l.a, sa), Select(l.b, sb));
    SelectRows(Product(l), sp, p, c);
    var from := SelectSource(Front(l.b.shape), rows, p);
    ProductCell(l, from, columns.rows[c]);
    SelectedRow(l.b, rows, all, p);
    SelectedColumn(l, lead, rows, all, columns, c);
  }

  lemma SelectedRow(b: Tensor<real>, rows: seq<Selector>, all: Selector, p: nat)
    requires b.Valid() && b.shape != [] && SelectorsFit(rows, Front(b.shape)) && SelectorsFit(rows + [all], b.shape)
    requires all.Take? && |all.rows| == Width(b) && (forall j :: 0 <= j < Width(b) ==> all.rows[j] == j)
    requires p < Prod(SelectedShape(rows))
    ensures Front(SelectedShape(rows + [all])) == SelectedShape(rows)
    ensures SelectSource(Front(b.shape), rows, p) < Rows(b)
    ensures RowOf(Select(b, rows + [all]), p) == RowOf(b, SelectSource(Front(b.shape), rows, p))
  {
    hide Prod, Cell, SelectSource, Select, RowOf, SelectedShape, Fits;
    var sb := rows + [all];
    assert Front(sb) == rows && Last(sb) == all;
    TakenShape(rows, all);
    FrontOfAppended(SelectedShape(rows), |all.rows|);
    var from := SelectSource(Front(b.shape), rows, p);
    forall q: nat | q < Width(b)
      ensures Cell(Select(b, sb), p, q) == Cell(b, from, q)
    {
      SelectRows(b, sb, p, q);
    }
    SameRows(Select(b, sb), p, b, from);
  }

  lemma FrontOfAppended(s: seq<nat>, n: nat)
    ensures Front(s + [n]) == s && Last(s + [n]) == n
  {
  }

  lemma SameRows(t: Tensor<real>, p: nat, u: Tensor<real>, r: nat)
    requires t.Valid() && t.shape != [] && p < Rows(t) && u.Valid() && u.shape != [] && r < Rows(u) && Width(t) == Width(u)
    requires forall q: nat :: q < Width(t) ==> Cell(t, p, q) == Cell(u, r, q)
    ensures RowOf(t, p) == RowOf(u, r)
  {
    hide Cell, Rows;
  }

  lemma SelectedColumn(l: LoraTensor, lead: seq<Selector>, rows: seq<Selector>, all: Selector, columns: Selector, c: nat)
    requires Selectable(l, lead, rows, all, columns)
    requires SelectorsFit(lead + [all] + [columns], l.a.shape) && c < |columns.rows|
    ensures c < Width(Select(l.a, lead + [all] + [columns]))
    ensures ColumnOf(Select(l.a, lead + [all] + [columns]), c) == ColumnOf(l.a, columns.rows[c])
  {
    hide Prod, Cell, SelectSource;
    var sa := lead + [all] + [columns];
    assert Front(sa) == lead + [all];
    assert Front(l.a.shape) == ALead(l) + [Rank(l)];
    SelectedPair(l, lead, rows, all, columns);
    UnbatchedRows(l);
    forall q | 0 <= q < Rank(l)
      ensures Cell(Select(l.a, sa), q, c) == Cell(l.a, q, columns.rows[c])
    {
      LeadSource(ALead(l), lead, Rank(l), all, q);
      SelectRows(l.a, sa, q, c);
    }
  }

  /** Selecting rows of B and columns of A selects rows and columns of the product. */
  lemma SelectStep(l: LoraTensor, lead: seq<Selector>, rows: seq<Selector>, all: Selector, columns: Selector)
    requires Selectable(l, lead, rows, all, columns)
    ensures SelectorsFit(lead + [all] + [columns], l.a.shape) && SelectorsFit(rows + [all], l.b.shape)
    ensures WellFormed(l) && SelectorsFit(rows + [columns], Shape(l))
    ensures var l' := LoraTensor(Select(l.a, lead + [all] + [columns]), Select(l.b, rows + [all]));
            Unbatched(l') && WellFormed(l') && Select(Product(l), rows + [columns]) == Product(l')
  {
    hide Prod, Cell, Product, SelectSource, Select;
    SelectedPair(l, lead, rows, all, columns);
    var l' := LoraTensor(Select(l.a, lead + [all] + [columns]), Select(l.b, rows + [all]));
    var t := Select(Product(l), rows + [columns]);
    assert Front(t.shape) == SelectedShape(rows);
    forall p: nat, c: nat | p < Rows(t) && c < Width(t)
      ensures IsProductCell(l', t, p, c)
    {
      SelectedCell(l, lead, rows, all, columns, p, c);
    }
    SameProduct(l', t);
  }

  /** A's batch axes stay trivial, so its rows are read in place. */
  lemma LeadSource(ones: seq<nat>, lead: seq<Selector>, r: nat, all: Selector, q: nat)
    requires AllOnes(ones) && SelectorsFit(lead, ones) && AllOnes(SelectedShape(lead))
    requires all.Take? && |all.rows| == r && (forall j :: 0 <= j < r ==> all.rows[j] == j) && q < r
    ensures SelectorsFit(lead + [all], ones + [r])
    ensures q < Prod(SelectedShape(lead + [all])) && SelectSource(ones + [r], lead + [all], q) == q
  {
    hide Prod, Flat, Unflat, SelectedShape, Embed, Fits;
    FitsAll(all, r);
    FitsNext(lead, ones, all, r);
    TakenShape(lead, all);
    var small := SelectedShape(lead);
    assert Front(small + [r]) == small && Front(ones + [r]) == ones;
    OnesProd(ones);
    OnesProd(small);
    UnflatRow(small + [r], 0, q);
    var idx := Unflat(small, 0);
    assert Front(idx + [q]) == idx;
    EmbedInShape(lead, ones, idx);
    FlatBound(ones, Embed(lead, idx));
    EmbedNext(lead, all, idx, q);
    FlatRow(ones + [r], Embed(lead, idx), q);
  }

  lemma EmbedNext(sels: seq<Selector>, s: Selector, idx: seq<nat>, i: nat)
    requires s.Take? && i < |s.rows| && InShape(SelectedShape(sels), idx)
    ensures InShape(SelectedShape(sels + [s]), idx + [i])
    ensures Embed(sels + [s], idx + [i]) == Embed(sels, idx) + [s.rows[i]]
  {
    assert Front(sels + [s]) == sels && Front(idx + [i]) == idx;
  }

  lemma IndexedShape(t: Tensor<real>, items: seq<Item>, item: Item)
    requires t.Valid() && t.shape != [] && |items| + 1 == |t.shape|
    requires CountLists(items) + (if item.List? then 1 else 0) <= 1
    ensures Index(t, items + [item]).Ok? <==> ResolveAll(items, Front(t.shape)).Ok? && Resolve(item, Width(t)).Ok?
    ensures Index(t, items + [item]).Ok? ==>
              var sels := ResolveAll(items, Front(t.shape)).value + [Resolve(item, Width(t)).value];
              SelectorsFit(sels, t.shape) && Index(t, items + [item]).value == Select(t, sels)
              && Index(t, items + [item]).value.shape == SelectedShape(sels)
  {
    hide Select, Resolve, ResolveAll, CountLists, SelectedShape, Fits;
    assert t.shape == Front(t.shape) + [Width(t)];
    ResolveSplit(items, item, Front(t.shape), Width(t));
  }

  /** How A is read: its batch axes trivially, its rows in full, its columns by the last item. */
  lemma IndexedA(l: LoraTensor, front: seq<Item>, last: Item) returns (lead: seq<Selector>, all: Selector, columns: Selector)
    requires Unbatched(l) && |front| + 1 == |l.b.shape| && !last.Int?
    requires LeadItems(Front(front), ALead(l)).Ok?
    requires Index(l.a, LeadItems(Front(front), ALead(l)).value + [FULL] + [last]).Ok?
    ensures SelectorsFit(lead, ALead(l)) && AllOnes(SelectedShape(lead))
    ensures Resolve(FULL, Rank(l)) == Ok(all) && all.Take? && |all.rows| == Rank(l)
    ensures forall j :: 0 <= j < Rank(l) ==> all.rows[j] == j
    ensures Resolve(last, Width(l.a)) == Ok(columns) && columns.Take? && Fits(columns, Width(l.a))
    ensures SelectorsFit(lead + [all] + [columns], l.a.shape)
    ensures Index(l.a, LeadItems(Front(front), ALead(l)).value + [FULL] + [last])
            == Ok(Select(l.a, lead + [all] + [columns]))
    ensures |Select(l.a, lead + [all] + [columns]).shape| == |SelectedShape(lead)| + 2
  {
    hide Select, Prod, Index, LeadItems, SelectedShape, ResolveAll, CountLists;
    var leadItems := LeadItems(Front(front), ALead(l)).value;
    assert Front(l.a.shape) == ALead(l) + [Rank(l)];
    LeadSelection(Front(front), ALead(l));
    FullSelection(Rank(l));
    ResolveSplit(leadItems, FULL, ALead(l), Rank(l));
    IndexedShape(l.a, leadItems + [FULL], last);
    lead := ResolveAll(leadItems, ALead(l)).value;
    all := Resolve(FULL, Rank(l)).value;
    columns := Resolve(last, Width(l.a)).value;
    TakenShape(lead, all);
    TakenShape(lead + [all], columns);
  }

  /** The two indexings that the pair performs, once its tuple is expanded to `front + [last]`. */
  lemma ExpandedIndexStep(l: LoraTensor, front: seq<Item>, last: Item)
    requires Unbatched(l) && |front| + 1 == |l.b.shape|
    requires !last.Int? && CountLists(front) + (if last.List? then 1 else 0) <= 1
    requires LeadItems(Front(front), ALead(l)).Ok?
    requires var lead := LeadItems(Front(front), ALead(l)).value;
             && Index(l.a, lead + [FULL] + [last]).Ok? && Index(l.b, front + [FULL]).Ok?
             && MakeLora(Index(l.a, lead + [FULL] + [last]).value, Index(l.b, front + [FULL]).value).Ok?
    ensures var lead := LeadItems(Front(front), ALead(l)).value;
            var l' := LoraTensor(Index(l.a, lead + [FULL] + [last]).value, Index(l.b, front + [FULL]).value);
            && Unbatched(l') && WellFormed(l') && WellFormed(l)
            && Index(Product(l), front + [last]) == Ok(Product(l'))
  {
    hide Product, Select, Prod, Index, LeadItems, SelectedShape, ResolveAll, Resolve, CountLists;
    UnbatchedRows(l);
    var lead, all, columns := IndexedA(l, front, last);
    IndexedShape(l.b, front, FULL);
    assert Front(Shape(l)) == Front(l.b.shape);
    IndexedShape(Product(l), front, last);
    var rows := ResolveAll(front, Front(l.b.shape)).value;
    TakenShape(rows, all);
    SelectStep(l, lead, rows, all, columns);
  }

  lemma SelectAlike(t: Tensor<real>, s: seq<Selector>, u: seq<Selector>)
    requires t.Valid() && SelectorsFit(s, t.shape) && SelectorsFit(u, t.shape) && SameSelection(s, u, t.shape)
    ensures Select(t, s) == Select(t, u)
  {
    hide Prod, SelectSource, SelectedShape;
  }

  /** The pair's index of a tuple without an integer on the last axis is the index of the product by the pair's reading. */
  lemma PairReading(l: LoraTensor, items: seq<Item>)
    requires Unbatched(l) && LoraIndex(l, items).Ok?
    requires var e := LoraExpand(items, |Shape(l)|); !Last(e.value).Int? && CountLists(e.value) <= 1
    ensures WellFormed(l) && Unbatched(LoraIndex(l, items).value) && WellFormed(LoraIndex(l, items).value)
    ensures Index(Product(l), LoraExpand(items, |Shape(l)|).value) == Ok(Product(LoraIndex(l, items).value))
  {
    hide Product, Index, LeadItems, LoraExpand;
    UnbatchedRows(l);
    var n := |Shape(l)|;
    var e := LoraExpand(items, n).value;
    assert e == Front(e) + [Last(e)];
    assert e[..n - 2] == Front(Front(e));
    var lead := LeadItems(Front(Front(e)), ALead(l)).value;
    assert lead + [FULL, Last(e)] == lead + [FULL] + [Last(e)];
    ExpandedIndexStep(l, Front(e), Last(e));
  }

  /** A tuple index that both sides read alike selects the same entries of the product. */
  lemma IndexStep(l: LoraTensor, items: seq<Item>)
    requires Unbatched(l) && LoraIndex(l, items).Ok?
    requires Supported(IndexBy(items), Shape(l), Rank(l))
    ensures WellFormed(l) && Unbatched(LoraIndex(l, items).value) && WellFormed(LoraIndex(l, items).value)
    ensures DenseIndex(Product(l), items) == Ok(Product(LoraIndex(l, items).value))
  {
    hide Product, LoraIndex, LoraExpand, DenseExpand, ResolveAll, CountLists, Select, SameSelection;
    UnbatchedRows(l);
    PairReading(l, items);
    var shape := Shape(l);
    SelectAlike(Product(l), Chosen(LoraExpand(items, |shape|), shape).value, Chosen(DenseExpand(items, |shape|), shape).value);
  }

  /** Tuples that both sides expand alike are read alike. */
  lemma ExpandedAlike(items: seq<Item>, e: seq<Item>, shape: seq<nat>)
    requires LoraExpand(items, |shape|) == Ok(e) == DenseExpand(items, |shape|) && e != [] && !Last(e).Int?
    requires |e| == |shape| && CountLists(e) <= 1 && ResolveAll(e, shape).Ok?
    ensures ReadsAlike(items, shape)
  {
    hide LoraExpand, DenseExpand, ResolveAll, CountLists;
  }

  // ---------------------------------------------------------------- homomorphism, whole runs

  function LoraRun(l: LoraTensor, ops: seq<Op>): (r: Result<LoraTensor, TensorError>)
    requires Constructed(l)
    ensures r.Ok? ==> Constructed(r.value)
    decreases |ops|
  {
    if ops == [] then Ok(l)
    else
      var l' :- LoraStep(l, ops[0]);
      LoraRun(l', ops[1..])
  }

  function DenseRun(t: Tensor<real>, ops: seq<Op>): (r: Result<Tensor<real>, TensorError>)
    requires t.Valid()
    ensures r.Ok? ==> r.value.Valid()
    decreases |ops|
  {
    if ops == [] then Ok(t)
    else
      var t' :- DenseStep(t, ops[0]);
      DenseRun(t', ops[1..])
  }

  /** Every operation of a run is supported at the shape it is applied to. */
  predicate SupportedRun(l: LoraTensor, ops: seq<Op>)
    requires Constructed(l)
    decreases |ops|
  {
    ops == [] ||
    (Supported(ops[0], Shape(l), Rank(l))
     && (LoraStep(l, ops[0]).Ok? ==> SupportedRun(LoraStep(l, ops[0]).value, ops[1..])))
  }

  lemma StepHomomorphism(l: LoraTensor, op: Op)
    requires Unbatched(l) && LoraStep(l, op).Ok? && Supported(op, Shape(l), Rank(l))
    ensures WellFormed(l) && Unbatched(LoraStep(l, op).value) && WellFormed(LoraStep(l, op).value)
    ensures DenseStep(Product(l), op) == Ok(Product(LoraStep(l, op).value))
  {
    hide Product, LoraReshape, LoraPermute, LoraTranspose, LoraIndex;
    match op
    case ReshapeTo(dims) => ReshapeStep(l, dims);
    case PermuteTo(dims) => PermuteStep(l, dims);
    case SwapAxes(d0, d1) => TransposeStep(l, d0, d1);
    case IndexBy(items) => IndexStep(l, items);
  }

  /** Converting the pair and then multiplying out is multiplying out and then converting. */
  lemma {:induction false} Homomorphism(l: LoraTensor, ops: seq<Op>)
    requires Unbatched(l) && LoraRun(l, ops).Ok? && SupportedRun(l, ops)
    ensures WellFormed(l) && Unbatched(LoraRun(l, ops).value) && WellFormed(LoraRun(l, ops).value)
    ensures DenseRun(Product(l), ops) == Ok(Product(LoraRun(l, ops).value))
    decreases |ops|
  {
    hide Product, LoraStep, DenseStep, Supported;
    UnbatchedRows(l);
    if ops != [] {
      StepHomomorphism(l, ops[0]);
      Homomorphism(LoraStep(l, ops[0]).value, ops[1..]);
    }
  }

  // ---------------------------------------------------------------- where the index readings part

  predicate AllFull(items: seq<Item>) {
    forall i :: 0 <= i < |items| ==> items[i] == FULL
  }

  lemma {:induction false} SpliceNone(items: seq<Item>, n: nat)
    requires forall i :: 0 <= i < |items| ==> !items[i].Ellipsis?
    ensures SpliceEllipsis(items, n) == items && CountEllipsis(items) == 0
  {
    hide Fulls;
    if items == [] {
    } else {
      assert !Last(items).Ellipsis?;
      assert forall i :: 0 <= i < |items| - 1 ==> Front(items)[i] == items[i];
      SpliceNone(Front(items), n);
      assert Front(items) + [Last(items)] == items;
    }
  }

  lemma {:induction false} SpliceOne(before: seq<Item>, after: seq<Item>, n: nat)
    requires forall i :: 0 <= i < |before| ==> !before[i].Ellipsis?
    requires forall i :: 0 <= i < |after| ==> !after[i].Ellipsis?
    ensures SpliceEllipsis(before + [Ellipsis] + after, n) == before + Fulls(n) + after
    ensures CountEllipsis(before + [Ellipsis] + after) == 1
  {
    var items := before + [Ellipsis] + after;
    if after == [] {
      assert Front(items) == before;
      SpliceNone(before, n);
    } else {
      assert Front(items) == before + [Ellipsis] + Front(after);
      SpliceOne(before, Front(after), n);
      assert SpliceEllipsis(items, n) == before + Fulls(n) + Front(after) + [Last(after)];
      assert Front(after) + [Last(after)] == after;
    }
  }

  lemma {:induction false} ShiftedFull(after: seq<Item>, k: nat, i: nat)
    requires k > 0 && after + Fulls(k) == Fulls(k) + after && i < |after|
    ensures after[i] == FULL
  {
    assert (after + Fulls(k))[i] == (Fulls(k) + after)[i];
    if i >= k {
      ShiftedFull(after, k, i - k);
    }
  }

  /**
    An ellipsis followed by further items is read as torch reads it exactly when the named
    items fill half the axes, or when they fall short and only full slices follow the ellipsis.
   */
  lemma InnerEllipsisAgrees(before: seq<Item>, after: seq<Item>, rank: nat)
    requires forall i :: 0 <= i < |before| ==> !before[i].Ellipsis?
    requires forall i :: 0 <= i < |after| ==> !after[i].Ellipsis?
    requires after != [] && |before| + |after| <= rank
    ensures LoraExpand(before + [Ellipsis] + after, rank) == DenseExpand(before + [Ellipsis] + after, rank)
            <==> 2 * (|before| + |after|) == rank
                 || (2 * (|before| + |after|) < rank && AllFull(after))
  {
    var named := |before| + |after|;
    var items := before + [Ellipsis] + after;
    SpliceOne(before, after, named);
    SpliceOne(before, after, rank - named);
    var pair, dense := LoraExpand(items, rank).value, DenseExpand(items, rank).value;
    assert dense == before + Fulls(rank - named) + after;
    if 2 * named <= rank {
      var k := rank - 2 * named;
      var x, y := after + Fulls(k), Fulls(k) + after;
      assert pair == before + Fulls(named) + x;
      assert Fulls(rank - named) == Fulls(named) + Fulls(k);
      assert dense == before + Fulls(named) + y;
      if pair == dense {
        assert x == pair[|before| + named..] == dense[|before| + named..] == y;
        if k > 0 {
          forall i | 0 <= i < |after|
            ensures after[i] == FULL
          {
            ShiftedFull(after, k, i);
          }
        }
      }
      if k == 0 || AllFull(after) {
        assert x == y;
      }
    } else {
      assert |pair| == 2 * named;
    }
  }

  /** A tuple that ends in an ellipsis is read as torch reads it, unless nothing else is named. */
  lemma TrailingEllipsisAgrees(before: seq<Item>, rank: nat)
    requires forall i :: 0 <= i < |before| ==> !before[i].Ellipsis?
    requires |before| <= rank
    ensures LoraExpand(before + [Ellipsis], rank) == DenseExpand(before + [Ellipsis], rank) <==> before != []
  {
    assert Front(before + [Ellipsis]) == before;
    assert before + [Ellipsis] + [] == before + [Ellipsis];
    SpliceOne(before, [], rank - |before|);
    assert before + Fulls(rank - |before|) + [] == before + Fulls(rank - |before|);
    if before != [] {
      SpliceNone(before, |before| - 1);
    }
  }
}
