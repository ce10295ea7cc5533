/**
  Dense row-major tensors and the tensor operations the weight converters use.
  Shapes may have any rank and any extents, zero included.
 */
module Tensors {
  import opened Wrappers

  datatype TensorError = BadShape | BadDims | BadIndex | AssertionFailed | NotImplemented

  datatype Tensor<T> = Tensor(shape: seq<nat>, data: seq<T>) {
    predicate Valid() {
      |data| == Prod(shape)
    }
  }

  // ---------------------------------------------------------------- shapes

  function Front<T>(s: seq<T>): seq<T>
    requires s != []
  {
    s[..|s| - 1]
  }

  function Last<T>(s: seq<T>): T
    requires s != []
  {
    s[|s| - 1]
  }

  function Prod(shape: seq<nat>): nat {
    if shape == [] then 1 else Prod(Front(shape)) * Last(shape)
  }

  ghost predicate InShape(shape: seq<nat>, idx: seq<nat>) {
    |idx| == |shape| && forall i :: 0 <= i < |idx| ==> idx[i] < shape[i]
  }

  /** The row-major offset of a multi-index. */
  function Flat(shape: seq<nat>, idx: seq<nat>): nat
    requires |idx| == |shape|
  {
    if shape == [] then 0 else Flat(Front(shape), Front(idx)) * Last(shape) + Last(idx)
  }

  /** The multi-index at a row-major offset. */
  function Unflat(shape: seq<nat>, k: nat): (idx: seq<nat>)
    requires k < Prod(shape)
    ensures InShape(shape, idx)
    ensures Flat(shape, idx) == k
  {
    if shape == [] then
      []
    else
      var w := Last(shape);
      Quotient(k, Prod(Front(shape)), w);
      var front := Unflat(Front(shape), k / w);
      InShapeNext(shape, front, k % w);
      FlatRow(shape, front, k % w);
      front + [k % w]
  }

  lemma MulMonotone(a: int, b: int, w: nat)
    ensures a <= b ==> a * w <= b * w
  {
  }

  lemma Quotient(k: nat, m: nat, w: nat)
    requires k < m * w
    ensures w > 0 && k / w < m && k % w < w && k / w * w + k % w == k
  {
    MulMonotone(m, k / w, w);
  }

  lemma Offset(p: nat, q: nat, m: nat, w: nat)
    requires p < m && q < w
    ensures p * w + q < m * w && (p * w + q) / w == p && (p * w + q) % w == q
  {
    MulMonotone(p + 1, m, w);
    var k := p * w + q;
    MulMonotone(p + 1, k / w, w);
    MulMonotone(k / w + 1, p, w);
  }

  lemma {:induction false} FlatBound(shape: seq<nat>, idx: seq<nat>)
    requires InShape(shape, idx)
    ensures Flat(shape, idx) < Prod(shape)
    ensures Unflat(shape, Flat(shape, idx)) == idx
  {
    if shape != [] {
      var p := Flat(Front(shape), Front(idx));
      FlatBound(Front(shape), Front(idx));
      Offset(p, Last(idx), Prod(Front(shape)), Last(shape));
      assert idx == Front(idx) + [Last(idx)];
    }
  }

  /** The entry at a multi-index. */
  function At<T>(t: Tensor<T>, idx: seq<nat>): T
    requires t.Valid() && InShape(t.shape, idx)
  {
    FlatBound(t.shape, idx);
    t.data[Flat(t.shape, idx)]
  }

  /** Tensors are equal when their shapes and all their entries are. */
  lemma SameEntries<T>(t: Tensor<T>, u: Tensor<T>)
    requires t.Valid() && u.Valid() && t.shape == u.shape
    requires forall idx | InShape(t.shape, idx) :: At(t, idx) == At(u, idx)
    ensures t == u
  {
    forall k | 0 <= k < |t.data|
      ensures t.data[k] == u.data[k]
    {
      assert At(t, Unflat(t.shape, k)) == At(u, Unflat(t.shape, k));
    }
  }

  // ---------------------------------------------------------------- reshape

  function CountInferred(dims: seq<int>): nat {
    if dims == [] then 0 else CountInferred(Front(dims)) + (if Last(dims) == -1 then 1 else 0)
  }

  /** Product of the dimensions that are not -1. */
  function KnownProd(dims: seq<int>): int {
    if dims == [] then 1 else KnownProd(Front(dims)) * (if Last(dims) == -1 then 1 else Last(dims))
  }

  /** Every -1 replaced by `fill`. */
  function FillInferred(dims: seq<int>, fill: int): (r: seq<int>)
    ensures |r| == |dims|
  {
    seq(|dims|, i requires 0 <= i < |dims| => if dims[i] == -1 then fill else dims[i])
  }

  function AsShape(dims: seq<int>): (r: seq<nat>)
    requires forall i :: 0 <= i < |dims| ==> dims[i] >= 0
    ensures r == dims
  {
    seq<nat>(|dims|, i requires 0 <= i < |dims| => dims[i])
  }

  /** Each -1 replaced by the extent that would keep the element count. */
  function ExpandShape(numel: nat, dims: seq<int>): (r: Result<seq<int>, TensorError>)
    ensures r.Ok? ==> |r.value| == |dims|
  {
    if CountInferred(dims) == 0 then Ok(dims)
    // a negative product means some extent is below -1, which every reshape refuses
    else if KnownProd(dims) <= 0 || numel % KnownProd(dims) != 0 then Err(AssertionFailed)
    else Ok(FillInferred(dims, numel / KnownProd(dims)))
  }

  /** torch's resolution of a requested shape: one -1 may be inferred, the element count is kept. */
  function ResolveShape(numel: nat, dims: seq<int>): (r: Result<seq<nat>, TensorError>)
    ensures r.Ok? ==> Prod(r.value) == numel && |r.value| == |dims|
  {
    if CountInferred(dims) > 1 then Err(BadShape)
    else
      var filled :- ExpandShape(numel, dims);
      if exists i :: 0 <= i < |filled| && filled[i] < 0 then Err(BadShape)
      else if Prod(AsShape(filled)) != numel then Err(BadShape)
      else Ok(AsShape(filled))
  }

  function Reshape<T>(t: Tensor<T>, dims: seq<int>): (r: Result<Tensor<T>, TensorError>)
    requires t.Valid()
    ensures r.Ok? ==> r.value.Valid()
  {
    var shape :- ResolveShape(|t.data|, dims);
    Ok(Tensor(shape, t.data))
  }

  // ---------------------------------------------------------------- permute

  /** Every axis of a tensor of rank |axes| is named exactly once. */
  predicate IsPermutation(axes: seq<nat>) {
    && (forall i :: 0 <= i < |axes| ==> axes[i] < |axes|)
    && (forall i, j :: 0 <= i < j < |axes| ==> axes[i] != axes[j])
    && (forall d :: 0 <= d < |axes| ==> d in axes)
  }

  function Position(axes: seq<nat>, d: nat): (i: nat)
    requires d in axes
    ensures i < |axes| && axes[i] == d
  {
    if axes[0] == d then 0 else 1 + Position(axes[1..], d)
  }

  function PermutedShape(shape: seq<nat>, axes: seq<nat>): (r: seq<nat>)
    requires |axes| == |shape| && IsPermutation(axes)
    ensures |r| == |shape|
  {
    seq(|axes|, i requires 0 <= i < |axes| => shape[axes[i]])
  }

  /** The input index whose entry lands at output index `idx`: coordinate axes[i] is idx[i]. */
  function Unpermuted(axes: seq<nat>, idx: seq<nat>): (r: seq<nat>)
    requires |idx| == |axes| && IsPermutation(axes)
    ensures |r| == |axes|
  {
    seq(|axes|, d requires 0 <= d < |axes| => idx[Position(axes, d)])
  }

  lemma UnpermutedInShape(shape: seq<nat>, axes: seq<nat>, idx: seq<nat>)
    requires |axes| == |shape| && IsPermutation(axes)
    requires InShape(PermutedShape(shape, axes), idx)
    ensures InShape(shape, Unpermuted(axes, idx))
    ensures forall i :: 0 <= i < |axes| ==> Unpermuted(axes, idx)[axes[i]] == idx[i]
  {
  }

  function PermuteSource(shape: seq<nat>, axes: seq<nat>, k: nat): (r: nat)
    requires |axes| == |shape| && IsPermutation(axes)
    requires k < Prod(PermutedShape(shape, axes))
    ensures r < Prod(shape)
  {
    var idx := Unflat(PermutedShape(shape, axes), k);
    UnpermutedInShape(shape, axes, idx);
    FlatBound(shape, Unpermuted(axes, idx));
    Flat(shape, Unpermuted(axes, idx))
  }

  function PermuteAxes<T>(t: Tensor<T>, axes: seq<nat>): (r: Tensor<T>)
    requires t.Valid() && |axes| == |t.shape| && IsPermutation(axes)
    ensures r.Valid() && r.shape == PermutedShape(t.shape, axes)
  {
    var shape := PermutedShape(t.shape, axes);
    Tensor(shape, seq(Prod(shape), k requires 0 <= k < Prod(shape) => t.data[PermuteSource(t.shape, axes, k)]))
  }

  /** Negative dimensions count from the end. */
  function WrapDim(d: int, rank: nat): int {
    if d < 0 then d + rank else d
  }

  predicate DimsInRange(dims: seq<int>, rank: nat) {
    forall i :: 0 <= i < |dims| ==> -(rank as int) <= dims[i] < rank
  }

  function WrapDims(dims: seq<int>, rank: nat): (r: seq<nat>)
    requires DimsInRange(dims, rank)
    ensures |r| == |dims|
    ensures forall i :: 0 <= i < |dims| ==> r[i] == WrapDim(dims[i], rank)
  {
    seq(|dims|, i requires 0 <= i < |dims| => WrapDim(dims[i], rank))
  }

  function Permute<T>(t: Tensor<T>, dims: seq<int>): (r: Result<Tensor<T>, TensorError>)
    requires t.Valid()
    ensures r.Ok? ==> r.value.Valid()
  {
    if |dims| != |t.shape| || !DimsInRange(dims, |dims|) || !IsPermutation(WrapDims(dims, |dims|)) then
      Err(BadDims)
    else
      Ok(PermuteAxes(t, WrapDims(dims, |dims|)))
  }

  /** The permutation that swaps two axes; Python list indexing rejects axes out of range. */
  function SwapDims(rank: nat, d0: int, d1: int): (r: Result<seq<int>, TensorError>)
    ensures r.Ok? ==> |r.value| == rank
  {
    if !(-(rank as int) <= d0 < rank && -(rank as int) <= d1 < rank) then
      Err(BadDims)
    else
      var id: seq<int> := seq(rank, i => i);
      var a, b := WrapDim(d0, rank), WrapDim(d1, rank);
      Ok(id[a := b][b := a])
  }

  function Transpose<T>(t: Tensor<T>, d0: int, d1: int): (r: Result<Tensor<T>, TensorError>)
    requires t.Valid()
    ensures r.Ok? ==> r.value.Valid()
  {
    var dims :- SwapDims(|t.shape|, d0, d1);
    Permute(t, dims)
  }

  // ---------------------------------------------------------------- indexing

  /** One entry of an index tuple. */
  datatype Item =
    | Int(i: int)
    | Span(lo: Option<int>, hi: Option<int>, step: int)
    | List(rows: seq<int>)
    | Ellipsis

  /** `:` */
  const FULL := Span(None, None, 1)

  /** An item resolved against the extent of its axis. */
  datatype Selector = Pick(i: nat) | Take(rows: seq<nat>)

  predicate Fits(s: Selector, n: nat) {
    match s
    case Pick(i) => i < n
    case Take(rows) => forall j :: 0 <= j < |rows| ==> rows[j] < n
  }

  /** A slice bound, wrapped when negative and clamped to the axis. */
  function Clamp(b: int, n: nat): (r: nat)
    ensures r <= n
  {
    var w := if b < 0 then b + n else b;
    if w < 0 then 0 else if w > n then n else w
  }

  function SpanRows(lo: nat, hi: nat, step: nat): (r: seq<nat>)
    requires step > 0
    ensures forall j :: 0 <= j < |r| ==> r[j] < hi
    ensures step == 1 && lo <= hi ==> |r| == hi - lo && forall j :: 0 <= j < |r| ==> r[j] == lo + j
    decreases hi - lo
  {
    if lo >= hi then [] else [lo] + SpanRows(lo + step, hi, step)
  }

  function Resolve(item: Item, n: nat): (r: Result<Selector, TensorError>)
    ensures r.Ok? ==> Fits(r.value, n)
  {
    match item
    case Int(i) => if -(n as int) <= i < n then Ok(Pick(WrapDim(i, n))) else Err(BadIndex)
    case Span(lo, hi, step) =>
      if step <= 0 then Err(BadIndex)
      else
        var l := if lo.Some? then Clamp(lo.value, n) else 0;
        var h := if hi.Some? then Clamp(hi.value, n) else n;
        Ok(Take(SpanRows(l, h, step)))
    case List(rows) =>
      if forall j :: 0 <= j < |rows| ==> -(n as int) <= rows[j] < n then
        Ok(Take(seq(|rows|, j requires 0 <= j < |rows| => WrapDim(rows[j], n) as nat)))
      else
        Err(BadIndex)
    case Ellipsis => Err(BadIndex)
  }

  function ResolveAll(items: seq<Item>, shape: seq<nat>): (r: Result<seq<Selector>, TensorError>)
    requires |items| == |shape|
    ensures r.Ok? ==> SelectorsFit(r.value, shape)
    ensures r.Ok? ==> forall i :: 0 <= i < |items| ==> Resolve(items[i], shape[i]) == Ok(r.value[i])
    ensures r.Err? ==> exists i :: 0 <= i < |items| && Resolve(items[i], shape[i]).Err?
  {
    if items == [] then Ok([])
    else
      var front :- ResolveAll(Front(items), Front(shape));
      var last :- Resolve(Last(items), Last(shape));
      Ok(front + [last])
  }

  predicate SelectorsFit(sels: seq<Selector>, shape: seq<nat>) {
    |sels| == |shape| && forall i :: 0 <= i < |sels| ==> Fits(sels[i], shape[i])
  }

  /** The shape after selection: a picked axis disappears. */
  function SelectedShape(sels: seq<Selector>): seq<nat> {
    if sels == [] then []
    else if Last(sels).Pick? then SelectedShape(Front(sels))
    else SelectedShape(Front(sels)) + [|Last(sels).rows|]
  }

  /** The input index that a selection reads for output index `idx`. */
  function Embed(sels: seq<Selector>, idx: seq<nat>): (r: seq<nat>)
    requires InShape(SelectedShape(sels), idx)
    ensures |r| == |sels|
  {
    if sels == [] then []
    else if Last(sels).Pick? then Embed(Front(sels), idx) + [Last(sels).i]
    else Embed(Front(sels), Front(idx)) + [Last(sels).rows[Last(idx)]]
  }

  lemma {:induction false} EmbedInShape(sels: seq<Selector>, shape: seq<nat>, idx: seq<nat>)
    requires SelectorsFit(sels, shape) && InShape(SelectedShape(sels), idx)
    ensures InShape(shape, Embed(sels, idx))
  {
    if sels != [] {
      EmbedInShape(Front(sels), Front(shape), if Last(sels).Pick? then idx else Front(idx));
      assert Fits(sels[|sels| - 1], shape[|sels| - 1]);
    }
  }

  function SelectSource(shape: seq<nat>, sels: seq<Selector>, k: nat): (r: nat)
    requires SelectorsFit(sels, shape) && k < Prod(SelectedShape(sels))
    ensures r < Prod(shape)
  {
    var idx := Unflat(SelectedShape(sels), k);
    EmbedInShape(sels, shape, idx);
    FlatBound(shape, Embed(sels, idx));
    Flat(shape, Embed(sels, idx))
  }

  function Select<T>(t: Tensor<T>, sels: seq<Selector>): (r: Tensor<T>)
    requires t.Valid() && SelectorsFit(sels, t.shape)
    ensures r.Valid() && r.shape == SelectedShape(sels)
  {
    var shape := SelectedShape(sels);
    Tensor(shape, seq(Prod(shape), k requires 0 <= k < Prod(shape) => t.data[SelectSource(t.shape, sels, k)]))
  }

  function CountLists(items: seq<Item>): nat {
    if items == [] then 0 else CountLists(Front(items)) + (if Last(items).List? then 1 else 0)
  }

  // -- several lists are read together

  /** Integers pick and the others take. */
  predicate KindsFit(items: seq<Item>, sels: seq<Selector>) {
    |items| == |sels| && forall i :: 0 <= i < |items| ==> (items[i].Int? <==> sels[i].Pick?) && !items[i].Ellipsis?
  }

  lemma ResolvedKinds(items: seq<Item>, shape: seq<nat>)
    requires |items| == |shape| && ResolveAll(items, shape).Ok?
    ensures KindsFit(items, ResolveAll(items, shape).value)
  {
    hide ResolveAll;
    forall i | 0 <= i < |items|
      ensures (items[i].Int? <==> ResolveAll(items, shape).value[i].Pick?) && !items[i].Ellipsis?
    {
      assert Resolve(items[i], shape[i]) == Ok(ResolveAll(items, shape).value[i]);
    }
  }

  function CountSpans(items: seq<Item>): nat {
    if items == [] then 0 else CountSpans(Front(items)) + (if Last(items).Span? then 1 else 0)
  }

  /** How many slices come before the first list. */
  function SpansBeforeLists(items: seq<Item>): (n: nat)
    ensures n <= CountSpans(items)
  {
    if items == [] then 0
    else if Last(items).Span? && CountLists(items) == 0 then SpansBeforeLists(Front(items)) + 1
    else SpansBeforeLists(Front(items))
  }

  /** How many slices come after the last list. */
  function SpansAfterLists(items: seq<Item>): nat {
    if items == [] || Last(items).List? then 0
    else SpansAfterLists(Front(items)) + (if Last(items).Span? then 1 else 0)
  }

  /** Where the one axis of all lists goes: in place of lists that no slice separates, otherwise in front. */
  function ListPlace(items: seq<Item>): (p: nat)
    ensures p <= CountSpans(items)
  {
    var before := SpansBeforeLists(items);
    if before + SpansAfterLists(items) == CountSpans(items) then before else 0
  }

  /** The length of the lists that are longer or shorter than one. */
  function CommonLength(items: seq<Item>, sels: seq<Selector>): nat
    requires KindsFit(items, sels)
  {
    if items == [] then 1
    else if Last(items).List? && |Last(sels).rows| != 1 then |Last(sels).rows|
    else CommonLength(Front(items), Front(sels))
  }

  /** Every list has that length, or one, and is then repeated. */
  predicate ListsFit(items: seq<Item>, sels: seq<Selector>, length: nat)
    requires KindsFit(items, sels)
  {
    forall i :: 0 <= i < |items| && items[i].List? ==> |sels[i].rows| == 1 || |sels[i].rows| == length
  }

  /** The shape that the slices leave. */
  function SliceShape(items: seq<Item>, sels: seq<Selector>): (r: seq<nat>)
    requires KindsFit(items, sels)
    ensures |r| == CountSpans(items)
  {
    if items == [] then []
    else
      var front := SliceShape(Front(items), Front(sels));
      if Last(items).Span? then front + [|Last(sels).rows|] else front
  }

  function TogetherShape(items: seq<Item>, sels: seq<Selector>, length: nat): (r: seq<nat>)
    requires KindsFit(items, sels)
    ensures |r| == CountSpans(items) + 1
  {
    var (slices, p) := (SliceShape(items, sels), ListPlace(items));
    slices[..p] + [length] + slices[p..]
  }

  /** The input index of list position k and slice index idx. */
  function EmbedLists(items: seq<Item>, sels: seq<Selector>, length: nat, k: nat, idx: seq<nat>): (r: seq<nat>)
    requires KindsFit(items, sels) && ListsFit(items, sels, length) && k < length && InShape(SliceShape(items, sels), idx)
    ensures |r| == |items|
  {
    if items == [] then []
    else
      var (item, sel) := (Last(items), Last(sels));
      assert item == items[|items| - 1] && sel == sels[|sels| - 1];
      var rest := EmbedLists(Front(items), Front(sels), length, k, if item.Span? then Front(idx) else idx);
      rest + [if item.Int? then sel.i
              else if item.Span? then sel.rows[Last(idx)]
              else sel.rows[if |sel.rows| == 1 then 0 else k]]
  }

  lemma {:induction false} EmbedListsInShape(items: seq<Item>, sels: seq<Selector>, shape: seq<nat>, length: nat, k: nat,
                                             idx: seq<nat>)
    requires KindsFit(items, sels) && ListsFit(items, sels, length) && k < length && InShape(SliceShape(items, sels), idx)
    requires SelectorsFit(sels, shape)
    ensures InShape(shape, EmbedLists(items, sels, length, k, idx))
  {
    if items != [] {
      var (item, sel, n) := (Last(items), Last(sels), |items| - 1);
      LastOfIndex(items, sels, shape, length, idx);
      var front := if item.Span? then Front(idx) else idx;
      EmbedListsInShape(Front(items), Front(sels), Front(shape), length, k, front);
      LastFits(item, sel, shape[n], length, k, if item.Span? then Last(idx) else 0);
      hide KindsFit, ListsFit, SliceShape, Fits, SelectorsFit;
      InShapeNext(shape, EmbedLists(Front(items), Front(sels), length, k, front),
                  if item.Int? then sel.i else if item.Span? then sel.rows[Last(idx)] else sel.rows[if |sel.rows| == 1 then 0 else k]);
    }
  }

  lemma InShapeNext(shape: seq<nat>, idx: seq<nat>, x: nat)
    requires shape != [] && InShape(Front(shape), idx) && x < Last(shape)
    ensures InShape(shape, idx + [x])
  {
  }

  /** What a tuple, its selectors and an index of its slices come to without the last axis. */
  lemma LastOfIndex(items: seq<Item>, sels: seq<Selector>, shape: seq<nat>, length: nat, idx: seq<nat>)
    requires items != [] && KindsFit(items, sels) && ListsFit(items, sels, length) && InShape(SliceShape(items, sels), idx)
    requires SelectorsFit(sels, shape)
    ensures KindsFit(Front(items), Front(sels)) && ListsFit(Front(items), Front(sels), length)
    ensures SelectorsFit(Front(sels), Front(shape)) && Fits(Last(sels), Last(shape))
    ensures var (item, sel) := (Last(items), Last(sels));
            && (item.Int? <==> sel.Pick?) && !item.Ellipsis?
            && (item.List? ==> |sel.rows| == 1 || |sel.rows| == length)
            && if item.Span? then idx != [] && InShape(SliceShape(Front(items), Front(sels)), Front(idx)) && Last(idx) < |sel.rows|
               else InShape(SliceShape(Front(items), Front(sels)), idx)
  {
    var n := |items| - 1;
    assert items[n] == Last(items) && sels[n] == Last(sels) && Fits(sels[n], shape[n]);
  }

  lemma LastFits(item: Item, sel: Selector, extent: nat, length: nat, k: nat, i: nat)
    requires Fits(sel, extent) && (item.Int? <==> sel.Pick?) && !item.Ellipsis?
    requires item.List? ==> |sel.rows| == 1 || k < |sel.rows|
    requires item.Span? ==> i < |sel.rows|
    ensures (if item.Int? then sel.i else if item.Span? then sel.rows[i] else sel.rows[if |sel.rows| == 1 then 0 else k]) < extent
  {
  }

  /** An index of the output, taken apart into the list position and the slice index. */
  lemma SplitIndex(slices: seq<nat>, p: nat, length: nat, idx: seq<nat>)
    requires p <= |slices| && InShape(slices[..p] + [length] + slices[p..], idx)
    ensures idx[p] < length && InShape(slices, idx[..p] + idx[p + 1..])
  {
    var out, rest := slices[..p] + [length] + slices[p..], idx[..p] + idx[p + 1..];
    assert idx[p] < out[p] == length;
    forall i | 0 <= i < |rest|
      ensures rest[i] < slices[i]
    {
      if i < p {
        assert rest[i] == idx[i] < out[i] == slices[i];
      } else {
        assert rest[i] == idx[i + 1] < out[i + 1] == slices[i];
      }
    }
  }

  /** The input index that is read for an index of the output. */
  function TogetherIndex(shape: seq<nat>, items: seq<Item>, sels: seq<Selector>, length: nat, idx: seq<nat>): (r: seq<nat>)
    requires KindsFit(items, sels) && ListsFit(items, sels, length) && SelectorsFit(sels, shape)
    requires InShape(TogetherShape(items, sels, length), idx)
    ensures InShape(shape, r)
  {
    var p := ListPlace(items);
    SplitIndex(SliceShape(items, sels), p, length, idx);
    EmbedListsInShape(items, sels, shape, length, idx[p], idx[..p] + idx[p + 1..]);
    EmbedLists(items, sels, length, idx[p], idx[..p] + idx[p + 1..])
  }

  /** The input offset that is read for offset k of the output. */
  function TogetherSource(shape: seq<nat>, items: seq<Item>, sels: seq<Selector>, length: nat, k: nat): (r: nat)
    requires KindsFit(items, sels) && ListsFit(items, sels, length) && SelectorsFit(sels, shape)
    requires k < Prod(TogetherShape(items, sels, length))
    ensures r < Prod(shape)
  {
    var idx := TogetherIndex(shape, items, sels, length, Unflat(TogetherShape(items, sels, length), k));
    FlatBound(shape, idx);
    Flat(shape, idx)
  }

  function SelectTogether<T>(t: Tensor<T>, items: seq<Item>, sels: seq<Selector>, length: nat): (r: Tensor<T>)
    requires t.Valid() && KindsFit(items, sels) && ListsFit(items, sels, length) && SelectorsFit(sels, t.shape)
    ensures r.Valid() && r.shape == TogetherShape(items, sels, length)
  {
    var shape := TogetherShape(items, sels, length);
    Tensor(shape, seq(Prod(shape), k requires 0 <= k < Prod(shape) => t.data[TogetherSource(t.shape, items, sels, length, k)]))
  }

  /** Indexing by a tuple that names every axis. One list selects along its axis; several are read together. */
  function Index<T>(t: Tensor<T>, items: seq<Item>): (r: Result<Tensor<T>, TensorError>)
    requires t.Valid()
    ensures r.Ok? ==> r.value.Valid()
  {
    if |items| != |t.shape| then Err(BadIndex)
    else
      var sels :- ResolveAll(items, t.shape);
      ResolvedKinds(items, t.shape);
      if CountLists(items) <= 1 then Ok(Select(t, sels))
      else
        var length := CommonLength(items, sels);
        if ListsFit(items, sels, length) then Ok(SelectTogether(t, items, sels, length)) else Err(BadIndex)
  }

  function Fulls(n: nat): (r: seq<Item>)
    ensures |r| == n && forall i :: 0 <= i < n ==> r[i] == FULL
  {
    seq(n, i => FULL)
  }

  function CountEllipsis(items: seq<Item>): nat {
    if items == [] then 0 else CountEllipsis(Front(items)) + (if Last(items).Ellipsis? then 1 else 0)
  }

  /** torch's reading of an index tuple: one ellipsis stands for all the axes not named. */
  function DenseExpand(items: seq<Item>, rank: nat): Result<seq<Item>, TensorError> {
    var named := |items| - CountEllipsis(items);
    if CountEllipsis(items) > 1 || named > rank || named < 0 then Err(BadIndex)
    else if CountEllipsis(items) == 0 then Ok(items + Fulls(rank - named))
    else Ok(SpliceEllipsis(items, rank - named))
  }

  /** Every ellipsis replaced by `n` full slices. */
  function SpliceEllipsis(items: seq<Item>, n: nat): seq<Item> {
    if items == [] then []
    else SpliceEllipsis(Front(items), n) + (if Last(items).Ellipsis? then Fulls(n) else [Last(items)])
  }

  // ---------------------------------------------------------------- rows

  // A tensor of shape lead + [w] is a list of Prod(lead) rows of width w.

  lemma RowSplit(lead: seq<nat>, w: nat)
    ensures Front(lead + [w]) == lead
    ensures Prod(lead + [w]) == Prod(lead) * w
  {
    assert Front(lead + [w]) == lead;
  }

  lemma FlatRow(shape: seq<nat>, idx: seq<nat>, q: nat)
    requires shape != [] && |idx| + 1 == |shape|
    ensures Flat(shape, idx + [q]) == Flat(Front(shape), idx) * Last(shape) + q
  {
    assert Front(idx + [q]) == idx;
  }

  lemma UnflatRow(shape: seq<nat>, p: nat, q: nat)
    requires shape != [] && p < Prod(Front(shape)) && q < Last(shape)
    ensures p * Last(shape) + q < Prod(shape)
    ensures Unflat(shape, p * Last(shape) + q) == Unflat(Front(shape), p) + [q]
  {
    hide Prod, Flat, Unflat;
    var front := Unflat(Front(shape), p);
    FlatRow(shape, front, q);
    FlatBound(shape, front + [q]);
  }

  function Rows<T>(t: Tensor<T>): nat
    requires t.shape != []
  {
    Prod(Front(t.shape))
  }

  function Width<T>(t: Tensor<T>): nat
    requires t.shape != []
  {
    Last(t.shape)
  }

  /** Entry q of row p. */
  function Cell<T>(t: Tensor<T>, p: nat, q: nat): T
    requires t.Valid() && t.shape != [] && p < Rows(t) && q < Width(t)
  {
    UnflatRow(t.shape, p, q);
    t.data[p * Last(t.shape) + q]
  }

  lemma CellIsAt<T>(t: Tensor<T>, idx: seq<nat>, q: nat)
    requires t.Valid() && t.shape != [] && InShape(t.shape, idx + [q])
    ensures Front(idx + [q]) == idx && Flat(Front(t.shape), idx) < Rows(t)
    ensures Cell(t, Flat(Front(t.shape), idx), q) == At(t, idx + [q])
  {
    hide Prod, Flat, Unflat;
    assert Front(idx + [q]) == idx;
    assert forall i :: 0 <= i < |idx| ==> (idx + [q])[i] == idx[i];
    FlatBound(Front(t.shape), idx);
    FlatRow(t.shape, idx, q);
  }

  lemma SameCells<T>(t: Tensor<T>, u: Tensor<T>)
    requires t.Valid() && u.Valid() && t.shape == u.shape != []
    requires forall p: nat, q: nat | p < Rows(t) && q < Width(t) :: Cell(t, p, q) == Cell(u, p, q)
    ensures t == u
  {
    forall k | 0 <= k < |t.data|
      ensures t.data[k] == u.data[k]
    {
      Quotient(k, Rows(t), Width(t));
      assert Cell(t, k / Width(t), k % Width(t)) == Cell(u, k / Width(t), k % Width(t));
    }
  }

  /** A permutation that leaves the last axis in place moves whole rows. */
  lemma PermuteRows<T>(t: Tensor<T>, axes: seq<nat>, p: nat, q: nat)
    requires t.Valid() && t.shape != [] && |axes| == |t.shape| && IsPermutation(axes) && Last(axes) == |axes| - 1
    requires q < Width(t)
    ensures IsPermutation(Front(axes))
    ensures PermutedShape(t.shape, axes) == PermutedShape(Front(t.shape), Front(axes)) + [Width(t)]
    ensures p < Prod(PermutedShape(Front(t.shape), Front(axes))) ==>
              Cell(PermuteAxes(t, axes), p, q) == Cell(t, PermuteSource(Front(t.shape), Front(axes), p), q)
  {
    hide Prod, Flat, Unflat;
    FrontPermutation(axes);
    var to := PermutedShape(t.shape, axes);
    assert to == PermutedShape(Front(t.shape), Front(axes)) + [Width(t)];
    assert Front(to) == PermutedShape(Front(t.shape), Front(axes));
    if p < Prod(Front(to)) {
      UnflatRow(to, p, q);
      var idx := Unflat(Front(to), p);
      UnpermuteRow(axes, idx, q);
      FlatRow(t.shape, Unpermuted(Front(axes), idx), q);
    }
  }

  lemma UnpermuteRow(axes: seq<nat>, idx: seq<nat>, q: nat)
    requires axes != [] && IsPermutation(axes) && Last(axes) == |axes| - 1
    requires |idx| + 1 == |axes|
    ensures IsPermutation(Front(axes))
    ensures Unpermuted(axes, idx + [q]) == Unpermuted(Front(axes), idx) + [q]
  {
    FrontPermutation(axes);
    var n := |axes| - 1;
    forall d | 0 <= d <= n
      ensures Unpermuted(axes, idx + [q])[d] == (Unpermuted(Front(axes), idx) + [q])[d]
    {
      var i := Position(axes, d);
      if d < n {
        assert axes[i] == Front(axes)[Position(Front(axes), d)];
      } else {
        assert axes[i] == axes[n];
      }
    }
  }

  lemma FrontPermutation(axes: seq<nat>)
    requires axes != [] && IsPermutation(axes) && Last(axes) == |axes| - 1
    ensures IsPermutation(Front(axes))
  {
    forall d | 0 <= d < |Front(axes)|
      ensures d in Front(axes)
    {
      var i := Position(axes, d);
      assert Front(axes)[i] == d;
    }
  }

  /** A selection that keeps the last axis moves whole rows, thinning each the same way. */
  lemma SelectRows<T>(t: Tensor<T>, sels: seq<Selector>, p: nat, j: nat)
    requires t.Valid() && t.shape != [] && SelectorsFit(sels, t.shape)
    requires Last(sels).Take? && j < |Last(sels).rows|
    ensures SelectorsFit(Front(sels), Front(t.shape)) && Last(sels).rows[j] < Width(t)
    ensures SelectedShape(sels) == SelectedShape(Front(sels)) + [|Last(sels).rows|]
    ensures p < Prod(SelectedShape(Front(sels))) ==>
              Cell(Select(t, sels), p, j) == Cell(t, SelectSource(Front(t.shape), Front(sels), p), Last(sels).rows[j])
  {
    hide Prod, Flat, Unflat;
    var to := SelectedShape(sels);
    assert Front(to) == SelectedShape(Front(sels));
    assert Fits(sels[|sels| - 1], t.shape[|sels| - 1]);
    if p < Prod(Front(to)) {
      UnflatRow(to, p, j);
      var idx := Unflat(Front(to), p);
      assert Front(idx + [j]) == idx;
      FlatRow(t.shape, Embed(Front(sels), idx), Last(sels).rows[j]);
    }
  }

  // ---------------------------------------------------------------- entries

  lemma PermuteAt<T>(t: Tensor<T>, axes: seq<nat>, idx: seq<nat>)
    requires t.Valid() && |axes| == |t.shape| && IsPermutation(axes) && InShape(PermutedShape(t.shape, axes), idx)
    ensures InShape(t.shape, Unpermuted(axes, idx))
    ensures At(PermuteAxes(t, axes), idx) == At(t, Unpermuted(axes, idx))
  {
    hide Prod, Flat, Unflat;
    UnpermutedInShape(t.shape, axes, idx);
    FlatBound(PermutedShape(t.shape, axes), idx);
  }

  lemma SelectAt<T>(t: Tensor<T>, sels: seq<Selector>, idx: seq<nat>)
    requires t.Valid() && SelectorsFit(sels, t.shape) && InShape(SelectedShape(sels), idx)
    ensures InShape(t.shape, Embed(sels, idx))
    ensures At(Select(t, sels), idx) == At(t, Embed(sels, idx))
  {
    hide Prod, Flat, Unflat;
    EmbedInShape(sels, t.shape, idx);
    FlatBound(SelectedShape(sels), idx);
  }

  lemma FlatOne(n: nat, i: nat)
    ensures Flat([n], [i]) == i && Prod([n]) == n
  {
    assert Front([n]) == [] && Front([i]) == [];
  }

  lemma FlatTwo(a: nat, b: nat, i: nat, j: nat)
    ensures Flat([a, b], [i, j]) == i * b + j && Prod([a, b]) == a * b
  {
    FlatOne(a, i);
    assert Front([a, b]) == [a] && Front([i, j]) == [i];
  }

  lemma FlatThree(a: nat, b: nat, c: nat, i: nat, j: nat, k: nat)
    ensures Flat([a, b, c], [i, j, k]) == (i * b + j) * c + k
    ensures Prod([a, b, c]) == a * b * c
  {
    FlatTwo(a, b, i, j);
    assert Front([a, b, c]) == [a, b] && Front([i, j, k]) == [i, j];
  }
}
