/**
  Weight-layout changes of the HF converter: the RoPE head permute, Falcon's QKV regroup and
  PLaMo's head shuffles. Each is the list of tensor operations the converter applies, so the
  same list runs on a dense weight and on a low-rank pair.
 */
module Layouts {
  import opened Wrappers
  import opened Tensors
  import opened Lora
  import opened LoraBatches

  // ---------------------------------------------------------------- leading axes

  lemma {:induction false} SplitFlat(lead: seq<nat>, rest: seq<nat>, i: seq<nat>, idx: seq<nat>)
    requires |i| == |lead| && |idx| == |rest|
    ensures Prod(lead + rest) == Prod(lead) * Prod(rest)
    ensures Flat(lead + rest, i + idx) == Flat(lead, i) * Prod(rest) + Flat(rest, idx)
  {
    if rest == [] {
      assert lead + rest == lead && i + idx == i;
    } else {
      assert Front(lead + rest) == lead + Front(rest) && Front(i + idx) == i + Front(idx);
      SplitFlat(lead, Front(rest), i, Front(idx));
      var p, w := Prod(Front(rest)), Last(rest);
      Associate(Prod(lead), p, w);
      Associate(Flat(lead, i), p, w);
      Distribute(Flat(lead, i) * p, Flat(Front(rest), Front(idx)), w);
    }
  }

  lemma LeadBound(lead: seq<nat>, rest: seq<nat>, i: seq<nat>, idx: seq<nat>)
    requires InShape(lead, i) && InShape(rest, idx)
    ensures InShape(lead + rest, i + idx) && Flat(lead, i) < Prod(lead)
  {
    hide Flat, Prod;
    FlatBound(lead, i);
  }

  /** Regrouping the leading axes moves no entry. */
  lemma RegroupAt<T>(t: Tensor<T>, u: Tensor<T>, leadT: seq<nat>, leadU: seq<nat>, rest: seq<nat>,
                     i: seq<nat>, j: seq<nat>, idx: seq<nat>)
    requires t.Valid() && u.Valid() && t.data == u.data
    requires t.shape == leadT + rest && u.shape == leadU + rest
    requires InShape(leadT, i) && InShape(leadU, j) && InShape(rest, idx) && Flat(leadT, i) == Flat(leadU, j)
    ensures InShape(t.shape, i + idx) && InShape(u.shape, j + idx)
    ensures At(t, i + idx) == At(u, j + idx)
  {
    hide Prod, Flat, Unflat;
    LeadBound(leadT, rest, i, idx);
    LeadBound(leadU, rest, j, idx);
    SplitFlat(leadT, rest, i, idx);
    SplitFlat(leadU, rest, j, idx);
  }

  /** `out` has t's shape and its row `to` is t's row `from`. */
  ghost predicate RowMoved(t: Tensor<real>, out: Tensor<real>, from: int, to: int) {
    && t.Valid() && out.Valid() && out.shape == t.shape != []
    && 0 <= from < t.shape[0] && 0 <= to < t.shape[0]
    && Sub(out, to) == Sub(t, from)
  }

  // ---------------------------------------------------------------- shuffling groups of rows

  /** The axes p followed by the remaining axes in order. */
  function LeadAxes(p: seq<nat>, rank: nat): (axes: seq<nat>)
    requires |p| <= rank
    ensures |axes| == rank
  {
    seq(rank, i requires 0 <= i < rank => if i < |p| then p[i] else i)
  }

  lemma LeadAxesAxes(p: seq<nat>, rank: nat)
    requires IsPermutation(p) && |p| <= rank
    ensures IsPermutation(LeadAxes(p, rank))
  {
    var axes := LeadAxes(p, rank);
    forall d | 0 <= d < rank
      ensures d in axes
    {
      if d < |p| {
        assert axes[Position(p, d)] == d;
      } else {
        assert axes[d] == d;
      }
    }
  }

  lemma LeadAxesShape(p: seq<nat>, lead: seq<nat>, rest: seq<nat>)
    requires IsPermutation(p) && |p| == |lead| && IsPermutation(LeadAxes(p, |lead| + |rest|))
    ensures PermutedShape(lead + rest, LeadAxes(p, |lead| + |rest|)) == PermutedShape(lead, p) + rest
  {
  }

  lemma LeadAxesPermute(p: seq<nat>, lead: seq<nat>, rest: seq<nat>, j: seq<nat>, idx: seq<nat>)
    requires IsPermutation(p) && |p| == |lead| == |j| && |idx| == |rest|
    ensures var axes := LeadAxes(p, |lead| + |rest|);
            && IsPermutation(axes)
            && PermutedShape(lead + rest, axes) == PermutedShape(lead, p) + rest
            && Unpermuted(axes, j + idx) == Unpermuted(p, j) + idx
  {
    var axes := LeadAxes(p, |lead| + |rest|);
    LeadAxesAxes(p, |lead| + |rest|);
    LeadAxesShape(p, lead, rest);
    forall d | 0 <= d < |axes|
      ensures Unpermuted(axes, j + idx)[d] == (Unpermuted(p, j) + idx)[d]
    {
      var i := Position(axes, d);
      if d < |p| {
        assert p[Position(p, d)] == d;
        assert i < |p|;
      } else {
        assert axes[d] == d;
      }
    }
  }

  /** Rows grouped as `lead`, the groups reordered by p, rows flattened again. */
  function ShuffleRows<T>(t: Tensor<T>, lead: seq<nat>, p: seq<nat>): (r: Tensor<T>)
    requires t.Valid() && t.shape != [] && Prod(lead) == t.shape[0]
    requires IsPermutation(p) && |p| == |lead| && Prod(PermutedShape(lead, p)) == t.shape[0]
    ensures r.Valid() && r.shape == t.shape
  {
    var rest := Tail(t.shape);
    RegroupedCount(t.shape, lead);
    RegroupedCount(t.shape, PermutedShape(lead, p));
    LeadAxesPermute(p, lead, rest, lead, rest);
    Tensor(t.shape, PermuteAxes(Tensor(lead + rest, t.data), LeadAxes(p, |lead| + |rest|)).data)
  }

  lemma RegroupedCount(shape: seq<nat>, lead: seq<nat>)
    requires shape != [] && Prod(lead) == shape[0]
    ensures Prod(lead + Tail(shape)) == Prod(shape)
  {
    SplitFlat(lead, Tail(shape), lead, Tail(shape));
    LeadSplit(shape[0], Tail(shape));
    assert [shape[0]] + Tail(shape) == shape;
  }

  /** Row j of the shuffled tensor is the row at the unpermuted group index. */
  lemma ShuffledRow<T>(t: Tensor<T>, lead: seq<nat>, p: seq<nat>, j: seq<nat>)
    requires t.Valid() && t.shape != [] && Prod(lead) == t.shape[0]
    requires IsPermutation(p) && |p| == |lead| && Prod(PermutedShape(lead, p)) == t.shape[0]
    requires InShape(PermutedShape(lead, p), j)
    ensures InShape(lead, Unpermuted(p, j))
    ensures Flat(PermutedShape(lead, p), j) < t.shape[0] && Flat(lead, Unpermuted(p, j)) < t.shape[0]
    ensures Sub(ShuffleRows(t, lead, p), Flat(PermutedShape(lead, p), j)) == Sub(t, Flat(lead, Unpermuted(p, j)))
  {
    hide Prod, Flat, Unflat, Sub, ShuffleRows, PermuteAxes;
    UnpermutedInShape(lead, p, j);
    FlatBound(lead, Unpermuted(p, j));
    FlatBound(PermutedShape(lead, p), j);
    var w := ShuffleRows(t, lead, p);
    var to, from := Flat(PermutedShape(lead, p), j), Flat(lead, Unpermuted(p, j));
    forall idx | InShape(Tail(t.shape), idx)
      ensures At(Sub(w, to), idx) == At(Sub(t, from), idx)
    {
      SubAt(w, to, idx);
      SubAt(t, from, idx);
      ShuffledAt(t, lead, p, j, idx);
    }
    SameEntries(Sub(w, to), Sub(t, from));
  }

  lemma ShuffledAt<T>(t: Tensor<T>, lead: seq<nat>, p: seq<nat>, j: seq<nat>, idx: seq<nat>)
    requires t.Valid() && t.shape != [] && Prod(lead) == t.shape[0]
    requires IsPermutation(p) && |p| == |lead| && Prod(PermutedShape(lead, p)) == t.shape[0]
    requires InShape(PermutedShape(lead, p), j) && InShape(lead, Unpermuted(p, j)) && InShape(Tail(t.shape), idx)
    ensures var to, from := Flat(PermutedShape(lead, p), j), Flat(lead, Unpermuted(p, j));
            && InShape(t.shape, [to] + idx) && InShape(t.shape, [from] + idx)
            && At(ShuffleRows(t, lead, p), [to] + idx) == At(t, [from] + idx)
  {
    hide Prod, Flat, Unflat;
    var rest, m := Tail(t.shape), t.shape[0];
    assert t.shape == [m] + rest;
    var to, from := Flat(PermutedShape(lead, p), j), Flat(lead, Unpermuted(p, j));
    FlatBound(lead, Unpermuted(p, j));
    FlatBound(PermutedShape(lead, p), j);
    RegroupedCount(t.shape, lead);
    RegroupedCount(t.shape, PermutedShape(lead, p));
    LeadAxesPermute(p, lead, rest, j, idx);
    var axes := LeadAxes(p, |lead| + |rest|);
    var u := Tensor(lead + rest, t.data);
    var v := PermuteAxes(u, axes);
    FlatOne(m, to);
    FlatOne(m, from);
    RegroupAt(v, ShuffleRows(t, lead, p), PermutedShape(lead, p), [m], rest, j, [to], idx);
    PermuteAt(u, axes, j + idx);
    RegroupAt(u, t, lead, [m], rest, Unpermuted(p, j), [from], idx);
  }

  lemma NonNegativeShape(numel: nat, shape: seq<nat>)
    ensures ResolveShape(numel, shape) == if Prod(shape) == numel then Ok(shape) else Err(BadShape)
  {
    NoneInferred(shape);
    assert AsShape(shape) == shape;
  }

  // ---------------------------------------------------------------- RoPE head permute

  /** K weights are regrouped by the number of KV heads. */
  function RopeHeads(nHead: nat, nHeadKv: Option<nat>): nat {
    if nHeadKv.Some? && nHead != nHeadKv.value then nHeadKv.value else nHead
  }

  /** reshape(heads, 2, rows // heads // 2, ...).swapaxes(1, 2).reshape(shape) */
  function RopeOps(shape: seq<nat>, heads: nat): seq<Op>
    requires shape != [] && heads > 0
  {
    [ReshapeTo([heads, 2, shape[0] / heads / 2] + shape[1..]), SwapAxes(1, 2), ReshapeTo(shape)]
  }

  /** The row that the RoPE permute moves to row r: pair k of a head comes from the two halves. */
  function RopeSource(r: int, half: nat): int
    requires half > 0
  {
    var d := 2 * half;
    r / d * d + r % d % 2 * half + r % d / 2
  }

  lemma RopePermutation()
    ensures IsPermutation([0, 2, 1])
  {
    var p: seq<nat> := [0, 2, 1];
    assert p[0] == 0 && p[1] == 2 && p[2] == 1;
  }

  lemma GroupStep(t: Tensor<real>, lead: seq<nat>)
    requires t.Valid() && t.shape != [] && Prod(lead) == t.shape[0]
    ensures Tensor(lead + Tail(t.shape), t.data).Valid()
    ensures DenseStep(t, ReshapeTo(lead + Tail(t.shape))) == Ok(Tensor(lead + Tail(t.shape), t.data))
  {
    hide Prod;
    RegroupedCount(t.shape, lead);
    NonNegativeShape(|t.data|, lead + Tail(t.shape));
  }

  lemma UngroupStep(t: Tensor<real>, lead: seq<nat>, shape: seq<nat>)
    requires t.Valid() && shape != [] && Prod(lead) == shape[0] && t.shape == lead + Tail(shape)
    ensures Tensor(shape, t.data).Valid()
    ensures DenseStep(t, ReshapeTo(shape)) == Ok(Tensor(shape, t.data))
  {
    hide Prod;
    RegroupedCount(shape, lead);
    NonNegativeShape(|t.data|, shape);
  }

  lemma RopeSwap(u: Tensor<real>)
    requires u.Valid() && |u.shape| >= 3
    ensures IsPermutation([0, 2, 1])
    ensures IsPermutation(LeadAxes([0, 2, 1], |u.shape|))
    ensures DenseStep(u, SwapAxes(1, 2)) == Ok(PermuteAxes(u, LeadAxes([0, 2, 1], |u.shape|)))
  {
    hide Prod, PermuteAxes;
    RopePermutation();
    var n := |u.shape|;
    var axes := LeadAxes([0, 2, 1], n);
    LeadAxesPermute([0, 2, 1], u.shape[..3], u.shape[3..], u.shape[..3], u.shape[3..]);
    var dims := SwapDims(n, 1, 2).value;
    assert WrapDims(dims, n) == axes;
  }

  lemma RopeLead(heads: nat, half: nat)
    ensures IsPermutation([0, 2, 1]) && PermutedShape([heads, 2, half], [0, 2, 1]) == [heads, half, 2]
    ensures Prod([heads, 2, half]) == Prod([heads, half, 2]) == heads * 2 * half
  {
    RopePermutation();
    FlatThree(heads, 2, half, 0, 0, 0);
    FlatThree(heads, half, 2, 0, 0, 0);
  }

  lemma RopeRun(t: Tensor<real>, heads: nat, half: nat)
    requires t.Valid() && t.shape != [] && heads > 0 && t.shape[0] == heads * 2 * half
    ensures IsPermutation([0, 2, 1]) && PermutedShape([heads, 2, half], [0, 2, 1]) == [heads, half, 2]
    ensures Prod([heads, 2, half]) == Prod([heads, half, 2]) == t.shape[0]
    ensures DenseRun(t, RopeOps(t.shape, heads)) == Ok(ShuffleRows(t, [heads, 2, half], [0, 2, 1]))
  {
    hide Prod, PermuteAxes, DenseStep, DenseRun;
    RopeLead(heads, half);
    HalfRows(heads, half);
    var rest := Tail(t.shape);
    var lead: seq<nat>, p: seq<nat> := [heads, 2, half], [0, 2, 1];
    var ops := RopeOps(t.shape, heads);
    assert ops[0] == ReshapeTo(lead + rest);
    GroupStep(t, lead);
    var u := Tensor(lead + rest, t.data);
    RopeSwap(u);
    var v := PermuteAxes(u, LeadAxes(p, |lead| + |rest|));
    LeadAxesPermute(p, lead, rest, lead, rest);
    UngroupStep(v, [heads, half, 2], t.shape);
    RunThree(t, ops, u, v, Tensor(t.shape, v.data));
  }

  lemma RunThree(t: Tensor<real>, ops: seq<Op>, u: Tensor<real>, v: Tensor<real>, w: Tensor<real>)
    requires |ops| == 3 && t.Valid() && u.Valid() && v.Valid()
    requires DenseStep(t, ops[0]) == Ok(u) && DenseStep(u, ops[1]) == Ok(v) && DenseStep(v, ops[2]) == Ok(w)
    ensures DenseRun(t, ops) == Ok(w)
  {
    hide DenseStep;
    assert ops[1..][0] == ops[1] && ops[1..][1..] == ops[2..] && ops[2..][0] == ops[2] && ops[2..][1..] == [];
    assert DenseRun(w, []) == Ok(w);
    assert DenseRun(v, ops[2..]) == Ok(w);
    assert DenseRun(u, ops[1..]) == Ok(w);
  }

  lemma HalfRows(heads: nat, half: nat)
    requires heads > 0
    ensures heads * 2 * half / heads / 2 == half
  {
    assert heads * 2 * half == (2 * half) * heads;
    Offset(2 * half, 0, 2 * half + 1, heads);
  }

  /** The permute sends row h*d + j*d/2 + i to row h*d + 2i + j and keeps every other axis. */
  lemma RopeRow(t: Tensor<real>, heads: nat, half: nat, h: nat, i: nat, j: nat)
    requires t.Valid() && t.shape != [] && t.shape[0] == heads * 2 * half
    requires h < heads && i < half && j < 2
    ensures DenseRun(t, RopeOps(t.shape, heads)).Ok?
    ensures RowMoved(t, DenseRun(t, RopeOps(t.shape, heads)).value, (h * 2 + j) * half + i, (h * half + i) * 2 + j)
  {
    hide Prod, Flat, Unflat, Sub, ShuffleRows, DenseRun, RopeOps, Unpermuted, PermutedShape;
    RopeRun(t, heads, half);
    var lead: seq<nat>, p: seq<nat>, idx: seq<nat> := [heads, 2, half], [0, 2, 1], [h, i, j];
    RopeIndex(heads, half, h, i, j);
    ShuffledRow(t, lead, p, idx);
  }

  lemma RopeIndex(heads: nat, half: nat, h: nat, i: nat, j: nat)
    requires h < heads && i < half && j < 2
    ensures IsPermutation([0, 2, 1]) && InShape([heads, half, 2], [h, i, j])
    ensures Unpermuted([0, 2, 1], [h, i, j]) == [h, j, i]
    ensures Flat([heads, half, 2], [h, i, j]) == (h * half + i) * 2 + j
    ensures Flat([heads, 2, half], [h, j, i]) == (h * 2 + j) * half + i
  {
    RopePermutation();
    FlatThree(heads, half, 2, h, i, j);
    FlatThree(heads, 2, half, h, j, i);
    var p: seq<nat> := [0, 2, 1];
    assert Position(p, 0) == 0 && Position(p, 1) == 2 && Position(p, 2) == 1;
  }

  /** The row that RopeSource maps to s. */
  function RopeTarget(s: int, half: nat): int
    requires half > 0
  {
    (s / half / 2 * half + s % half) * 2 + s / half % 2
  }

  lemma RopeSourceAt(h: nat, half: nat, i: nat, j: nat)
    requires i < half && j < 2
    ensures RopeSource((h * half + i) * 2 + j, half) == (h * 2 + j) * half + i
  {
    hide RopeSource;
    var d, k := 2 * half, 2 * i + j;
    var r := (h * half + i) * 2 + j;
    assert r == h * d + k;
    Offset(h, k, h + 1, d);
    RopeSourceValue(r, half, h, k);
    Distribute(h * 2, j, half);
  }

  lemma RopeSourceValue(r: nat, half: nat, h: nat, k: nat)
    requires half > 0 && r / (2 * half) == h && r % (2 * half) == k
    ensures RopeSource(r, half) == h * (2 * half) + k % 2 * half + k / 2
  {
  }

  lemma RopeTargetAt(h: nat, half: nat, i: nat, j: nat)
    requires i < half && j < 2
    ensures RopeTarget((h * 2 + j) * half + i, half) == (h * half + i) * 2 + j
  {
    Offset(h * 2 + j, i, h * 2 + j + 1, half);
  }

  lemma RopeCoordinates(r: nat, heads: nat, half: nat) returns (h: nat, i: nat, j: nat)
    requires r < heads * 2 * half
    ensures h < heads && i < half && j < 2 && r == (h * half + i) * 2 + j
  {
    assert heads * 2 * half == heads * half * 2;
    Quotient(r / 2, heads, half);
    h, i, j := r / 2 / half, r / 2 % half, r % 2;
  }

  lemma RopeSourceCoordinates(s: nat, heads: nat, half: nat) returns (h: nat, i: nat, j: nat)
    requires s < heads * 2 * half
    ensures h < heads && i < half && j < 2 && s == (h * 2 + j) * half + i
  {
    Quotient(s, heads * 2, half);
    h, j, i := s / half / 2, s / half % 2, s % half;
  }

  /** Output row r is input row RopeSource(r). */
  lemma RopeRowMoved(t: Tensor<real>, heads: nat, half: nat, r: nat)
    requires t.Valid() && t.shape != [] && t.shape[0] == heads * 2 * half && r < t.shape[0]
    ensures half > 0 && heads > 0 && 0 <= RopeSource(r, half) < t.shape[0]
    ensures DenseRun(t, RopeOps(t.shape, heads)).Ok?
    ensures var w := DenseRun(t, RopeOps(t.shape, heads)).value;
            w.shape == t.shape && Sub(w, r) == Sub(t, RopeSource(r, half))
  {
    hide Prod, Sub, DenseRun, RopeSource;
    var h, i, j := RopeCoordinates(r, heads, half);
    RopeRow(t, heads, half, h, i, j);
    RopeSourceAt(h, half, i, j);
  }

  lemma RopeBounds(heads: nat, half: nat, h: nat, i: nat, j: nat)
    requires h < heads && i < half && j < 2
    ensures 0 <= (h * half + i) * 2 + j && 0 <= (h * 2 + j) * half + i
    ensures (h * half + i) * 2 + j < heads * 2 * half && (h * 2 + j) * half + i < heads * 2 * half
  {
    Offset(h * 2 + j, i, heads * 2, half);
    Offset(h, i, heads, half);
    assert heads * 2 * half == heads * half * 2;
  }

  /** The row map is a bijection on the rows of any number of heads. */
  lemma RopeBijection(heads: nat, half: nat, r: nat)
    requires half > 0 && r < heads * 2 * half
    ensures 0 <= RopeSource(r, half) < heads * 2 * half && RopeTarget(RopeSource(r, half), half) == r
    ensures 0 <= RopeTarget(r, half) < heads * 2 * half && RopeSource(RopeTarget(r, half), half) == r
  {
    hide RopeSource, RopeTarget;
    RopeForth(heads, half, r);
    RopeBack(heads, half, r);
  }

  lemma RopeForth(heads: nat, half: nat, r: nat)
    requires half > 0 && r < heads * 2 * half
    ensures 0 <= RopeSource(r, half) < heads * 2 * half && RopeTarget(RopeSource(r, half), half) == r
  {
    hide RopeSource, RopeTarget;
    var h, i, j := RopeCoordinates(r, heads, half);
    RopeSourceAt(h, half, i, j);
    RopeTargetAt(h, half, i, j);
    RopeBounds(heads, half, h, i, j);
  }

  lemma RopeBack(heads: nat, half: nat, r: nat)
    requires half > 0 && r < heads * 2 * half
    ensures 0 <= RopeTarget(r, half) < heads * 2 * half && RopeSource(RopeTarget(r, half), half) == r
  {
    hide RopeSource, RopeTarget;
    var h, i, j := RopeSourceCoordinates(r, heads, half);
    RopeSourceAt(h, half, i, j);
    RopeTargetAt(h, half, i, j);
    RopeBounds(heads, half, h, i, j);
  }

  // ---------------------------------------------------------------- attention scores

  /** The linear layer with weight w applied to x. */
  function MatVec(w: Tensor<real>, x: seq<real>): (r: seq<real>)
    requires w.Valid() && |w.shape| == 2 && |x| == w.shape[1]
    ensures |r| == w.shape[0]
  {
    seq(w.shape[0], p requires 0 <= p < w.shape[0] => (MatrixSub(w, p); Dot(Sub(w, p).data, x)))
  }

  function Head(v: seq<real>, h: nat, d: nat): (r: seq<real>)
    requires h * d + d <= |v|
    ensures |r| == d
  {
    v[h * d..h * d + d]
  }

  /** Element k of lo, then element k of hi, for every k. */
  function Interleave(lo: seq<real>, hi: seq<real>): (r: seq<real>)
    requires |lo| == |hi|
    ensures |r| == 2 * |lo|
    ensures forall i :: 0 <= i < |lo| ==> r[2 * i] == lo[i] && r[2 * i + 1] == hi[i]
  {
    if lo == [] then [] else Interleave(Front(lo), Front(hi)) + [Last(lo), Last(hi)]
  }

  /** Rotation of pairs (i, i + half), as the original model applies it. */
  function RotateHalves(u: seq<real>, cosines: seq<real>, sines: seq<real>): (r: seq<real>)
    requires |u| == 2 * |cosines| && |sines| == |cosines|
    ensures |r| == |u|
  {
    var half := |cosines|;
    seq(|u|, k requires 0 <= k < |u| =>
      if k < half then u[k] * cosines[k] - u[k + half] * sines[k]
      else u[k] * cosines[k - half] + u[k - half] * sines[k - half])
  }

  /** Rotation of pairs (2i, 2i + 1), as the converted model applies it. */
  function RotatePairs(u: seq<real>, cosines: seq<real>, sines: seq<real>): (r: seq<real>)
    requires |u| == 2 * |cosines| && |sines| == |cosines|
    ensures |r| == |u|
  {
    seq(|u|, k requires 0 <= k < |u| =>
      if k % 2 == 0 then u[k] * cosines[k / 2] - u[k + 1] * sines[k / 2]
      else u[k] * cosines[k / 2] + u[k - 1] * sines[k / 2])
  }

  function Permuted(u: seq<real>, half: nat): (r: seq<real>)
    requires |u| == 2 * half
    ensures |r| == |u|
  {
    Interleave(u[..half], u[half..])
  }

  lemma PermutedPair(u: seq<real>, half: nat, i: nat)
    requires |u| == 2 * half && i < half
    ensures Permuted(u, half)[2 * i] == u[i] && Permuted(u, half)[2 * i + 1] == u[half + i]
  {
    hide Interleave;
  }

  lemma HalvesAt(u: seq<real>, cosines: seq<real>, sines: seq<real>, i: nat)
    requires |u| == 2 * |cosines| && |sines| == |cosines| && i < |cosines|
    ensures var (r, half) := (RotateHalves(u, cosines, sines), |cosines|);
            && r[i] == u[i] * cosines[i] - u[half + i] * sines[i]
            && r[half + i] == u[half + i] * cosines[i] + u[i] * sines[i]
  {
  }

  lemma PairsAt(u: seq<real>, cosines: seq<real>, sines: seq<real>, i: nat)
    requires |u| == 2 * |cosines| && |sines| == |cosines| && i < |cosines|
    ensures var r := RotatePairs(u, cosines, sines);
            && r[2 * i] == u[2 * i] * cosines[i] - u[2 * i + 1] * sines[i]
            && r[2 * i + 1] == u[2 * i + 1] * cosines[i] + u[2 * i] * sines[i]
  {
  }

  lemma RotatedPair(u: seq<real>, cosines: seq<real>, sines: seq<real>, i: nat)
    requires |u| == 2 * |cosines| && |sines| == |cosines| && i < |cosines|
    ensures var x := Permuted(RotateHalves(u, cosines, sines), |cosines|);
            var y := RotatePairs(Permuted(u, |cosines|), cosines, sines);
            x[2 * i] == y[2 * i] && x[2 * i + 1] == y[2 * i + 1]
  {
    hide Permuted, RotateHalves, RotatePairs;
    var half := |cosines|;
    HalvesAt(u, cosines, sines, i);
    PermutedPair(RotateHalves(u, cosines, sines), half, i);
    PermutedPair(u, half, i);
    PairsAt(Permuted(u, half), cosines, sines, i);
  }

  /** Rotating halves and then permuting is permuting and then rotating pairs. */
  lemma RotationCommutes(u: seq<real>, cosines: seq<real>, sines: seq<real>)
    requires |u| == 2 * |cosines| && |sines| == |cosines|
    ensures Permuted(RotateHalves(u, cosines, sines), |cosines|)
            == RotatePairs(Permuted(u, |cosines|), cosines, sines)
  {
    hide Permuted, RotateHalves, RotatePairs;
    var half := |cosines|;
    var x := Permuted(RotateHalves(u, cosines, sines), half);
    var y := RotatePairs(Permuted(u, half), cosines, sines);
    forall k | 0 <= k < 2 * half
      ensures x[k] == y[k]
    {
      RotatedPair(u, cosines, sines, k / 2);
    }
  }

  lemma {:induction false} DotConcat(a: seq<real>, b: seq<real>, c: seq<real>, d: seq<real>)
    requires |a| == |c| && |b| == |d|
    ensures Dot(a + b, c + d) == Dot(a, c) + Dot(b, d)
  {
    if b == [] {
      assert a + b == a && c + d == c;
    } else {
      assert Front(a + b) == a + Front(b) && Front(c + d) == c + Front(d);
      DotConcat(a, Front(b), c, Front(d));
    }
  }

  lemma {:induction false} DotInterleave(lo: seq<real>, hi: seq<real>, lo': seq<real>, hi': seq<real>)
    requires |lo| == |hi| == |lo'| == |hi'|
    ensures Dot(Interleave(lo, hi), Interleave(lo', hi')) == Dot(lo, lo') + Dot(hi, hi')
  {
    if lo != [] {
      DotInterleave(Front(lo), Front(hi), Front(lo'), Front(hi'));
      DotConcat(Interleave(Front(lo), Front(hi)), [Last(lo), Last(hi)],
                Interleave(Front(lo'), Front(hi')), [Last(lo'), Last(hi')]);
      DotTwo(Last(lo), Last(hi), Last(lo'), Last(hi'));
    }
  }

  lemma DotTwo(a: real, b: real, c: real, d: real)
    ensures Dot([a, b], [c, d]) == a * c + b * d
  {
    assert Front([a, b]) == [a] && Front([c, d]) == [c];
    assert Front([a]) == [] && Front([c]) == [];
    assert Dot([a], [c]) == a * c;
  }

  /** Permuting both vectors of a head leaves their dot product unchanged. */
  lemma DotPermuted(u: seq<real>, v: seq<real>, half: nat)
    requires |u| == |v| == 2 * half
    ensures Dot(Permuted(u, half), Permuted(v, half)) == Dot(u, v)
  {
    hide Dot, Interleave;
    DotInterleave(u[..half], u[half..], v[..half], v[half..]);
    DotConcat(u[..half], u[half..], v[..half], v[half..]);
    assert u[..half] + u[half..] == u && v[..half] + v[half..] == v;
  }

  lemma HeadBound(heads: nat, h: nat, d: nat)
    requires h < heads
    ensures h * d + d <= heads * d
  {
    MulMonotone(h + 1, heads, d);
  }

  lemma RopeKeepsShape(w: Tensor<real>, heads: nat, half: nat)
    requires w.Valid() && w.shape != [] && w.shape[0] == heads * (2 * half) && heads > 0
    ensures DenseRun(w, RopeOps(w.shape, heads)).Ok? && DenseRun(w, RopeOps(w.shape, heads)).value.shape == w.shape
  {
    hide Prod, DenseRun, RopeOps;
    Associate(heads, 2, half);
    RopeRun(w, heads, half);
  }

  /** Each head of the converted layer's output is the permuted head of the original's. */
  lemma PermutedHead(w: Tensor<real>, heads: nat, half: nat, x: seq<real>, h: nat)
    requires w.Valid() && |w.shape| == 2 && w.shape[0] == heads * (2 * half) && |x| == w.shape[1] && h < heads
    ensures DenseRun(w, RopeOps(w.shape, heads)).Ok?
    ensures var w' := DenseRun(w, RopeOps(w.shape, heads)).value;
            && w'.shape == w.shape && h * (2 * half) + 2 * half <= w.shape[0]
            && Head(MatVec(w', x), h, 2 * half) == Permuted(Head(MatVec(w, x), h, 2 * half), half)
  {
    hide Prod, DenseRun, RopeOps, MatVec, Head, Permuted;
    var d := 2 * half;
    HeadBound(heads, h, d);
    RopeKeepsShape(w, heads, half);
    var w' := DenseRun(w, RopeOps(w.shape, heads)).value;
    forall k | 0 <= k < d
      ensures Head(MatVec(w', x), h, d)[k] == Permuted(Head(MatVec(w, x), h, d), half)[k]
    {
      PermutedEntry(w, heads, half, x, h, k / 2, k % 2);
    }
  }

  lemma MatVecAt(w: Tensor<real>, x: seq<real>, p: nat)
    requires w.Valid() && |w.shape| == 2 && |x| == w.shape[1] && p < w.shape[0]
    ensures |Sub(w, p).data| == |x| && MatVec(w, x)[p] == Dot(Sub(w, p).data, x)
  {
    MatrixSub(w, p);
  }

  lemma EntryRows(h: nat, half: nat, i: nat, j: nat)
    ensures (h * half + i) * 2 + j == h * (2 * half) + (2 * i + j)
    ensures (h * 2 + j) * half + i == h * (2 * half) + (j * half + i)
  {
    Distribute(h * 2, j, half);
    Associate(h, 2, half);
  }

  lemma PermutedEntry(w: Tensor<real>, heads: nat, half: nat, x: seq<real>, h: nat, i: nat, j: nat)
    requires w.Valid() && |w.shape| == 2 && w.shape[0] == heads * (2 * half) && |x| == w.shape[1]
    requires h < heads && i < half && j < 2
    ensures h * (2 * half) + 2 * half <= w.shape[0]
    ensures DenseRun(w, RopeOps(w.shape, heads)).Ok?
    ensures var w' := DenseRun(w, RopeOps(w.shape, heads)).value;
            && w'.shape == w.shape
            && Head(MatVec(w', x), h, 2 * half)[2 * i + j] == Permuted(Head(MatVec(w, x), h, 2 * half), half)[2 * i + j]
  {
    hide Prod, DenseRun, Sub, RopeOps, Dot, MatVec, Permuted, Head, RowMoved;
    var d := 2 * half;
    assert j * half + i < d by { assert j == 0 || j == 1; }
    HeadBound(heads, h, d);
    RopeRowOfHead(w, heads, half, h, i, j);
    var w' := DenseRun(w, RopeOps(w.shape, heads)).value;
    MovedEntry(w, w', x, h * d + (j * half + i), h * d + (2 * i + j));
    PermutedAt(Head(MatVec(w, x), h, d), half, i, j);
    HeadAt(MatVec(w', x), h, d, 2 * i + j);
    HeadAt(MatVec(w, x), h, d, j * half + i);
  }

  /** The row map of one head, in rows of that head. */
  lemma RopeRowOfHead(w: Tensor<real>, heads: nat, half: nat, h: nat, i: nat, j: nat)
    requires w.Valid() && |w.shape| == 2 && w.shape[0] == heads * (2 * half)
    requires h < heads && i < half && j < 2
    ensures DenseRun(w, RopeOps(w.shape, heads)).Ok?
    ensures var w' := DenseRun(w, RopeOps(w.shape, heads)).value;
            && w'.Valid() && w'.shape == w.shape
            && RowMoved(w, w', h * (2 * half) + (j * half + i), h * (2 * half) + (2 * i + j))
  {
    hide Prod, DenseRun, Sub, RopeOps;
    Associate(heads, 2, half);
    RopeRow(w, heads, half, h, i, j);
    EntryRows(h, half, i, j);
  }

  lemma HeadAt(v: seq<real>, h: nat, d: nat, k: nat)
    requires h * d + d <= |v| && k < d
    ensures Head(v, h, d)[k] == v[h * d + k]
  {
  }

  lemma MovedEntry(w: Tensor<real>, w': Tensor<real>, x: seq<real>, from: int, to: int)
    requires RowMoved(w, w', from, to) && |w.shape| == 2 && |x| == w.shape[1]
    ensures MatVec(w', x)[to] == MatVec(w, x)[from]
  {
    hide Prod, Sub, Dot, MatVec;
    MatVecAt(w', x, to);
    MatVecAt(w, x, from);
  }

  lemma PermutedAt(u: seq<real>, half: nat, i: nat, j: nat)
    requires |u| == 2 * half && i < half && j < 2
    ensures j * half + i < |u| && Permuted(u, half)[2 * i + j] == u[j * half + i]
  {
    assert j == 0 || j == 1;
  }

  /**
    The converted query and key weights score exactly as the original ones: for every query
    head and every key head, the dot product after the pairwise rotation is the dot product
    after the half-split rotation. K is permuted by its own number of heads.
   */
  lemma RopeKeepsScores(wq: Tensor<real>, wk: Tensor<real>, nHead: nat, nHeadKv: Option<nat>, half: nat,
                        x: seq<real>, y: seq<real>, h: nat, g: nat,
                        cosQ: seq<real>, sinQ: seq<real>, cosK: seq<real>, sinK: seq<real>)
    requires wq.Valid() && |wq.shape| == 2 && wq.shape[0] == nHead * (2 * half) && |x| == wq.shape[1]
    requires wk.Valid() && |wk.shape| == 2 && |y| == wk.shape[1]
    requires var nKeys := if nHeadKv.Some? then nHeadKv.value else nHead; wk.shape[0] == nKeys * (2 * half) && g < nKeys
    requires h < nHead
    requires |cosQ| == |sinQ| == |cosK| == |sinK| == half
    ensures DenseRun(wq, RopeOps(wq.shape, RopeHeads(nHead, Some(nHead)))).Ok?
    ensures DenseRun(wk, RopeOps(wk.shape, RopeHeads(nHead, nHeadKv))).Ok?
    ensures var d := 2 * half;
            var wq' := DenseRun(wq, RopeOps(wq.shape, RopeHeads(nHead, Some(nHead)))).value;
            var wk' := DenseRun(wk, RopeOps(wk.shape, RopeHeads(nHead, nHeadKv))).value;
            && wq'.shape == wq.shape && wk'.shape == wk.shape
            && h * d + d <= wq.shape[0] && g * d + d <= wk.shape[0]
            && Dot(RotatePairs(Head(MatVec(wq', x), h, d), cosQ, sinQ), RotatePairs(Head(MatVec(wk', y), g, d), cosK, sinK))
               == Dot(RotateHalves(Head(MatVec(wq, x), h, d), cosQ, sinQ), RotateHalves(Head(MatVec(wk, y), g, d), cosK, sinK))
  {
    hide Prod, DenseRun, RopeOps, Dot, MatVec, RotateHalves, RotatePairs, Permuted, Head;
    PermutedHead(wq, nHead, half, x, h);
    PermutedHead(wk, RopeHeads(nHead, nHeadKv), half, y, g);
    var q, k := Head(MatVec(wq, x), h, 2 * half), Head(MatVec(wk, y), g, 2 * half);
    RotationCommutes(q, cosQ, sinQ);
    RotationCommutes(k, cosK, sinK);
    DotPermuted(RotateHalves(q, cosQ, sinQ), RotateHalves(k, cosK, sinK), half);
  }

  // ---------------------------------------------------------------- the same on a low-rank pair

  function OnesShape(n: nat): (r: seq<nat>)
    ensures |r| == n && AllOnes(r)
  {
    seq(n, i => 1)
  }

  /** A with n trivial batch axes. */
  function Batched(a: Tensor<real>, r: nat, n: nat): Tensor<real>
    requires a.shape != []
  {
    Tensor(OnesShape(n) + [r, Last(a.shape)], a.data)
  }

  lemma ReshapeA(l: LoraTensor, n: nat)
    requires Unbatched(l)
    ensures Batched(l.a, Rank(l), n).Valid()
    ensures Reshape(l.a, Ones(n) + [Rank(l), Width(l.a)]) == Ok(Batched(l.a, Rank(l), n))
  {
    hide Prod;
    UnbatchedRows(l);
    var r, w := Rank(l), Width(l.a);
    var ones := OnesShape(n);
    OnesProd(ones);
    ShapeRows(ones, r);
    ShapeRows(ones + [r], w);
    ShapeRows(Front(l.a.shape), w);
    assert l.a.shape == Front(l.a.shape) + [w];
    assert ones + [r, w] == ones + [r] + [w];
    assert Ones(n) + [r, w] == ones + [r, w];
    NonNegativeShape(|l.a.data|, ones + [r, w]);
  }

  lemma ReshapeRows(t: Tensor<real>, lead: seq<nat>)
    requires t.Valid() && t.shape != [] && Prod(lead) == Rows(t)
    ensures Tensor(lead + [Width(t)], t.data).Valid()
    ensures Reshape(t, lead + [Width(t)]) == Ok(Tensor(lead + [Width(t)], t.data))
  {
    hide Prod;
    ShapeRows(lead, Width(t));
    ShapeRows(Front(t.shape), Width(t));
    assert t.shape == Front(t.shape) + [Width(t)];
    NonNegativeShape(|t.data|, lead + [Width(t)]);
  }

  lemma KeptRowsSupported(l: LoraTensor, lead: seq<nat>)
    requires Unbatched(l) && Prod(lead) == Rows(l.b)
    ensures CountInferred(lead + [Width(l.a)]) == 0
    ensures Supported(ReshapeTo(lead + [Width(l.a)]), Shape(l), Rank(l))
  {
    hide Prod;
    var dims: seq<nat> := lead + [Width(l.a)];
    NoneInferred(dims);
    ShapeRows(lead, Width(l.a));
    ShapeRows(Front(l.b.shape), Width(l.a));
    NonNegativeShape(Prod(Shape(l)), dims);
  }

  /** A reshape that keeps the last extent and the number of rows succeeds on the pair. */
  lemma PairReshape(l: LoraTensor, lead: seq<nat>)
    requires Unbatched(l) && lead != [] && Prod(lead) == Rows(l.b)
    ensures LoraReshape(l, lead + [Width(l.a)])
            == Ok(LoraTensor(Batched(l.a, Rank(l), |lead| - 1), Tensor(lead + [Rank(l)], l.b.data)))
    ensures Supported(ReshapeTo(lead + [Width(l.a)]), Shape(l), Rank(l))
  {
    hide Prod, Reshape, CountInferred, ExpandShape, Supported, AllOnes, Ones, MakeLora;
    KeptRowsSupported(l, lead);
    ReshapeA(l, |lead| - 1);
    ReshapeRows(l.b, lead);
    var dims: seq<int> := lead + [Width(l.a)];
    assert Front(dims) + [Rank(l)] == lead + [Rank(l)];
    NothingExpanded(Prod(Shape(l)), dims);
    BatchedMakes(l, lead);
  }

  lemma NothingExpanded(numel: nat, dims: seq<int>)
    requires CountInferred(dims) == 0
    ensures ExpandShape(numel, dims) == Ok(dims)
  {
    hide CountInferred, KnownProd;
  }

  lemma BatchedMakes(l: LoraTensor, lead: seq<nat>)
    requires Unbatched(l) && lead != []
    requires Batched(l.a, Rank(l), |lead| - 1).Valid() && Tensor(lead + [Rank(l)], l.b.data).Valid()
    ensures var (a, b) := (Batched(l.a, Rank(l), |lead| - 1), Tensor(lead + [Rank(l)], l.b.data));
            MakeLora(a, b) == Ok(LoraTensor(a, b))
  {
    hide Prod, AllOnes;
  }

  lemma RunPairStep(l: LoraTensor, op: Op, rest: seq<Op>, u: LoraTensor, w: LoraTensor)
    requires Constructed(l) && Constructed(u)
    requires LoraStep(l, op) == Ok(u) && LoraRun(u, rest) == Ok(w)
    ensures LoraRun(l, [op] + rest) == Ok(w)
    ensures SupportedRun(l, [op] + rest) <==> Supported(op, Shape(l), Rank(l)) && SupportedRun(u, rest)
  {
    hide LoraStep, Supported;
    assert ([op] + rest)[1..] == rest;
  }

  lemma PairSwap(l: LoraTensor)
    requires Unbatched(l) && |Shape(l)| == 4
    ensures IsPermutation([0, 2, 1]) && IsPermutation(LeadAxes([0, 2, 1], 4))
    ensures LoraStep(l, SwapAxes(1, 2)) == Ok(LoraTensor(l.a, PermuteAxes(l.b, LeadAxes([0, 2, 1], 4))))
  {
    hide Prod, PermuteAxes;
    RopeSwap(l.b);
    var axes := LeadAxes([0, 2, 1], 4);
    var dims := SwapDims(4, 1, 2).value;
    var neg := NegativeDims(dims, 4);
    assert WrapDims(neg, 4) == axes;
  }

  lemma RopePairGroup(l: LoraTensor, heads: nat, half: nat) returns (u: LoraTensor)
    requires Constructed(l) && |Shape(l)| == 2 && heads > 0 && l.b.shape[0] == heads * 2 * half
    ensures Unbatched(u) && u.a == Batched(l.a, Rank(l), 2) && u.b.shape == [heads, 2, half] + [Rank(l)]
    ensures LoraStep(l, RopeOps(Shape(l), heads)[0]) == Ok(u)
    ensures Supported(RopeOps(Shape(l), heads)[0], Shape(l), Rank(l))
  {
    hide Prod, LoraStep, Supported;
    RopeLead(heads, half);
    HalfRows(heads, half);
    RowsOfMatrix(l.b);
    var lead: seq<nat> := [heads, 2, half];
    PairReshape(l, lead);
    u := LoraTensor(Batched(l.a, Rank(l), 2), Tensor(lead + [Rank(l)], l.b.data));
    assert RopeOps(Shape(l), heads)[0] == ReshapeTo(lead + [Width(l.a)]);
    PairStep(l, RopeOps(Shape(l), heads)[0]);
    assert ALead(u) == OnesShape(2);
  }

  lemma PairUngroup(l: LoraTensor, v: LoraTensor, lead: seq<nat>, m: nat) returns (w: LoraTensor)
    requires Constructed(l) && |Shape(l)| == 2 && Unbatched(v) && |lead| == 3
    requires v.a == Batched(l.a, Rank(l), 2) && v.b.shape == lead + [Rank(l)] && Prod(lead) == m
    ensures Constructed(w) && w == LoraTensor(l.a, Tensor([m, Rank(l)], v.b.data))
    ensures LoraStep(v, ReshapeTo([m, Width(l.a)])) == Ok(w)
    ensures Supported(ReshapeTo([m, Width(l.a)]), Shape(v), Rank(v))
  {
    hide Prod, LoraStep, Supported;
    var r := Rank(l);
    assert Front(v.b.shape) == lead;
    FlatOne(m, 0);
    PairReshape(v, [m]);
    assert [m] + [r] == [m, r] && [m] + [Width(l.a)] == [m, Width(l.a)];
    w := LoraTensor(Batched(v.a, r, 0), Tensor([m, r], v.b.data));
    PairStep(v, ReshapeTo([m, Width(l.a)]));
    UnbatchedRows(l);
    RowsOfMatrix(l.a);
    assert w.a == l.a;
  }

  /**
    The RoPE permute of a pair succeeds, leaves A as it is, and its product is the RoPE permute
    of the product.
   */
  lemma RopePair(l: LoraTensor, heads: nat, half: nat)
    requires Constructed(l) && |Shape(l)| == 2 && heads > 0 && l.b.shape[0] == heads * 2 * half
    ensures WellFormed(l)
    ensures var r := LoraRun(l, RopeOps(Shape(l), heads));
            && r.Ok? && WellFormed(r.value) && r.value.a == l.a
            && DenseRun(Product(l), RopeOps(Shape(l), heads)) == Ok(Product(r.value))
  {
    hide Prod, PermuteAxes, LoraStep, LoraRun, DenseRun, Product, Supported, SupportedRun;
    RopeLead(heads, half);
    var p: seq<nat> := [0, 2, 1];
    var ops := RopeOps(Shape(l), heads);
    var u := RopePairGroup(l, heads, half);
    PairSwap(u);
    SwapSupported(1, 2, Shape(u), Rank(u));
    var v := LoraTensor(u.a, PermuteAxes(u.b, LeadAxes(p, 4)));
    LeadAxesPermute(p, [heads, 2, half], [Rank(l)], [heads, 2, half], [Rank(l)]);
    var w := PairUngroup(l, v, [heads, half, 2], l.b.shape[0]);
    assert Shape(l) == [l.b.shape[0], Width(l.a)];
    assert [ops[2]] + [] == [ops[2]] && [ops[1]] + [ops[2]] == [ops[1], ops[2]];
    assert ops == [ops[0]] + [ops[1], ops[2]];
    EmptyRun(w);
    RunPairStep(v, ops[2], [], w, w);
    RunPairStep(u, ops[1], [ops[2]], v, w);
    RunPairStep(l, ops[0], [ops[1], ops[2]], u, w);
    Homomorphism(l, ops);
  }

  lemma EmptyRun(l: LoraTensor)
    requires Constructed(l)
    ensures LoraRun(l, []) == Ok(l) && SupportedRun(l, [])
  {
  }

  lemma PairStep(l: LoraTensor, op: Op)
    requires Constructed(l) && op.ReshapeTo?
    ensures LoraStep(l, op) == LoraReshape(l, op.dims)
  {
  }

  lemma SwapSupported(d0: int, d1: int, shape: seq<nat>, rank: nat)
    ensures Supported(SwapAxes(d0, d1), shape, rank)
  {
  }
}
