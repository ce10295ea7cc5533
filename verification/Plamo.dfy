/**
  PLaMo's head shuffles. The checkpoint shares KV head h mod b with query head h; the runtime
  shares KV head h div a. The converter reorders the query heads and, to match, the columns of
  the output projection.
 */
module Plamo {
  import opened Wrappers
  import opened Tensors
  import opened Lora
  import opened LoraBatches
  import opened Layouts

  /** reshape(a, b, d, n), permute(1, 0, 2, 3), reshape(a * b * d, n) */
  function QueryOps(a: nat, b: nat, d: nat, n: nat): seq<Op> {
    [ReshapeTo([a, b, d, n]), PermuteTo([1, 0, 2, 3]), ReshapeTo([a * b * d, n])]
  }

  /** reshape(n, a, b, d), permute(0, 2, 1, 3), reshape(n, a * b * d) */
  function OutputOps(a: nat, b: nat, d: nat, n: nat): seq<Op> {
    [ReshapeTo([n, a, b, d]), PermuteTo([0, 2, 1, 3]), ReshapeTo([n, a * b * d])]
  }

  const GROUPS := 8
  const KV_HEADS := 5
  const HEAD_DIM := 128
  const EMBEDDING := 5120

  function ShuffleAttnQWeight(t: Tensor<real>): Result<Tensor<real>, TensorError>
    requires t.Valid()
  {
    if t.shape != [EMBEDDING, EMBEDDING] then Err(AssertionFailed)
    else DenseRun(t, QueryOps(GROUPS, KV_HEADS, HEAD_DIM, EMBEDDING))
  }

  function ShuffleAttnOutputWeight(t: Tensor<real>): Result<Tensor<real>, TensorError>
    requires t.Valid()
  {
    if t.shape != [EMBEDDING, EMBEDDING] then Err(AssertionFailed)
    else DenseRun(t, OutputOps(GROUPS, KV_HEADS, HEAD_DIM, EMBEDDING))
  }

  // ---------------------------------------------------------------- query rows

  lemma SwapLead()
    ensures IsPermutation([1, 0, 2])
    ensures forall a: nat, b: nat, d: nat :: PermutedShape([a, b, d], [1, 0, 2]) == [b, a, d]
    ensures forall k: nat, g: nat, e: nat :: Unpermuted([1, 0, 2], [k, g, e]) == [g, k, e]
  {
    var p: seq<nat> := [1, 0, 2];
    assert p[0] == 1 && p[1] == 0 && p[2] == 2;
    assert Position(p, 0) == 1 && Position(p, 1) == 0 && Position(p, 2) == 2;
  }

  lemma LeadCounts(a: nat, b: nat, d: nat)
    ensures Prod([a, b, d]) == a * b * d && Prod([b, a, d]) == a * b * d
  {
    FlatThree(a, b, d, 0, 0, 0);
    FlatThree(b, a, d, 0, 0, 0);
    assert a * b == b * a;
  }

  lemma PermuteLeadStep(u: Tensor<real>, p: seq<nat>)
    requires u.Valid() && IsPermutation(p) && |p| <= |u.shape|
    ensures IsPermutation(LeadAxes(p, |u.shape|))
    ensures DenseStep(u, PermuteTo(LeadAxes(p, |u.shape|))) == Ok(PermuteAxes(u, LeadAxes(p, |u.shape|)))
  {
    hide Prod, PermuteAxes;
    var n := |u.shape|;
    LeadAxesPermute(p, u.shape[..|p|], u.shape[|p|..], u.shape[..|p|], u.shape[|p|..]);
    assert WrapDims(LeadAxes(p, n), n) == LeadAxes(p, n);
  }

  lemma QueryRun(t: Tensor<real>, a: nat, b: nat, d: nat)
    requires t.Valid() && |t.shape| == 2 && t.shape[0] == a * b * d
    ensures IsPermutation([1, 0, 2]) && PermutedShape([a, b, d], [1, 0, 2]) == [b, a, d]
    ensures Prod([a, b, d]) == t.shape[0] && Prod([b, a, d]) == t.shape[0]
    ensures DenseRun(t, QueryOps(a, b, d, t.shape[1])) == Ok(ShuffleRows(t, [a, b, d], [1, 0, 2]))
  {
    hide Prod, PermuteAxes, DenseStep, DenseRun;
    SwapLead();
    LeadCounts(a, b, d);
    var n := t.shape[1];
    var lead, p: seq<nat> := [a, b, d], [1, 0, 2];
    var ops := QueryOps(a, b, d, n);
    GroupStep(t, lead);
    assert lead + Tail(t.shape) == [a, b, d, n];
    var u := Tensor([a, b, d, n], t.data);
    PermuteLeadStep(u, p);
    assert LeadAxes(p, 4) == [1, 0, 2, 3];
    var v := PermuteAxes(u, LeadAxes(p, 4));
    LeadAxesPermute(p, lead, [n], lead, [n]);
    assert lead + [n] == [a, b, d, n];
    UngroupStep(v, [b, a, d], t.shape);
    assert ops[2] == ReshapeTo(t.shape);
    RunThree(t, ops, u, v, Tensor(t.shape, v.data));
  }

  /** Query head g*b + k moves to head k*a + g, its rows in order. */
  lemma QueryRow(t: Tensor<real>, a: nat, b: nat, d: nat, g: nat, k: nat, e: nat)
    requires t.Valid() && |t.shape| == 2 && t.shape[0] == a * b * d
    requires g < a && k < b && e < d
    ensures DenseRun(t, QueryOps(a, b, d, t.shape[1])).Ok?
    ensures RowMoved(t, DenseRun(t, QueryOps(a, b, d, t.shape[1])).value, (g * b + k) * d + e, (k * a + g) * d + e)
  {
    hide Prod, Flat, Unflat, Sub, ShuffleRows, DenseRun, QueryOps, Unpermuted, PermutedShape;
    QueryRun(t, a, b, d);
    QueryIndex(a, b, d, g, k, e);
    ShuffledRow(t, [a, b, d], [1, 0, 2], [k, g, e]);
    assert PermutedShape([a, b, d], [1, 0, 2]) == [b, a, d];
  }

  lemma QueryIndex(a: nat, b: nat, d: nat, g: nat, k: nat, e: nat)
    requires g < a && k < b && e < d
    ensures IsPermutation([1, 0, 2]) && InShape([b, a, d], [k, g, e])
    ensures Unpermuted([1, 0, 2], [k, g, e]) == [g, k, e]
    ensures Flat([b, a, d], [k, g, e]) == (k * a + g) * d + e
    ensures Flat([a, b, d], [g, k, e]) == (g * b + k) * d + e
  {
    SwapLead();
    FlatThree(b, a, d, k, g, e);
    FlatThree(a, b, d, g, k, e);
  }

  // ---------------------------------------------------------------- output columns

  lemma SwapMiddle(n: nat, a: nat, b: nat, d: nat, o: nat, k: nat, g: nat, e: nat)
    ensures IsPermutation([0, 2, 1, 3])
    ensures PermutedShape([n, a, b, d], [0, 2, 1, 3]) == [n, b, a, d]
    ensures Unpermuted([0, 2, 1, 3], [o, k, g, e]) == [o, g, k, e]
  {
    var p: seq<nat> := [0, 2, 1, 3];
    assert p[0] == 0 && p[1] == 2 && p[2] == 1 && p[3] == 3;
    assert Position(p, 0) == 0 && Position(p, 1) == 2 && Position(p, 2) == 1 && Position(p, 3) == 3;
  }

  lemma ColumnCount(n: nat, cols: seq<nat>, m: nat)
    requires Prod(cols) == m
    ensures Prod([n] + cols) == Prod([n, m])
  {
    FlatOne(m, 0);
    LeadSplit(n, cols);
    LeadSplit(n, [m]);
    assert [n] + [m] == [n, m];
  }

  /** The output weight with its columns regrouped, permuted and flattened. */
  lemma OutputRun(t: Tensor<real>, a: nat, b: nat, d: nat)
    requires t.Valid() && |t.shape| == 2 && t.shape[1] == a * b * d
    ensures IsPermutation([0, 2, 1, 3])
    ensures Tensor([t.shape[0], a, b, d], t.data).Valid()
    ensures var v := PermuteAxes(Tensor([t.shape[0], a, b, d], t.data), [0, 2, 1, 3]);
            && v.shape == [t.shape[0], b, a, d]
            && Tensor(t.shape, v.data).Valid()
            && DenseRun(t, OutputOps(a, b, d, t.shape[0])) == Ok(Tensor(t.shape, v.data))
  {
    hide Prod, PermuteAxes, DenseRun, DenseStep;
    var n, m := t.shape[0], t.shape[1];
    SwapMiddle(n, a, b, d, 0, 0, 0, 0);
    LeadCounts(a, b, d);
    ColumnCount(n, [a, b, d], m);
    ColumnCount(n, [b, a, d], m);
    assert [n] + [a, b, d] == [n, a, b, d] && [n] + [b, a, d] == [n, b, a, d] && [n, m] == t.shape;
    FlatCountStep(t, [n, a, b, d]);
    var u := Tensor([n, a, b, d], t.data);
    var p: seq<nat> := [0, 2, 1, 3];
    PermuteLeadStep(u, p);
    assert LeadAxes(p, 4) == p;
    var v := PermuteAxes(u, p);
    FlatCountStep(v, t.shape);
    RunThree(t, OutputOps(a, b, d, n), u, v, Tensor(t.shape, v.data));
  }

  lemma FlatCountStep(t: Tensor<real>, shape: seq<nat>)
    requires t.Valid() && Prod(shape) == Prod(t.shape)
    ensures Tensor(shape, t.data).Valid() && DenseStep(t, ReshapeTo(shape)) == Ok(Tensor(shape, t.data))
  {
    hide Prod;
    NonNegativeShape(|t.data|, shape);
  }

  /** w has t's shape and its column `to` of row o is t's column `from`. */
  ghost predicate ColumnMoved(t: Tensor<real>, w: Tensor<real>, o: nat, from: int, to: int) {
    && t.Valid() && w.Valid() && w.shape == t.shape && |t.shape| == 2 && o < t.shape[0]
    && 0 <= from < t.shape[1] && 0 <= to < t.shape[1]
    && At(w, [o, to]) == At(t, [o, from])
  }

  /** Column block g*b + k of the output weight moves to block k*a + g. */
  lemma OutputColumn(t: Tensor<real>, a: nat, b: nat, d: nat, o: nat, g: nat, k: nat, e: nat)
    requires t.Valid() && |t.shape| == 2 && t.shape[1] == a * b * d && o < t.shape[0]
    requires g < a && k < b && e < d
    ensures DenseRun(t, OutputOps(a, b, d, t.shape[0])).Ok?
    ensures ColumnMoved(t, DenseRun(t, OutputOps(a, b, d, t.shape[0])).value, o, (g * b + k) * d + e, (k * a + g) * d + e)
  {
    hide Prod, Flat, Unflat, At, PermuteAxes, DenseRun, OutputOps;
    var n, m := t.shape[0], t.shape[1];
    OutputRun(t, a, b, d);
    SwapMiddle(n, a, b, d, o, k, g, e);
    LeadCounts(a, b, d);
    var u := Tensor([n, a, b, d], t.data);
    var v := PermuteAxes(u, [0, 2, 1, 3]);
    var w := Tensor(t.shape, v.data);
    var to, from := Flat([b, a, d], [k, g, e]), Flat([a, b, d], [g, k, e]);
    FlatThree(b, a, d, k, g, e);
    FlatThree(a, b, d, g, k, e);
    FlatBound([b, a, d], [k, g, e]);
    FlatBound([a, b, d], [g, k, e]);
    ColumnRegroup(v, w, n, [b, a, d], m, o, [k, g, e], to);
    ColumnRegroup(u, t, n, [a, b, d], m, o, [g, k, e], from);
    assert [o] + [k, g, e] == [o, k, g, e] && [o] + [g, k, e] == [o, g, k, e];
    PermuteAt(u, [0, 2, 1, 3], [o, k, g, e]);
  }

  lemma ColumnRegroup(v: Tensor<real>, w: Tensor<real>, n: nat, cols: seq<nat>, m: nat, o: nat, idx: seq<nat>, c: nat)
    requires v.Valid() && w.Valid() && v.data == w.data
    requires v.shape == [n] + cols && w.shape == [n, m] && Prod(cols) == m
    requires o < n && InShape(cols, idx) && c == Flat(cols, idx)
    ensures c < m && InShape(v.shape, [o] + idx) && InShape(w.shape, [o, c])
    ensures At(v, [o] + idx) == At(w, [o, c])
  {
    hide Prod, Flat, Unflat;
    FlatBound(cols, idx);
    SplitFlat([n], cols, [o], idx);
    FlatOne(n, o);
    FlatTwo(n, m, o, c);
    FlatBound(v.shape, [o] + idx);
    FlatBound(w.shape, [o, c]);
  }

  // ---------------------------------------------------------------- attention output

  function Sum(n: nat, f: int -> real): real {
    if n == 0 then 0.0 else Sum(n - 1, f) + f(n - 1)
  }

  lemma {:induction false} SumSame(n: nat, f: int -> real, h: int -> real)
    requires forall i: int | 0 <= i < n :: f(i) == h(i)
    ensures Sum(n, f) == Sum(n, h)
  {
    if n > 0 {
      SumSame(n - 1, f, h);
    }
  }

  lemma {:induction false} SumAdd(n: nat, f: int -> real, h: int -> real)
    ensures Sum(n, i => f(i) + h(i)) == Sum(n, f) + Sum(n, h)
  {
    if n > 0 {
      SumAdd(n - 1, f, h);
    }
  }

  lemma {:induction false} SumZero(n: nat)
    ensures Sum(n, i => 0.0) == 0.0
  {
    if n > 0 {
      SumZero(n - 1);
    }
  }

  function ColumnSum(a: nat, f: (int, int) -> real, k: int): real {
    Sum(a, g => f(g, k))
  }

  function RowSum(b: nat, f: (int, int) -> real, g: int): real {
    Sum(b, k => f(g, k))
  }

  /** Summing a grid by columns or by rows. */
  lemma {:induction false} SumSwap(a: nat, b: nat, f: (int, int) -> real)
    ensures Sum(b, k => ColumnSum(a, f, k)) == Sum(a, g => RowSum(b, f, g))
  {
    if b == 0 {
      SumSame(a, g => RowSum(0, f, g), g => 0.0);
      SumZero(a);
    } else {
      SumSwap(a, b - 1, f);
      var rows: int -> real, last: int -> real := g => RowSum(b - 1, f, g), g => f(g, b - 1);
      SumAdd(a, rows, last);
      SumSame(a, g => RowSum(b, f, g), i => rows(i) + last(i));
      ColumnSumIs(a, f, b - 1, last);
    }
  }

  lemma ColumnSumIs(a: nat, f: (int, int) -> real, k: int, column: int -> real)
    requires forall g: int | 0 <= g < a :: column(g) == f(g, k)
    ensures ColumnSum(a, f, k) == Sum(a, column)
  {
    SumSame(a, g => f(g, k), column);
  }

  lemma {:induction false} SumTail(m: nat, a: nat, f: int -> real)
    ensures Sum(m + a, f) == Sum(m, f) + Sum(a, g => f(m + g))
  {
    if a > 0 {
      SumTail(m, a - 1, f);
    }
  }

  function BlockSum(a: nat, f: int -> real, k: int): real {
    Sum(a, g => f(k * a + g))
  }

  /** A sum over heads is a sum over blocks of a heads. */
  lemma {:induction false} SumBlocks(a: nat, b: nat, f: int -> real)
    ensures Sum(b * a, f) == Sum(b, k => BlockSum(a, f, k))
  {
    if b > 0 {
      SumBlocks(a, b - 1, f);
      Distribute(b - 1, 1, a);
      SumTail((b - 1) * a, a, f);
    }
  }

  /** A vector cut into n heads of dimension d. */
  function Heads(v: seq<real>, n: nat, d: nat): (r: seq<seq<real>>)
    requires |v| == n * d
    ensures |r| == n && forall h :: 0 <= h < n ==> |r[h]| == d
  {
    seq(n, h requires 0 <= h < n => (HeadBound(n, h, d); Head(v, h, d)))
  }

  /**
    What query head h contributes to one output: its columns of the output weight against the
    head function of its query slice and its KV head.
   */
  ghost function HeadTerm(wo: seq<seq<real>>, q: seq<seq<real>>, d: nat, attend: (seq<real>, int) -> seq<real>,
                          h: int, kv: int): real
    requires |wo| == |q| && forall i :: 0 <= i < |wo| ==> |wo[i]| == d
    requires forall u, j :: |attend(u, j)| == d
  {
    if 0 <= h < |wo| then Dot(wo[h], attend(q[h], kv)) else 0.0
  }

  /** The checkpoint's attention output: head h uses KV head h mod b. */
  ghost function CheckpointOutput(wo: seq<seq<real>>, q: seq<seq<real>>, b: nat, d: nat,
                                  attend: (seq<real>, int) -> seq<real>): real
    requires |wo| == |q| && b > 0 && forall i :: 0 <= i < |wo| ==> |wo[i]| == d
    requires forall u, j :: |attend(u, j)| == d
  {
    Sum(|wo|, h => HeadTerm(wo, q, d, attend, h, h % b))
  }

  /** The runtime's attention output: head h uses KV head h div a. */
  ghost function RuntimeOutput(wo: seq<seq<real>>, q: seq<seq<real>>, a: nat, d: nat,
                               attend: (seq<real>, int) -> seq<real>): real
    requires |wo| == |q| && a > 0 && forall i :: 0 <= i < |wo| ==> |wo[i]| == d
    requires forall u, j :: |attend(u, j)| == d
  {
    Sum(|wo|, h => HeadTerm(wo, q, d, attend, h, h / a))
  }

  /** Entry g*b + k of v is entry k*a + g of v'. */
  ghost predicate Moved<T>(v: seq<T>, v': seq<T>, a: nat, b: nat, g: int, k: int) {
    0 <= k * a + g < |v'| && 0 <= g * b + k < |v| && v'[k * a + g] == v[g * b + k]
  }

  ghost predicate Shuffled<T>(v: seq<T>, v': seq<T>, a: nat, b: nat) {
    |v| == |v'| == a * b && forall g: int, k: int :: 0 <= g < a && 0 <= k < b ==> Moved(v, v', a, b, g, k)
  }

  lemma GridQuotients(a: nat, b: nat, g: nat, k: nat)
    requires g < a && k < b
    ensures (k * a + g) / a == k && (g * b + k) % b == k
  {
    Offset(k, g, b, a);
    Offset(g, k, a, b);
  }

  /** A moved head contributes the same term under the runtime's KV index as under the checkpoint's. */
  lemma SameTerm(wo: seq<seq<real>>, q: seq<seq<real>>, wo': seq<seq<real>>, q': seq<seq<real>>,
                 a: nat, b: nat, d: nat, attend: (seq<real>, int) -> seq<real>, g: nat, k: nat)
    requires g < a && k < b && Shuffled(wo, wo', a, b) && Shuffled(q, q', a, b)
    requires forall i :: 0 <= i < |wo| ==> |wo[i]| == d
    requires forall i :: 0 <= i < |wo'| ==> |wo'[i]| == d
    requires forall u, j :: |attend(u, j)| == d
    ensures HeadTerm(wo', q', d, attend, k * a + g, (k * a + g) / a)
            == HeadTerm(wo, q, d, attend, g * b + k, (g * b + k) % b)
  {
    assert Moved(wo, wo', a, b, g, k) && Moved(q, q', a, b, g, k);
    GridQuotients(a, b, g, k);
  }

  /** Reordering query heads and output columns together keeps the attention output. */
  lemma ShuffleKeepsOutput(wo: seq<seq<real>>, q: seq<seq<real>>, wo': seq<seq<real>>, q': seq<seq<real>>,
                           a: nat, b: nat, d: nat, attend: (seq<real>, int) -> seq<real>)
    requires a > 0 && b > 0 && Shuffled(wo, wo', a, b) && Shuffled(q, q', a, b)
    requires forall i :: 0 <= i < |wo| ==> |wo[i]| == d
    requires forall i :: 0 <= i < |wo'| ==> |wo'[i]| == d
    requires forall u, j :: |attend(u, j)| == d
    ensures RuntimeOutput(wo', q', a, d, attend) == CheckpointOutput(wo, q, b, d, attend)
  {
    var run: int -> real := h => HeadTerm(wo', q', d, attend, h, h / a);
    var chk: int -> real := h => HeadTerm(wo, q, d, attend, h, h % b);
    var cell: (int, int) -> real := (g, k) => run(k * a + g);
    assert a * b == b * a;
    SumBlocks(a, b, run);
    SumSame(b, k => BlockSum(a, run, k), k => ColumnSum(a, cell, k)) by {
      forall k: int | 0 <= k < b
        ensures BlockSum(a, run, k) == ColumnSum(a, cell, k)
      {
        SumSame(a, g => run(k * a + g), g => cell(g, k));
      }
    }
    SumSwap(a, b, cell);
    forall g: int | 0 <= g < a
      ensures RowSum(b, cell, g) == BlockSum(b, chk, g)
    {
      forall k: int | 0 <= k < b
        ensures cell(g, k) == chk(g * b + k)
      {
        SameTerm(wo, q, wo', q', a, b, d, attend, g, k);
      }
      SumSame(b, k => cell(g, k), k => chk(g * b + k));
    }
    SumSame(a, g => RowSum(b, cell, g), g => BlockSum(b, chk, g));
    SumBlocks(b, a, chk);
  }

  // ---------------------------------------------------------------- the shuffles and the output

  /** Entry e of head g*b + k of v is entry e of head k*a + g of v'. */
  ghost predicate EntryMoved(v: seq<real>, v': seq<real>, a: nat, b: nat, d: nat, g: int, k: int, e: int) {
    && 0 <= (k * a + g) * d + e < |v'| && 0 <= (g * b + k) * d + e < |v|
    && v'[(k * a + g) * d + e] == v[(g * b + k) * d + e]
  }

  lemma ShuffledHeads(v: seq<real>, v': seq<real>, a: nat, b: nat, d: nat)
    requires |v| == |v'| == a * b * d
    requires forall g: int, k: int, e: int :: 0 <= g < a && 0 <= k < b && 0 <= e < d ==> EntryMoved(v, v', a, b, d, g, k, e)
    ensures Shuffled(Heads(v, a * b, d), Heads(v', a * b, d), a, b)
  {
    forall g: int, k: int | 0 <= g < a && 0 <= k < b
      ensures Moved(Heads(v, a * b, d), Heads(v', a * b, d), a, b, g, k)
    {
      HeadMoved(v, v', a, b, d, g, k);
    }
  }

  /** Entry e of head `to` of v' is entry e of head `from` of v. */
  ghost predicate HeadEntry(v: seq<real>, v': seq<real>, from: int, to: int, d: nat, e: int) {
    0 <= to * d + e < |v'| && 0 <= from * d + e < |v| && v'[to * d + e] == v[from * d + e]
  }

  lemma HeadEqual(v: seq<real>, v': seq<real>, n: nat, d: nat, from: nat, to: nat)
    requires |v| == |v'| == n * d && from < n && to < n
    requires forall e: int :: 0 <= e < d ==> HeadEntry(v, v', from, to, d, e)
    ensures Heads(v', n, d)[to] == Heads(v, n, d)[from]
  {
    HeadBound(n, to, d);
    HeadBound(n, from, d);
    forall e: int | 0 <= e < d
      ensures Head(v', to, d)[e] == Head(v, from, d)[e]
    {
      assert HeadEntry(v, v', from, to, d, e);
    }
  }

  lemma GridBounds(a: nat, b: nat, g: nat, k: nat)
    requires g < a && k < b
    ensures 0 <= k * a + g < a * b && 0 <= g * b + k < a * b
  {
    Offset(k, g, b, a);
    Offset(g, k, a, b);
    assert a * b == b * a;
  }

  lemma HeadMoved(v: seq<real>, v': seq<real>, a: nat, b: nat, d: nat, g: nat, k: nat)
    requires |v| == |v'| == a * b * d && g < a && k < b
    requires forall e: int :: 0 <= e < d ==> EntryMoved(v, v', a, b, d, g, k, e)
    ensures Moved(Heads(v, a * b, d), Heads(v', a * b, d), a, b, g, k)
  {
    hide EntryMoved, HeadEntry, Heads;
    GridBounds(a, b, g, k);
    var from, to := g * b + k, k * a + g;
    forall e: int | 0 <= e < d
      ensures HeadEntry(v, v', from, to, d, e)
    {
      EntryEqual(v, v', a, b, d, g, k, e);
    }
    HeadEqual(v, v', a * b, d, from, to);
  }

  lemma EntryEqual(v: seq<real>, v': seq<real>, a: nat, b: nat, d: nat, g: nat, k: nat, e: nat)
    requires EntryMoved(v, v', a, b, d, g, k, e)
    ensures HeadEntry(v, v', g * b + k, k * a + g, d, e)
  {
  }

  lemma QueriesShuffled(wq: Tensor<real>, x: seq<real>, a: nat, b: nat, d: nat, g: nat, k: nat, e: nat)
    requires wq.Valid() && |wq.shape| == 2 && wq.shape[0] == a * b * d && |x| == wq.shape[1]
    requires g < a && k < b && e < d
    ensures DenseRun(wq, QueryOps(a, b, d, wq.shape[1])).Ok?
    ensures var wq' := DenseRun(wq, QueryOps(a, b, d, wq.shape[1])).value;
            wq'.shape == wq.shape && EntryMoved(MatVec(wq, x), MatVec(wq', x), a, b, d, g, k, e)
  {
    hide Prod, DenseRun, QueryOps, MatVec;
    QueryRow(wq, a, b, d, g, k, e);
    MovedEntry(wq, DenseRun(wq, QueryOps(a, b, d, wq.shape[1])).value, x, (g * b + k) * d + e, (k * a + g) * d + e);
  }

  lemma RowEntry(t: Tensor<real>, o: nat, c: int)
    requires t.Valid() && |t.shape| == 2 && o < t.shape[0] && 0 <= c < t.shape[1]
    ensures |Sub(t, o).data| == t.shape[1] && InShape(t.shape, [o, c]) && Sub(t, o).data[c] == At(t, [o, c])
  {
    hide Prod, Flat, Unflat;
    MatrixSub(t, o);
    assert [o] + [c] == [o, c] && Front(t.shape) == [t.shape[0]];
    FlatOne(t.shape[0], o);
    CellIsAt(t, [o], c);
  }

  lemma OutputsShuffled(wo: Tensor<real>, a: nat, b: nat, d: nat, o: nat, g: nat, k: nat, e: nat)
    requires wo.Valid() && |wo.shape| == 2 && wo.shape[1] == a * b * d && o < wo.shape[0]
    requires g < a && k < b && e < d
    ensures DenseRun(wo, OutputOps(a, b, d, wo.shape[0])).Ok?
    ensures var wo' := DenseRun(wo, OutputOps(a, b, d, wo.shape[0])).value;
            wo'.shape == wo.shape && EntryMoved(Sub(wo, o).data, Sub(wo', o).data, a, b, d, g, k, e)
  {
    hide Prod, DenseRun, OutputOps, At, Sub, EntryMoved, ColumnMoved;
    OutputColumn(wo, a, b, d, o, g, k, e);
    var wo' := DenseRun(wo, OutputOps(a, b, d, wo.shape[0])).value;
    var from, to := (g * b + k) * d + e, (k * a + g) * d + e;
    ColumnEntry(wo, wo', o, from, to);
    EntryIs(Sub(wo, o).data, Sub(wo', o).data, a, b, d, g, k, e, from, to);
  }

  lemma ColumnEntry(t: Tensor<real>, w: Tensor<real>, o: nat, from: int, to: int)
    requires ColumnMoved(t, w, o, from, to)
    ensures w.Valid() && w.shape == t.shape && 0 <= from < |Sub(t, o).data| && 0 <= to < |Sub(w, o).data|
    ensures Sub(w, o).data[to] == Sub(t, o).data[from]
  {
    hide Prod, At, Sub;
    RowEntry(w, o, to);
    RowEntry(t, o, from);
  }

  lemma EntryIs(v: seq<real>, v': seq<real>, a: nat, b: nat, d: nat, g: nat, k: nat, e: nat, from: int, to: int)
    requires from == (g * b + k) * d + e && to == (k * a + g) * d + e
    requires 0 <= from < |v| && 0 <= to < |v'| && v'[to] == v[from]
    ensures EntryMoved(v, v', a, b, d, g, k, e)
  {
  }

  lemma OutputSucceeds(wo: Tensor<real>, a: nat, b: nat, d: nat)
    requires wo.Valid() && |wo.shape| == 2 && wo.shape[1] == a * b * d
    ensures DenseRun(wo, OutputOps(a, b, d, wo.shape[0])).Ok?
    ensures DenseRun(wo, OutputOps(a, b, d, wo.shape[0])).value.shape == wo.shape
  {
    hide Prod, DenseRun, OutputOps, PermuteAxes;
    OutputRun(wo, a, b, d);
  }

  /**
    For any head function, the converted query and output weights under the runtime's KV sharing
    compute what the checkpoint's weights compute under its own: every output o, every input x.
   */
  lemma ConversionKeepsAttention(wq: Tensor<real>, wo: Tensor<real>, a: nat, b: nat, d: nat, x: seq<real>, o: nat,
                                 attend: (seq<real>, int) -> seq<real>)
    requires a > 0 && b > 0
    requires wq.Valid() && |wq.shape| == 2 && wq.shape[0] == a * b * d && |x| == wq.shape[1]
    requires wo.Valid() && |wo.shape| == 2 && wo.shape[1] == a * b * d && o < wo.shape[0]
    requires forall u, j :: |attend(u, j)| == d
    ensures DenseRun(wq, QueryOps(a, b, d, wq.shape[1])).Ok? && DenseRun(wo, OutputOps(a, b, d, wo.shape[0])).Ok?
    ensures var wq' := DenseRun(wq, QueryOps(a, b, d, wq.shape[1])).value;
            var wo' := DenseRun(wo, OutputOps(a, b, d, wo.shape[0])).value;
            && wq'.shape == wq.shape && wo'.shape == wo.shape
            && |Sub(wo', o).data| == a * b * d && |Sub(wo, o).data| == a * b * d
            && RuntimeOutput(Heads(Sub(wo', o).data, a * b, d), Heads(MatVec(wq', x), a * b, d), a, d, attend)
               == CheckpointOutput(Heads(Sub(wo, o).data, a * b, d), Heads(MatVec(wq, x), a * b, d), b, d, attend)
  {
    hide Prod, DenseRun, QueryOps, OutputOps, MatVec, Sub;
    hide RuntimeOutput, CheckpointOutput, EntryMoved, Heads, Shuffled, ShuffleRows;
    QueryRun(wq, a, b, d);
    OutputSucceeds(wo, a, b, d);
    var wq' := DenseRun(wq, QueryOps(a, b, d, wq.shape[1])).value;
    var wo' := DenseRun(wo, OutputOps(a, b, d, wo.shape[0])).value;
    MatrixSub(wo, o);
    MatrixSub(wo', o);
    forall g: int, k: int, e: int | 0 <= g < a && 0 <= k < b && 0 <= e < d
      ensures EntryMoved(MatVec(wq, x), MatVec(wq', x), a, b, d, g, k, e)
      ensures EntryMoved(Sub(wo, o).data, Sub(wo', o).data, a, b, d, g, k, e)
    {
      QueriesShuffled(wq, x, a, b, d, g, k, e);
      OutputsShuffled(wo, a, b, d, o, g, k, e);
    }
    ShuffledHeads(MatVec(wq, x), MatVec(wq', x), a, b, d);
    ShuffledHeads(Sub(wo, o).data, Sub(wo', o).data, a, b, d);
    ShuffleKeepsOutput(Heads(Sub(wo, o).data, a * b, d), Heads(MatVec(wq, x), a * b, d),
                       Heads(Sub(wo', o).data, a * b, d), Heads(MatVec(wq', x), a * b, d), a, b, d, attend);
  }

  /** Head h of a vector is the h-th stretch of d entries. */
  lemma HeadsAt(v: seq<real>, n: nat, d: nat, h: nat, e: nat)
    requires |v| == n * d && h < n && e < d
    ensures h * d + e < |v| && Heads(v, n, d)[h][e] == v[h * d + e]
  {
    HeadBound(n, h, d);
    HeadAt(v, h, d, e);
  }

  /** The output sums over the heads; head h attends to KV head h mod b in the checkpoint and h div a at run time. */
  lemma OneMoreHead(wo: seq<seq<real>>, q: seq<seq<real>>, w: seq<real>, u: seq<real>, b: nat, d: nat,
                    attend: (seq<real>, int) -> seq<real>)
    requires |wo| == |q| && b > 0 && (forall i :: 0 <= i < |wo| ==> |wo[i]| == d) && |w| == d
    requires forall u', j :: |attend(u', j)| == d
    ensures forall i :: 0 <= i < |wo + [w]| ==> |(wo + [w])[i]| == d
    ensures CheckpointOutput([], [], b, d, attend) == RuntimeOutput([], [], b, d, attend) == 0.0
    ensures CheckpointOutput(wo + [w], q + [u], b, d, attend)
            == CheckpointOutput(wo, q, b, d, attend) + Dot(w, attend(u, |wo| % b))
    ensures RuntimeOutput(wo + [w], q + [u], b, d, attend)
            == RuntimeOutput(wo, q, b, d, attend) + Dot(w, attend(u, |wo| / b))
  {
    hide Dot;
    var n := |wo|;
    SumSame(n, h => HeadTerm(wo + [w], q + [u], d, attend, h, h % b), h => HeadTerm(wo, q, d, attend, h, h % b));
    SumSame(n, h => HeadTerm(wo + [w], q + [u], d, attend, h, h / b), h => HeadTerm(wo, q, d, attend, h, h / b));
  }

  /** A weight of any other shape violates an assertion. */
  lemma OtherShapesRefused(t: Tensor<real>)
    requires t.Valid() && t.shape != [5120, 5120]
    ensures ShuffleAttnQWeight(t) == ShuffleAttnOutputWeight(t) == Err(AssertionFailed)
  {
  }

  /** The shuffles at the converter's own sizes: 8 groups of 5 heads of dimension 128. */
  lemma PlamoKeepsAttention(wq: Tensor<real>, wo: Tensor<real>, x: seq<real>, o: nat,
                            attend: (seq<real>, int) -> seq<real>)
    requires wq.Valid() && wq.shape == [5120, 5120] && |x| == 5120
    requires wo.Valid() && wo.shape == [5120, 5120] && o < 5120
    requires forall u, j :: |attend(u, j)| == 128
    ensures ShuffleAttnQWeight(wq).Ok? && ShuffleAttnOutputWeight(wo).Ok?
    ensures var wq', wo' := ShuffleAttnQWeight(wq).value, ShuffleAttnOutputWeight(wo).value;
            && wq'.Valid() && wq'.shape == wq.shape && wo'.Valid() && wo'.shape == wo.shape
            && |Sub(wo', o).data| == 5120 && |Sub(wo, o).data| == 5120
            && RuntimeOutput(Heads(Sub(wo', o).data, 40, 128), Heads(MatVec(wq', x), 40, 128), 8, 128, attend)
               == CheckpointOutput(Heads(Sub(wo, o).data, 40, 128), Heads(MatVec(wq, x), 40, 128), 5, 128, attend)
  {
    hide DenseRun, QueryOps, OutputOps, MatVec, Sub, RuntimeOutput, CheckpointOutput, Heads, Prod;
    ConversionKeepsAttention(wq, wo, GROUPS, KV_HEADS, HEAD_DIM, x, o, attend);
  }
}
