/**
  Falcon's fused QKV weight. The checkpoint holds, per KV group, R query heads, one key head and
  one value head; the converter gathers all query heads, then all key heads, then all value heads.
 */
module Falcon {
  import opened Wrappers
  import opened Tensors
  import opened Lora
  import opened LoraBatches
  import opened Layouts

  const QUERIES := Span(None, Some(-2), 1)
  const KEY := List([-2])
  const VALUE := List([-1])

  /** view(n_head_kv, n_head // n_head_kv + 2, head_dim, head_dim * n_head)[:, item].reshape(rows, ...) */
  function PartOps(nHead: nat, nKv: nat, headDim: nat, item: Item, rows: nat): seq<Op>
    requires nKv > 0
  {
    [ReshapeTo([nKv, nHead / nKv + 2, headDim, headDim * nHead]),
     IndexBy([FULL, item]),
     ReshapeTo([rows, headDim * nHead])]
  }

  function Regroup(t: Tensor<real>, nHead: nat, nKv: nat, headDim: nat): (r: Result<Tensor<real>, TensorError>)
    requires t.Valid()
  {
    if nKv == 0 then Err(BadDims)
    else
      var q :- DenseRun(t, PartOps(nHead, nKv, headDim, QUERIES, nHead * headDim));
      var k :- DenseRun(t, PartOps(nHead, nKv, headDim, KEY, nKv * headDim));
      var v :- DenseRun(t, PartOps(nHead, nKv, headDim, VALUE, nKv * headDim));
      var all :- Cat([q, k, v]);
      Reshape(all, t.shape)
  }

  function RegroupPair(l: LoraTensor, nHead: nat, nKv: nat, headDim: nat): (r: Result<LoraTensor, TensorError>)
    requires Constructed(l)
    ensures r.Ok? ==> Constructed(r.value)
  {
    if nKv == 0 then Err(BadDims)
    else
      var q :- LoraRun(l, PartOps(nHead, nKv, headDim, QUERIES, nHead * headDim));
      var k :- LoraRun(l, PartOps(nHead, nKv, headDim, KEY, nKv * headDim));
      var v :- LoraRun(l, PartOps(nHead, nKv, headDim, VALUE, nKv * headDim));
      var all :- LoraCat([q, k, v]);
      LoraReshape(all, Shape(l))
  }

  // ---------------------------------------------------------------- one part

  /** The selectors of `[:, item]` on a tensor of shape [a, s, d, w]. */
  function Middle(shape: seq<nat>, rows: seq<nat>): (sels: seq<Selector>)
    requires |shape| == 4
    ensures |sels| == 4
  {
    [AllRows(shape[0]), Take(rows), AllRows(shape[2]), AllRows(shape[3])]
  }

  lemma MiddleShape(shape: seq<nat>, rows: seq<nat>)
    requires |shape| == 4 && Fits(Take(rows), shape[1])
    ensures SelectorsFit(Middle(shape, rows), shape)
    ensures SelectedShape(Middle(shape, rows)) == [shape[0], |rows|, shape[2], shape[3]]
  {
    var s := Middle(shape, rows);
    assert s == [] + [s[0]] + [s[1]] + [s[2]] + [s[3]];
    TakenShape([], s[0]);
    TakenShape([] + [s[0]], s[1]);
    TakenShape([] + [s[0]] + [s[1]], s[2]);
    TakenShape([] + [s[0]] + [s[1]] + [s[2]], s[3]);
  }

  lemma MiddleEmbed(shape: seq<nat>, rows: seq<nat>, g: nat, u: nat, e: nat, x: nat)
    requires |shape| == 4 && Fits(Take(rows), shape[1])
    requires g < shape[0] && u < |rows| && e < shape[2] && x < shape[3]
    ensures InShape(SelectedShape(Middle(shape, rows)), [g, u, e, x])
    ensures Embed(Middle(shape, rows), [g, u, e, x]) == [g, rows[u], e, x]
  {
    hide SelectedShape, Embed;
    var s := Middle(shape, rows);
    assert s == [] + [s[0]] + [s[1]] + [s[2]] + [s[3]];
    assert [g, u, e, x] == [] + [g] + [u] + [e] + [x];
    EmbedNone();
    EmbedNext([], s[0], [], g);
    EmbedNext([] + [s[0]], s[1], [] + [g], u);
    EmbedNext([] + [s[0]] + [s[1]], s[2], [] + [g] + [u], e);
    EmbedNext([] + [s[0]] + [s[1]] + [s[2]], s[3], [] + [g] + [u] + [e], x);
  }

  lemma EmbedNone()
    ensures InShape(SelectedShape([]), []) && Embed([], []) == []
  {
  }

  lemma MiddleIndex(t: Tensor<real>, item: Item, rows: seq<nat>)
    requires t.Valid() && |t.shape| == 4 && !item.Ellipsis? && Resolve(item, t.shape[1]) == Ok(Take(rows))
    ensures SelectorsFit(Middle(t.shape, rows), t.shape)
    ensures DenseIndex(t, [FULL, item]) == Ok(Select(t, Middle(t.shape, rows)))
  {
    hide Select, ResolveAll, Resolve, CountLists, SpliceEllipsis;
    MiddleShape(t.shape, rows);
    var e := [FULL, item, FULL, FULL];
    SpliceNone([FULL, item], 0);
    assert [FULL, item] + Fulls(2) == e;
    MiddleResolve(t.shape, item, rows);
    assert DenseExpand([FULL, item], 4) == Ok(e);
  }

  lemma MiddleResolve(shape: seq<nat>, item: Item, rows: seq<nat>)
    requires |shape| == 4 && !item.Ellipsis? && Resolve(item, shape[1]) == Ok(Take(rows))
    ensures ResolveAll([FULL, item, FULL, FULL], shape) == Ok(Middle(shape, rows))
    ensures CountLists([FULL, item, FULL, FULL]) <= 1
  {
    hide ResolveAll, Resolve, CountLists, Fits, AllRows;
    var (s0, s1, s2, s3) := (shape[0], shape[1], shape[2], shape[3]);
    ResolveThree(item, s0, s1, s2, rows);
    ResolveFull([FULL, item, FULL], [s0, s1, s2], [AllRows(s0), Take(rows), AllRows(s2)], s3);
    FourthAppended(FULL, item, FULL, FULL);
    FourthAppended(s0, s1, s2, s3);
    FourthAppended(AllRows(s0), Take(rows), AllRows(s2), AllRows(s3));
    assert shape == [s0, s1, s2, s3];
  }

  lemma ThirdAppended<T>(x: T, y: T, z: T)
    ensures [x, y] + [z] == [x, y, z]
  {
  }

  lemma FourthAppended<T>(x: T, y: T, z: T, u: T)
    ensures [x, y, z] + [u] == [x, y, z, u]
  {
  }

  lemma ResolveThree(item: Item, s0: nat, s1: nat, s2: nat, rows: seq<nat>)
    requires Resolve(item, s1) == Ok(Take(rows))
    ensures ResolveAll([FULL, item, FULL], [s0, s1, s2]) == Ok([AllRows(s0), Take(rows), AllRows(s2)])
    ensures CountLists([FULL, item, FULL]) <= 1
  {
    hide ResolveAll, Resolve, CountLists, Fits, AllRows;
    ResolveTwo(item, s0, s1, rows);
    ResolveFull([FULL, item], [s0, s1], [AllRows(s0), Take(rows)], s2);
    ThirdAppended(FULL, item, FULL);
    ThirdAppended(s0, s1, s2);
    ThirdAppended(AllRows(s0), Take(rows), AllRows(s2));
  }

  lemma ResolveTwo(item: Item, s0: nat, s1: nat, rows: seq<nat>)
    requires Resolve(item, s1) == Ok(Take(rows))
    ensures ResolveAll([FULL, item], [s0, s1]) == Ok([AllRows(s0), Take(rows)]) && CountLists([FULL, item]) <= 1
  {
    hide ResolveAll, Resolve, CountLists, Fits, AllRows;
    ResolveNone();
    ResolveFull([], [], [], s0);
    assert [] + [FULL] == [FULL] && [] + [s0] == [s0] && [] + [AllRows(s0)] == [AllRows(s0)];
    ResolveSplit([FULL], item, [s0], s1);
    assert [FULL] + [item] == [FULL, item] && [s0] + [s1] == [s0, s1];
    assert [AllRows(s0)] + [Take(rows)] == [AllRows(s0), Take(rows)];
  }

  /** One more axis, taken whole. */
  lemma ResolveFull(items: seq<Item>, shape: seq<nat>, sels: seq<Selector>, n: nat)
    requires |items| == |shape| && ResolveAll(items, shape) == Ok(sels)
    ensures ResolveAll(items + [FULL], shape + [n]) == Ok(sels + [AllRows(n)])
    ensures CountLists(items + [FULL]) == CountLists(items)
  {
    hide ResolveAll, Resolve, CountLists, Fits;
    ResolveSplit(items, FULL, shape, n);
  }

  lemma ResolveNone()
    ensures ResolveAll([], []) == Ok([]) && CountLists([]) == 0
  {
  }

  /** Rows grouped as [a, s, d], the listed slots kept, flattened again. */
  function Part(t: Tensor<real>, a: nat, s: nat, d: nat, rows: seq<nat>): (r: Tensor<real>)
    requires t.Valid() && |t.shape| == 2 && t.shape[0] == Prod([a, s, d]) && Fits(Take(rows), s)
    ensures r.Valid() && r.shape == [Prod([a, |rows|, d]), t.shape[1]]
  {
    var lead, w := [a, s, d], t.shape[1];
    RegroupedCount(t.shape, lead);
    assert lead + Tail(t.shape) == [a, s, d, w];
    MiddleShape([a, s, d, w], rows);
    var shape := [Prod([a, |rows|, d]), w];
    RegroupedCount(shape, [a, |rows|, d]);
    assert [a, |rows|, d] + Tail(shape) == [a, |rows|, d, w];
    Tensor(shape, Select(Tensor([a, s, d, w], t.data), Middle([a, s, d, w], rows)).data)
  }

  /** Row `to` of p is row `from` of t. */
  ghost predicate RowTaken(t: Tensor<real>, p: Tensor<real>, from: int, to: int) {
    && t.Valid() && p.Valid() && t.shape != [] && p.shape != []
    && 0 <= from < t.shape[0] && 0 <= to < p.shape[0]
    && Sub(p, to) == Sub(t, from)
  }

  /** Row (g, u, e) of a part is row (g, rows[u], e) of the fused weight. */
  lemma PartRow(t: Tensor<real>, a: nat, s: nat, d: nat, rows: seq<nat>, g: nat, u: nat, e: nat)
    requires t.Valid() && |t.shape| == 2 && t.shape[0] == Prod([a, s, d]) && Fits(Take(rows), s)
    requires g < a && u < |rows| && e < d
    ensures RowTaken(t, Part(t, a, s, d, rows), (g * s + rows[u]) * d + e, (g * |rows| + u) * d + e)
  {
    hide Prod, Flat, Unflat, Sub, Part, Select;
    var n := |rows|;
    FlatThree(a, n, d, g, u, e);
    FlatThree(a, s, d, g, rows[u], e);
    FlatBound([a, n, d], [g, u, e]);
    FlatBound([a, s, d], [g, rows[u], e]);
    var p := Part(t, a, s, d, rows);
    var to, from := Flat([a, n, d], [g, u, e]), Flat([a, s, d], [g, rows[u], e]);
    forall idx | InShape([t.shape[1]], idx)
      ensures At(Sub(p, to), idx) == At(Sub(t, from), idx)
    {
      SubAt(p, to, idx);
      SubAt(t, from, idx);
      assert idx == [idx[0]];
      PartAt(t, a, s, d, rows, g, u, e, idx[0]);
    }
    assert Tail(t.shape) == [t.shape[1]];
    SameEntries(Sub(p, to), Sub(t, from));
  }

  lemma PartAt(t: Tensor<real>, a: nat, s: nat, d: nat, rows: seq<nat>, g: nat, u: nat, e: nat, x: nat)
    requires t.Valid() && |t.shape| == 2 && t.shape[0] == Prod([a, s, d]) && Fits(Take(rows), s)
    requires g < a && u < |rows| && e < d && x < t.shape[1]
    ensures var to, from := Flat([a, |rows|, d], [g, u, e]), Flat([a, s, d], [g, rows[u], e]);
            && to < Prod([a, |rows|, d]) && from < t.shape[0]
            && At(Part(t, a, s, d, rows), [to] + [x]) == At(t, [from] + [x])
  {
    hide Prod, Flat, Unflat, Select, At, Embed, SelectedShape;
    var n, w := |rows|, t.shape[1];
    var lead, leadP := [a, s, d], [a, n, d];
    RegroupedCount(t.shape, lead);
    assert lead + [w] == [a, s, d, w] && leadP + [w] == [a, n, d, w] && t.shape == [t.shape[0]] + [w];
    var view := Tensor([a, s, d, w], t.data);
    MiddleShape(view.shape, rows);
    var part := Select(view, Middle(view.shape, rows));
    FlatBound(leadP, [g, u, e]);
    FlatBound(lead, [g, rows[u], e]);
    var to, from := Flat(leadP, [g, u, e]), Flat(lead, [g, rows[u], e]);
    FlatOne(Prod(leadP), to);
    FlatOne(t.shape[0], from);
    var p := Part(t, a, s, d, rows);
    assert p.shape == [Prod(leadP)] + [w];
    RegroupAt(part, p, leadP, [Prod(leadP)], [w], [g, u, e], [to], [x]);
    MiddleEmbed(view.shape, rows, g, u, e, x);
    assert [g, u, e] + [x] == [g, u, e, x] && [g, rows[u], e] + [x] == [g, rows[u], e, x];
    SelectAt(view, Middle(view.shape, rows), [g, u, e, x]);
    RegroupAt(view, t, lead, [t.shape[0]], [w], [g, rows[u], e], [from], [x]);
  }

  // ---------------------------------------------------------------- the regroup

  /** A fused weight of g KV groups with r query heads each, head dimension d. */
  ghost predicate Fused(t: Tensor<real>, g: nat, r: nat, d: nat) {
    && t.Valid() && |t.shape| == 2 && g > 0
    && t.shape[0] == g * (r + 2) * d && t.shape[1] == d * (g * r)
  }

  lemma HeadsPerGroup(g: nat, r: nat)
    requires g > 0
    ensures g * r / g == r
  {
    Offset(r, 0, r + 1, g);
  }

  lemma SlotItems(r: nat)
    ensures Resolve(QUERIES, r + 2) == Ok(Take(QueryRows(r)))
    ensures Resolve(KEY, r + 2) == Ok(Take([r])) && Resolve(VALUE, r + 2) == Ok(Take([r + 1]))
  {
    assert Resolve(KEY, r + 2).value.rows == [r];
    assert Resolve(VALUE, r + 2).value.rows == [r + 1];
  }

  function QueryRows(r: nat): (rows: seq<nat>)
    ensures |rows| == r && forall j :: 0 <= j < r ==> rows[j] == j
  {
    SpanRows(0, r, 1)
  }

  lemma PartRun(t: Tensor<real>, g: nat, r: nat, d: nat, item: Item, rows: seq<nat>)
    requires Fused(t, g, r, d) && !item.Ellipsis? && Resolve(item, r + 2) == Ok(Take(rows))
    ensures Prod([g, r + 2, d]) == t.shape[0]
    ensures DenseRun(t, PartOps(g * r, g, d, item, Prod([g, |rows|, d]))) == Ok(Part(t, g, r + 2, d, rows))
  {
    hide Prod, DenseStep, DenseRun, Select, Resolve;
    HeadsPerGroup(g, r);
    FlatThree(g, r + 2, d, 0, 0, 0);
    var w, n := t.shape[1], |rows|;
    var lead, leadP := [g, r + 2, d], [g, n, d];
    var ops := PartOps(g * r, g, d, item, Prod(leadP));
    GroupStep(t, lead);
    assert lead + Tail(t.shape) == [g, r + 2, d, w];
    var view := Tensor([g, r + 2, d, w], t.data);
    MiddleIndex(view, item, rows);
    MiddleShape(view.shape, rows);
    var part := Select(view, Middle(view.shape, rows));
    assert DenseStep(view, ops[1]) == Ok(part) by { IndexedStep(view, [FULL, item]); }
    var shape := [Prod(leadP), w];
    assert leadP + Tail(shape) == part.shape;
    UngroupStep(part, leadP, shape);
    RunThree(t, ops, view, part, Tensor(shape, part.data));
  }

  lemma IndexedStep(t: Tensor<real>, items: seq<Item>)
    requires t.Valid()
    ensures DenseStep(t, IndexBy(items)) == DenseIndex(t, items)
  {
  }

  lemma CatThree(q: Tensor<real>, k: Tensor<real>, v: Tensor<real>, w: nat)
    requires q.Valid() && k.Valid() && v.Valid()
    requires |q.shape| == |k.shape| == |v.shape| == 2 && q.shape[1] == k.shape[1] == v.shape[1] == w
    ensures Cat([q, k, v]).Ok?
    ensures var c := Cat([q, k, v]).value;
            && c.shape == [q.shape[0] + k.shape[0] + v.shape[0], w]
            && (forall j: nat | j < q.shape[0] :: Sub(c, j) == Sub(q, j))
            && (forall j: nat | j < k.shape[0] :: Sub(c, q.shape[0] + j) == Sub(k, j))
            && (forall j: nat | j < v.shape[0] :: Sub(c, q.shape[0] + k.shape[0] + j) == Sub(v, j))
  {
    hide Prod, Sub, StackOf, Subs;
    var ts := [q, k, v];
    assert Tail(q.shape) == [w] && Tail(k.shape) == [w] && Tail(v.shape) == [w];
    assert Front(ts) == [q, k] && Front([q, k]) == [q] && Front([q]) == [];
    var subs := AllSubs(ts, [w]);
    assert AllSubs([q], [w]) == Subs(q);
    assert AllSubs([q, k], [w]) == Subs(q) + Subs(k);
    assert subs == Subs(q) + Subs(k) + Subs(v);
    var c := Cat(ts).value;
    assert c.shape == [|subs|] + [w];
    forall j: nat | j < |subs|
      ensures Sub(c, j) == subs[j]
    {
      StackSub(subs, [w], j);
    }
  }

  /** Kept apart as a function so that proofs can be about the products, not their factors. */
  function Times(a: int, b: int): int {
    a * b
  }

  /** The slot (head index) that head slot s of the fused weight moves to. */
  function SlotTarget(s: int, g: nat, r: nat): int {
    var group, u := s / (r + 2), s % (r + 2);
    if u < r then Times(group, r) + u
    else if u == r then Times(g, r) + group
    else Times(g, r) + g + group
  }

  /** The fused slot that ends up at slot o. */
  function SlotSource(o: int, g: nat, r: nat): int {
    if r > 0 && o < Times(g, r) then Times(o / r, r + 2) + o % r
    else if o < Times(g, r) + g then Times(o - Times(g, r), r + 2) + r
    else Times(o - Times(g, r) - g, r + 2) + r + 1
  }

  lemma TimesOffset(p: nat, q: nat, m: nat, w: nat)
    requires p < m && q < w
    ensures 0 <= Times(p, w) + q < Times(m, w) && (Times(p, w) + q) / w == p && (Times(p, w) + q) % w == q
  {
    Offset(p, q, m, w);
  }

  lemma TimesQuotient(k: nat, m: nat, w: nat)
    requires k < Times(m, w)
    ensures w > 0 && 0 <= k / w < m && 0 <= k % w < w && Times(k / w, w) + k % w == k
  {
    Quotient(k, m, w);
  }

  lemma SlotCount(g: nat, r: nat)
    ensures Times(g, r + 2) == Times(g, r) + g + g && Times(g, r) >= 0
  {
  }

  /** Every slot is used exactly once, and each lands in its own third of the result. */
  lemma SlotBijection(s: nat, g: nat, r: nat)
    requires s < g * (r + 2)
    ensures 0 <= SlotTarget(s, g, r) < g * (r + 2) && SlotSource(SlotTarget(s, g, r), g, r) == s
    ensures 0 <= SlotSource(s, g, r) < g * (r + 2) && SlotTarget(SlotSource(s, g, r), g, r) == s
  {
    hide SlotTarget, SlotSource;
    assert Times(g, r + 2) == g * (r + 2);
    SlotForth(s, g, r);
    SlotBack(s, g, r);
  }

  lemma SlotTargetAt(group: nat, u: nat, g: nat, r: nat)
    requires group < g && u < r + 2
    ensures 0 <= Times(group, r + 2) + u < Times(g, r + 2)
    ensures SlotTarget(Times(group, r + 2) + u, g, r)
            == if u < r then Times(group, r) + u else if u == r then Times(g, r) + group else Times(g, r) + g + group
  {
    TimesOffset(group, u, g, r + 2);
    hide Times;
  }

  lemma SlotForth(s: nat, g: nat, r: nat)
    requires s < Times(g, r + 2)
    ensures 0 <= SlotTarget(s, g, r) < Times(g, r + 2) && SlotSource(SlotTarget(s, g, r), g, r) == s
  {
    SlotCount(g, r);
    TimesQuotient(s, g, r + 2);
    hide Times;
    if s % (r + 2) < r {
      TimesOffset(s / (r + 2), s % (r + 2), g, r);
    }
  }

  lemma SlotBack(o: nat, g: nat, r: nat)
    requires o < Times(g, r + 2)
    ensures 0 <= SlotSource(o, g, r) < Times(g, r + 2) && SlotTarget(SlotSource(o, g, r), g, r) == o
  {
    hide SlotTarget, Times;
    SlotCount(g, r);
    if o < Times(g, r) {
      TimesQuotient(o, g, r);
      SlotTargetAt(o / r, o % r, g, r);
    } else if o < Times(g, r) + g {
      SlotTargetAt(o - Times(g, r), r, g, r);
    } else {
      SlotTargetAt(o - Times(g, r) - g, r + 1, g, r);
    }
  }

  /** The number of rows in g groups of n heads of dimension d. */
  function RowCount(g: nat, n: nat, d: nat): nat {
    g * n * d
  }

  /** Row e of head u of a group, n heads to the group. */
  function HeadRow(group: nat, n: nat, u: nat, d: nat, e: nat): nat {
    (group * n + u) * d + e
  }

  /** The head rows that one slot selection keeps. */
  ghost function SlotPart(t: Tensor<real>, g: nat, r: nat, d: nat, rows: seq<nat>): (p: Tensor<real>)
    requires Fused(t, g, r, d) && Fits(Take(rows), r + 2)
    ensures p.Valid() && |p.shape| == 2 && p.shape[0] == RowCount(g, |rows|, d) && p.shape[1] == t.shape[1]
  {
    FlatThree(g, r + 2, d, 0, 0, 0);
    FlatThree(g, |rows|, d, 0, 0, 0);
    Part(t, g, r + 2, d, rows)
  }

  lemma SlotPartRun(t: Tensor<real>, g: nat, r: nat, d: nat, item: Item, rows: seq<nat>, n: nat)
    requires Fused(t, g, r, d) && !item.Ellipsis? && Resolve(item, r + 2) == Ok(Take(rows)) && n == RowCount(g, |rows|, d)
    ensures DenseRun(t, PartOps(g * r, g, d, item, n)) == Ok(SlotPart(t, g, r, d, rows))
  {
    hide Prod, DenseRun, Part, PartOps, Resolve;
    FlatThree(g, |rows|, d, 0, 0, 0);
    PartRun(t, g, r, d, item, rows);
  }

  lemma SlotPartRow(t: Tensor<real>, g: nat, r: nat, d: nat, rows: seq<nat>, group: nat, u: nat, e: nat)
    requires Fused(t, g, r, d) && Fits(Take(rows), r + 2)
    requires group < g && u < |rows| && e < d
    ensures RowTaken(t, SlotPart(t, g, r, d, rows), HeadRow(group, r + 2, rows[u], d, e), HeadRow(group, |rows|, u, d, e))
  {
    hide Prod, Part, Sub, RowTaken;
    FlatThree(g, r + 2, d, 0, 0, 0);
    FlatThree(g, |rows|, d, 0, 0, 0);
    PartRow(t, g, r + 2, d, rows, group, u, e);
  }

  lemma PartTotal(g: nat, r: nat, d: nat)
    ensures RowCount(g, r, d) + RowCount(g, 1, d) + RowCount(g, 1, d) == g * (r + 2) * d
  {
    assert g * (r + 2) == g * r + g + g;
    Distribute(g * r + g, g, d);
    Distribute(g * r, g, d);
  }

  /** The slots that the i-th part keeps. */
  ghost function PartSlots(i: nat, r: nat): (rows: seq<nat>)
    requires i < 3
    ensures Fits(Take(rows), r + 2)
  {
    if i == 0 then QueryRows(r) else if i == 1 then [r] else [r + 1]
  }

  ghost function SlotParts(t: Tensor<real>, g: nat, r: nat, d: nat): (parts: seq<Tensor<real>>)
    requires Fused(t, g, r, d)
    ensures |parts| == 3 && forall i :: 0 <= i < 3 ==> parts[i].Valid() && parts[i] == SlotPart(t, g, r, d, PartSlots(i, r))
  {
    [SlotPart(t, g, r, d, PartSlots(0, r)), SlotPart(t, g, r, d, PartSlots(1, r)), SlotPart(t, g, r, d, PartSlots(2, r))]
  }

  lemma SlotPartsAre(t: Tensor<real>, g: nat, r: nat, d: nat)
    requires Fused(t, g, r, d)
    ensures Fits(Take(QueryRows(r)), r + 2)
    ensures SlotParts(t, g, r, d)
            == [SlotPart(t, g, r, d, QueryRows(r)), SlotPart(t, g, r, d, [r]), SlotPart(t, g, r, d, [r + 1])]
  {
    hide SlotPart, QueryRows, Fused;
    assert PartSlots(0, r) == QueryRows(r) && PartSlots(1, r) == [r] && PartSlots(2, r) == [r + 1];
  }

  lemma RegroupRun(t: Tensor<real>, heads: nat, g: nat, r: nat, d: nat)
    requires Fused(t, g, r, d) && heads == g * r
    ensures var parts := SlotParts(t, g, r, d);
            Cat(parts).Ok? && Regroup(t, heads, g, d) == Cat(parts) && Cat(parts).value.shape == t.shape
  {
    hide Prod, DenseRun, Sub, SlotPart, SlotParts, QueryRows, Cat, PartOps, Regroup, Resolve;
    SlotPartsAre(t, g, r, d);
    SlotItems(r);
    SlotPartRun(t, g, r, d, QUERIES, QueryRows(r), heads * d);
    SlotPartRun(t, g, r, d, KEY, [r], g * d);
    SlotPartRun(t, g, r, d, VALUE, [r + 1], g * d);
    var q, k, v := SlotPart(t, g, r, d, QueryRows(r)), SlotPart(t, g, r, d, [r]), SlotPart(t, g, r, d, [r + 1]);
    CatThree(q, k, v, t.shape[1]);
    PartTotal(g, r, d);
    RegroupParts(t, heads, g, d, q, k, v);
  }

  lemma RegroupParts(t: Tensor<real>, nHead: nat, nKv: nat, d: nat, q: Tensor<real>, k: Tensor<real>, v: Tensor<real>)
    requires t.Valid() && nKv > 0
    requires DenseRun(t, PartOps(nHead, nKv, d, QUERIES, nHead * d)) == Ok(q)
    requires DenseRun(t, PartOps(nHead, nKv, d, KEY, nKv * d)) == Ok(k)
    requires DenseRun(t, PartOps(nHead, nKv, d, VALUE, nKv * d)) == Ok(v)
    requires Cat([q, k, v]).Ok? && Cat([q, k, v]).value.shape == t.shape
    ensures Regroup(t, nHead, nKv, d) == Cat([q, k, v])
  {
    hide Prod, DenseRun, Cat, PartOps;
    NonNegativeShape(Prod(t.shape), t.shape);
  }

  lemma TargetOffset(g: nat, r: nat, d: nat, group: nat, u: nat, e: nat)
    ensures (Times(group, r) + u) * d + e == HeadRow(group, r, u, d, e)
    ensures (Times(group, r + 2) + u) * d + e == HeadRow(group, r + 2, u, d, e)
    ensures (Times(g, r) + group) * d + e == RowCount(g, r, d) + HeadRow(group, 1, 0, d, e)
    ensures (Times(g, r) + g + group) * d + e == RowCount(g, r, d) + RowCount(g, 1, d) + HeadRow(group, 1, 0, d, e)
  {
    Distribute(g * r, group, d);
    Distribute(g * r + g, group, d);
    Distribute(g * r, g, d);
  }

  /** Row e of slot s, before and after, in terms of the slot's group and place in it. */
  lemma SlotRows(g: nat, r: nat, d: nat, s: nat, e: nat)
    requires s < Times(g, r + 2)
    ensures var group, u := s / (r + 2), s % (r + 2);
            && 0 <= group < g && 0 <= u < r + 2 && s * d + e == HeadRow(group, r + 2, u, d, e)
            && SlotTarget(s, g, r) * d + e == (if u < r then HeadRow(group, r, u, d, e) else HeadRow(group, 1, 0, d, e))
                                              + (if u >= r then RowCount(g, r, d) else 0) + (if u > r then RowCount(g, 1, d) else 0)
  {
    TimesQuotient(s, g, r + 2);
    TargetOffset(g, r, d, s / (r + 2), s % (r + 2), e);
    hide Times, RowCount, HeadRow;
  }

  lemma MovedByPart(t: Tensor<real>, parts: seq<Tensor<real>>, i: nat, j: nat, from: int, to: int)
    requires t.Valid() && |t.shape| == 2 && |parts| == 3 && i < 3
    requires forall k :: 0 <= k < 3 ==> parts[k].Valid() && |parts[k].shape| == 2 && parts[k].shape[1] == t.shape[1]
    requires parts[0].shape[0] + parts[1].shape[0] + parts[2].shape[0] == t.shape[0]
    requires RowTaken(t, parts[i], from, j)
    requires to == j + (if i > 0 then parts[0].shape[0] else 0) + (if i > 1 then parts[1].shape[0] else 0)
    ensures Cat(parts).Ok? && RowMoved(t, Cat(parts).value, from, to)
  {
    hide Prod, Sub, Cat;
    assert parts == [parts[0], parts[1], parts[2]];
    CatThree(parts[0], parts[1], parts[2], t.shape[1]);
  }

  lemma FusedMatrix(t: Tensor<real>, g: nat, r: nat, d: nat)
    requires Fused(t, g, r, d)
    ensures t.Valid() && |t.shape| == 2 && t.shape[0] == RowCount(g, r, d) + RowCount(g, 1, d) + RowCount(g, 1, d)
  {
    PartTotal(g, r, d);
  }

  lemma PartMoved(t: Tensor<real>, heads: nat, g: nat, r: nat, d: nat, i: nat, group: nat, v: nat, e: nat, to: int)
    requires Fused(t, g, r, d) && heads == g * r && i < 3 && group < g && v < |PartSlots(i, r)| && e < d
    requires to == HeadRow(group, |PartSlots(i, r)|, v, d, e)
                   + (if i > 0 then RowCount(g, r, d) else 0) + (if i > 1 then RowCount(g, 1, d) else 0)
    ensures Regroup(t, heads, g, d).Ok?
    ensures RowMoved(t, Regroup(t, heads, g, d).value, HeadRow(group, r + 2, PartSlots(i, r)[v], d, e), to)
  {
    hide Prod, Sub, SlotPart, Cat, Regroup, Fused, RowMoved, RowTaken, RowCount, HeadRow;
    FusedMatrix(t, g, r, d);
    RegroupRun(t, heads, g, r, d);
    var parts := SlotParts(t, g, r, d);
    SlotPartRow(t, g, r, d, PartSlots(i, r), group, v, e);
    MovedByPart(t, parts, i, HeadRow(group, |PartSlots(i, r)|, v, d, e), HeadRow(group, r + 2, PartSlots(i, r)[v], d, e), to);
  }

  /**
    The regroup succeeds on every fused weight and moves each head's rows, in order, from slot s
    to slot SlotTarget(s): query heads first, then key heads, then value heads.
   */
  lemma RegroupRow(t: Tensor<real>, heads: nat, g: nat, r: nat, d: nat, s: nat, e: nat)
    requires Fused(t, g, r, d) && heads == g * r && s < g * (r + 2) && e < d
    ensures Regroup(t, heads, g, d).Ok?
    ensures RowMoved(t, Regroup(t, heads, g, d).value, s * d + e, SlotTarget(s, g, r) * d + e)
  {
    hide Fused, RowMoved, Regroup, Times, RowCount, HeadRow, SlotTarget;
    TimesIs(g, r + 2);
    SlotRows(g, r, d, s, e);
    RegroupRowAt(t, heads, g, r, d, s / (r + 2), s % (r + 2), e, s * d + e, SlotTarget(s, g, r) * d + e);
  }

  lemma TimesIs(a: int, b: int)
    ensures Times(a, b) == a * b
  {
  }

  lemma RegroupRowAt(t: Tensor<real>, heads: nat, g: nat, r: nat, d: nat, group: nat, u: nat, e: nat, from: int, to: int)
    requires Fused(t, g, r, d) && heads == g * r && group < g && u < r + 2 && e < d
    requires from == HeadRow(group, r + 2, u, d, e)
    requires to == (if u < r then HeadRow(group, r, u, d, e) else HeadRow(group, 1, 0, d, e))
                   + (if u >= r then RowCount(g, r, d) else 0) + (if u > r then RowCount(g, 1, d) else 0)
    ensures Regroup(t, heads, g, d).Ok? && RowMoved(t, Regroup(t, heads, g, d).value, from, to)
  {
    hide Fused, RowMoved, Regroup, RowCount, HeadRow;
    if u < r {
      PartMoved(t, heads, g, r, d, 0, group, u, e, to);
    } else {
      PartMoved(t, heads, g, r, d, u - r + 1, group, 0, e, to);
    }
  }

  // ---------------------------------------------------------------- the regroup of a low-rank pair

  /** Keeping every position of every axis changes nothing. */
  lemma SelectEverything(t: Tensor<real>)
    requires t.Valid() && |t.shape| == 4
    ensures SelectorsFit(Middle(t.shape, AllRows(t.shape[1]).rows), t.shape)
    ensures Select(t, Middle(t.shape, AllRows(t.shape[1]).rows)) == t
  {
    hide Select, At, Embed, SelectedShape;
    var rows := AllRows(t.shape[1]).rows;
    var sels := Middle(t.shape, rows);
    MiddleShape(t.shape, rows);
    forall idx | InShape(t.shape, idx)
      ensures At(Select(t, sels), idx) == At(t, idx)
    {
      assert idx == [idx[0], idx[1], idx[2], idx[3]];
      MiddleEmbed(t.shape, rows, idx[0], idx[1], idx[2], idx[3]);
      SelectAt(t, sels, idx);
    }
    SameEntries(Select(t, sels), t);
  }

  lemma PairIndex(u: LoraTensor, item: Item, rows: seq<nat>)
    requires Unbatched(u) && |Shape(u)| == 4 && !item.Ellipsis? && !item.Int?
    requires Resolve(item, u.b.shape[1]) == Ok(Take(rows))
    ensures SelectorsFit(Middle(u.b.shape, rows), u.b.shape)
    ensures LoraStep(u, IndexBy([FULL, item])) == Ok(LoraTensor(u.a, Select(u.b, Middle(u.b.shape, rows))))
    ensures Supported(IndexBy([FULL, item]), Shape(u), Rank(u))
  {
    hide Select, ResolveAll, Resolve, CountLists, SpliceEllipsis, LeadItems, ReadsAlike;
    MiddleShape(u.b.shape, rows);
    var e := [FULL, item, FULL, FULL];
    SpliceNone([FULL, item], 1);
    SpliceNone([FULL, item], 0);
    assert [FULL, item] + Fulls(2) == e;
    assert LoraExpand([FULL, item], 4) == Ok(e) == DenseExpand([FULL, item], 4);
    MiddleResolve(u.b.shape, item, rows);
    MiddleResolve(Shape(u), item, rows);
    ExpandedAlike([FULL, item], e, Shape(u));
    assert e[..2] == [FULL, item] && Front(e) + [FULL] == e;
    LeadOfTwo(item, ALead(u));
    assert [FULL, FULL] + [FULL, Last(e)] == [FULL, FULL, FULL, FULL];
    FullSelection(u.a.shape[1]);
    MiddleResolve(u.a.shape, FULL, AllRows(u.a.shape[1]).rows);
    SelectEverything(u.a);
  }

  lemma LeadOfTwo(item: Item, lead: seq<nat>)
    requires |lead| == 2 && !item.Int?
    ensures LeadItems([FULL, item], lead) == Ok([FULL, FULL])
  {
    hide LeadItems;
    NoLead();
    LeadNext([], FULL, [], lead[0]);
    assert [] + [FULL] == [FULL] && [] + [lead[0]] == [lead[0]];
    LeadNext([FULL], item, [lead[0]], lead[1]);
    assert [FULL] + [item] == [FULL, item] && [lead[0]] + [lead[1]] == lead;
    assert [FULL] + [FULL] == [FULL, FULL];
  }

  lemma NoLead()
    ensures LeadItems([], []) == Ok([])
  {
  }

  lemma LeadNext(items: seq<Item>, item: Item, lead: seq<nat>, n: nat)
    requires |items| == |lead| && !item.Int? && LeadItems(items, lead).Ok?
    ensures LeadItems(items + [item], lead + [n]) == Ok(LeadItems(items, lead).value + [FULL])
  {
    assert Front(items + [item]) == items && Front(lead + [n]) == lead;
  }

  lemma PairPart(l: LoraTensor, heads: nat, g: nat, r: nat, d: nat, item: Item, rows: seq<nat>, n: nat)
    requires Constructed(l) && |Shape(l)| == 2 && g > 0 && heads == g * r
    requires l.b.shape[0] == Prod([g, r + 2, d]) && Width(l.a) == d * heads && n == Prod([g, |rows|, d])
    requires !item.Ellipsis? && !item.Int? && Resolve(item, r + 2) == Ok(Take(rows))
    ensures var l' := LoraTensor(l.a, Part(l.b, g, r + 2, d, rows));
            && LoraRun(l, PartOps(heads, g, d, item, n)) == Ok(l')
            && SupportedRun(l, PartOps(heads, g, d, item, n))
  {
    hide Prod, Part, LoraRun, SupportedRun, Resolve;
    HeadsPerGroup(g, r);
    PairPartOps(l, g, r + 2, d, item, rows, n);
  }

  lemma PairPartOps(l: LoraTensor, g: nat, s: nat, d: nat, item: Item, rows: seq<nat>, n: nat)
    requires Constructed(l) && |Shape(l)| == 2
    requires l.b.shape[0] == Prod([g, s, d]) && n == Prod([g, |rows|, d])
    requires !item.Ellipsis? && !item.Int? && Resolve(item, s) == Ok(Take(rows))
    ensures var w := Width(l.a);
            var ops := [ReshapeTo([g, s, d, w]), IndexBy([FULL, item]), ReshapeTo([n, w])];
            && LoraRun(l, ops) == Ok(LoraTensor(l.a, Part(l.b, g, s, d, rows)))
            && SupportedRun(l, ops)
  {
    hide Prod, LoraStep, LoraRun, Supported, SupportedRun, Select, Resolve;
    var w, k := Width(l.a), Rank(l);
    var lead, leadP := [g, s, d], [g, |rows|, d];
    var reshape, index, back := ReshapeTo([g, s, d, w]), IndexBy([FULL, item]), ReshapeTo([n, w]);
    RowsOfMatrix(l.b);
    PairReshape(l, lead);
    assert lead + [w] == [g, s, d, w] && lead + [k] == [g, s, d, k];
    var u := LoraTensor(Batched(l.a, k, 2), Tensor([g, s, d, k], l.b.data));
    PairStep(l, reshape);
    assert ALead(u) == OnesShape(2);
    RegroupedCount(l.b.shape, lead);
    assert lead + Tail(l.b.shape) == [g, s, d, k];
    PairIndex(u, item, rows);
    MiddleShape(u.b.shape, rows);
    var v := LoraTensor(u.a, Select(u.b, Middle(u.b.shape, rows)));
    assert v.b.shape == leadP + [k];
    var w' := PairUngroup(l, v, leadP, n);
    RunThreePairs(l, reshape, index, back, u, v, w');
  }

  lemma RunThreePairs(l: LoraTensor, first: Op, second: Op, third: Op, u: LoraTensor, v: LoraTensor, w: LoraTensor)
    requires Constructed(l) && Constructed(u) && Constructed(v) && Constructed(w)
    requires LoraStep(l, first) == Ok(u) && LoraStep(u, second) == Ok(v) && LoraStep(v, third) == Ok(w)
    requires Supported(first, Shape(l), Rank(l)) && Supported(second, Shape(u), Rank(u)) && Supported(third, Shape(v), Rank(v))
    ensures LoraRun(l, [first, second, third]) == Ok(w) && SupportedRun(l, [first, second, third])
  {
    hide LoraStep, LoraRun, Supported, SupportedRun, Constructed, Shape;
    EmptyRun(w);
    assert [third] + [] == [third] && [second] + [third] == [second, third];
    assert [first] + [second, third] == [first, second, third];
    RunPairStep(v, third, [], w, w);
    RunPairStep(u, second, [third], v, w);
    RunPairStep(l, first, [second, third], u, w);
  }

  /** A pair whose product is a fused weight. */
  ghost predicate FusedPair(l: LoraTensor, g: nat, r: nat, d: nat) {
    && Constructed(l) && |Shape(l)| == 2 && g > 0
    && l.b.shape[0] == g * (r + 2) * d && Width(l.a) == d * (g * r)
  }

  /** The pair's version of SlotPart: B's rows selected, A untouched. */
  ghost function PairSlotPart(l: LoraTensor, g: nat, r: nat, d: nat, rows: seq<nat>): (p: LoraTensor)
    requires FusedPair(l, g, r, d) && Fits(Take(rows), r + 2)
    ensures Constructed(p) && p.a == l.a && |Shape(p)| == 2 && Rank(p) == Rank(l)
    ensures p.b.shape[0] == RowCount(g, |rows|, d)
  {
    FlatThree(g, r + 2, d, 0, 0, 0);
    FlatThree(g, |rows|, d, 0, 0, 0);
    LoraTensor(l.a, Part(l.b, g, r + 2, d, rows))
  }

  /** One part of the pair is computed without error and multiplies out to that part of the product. */
  lemma PairPartStep(l: LoraTensor, heads: nat, g: nat, r: nat, d: nat, item: Item, rows: seq<nat>, n: nat)
    requires FusedPair(l, g, r, d) && heads == g * r && n == RowCount(g, |rows|, d)
    requires !item.Ellipsis? && !item.Int? && Resolve(item, r + 2) == Ok(Take(rows))
    ensures var p := PairSlotPart(l, g, r, d, rows);
            && LoraRun(l, PartOps(heads, g, d, item, n)) == Ok(p)
            && WellFormed(l) && WellFormed(p)
            && DenseRun(Product(l), PartOps(heads, g, d, item, n)) == Ok(Product(p))
  {
    hide Prod, LoraRun, SupportedRun, DenseRun, Part, PartOps, Resolve, Product;
    FlatThree(g, r + 2, d, 0, 0, 0);
    FlatThree(g, |rows|, d, 0, 0, 0);
    PairPart(l, heads, g, r, d, item, rows, n);
    Homomorphism(l, PartOps(heads, g, d, item, n));
  }

  lemma CatOfPairs(l: LoraTensor, q: LoraTensor, k: LoraTensor, v: LoraTensor)
    requires Constructed(l) && |Shape(l)| == 2
    requires Constructed(q) && Constructed(k) && Constructed(v)
    requires q.a == k.a == v.a == l.a && |Shape(q)| == |Shape(k)| == |Shape(v)| == 2
    requires q.b.shape[0] + k.b.shape[0] + v.b.shape[0] == l.b.shape[0]
    ensures WellFormed(q) && WellFormed(k) && WellFormed(v)
    ensures LoraCat([q, k, v]).Ok?
    ensures var all := LoraCat([q, k, v]).value;
            && all.a == l.a && all.b.shape == l.b.shape && WellFormed(all)
            && LoraReshape(all, Shape(l)) == Ok(all)
            && Cat([Product(q), Product(k), Product(v)]) == Ok(Product(all))
  {
    hide Prod, Product, Cat, LoraReshape, LoraCat;
    var ls := [q, k, v];
    CatSucceeds(l, q, k, v);
    CatMatrices(ls);
    assert Products(ls) == [Product(q), Product(k), Product(v)];
    ReshapeToItself(l, LoraCat(ls).value);
  }

  lemma CatSucceeds(l: LoraTensor, q: LoraTensor, k: LoraTensor, v: LoraTensor)
    requires Constructed(l) && |Shape(l)| == 2
    requires Constructed(q) && Constructed(k) && Constructed(v)
    requires q.a == k.a == v.a == l.a && |Shape(q)| == |Shape(k)| == |Shape(v)| == 2
    requires q.b.shape[0] + k.b.shape[0] + v.b.shape[0] == l.b.shape[0]
    ensures AllConstructed([q, k, v]) && LoraCat([q, k, v]).Ok? && LoraCat([q, k, v]).value.b.shape == l.b.shape
  {
    hide Prod, Cat;
    var ls := [q, k, v];
    UnbatchedRows(l);
    CatThree(q.b, k.b, v.b, Rank(l));
    assert Bs(ls) == [q.b, k.b, v.b];
  }

  /** Reshaping a matrix pair to its own shape changes nothing. */
  lemma ReshapeToItself(l: LoraTensor, all: LoraTensor)
    requires Constructed(l) && Constructed(all) && |Shape(l)| == 2 && all.a == l.a && all.b.shape == l.b.shape
    ensures LoraReshape(all, Shape(l)) == Ok(all)
  {
    hide Prod, LoraReshape;
    UnbatchedRows(all);
    RowsOfMatrix(l.a);
    var m := l.b.shape[0];
    RowsOfMatrix(all.b);
    FlatOne(m, 0);
    PairReshape(all, [m]);
    assert [m] + [Width(l.a)] == Shape(l);
    assert [m] + [Rank(all)] == all.b.shape;
    assert Batched(all.a, Rank(all), 0) == all.a;
  }

  /**
    The regroup of a pair succeeds, leaves A as it is, and its product is the regroup of the
    product: all query rows, then all key rows, then all value rows.
   */
  lemma RegroupPairStep(l: LoraTensor, heads: nat, g: nat, r: nat, d: nat)
    requires FusedPair(l, g, r, d) && heads == g * r
    ensures WellFormed(l) && Fused(Product(l), g, r, d)
    ensures RegroupPair(l, heads, g, d).Ok?
    ensures var l' := RegroupPair(l, heads, g, d).value;
            && l'.a == l.a && WellFormed(l')
            && Regroup(Product(l), heads, g, d) == Ok(Product(l'))
  {
    hide Prod, Product, PartOps, LoraRun, DenseRun, PairSlotPart, Cat, LoraCat, LoraReshape, Resolve;
    SlotItems(r);
    PairPartStep(l, heads, g, r, d, QUERIES, QueryRows(r), heads * d);
    PairPartStep(l, heads, g, r, d, KEY, [r], g * d);
    PairPartStep(l, heads, g, r, d, VALUE, [r + 1], g * d);
    PartTotal(g, r, d);
    var q, k, v := PairSlotPart(l, g, r, d, QueryRows(r)), PairSlotPart(l, g, r, d, [r]), PairSlotPart(l, g, r, d, [r + 1]);
    CatOfPairs(l, q, k, v);
    RegroupParts(Product(l), heads, g, d, Product(q), Product(k), Product(v));
  }
}
