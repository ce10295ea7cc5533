/**
  The tensor operations told by their entries: which entry of the input stands at each index of the
  result, with positions written out.
 */
module TensorEntries {
  import opened Wrappers
  import opened Tensors
  import opened Lora
  import opened LoraBatches

  // ---------------------------------------------------------------- positions on one axis

  /** Position i counted from the end if it is negative. */
  function FromEnd(i: int, n: nat): int {
    if i < 0 then i + n else i
  }

  /** A slice bound cut to the axis. */
  function Cut(x: int, n: nat): int {
    if FromEnd(x, n) < 0 then 0 else if FromEnd(x, n) > n then n else FromEnd(x, n)
  }

  function Lower(lo: Option<int>, n: nat): int {
    if lo.Some? then Cut(lo.value, n) else 0
  }

  function Upper(hi: Option<int>, n: nat): int {
    if hi.Some? then Cut(hi.value, n) else n
  }

  /** The position that an item other than an integer reads for position j of the result. */
  function ReadPosition(item: Item, n: nat, j: nat): int
    requires item.List? ==> j < |item.rows|
  {
    match item
    case Int(i) => FromEnd(i, n)
    case Span(lo, _, step) => Lower(lo, n) + j * step
    case List(rows) => FromEnd(rows[j], n)
    case Ellipsis => 0
  }

  /** The items that an axis of extent n accepts. */
  predicate Accepts(item: Item, n: nat) {
    match item
    case Int(i) => -(n as int) <= i < n
    case Span(_, _, step) => step >= 1
    case List(rows) => forall j :: 0 <= j < |rows| ==> -(n as int) <= rows[j] < n
    case Ellipsis => false
  }

  /** An item of that many positions. */
  ghost predicate HasExtent(item: Item, n: nat, extent: nat) {
    match item
    case Span(lo, hi, step) => forall j: nat :: j < extent <==> Lower(lo, n) + j * step < Upper(hi, n)
    case List(rows) => extent == |rows|
    case _ => true
  }

  lemma {:induction false} SpanRead(lo: nat, hi: nat, step: nat, j: nat)
    requires step > 0
    ensures j < |SpanRows(lo, hi, step)| <==> lo + j * step < hi
    ensures j < |SpanRows(lo, hi, step)| ==> SpanRows(lo, hi, step)[j] == lo + j * step
    decreases j
  {
    if j > 0 {
      OneStepLess(j, step);
      SpanRead(lo + step, hi, step, j - 1);
    }
  }

  lemma OneStepLess(j: nat, step: nat)
    requires j > 0
    ensures j * step == step + (j - 1) * step
  {
    Distribute(1, j - 1, step);
  }

  /** How one item is resolved. */
  lemma ItemRead(item: Item, n: nat)
    ensures Resolve(item, n).Ok? <==> Accepts(item, n)
    ensures Resolve(item, n).Ok? ==>
              match Resolve(item, n).value
              case Pick(i) => item.Int? && i == FromEnd(item.i, n)
              case Take(rows) =>
                && !item.Int? && HasExtent(item, n, |rows|)
                && forall j: nat :: j < |rows| ==> (item.List? ==> j < |item.rows|) && rows[j] == ReadPosition(item, n, j)
  {
    if item.Span? && item.step > 0 {
      var (l, h) := (Lower(item.lo, n), Upper(item.hi, n));
      forall j: nat
        ensures j < |SpanRows(l, h, item.step)| <==> l + j * item.step < h
        ensures j < |SpanRows(l, h, item.step)| ==> SpanRows(l, h, item.step)[j] == l + j * item.step
      {
        SpanRead(l, h, item.step, j);
      }
    }
  }

  // ---------------------------------------------------------------- index tuples with at most one list

  /** The axis of the result that axis a of the input becomes: integers drop theirs. */
  function OutAxis(items: seq<Item>, a: nat): (r: nat)
    requires a <= |items|
    ensures r <= a
  {
    if a == 0 then 0 else OutAxis(items, a - 1) + (if items[a - 1].Int? then 0 else 1)
  }

  lemma {:induction false} OutAxisFront(items: seq<Item>, a: nat)
    requires items != [] && a < |items|
    ensures OutAxis(Front(items), a) == OutAxis(items, a)
  {
    if a > 0 {
      OutAxisFront(items, a - 1);
    }
  }

  lemma {:induction false} SelectedExtents(items: seq<Item>, sels: seq<Selector>, a: nat)
    requires KindsFit(items, sels) && a < |items|
    ensures |SelectedShape(sels)| == OutAxis(items, |items|)
    ensures sels[a].Take? ==> OutAxis(items, a) < |SelectedShape(sels)| && SelectedShape(sels)[OutAxis(items, a)] == |sels[a].rows|
    decreases |items|
  {
    var n := |items| - 1;
    assert items[n].Int? <==> sels[n].Pick?;
    OutAxisFront(items, n);
    if n > 0 {
      SelectedExtents(Front(items), Front(sels), if a < n then a else 0);
    } else {
      assert SelectedShape(Front(sels)) == [];
    }
    if a < n {
      OutAxisFront(items, a);
    }
  }

  /** Axis a of the input is read at the picked position, or at the row taken for its axis of the result. */
  ghost predicate EntryOf(items: seq<Item>, sels: seq<Selector>, idx: seq<nat>, a: nat)
    requires InShape(SelectedShape(sels), idx) && a < |items| == |sels|
  {
    if sels[a].Pick? then Embed(sels, idx)[a] == sels[a].i
    else
      var o := OutAxis(items, a);
      o < |idx| && idx[o] < |sels[a].rows| && Embed(sels, idx)[a] == sels[a].rows[idx[o]]
  }

  lemma {:induction false} EmbedEntry(items: seq<Item>, sels: seq<Selector>, idx: seq<nat>, a: nat)
    requires KindsFit(items, sels) && InShape(SelectedShape(sels), idx) && a < |items|
    ensures EntryOf(items, sels, idx, a)
    decreases |items|
  {
    if a < |items| - 1 {
      var front := if Last(sels).Pick? then idx else Front(idx);
      FrontOfIndex(items, sels, idx, front);
      hide KindsFit, SelectedShape, OutAxis, EntryOf;
      EmbedEntry(Front(items), Front(sels), front, a);
      EntryOfFront(items, sels, idx, front, a);
    } else {
      EntryOfLast(items, sels, idx);
    }
  }

  lemma FrontOfIndex(items: seq<Item>, sels: seq<Selector>, idx: seq<nat>, front: seq<nat>)
    requires items != [] && KindsFit(items, sels) && InShape(SelectedShape(sels), idx)
    requires front == if Last(sels).Pick? then idx else Front(idx)
    ensures KindsFit(Front(items), Front(sels)) && InShape(SelectedShape(Front(sels)), front)
  {
  }

  lemma EntryOfFront(items: seq<Item>, sels: seq<Selector>, idx: seq<nat>, front: seq<nat>, a: nat)
    requires |items| == |sels| && a < |items| - 1 && InShape(SelectedShape(sels), idx)
    requires front == if Last(sels).Pick? then idx else Front(idx)
    requires InShape(SelectedShape(Front(sels)), front) && EntryOf(Front(items), Front(sels), front, a)
    ensures EntryOf(items, sels, idx, a)
  {
    hide OutAxis;
    OutAxisFront(items, a);
  }

  lemma EntryOfLast(items: seq<Item>, sels: seq<Selector>, idx: seq<nat>)
    requires items != [] && KindsFit(items, sels) && InShape(SelectedShape(sels), idx)
    ensures EntryOf(items, sels, idx, |items| - 1)
  {
    SelectedExtents(items, sels, |items| - 1);
    assert |Embed(sels, idx)| == |items|;
    if Last(sels).Take? {
      var n := |items| - 1;
      assert sels[n] == Last(sels) && items[n].Int? <==> sels[n].Pick?;
      assert OutAxis(items, |items|) == OutAxis(items, n) + 1;
    }
  }

  /**
    Indexing by a tuple with at most one list, entry by entry: it succeeds iff every axis accepts
    its item, an integer drops its axis, and every other axis reads the positions of its item.
   */
  lemma IndexEntry<T>(t: Tensor<T>, items: seq<Item>)
    requires t.Valid() && |items| == |t.shape| && CountLists(items) <= 1
    ensures Index(t, items).Ok? <==> forall a :: 0 <= a < |items| ==> Accepts(items[a], t.shape[a])
    ensures Index(t, items).Ok? ==>
              var out := Index(t, items).value;
              && |out.shape| == OutAxis(items, |items|)
              && (forall a :: 0 <= a < |items| && !items[a].Int? ==>
                    OutAxis(items, a) < |out.shape| && HasExtent(items[a], t.shape[a], out.shape[OutAxis(items, a)]))
              && forall idx :: InShape(out.shape, idx) ==> EntryFrom(t, items, out, idx)
  {
    hide Resolve, Select, SelectedShape, Accepts, HasExtent, ReadPosition, KindsFit, CountLists, EntryFrom;
    forall a | 0 <= a < |items|
      ensures Resolve(items[a], t.shape[a]).Ok? <==> Accepts(items[a], t.shape[a])
    {
      ItemRead(items[a], t.shape[a]);
    }
    if Index(t, items).Ok? {
      var sels := ResolveAll(items, t.shape).value;
      ResolvedKinds(items, t.shape);
      var out := Index(t, items).value;
      assert out == Select(t, sels);
      if items == [] {
        assert out.shape == [] by { NothingSelected(t, sels); }
      } else {
        SelectedExtents(items, sels, 0);
      }
      forall a | 0 <= a < |items| && !items[a].Int?
        ensures OutAxis(items, a) < |out.shape| && HasExtent(items[a], t.shape[a], out.shape[OutAxis(items, a)])
      {
        SelectedExtents(items, sels, a);
        ItemRead(items[a], t.shape[a]);
      }
      forall idx | InShape(out.shape, idx)
        ensures EntryFrom(t, items, out, idx)
      {
        SelectedFrom(t, items, sels, idx);
      }
    }
  }

  lemma NothingSelected<T>(t: Tensor<T>, sels: seq<Selector>)
    requires t.Valid() && SelectorsFit(sels, t.shape) && sels == []
    ensures Select(t, sels).shape == []
  {
  }

  /** The entry of the result at idx is the entry of t at the positions that the items read there. */
  ghost predicate EntryFrom<T>(t: Tensor<T>, items: seq<Item>, out: Tensor<T>, idx: seq<nat>)
    requires t.Valid() && out.Valid() && |items| == |t.shape| && InShape(out.shape, idx)
  {
    exists from: seq<nat> ::
      && InShape(t.shape, from) && At(out, idx) == At(t, from)
      && forall a :: 0 <= a < |items| ==> ReadsAt(items[a], t.shape[a], from[a], idx, OutAxis(items, a))
  }

  /** Position `from` is the one that an item reads for the coordinate of its axis in idx. */
  predicate ReadsAt(item: Item, n: nat, from: nat, idx: seq<nat>, o: nat) {
    if item.Int? then from == FromEnd(item.i, n)
    else o < |idx| && (item.List? ==> idx[o] < |item.rows|) && from == ReadPosition(item, n, idx[o])
  }

  lemma SelectedFrom<T>(t: Tensor<T>, items: seq<Item>, sels: seq<Selector>, idx: seq<nat>)
    requires t.Valid() && |items| == |t.shape| && ResolveAll(items, t.shape) == Ok(sels) && KindsFit(items, sels)
    requires InShape(SelectedShape(sels), idx)
    ensures EntryFrom(t, items, Select(t, sels), idx)
  {
    hide Resolve, Select, SelectedShape, ReadPosition, Embed, Accepts, HasExtent;
    SelectAt(t, sels, idx);
    var from := Embed(sels, idx);
    forall a | 0 <= a < |items|
      ensures ReadsAt(items[a], t.shape[a], from[a], idx, OutAxis(items, a))
    {
      EmbedEntry(items, sels, idx, a);
      assert Resolve(items[a], t.shape[a]) == Ok(sels[a]);
      ItemRead(items[a], t.shape[a]);
    }
  }

  // ---------------------------------------------------------------- one axis indexed, the others whole

  lemma FullReads(n: nat, extent: nat, j: nat)
    ensures Accepts(FULL, n) && ReadPosition(FULL, n, j) == j
    ensures HasExtent(FULL, n, extent) <==> extent == n
  {
    if extent < n {
      assert Lower(None, n) + extent * 1 < Upper(None, n);
    } else if extent > n {
      assert !(Lower(None, n) + n * 1 < Upper(None, n));
    } else {
      assert forall j: nat :: j < extent <==> Lower(None, n) + j * 1 < Upper(None, n);
    }
  }

  /** `item` on axis k of n, `:` on the others. */
  function OnAxis(k: nat, n: nat, item: Item): (items: seq<Item>)
    requires k < n
    ensures |items| == n && items[k] == item && forall a :: 0 <= a < n && a != k ==> items[a] == FULL
  {
    seq(n, a => if a == k then item else FULL)
  }

  lemma {:induction false} OutAxisOf(k: nat, n: nat, item: Item, a: nat)
    requires k < n && a <= n
    ensures OutAxis(OnAxis(k, n, item), a) == if a > k && item.Int? then a - 1 else a
  {
    if a > 0 {
      OutAxisOf(k, n, item, a - 1);
    }
  }

  /** An axis other than k is read where the result is. */
  lemma KeptCoordinate(k: nat, rank: nat, item: Item, a: nat, n: nat, from: nat, idx: seq<nat>)
    requires k < rank && a < rank && a != k
    requires var items := OnAxis(k, rank, item); ReadsAt(items[a], n, from, idx, OutAxis(items, a))
    ensures var o := if a > k && item.Int? then a - 1 else a;
            o < |idx| && from == idx[o]
  {
    hide ReadPosition, OutAxis, Accepts, HasExtent;
    OutAxisOf(k, rank, item, a);
    FullReads(n, 0, idx[OutAxis(OnAxis(k, rank, item), a)]);
  }

  /** Axis k is read where the item says. */
  lemma ItemCoordinate(k: nat, rank: nat, item: Item, n: nat, from: nat, idx: seq<nat>)
    requires k < rank
    requires var items := OnAxis(k, rank, item); ReadsAt(items[k], n, from, idx, OutAxis(items, k))
    ensures ReadsAt(item, n, from, idx, k)
  {
    hide ReadsAt, OutAxis;
    OutAxisOf(k, rank, item, k);
  }

  lemma {:induction false} ListsOf(items: seq<Item>, k: nat)
    requires forall a :: 0 <= a < |items| && a != k ==> !items[a].List?
    ensures CountLists(items) <= 1 && (k >= |items| ==> CountLists(items) == 0)
  {
    if items != [] {
      ListsOf(Front(items), k);
    }
  }

  /** `out` is t at position p of axis k. */
  ghost predicate IsAt<T>(t: Tensor<T>, k: nat, p: int, out: Tensor<T>)
    requires t.Valid() && out.Valid() && k < |t.shape|
  {
    && 0 <= p < t.shape[k] && out.shape == t.shape[..k] + t.shape[k + 1..]
    && forall idx :: InShape(out.shape, idx) ==> PickedAt(t, k, p, out, idx)
  }

  /** Entry idx of `out` is the entry of t with p put in at axis k. */
  ghost predicate PickedAt<T>(t: Tensor<T>, k: nat, p: int, out: Tensor<T>, idx: seq<nat>)
    requires t.Valid() && out.Valid() && k < |t.shape| == |out.shape| + 1 && InShape(out.shape, idx)
  {
    0 <= p && InShape(t.shape, idx[..k] + [p] + idx[k..]) && At(out, idx) == At(t, idx[..k] + [p] + idx[k..])
  }

  /** An integer on axis k drops that axis and reads its position there, counted from the end if negative. */
  lemma IntegerEntry<T>(t: Tensor<T>, k: nat, i: int)
    requires t.Valid() && k < |t.shape|
    ensures var (n, items) := (t.shape[k], OnAxis(k, |t.shape|, Int(i)));
            && (Index(t, items).Ok? <==> -(n as int) <= i < n)
            && (Index(t, items).Ok? ==> IsAt(t, k, if i < 0 then i + n else i, Index(t, items).value))
  {
    hide Index, At, OutAxis, EntryFrom, Accepts, HasExtent, IsAt, OnAxis;
    var items := OnAxis(k, |t.shape|, Int(i));
    ListsOf(items, k);
    IndexEntry(t, items);
    AcceptedOnAxis(t.shape, k, Int(i));
    IntegerAccepted(i, t.shape[k]);
    if Index(t, items).Ok? {
      IntegerOut(t, k, i, Index(t, items).value);
    }
  }

  lemma IntegerOut<T>(t: Tensor<T>, k: nat, i: int, out: Tensor<T>)
    requires t.Valid() && out.Valid() && k < |t.shape| && -(t.shape[k] as int) <= i < t.shape[k]
    requires var (rank, items) := (|t.shape|, OnAxis(k, |t.shape|, Int(i)));
             && |out.shape| == OutAxis(items, rank)
             && (forall a :: 0 <= a < rank && !items[a].Int? ==>
                   OutAxis(items, a) < |out.shape| && HasExtent(items[a], t.shape[a], out.shape[OutAxis(items, a)]))
             && forall idx :: InShape(out.shape, idx) ==> EntryFrom(t, items, out, idx)
    ensures IsAt(t, k, if i < 0 then i + t.shape[k] else i, out)
  {
    hide At, OutAxis, EntryFrom, HasExtent, OnAxis;
    var (rank, items) := (|t.shape|, OnAxis(k, |t.shape|, Int(i)));
    OutAxisOf(k, rank, Int(i), rank);
    forall a | 0 <= a < rank && a != k
      ensures out.shape[if a < k then a else a - 1] == t.shape[a]
    {
      assert items[a] == FULL;
      OutAxisOf(k, rank, Int(i), a);
      FullReads(t.shape[a], out.shape[OutAxis(items, a)], 0);
    }
    Dropped(out.shape, t.shape, k);
    hide PickedAt;
    var p := if i < 0 then i + t.shape[k] else i;
    forall idx | InShape(out.shape, idx)
      ensures PickedAt(t, k, p, out, idx)
    {
      IntegerFrom(t, k, i, out, idx);
    }
  }

  lemma IntegerAccepted(i: int, n: nat)
    ensures Accepts(Int(i), n) <==> -(n as int) <= i < n
  {
  }

  lemma AcceptedOnAxis(shape: seq<nat>, k: nat, item: Item)
    requires k < |shape|
    ensures var items := OnAxis(k, |shape|, item);
            (forall a :: 0 <= a < |items| ==> Accepts(items[a], shape[a])) <==> Accepts(item, shape[k])
  {
    hide Accepts;
    var items := OnAxis(k, |shape|, item);
    forall a | 0 <= a < |items| && a != k
      ensures Accepts(items[a], shape[a])
    {
      FullReads(shape[a], 0, 0);
    }
    assert items[k] == item;
  }

  lemma Dropped(s: seq<nat>, t: seq<nat>, k: nat)
    requires k < |t| && |s| == |t| - 1
    requires forall a :: 0 <= a < |t| && a != k ==> s[if a < k then a else a - 1] == t[a]
    ensures s == t[..k] + t[k + 1..]
  {
    forall a | 0 <= a < |s|
      ensures s[a] == (t[..k] + t[k + 1..])[a]
    {
      if a >= k {
        assert s[if a + 1 < k then a + 1 else a + 1 - 1] == t[a + 1];
      } else {
        assert s[if a < k then a else a - 1] == t[a];
      }
    }
  }

  lemma IntegerFrom<T>(t: Tensor<T>, k: nat, i: int, out: Tensor<T>, idx: seq<nat>)
    requires t.Valid() && out.Valid() && k < |t.shape| && |out.shape| == |t.shape| - 1 && InShape(out.shape, idx)
    requires EntryFrom(t, OnAxis(k, |t.shape|, Int(i)), out, idx)
    ensures PickedAt(t, k, if i < 0 then i + t.shape[k] else i, out, idx)
  {
    hide At, OutAxis, ReadsAt, OnAxis;
    var (rank, items) := (|t.shape|, OnAxis(k, |t.shape|, Int(i)));
    var from: seq<nat> :| InShape(t.shape, from) && At(out, idx) == At(t, from)
                          && forall a :: 0 <= a < rank ==> ReadsAt(items[a], t.shape[a], from[a], idx, OutAxis(items, a));
    ItemCoordinate(k, rank, Int(i), t.shape[k], from[k], idx);
    IntegerReads(i, t.shape[k], from[k], idx, k);
    var to := idx[..k] + [from[k]] + idx[k..];
    forall a | 0 <= a < rank
      ensures from[a] == to[a]
    {
      assert ReadsAt(items[a], t.shape[a], from[a], idx, OutAxis(items, a));
      if a != k {
        KeptCoordinate(k, rank, Int(i), a, t.shape[a], from[a], idx);
      }
    }
    assert from == to;
  }

  lemma IntegerReads(i: int, n: nat, from: nat, idx: seq<nat>, o: nat)
    ensures ReadsAt(Int(i), n, from, idx, o) <==> from == if i < 0 then i + n else i
  {
  }

  /** `out` is t with axis k thinned to positions lo, lo + step and so on below hi. */
  ghost predicate IsSlice<T>(t: Tensor<T>, k: nat, lo: int, hi: int, step: int, out: Tensor<T>)
    requires t.Valid() && out.Valid() && k < |t.shape|
  {
    && |out.shape| == |t.shape|
    && (forall j: nat :: j < out.shape[k] <==> lo + j * step < hi)
    && (forall a :: 0 <= a < |t.shape| && a != k ==> out.shape[a] == t.shape[a])
    && forall idx :: InShape(out.shape, idx) ==> SliceAt(t, k, lo, step, out, idx)
  }

  ghost predicate SliceAt<T>(t: Tensor<T>, k: nat, lo: int, step: int, out: Tensor<T>, idx: seq<nat>)
    requires t.Valid() && out.Valid() && k < |t.shape| == |out.shape| && InShape(out.shape, idx)
  {
    var p := lo + idx[k] * step;
    0 <= p < t.shape[k] && InShape(t.shape, idx[k := p]) && At(out, idx) == At(t, idx[k := p])
  }

  /** A slice on axis k reads position lo + j * step there, as long as that is below hi; bounds are cut to the axis. */
  lemma SliceEntry<T>(t: Tensor<T>, k: nat, lo: Option<int>, hi: Option<int>, step: int)
    requires t.Valid() && k < |t.shape|
    ensures var (n, items) := (t.shape[k], OnAxis(k, |t.shape|, Span(lo, hi, step)));
            && (Index(t, items).Ok? <==> step >= 1)
            && (Index(t, items).Ok? ==> IsSlice(t, k, Lower(lo, n), Upper(hi, n), step, Index(t, items).value))
  {
    hide Index, At, OutAxis, EntryFrom, Lower, Upper, Accepts, HasExtent, IsSlice, OnAxis;
    var items := OnAxis(k, |t.shape|, Span(lo, hi, step));
    ListsOf(items, k);
    IndexEntry(t, items);
    AcceptedOnAxis(t.shape, k, Span(lo, hi, step));
    SliceAccepted(lo, hi, step, t.shape[k]);
    if Index(t, items).Ok? {
      SliceOut(t, k, lo, hi, step, Index(t, items).value);
    }
  }

  lemma SliceOut<T>(t: Tensor<T>, k: nat, lo: Option<int>, hi: Option<int>, step: int, out: Tensor<T>)
    requires t.Valid() && out.Valid() && k < |t.shape|
    requires var (rank, items) := (|t.shape|, OnAxis(k, |t.shape|, Span(lo, hi, step)));
             && |out.shape| == OutAxis(items, rank)
             && (forall a :: 0 <= a < rank && !items[a].Int? ==>
                   OutAxis(items, a) < |out.shape| && HasExtent(items[a], t.shape[a], out.shape[OutAxis(items, a)]))
             && forall idx :: InShape(out.shape, idx) ==> EntryFrom(t, items, out, idx)
    ensures IsSlice(t, k, Lower(lo, t.shape[k]), Upper(hi, t.shape[k]), step, out)
  {
    hide At, OutAxis, EntryFrom, Lower, Upper, HasExtent, OnAxis, SliceAt;
    var (rank, n, item) := (|t.shape|, t.shape[k], Span(lo, hi, step));
    var items := OnAxis(k, rank, item);
    OutAxisOf(k, rank, item, rank);
    forall a | 0 <= a < rank
      ensures a != k ==> out.shape[a] == t.shape[a]
      ensures a == k ==> HasExtent(item, n, out.shape[k])
    {
      OutAxisOf(k, rank, item, a);
      FullReads(t.shape[a], out.shape[OutAxis(items, a)], 0);
    }
    SliceExtent(lo, hi, step, n, out.shape[k]);
    forall idx | InShape(out.shape, idx)
      ensures SliceAt(t, k, Lower(lo, n), step, out, idx)
    {
      SliceFrom(t, k, lo, hi, step, out, idx);
    }
  }

  lemma SliceAccepted(lo: Option<int>, hi: Option<int>, step: int, n: nat)
    ensures Accepts(Span(lo, hi, step), n) <==> step >= 1
  {
  }

  lemma SliceExtent(lo: Option<int>, hi: Option<int>, step: int, n: nat, extent: nat)
    requires HasExtent(Span(lo, hi, step), n, extent)
    ensures forall j: nat :: j < extent <==> Lower(lo, n) + j * step < Upper(hi, n)
  {
    hide Lower, Upper;
  }

  lemma SliceFrom<T>(t: Tensor<T>, k: nat, lo: Option<int>, hi: Option<int>, step: int, out: Tensor<T>, idx: seq<nat>)
    requires t.Valid() && out.Valid() && k < |t.shape| == |out.shape| && InShape(out.shape, idx)
    requires EntryFrom(t, OnAxis(k, |t.shape|, Span(lo, hi, step)), out, idx)
    ensures SliceAt(t, k, Lower(lo, t.shape[k]), step, out, idx)
  {
    hide At, OutAxis, Lower, Upper, ReadsAt, OnAxis;
    var (rank, item) := (|t.shape|, Span(lo, hi, step));
    var items := OnAxis(k, rank, item);
    var from: seq<nat> :| InShape(t.shape, from) && At(out, idx) == At(t, from)
                          && forall a :: 0 <= a < rank ==> ReadsAt(items[a], t.shape[a], from[a], idx, OutAxis(items, a));
    ItemCoordinate(k, rank, item, t.shape[k], from[k], idx);
    SliceReads(lo, hi, step, t.shape[k], from[k], idx, k);
    forall a | 0 <= a < rank && a != k
      ensures from[a] == idx[a]
    {
      assert ReadsAt(items[a], t.shape[a], from[a], idx, OutAxis(items, a));
      KeptCoordinate(k, rank, item, a, t.shape[a], from[a], idx);
    }
    assert from == idx[k := from[k]];
  }

  lemma SliceReads(lo: Option<int>, hi: Option<int>, step: int, n: nat, from: nat, idx: seq<nat>, o: nat)
    ensures ReadsAt(Span(lo, hi, step), n, from, idx, o) <==> o < |idx| && from == Lower(lo, n) + idx[o] * step
  {
    hide Lower;
  }

  /** The same of the first axis alone, where one item is not in a tuple. */
  lemma IndexFirstEntry<T>(t: Tensor<T>, item: Item)
    requires t.Valid() && t.shape != []
    ensures var n := t.shape[0];
            && (IndexFirst(t, item).Ok? <==> Accepts(item, n))
            && (IndexFirst(t, item).Ok? ==>
                  var out := IndexFirst(t, item).value;
                  if item.Int? then
                    var p := if item.i < 0 then item.i + n else item.i;
                    && 0 <= p && out.shape == Tail(t.shape)
                    && forall idx :: InShape(out.shape, idx) ==> InShape(t.shape, [p] + idx) && At(out, idx) == At(t, [p] + idx)
                  else
                    && out.shape != [] && HasExtent(item, n, out.shape[0]) && Tail(out.shape) == Tail(t.shape)
                    && forall j: nat, idx :: InShape(out.shape, [j] + idx) ==> FirstFrom(t, item, out, j, idx))
  {
    hide Resolve, Sub, TakeRows, At, Accepts, HasExtent, FirstFrom;
    var n := t.shape[0];
    ItemRead(item, n);
    if Resolve(item, n).Ok? {
      match Resolve(item, n).value
      case Pick(i) =>
        forall idx | InShape(Tail(t.shape), idx)
          ensures InShape(t.shape, [i] + idx) && At(Sub(t, i), idx) == At(t, [i] + idx)
        {
          SubAt(t, i, idx);
        }
      case Take(rows) =>
        var out := TakeRows(t, rows);
        forall j: nat, idx | InShape(out.shape, [j] + idx)
          ensures FirstFrom(t, item, out, j, idx)
        {
          TakenFirst(t, item, rows, j, idx);
        }
    }
  }

  ghost predicate FirstFrom<T>(t: Tensor<T>, item: Item, out: Tensor<T>, j: nat, idx: seq<nat>)
    requires t.Valid() && out.Valid() && t.shape != [] && InShape(out.shape, [j] + idx)
  {
    && (item.List? ==> j < |item.rows|)
    && var p := ReadPosition(item, t.shape[0], j);
       0 <= p && InShape(t.shape, [p] + idx) && At(out, [j] + idx) == At(t, [p] + idx)
  }

  lemma TakenFirst<T>(t: Tensor<T>, item: Item, rows: seq<nat>, j: nat, idx: seq<nat>)
    requires t.Valid() && t.shape != [] && Resolve(item, t.shape[0]) == Ok(Take(rows))
    requires InShape(TakeRows(t, rows).shape, [j] + idx)
    ensures FirstFrom(t, item, TakeRows(t, rows), j, idx)
  {
    hide Resolve, Sub, At, ReadPosition, HasExtent, Accepts;
    ItemRead(item, t.shape[0]);
    var out := TakeRows(t, rows);
    BehindFirst(|rows|, Tail(t.shape), j, idx);
    TakeRowsSub(t, rows, j);
    SubAt(out, j, idx);
    SubAt(t, rows[j], idx);
  }

  lemma BehindFirst(n: nat, shape: seq<nat>, j: nat, idx: seq<nat>)
    requires InShape([n] + shape, [j] + idx)
    ensures j < n && InShape(shape, idx)
  {
    var (all, at) := ([n] + shape, [j] + idx);
    assert at[0] == j && all[0] == n;
    forall a | 0 <= a < |idx|
      ensures idx[a] < shape[a]
    {
      assert at[a + 1] == idx[a] && all[a + 1] == shape[a];
    }
  }

  // ---------------------------------------------------------------- index tuples with several lists

  lemma {:induction false} SpansOfFront(items: seq<Item>, a: nat)
    requires items != [] && a < |items|
    ensures Front(items)[..a] == items[..a] && CountSpans(items[..a]) <= CountSpans(items)
  {
    assert Front(items)[..a] == items[..a];
    if a < |items| - 1 {
      SpansOfFront(Front(items), a);
    } else {
      assert items[..a] == Front(items);
    }
  }

  lemma {:induction false} NoLists(items: seq<Item>)
    requires forall a :: 0 <= a < |items| ==> !items[a].List?
    ensures CountLists(items) == 0 && SpansBeforeLists(items) == CountSpans(items)
  {
    if items != [] {
      assert !items[|items| - 1].List?;
      NoLists(Front(items));
    }
  }

  lemma {:induction false} SomeList(items: seq<Item>, f: nat)
    requires f < |items| && items[f].List?
    ensures CountLists(items) > 0
  {
    if f < |items| - 1 {
      SomeList(Front(items), f);
    }
  }

  lemma {:induction false} BeforeFirst(items: seq<Item>, f: nat)
    requires f < |items| && items[f].List? && forall a :: 0 <= a < f ==> !items[a].List?
    ensures SpansBeforeLists(items) == CountSpans(items[..f])
  {
    SpansOfFront(items, f);
    SomeList(items, f);
    if f < |items| - 1 {
      BeforeFirst(Front(items), f);
    } else {
      assert items[..f] == Front(items);
      NoLists(Front(items));
    }
  }

  lemma {:induction false} AfterLast(items: seq<Item>, l: nat)
    requires l < |items| && items[l].List? && forall a :: l < a < |items| ==> !items[a].List?
    ensures SpansAfterLists(items) == CountSpans(items) - CountSpans(items[..l])
  {
    SpansOfFront(items, l);
    if l < |items| - 1 {
      assert !items[|items| - 1].List?;
      AfterLast(Front(items), l);
    } else {
      assert items[..l] == Front(items);
    }
  }

  /** The axis of all lists stands where the lists stand if no slice comes between the first and the last, else in front. */
  lemma PlaceOfLists(items: seq<Item>, f: nat, l: nat)
    requires f <= l < |items| && items[f].List? && items[l].List?
    requires forall a :: 0 <= a < f || l < a < |items| ==> !items[a].List?
    ensures ListPlace(items) == if CountSpans(items[..f]) == CountSpans(items[..l]) then CountSpans(items[..f]) else 0
  {
    hide CountSpans, SpansBeforeLists, SpansAfterLists;
    BeforeFirst(items, f);
    AfterLast(items, l);
  }

  /** The coordinate of slice s when the one axis of all lists stands at p. */
  function Beside(s: nat, p: nat): nat {
    if s < p then s else s + 1
  }

  lemma {:induction false} SliceExtents(items: seq<Item>, sels: seq<Selector>, a: nat)
    requires KindsFit(items, sels) && a < |items| && items[a].Span?
    ensures CountSpans(items[..a]) < |SliceShape(items, sels)| && SliceShape(items, sels)[CountSpans(items[..a])] == |sels[a].rows|
  {
    SpansOfFront(items, a);
    if a < |items| - 1 {
      SliceExtents(Front(items), Front(sels), a);
    } else {
      assert items[..a] == Front(items);
    }
  }

  /** Axis a of the input is read as its item and selector say, for list position k and slice index idx. */
  predicate ListsEntry(item: Item, sel: Selector, s: nat, idx: seq<nat>, k: nat, from: nat) {
    match item
    case Int(_) => sel.Pick? && from == sel.i
    case Span(_, _, _) => sel.Take? && s < |idx| && idx[s] < |sel.rows| && from == sel.rows[idx[s]]
    case List(_) => sel.Take? && (|sel.rows| == 1 || k < |sel.rows|) && from == sel.rows[if |sel.rows| == 1 then 0 else k]
    case Ellipsis => false
  }

  lemma {:induction false} EmbedListsEntry(items: seq<Item>, sels: seq<Selector>, length: nat, k: nat, idx: seq<nat>, a: nat)
    requires KindsFit(items, sels) && ListsFit(items, sels, length) && k < length && InShape(SliceShape(items, sels), idx)
    requires a < |items|
    ensures ListsEntry(items[a], sels[a], CountSpans(items[..a]), idx, k, EmbedLists(items, sels, length, k, idx)[a])
    decreases |items|
  {
    var n := |items| - 1;
    assert items[n] == Last(items) && sels[n] == Last(sels) && !items[n].Ellipsis? && (items[n].Int? <==> sels[n].Pick?);
    if a < n {
      assert items[a] == Front(items)[a] && sels[a] == Front(sels)[a];
      hide ListsEntry, CountSpans;
      SpansOfFront(items, a);
      var front := if Last(items).Span? then Front(idx) else idx;
      EmbedListsEntry(Front(items), Front(sels), length, k, front, a);
      hide KindsFit, ListsFit;
      LongerIndex(items[a], sels[a], CountSpans(items[..a]), front, idx, k, EmbedLists(items, sels, length, k, idx)[a]);
    } else {
      EmbedListsLast(items, sels, length, k, idx);
    }
  }

  lemma EmbedListsLast(items: seq<Item>, sels: seq<Selector>, length: nat, k: nat, idx: seq<nat>)
    requires KindsFit(items, sels) && ListsFit(items, sels, length) && k < length && InShape(SliceShape(items, sels), idx)
    requires items != []
    ensures var n := |items| - 1;
            ListsEntry(items[n], sels[n], CountSpans(items[..n]), idx, k, EmbedLists(items, sels, length, k, idx)[n])
  {
    var n := |items| - 1;
    assert items[..n] == Front(items);
    assert items[n] == Last(items) && sels[n] == Last(sels) && !items[n].Ellipsis? && (items[n].Int? <==> sels[n].Pick?);
  }

  lemma LongerIndex(item: Item, sel: Selector, s: nat, front: seq<nat>, idx: seq<nat>, k: nat, from: nat)
    requires ListsEntry(item, sel, s, front, k, from) && front <= idx
    ensures ListsEntry(item, sel, s, idx, k, from)
  {
  }

  /** Position `from` is the one that an item reads when all lists are read at one coordinate. */
  predicate ReadsTogether(items: seq<Item>, a: nat, n: nat, from: nat, idx: seq<nat>, p: nat)
    requires a < |items| && p < |idx|
  {
    var s := Beside(CountSpans(items[..a]), p);
    match items[a]
    case Int(i) => from == FromEnd(i, n)
    case Span(lo, _, step) => s < |idx| && from == Lower(lo, n) + idx[s] * step
    case List(rows) =>
      (|rows| == 1 || idx[p] < |rows|) && from == FromEnd(rows[if |rows| == 1 then 0 else idx[p]], n)
    case Ellipsis => false
  }

  /** The entry of the result at idx is the entry of t at the positions that the items read together there. */
  ghost predicate EntryTogether<T>(t: Tensor<T>, items: seq<Item>, out: Tensor<T>, idx: seq<nat>, p: nat)
    requires t.Valid() && out.Valid() && |items| == |t.shape| && InShape(out.shape, idx) && p < |out.shape|
  {
    exists from: seq<nat> ::
      && InShape(t.shape, from) && At(out, idx) == At(t, from)
      && forall a :: 0 <= a < |items| ==> ReadsTogether(items, a, t.shape[a], from[a], idx, p)
  }

  /** The lists are as long as the longest or of length one. */
  predicate OneLength(items: seq<Item>, length: nat) {
    forall a :: 0 <= a < |items| && items[a].List? ==> |items[a].rows| == 1 || |items[a].rows| == length
  }

  lemma TogetherAt<T>(t: Tensor<T>, items: seq<Item>, sels: seq<Selector>, length: nat, idx: seq<nat>)
    requires t.Valid() && KindsFit(items, sels) && ListsFit(items, sels, length) && SelectorsFit(sels, t.shape)
    requires InShape(TogetherShape(items, sels, length), idx)
    ensures At(SelectTogether(t, items, sels, length), idx) == At(t, TogetherIndex(t.shape, items, sels, length, idx))
  {
    hide Prod, Flat, Unflat, TogetherIndex, TogetherShape;
    FlatBound(TogetherShape(items, sels, length), idx);
    FlatBound(t.shape, TogetherIndex(t.shape, items, sels, length, idx));
  }

  lemma TogetherFrom<T>(t: Tensor<T>, items: seq<Item>, sels: seq<Selector>, length: nat, idx: seq<nat>)
    requires t.Valid() && |items| == |t.shape| && ResolveAll(items, t.shape) == Ok(sels) && KindsFit(items, sels)
    requires ListsFit(items, sels, length) && InShape(TogetherShape(items, sels, length), idx)
    ensures EntryTogether(t, items, SelectTogether(t, items, sels, length), idx, ListPlace(items))
  {
    hide Resolve, SelectTogether, TogetherIndex, TogetherShape, ListPlace, KindsFit, ListsFit, ReadsTogether, SelectorsFit, At;
    TogetherAt(t, items, sels, length, idx);
    var from := TogetherIndex(t.shape, items, sels, length, idx);
    forall a | 0 <= a < |items|
      ensures ReadsTogether(items, a, t.shape[a], from[a], idx, ListPlace(items))
    {
      TogetherReads(t.shape, items, sels, length, idx, a);
    }
  }

  lemma TogetherReads(shape: seq<nat>, items: seq<Item>, sels: seq<Selector>, length: nat, idx: seq<nat>, a: nat)
    requires |items| == |shape| && ResolveAll(items, shape) == Ok(sels) && KindsFit(items, sels) && a < |items|
    requires ListsFit(items, sels, length) && InShape(TogetherShape(items, sels, length), idx)
    ensures ReadsTogether(items, a, shape[a], TogetherIndex(shape, items, sels, length, idx)[a], idx, ListPlace(items))
  {
    assert |sels| == |items|;
    hide Resolve, SliceShape, EmbedLists, CountSpans, ListPlace, KindsFit, ListsFit, SelectorsFit, ReadsTogether;
    var p := ListPlace(items);
    var rest := idx[..p] + idx[p + 1..];
    SplitIndex(SliceShape(items, sels), p, length, idx);
    EmbedListsEntry(items, sels, length, idx[p], rest, a);
    assert Resolve(items[a], shape[a]) == Ok(sels[a]);
    ItemTogether(items, a, shape[a], sels[a], EmbedLists(items, sels, length, idx[p], rest)[a], idx, p);
  }

  lemma ItemTogether(items: seq<Item>, a: nat, n: nat, s: Selector, from: nat, idx: seq<nat>, p: nat)
    requires a < |items| && Resolve(items[a], n) == Ok(s) && p < |idx|
    requires ListsEntry(items[a], s, CountSpans(items[..a]), idx[..p] + idx[p + 1..], idx[p], from)
    ensures ReadsTogether(items, a, n, from, idx, p)
  {
    hide Resolve, CountSpans, Lower, FromEnd, Accepts, HasExtent;
    ItemRead(items[a], n);
    RowsOfItem(items[a], n, s);
    BesideRest(idx, p, CountSpans(items[..a]));
  }

  lemma BesideRest(idx: seq<nat>, p: nat, s: nat)
    requires p < |idx|
    ensures var rest := idx[..p] + idx[p + 1..];
            s < |rest| ==> Beside(s, p) < |idx| && rest[s] == idx[Beside(s, p)]
  {
  }

  /** The rows of a slice or a list, position by position. */
  lemma RowsOfItem(item: Item, n: nat, s: Selector)
    requires Resolve(item, n) == Ok(s)
    ensures item.List? ==> s.Take? && |s.rows| == |item.rows| && forall j :: 0 <= j < |s.rows| ==> s.rows[j] == FromEnd(item.rows[j], n)
    ensures item.Span? ==> s.Take? && forall j :: 0 <= j < |s.rows| ==> s.rows[j] == Lower(item.lo, n) + j * item.step
  {
    hide Resolve, Lower;
    ItemRead(item, n);
    if s.Take? {
      forall j | 0 <= j < |s.rows|
        ensures s.rows[j] == ReadPosition(item, n, j)
      {
      }
    }
  }

  lemma {:induction false} CommonIsLength(items: seq<Item>, sels: seq<Selector>, length: nat)
    requires KindsFit(items, sels) && ListsFit(items, sels, length) && length != 1
    requires exists a :: 0 <= a < |items| && items[a].List? && |sels[a].rows| != 1
    ensures CommonLength(items, sels) == length
  {
    var n := |items| - 1;
    var a :| 0 <= a < |items| && items[a].List? && |sels[a].rows| != 1;
    assert items[n] == Last(items) && sels[n] == Last(sels);
    if !(items[n].List? && |sels[n].rows| != 1) {
      assert Front(items)[a] == items[a] && Front(sels)[a] == sels[a];
      CommonIsLength(Front(items), Front(sels), length);
    }
  }

  lemma {:induction false} CommonIsOne(items: seq<Item>, sels: seq<Selector>)
    requires KindsFit(items, sels) && forall a :: 0 <= a < |items| && items[a].List? ==> |sels[a].rows| == 1
    ensures CommonLength(items, sels) == 1
  {
    if items != [] {
      var n := |items| - 1;
      assert items[n] == Last(items) && sels[n] == Last(sels);
      CommonIsOne(Front(items), Front(sels));
    }
  }

  /**
    Indexing by a tuple with several lists, entry by entry: it succeeds iff every axis accepts its
    item and the lists have one length, those of length one being repeated; all lists are read at
    one coordinate, the slices at their own.
   */
  lemma SeveralListsEntry<T>(t: Tensor<T>, items: seq<Item>)
    requires t.Valid() && |items| == |t.shape| && CountLists(items) > 1
    ensures Index(t, items).Ok? <==>
              (forall a :: 0 <= a < |items| ==> Accepts(items[a], t.shape[a])) && exists length: nat :: OneLength(items, length)
    ensures Index(t, items).Ok? ==>
              var (out, p) := (Index(t, items).value, ListPlace(items));
              && |out.shape| == CountSpans(items) + 1
              && OneLength(items, out.shape[p])
              && (forall a :: 0 <= a < |items| && items[a].Span? ==>
                    var s := Beside(CountSpans(items[..a]), p);
                    s < |out.shape| && HasExtent(items[a], t.shape[a], out.shape[s]))
              && forall idx :: InShape(out.shape, idx) ==> EntryTogether(t, items, out, idx, p)
  {
    hide Resolve, SelectTogether, SliceShape, Accepts, HasExtent, ReadPosition, KindsFit, CountLists, CountSpans, EntryTogether, ListPlace, CommonLength;
    forall a | 0 <= a < |items|
      ensures Resolve(items[a], t.shape[a]).Ok? <==> Accepts(items[a], t.shape[a])
    {
      ItemRead(items[a], t.shape[a]);
    }
    if ResolveAll(items, t.shape).Ok? {
      var sels := ResolveAll(items, t.shape).value;
      ResolvedKinds(items, t.shape);
      LengthsOf(t.shape, items, sels);
      var length := CommonLength(items, sels);
      if ListsFit(items, sels, length) {
        var (out, p) := (SelectTogether(t, items, sels, length), ListPlace(items));
        forall a | 0 <= a < |items| && items[a].Span?
          ensures var s := Beside(CountSpans(items[..a]), p);
                  s < |out.shape| && HasExtent(items[a], t.shape[a], out.shape[s])
        {
          SliceExtents(items, sels, a);
          ItemRead(items[a], t.shape[a]);
          assert Resolve(items[a], t.shape[a]) == Ok(sels[a]);
        }
        forall idx | InShape(out.shape, idx)
          ensures EntryTogether(t, items, out, idx, p)
        {
          TogetherFrom(t, items, sels, length, idx);
        }
      }
    }
  }

  lemma LengthsOf(shape: seq<nat>, items: seq<Item>, sels: seq<Selector>)
    requires |items| == |shape| && ResolveAll(items, shape) == Ok(sels) && KindsFit(items, sels)
    ensures forall length: nat :: OneLength(items, length) <==> ListsFit(items, sels, length)
    ensures (exists length: nat :: OneLength(items, length)) <==> ListsFit(items, sels, CommonLength(items, sels))
  {
    hide Resolve, CommonLength;
    forall a | 0 <= a < |items| && items[a].List?
      ensures |sels[a].rows| == |items[a].rows|
    {
      assert Resolve(items[a], shape[a]) == Ok(sels[a]);
      RowsOfItem(items[a], shape[a], sels[a]);
    }
    assert forall length: nat :: OneLength(items, length) <==> ListsFit(items, sels, length);
    if exists length: nat :: OneLength(items, length) {
      var length: nat :| OneLength(items, length);
      if exists a :: 0 <= a < |items| && items[a].List? && |sels[a].rows| != 1 {
        CommonIsLength(items, sels, length);
      } else {
        CommonIsOne(items, sels);
      }
    }
    if ListsFit(items, sels, CommonLength(items, sels)) {
      assert OneLength(items, CommonLength(items, sels));
    }
  }

  // ---------------------------------------------------------------- permute and transpose

  /** The entry of the result at idx is the entry of t whose axis dims[i] has coordinate idx[i]. */
  ghost predicate EntryPermuted<T>(t: Tensor<T>, dims: seq<int>, out: Tensor<T>, idx: seq<nat>)
    requires t.Valid() && out.Valid() && |dims| == |t.shape| == |out.shape| && InShape(out.shape, idx)
    requires DimsInRange(dims, |dims|)
  {
    exists from: seq<nat> ::
      && InShape(t.shape, from) && At(out, idx) == At(t, from)
      && forall i :: 0 <= i < |dims| ==> from[FromEnd(dims[i], |dims|)] == idx[i]
  }

  predicate Different(dims: seq<int>) {
    forall i, j :: 0 <= i < j < |dims| ==> FromEnd(dims[i], |dims|) != FromEnd(dims[j], |dims|)
  }

  function Below(n: nat): (r: set<int>)
    ensures |r| == n && forall x :: x in r <==> 0 <= x < n
  {
    if n == 0 then {} else Below(n - 1) + {n - 1}
  }

  function Members(s: seq<int>): (r: set<int>)
    ensures forall x :: x in r <==> x in s
  {
    set x | x in s
  }

  lemma {:induction false} MemberCount(s: seq<int>)
    requires forall i, j :: 0 <= i < j < |s| ==> s[i] != s[j]
    ensures |Members(s)| == |s|
  {
    if s == [] {
      assert Members(s) == {};
    } else {
      var n := |s| - 1;
      MemberCount(s[..n]);
      assert Members(s) == Members(s[..n]) + {s[n]};
      assert s[n] !in s[..n];
    }
  }

  /** Different axes below n, n of them, are all the axes. */
  lemma AllAxes(axes: seq<nat>)
    requires forall i :: 0 <= i < |axes| ==> axes[i] < |axes|
    requires forall i, j :: 0 <= i < j < |axes| ==> axes[i] != axes[j]
    ensures IsPermutation(axes)
  {
    MemberCount(axes);
    var (all, members) := (Below(|axes|), Members(axes));
    assert members <= all;
    assert |all - members| == |all| - |members|;
    assert all - members == {};
    forall d | 0 <= d < |axes|
      ensures d in axes
    {
      assert d in all;
    }
  }

  /** A permute succeeds iff its dimensions are all in range and different; axis i of the result is axis dims[i]. */
  lemma PermuteEntry<T>(t: Tensor<T>, dims: seq<int>)
    requires t.Valid()
    ensures Permute(t, dims).Ok? <==> |dims| == |t.shape| && DimsInRange(dims, |dims|) && Different(dims)
    ensures Permute(t, dims).Ok? ==>
              var out := Permute(t, dims).value;
              && |out.shape| == |t.shape|
              && (forall i :: 0 <= i < |dims| ==> out.shape[i] == t.shape[FromEnd(dims[i], |dims|)])
              && forall idx :: InShape(out.shape, idx) ==> EntryPermuted(t, dims, out, idx)
  {
    hide PermuteAxes, Unpermuted, At, Position;
    if |dims| == |t.shape| && DimsInRange(dims, |dims|) {
      var axes := WrapDims(dims, |dims|);
      if Different(dims) {
        AllAxes(axes);
      }
      if IsPermutation(axes) {
        forall idx | InShape(PermuteAxes(t, axes).shape, idx)
          ensures EntryPermuted(t, dims, PermuteAxes(t, axes), idx)
        {
          PermuteAt(t, axes, idx);
          UnpermutedInShape(t.shape, axes, idx);
        }
      }
    }
  }

  /** Transposing swaps two axes, counted from the end if negative. */
  lemma TransposeEntry<T>(t: Tensor<T>, d0: int, d1: int)
    requires t.Valid()
    ensures var r := |t.shape|; Transpose(t, d0, d1).Ok? <==> -(r as int) <= d0 < r && -(r as int) <= d1 < r
    ensures Transpose(t, d0, d1).Ok? ==>
              var (out, a, b) := (Transpose(t, d0, d1).value, FromEnd(d0, |t.shape|), FromEnd(d1, |t.shape|));
              && 0 <= a < |t.shape| && 0 <= b < |t.shape|
              && out.shape == t.shape[a := t.shape[b]][b := t.shape[a]]
              && forall idx :: InShape(out.shape, idx) ==>
                   InShape(t.shape, idx[a := idx[b]][b := idx[a]]) && At(out, idx) == At(t, idx[a := idx[b]][b := idx[a]])
  {
    hide Permute, At, EntryPermuted;
    var r := |t.shape|;
    if -(r as int) <= d0 < r && -(r as int) <= d1 < r {
      var (a, b) := (FromEnd(d0, r), FromEnd(d1, r));
      var dims := SwapDims(r, d0, d1).value;
      assert forall i :: 0 <= i < r ==> dims[i] == if i == a then b else if i == b then a else i;
      PermuteEntry(t, dims);
      var out := Permute(t, dims).value;
      forall idx | InShape(out.shape, idx)
        ensures InShape(t.shape, idx[a := idx[b]][b := idx[a]]) && At(out, idx) == At(t, idx[a := idx[b]][b := idx[a]])
      {
        SwappedFrom(t, dims, a, b, out, idx);
      }
    }
  }

  lemma SwappedFrom<T>(t: Tensor<T>, dims: seq<int>, a: nat, b: nat, out: Tensor<T>, idx: seq<nat>)
    requires t.Valid() && out.Valid() && |dims| == |t.shape| == |out.shape| && InShape(out.shape, idx)
    requires a < |dims| && b < |dims|
    requires forall i :: 0 <= i < |dims| ==> dims[i] == if i == a then b else if i == b then a else i
    requires EntryPermuted(t, dims, out, idx)
    ensures InShape(t.shape, idx[a := idx[b]][b := idx[a]]) && At(out, idx) == At(t, idx[a := idx[b]][b := idx[a]])
  {
    hide At;
    var from: seq<nat> :| InShape(t.shape, from) && At(out, idx) == At(t, from)
                          && forall i :: 0 <= i < |dims| ==> from[FromEnd(dims[i], |dims|)] == idx[i];
    var to := idx[a := idx[b]][b := idx[a]];
    forall i | 0 <= i < |dims|
      ensures from[i] == to[i]
    {
      assert from[FromEnd(dims[i], |dims|)] == idx[i];
      assert from[FromEnd(dims[a], |dims|)] == idx[a] && from[FromEnd(dims[b], |dims|)] == idx[b];
    }
    assert from == to;
  }

  // ---------------------------------------------------------------- reshape, stack and cat

  /** Entries are laid out row by row. */
  lemma RowMajor(m: nat, n: nat, r: nat, i: nat, j: nat, k: nat)
    ensures Flat([m, n], [i, j]) == i * n + j && Prod([m, n]) == m * n
    ensures Flat([r, m, n], [k, i, j]) == (k * m + i) * n + j && Prod([r, m, n]) == r * m * n
  {
    assert Front([m]) == [] && Front([i]) == [];
    assert Flat([m], [i]) == i && Prod([m]) == m;
    assert Front([m, n]) == [m] && Front([i, j]) == [i];
    assert Front([r]) == [] && Front([k]) == [] && Flat([r], [k]) == k && Prod([r]) == r;
    assert Front([r, m]) == [r] && Front([k, i]) == [k];
    assert Flat([r, m], [k, i]) == k * m + i && Prod([r, m]) == r * m;
    assert Front([r, m, n]) == [r, m] && Front([k, i, j]) == [k, i];
  }

  /** A shape as requested, but for extents that are inferred. */
  predicate Matches(shape: seq<nat>, dims: seq<int>) {
    |shape| == |dims| && forall i :: 0 <= i < |dims| && dims[i] != -1 ==> shape[i] == dims[i]
  }

  lemma {:induction false} CountOf(dims: seq<int>, i: nat)
    requires i < |dims| && dims[i] == -1
    ensures CountInferred(dims) >= 1
  {
    if i < |dims| - 1 {
      CountOf(Front(dims), i);
    }
  }

  lemma {:induction false} MatchingProduct(shape: seq<nat>, dims: seq<int>)
    requires Matches(shape, dims) && CountInferred(dims) <= 1
    ensures CountInferred(dims) == 0 ==> Prod(shape) == KnownProd(dims)
    ensures forall k :: 0 <= k < |dims| && dims[k] == -1 ==> Prod(shape) == KnownProd(dims) * shape[k]
  {
    if dims != [] {
      var n := |dims| - 1;
      MatchingProduct(Front(shape), Front(dims));
      forall k | 0 <= k < |dims| && dims[k] == -1
        ensures Prod(shape) == KnownProd(dims) * shape[k]
      {
        if k < n {
          if dims[n] == -1 {
            CountOf(Front(dims), k);
          }
          assert Prod(Front(shape)) == KnownProd(Front(dims)) * shape[k];
          Reorder(KnownProd(Front(dims)), shape[k], shape[n]);
        }
      }
    }
  }

  lemma Reorder(x: int, y: int, z: int)
    ensures x * y * z == x * z * y
  {
  }

  /**
    A reshape succeeds iff at most one extent is inferred, next to extents that are not zero, and
    some shape as requested has the number of entries; the result has such a shape and the same
    entries in the same order.
   */
  lemma ReshapeEntry<T>(t: Tensor<T>, dims: seq<int>)
    requires t.Valid()
    ensures Reshape(t, dims).Ok? <==>
              && CountInferred(dims) <= 1
              && (CountInferred(dims) == 1 ==> KnownProd(dims) != 0)
              && exists shape: seq<nat> :: Matches(shape, dims) && Prod(shape) == |t.data|
    ensures Reshape(t, dims).Ok? ==>
              var out := Reshape(t, dims).value;
              Matches(out.shape, dims) && Prod(out.shape) == |t.data| && out.data == t.data
  {
    hide Prod, KnownProd, CountInferred;
    if CountInferred(dims) <= 1 && (CountInferred(dims) == 1 ==> KnownProd(dims) != 0)
       && exists shape: seq<nat> :: Matches(shape, dims) && Prod(shape) == |t.data| {
      var shape: seq<nat> :| Matches(shape, dims) && Prod(shape) == |t.data|;
      MatchedReshape(t, dims, shape);
    }
    if Reshape(t, dims).Ok? {
      ReshapeMatches(t, dims);
    }
  }

  lemma ReshapeMatches<T>(t: Tensor<T>, dims: seq<int>)
    requires t.Valid() && Reshape(t, dims).Ok?
    ensures var out := Reshape(t, dims).value;
            && Matches(out.shape, dims) && Prod(out.shape) == |t.data| && out.data == t.data
            && CountInferred(dims) <= 1 && (CountInferred(dims) == 1 ==> KnownProd(dims) != 0)
  {
    hide Prod, KnownProd, CountInferred;
  }

  lemma {:induction false} InferredAt(dims: seq<int>) returns (k: nat)
    requires CountInferred(dims) > 0
    ensures k < |dims| && dims[k] == -1
  {
    if Last(dims) == -1 {
      k := |dims| - 1;
    } else {
      k := InferredAt(Front(dims));
    }
  }

  lemma {:induction false} OnlyInferred(dims: seq<int>, k: nat)
    requires CountInferred(dims) == 1 && k < |dims| && dims[k] == -1
    ensures forall i :: 0 <= i < |dims| && i != k ==> dims[i] != -1
  {
    var n := |dims| - 1;
    if k == n {
      NoneIn(Front(dims));
    } else {
      CountOf(Front(dims), k);
      OnlyInferred(Front(dims), k);
    }
    assert forall i :: 0 <= i < n ==> dims[i] == Front(dims)[i];
  }

  lemma MatchedReshape<T>(t: Tensor<T>, dims: seq<int>, shape: seq<nat>)
    requires t.Valid() && Matches(shape, dims) && Prod(shape) == |t.data|
    requires CountInferred(dims) <= 1 && (CountInferred(dims) == 1 ==> KnownProd(dims) != 0)
    ensures Reshape(t, dims).Ok?
  {
    MatchingProduct(shape, dims);
    if CountInferred(dims) == 0 {
      NoneIn(dims);
      assert shape == dims;
      hide Prod, KnownProd, CountInferred;
      assert ExpandShape(|t.data|, dims) == Ok(dims);
      assert AsShape(dims) == shape;
    } else {
      var k := InferredAt(dims);
      OnlyInferred(dims, k);
      hide Prod, KnownProd, CountInferred;
      KnownPositive(dims, shape, k);
      Inferred(KnownProd(dims), shape[k], |t.data|);
      var filled := FillInferred(dims, |t.data| / KnownProd(dims));
      assert forall i :: 0 <= i < |dims| ==> filled[i] == shape[i];
      assert AsShape(filled) == shape;
    }
  }

  lemma {:induction false} NoneIn(dims: seq<int>)
    requires CountInferred(dims) == 0
    ensures forall i :: 0 <= i < |dims| ==> dims[i] != -1
  {
    forall i | 0 <= i < |dims|
      ensures dims[i] != -1
    {
      if dims[i] == -1 {
        CountOf(dims, i);
      }
    }
  }

  lemma {:induction false} KnownPositive(dims: seq<int>, shape: seq<nat>, k: nat)
    requires k < |dims| && dims[k] == -1 && Matches(shape, dims) && KnownProd(dims) != 0
    ensures KnownProd(dims) > 0
  {
    KnownNotNegative(dims, shape);
  }

  lemma {:induction false} KnownNotNegative(dims: seq<int>, shape: seq<nat>)
    requires Matches(shape, dims)
    ensures KnownProd(dims) >= 0
  {
    if dims != [] {
      KnownNotNegative(Front(dims), Front(shape));
      var n := |dims| - 1;
      MulMonotone(0, KnownProd(Front(dims)), if dims[n] == -1 then 1 else shape[n]);
    }
  }

  lemma Inferred(known: int, extent: nat, count: nat)
    requires known > 0 && count == known * extent
    ensures count % known == 0 && count / known == extent
  {
    Offset(extent, 0, extent + 1, known);
  }

  /** Stacking succeeds iff there are tensors, of one shape; entry idx of the i-th is entry [i] + idx of the stack. */
  lemma StackEntry<T>(ts: seq<Tensor<T>>)
    requires forall i :: 0 <= i < |ts| ==> ts[i].Valid()
    ensures Stack(ts).Ok? <==> ts != [] && forall i :: 0 <= i < |ts| ==> ts[i].shape == ts[0].shape
    ensures Stack(ts).Ok? ==>
              var out := Stack(ts).value;
              && out.shape == [|ts|] + ts[0].shape
              && forall i: nat, idx :: i < |ts| && InShape(ts[i].shape, idx) ==>
                   InShape(out.shape, [i] + idx) && At(out, [i] + idx) == At(ts[i], idx)
  {
    hide StackOf, Sub, At;
    if Stack(ts).Ok? {
      var out := Stack(ts).value;
      forall i: nat, idx | i < |ts| && InShape(ts[i].shape, idx)
        ensures InShape(out.shape, [i] + idx) && At(out, [i] + idx) == At(ts[i], idx)
      {
        StackSub(ts, ts[0].shape, i);
        assert Tail(out.shape) == ts[0].shape;
        SubAt(out, i, idx);
      }
    }
  }

  predicate Rowed<T>(ts: seq<Tensor<T>>) {
    forall i :: 0 <= i < |ts| ==> ts[i].Valid() && ts[i].shape != []
  }

  /** Every entry [j] + idx of the m-th tensor stands in `out` behind the rows of the tensors before it. */
  ghost predicate RowsOf<T>(ts: seq<Tensor<T>>, out: Tensor<T>, m: nat)
    requires Rowed(ts) && out.Valid() && m < |ts|
  {
    forall j: nat, idx :: InShape(ts[m].shape, [j] + idx) ==>
      && InShape(out.shape, [RowsBefore(ts, m) + j] + idx)
      && At(out, [RowsBefore(ts, m) + j] + idx) == At(ts[m], [j] + idx)
  }

  /** Concatenating succeeds iff the shapes agree behind the first axis; the rows of the tensors follow one another. */
  lemma CatEntry<T>(ts: seq<Tensor<T>>)
    requires ts != [] && Rowed(ts)
    ensures Cat(ts).Ok? <==> forall i :: 0 <= i < |ts| ==> ts[i].shape[1..] == ts[0].shape[1..]
    ensures Cat(ts).Ok? ==>
              && Cat(ts).value.shape == [RowsBefore(ts, |ts|)] + ts[0].shape[1..]
              && forall m: nat :: m < |ts| ==> RowsOf(ts, Cat(ts).value, m)
  {
    hide StackOf, Sub, At, AllSubs, RowsBefore, RowsOf;
    if Cat(ts).Ok? {
      var tail := Tail(ts[0].shape);
      AllSubsCount(ts, tail, |ts|);
      forall m: nat | m < |ts|
        ensures RowsOf(ts, Cat(ts).value, m)
      {
        CatRows(ts, tail, m);
      }
    }
  }

  lemma CatRows<T>(ts: seq<Tensor<T>>, tail: seq<nat>, m: nat)
    requires Rowed(ts) && SameTails(ts, tail) && m < |ts|
    ensures RowsOf(ts, StackOf(AllSubs(ts, tail), tail), m)
  {
    hide StackOf, Sub, At, AllSubs, RowsBefore;
    var out := StackOf(AllSubs(ts, tail), tail);
    forall j: nat, idx | InShape(ts[m].shape, [j] + idx)
      ensures InShape(out.shape, [RowsBefore(ts, m) + j] + idx) && At(out, [RowsBefore(ts, m) + j] + idx) == At(ts[m], [j] + idx)
    {
      CatAt(ts, tail, m, j, idx);
    }
  }

  lemma CatAt<T>(ts: seq<Tensor<T>>, tail: seq<nat>, m: nat, j: nat, idx: seq<nat>)
    requires SameTails(ts, tail) && m < |ts| && InShape(ts[m].shape, [j] + idx)
    ensures var (out, i) := (StackOf(AllSubs(ts, tail), tail), RowsBefore(ts, m) + j);
            InShape(out.shape, [i] + idx) && At(out, [i] + idx) == At(ts[m], [j] + idx)
  {
    hide StackOf, Sub, At, AllSubs, RowsBefore;
    var (out, i) := (StackOf(AllSubs(ts, tail), tail), RowsBefore(ts, m) + j);
    assert ts[m].shape == [ts[m].shape[0]] + tail;
    BehindFirst(ts[m].shape[0], tail, j, idx);
    AllSubsPart(ts, tail, m, j);
    StackSub(AllSubs(ts, tail), tail, i);
    assert Tail(out.shape) == tail;
    SubAt(out, i, idx);
    SubAt(ts[m], j, idx);
  }

  /** The rows of the first m tensors. */
  function RowsBefore<T>(ts: seq<Tensor<T>>, m: nat): nat
    requires m <= |ts| && forall i :: 0 <= i < |ts| ==> ts[i].shape != []
  {
    if m == 0 then 0 else RowsBefore(ts, m - 1) + ts[m - 1].shape[0]
  }

  lemma {:induction false} RowsOfFront<T>(ts: seq<Tensor<T>>, m: nat)
    requires ts != [] && m < |ts| && forall i :: 0 <= i < |ts| ==> ts[i].shape != []
    ensures RowsBefore(Front(ts), m) == RowsBefore(ts, m)
  {
    if m > 0 {
      RowsOfFront(ts, m - 1);
    }
  }

  lemma {:induction false} AllSubsCount<T>(ts: seq<Tensor<T>>, tail: seq<nat>, m: nat)
    requires SameTails(ts, tail) && m == |ts|
    ensures |AllSubs(ts, tail)| == RowsBefore(ts, m)
  {
    hide Sub, SameShapes;
    if ts != [] {
      AllSubsCount(Front(ts), tail, m - 1);
      RowsOfFront(ts, m - 1);
    }
  }

  /** Row j of the m-th tensor is that row of them all. */
  ghost predicate PartAt<T>(ts: seq<Tensor<T>>, tail: seq<nat>, m: nat, j: nat, i: nat)
    requires SameTails(ts, tail)
  {
    m < |ts| && j < ts[m].shape[0] && i < |AllSubs(ts, tail)| && AllSubs(ts, tail)[i] == Sub(ts[m], j)
  }

  lemma {:induction false} AllSubsPart<T>(ts: seq<Tensor<T>>, tail: seq<nat>, m: nat, j: nat)
    requires SameTails(ts, tail) && m < |ts| && j < ts[m].shape[0]
    ensures PartAt(ts, tail, m, j, RowsBefore(ts, m) + j)
  {
    FrontTails(ts, tail, m);
    hide Sub, SameShapes, AllSubs, SameTails, RowsBefore, PartAt;
    var n := |ts| - 1;
    RowsOfFront(ts, m);
    if m < n {
      AllSubsPart(Front(ts), tail, m, j);
      PartOfFront(ts, tail, m, j, RowsBefore(ts, m) + j);
    } else {
      AllSubsCount(Front(ts), tail, n);
      PartOfLast(ts, tail, j);
    }
  }

  lemma PartOfFront<T>(ts: seq<Tensor<T>>, tail: seq<nat>, m: nat, j: nat, i: nat)
    requires ts != [] && SameTails(ts, tail) && SameTails(Front(ts), tail) && PartAt(Front(ts), tail, m, j, i)
    ensures PartAt(ts, tail, m, j, i)
  {
    hide Sub, SameShapes, AllSubs;
    AllSubsLast(ts, tail, i);
  }

  lemma PartOfLast<T>(ts: seq<Tensor<T>>, tail: seq<nat>, j: nat)
    requires ts != [] && SameTails(ts, tail) && SameTails(Front(ts), tail) && j < ts[|ts| - 1].shape[0]
    ensures PartAt(ts, tail, |ts| - 1, j, |AllSubs(Front(ts), tail)| + j)
  {
    hide Sub, SameShapes, AllSubs;
    AllSubsLast(ts, tail, |AllSubs(Front(ts), tail)| + j);
  }

  lemma FrontTails<T>(ts: seq<Tensor<T>>, tail: seq<nat>, m: nat)
    requires ts != [] && SameTails(ts, tail) && m < |ts|
    ensures SameTails(Front(ts), tail) && if m < |ts| - 1 then Front(ts)[m] == ts[m] else Last(ts) == ts[m]
  {
  }

  // ---------------------------------------------------------------- ellipses and products

  ghost predicate NoEllipsis(items: seq<Item>) {
    forall i :: 0 <= i < |items| ==> !items[i].Ellipsis?
  }

  /** A dense index fills up with `:` at the end, or in place of its one ellipsis, to the rank. */
  lemma DenseExpanded(before: seq<Item>, after: seq<Item>, rank: nat)
    requires NoEllipsis(before) && NoEllipsis(after)
    ensures DenseExpand(before, rank) == if |before| <= rank then Ok(before + Fulls(rank - |before|)) else Err(BadIndex)
    ensures DenseExpand(before + [Ellipsis] + after, rank)
            == if |before| + |after| <= rank then Ok(before + Fulls(rank - |before| - |after|) + after) else Err(BadIndex)
  {
    SpliceNone(before, 0);
    var n := rank - |before| - |after|;
    SpliceOne(before, after, if n >= 0 then n else 0);
  }

  /** The pair fills its ellipsis with as many `:` as other items are named, and the rest at the end. */
  lemma PairExpanded(before: seq<Item>, after: seq<Item>, rank: nat)
    requires NoEllipsis(before) && NoEllipsis(after) && after != []
    ensures LoraExpand(after, rank) == Ok(after + Fulls(if |after| < rank then rank - |after| else 0))
    ensures var (n, m) := (|before| + |after|, 2 * (|before| + |after|));
            LoraExpand(before + [Ellipsis] + after, rank)
            == Ok(before + Fulls(n) + after + Fulls(if m < rank then rank - m else 0))
    ensures LoraExpand(before + [Ellipsis], rank) == LoraExpand(before, rank) && LoraExpand([], rank) == Err(AssertionFailed)
  {
    hide LoraExpand, NoEllipsis, Fulls;
    PairFilled(after, rank);
    PairSpliced(before, after, rank);
    PairTrailing(before, rank);
  }

  lemma PairFilled(items: seq<Item>, rank: nat)
    requires NoEllipsis(items) && items != []
    ensures LoraExpand(items, rank) == Ok(items + Fulls(if |items| < rank then rank - |items| else 0))
  {
    hide SpliceEllipsis, Fulls;
    assert !items[|items| - 1].Ellipsis?;
    SpliceNone(items, |items| - 1);
  }

  lemma PairSpliced(before: seq<Item>, after: seq<Item>, rank: nat)
    requires NoEllipsis(before) && NoEllipsis(after) && after != []
    ensures var (n, m) := (|before| + |after|, 2 * (|before| + |after|));
            LoraExpand(before + [Ellipsis] + after, rank)
            == Ok(before + Fulls(n) + after + Fulls(if m < rank then rank - m else 0))
  {
    var items := before + [Ellipsis] + after;
    assert items != [] && Last(items) == after[|after| - 1] && |items| - 1 == |before| + |after|;
    assert !after[|after| - 1].Ellipsis?;
    hide NoEllipsis, SpliceEllipsis;
    SpliceOne(before, after, |before| + |after|);
    hide Fulls;
    assert |before + Fulls(|before| + |after|) + after| == 2 * (|before| + |after|);
  }

  lemma PairTrailing(before: seq<Item>, rank: nat)
    ensures LoraExpand(before + [Ellipsis], rank) == LoraExpand(before, rank) && LoraExpand([], rank) == Err(AssertionFailed)
  {
    hide SpliceEllipsis, Fulls;
    assert Front(before + [Ellipsis]) == before && Last(before + [Ellipsis]) == Ellipsis;
  }

  /** The sum of the products, place by place. */
  lemma {:induction false} DotIs(u: seq<real>, v: seq<real>, x: real, y: real)
    requires |u| == |v|
    ensures Dot([], []) == 0.0 && Dot(u + [x], v + [y]) == Dot(u, v) + x * y
  {
    assert Front(u + [x]) == u && Front(v + [y]) == v;
  }

  /** Where A is read for a batch of the product. */
  function BatchOfA(lead: seq<nat>, batch: seq<nat>): (r: seq<nat>)
    requires |lead| == |batch|
    ensures |r| == |lead|
  {
    seq(|lead|, i requires 0 <= i < |lead| => if lead[i] == 1 then 0 else batch[i])
  }

  lemma TermsInShape(l: LoraTensor, batch: seq<nat>, p: nat, c: nat, q: nat)
    requires WellFormed(l) && InShape(Shape(l), batch + [p, c]) && q < Rank(l)
    ensures |batch| == |ALead(l)|
    ensures InShape(l.b.shape, batch + [p, q]) && InShape(l.a.shape, BatchOfA(ALead(l), batch) + [q, c])
  {
    BroadcastInShape(l, batch + [p, c]);
    var idx := batch + [p, c];
    assert Front(idx) == batch + [p] && Front(Front(idx)) == batch && Last(idx) == c;
    var at := BatchOfA(ALead(l), batch);
    assert at == Broadcast(ALead(l), batch);
    assert l.b.shape == Front(l.b.shape) + [Rank(l)] && l.a.shape == ALead(l) + [Rank(l)] + [Last(l.a.shape)];
    InShapeNext(l.b.shape, batch + [p], q);
    assert batch + [p] + [q] == batch + [p, q] && at + [q] + [c] == at + [q, c];
    assert Front(l.a.shape) == ALead(l) + [Rank(l)];
    InShapeNext(Front(l.a.shape), at, q);
    InShapeNext(l.a.shape, at + [q], c);
  }

  /** Row p of B in that batch. */
  ghost function TermsOfB(l: LoraTensor, batch: seq<nat>, p: nat, c: nat): (u: seq<real>)
    requires WellFormed(l) && InShape(Shape(l), batch + [p, c])
    ensures |u| == Rank(l)
    ensures forall q: nat :: q < Rank(l) ==> InShape(l.b.shape, batch + [p, q]) && u[q] == At(l.b, batch + [p, q])
  {
    assert forall q: nat :: q < Rank(l) ==> InShape(l.b.shape, batch + [p, q]) by {
      forall q: nat | q < Rank(l) ensures InShape(l.b.shape, batch + [p, q]) {
        TermsInShape(l, batch, p, c, q);
      }
    }
    hide At;
    seq(Rank(l), q requires 0 <= q < Rank(l) => At(l.b, batch + [p, q]))
  }

  /** Column c of A in the batch it is read at. */
  ghost function TermsOfA(l: LoraTensor, batch: seq<nat>, p: nat, c: nat): (v: seq<real>)
    requires WellFormed(l) && InShape(Shape(l), batch + [p, c])
    ensures |v| == Rank(l) && |batch| == |ALead(l)|
    ensures forall q: nat :: q < Rank(l) ==>
              var at := BatchOfA(ALead(l), batch) + [q, c];
              InShape(l.a.shape, at) && v[q] == At(l.a, at)
  {
    BroadcastInShape(l, batch + [p, c]);
    assert |batch| == |ALead(l)|;
    var at := BatchOfA(ALead(l), batch);
    assert forall q: nat :: q < Rank(l) ==> InShape(l.a.shape, at + [q, c]) by {
      forall q: nat | q < Rank(l) ensures InShape(l.a.shape, at + [q, c]) {
        TermsInShape(l, batch, p, c, q);
      }
    }
    hide At;
    seq(Rank(l), q requires 0 <= q < Rank(l) => At(l.a, at + [q, c]))
  }

  /** Entry [p, c] of a batch of the product is row p of B times column c of A, A's batch axes of extent one being read at 0. */
  lemma ProductEntry(l: LoraTensor, batch: seq<nat>, p: nat, c: nat)
    requires WellFormed(l) && InShape(Shape(l), batch + [p, c])
    ensures At(Product(l), batch + [p, c]) == Dot(TermsOfB(l, batch, p, c), TermsOfA(l, batch, p, c))
  {
    hide Prod, At, Dot, Product;
    var idx := batch + [p, c];
    ProductAtIndex(l, idx);
    BroadcastInShape(l, idx);
    assert Front(idx) == batch + [p] && Front(Front(idx)) == batch && Last(idx) == c;
    var (u, v) := (TermsOfB(l, batch, p, c), TermsOfA(l, batch, p, c));
    var at := BatchOfA(ALead(l), batch);
    assert at == Broadcast(ALead(l), batch);
    forall q: nat | q < Rank(l)
      ensures RowAt(l.b, batch + [p])[q] == u[q]
    {
      assert batch + [p] + [q] == batch + [p, q];
    }
    assert RowAt(l.b, batch + [p]) == u;
    assert ColumnAt(l.a, at, c) == v;
  }

  /** A pair of rank two, written out. */
  lemma ProductOfTwo(l: LoraTensor, p: nat, c: nat)
    requires Constructed(l) && |Shape(l)| == 2 && Rank(l) == 2 && p < l.b.shape[0] && c < l.a.shape[1]
    ensures WellFormed(l) && InShape(Shape(l), [p, c])
    ensures InShape(l.b.shape, [p, 0]) && InShape(l.b.shape, [p, 1]) && InShape(l.a.shape, [0, c]) && InShape(l.a.shape, [1, c])
    ensures At(Product(l), [p, c]) == At(l.b, [p, 0]) * At(l.a, [0, c]) + At(l.b, [p, 1]) * At(l.a, [1, c])
  {
    hide Prod, At, Dot, Product, ProductAt;
    NoBatch(p, c);
    ProductEntry(l, [], p, c);
    TwoOfB(l, p, c, TermsOfB(l, [], p, c));
    TwoOfA(l, p, c, TermsOfA(l, [], p, c));
    DotOfTwo(At(l.b, [p, 0]), At(l.b, [p, 1]), At(l.a, [0, c]), At(l.a, [1, c]));
  }

  lemma TwoOfB(l: LoraTensor, p: nat, c: nat, u: seq<real>)
    requires WellFormed(l) && |Shape(l)| == 2 && Rank(l) == 2 && InShape(Shape(l), [] + [p, c]) && u == TermsOfB(l, [], p, c)
    ensures InShape(l.b.shape, [p, 0]) && InShape(l.b.shape, [p, 1]) && u == [At(l.b, [p, 0]), At(l.b, [p, 1])]
  {
    assert l.b.Valid();
    hide Prod, At, TermsOfB, InShape, WellFormed, Constructed, BatchOfA;
    NoBatch(p, 0);
    NoBatch(p, 1);
    var zero: nat, one: nat := 0, 1;
    assert u[zero] == At(l.b, [] + [p, zero]) && u[one] == At(l.b, [] + [p, one]);
  }

  lemma TwoOfA(l: LoraTensor, p: nat, c: nat, v: seq<real>)
    requires WellFormed(l) && |Shape(l)| == 2 && Rank(l) == 2 && InShape(Shape(l), [] + [p, c]) && v == TermsOfA(l, [], p, c)
    ensures InShape(l.a.shape, [0, c]) && InShape(l.a.shape, [1, c]) && v == [At(l.a, [0, c]), At(l.a, [1, c])]
  {
    assert BatchOfA(ALead(l), []) == [];
    hide Prod, At, TermsOfA, InShape, WellFormed, Constructed, BatchOfA;
    NoBatch(0, c);
    NoBatch(1, c);
    var zero: nat, one: nat := 0, 1;
    assert v[zero] == At(l.a, [] + [zero, c]) && v[one] == At(l.a, [] + [one, c]);
  }

  lemma NoBatch(x: nat, y: nat)
    ensures [] + [x, y] == [x, y]
  {
  }

  lemma DotOfTwo(x: real, y: real, v: real, w: real)
    ensures Dot([x, y], [v, w]) == x * v + y * w
  {
    hide Dot;
    DotIs([], [], x, v);
    DotIs([x], [v], y, w);
    assert [] + [x] == [x] && [x] + [y] == [x, y] && [] + [v] == [v] && [v] + [w] == [v, w];
  }
}
