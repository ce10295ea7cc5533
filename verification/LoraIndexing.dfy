/**
  How exact the condition on index tuples is: where the two readings select differently, some pair
  of the same shapes tells them apart.
 */
module LoraIndexing {
  import opened Wrappers
  import opened Tensors
  import opened Lora

  // ---------------------------------------------------------------- what a tuple drops

  /** The integers of a tuple, or its lists. */
  function Count(items: seq<Item>, lists: bool): nat {
    if items == [] then 0
    else Count(Front(items), lists) + (if (if lists then Last(items).List? else Last(items).Int?) then 1 else 0)
  }

  lemma {:induction false} CountIsLists(items: seq<Item>)
    ensures Count(items, true) == CountLists(items)
  {
    if items != [] {
      CountIsLists(Front(items));
    }
  }

  lemma {:induction false} CountAppend(x: seq<Item>, y: seq<Item>, lists: bool)
    ensures Count(x + y, lists) == Count(x, lists) + Count(y, lists)
  {
    if y == [] {
      assert x + y == x;
    } else {
      assert Front(x + y) == x + Front(y);
      CountAppend(x, Front(y), lists);
    }
  }

  lemma {:induction false} CountFulls(n: nat, lists: bool)
    ensures Count(Fulls(n), lists) == 0
  {
    if n > 0 {
      assert Front(Fulls(n)) == Fulls(n - 1);
      CountFulls(n - 1, lists);
    }
  }

  lemma {:induction false} CountSpliced(items: seq<Item>, n: nat, lists: bool)
    ensures Count(SpliceEllipsis(items, n), lists) == Count(items, lists)
  {
    hide Fulls;
    if items != [] {
      CountSpliced(Front(items), n, lists);
      CountFulls(n, lists);
      CountAppend(SpliceEllipsis(Front(items), n), if Last(items).Ellipsis? then Fulls(n) else [Last(items)], lists);
      assert Front([Last(items)]) == [];
    }
  }

  lemma {:induction false} CountOfPair(items: seq<Item>, rank: nat, lists: bool)
    requires LoraExpand(items, rank).Ok?
    ensures Count(LoraExpand(items, rank).value, lists) == Count(items, lists)
    decreases |items|
  {
    hide SpliceEllipsis, Fulls;
    if Last(items).Ellipsis? {
      CountOfPair(Front(items), rank, lists);
    } else {
      var spliced := SpliceEllipsis(items, |items| - 1);
      var n := if |spliced| < rank then rank - |spliced| else 0;
      CountSpliced(items, |items| - 1, lists);
      CountFulls(n, lists);
      CountAppend(spliced, Fulls(n), lists);
    }
  }

  lemma CountOfDense(items: seq<Item>, rank: nat, lists: bool)
    requires DenseExpand(items, rank).Ok?
    ensures Count(DenseExpand(items, rank).value, lists) == Count(items, lists)
  {
    hide SpliceEllipsis, Fulls;
    var n := rank - (|items| - CountEllipsis(items));
    CountFulls(n, lists);
    CountAppend(items, Fulls(n), lists);
    CountSpliced(items, n, lists);
  }

  /** Each integer drops an axis, and all lists but one do. */
  function Dropped(items: seq<Item>): nat {
    Count(items, false) + (if Count(items, true) > 1 then Count(items, true) - 1 else 0)
  }

  lemma {:induction false} SelectedRank(items: seq<Item>, sels: seq<Selector>)
    requires KindsFit(items, sels)
    ensures |SelectedShape(sels)| == |items| - Count(items, false)
  {
    if items != [] {
      assert Last(items).Int? <==> Last(sels).Pick?;
      SelectedRank(Front(items), Front(sels));
    }
  }

  lemma {:induction false} SpanCount(items: seq<Item>, sels: seq<Selector>)
    requires KindsFit(items, sels)
    ensures CountSpans(items) == |items| - Count(items, false) - Count(items, true)
  {
    if items != [] {
      assert !Last(items).Ellipsis?;
      SpanCount(Front(items), Front(sels));
    }
  }

  lemma IndexRank(t: Tensor<real>, items: seq<Item>)
    requires t.Valid() && Index(t, items).Ok?
    ensures |items| == |t.shape| && |Index(t, items).value.shape| == |items| - Dropped(items)
  {
    hide ResolveAll, Select, SelectTogether, SelectedShape, KindsFit, CountLists, CountSpans, CommonLength, ListsFit;
    var sels := ResolveAll(items, t.shape).value;
    ResolvedKinds(items, t.shape);
    CountIsLists(items);
    SelectedRank(items, sels);
    SpanCount(items, sels);
  }

  /** What A's batch axes are indexed with has the same integers and no lists. */
  lemma {:induction false} LeadCounts(items: seq<Item>, lead: seq<nat>)
    requires |items| == |lead| && LeadItems(items, lead).Ok?
    ensures Count(LeadItems(items, lead).value, false) == Count(items, false)
    ensures Count(LeadItems(items, lead).value, true) == 0
  {
    if items != [] {
      LeadCounts(Front(items), Front(lead));
      var all := LeadItems(items, lead).value;
      assert Front(all) == LeadItems(Front(items), Front(lead)).value;
    }
  }

  lemma CountLast(e: seq<Item>, lists: bool)
    requires e != []
    ensures Count(e, lists) == Count(Front(e), lists) + (if (if lists then Last(e).List? else Last(e).Int?) then 1 else 0)
  {
  }

  /** The axes that an accepted index leaves the pair. */
  lemma PairRank(l: LoraTensor, items: seq<Item>)
    requires Constructed(l) && LoraIndex(l, items).Ok?
    ensures var (n, e, l') := (|Shape(l)|, LoraExpand(items, |Shape(l)|).value, LoraIndex(l, items).value);
            && LoraExpand(items, n).Ok? && |e| == n
            && |Shape(l')| == n - Dropped(Front(e))
            && |Shape(l')| == n - Count(e[..n - 2], false) - (if Last(e).Int? then 1 else 0)
  {
    hide LoraExpand, LeadItems, Index, Count;
    var n := |Shape(l)|;
    var e := LoraExpand(items, n).value;
    var lead := LeadItems(e[..n - 2], ALead(l)).value;
    LeadCounts(e[..n - 2], ALead(l));
    IndexRank(l.a, lead + [FULL, Last(e)]);
    IndexRank(l.b, Front(e) + [FULL]);
    OneFullMore(Front(e));
    ItemsOfA(lead, Last(e));
  }

  lemma OneFullMore(front: seq<Item>)
    ensures Dropped(front + [FULL]) == Dropped(front)
  {
    assert Front(front + [FULL]) == front;
  }

  lemma ItemsOfA(lead: seq<Item>, last: Item)
    requires Count(lead, true) == 0
    ensures Dropped(lead + [FULL, last]) == Count(lead, false) + (if last.Int? then 1 else 0)
  {
    hide Count;
    CountAppend(lead, [FULL, last], false);
    CountAppend(lead, [FULL, last], true);
    CountOfTwo(last, false);
    CountOfTwo(last, true);
  }

  lemma CountOfTwo(last: Item, lists: bool)
    ensures Count([FULL, last], lists) == if (if lists then last.List? else last.Int?) then 1 else 0
  {
    assert Front([FULL]) == [] && Count([FULL], lists) == 0;
    assert Front([FULL, last]) == [FULL] && Last([FULL, last]) == last;
  }

  /** The axes that an accepted index leaves the pair beyond those of the dense result, however that is read. */
  lemma RankBeyond(l: LoraTensor, items: seq<Item>, t: Tensor<real>)
    requires Constructed(l) && LoraIndex(l, items).Ok?
    requires t.Valid() && t.shape == Shape(l) && DenseIndex(t, items).Ok?
    ensures var e := LoraExpand(items, |Shape(l)|).value;
            && e != [] && DenseExpand(items, |Shape(l)|).Ok?
            && |Shape(LoraIndex(l, items).value)| - |DenseIndex(t, items).value.shape|
               == (if Last(e).Int? then 1 else 0) + (if Last(e).List? && CountLists(e) > 1 then 1 else 0)
            && (CountLists(e) > 1 ==> Last(e).Int? || Last(e).List?)
  {
    hide LoraExpand, DenseExpand, LoraIndex, Index, Count, CountLists;
    var n := |Shape(l)|;
    PairRank(l, items);
    var e, d := LoraExpand(items, n).value, DenseExpand(items, n).value;
    IndexRank(t, d);
    CountOfPair(items, n, false);
    CountOfPair(items, n, true);
    CountOfDense(items, n, false);
    CountOfDense(items, n, true);
    CountIsLists(e);
    CountLast(e, false);
    CountLast(e, true);
    CountLast(Front(e), false);
    assert Front(Front(e)) == e[..n - 2];
  }

  /** An integer on the last axis always leaves the pair one axis more than the dense result, however that is read. */
  lemma TrailingIntegerDiffers(l: LoraTensor, items: seq<Item>)
    requires WellFormed(l) && LoraIndex(l, items).Ok? && Last(LoraExpand(items, |Shape(l)|).value).Int?
    requires DenseIndex(Product(l), items).Ok?
    ensures |DenseIndex(Product(l), items).value.shape| + 1 == |Shape(LoraIndex(l, items).value)|
  {
    hide LoraExpand, LoraIndex, DenseIndex, Product, CountLists;
    RankBeyond(l, items, Product(l));
  }

  /** Several lists, which the pair reads apart and the dense index together, always leave it at least one axis more. */
  lemma SeveralListsDiffer(l: LoraTensor, items: seq<Item>)
    requires WellFormed(l) && LoraIndex(l, items).Ok? && CountLists(LoraExpand(items, |Shape(l)|).value) > 1
    requires DenseIndex(Product(l), items).Ok?
    ensures |DenseIndex(Product(l), items).value.shape| + 1 == |Shape(LoraIndex(l, items).value)|
  {
    hide LoraExpand, LoraIndex, DenseIndex, Product, CountLists;
    RankBeyond(l, items, Product(l));
  }

  // ---------------------------------------------------------------- a product with a single one

  function UnitData(n: nat, at: int): (r: seq<real>)
    ensures |r| == n
  {
    seq(n, i requires 0 <= i < n => if i == at then 1.0 else 0.0)
  }

  /** The pair of the same shapes whose product is one in row p, column c and zero elsewhere. */
  function UnitPair(l: LoraTensor, p: nat, c: nat): (u: LoraTensor)
    requires Unbatched(l)
    ensures Unbatched(u) && u.a.shape == l.a.shape && u.b.shape == l.b.shape
  {
    LoraTensor(Tensor(l.a.shape, UnitData(|l.a.data|, c)), Tensor(l.b.shape, UnitData(|l.b.data|, p * Rank(l))))
  }

  lemma {:induction false} DotZero(u: seq<real>, v: seq<real>)
    requires |u| == |v|
    requires (forall i :: 0 <= i < |u| ==> u[i] == 0.0) || (forall i :: 0 <= i < |v| ==> v[i] == 0.0)
    ensures Dot(u, v) == 0.0
  {
    if u != [] {
      DotZero(Front(u), Front(v));
    }
  }

  lemma {:induction false} DotUnit(u: seq<real>, v: seq<real>)
    requires |u| == |v| > 0 && u[0] == v[0] == 1.0 && forall i :: 0 < i < |u| ==> u[i] == 0.0
    ensures Dot(u, v) == 1.0
  {
    if |u| == 1 {
      assert Dot(Front(u), Front(v)) == 0.0;
    } else {
      DotUnit(Front(u), Front(v));
    }
  }

  /** Where a row-major index equals the start of row p. */
  lemma RowStart(p: nat, row: nat, q: nat, width: nat)
    requires q < width
    ensures row * width + q == p * width <==> row == p && q == 0
  {
    Offset(row, q, row + 1, width);
    Offset(p, 0, p + 1, width);
  }

  lemma FirstRow(c: nat, q: nat, column: nat, width: nat)
    requires c < width && column < width
    ensures q * width + column == c <==> q == 0 && column == c
  {
    Offset(q, column, q + 1, width);
    Offset(0, c, 1, width);
  }

  lemma UnitCell(l: LoraTensor, p: nat, c: nat, row: nat, column: nat)
    requires Unbatched(l) && Rank(l) > 0 && p < Rows(l.b) && c < Width(l.a) && row < Rows(l.b) && column < Width(l.a)
    ensures var u := UnitPair(l, p, c);
            && WellFormed(u) && row < Rows(Product(u)) && column < Width(Product(u))
            && Cell(Product(u), row, column) == if row == p && column == c then 1.0 else 0.0
  {
    hide Prod, Product, Cell;
    var u := UnitPair(l, p, c);
    ProductCell(u, row, column);
    UnitRow(l, p, c, row);
    UnitColumn(l, p, c, column);
    if row == p && column == c {
      DotUnit(RowOf(u.b, row), ColumnOf(u.a, column));
    } else {
      DotZero(RowOf(u.b, row), ColumnOf(u.a, column));
    }
  }

  lemma CellData(t: Tensor<real>, p: nat, q: nat)
    requires t.Valid() && t.shape != [] && p < Rows(t) && q < Width(t)
    ensures 0 <= p * Width(t) + q < |t.data| && Cell(t, p, q) == t.data[p * Width(t) + q]
  {
    hide Prod;
    UnflatRow(t.shape, p, q);
  }

  lemma UnitRow(l: LoraTensor, p: nat, c: nat, row: nat)
    requires Unbatched(l) && p < Rows(l.b) && row < Rows(l.b)
    ensures var u := UnitPair(l, p, c);
            forall q :: 0 <= q < Rank(l) ==> RowOf(u.b, row)[q] == if row == p && q == 0 then 1.0 else 0.0
  {
    hide Prod;
    var u := UnitPair(l, p, c);
    UnbatchedRows(u);
    hide Cell;
    forall q | 0 <= q < Rank(l)
      ensures RowOf(u.b, row)[q] == if row == p && q == 0 then 1.0 else 0.0
    {
      RowStart(p, row, q, Rank(l));
      CellData(u.b, row, q);
    }
  }

  lemma UnitColumn(l: LoraTensor, p: nat, c: nat, column: nat)
    requires Unbatched(l) && c < Width(l.a) && column < Width(l.a)
    ensures var u := UnitPair(l, p, c);
            && Rows(u.a) == Rank(l)
            && forall q :: 0 <= q < Rank(l) ==> ColumnOf(u.a, column)[q] == if q == 0 && column == c then 1.0 else 0.0
  {
    hide Prod;
    var u := UnitPair(l, p, c);
    UnbatchedRows(u);
    hide Cell;
    forall q | 0 <= q < Rank(l)
      ensures ColumnOf(u.a, column)[q] == if q == 0 && column == c then 1.0 else 0.0
    {
      FirstRow(c, q, column, Width(l.a));
      CellData(u.a, q, column);
    }
  }

  // ---------------------------------------------------------------- main result

  /** The pair accepts the index and multiplies out to the dense index of the product. */
  ghost predicate IndexesAlike(l: LoraTensor, items: seq<Item>)
    requires Unbatched(l)
  {
    UnbatchedRows(l);
    && LoraIndex(l, items).Ok? && WellFormed(LoraIndex(l, items).value)
    && DenseIndex(Product(l), items) == Ok(Product(LoraIndex(l, items).value))
  }

  /** Pairs of one shape. */
  ghost predicate ShapedLike(l: LoraTensor, k: LoraTensor) {
    Unbatched(l) && l.a.shape == k.a.shape && l.b.shape == k.b.shape
  }

  lemma DenseChosen(t: Tensor<real>, items: seq<Item>)
    requires t.Valid()
    ensures var (e, d) := (DenseExpand(items, |t.shape|), Chosen(DenseExpand(items, |t.shape|), t.shape));
            && (d.Ok? ==> DenseIndex(t, items) == Ok(Select(t, d.value)))
            && (e.Ok? && CountLists(e.value) <= 1 && d.Err? ==> DenseIndex(t, items).Err?)
  {
    hide DenseExpand, ResolveAll, CountLists, Select, KindsFit, CommonLength, ListsFit, SelectTogether;
  }

  /** Row and column of a place in the data. */
  function RowIndex(k: nat, width: nat): nat
    requires width > 0
  {
    k / width
  }

  function ColumnIndex(k: nat, width: nat): (c: nat)
    requires width > 0
    ensures c < width
  {
    k % width
  }

  lemma ProductSplit(l: LoraTensor, one: nat)
    requires Unbatched(l) && one < Prod(Shape(l))
    ensures Width(l.a) > 0 && RowIndex(one, Width(l.a)) < Rows(l.b)
  {
    hide Prod;
    var w := Width(l.a);
    assert Shape(l) == Front(l.b.shape) + [w];
    RowSplit(Front(l.b.shape), w);
    Quotient(one, Rows(l.b), w);
  }

  lemma SamePlace(k: nat, one: nat, w: nat)
    requires w > 0
    ensures RowIndex(k, w) == RowIndex(one, w) && ColumnIndex(k, w) == ColumnIndex(one, w) <==> k == one
  {
    assert k == k / w * w + k % w && one == one / w * w + one % w;
  }

  /** An entry of the product, by its place in the data. */
  lemma EntryCell(l: LoraTensor, k: nat)
    requires Unbatched(l) && k < Prod(Shape(l))
    ensures WellFormed(l) && Width(l.a) > 0 && RowIndex(k, Width(l.a)) < Rows(l.b) && k < |Product(l).data|
    ensures RowIndex(k, Width(l.a)) < Rows(Product(l)) && ColumnIndex(k, Width(l.a)) < Width(Product(l))
    ensures Product(l).data[k] == Cell(Product(l), RowIndex(k, Width(l.a)), ColumnIndex(k, Width(l.a)))
  {
    hide Prod, Product, Cell;
    var w := Width(l.a);
    UnbatchedRows(l);
    assert Shape(l) == Front(l.b.shape) + [w] && Front(Shape(l)) == Front(l.b.shape);
    RowSplit(Front(l.b.shape), w);
    Quotient(k, Rows(l.b), w);
    CellData(Product(l), RowIndex(k, w), ColumnIndex(k, w));
  }

  /** The entries of the product with a single one, as the data are laid out. */
  lemma UnitEntry(l: LoraTensor, one: nat, k: nat)
    requires Unbatched(l) && Rank(l) > 0 && one < Prod(Shape(l)) && k < Prod(Shape(l)) && Width(l.a) > 0
    ensures RowIndex(one, Width(l.a)) < Rows(l.b)
    ensures var u := UnitPair(l, RowIndex(one, Width(l.a)), ColumnIndex(one, Width(l.a)));
            WellFormed(u) && k < |Product(u).data| && Product(u).data[k] == if k == one then 1.0 else 0.0
  {
    hide Prod, Product, Cell, Rows, UnitPair, RowIndex, ColumnIndex;
    var w := Width(l.a);
    ProductSplit(l, one);
    ProductSplit(l, k);
    var u := UnitPair(l, RowIndex(one, w), ColumnIndex(one, w));
    assert Shape(u) == Shape(l);
    EntryCell(u, k);
    UnitCell(l, RowIndex(one, w), ColumnIndex(one, w), RowIndex(k, w), ColumnIndex(k, w));
    SamePlace(k, one, w);
  }

  /** Selections that read different positions are told apart by some product. */
  lemma ToldApart(l: LoraTensor, s: seq<Selector>, t: seq<Selector>) returns (u: LoraTensor)
    requires Unbatched(l) && Rank(l) > 0 && SelectorsFit(s, Shape(l)) && SelectorsFit(t, Shape(l))
    requires SelectedShape(s) == SelectedShape(t) && !SameSelection(s, t, Shape(l))
    ensures ShapedLike(u, l) && WellFormed(u) && Select(Product(u), s) != Select(Product(u), t)
  {
    hide Prod, Product, SelectSource, UnitPair, RowIndex, ColumnIndex;
    var shape := Shape(l);
    var k: nat :| k < Prod(SelectedShape(s)) && SelectSource(shape, s, k) != SelectSource(shape, t, k);
    var from, other := SelectSource(shape, s, k), SelectSource(shape, t, k);
    ProductSplit(l, from);
    u := UnitPair(l, RowIndex(from, Width(l.a)), ColumnIndex(from, Width(l.a)));
    UnitEntry(l, from, from);
    UnitEntry(l, from, other);
    assert Shape(u) == shape;
    assert Select(Product(u), s).data[k] == Product(u).data[from];
    assert Select(Product(u), t).data[k] == Product(u).data[other];
  }

  lemma SelectedShapes(t: Tensor<real>, s: seq<Selector>)
    requires t.Valid() && SelectorsFit(s, t.shape)
    ensures Select(t, s).shape == SelectedShape(s)
  {
  }

  lemma IndexShape(t: Tensor<real>, u: Tensor<real>, items: seq<Item>)
    requires t.Valid() && u.Valid() && t.shape == u.shape && Index(t, items).Ok?
    ensures Index(u, items).Ok? && Index(u, items).value.shape == Index(t, items).value.shape
  {
    hide ResolveAll, CountLists, SelectSource, Prod;
  }

  /** The pair accepts the index or not by its shapes alone. */
  lemma AcceptedByShape(l: LoraTensor, k: LoraTensor, items: seq<Item>)
    requires Unbatched(l) && ShapedLike(k, l) && LoraIndex(l, items).Ok?
    ensures LoraIndex(k, items).Ok?
  {
    hide LoraExpand, LeadItems, Index, Prod;
    assert Shape(k) == Shape(l) && ALead(k) == ALead(l);
    var rank := |Shape(l)|;
    var e := LoraExpand(items, rank).value;
    var lead := LeadItems(e[..rank - 2], ALead(l)).value;
    IndexShape(l.a, k.a, lead + [FULL, Last(e)]);
    IndexShape(l.b, k.b, Front(e) + [FULL]);
  }

  lemma PairChosen(l: LoraTensor, items: seq<Item>)
    requires Unbatched(l) && LoraIndex(l, items).Ok?
    requires var e := LoraExpand(items, |Shape(l)|); !Last(e.value).Int? && CountLists(e.value) <= 1
    ensures var s := Chosen(LoraExpand(items, |Shape(l)|), Shape(l));
            && WellFormed(l) && WellFormed(LoraIndex(l, items).value)
            && s.Ok? && Product(LoraIndex(l, items).value) == Select(Product(l), s.value)
  {
    PairReading(l, items);
    hide LoraExpand, LoraIndex, ResolveAll, CountLists, Product, Select;
  }

  /**
    Of all index tuples that pairs of some shape accept: the pair's index multiplies out to the
    dense index for every pair of that shape, the inner extent being positive, if and only if the
    two readings of the tuple select the same positions.
   */
  lemma IndexExact(l: LoraTensor, items: seq<Item>)
    requires Unbatched(l) && Rank(l) > 0 && LoraIndex(l, items).Ok?
    ensures (forall k: LoraTensor | ShapedLike(k, l) :: IndexesAlike(k, items)) <==> ReadsAlike(items, Shape(l))
  {
    hide LoraExpand, DenseExpand, LoraIndex, DenseIndex, Chosen, ReadsAlike, Product, Select, SameSelection, CountLists;
    if ReadsAlike(items, Shape(l)) {
      forall k: LoraTensor | ShapedLike(k, l)
        ensures IndexesAlike(k, items)
      {
        AcceptedByShape(l, k, items);
        assert Shape(k) == Shape(l);
        IndexStep(k, items);
      }
    } else {
      var k := Apart(l, items);
    }
  }

  /** A pair of the shape on which an index read differently differs. */
  lemma Apart(l: LoraTensor, items: seq<Item>) returns (k: LoraTensor)
    requires Unbatched(l) && Rank(l) > 0 && LoraIndex(l, items).Ok? && !ReadsAlike(items, Shape(l))
    ensures ShapedLike(k, l) && !IndexesAlike(k, items)
  {
    hide LoraExpand, DenseExpand, LoraIndex, DenseIndex, Chosen, Product, Select, SameSelection, CountLists, UnitPair;
    k := l;
    UnbatchedRows(l);
    AcceptedNotEmpty(l, items);
    var shape := Shape(l);
    var e := LoraExpand(items, |shape|).value;
    DenseChosen(Product(l), items);
    if DenseIndex(Product(l), items).Ok? {
      RankBeyond(l, items, Product(l));
      if !Last(e).Int? && CountLists(e) <= 1 {
        DenseLists(items, |shape|);
        PairChosen(l, items);
        var s := Chosen(LoraExpand(items, |shape|), shape).value;
        var t := Chosen(DenseExpand(items, |shape|), shape).value;
        SelectedShapes(Product(l), s);
        SelectedShapes(Product(l), t);
        if SelectedShape(s) == SelectedShape(t) {
          k := ToldApart(l, s, t);
          UnbatchedRows(k);
          assert Shape(k) == shape;
          AcceptedByShape(l, k, items);
          PairChosen(k, items);
          DenseChosen(Product(k), items);
        }
      }
    }
  }

  lemma DenseLists(items: seq<Item>, rank: nat)
    requires LoraExpand(items, rank).Ok? && DenseExpand(items, rank).Ok?
    ensures CountLists(DenseExpand(items, rank).value) == CountLists(LoraExpand(items, rank).value)
  {
    hide LoraExpand, DenseExpand, CountLists, Count;
    CountOfPair(items, rank, true);
    CountOfDense(items, rank, true);
    CountIsLists(LoraExpand(items, rank).value);
    CountIsLists(DenseExpand(items, rank).value);
  }

  lemma AcceptedNotEmpty(l: LoraTensor, items: seq<Item>)
    requires Unbatched(l) && LoraIndex(l, items).Ok?
    ensures LoraExpand(items, |Shape(l)|).Ok? && LoraExpand(items, |Shape(l)|).value != []
  {
    hide LoraExpand, LeadItems, Index;
  }
}
