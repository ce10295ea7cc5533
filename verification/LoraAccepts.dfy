/** On which inputs the operations on a low-rank pair succeed. */
module LoraAccepts {
  import opened Wrappers
  import opened Tensors
  import opened Lora
  import opened LoraBatches
  import opened LoraIndexing
  import opened LoraLeads
  import opened TensorEntries

  /** A pair is made iff the ranks are equal and at least two, and A's last extent but one is B's last. */
  lemma MakeAccepted(a: Tensor<real>, b: Tensor<real>)
    requires a.Valid() && b.Valid()
    ensures MakeLora(a, b).Ok? <==>
              |a.shape| == |b.shape| && |a.shape| >= 2 && a.shape[|a.shape| - 2] == b.shape[|b.shape| - 1]
  {
  }

  /** A reshape is accepted iff it names two extents or more, keeps the last one and fits B's rows, and A is a matrix but for its shape. */
  lemma ReshapeAccepted(l: LoraTensor, dims: seq<int>)
    requires Constructed(l)
    ensures LoraReshape(l, dims).Ok? <==>
              && |dims| >= 2 && |l.a.data| == Cells(Rank(l), Width(l.a))
              && ExpandShape(Prod(Shape(l)), dims).Ok?
              && var e := ExpandShape(Prod(Shape(l)), dims).value;
                 Last(e) == Width(l.a) && Reshape(l.b, Front(e) + [Rank(l)]).Ok?
  {
    hide Prod, Reshape, ResolveShape, ExpandShape, CountInferred, Cells;
    if |dims| >= 2 && ExpandShape(Prod(Shape(l)), dims).Ok? {
      var e := ExpandShape(Prod(Shape(l)), dims).value;
      ReshapedA(l, |dims| - 2);
      if |l.a.data| == Cells(Rank(l), Width(l.a)) && Last(e) == Width(l.a) && Reshape(l.b, Front(e) + [Rank(l)]).Ok? {
        var to := Front(e) + [Rank(l)];
        ExpandedNonNegative(Prod(Shape(l)), dims);
        assert e == Front(e) + [Last(e)];
        CountInferredSplit(Front(e), Last(e));
        CountInferredSplit(Front(e), Rank(l));
        ReshapeExact(l.b, to);
      }
    }
  }

  function Cells(r: nat, w: nat): nat {
    r * w
  }

  lemma ReshapedA(l: LoraTensor, n: nat)
    requires Constructed(l)
    ensures var to := Ones(n) + [Rank(l), Last(Shape(l))];
            && (Reshape(l.a, to).Ok? <==> |l.a.data| == Cells(Rank(l), Width(l.a)))
            && (Reshape(l.a, to).Ok? ==> Reshape(l.a, to).value.shape == to)
  {
    hide Prod, CountInferred, KnownProd, ExpandShape, ResolveShape;
    var (ones, r, w) := (seq<nat>(n, i => 1), Rank(l), Width(l.a));
    var to: seq<int> := Ones(n) + [r, w];
    var shape: seq<nat> := ones + [r] + [w];
    assert shape == to;
    OnesProd(ones);
    ShapeRows(ones, r);
    ShapeRows(ones + [r], w);
    assert Prod(shape) == Cells(r, w);
    NoneInferred(to);
    ReshapeEntry(l.a, to);
    if Reshape(l.a, to).Ok? {
      ReshapeExact(l.a, to);
      SameShape(Reshape(l.a, to).value.shape, shape, to);
    } else if |l.a.data| == Cells(r, w) {
      assert Matches(shape, to) && Prod(shape) == |l.a.data|;
      MatchedReshape(l.a, to, shape);
    }
  }

  lemma SameShape(s: seq<nat>, t: seq<nat>, to: seq<int>)
    requires s == to && t == to
    ensures s == t
  {
    assert |s| == |t| && forall i :: 0 <= i < |s| ==> s[i] == t[i];
  }

  /** What the pair makes of the dimensions: those that are not negative are counted from the end. */
  function FromLast(dims: seq<int>, n: nat): (neg: seq<int>)
    ensures |neg| == |dims| && forall i :: 0 <= i < |dims| ==> neg[i] == if dims[i] >= 0 then dims[i] - n else dims[i]
  {
    seq(|dims|, i requires 0 <= i < |dims| => if dims[i] >= 0 then dims[i] - n else dims[i])
  }

  /**
    A permute is accepted iff it then names every axis once, and either the last one is left in
    place, by its negative number, and A is not batched, or the two axes of a matrix are swapped.
   */
  lemma PermuteAccepted(l: LoraTensor, dims: seq<int>)
    requires Constructed(l)
    ensures var (n, neg) := (|Shape(l)|, FromLast(dims, |Shape(l)|));
            LoraPermute(l, dims).Ok? <==>
              && |dims| == n && DimsInRange(neg, n) && Different(neg)
              && ((neg[n - 1] == -1 && forall i :: 0 <= i < n - 2 ==> l.a.shape[i] == 1) || neg == [-1, -2])
  {
    hide Permute, DimsInRange, Different, NegativeDims, AllOnes, LoraPermute;
    var (n, neg) := (|Shape(l)|, FromLast(dims, |Shape(l)|));
    LeadOnes(l);
    PermuteAllowed(l.b.shape, l.b, neg);
    if neg == [] {
      NothingNamed(l, dims);
    } else if neg[|neg| - 1] == -1 {
      RowsCase(l, dims, neg);
    } else {
      PermuteAllowed(l.a.shape, l.a, neg);
      SwapCase(l, dims, neg);
    }
  }

  lemma PermuteAllowed(shape: seq<nat>, t: Tensor<real>, neg: seq<int>)
    requires t.Valid() && t.shape == shape
    ensures Permute(t, neg).Ok? <==> |neg| == |shape| && DimsInRange(neg, |shape|) && Different(neg)
  {
    hide Permute, DimsInRange, Different;
    PermuteEntry(t, neg);
  }

  lemma NothingNamed(l: LoraTensor, dims: seq<int>)
    requires Constructed(l) && dims == []
    ensures LoraPermute(l, dims).Err?
  {
  }

  lemma RowsCase(l: LoraTensor, dims: seq<int>, neg: seq<int>)
    requires Constructed(l) && neg == FromLast(dims, |Shape(l)|) && neg != [] && neg[|neg| - 1] == -1
    ensures LoraPermute(l, dims).Ok? <==> AllOnes(ALead(l)) && Permute(l.b, neg).Ok?
  {
    hide Permute, AllOnes, MakeLora, NegativeDims;
    SameNegatives(dims, |Shape(l)|);
    PermuteAllowed(l.b.shape, l.b, neg);
    if Permute(l.b, neg).Ok? {
      RowsPermuted(l, neg);
    }
  }

  lemma SwapCase(l: LoraTensor, dims: seq<int>, neg: seq<int>)
    requires Constructed(l) && neg == FromLast(dims, |Shape(l)|) && neg != [] && neg[|neg| - 1] != -1
    ensures LoraPermute(l, dims).Ok? <==> neg == [-1, -2] && |Shape(l)| == 2 && Permute(l.b, neg).Ok? && Permute(l.a, neg).Ok?
  {
    hide Permute, AllOnes, MakeLora, NegativeDims;
    SameNegatives(dims, |Shape(l)|);
    if neg == [-1, -2] && |Shape(l)| == 2 && Permute(l.b, neg).Ok? && Permute(l.a, neg).Ok? {
      FactorsPermuted(l, neg);
    }
    if LoraPermute(l, dims).Ok? {
      OfRankTwo(l.b, neg);
    }
  }

  /** A permute that succeeds names as many axes as there are. */
  lemma OfRankTwo(t: Tensor<real>, neg: seq<int>)
    requires t.Valid() && |t.shape| == 2 && |neg| >= 2 && neg[|neg| - 1] == -2 && neg[|neg| - 2] == -1 && Permute(t, neg).Ok?
    ensures neg == [-1, -2]
  {
  }

  lemma LeadOnes(l: LoraTensor)
    requires Constructed(l)
    ensures AllOnes(ALead(l)) <==> forall i :: 0 <= i < |Shape(l)| - 2 ==> l.a.shape[i] == 1
  {
    assert forall i :: 0 <= i < |Shape(l)| - 2 ==> ALead(l)[i] == l.a.shape[i];
  }

  lemma SameNegatives(dims: seq<int>, n: nat)
    ensures NegativeDims(dims, n) == FromLast(dims, n)
  {
  }

  lemma RowsPermuted(l: LoraTensor, neg: seq<int>)
    requires Constructed(l) && |neg| == |Shape(l)| && neg[|neg| - 1] == -1 && Permute(l.b, neg).Ok?
    ensures MakeLora(l.a, Permute(l.b, neg).value).Ok?
  {
    PermuteEntry(l.b, neg);
  }

  lemma FactorsPermuted(l: LoraTensor, neg: seq<int>)
    requires Constructed(l) && |Shape(l)| == 2 && neg == [-1, -2] && Permute(l.b, neg).Ok? && Permute(l.a, neg).Ok?
    ensures MakeLora(Permute(l.b, neg).value, Permute(l.a, neg).value).Ok?
  {
    PermuteEntry(l.b, neg);
    PermuteEntry(l.a, neg);
    assert FromEnd(neg[0], 2) == 1 && FromEnd(neg[1], 2) == 0;
  }

  /** Transposing is permuting by two swapped axes, which may not be out of range. */
  lemma TransposeAccepted(l: LoraTensor, d0: int, d1: int)
    requires Constructed(l)
    ensures var n := |Shape(l)|;
            LoraTranspose(l, d0, d1).Ok? <==>
              && -(n as int) <= d0 < n && -(n as int) <= d1 < n
              && (n == 2 || ((FromEnd(d0, n) == n - 1) == (FromEnd(d1, n) == n - 1)
                             && forall i :: 0 <= i < n - 2 ==> l.a.shape[i] == 1))
  {
    hide LoraPermute, DimsInRange, Different;
    var n := |Shape(l)|;
    if -(n as int) <= d0 < n && -(n as int) <= d1 < n {
      var (a, b) := (FromEnd(d0, n), FromEnd(d1, n));
      var dims := SwapDims(n, d0, d1).value;
      assert forall i :: 0 <= i < n ==> dims[i] == if i == a then b else if i == b then a else i;
      var neg := FromLast(dims, n);
      PermuteAccepted(l, dims);
      SwappedDiffer(dims, n, a, b);
    }
  }

  lemma SwappedDiffer(dims: seq<int>, n: nat, a: nat, b: nat)
    requires |dims| == n && a < n && b < n && n >= 2
    requires forall i :: 0 <= i < n ==> dims[i] == if i == a then b else if i == b then a else i
    ensures DimsInRange(FromLast(dims, n), n) && Different(FromLast(dims, n))
    ensures var neg := FromLast(dims, n);
            neg[n - 1] == -1 || neg == [-1, -2] <==> (a == n - 1) == (b == n - 1) || n == 2
  {
    var neg := FromLast(dims, n);
    assert forall i :: 0 <= i < n ==> FromEnd(neg[i], n) == dims[i];
    assert neg[n - 1] == dims[n - 1] - n;
    if n == 2 && neg[1] != -1 {
      assert neg[0] == -1 && neg[1] == -2;
    }
  }

  /** A single integer or slice is accepted iff both factors accept it; of a matrix pair it concerns B alone, and may be no integer. */
  lemma GetAccepted(l: LoraTensor, item: Item)
    requires Constructed(l)
    ensures LoraGet(l, item).Ok? <==>
              if |Shape(l)| > 2 then Accepts(item, l.a.shape[0]) && Accepts(item, l.b.shape[0])
              else !item.Int? && Accepts(item, l.b.shape[0])
  {
    hide IndexFirst, Accepts, HasExtent, FirstFrom;
    IndexFirstEntry(l.a, item);
    IndexFirstEntry(l.b, item);
  }

  /** Pairs are stacked iff there are some and their As have one shape and their Bs another. */
  lemma StackAccepted(ls: seq<LoraTensor>)
    requires AllConstructed(ls)
    ensures LoraStack(ls).Ok? <==>
              ls != [] && forall i :: 0 <= i < |ls| ==> ls[i].a.shape == ls[0].a.shape && ls[i].b.shape == ls[0].b.shape
  {
    hide Stack;
    StackEntry(As(ls));
    StackEntry(Bs(ls));
  }

  /** Pairs are concatenated iff there are some, and batched As and Bs agree behind the first axis, or matrix pairs share one A. */
  lemma CatAccepted(ls: seq<LoraTensor>)
    requires AllConstructed(ls)
    ensures LoraCat(ls).Ok? <==>
              && ls != []
              && (forall i :: 0 <= i < |ls| ==> ls[i].b.shape[1..] == ls[0].b.shape[1..])
              && (if |ls[0].b.shape| > 2 then forall i :: 0 <= i < |ls| ==> ls[i].a.shape[1..] == ls[0].a.shape[1..]
                  else forall i :: 0 <= i < |ls| ==> ls[i].a == ls[0].a)
  {
    hide Cat, RowsOf, RowsBefore;
    if ls != [] {
      assert As(ls)[0] == ls[0].a && Bs(ls)[0] == ls[0].b;
      CatEntry(As(ls));
      CatEntry(Bs(ls));
      if Cat(As(ls)).Ok? && Cat(Bs(ls)).Ok? && |ls[0].b.shape| > 2 {
        InnerKept(ls[0].a.shape, Cat(As(ls)).value.shape, ls[0].b.shape, Cat(Bs(ls)).value.shape);
      }
    }
  }

  lemma InnerKept(a: seq<nat>, a': seq<nat>, b: seq<nat>, b': seq<nat>)
    requires |a| == |b| > 2 && a' != [] && b' != [] && a'[1..] == a[1..] && b'[1..] == b[1..] && a[|a| - 2] == b[|b| - 1]
    ensures |a'| == |b'| == |a| && a'[|a'| - 2] == b'[|b'| - 1]
  {
    assert a'[1..][|a| - 3] == a[1..][|a| - 3] && b'[1..][|b| - 2] == b[1..][|b| - 2];
  }

  // ---------------------------------------------------------------- index tuples

  lemma {:induction false} LeadAccepted(items: seq<Item>, lead: seq<nat>)
    requires |items| == |lead|
    ensures LeadItems(items, lead).Ok? <==> forall a :: 0 <= a < |items| && items[a].Int? ==> lead[a] > 0
    ensures LeadItems(items, lead).Ok? ==>
              var r := LeadItems(items, lead).value;
              && CountLists(r) == 0
              && forall a :: 0 <= a < |items| ==> (r[a].Int? <==> items[a].Int?) && Accepts(r[a], lead[a])
  {
    if items != [] {
      var n := |items| - 1;
      LeadAccepted(Front(items), Front(lead));
      LeadStep(items, lead);
      hide Accepts, LeadItems, CountLists;
      LeadItemAccepted(items[n], lead[n]);
      if LeadItems(items, lead).Ok? {
        var r := LeadItems(items, lead).value;
        forall a | 0 <= a < |items|
          ensures (r[a].Int? <==> items[a].Int?) && Accepts(r[a], lead[a])
        {
          if a < n {
            assert items[a] == Front(items)[a] && lead[a] == Front(lead)[a];
            assert r[a] == LeadItems(Front(items), Front(lead)).value[a];
          }
        }
      }
    }
  }

  /** The items for A's batch axes but the last, and the last. */
  lemma LeadStep(items: seq<Item>, lead: seq<nat>)
    requires items != [] && |items| == |lead|
    ensures var (n, front, r) := (|items| - 1, LeadItems(Front(items), Front(lead)), LeadItems(items, lead));
            && (r.Ok? <==> front.Ok? && (items[n].Int? ==> lead[n] > 0))
            && (r.Ok? ==>
                  && r.value == front.value + [if items[n].Int? then Int(items[n].i % lead[n]) else FULL]
                  && CountLists(r.value) == CountLists(front.value))
  {
    var front := LeadItems(Front(items), Front(lead));
    if front.Ok? {
      assert forall x :: Front(front.value + [x]) == front.value && Last(front.value + [x]) == x;
    }
  }

  lemma LeadItemAccepted(item: Item, n: nat)
    ensures Accepts(FULL, n) && (item.Int? && n > 0 ==> Accepts(Int(item.i % n), n))
  {
  }

  lemma {:induction false} SameOutAxis(x: seq<Item>, y: seq<Item>, a: nat)
    requires a <= |x| && a <= |y| && forall i :: 0 <= i < a ==> (x[i].Int? <==> y[i].Int?)
    ensures OutAxis(x, a) == OutAxis(y, a)
  {
    if a > 0 {
      SameOutAxis(x, y, a - 1);
    }
  }

  /** An item before the last, taken whole: its extent stays, and where it stands in the result. */
  lemma WholeAxis(t: Tensor<real>, items: seq<Item>, a: nat)
    requires t.Valid() && |items| == |t.shape| && CountLists(items) <= 1 && Index(t, items).Ok? && a < |items| && items[a] == FULL
    ensures var out := Index(t, items).value;
            && |out.shape| == OutAxis(items, |items|) && OutAxis(items, a) < |out.shape|
            && out.shape[OutAxis(items, a)] == t.shape[a]
  {
    hide Index, HasExtent, Accepts, CountLists, EntryFrom;
    IndexEntry(t, items);
    FullReads(t.shape[a], Index(t, items).value.shape[OutAxis(items, a)], 0);
  }

  /**
    An index tuple is accepted, several lists and integers on the last two axes left aside, iff A
    has a position for each integer on a batch axis, B accepts all items but the last, and A's last
    axis accepts that. An integer on just one of the last two axes is never accepted.
   */
  lemma IndexAccepted(l: LoraTensor, items: seq<Item>)
    requires Constructed(l) && LoraExpand(items, |Shape(l)|).Ok?
    requires var e := LoraExpand(items, |Shape(l)|).value;
             |e| == |Shape(l)| && CountLists(e) <= 1
    ensures var (e, n) := (LoraExpand(items, |Shape(l)|).value, |Shape(l)|);
            if !e[n - 2].Int? && !e[n - 1].Int? then
              LoraIndex(l, items).Ok? <==>
                && (forall a :: 0 <= a < n - 2 && e[a].Int? ==> l.a.shape[a] > 0)
                && (forall a :: 0 <= a < n - 1 ==> Accepts(e[a], l.b.shape[a]))
                && Accepts(e[n - 1], l.a.shape[n - 1])
            else (e[n - 2].Int? && e[n - 1].Int?) || LoraIndex(l, items).Err?
  {
    hide LoraExpand, LeadItems, Index, Accepts, CountLists;
    var n := |Shape(l)|;
    var e := LoraExpand(items, n).value;
    AcceptedByB(l, e);
    LeadAccepted(e[..n - 2], ALead(l));
    if LeadItems(e[..n - 2], ALead(l)).Ok? {
      var r := LeadItems(e[..n - 2], ALead(l)).value;
      AcceptedByA(l, e, r);
      if Index(l.a, r + [FULL, Last(e)]).Ok? && Index(l.b, Front(e) + [FULL]).Ok? {
        MadeOf(l, r, e);
      }
    }
  }

  lemma Cuts(e: seq<Item>)
    requires |e| >= 2
    ensures Front(e) == e[..|e| - 2] + [e[|e| - 2]] && e == e[..|e| - 2] + [e[|e| - 2]] + [Last(e)]
  {
  }

  lemma AcceptedByB(l: LoraTensor, e: seq<Item>)
    requires Constructed(l) && |e| == |Shape(l)| && CountLists(e) <= 1
    ensures CountLists(Front(e) + [FULL]) <= 1
    ensures Index(l.b, Front(e) + [FULL]).Ok? <==> forall a :: 0 <= a < |e| - 1 ==> Accepts(e[a], l.b.shape[a])
  {
    hide Index, Accepts, CountLists;
    ListsForB(e);
    AcceptsForB(l.b.shape, e);
    IndexOk(l.b, Front(e) + [FULL]);
  }

  lemma ListsForB(e: seq<Item>)
    requires |e| >= 2 && CountLists(e) <= 1
    ensures CountLists(Front(e) + [FULL]) <= 1
  {
    hide CountLists;
    Cuts(e);
    CountSplit(e[..|e| - 2], e[|e| - 2], Last(e));
    CountSplit(e[..|e| - 2], e[|e| - 2], FULL);
  }

  lemma AcceptsForB(shape: seq<nat>, e: seq<Item>)
    requires |e| == |shape| >= 1
    ensures var items := Front(e) + [FULL];
            (forall a :: 0 <= a < |items| ==> Accepts(items[a], shape[a])) <==> forall a :: 0 <= a < |e| - 1 ==> Accepts(e[a], shape[a])
  {
    hide Accepts;
    var (n, items) := (|e|, Front(e) + [FULL]);
    FullReads(shape[n - 1], 0, 0);
    assert items[n - 1] == FULL && forall a :: 0 <= a < n - 1 ==> items[a] == e[a];
  }

  lemma AcceptedByA(l: LoraTensor, e: seq<Item>, r: seq<Item>)
    requires Constructed(l) && |e| == |Shape(l)| && |r| == |e| - 2 && CountLists(e) <= 1 && CountLists(r) == 0
    requires forall a :: 0 <= a < |r| ==> Accepts(r[a], ALead(l)[a])
    ensures CountLists(r + [FULL, Last(e)]) <= 1
    ensures Index(l.a, r + [FULL, Last(e)]).Ok? <==> Accepts(Last(e), l.a.shape[|e| - 1])
  {
    hide Index, Accepts, CountLists;
    assert forall a :: 0 <= a < |r| ==> ALead(l)[a] == l.a.shape[a];
    ListsForA(r, Last(e));
    AcceptsForA(l.a.shape, r, Last(e));
    IndexOk(l.a, r + [FULL, Last(e)]);
  }

  lemma ListsForA(r: seq<Item>, last: Item)
    requires CountLists(r) == 0
    ensures CountLists(r + [FULL, last]) <= 1
  {
    hide CountLists;
    assert r + [FULL, last] == r + [FULL] + [last];
    CountSplit(r, FULL, last);
  }

  lemma AcceptsForA(shape: seq<nat>, r: seq<Item>, last: Item)
    requires |r| + 2 == |shape| && forall a :: 0 <= a < |r| ==> Accepts(r[a], shape[a])
    ensures var items := r + [FULL, last];
            (forall a :: 0 <= a < |items| ==> Accepts(items[a], shape[a])) <==> Accepts(last, shape[|shape| - 1])
  {
    hide Accepts;
    var (n, items) := (|r|, r + [FULL, last]);
    FullReads(shape[n], 0, 0);
    assert items[n] == FULL && items[n + 1] == last && forall a :: 0 <= a < n ==> items[a] == r[a];
  }

  lemma IndexOk(t: Tensor<real>, items: seq<Item>)
    requires t.Valid() && |items| == |t.shape| && CountLists(items) <= 1
    ensures Index(t, items).Ok? <==> forall a :: 0 <= a < |items| ==> Accepts(items[a], t.shape[a])
  {
    hide Index, HasExtent, Accepts, CountLists, EntryFrom, OutAxis;
    IndexEntry(t, items);
  }

  lemma MadeOf(l: LoraTensor, r: seq<Item>, e: seq<Item>)
    requires Constructed(l) && |e| == |Shape(l)| && |r| == |e| - 2
    requires forall a :: 0 <= a < |r| ==> (r[a].Int? <==> e[..|e| - 2][a].Int?)
    requires CountLists(r + [FULL, Last(e)]) <= 1 && CountLists(Front(e) + [FULL]) <= 1
    requires Index(l.a, r + [FULL, Last(e)]).Ok? && Index(l.b, Front(e) + [FULL]).Ok?
    ensures var (made, n) := (MakeLora(Index(l.a, r + [FULL, Last(e)]).value, Index(l.b, Front(e) + [FULL]).value), |e|);
            && (!e[n - 2].Int? && !e[n - 1].Int? ==> made.Ok?)
            && (e[n - 2].Int? != e[n - 1].Int? ==> made.Err?)
  {
    hide Index, CountLists, OutAxis, MakeLora;
    var (n, forA, forB) := (|Shape(l)|, r + [FULL, Last(e)], Front(e) + [FULL]);
    var (a, b, k) := (Index(l.a, forA).value, Index(l.b, forB).value, OutAxis(forA, n - 2));
    SameOutAxis(forA, forB, n - 2);
    LastAxes(forA, forB);
    WholeAxis(l.a, forA, n - 2);
    WholeAxis(l.b, forB, n - 1);
    MadeFrom(a, b, k, Last(e).Int?, e[n - 2].Int?);
  }

  /** B drops its last axis but one, A its last, or neither, or both. */
  lemma MadeFrom(a: Tensor<real>, b: Tensor<real>, k: nat, dropA: bool, dropB: bool)
    requires a.Valid() && b.Valid() && |a.shape| == k + (if dropA then 1 else 2) && |b.shape| == k + (if dropB then 1 else 2)
    requires a.shape[k] == Last(b.shape)
    ensures !dropA && !dropB ==> MakeLora(a, b).Ok?
    ensures dropA != dropB ==> MakeLora(a, b).Err?
  {
  }

  /** The last axes, where the items agree up to them and A's last but one and B's last are read whole. */
  lemma LastAxes(x: seq<Item>, y: seq<Item>)
    requires var n := |x|; n == |y| >= 2 && OutAxis(x, n - 2) == OutAxis(y, n - 2) && x[n - 2] == y[n - 1] == FULL
    ensures var (n, k) := (|x|, OutAxis(x, |x| - 2));
            && OutAxis(x, n) == k + (if x[n - 1].Int? then 1 else 2)
            && OutAxis(y, n) == OutAxis(y, n - 1) + 1 == k + (if y[n - 2].Int? then 1 else 2)
  {
  }

  // ---------------------------------------------------------------- refusals

  /** What a refused pair fails with: ranks or inner extents that differ violate an assertion, a vector has no second-last axis. */
  lemma MakeRefused(a: Tensor<real>, b: Tensor<real>)
    requires a.Valid() && b.Valid() && MakeLora(a, b).Err?
    ensures MakeLora(a, b).error == if |a.shape| == |b.shape| < 2 then BadIndex else AssertionFailed
  {
  }

  /** A refused reshape: to a vector or another row size it is not implemented, and extents that cannot be inferred violate an assertion. */
  lemma ReshapeRefused(l: LoraTensor, dims: seq<int>)
    requires Constructed(l) && LoraReshape(l, dims).Err?
    ensures |dims| < 2 ==> LoraReshape(l, dims).error == NotImplemented
    ensures |dims| >= 2 ==>
              var e := ExpandShape(Prod(Shape(l)), dims);
              && (e.Err? ==> LoraReshape(l, dims).error == AssertionFailed)
              && (e.Ok? && Last(e.value) != Width(l.a) ==> LoraReshape(l, dims).error == NotImplemented)
              && (e.Ok? && Last(e.value) == Width(l.a) ==> LoraReshape(l, dims).error != NotImplemented)
  {
    hide Prod;
  }

  /** Every extent asked for as -1 becomes the count over the product of the others, which must divide it. */
  lemma Expanded(count: nat, dims: seq<int>)
    ensures var (e, known) := (ExpandShape(count, dims), KnownProd(dims));
            if forall i :: 0 <= i < |dims| ==> dims[i] != -1 then e == Ok(dims)
            else if known <= 0 || count % known != 0 then e == Err(AssertionFailed)
            else e.Ok? && |e.value| == |dims|
                 && forall i :: 0 <= i < |dims| ==> e.value[i] == if dims[i] == -1 then count / known else dims[i]
  {
    if CountInferred(dims) == 0 {
      NoneIn(dims);
    } else {
      var k := InferredAt(dims);
      assert dims[k] == -1;
    }
  }

  /** The product of the extents that are asked for. */
  lemma KnownIs(dims: seq<int>, d: int)
    ensures KnownProd([]) == 1 && KnownProd(dims + [d]) == if d == -1 then KnownProd(dims) else KnownProd(dims) * d
  {
    assert Front(dims + [d]) == dims;
  }

  /** A refused permute: nothing named is an index error, a batched A violates an assertion, and moving the last axis is not implemented. */
  lemma PermuteRefused(l: LoraTensor, dims: seq<int>)
    requires Constructed(l) && LoraPermute(l, dims).Err?
    ensures var (n, neg) := (|Shape(l)|, FromLast(dims, |Shape(l)|));
            LoraPermute(l, dims).error
            == if dims == [] then BadIndex
               else if neg[|neg| - 1] == -1 then
                 (if forall i :: 0 <= i < n - 2 ==> l.a.shape[i] == 1 then BadDims else AssertionFailed)
               else if n == 2 && |neg| >= 2 && neg[|neg| - 1] == -2 && neg[|neg| - 2] == -1 then BadDims
               else NotImplemented
  {
    hide AllOnes;
    SameNegatives(dims, |Shape(l)|);
    LeadOnes(l);
    PermuteAccepted(l, dims);
  }

  /** A refused single index: an integer would leave a vector of a matrix, which is not implemented. */
  lemma GetRefused(l: LoraTensor, item: Item)
    requires Constructed(l) && LoraGet(l, item).Err?
    ensures |Shape(l)| == 2 && item.Int? ==> LoraGet(l, item).error == NotImplemented
    ensures |Shape(l)| > 2 || !item.Int? ==> LoraGet(l, item).error != NotImplemented
  {
    hide Sub, TakeRows;
  }

  /** A tuple that is empty but for ellipses violates an assertion, and any other refused one is an index error. */
  lemma IndexRefused(l: LoraTensor, items: seq<Item>)
    requires Constructed(l) && LoraIndex(l, items).Err?
    ensures LoraExpand(items, |Shape(l)|).Err? ==> LoraIndex(l, items).error == AssertionFailed
    ensures LoraExpand(items, |Shape(l)|).Ok? && |LoraExpand(items, |Shape(l)|).value| != |Shape(l)| ==>
              LoraIndex(l, items).error == BadIndex
  {
    hide Index, LeadItems;
    ExpandRefused(items, |Shape(l)|);
  }

  lemma {:induction false} ExpandRefused(items: seq<Item>, rank: nat)
    ensures LoraExpand(items, rank).Err? <==> forall i :: 0 <= i < |items| ==> items[i].Ellipsis?
    ensures LoraExpand(items, rank).Err? ==> LoraExpand(items, rank).error == AssertionFailed
  {
    if items != [] {
      assert Last(items) == items[|items| - 1];
      ExpandRefused(Front(items), rank);
    }
  }

  /** A refused concatenation: none is an index error, and matrix pairs with different As are not implemented. */
  lemma CatRefused(ls: seq<LoraTensor>)
    requires AllConstructed(ls) && LoraCat(ls).Err?
    ensures ls == [] ==> LoraCat(ls).error == BadIndex
    ensures LoraCat(ls).error == NotImplemented <==>
              ls != [] && |ls[0].b.shape| == 2 && exists i :: 0 <= i < |ls| && ls[i].a != ls[0].a
  {
    hide StackOf, AllSubs;
  }
}
