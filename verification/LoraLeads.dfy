/**
  Tuple indexing of a pair whose A is batched: integers are taken on both sides, but a slice of a
  batch axis is taken of B alone.
 */
module LoraLeads {
  import opened Wrappers
  import opened Tensors
  import opened Lora
  import opened LoraBatches
  import opened LoraIndexing

  // ---------------------------------------------------------------- A's batch axes

  /** How A's batch axes are selected from where B's are. */
  function LeadSelectors(sels: seq<Selector>, lead: seq<nat>): (r: seq<Selector>)
    requires |sels| == |lead|
    ensures |r| == |sels|
  {
    if sels == [] then []
    else LeadSelectors(Front(sels), Front(lead)) + [LeadSelector(Last(sels), Last(lead))]
  }

  function LeadSelector(s: Selector, n: nat): Selector {
    match s
    case Pick(i) => Pick(if n == 1 then 0 else i)
    case Take(_) => AllRows(n)
  }

  lemma LeadSelectorsNext(sels: seq<Selector>, s: Selector, lead: seq<nat>, n: nat)
    requires |sels| == |lead|
    ensures LeadSelectors(sels + [s], lead + [n]) == LeadSelectors(sels, lead) + [LeadSelector(s, n)]
  {
    assert Front(sels + [s]) == sels && Front(lead + [n]) == lead;
  }

  /** A's batch extents are one or those of B. */
  predicate Spreads(lead: seq<nat>, to: seq<nat>) {
    |lead| == |to| && forall i :: 0 <= i < |lead| ==> lead[i] == 1 || lead[i] == to[i]
  }

  /** What remains of a batch axis of A and B has one extent, or A's is one. */
  predicate CountsMatch(sels: seq<Selector>, lead: seq<nat>) {
    |sels| == |lead| && forall i :: 0 <= i < |sels| ==> sels[i].Pick? || lead[i] == 1 || |sels[i].rows| == lead[i]
  }

  /** A batch axis that A has too is left as it is, or one position is taken. */
  predicate LeadsKept(sels: seq<Selector>, lead: seq<nat>) {
    && CountsMatch(sels, lead)
    && forall i :: 0 <= i < |sels| && sels[i].Take? && lead[i] != 1 ==> Unmoved(sels[i].rows)
  }

  predicate Unmoved(rows: seq<nat>) {
    forall j :: 0 <= j < |rows| ==> rows[j] == j
  }

  /** What A's batch axes are indexed with is accepted where B's items are, and selects as LeadSelectors does. */
  ghost predicate LeadRead(items: seq<Item>, lead: seq<nat>, to: seq<nat>) {
    && |items| == |lead| == |to|
    && (LeadItems(items, lead).Ok? && ResolveAll(items, to).Ok? ==>
          && ResolveAll(LeadItems(items, lead).value, lead) == Ok(LeadSelectors(ResolveAll(items, to).value, lead))
          && CountLists(LeadItems(items, lead).value) == 0)
  }

  lemma {:induction false} LeadResolved(items: seq<Item>, lead: seq<nat>, to: seq<nat>)
    requires |items| == |lead| && Spreads(lead, to)
    ensures LeadRead(items, lead, to)
  {
    assert |to| == |lead|;
    hide LeadRead, Spreads;
    if items == [] {
      assert lead == [] && to == [];
      NoLeadResolved();
    } else {
      SpreadsFront(lead, to);
      var (items0, lead0, to0) := (Front(items), Front(lead), Front(to));
      assert items == items0 + [Last(items)] && lead == lead0 + [Last(lead)] && to == to0 + [Last(to)];
      LeadResolved(items0, lead0, to0);
      LeadResolvedNext(items0, Last(items), lead0, Last(lead), to0, Last(to));
    }
  }

  lemma NoLeadResolved()
    ensures LeadRead([], [], [])
  {
  }

  lemma LeadResolvedNext(items: seq<Item>, item: Item, lead: seq<nat>, n: nat, to: seq<nat>, m: nat)
    requires |items| == |lead| == |to| && (n == 1 || n == m) && LeadRead(items, lead, to)
    ensures LeadRead(items + [item], lead + [n], to + [m])
  {
    if LeadItems(items + [item], lead + [n]).Ok? && ResolveAll(items + [item], to + [m]).Ok? {
      LeadAppended(items, item, lead, n, to, m);
    }
  }

  lemma LeadAppended(items: seq<Item>, item: Item, lead: seq<nat>, n: nat, to: seq<nat>, m: nat)
    requires |items| == |lead| == |to| && (n == 1 || n == m) && LeadRead(items, lead, to)
    requires LeadItems(items + [item], lead + [n]).Ok? && ResolveAll(items + [item], to + [m]).Ok?
    ensures LeadRead(items + [item], lead + [n], to + [m])
  {
    LeadItemsNext(items, item, lead, n);
    assert ResolveAll(items + [item], to + [m]).Ok? ==> ResolveAll(items, to).Ok? && |ResolveAll(items, to).value| == |items| by {
      ResolveSplit(items, item, to, m);
    }
    hide Resolve, ResolveAll, CountLists, LeadItems, LeadSelectors, LeadSelector, LastLead, SelectorsFit, Fits;
    ResolveSplit(items, item, to, m);
    LastLeadResolved(item, n, m);
    ResolveSplit(LeadItems(items, lead).value, LastLead(item, n), lead, n);
    LeadSelectorsNext(ResolveAll(items, to).value, Resolve(item, m).value, lead, n);
  }

  lemma SpreadsFront(lead: seq<nat>, to: seq<nat>)
    requires Spreads(lead, to) && lead != []
    ensures |lead| == |to| && Spreads(Front(lead), Front(to)) && (Last(lead) == 1 || Last(lead) == Last(to))
  {
    var n := |lead| - 1;
    assert lead[n] == Last(lead) && to[n] == Last(to);
  }

  function LastLead(item: Item, a: nat): Item {
    if item.Int? && a > 0 then Int(item.i % a) else FULL
  }

  lemma LeadItemsNext(items: seq<Item>, item: Item, lead: seq<nat>, n: nat)
    requires |items| == |lead| && LeadItems(items + [item], lead + [n]).Ok?
    ensures LeadItems(items, lead).Ok? && (item.Int? ==> n > 0)
    ensures LeadItems(items + [item], lead + [n]).value == LeadItems(items, lead).value + [LastLead(item, n)]
  {
    assert Front(items + [item]) == items && Front(lead + [n]) == lead;
  }

  lemma LastLeadResolved(item: Item, a: nat, n: nat)
    requires (a == 1 || a == n) && (item.Int? ==> a > 0) && Resolve(item, n).Ok?
    ensures Resolve(LastLead(item, a), a).Ok? && !LastLead(item, a).List?
    ensures Resolve(LastLead(item, a), a).value
            == LeadSelector(Resolve(item, n).value, a)
  {
    if item.Int? {
      Wrapped(item.i, a);
    }
  }

  /** Python's remainder is the wrapped position. */
  lemma Wrapped(i: int, a: nat)
    requires a > 0
    ensures 0 <= i % a < a && (a == 1 ==> i % a == 0)
    ensures -(a as int) <= i < a ==> i % a == WrapDim(i, a)
  {
    if -(a as int) <= i < 0 {
      var q := i / a;
      assert i == q * a + i % a;
      assert q == -1 by { MulMonotone(q, -2, a); MulMonotone(0, q, a); }
    }
  }

  lemma {:induction false} LeadShape(sels: seq<Selector>, lead: seq<nat>)
    requires |sels| == |lead|
    ensures |SelectedShape(LeadSelectors(sels, lead))| == |SelectedShape(sels)|
    ensures CountsMatch(sels, lead) <==> Spreads(SelectedShape(LeadSelectors(sels, lead)), SelectedShape(sels))
  {
    if sels != [] {
      var (s, n, sels0, lead0) := (Last(sels), Last(lead), Front(sels), Front(lead));
      assert sels == sels0 + [s] && lead == lead0 + [n];
      LeadShape(sels0, lead0);
      hide LeadSelectors, SelectedShape, AllRows, CountsMatch, Spreads;
      CountsMatchNext(sels, lead);
      var a := LeadSelectors(sels0, lead0);
      LeadSelectorsNext(sels0, s, lead0, n);
      SelectedNext(a, LeadSelector(s, n));
      SelectedNext(sels0, s);
      if s.Take? {
        SpreadsNext(SelectedShape(a), n, SelectedShape(sels0), |s.rows|);
      }
    }
  }

  lemma CountsMatchNext(sels: seq<Selector>, lead: seq<nat>)
    requires |sels| == |lead| > 0
    ensures CountsMatch(sels, lead) <==>
              CountsMatch(Front(sels), Front(lead)) && (Last(sels).Pick? || Last(lead) == 1 || |Last(sels).rows| == Last(lead))
  {
    var n := |sels| - 1;
    assert sels[n] == Last(sels) && lead[n] == Last(lead);
    assert forall i :: 0 <= i < n ==> Front(sels)[i] == sels[i] && Front(lead)[i] == lead[i];
  }

  lemma SpreadsNext(s: seq<nat>, x: nat, t: seq<nat>, y: nat)
    requires |s| == |t|
    ensures Spreads(s + [x], t + [y]) <==> Spreads(s, t) && (x == 1 || x == y)
  {
    var n := |s|;
    assert (s + [x])[n] == x && (t + [y])[n] == y;
    assert forall i :: 0 <= i < n ==> (s + [x])[i] == s[i] && (t + [y])[i] == t[i];
  }

  /** Where A is read for a batch of the selected pair is where it is read for the batch that was selected. */
  lemma {:induction false} LeadEmbed(sels: seq<Selector>, lead: seq<nat>, batch: seq<nat>)
    requires LeadsKept(sels, lead) && InShape(SelectedShape(sels), batch)
    ensures ReadInPlace(sels, lead, batch)
  {
    if sels != [] {
      var (s, n, sels0, lead0) := (Last(sels), Last(lead), Front(sels), Front(lead));
      assert sels == sels0 + [s] && lead == lead0 + [n];
      LeadsKeptNext(sels, lead);
      hide LeadSelectors, SelectedShape, Embed, AllRows, LeadsKept, Broadcast, Unmoved;
      SelectedNext(sels0, s);
      if s.Pick? {
        LeadEmbed(sels0, lead0, batch);
        LeadEmbedPick(sels0, s, lead0, n, batch);
      } else {
        var (batch0, i) := (Front(batch), Last(batch));
        assert batch == batch0 + [i];
        InShapeLast(SelectedShape(sels0), |s.rows|, batch0, i);
        LeadEmbed(sels0, lead0, batch0);
        LeadEmbedTake(sels0, s, lead0, n, batch0, i);
      }
    }
  }

  /** A is read for a batch of the selected pair where it is read for the batch that was selected. */
  ghost predicate ReadInPlace(sels: seq<Selector>, lead: seq<nat>, batch: seq<nat>)
    requires |sels| == |lead| && InShape(SelectedShape(sels), batch)
  {
    var a := LeadSelectors(sels, lead);
    && |SelectedShape(a)| == |batch|
    && var at := Broadcast(SelectedShape(a), batch);
       InShape(SelectedShape(a), at) && Embed(a, at) == Broadcast(lead, Embed(sels, batch))
  }

  lemma LeadEmbedPick(sels: seq<Selector>, s: Selector, lead: seq<nat>, n: nat, batch: seq<nat>)
    requires |sels| == |lead| && s.Pick? && InShape(SelectedShape(sels), batch) && ReadInPlace(sels, lead, batch)
    ensures InShape(SelectedShape(sels + [s]), batch) && ReadInPlace(sels + [s], lead + [n], batch)
  {
    hide LeadSelectors, SelectedShape, Embed, AllRows, Broadcast;
    var a := LeadSelectors(sels, lead);
    LeadSelectorsNext(sels, s, lead, n);
    SelectedNext(sels, s);
    SelectedNext(a, LeadSelector(s, n));
    EmbedPick(sels, s, batch);
    EmbedPick(a, LeadSelector(s, n), Broadcast(SelectedShape(a), batch));
    BroadcastNext(lead, n, Embed(sels, batch), s.i);
  }

  lemma LeadEmbedTake(sels: seq<Selector>, s: Selector, lead: seq<nat>, n: nat, batch: seq<nat>, i: nat)
    requires |sels| == |lead| && s.Take? && i < |s.rows| && InShape(SelectedShape(sels), batch) && ReadInPlace(sels, lead, batch)
    requires n != 1 ==> i < n && s.rows[i] == i
    ensures InShape(SelectedShape(sels + [s]), batch + [i]) && ReadInPlace(sels + [s], lead + [n], batch + [i])
  {
    hide LeadSelectors, SelectedShape, Embed, AllRows, Broadcast;
    var a := LeadSelectors(sels, lead);
    LeadSelectorsNext(sels, s, lead, n);
    SelectedNext(sels, s);
    SelectedNext(a, AllRows(n));
    EmbedNext(sels, s, batch, i);
    EmbedNext(a, AllRows(n), Broadcast(SelectedShape(a), batch), if n == 1 then 0 else i);
    BroadcastNext(SelectedShape(a), n, batch, i);
    BroadcastNext(lead, n, Embed(sels, batch), s.rows[i]);
  }

  lemma EmbedPick(sels: seq<Selector>, s: Selector, idx: seq<nat>)
    requires s.Pick? && InShape(SelectedShape(sels), idx)
    ensures InShape(SelectedShape(sels + [s]), idx) && Embed(sels + [s], idx) == Embed(sels, idx) + [s.i]
  {
    assert Front(sels + [s]) == sels;
  }

  lemma InShapeLast(shape: seq<nat>, n: nat, idx: seq<nat>, i: nat)
    requires InShape(shape + [n], idx + [i])
    ensures InShape(shape, idx) && i < n
  {
    assert (shape + [n])[|shape|] == n && (idx + [i])[|idx|] == i;
    forall k | 0 <= k < |idx|
      ensures idx[k] < shape[k]
    {
      assert (idx + [i])[k] < (shape + [n])[k];
    }
  }

  lemma LeadsKeptNext(sels: seq<Selector>, lead: seq<nat>)
    requires LeadsKept(sels, lead) && sels != []
    ensures LeadsKept(Front(sels), Front(lead))
    ensures Last(sels).Take? && Last(lead) != 1 ==>
              |Last(sels).rows| == Last(lead) && forall j :: 0 <= j < Last(lead) ==> Last(sels).rows[j] == j
  {
    CountsMatchNext(sels, lead);
    var n := |sels| - 1;
    assert sels[n] == Last(sels) && lead[n] == Last(lead);
    assert forall i :: 0 <= i < n ==> Front(sels)[i] == sels[i] && Front(lead)[i] == lead[i];
  }

  lemma BroadcastNext(lead: seq<nat>, n: nat, batch: seq<nat>, i: nat)
    requires |lead| == |batch|
    ensures Broadcast(lead + [n], batch + [i]) == Broadcast(lead, batch) + [if n == 1 then 0 else i]
  {
  }

  lemma {:induction false} LeadSelectorsFit(sels: seq<Selector>, lead: seq<nat>, to: seq<nat>)
    requires SelectorsFit(sels, to) && Spreads(lead, to)
    ensures SelectorsFit(LeadSelectors(sels, lead), lead)
  {
    if sels != [] {
      SpreadsFront(lead, to);
      LeadSelectorsFit(Front(sels), Front(lead), Front(to));
      assert Fits(sels[|sels| - 1], to[|to| - 1]);
      hide LeadSelectors, SelectorsFit, AllRows;
      LeadSelectorsNext(Front(sels), Last(sels), Front(lead), Last(lead));
      assert sels == Front(sels) + [Last(sels)] && lead == Front(lead) + [Last(lead)];
      LeadSelectorFits(Last(sels), Last(lead), Last(to));
      FitsNext(LeadSelectors(Front(sels), Front(lead)), Front(lead), LeadSelector(Last(sels), Last(lead)), Last(lead));
    }
  }

  lemma LeadSelectorFits(s: Selector, n: nat, to: nat)
    requires Fits(s, to) && (n == 1 || n == to)
    ensures Fits(LeadSelector(s, n), n)
  {
  }

  // ---------------------------------------------------------------- the selected pair

  /** The selectors of A, of B and of the product. */
  function ForA(l: LoraTensor, sels: seq<Selector>, columns: Selector): seq<Selector>
    requires Constructed(l) && |sels| == |ALead(l)|
  {
    LeadSelectors(sels, ALead(l)) + [AllRows(Rank(l))] + [columns]
  }

  function ForB(l: LoraTensor, sels: seq<Selector>, rows: Selector): seq<Selector>
    requires Constructed(l)
  {
    sels + [rows] + [AllRows(Rank(l))]
  }

  function ForProduct(sels: seq<Selector>, rows: Selector, columns: Selector): seq<Selector> {
    sels + [rows] + [columns]
  }

  /** Selectors of the batches and rows of B and of the columns of A. */
  ghost predicate Selects(l: LoraTensor, sels: seq<Selector>, rows: Selector, columns: Selector) {
    && WellFormed(l) && rows.Take? && columns.Take? && |sels| == |ALead(l)|
    && SelectorsFit(sels + [rows], Front(l.b.shape)) && Fits(columns, Width(l.a))
  }

  ghost predicate AllFit(l: LoraTensor, sels: seq<Selector>, rows: Selector, columns: Selector) {
    && Selects(l, sels, rows, columns)
    && SelectorsFit(ForA(l, sels, columns), l.a.shape) && SelectorsFit(ForB(l, sels, rows), l.b.shape)
    && SelectorsFit(ForProduct(sels, rows, columns), Shape(l))
  }

  lemma SelectsFit(l: LoraTensor, sels: seq<Selector>, rows: Selector, columns: Selector)
    requires Selects(l, sels, rows, columns)
    ensures AllFit(l, sels, rows, columns)
  {
    hide LeadSelectors, AllRows, Prod, Fits;
    var to := Front(Front(l.b.shape));
    FrontFits(sels, rows, Front(l.b.shape));
    LeadSpreads(l);
    LeadSelectorsFit(sels, ALead(l), to);
    assert l.a.shape == ALead(l) + [Rank(l)] + [Width(l.a)] && l.b.shape == Front(l.b.shape) + [Rank(l)];
    FitsAll(AllRows(Rank(l)), Rank(l));
    FitsNext(LeadSelectors(sels, ALead(l)), ALead(l), AllRows(Rank(l)), Rank(l));
    FitsNext(LeadSelectors(sels, ALead(l)) + [AllRows(Rank(l))], ALead(l) + [Rank(l)], columns, Width(l.a));
    FitsNext(sels + [rows], Front(l.b.shape), AllRows(Rank(l)), Rank(l));
    FitsNext(sels + [rows], Front(l.b.shape), columns, Width(l.a));
  }

  lemma FrontFits(sels: seq<Selector>, s: Selector, shape: seq<nat>)
    requires SelectorsFit(sels + [s], shape)
    ensures shape != [] && SelectorsFit(sels, Front(shape)) && Fits(s, Last(shape))
  {
    hide Fits;
    var all := sels + [s];
    assert all[|sels|] == s && forall i :: 0 <= i < |sels| ==> all[i] == sels[i];
    assert forall i :: 0 <= i < |sels| ==> Fits(all[i], shape[i]);
  }

  lemma LeadSpreads(l: LoraTensor)
    requires WellFormed(l)
    ensures Spreads(ALead(l), Front(Front(l.b.shape)))
  {
    hide Prod;
  }

  ghost function Selected(l: LoraTensor, sels: seq<Selector>, rows: Selector, columns: Selector): LoraTensor
    requires AllFit(l, sels, rows, columns)
  {
    LoraTensor(Select(l.a, ForA(l, sels, columns)), Select(l.b, ForB(l, sels, rows)))
  }

  /** The shapes of the selected pair, and when it still multiplies out. */
  lemma SelectedShapesOf(l: LoraTensor, sels: seq<Selector>, rows: Selector, columns: Selector)
    requires AllFit(l, sels, rows, columns)
    ensures var l' := Selected(l, sels, rows, columns);
            && Constructed(l') && Rank(l') == Rank(l)
            && ALead(l') == SelectedShape(LeadSelectors(sels, ALead(l)))
            && l'.a.shape == ALead(l') + [Rank(l)] + [|columns.rows|]
            && l'.b.shape == SelectedShape(sels) + [|rows.rows|] + [Rank(l)]
            && Shape(l') == SelectedShape(sels) + [|rows.rows|] + [|columns.rows|]
            && SelectedShape(ForProduct(sels, rows, columns)) == Shape(l')
            && (WellFormed(l') <==> CountsMatch(sels, ALead(l)))
  {
    hide LeadSelectors, AllRows, SelectedShape, Select, Prod, CountsMatch, Fits, SelectorsFit;
    var l' := Selected(l, sels, rows, columns);
    var a := LeadSelectors(sels, ALead(l));
    TakenShape(a, AllRows(Rank(l)));
    TakenShape(a + [AllRows(Rank(l))], columns);
    TakenShape(sels, rows);
    TakenShape(sels + [rows], AllRows(Rank(l)));
    TakenShape(sels + [rows], columns);
    LeadShape(sels, ALead(l));
    assert Front(l'.b.shape) == SelectedShape(sels) + [|rows.rows|] && Front(Front(l'.b.shape)) == SelectedShape(sels);
    assert ALead(l') == SelectedShape(a);
  }

  /** B's row at an index is the row that was selected. */
  lemma SelectedRowAt(b: Tensor<real>, sels: seq<Selector>, idx: seq<nat>)
    requires b.Valid() && b.shape != [] && SelectorsFit(sels, Front(b.shape)) && SelectorsFit(sels + [AllRows(Width(b))], b.shape)
    requires InShape(SelectedShape(sels), idx)
    ensures var t := Select(b, sels + [AllRows(Width(b))]);
            && t.shape == SelectedShape(sels) + [Width(b)] && Front(t.shape) == SelectedShape(sels)
            && InShape(Front(b.shape), Embed(sels, idx)) && RowAt(t, idx) == RowAt(b, Embed(sels, idx))
  {
    hide AllRows, SelectedShape, Select, Prod, Embed, At, SelectorsFit;
    var t := Select(b, sels + [AllRows(Width(b))]);
    TakenShape(sels, AllRows(Width(b)));
    EmbedInShape(sels, Front(b.shape), idx);
    forall q: nat | q < Width(b)
      ensures InShape(t.shape, idx + [q]) && InShape(b.shape, Embed(sels, idx) + [q])
      ensures At(t, idx + [q]) == At(b, Embed(sels, idx) + [q])
    {
      EmbedNext(sels, AllRows(Width(b)), idx, q);
      SelectAt(b, sels + [AllRows(Width(b))], idx + [q]);
    }
  }

  /** A's column at an index is the column that was selected. */
  lemma SelectedColumnAt(a: Tensor<real>, sels: seq<Selector>, columns: Selector, idx: seq<nat>, c: nat)
    requires a.Valid() && |a.shape| >= 2 && columns.Take? && c < |columns.rows|
    requires var all := AllRows(Last(Front(a.shape)));
             SelectorsFit(sels, Front(Front(a.shape))) && SelectorsFit(sels + [all] + [columns], a.shape)
    requires InShape(SelectedShape(sels), idx)
    ensures var t := Select(a, sels + [AllRows(Last(Front(a.shape)))] + [columns]);
            && t.shape == SelectedShape(sels) + [Last(Front(a.shape))] + [|columns.rows|]
            && Front(Front(t.shape)) == SelectedShape(sels) && Last(t.shape) == |columns.rows|
            && InShape(Front(Front(a.shape)), Embed(sels, idx)) && columns.rows[c] < Last(a.shape)
            && ColumnAt(t, idx, c) == ColumnAt(a, Embed(sels, idx), columns.rows[c])
  {
    hide AllRows, SelectedShape, Select, Prod, Embed, At;
    var (r, all) := (Last(Front(a.shape)), AllRows(Last(Front(a.shape))));
    var t := Select(a, sels + [all] + [columns]);
    TakenShape(sels, all);
    TakenShape(sels + [all], columns);
    assert Front(t.shape) == SelectedShape(sels) + [r];
    EmbedInShape(sels, Front(Front(a.shape)), idx);
    FrontFits(sels + [all], columns, a.shape);
    hide SelectorsFit;
    forall q: nat | q < r
      ensures InShape(t.shape, idx + [q, c]) && InShape(a.shape, Embed(sels, idx) + [q, columns.rows[c]])
      ensures At(t, idx + [q, c]) == At(a, Embed(sels, idx) + [q, columns.rows[c]])
    {
      EmbedNext(sels, all, idx, q);
      EmbedNext(sels + [all], columns, idx + [q], c);
      SelectAt(a, sels + [all] + [columns], idx + [q] + [c]);
      assert idx + [q, c] == idx + [q] + [c];
      assert Embed(sels, idx) + [q, columns.rows[c]] == Embed(sels, idx) + [q] + [columns.rows[c]];
    }
  }

  /** The batch is one that the selected pair has, and A is read for it in its own batches. */
  ghost predicate BatchRead(sels: seq<Selector>, lead: seq<nat>, batch: seq<nat>)
    requires |sels| == |lead|
  {
    var a := LeadSelectors(sels, lead);
    && InShape(SelectedShape(sels), batch) && |SelectedShape(a)| == |batch|
    && InShape(SelectedShape(a), Broadcast(SelectedShape(a), batch))
  }

  /** Where the pair reads A's batches for a batch of the selected pair. */
  ghost function PairBatch(sels: seq<Selector>, lead: seq<nat>, batch: seq<nat>): seq<nat>
    requires |sels| == |lead| && BatchRead(sels, lead, batch)
  {
    var a := LeadSelectors(sels, lead);
    Embed(a, Broadcast(SelectedShape(a), batch))
  }

  lemma MatchedRead(sels: seq<Selector>, lead: seq<nat>, batch: seq<nat>)
    requires CountsMatch(sels, lead) && InShape(SelectedShape(sels), batch)
    ensures BatchRead(sels, lead, batch)
  {
    assert |sels| == |lead|;
    hide LeadSelectors, SelectedShape, CountsMatch;
    LeadShape(sels, lead);
  }

  /** A row of B and a column of A that meet in an entry of the product. */
  ghost predicate Meet(l: LoraTensor, row: seq<nat>, batch: seq<nat>, c: nat) {
    Constructed(l) && InShape(Front(l.b.shape), row) && InShape(ALead(l), batch) && c < Width(l.a)
  }

  ghost function Entry(l: LoraTensor, row: seq<nat>, batch: seq<nat>, c: nat): real
    requires Meet(l, row, batch, c)
  {
    Dot(RowAt(l.b, row), ColumnAt(l.a, batch, c))
  }

  /** One entry of the selected pair's product, in terms of the pair. */
  lemma PairEntry(l: LoraTensor, sels: seq<Selector>, rows: Selector, columns: Selector, batch: seq<nat>, p: nat, c: nat)
    requires AllFit(l, sels, rows, columns) && CountsMatch(sels, ALead(l))
    requires InShape(SelectedShape(sels), batch) && p < |rows.rows| && c < |columns.rows|
    ensures var (l', idx) := (Selected(l, sels, rows, columns), batch + [p] + [c]);
            && WellFormed(l') && InShape(Shape(l'), idx) && BatchRead(sels, ALead(l), batch)
            && Meet(l, Embed(sels, batch) + [rows.rows[p]], PairBatch(sels, ALead(l), batch), columns.rows[c])
            && ProductAt(l', idx) == Entry(l, Embed(sels, batch) + [rows.rows[p]], PairBatch(sels, ALead(l), batch), columns.rows[c])
  {
    hide LeadSelectors, AllRows, SelectedShape, Select, Prod, Embed, RowAt, ColumnAt, Dot, Fits, CountsMatch;
    var (l', idx) := (Selected(l, sels, rows, columns), batch + [p] + [c]);
    SelectedShapesOf(l, sels, rows, columns);
    FrontFits(sels, rows, Front(l.b.shape));
    LeadSpreads(l);
    LeadSelectorsFit(sels, ALead(l), Front(Front(l.b.shape)));
    EmbedNext(sels, rows, batch, p);
    TakenShape(sels, rows);
    InShapeNext(Shape(l'), batch + [p], c);
    SelectedRowAt(l.b, sels + [rows], batch + [p]);
    MatchedRead(sels, ALead(l), batch);
    SelectedColumnAt(l.a, LeadSelectors(sels, ALead(l)), columns, Broadcast(ALead(l'), batch), c);
    assert Front(idx) == batch + [p] && Front(Front(idx)) == batch && Last(idx) == c;
  }

  /** The entry of the product that the selection reads there. */
  lemma ProductEntry(l: LoraTensor, sels: seq<Selector>, rows: Selector, columns: Selector, batch: seq<nat>, p: nat, c: nat)
    requires AllFit(l, sels, rows, columns)
    requires InShape(SelectedShape(sels), batch) && p < |rows.rows| && c < |columns.rows|
    ensures InShape(SelectedShape(ForProduct(sels, rows, columns)), batch + [p] + [c])
    ensures InShape(Shape(l), Embed(ForProduct(sels, rows, columns), batch + [p] + [c]))
    ensures Meet(l, Embed(sels, batch) + [rows.rows[p]], Broadcast(ALead(l), Embed(sels, batch)), columns.rows[c])
    ensures ProductAt(l, Embed(ForProduct(sels, rows, columns), batch + [p] + [c]))
            == Entry(l, Embed(sels, batch) + [rows.rows[p]], Broadcast(ALead(l), Embed(sels, batch)), columns.rows[c])
  {
    hide AllRows, SelectedShape, Select, Prod, Embed, RowAt, ColumnAt, Dot, Fits;
    var idx := batch + [p] + [c];
    EmbedNext(sels, rows, batch, p);
    EmbedNext(sels + [rows], columns, batch + [p], c);
    EmbedInShape(ForProduct(sels, rows, columns), Shape(l), idx);
    var from := Embed(ForProduct(sels, rows, columns), idx);
    BroadcastInShape(l, from);
    assert Front(from) == Embed(sels, batch) + [rows.rows[p]] && Front(Front(from)) == Embed(sels, batch);
    assert Last(from) == columns.rows[c];
  }

  /** Where A's own batches are kept, the two entries are the same. */
  lemma SelectedEntry(l: LoraTensor, sels: seq<Selector>, rows: Selector, columns: Selector, batch: seq<nat>, p: nat, c: nat)
    requires AllFit(l, sels, rows, columns) && LeadsKept(sels, ALead(l))
    requires InShape(SelectedShape(sels), batch) && p < |rows.rows| && c < |columns.rows|
    ensures var (l', idx) := (Selected(l, sels, rows, columns), batch + [p] + [c]);
            && WellFormed(l') && InShape(Shape(l'), idx)
            && InShape(SelectedShape(ForProduct(sels, rows, columns)), idx)
            && InShape(Shape(l), Embed(ForProduct(sels, rows, columns), idx))
            && ProductAt(l', idx) == ProductAt(l, Embed(ForProduct(sels, rows, columns), idx))
  {
    hide LeadSelectors, AllRows, SelectedShape, Select, Prod, Embed, RowAt, ColumnAt, Dot, Fits, ProductAt, ForProduct, Selected, WellFormed, Entry, Meet;
    LeadEmbed(sels, ALead(l), batch);
    PairEntry(l, sels, rows, columns, batch, p, c);
    ProductEntry(l, sels, rows, columns, batch, p, c);
  }

  /** Where A's own batches are kept, selecting of the pair is selecting of the product. */
  lemma SelectedProduct(l: LoraTensor, sels: seq<Selector>, rows: Selector, columns: Selector)
    requires AllFit(l, sels, rows, columns) && LeadsKept(sels, ALead(l))
    ensures WellFormed(Selected(l, sels, rows, columns))
    ensures Select(Product(l), ForProduct(sels, rows, columns)) == Product(Selected(l, sels, rows, columns))
  {
    hide LeadSelectors, AllRows, SelectedShape, Select, Prod, Embed, Product, ProductAt, Fits, Selected, LeadsKept, SelectorsFit;
    var l' := Selected(l, sels, rows, columns);
    SelectedShapesOf(l, sels, rows, columns);
    KeptMatches(sels, ALead(l));
    var t := Select(Product(l), ForProduct(sels, rows, columns));
    forall idx: seq<nat> | InShape(t.shape, idx)
      ensures At(t, idx) == At(Product(l'), idx)
    {
      var (batch, p, c) := (Front(Front(idx)), Last(Front(idx)), Last(idx));
      assert idx == batch + [p] + [c];
      InShapeLast(SelectedShape(sels) + [|rows.rows|], |columns.rows|, batch + [p], c);
      InShapeLast(SelectedShape(sels), |rows.rows|, batch, p);
      SelectedEntry(l, sels, rows, columns, batch, p, c);
      SelectAt(Product(l), ForProduct(sels, rows, columns), idx);
      ProductAtIndex(l, Embed(ForProduct(sels, rows, columns), idx));
      ProductAtIndex(l', idx);
    }
    SameEntries(t, Product(l'));
  }

  lemma KeptMatches(sels: seq<Selector>, lead: seq<nat>)
    requires LeadsKept(sels, lead)
    ensures CountsMatch(sels, lead)
  {
  }

  // ---------------------------------------------------------------- batches that a list reorders

  predicate Positive(shape: seq<nat>) {
    forall i :: 0 <= i < |shape| ==> shape[i] > 0
  }

  function ZeroIndex(n: nat): (idx: seq<nat>)
    ensures |idx| == n && forall i :: 0 <= i < n ==> idx[i] == 0
  {
    seq(n, i => 0)
  }

  /** If some batch axis is not kept, the pair reads some batch elsewhere than the selection does. */
  lemma {:induction false} BatchApart(sels: seq<Selector>, lead: seq<nat>) returns (batch: seq<nat>)
    requires CountsMatch(sels, lead) && !LeadsKept(sels, lead) && Positive(SelectedShape(sels))
    ensures InShape(SelectedShape(sels), batch) && BatchRead(sels, lead, batch)
    ensures |Embed(sels, batch)| == |lead| && PairBatch(sels, lead, batch) != Broadcast(lead, Embed(sels, batch))
  {
    var (s, n, sels0, lead0) := (Last(sels), Last(lead), Front(sels), Front(lead));
    assert sels == sels0 + [s] && lead == lead0 + [n];
    CountsMatchNext(sels, lead);
    SelectedNext(sels0, s);
    PositiveFront(SelectedShape(sels0), SelectedShape(sels));
    hide LeadSelectors, SelectedShape, Embed, AllRows, CountsMatch, LeadsKept, Broadcast;
    if LeadsKept(sels0, lead0) {
      LastNotKept(sels0, s, lead0, n);
      var j: nat :| j < |s.rows| && s.rows[j] != j;
      var batch0 := ZeroIndex(|SelectedShape(sels0)|);
      MatchedRead(sels0, lead0, batch0);
      LastApart(sels0, s, lead0, n, batch0, j);
      batch := batch0 + [j];
    } else {
      var batch0 := BatchApart(sels0, lead0);
      if s.Pick? {
        batch := batch0;
        PickedApart(sels0, s, lead0, n, batch0);
      } else {
        batch := batch0 + [0];
        TakenApart(sels0, s, lead0, n, batch0, 0);
      }
    }
    MatchedRead(sels, lead, batch);
  }

  lemma PositiveFront(front: seq<nat>, shape: seq<nat>)
    requires Positive(shape) && (shape == front || (shape != [] && shape == front + [Last(shape)]))
    ensures Positive(front) && (shape != front ==> Last(shape) > 0)
  {
    assert forall i :: 0 <= i < |front| ==> front[i] == shape[i];
  }

  lemma LastNotKept(sels: seq<Selector>, s: Selector, lead: seq<nat>, n: nat)
    requires LeadsKept(sels, lead) && CountsMatch(sels + [s], lead + [n]) && !LeadsKept(sels + [s], lead + [n])
    ensures s.Take? && n != 1 && |s.rows| == n && !Unmoved(s.rows)
  {
    assert |sels| == |lead|;
    hide Unmoved, CountsMatch, LeadsKept;
    KeptNext(sels, s, lead, n);
    assert Front(sels + [s]) == sels && Front(lead + [n]) == lead;
    CountsMatchNext(sels + [s], lead + [n]);
  }

  lemma KeptNext(sels: seq<Selector>, s: Selector, lead: seq<nat>, n: nat)
    requires LeadsKept(sels, lead) && CountsMatch(sels + [s], lead + [n])
    ensures LeadsKept(sels + [s], lead + [n]) <==> (s.Take? && n != 1 ==> Unmoved(s.rows))
  {
    hide Unmoved;
    var (all, to) := (sels + [s], lead + [n]);
    assert all[|sels|] == s && to[|sels|] == n;
    assert forall i :: 0 <= i < |sels| ==> all[i] == sels[i] && to[i] == lead[i];
  }

  lemma PickedApart(sels: seq<Selector>, s: Selector, lead: seq<nat>, n: nat, batch: seq<nat>)
    requires |sels| == |lead| && s.Pick? && BatchRead(sels, lead, batch)
    requires PairBatch(sels, lead, batch) != Broadcast(lead, Embed(sels, batch))
    ensures BatchRead(sels + [s], lead + [n], batch)
    ensures PairBatch(sels + [s], lead + [n], batch) != Broadcast(lead + [n], Embed(sels + [s], batch))
  {
    hide LeadSelectors, SelectedShape, Embed, AllRows, Broadcast;
    var a := LeadSelectors(sels, lead);
    LeadSelectorsNext(sels, s, lead, n);
    SelectedNext(sels, s);
    SelectedNext(a, LeadSelector(s, n));
    EmbedPick(sels, s, batch);
    EmbedPick(a, LeadSelector(s, n), Broadcast(SelectedShape(a), batch));
    BroadcastNext(lead, n, Embed(sels, batch), s.i);
    StayApart(PairBatch(sels, lead, batch), Broadcast(lead, Embed(sels, batch)),
              LeadSelector(s, n).i, if n == 1 then 0 else s.i);
  }

  lemma StayApart(x: seq<nat>, y: seq<nat>, i: nat, j: nat)
    ensures x != y ==> x + [i] != y + [j]
    ensures i != j ==> x + [i] != y + [j]
  {
    if x + [i] == y + [j] {
      assert (x + [i])[..|x|] == x && (y + [j])[..|y|] == y;
      assert (x + [i])[|x|] == i && (y + [j])[|y|] == j;
    }
  }

  /** The two readings of one more axis that is taken. */
  lemma TakenReadings(sels: seq<Selector>, s: Selector, lead: seq<nat>, n: nat, batch: seq<nat>, i: nat)
    requires |sels| == |lead| && s.Take? && i < |s.rows| && (n != 1 ==> i < n) && BatchRead(sels, lead, batch)
    ensures BatchRead(sels + [s], lead + [n], batch + [i])
    ensures PairBatch(sels + [s], lead + [n], batch + [i]) == PairBatch(sels, lead, batch) + [if n == 1 then 0 else i]
    ensures Broadcast(lead + [n], Embed(sels + [s], batch + [i]))
            == Broadcast(lead, Embed(sels, batch)) + [if n == 1 then 0 else s.rows[i]]
  {
    hide LeadSelectors, SelectedShape, Embed, AllRows, Broadcast;
    var a := LeadSelectors(sels, lead);
    LeadSelectorsNext(sels, s, lead, n);
    SelectedNext(sels, s);
    SelectedNext(a, AllRows(n));
    EmbedNext(sels, s, batch, i);
    EmbedNext(a, AllRows(n), Broadcast(SelectedShape(a), batch), if n == 1 then 0 else i);
    BroadcastNext(SelectedShape(a), n, batch, i);
    BroadcastNext(lead, n, Embed(sels, batch), s.rows[i]);
  }

  lemma TakenApart(sels: seq<Selector>, s: Selector, lead: seq<nat>, n: nat, batch: seq<nat>, i: nat)
    requires |sels| == |lead| && s.Take? && i < |s.rows| && (n != 1 ==> i < n) && BatchRead(sels, lead, batch)
    requires PairBatch(sels, lead, batch) != Broadcast(lead, Embed(sels, batch))
    ensures BatchRead(sels + [s], lead + [n], batch + [i])
    ensures PairBatch(sels + [s], lead + [n], batch + [i]) != Broadcast(lead + [n], Embed(sels + [s], batch + [i]))
  {
    hide LeadSelectors, SelectedShape, Embed, AllRows, Broadcast, PairBatch;
    TakenReadings(sels, s, lead, n, batch, i);
    StayApart(PairBatch(sels, lead, batch), Broadcast(lead, Embed(sels, batch)),
              if n == 1 then 0 else i, if n == 1 then 0 else s.rows[i]);
  }

  lemma LastApart(sels: seq<Selector>, s: Selector, lead: seq<nat>, n: nat, batch: seq<nat>, j: nat)
    requires |sels| == |lead| && s.Take? && n != 1 && |s.rows| == n && j < n && s.rows[j] != j && BatchRead(sels, lead, batch)
    ensures BatchRead(sels + [s], lead + [n], batch + [j])
    ensures PairBatch(sels + [s], lead + [n], batch + [j]) != Broadcast(lead + [n], Embed(sels + [s], batch + [j]))
  {
    hide LeadSelectors, SelectedShape, Embed, AllRows, Broadcast, PairBatch;
    TakenReadings(sels, s, lead, n, batch, j);
    StayApart(PairBatch(sels, lead, batch), Broadcast(lead, Embed(sels, batch)), j, s.rows[j]);
  }

  // -- a pair that tells two batches apart

  function UnitTensor(shape: seq<nat>, at: seq<nat>): (t: Tensor<real>)
    requires InShape(shape, at)
    ensures t.Valid() && t.shape == shape
  {
    Tensor(shape, UnitData(Prod(shape), Flat(shape, at)))
  }

  lemma UnitAt(shape: seq<nat>, at: seq<nat>, idx: seq<nat>)
    requires InShape(shape, at) && InShape(shape, idx)
    ensures At(UnitTensor(shape, at), idx) == if idx == at then 1.0 else 0.0
  {
    hide Prod, Flat, Unflat;
    FlatBound(shape, at);
    FlatBound(shape, idx);
  }

  function OnesTensor(shape: seq<nat>): (t: Tensor<real>)
    ensures t.Valid() && t.shape == shape
  {
    Tensor(shape, seq(Prod(shape), i => 1.0))
  }

  lemma OnesAt(shape: seq<nat>, idx: seq<nat>)
    requires InShape(shape, idx)
    ensures At(OnesTensor(shape), idx) == 1.0
  {
    FlatBound(shape, idx);
  }

  /** The pair of the same shapes whose A is one at one place and zero elsewhere, and whose B is one everywhere. */
  function ProbePair(l: LoraTensor, batch: seq<nat>, c: nat): (k: LoraTensor)
    requires Constructed(l) && Rank(l) > 0 && InShape(ALead(l), batch) && c < Width(l.a)
    ensures Constructed(k) && k.a.shape == l.a.shape && k.b.shape == l.b.shape
  {
    ProbeInShape(l, batch, c, 0);
    LoraTensor(UnitTensor(l.a.shape, batch + [0, c]), OnesTensor(l.b.shape))
  }

  lemma ProbeInShape(l: LoraTensor, batch: seq<nat>, c: nat, q: nat)
    requires Constructed(l) && q < Rank(l) && InShape(ALead(l), batch) && c < Width(l.a)
    ensures InShape(l.a.shape, batch + [q, c])
  {
    hide Prod;
    assert l.a.shape == ALead(l) + [Rank(l), Width(l.a)];
  }

  /** Its product in a row of batch `at` is one exactly if A is read there at the one. */
  lemma ProbeDot(l: LoraTensor, batch: seq<nat>, c: nat, row: seq<nat>, at: seq<nat>)
    requires Constructed(l) && Rank(l) > 0 && InShape(ALead(l), batch) && c < Width(l.a)
    requires InShape(Front(l.b.shape), row) && InShape(ALead(l), at)
    ensures var k := ProbePair(l, batch, c);
            Dot(RowAt(k.b, row), ColumnAt(k.a, at, c)) == if at == batch then 1.0 else 0.0
  {
    hide Prod, At, Dot, UnitTensor, OnesTensor;
    var k := ProbePair(l, batch, c);
    var (u, v) := (ColumnAt(k.a, at, c), RowAt(k.b, row));
    forall q: nat | q < Rank(l)
      ensures v[q] == 1.0 && u[q] == if at == batch && q == 0 then 1.0 else 0.0
    {
      ProbeInShape(l, at, c, q);
      ProbeInShape(l, batch, c, 0);
      UnitAt(l.a.shape, batch + [0, c], at + [q, c]);
      SamePlaceOf(batch, at, c, q);
      assert InShape(l.b.shape, row + [q]);
      OnesAt(l.b.shape, row + [q]);
    }
    DotCommutes(u, v);
    if at == batch {
      DotUnit(u, v);
    } else {
      DotZero(u, v);
    }
  }

  lemma SamePlaceOf(batch: seq<nat>, at: seq<nat>, c: nat, q: nat)
    requires |batch| == |at|
    ensures at + [q, c] == batch + [0, c] <==> at == batch && q == 0
  {
    if at + [q, c] == batch + [0, c] {
      assert (at + [q, c])[..|at|] == at && (batch + [0, c])[..|batch|] == batch;
      assert (at + [q, c])[|at|] == q && (batch + [0, c])[|batch|] == 0;
    }
  }

  /** Where a list reorders batches that A has too, some pair of the shapes multiplies out to something else. */
  lemma ReorderedApart(l: LoraTensor, sels: seq<Selector>, rows: Selector, columns: Selector) returns (k: LoraTensor)
    requires AllFit(l, sels, rows, columns) && Rank(l) > 0 && CountsMatch(sels, ALead(l)) && !LeadsKept(sels, ALead(l))
    requires Positive(SelectedShape(sels)) && |rows.rows| > 0 && |columns.rows| > 0
    ensures AllFit(k, sels, rows, columns) && k.a.shape == l.a.shape && k.b.shape == l.b.shape
    ensures WellFormed(Selected(k, sels, rows, columns))
    ensures Select(Product(k), ForProduct(sels, rows, columns)) != Product(Selected(k, sels, rows, columns))
  {
    hide LeadSelectors, AllRows, SelectedShape, Select, Prod, Embed, RowAt, ColumnAt, Dot, Fits, ProductAt, Product,
         ForA, ForB, ForProduct, Selected, Positive, CountsMatch, LeadsKept, PairBatch, Broadcast, ProbePair;
    var batch := BatchApart(sels, ALead(l));
    PairEntry(l, sels, rows, columns, batch, 0, 0);
    k := ProbePair(l, PairBatch(sels, ALead(l), batch), columns.rows[0]);
    SameShapesFit(l, k, sels, rows, columns);
    PairEntry(k, sels, rows, columns, batch, 0, 0);
    ProductEntry(k, sels, rows, columns, batch, 0, 0);
    ProbeDot(l, PairBatch(sels, ALead(l), batch), columns.rows[0], Embed(sels, batch) + [rows.rows[0]],
             PairBatch(sels, ALead(l), batch));
    ProbeDot(l, PairBatch(sels, ALead(l), batch), columns.rows[0], Embed(sels, batch) + [rows.rows[0]],
             Broadcast(ALead(l), Embed(sels, batch)));
    var idx := batch + [0] + [0];
    SelectAt(Product(k), ForProduct(sels, rows, columns), idx);
    ProductAtIndex(k, Embed(ForProduct(sels, rows, columns), idx));
    ProductAtIndex(Selected(k, sels, rows, columns), idx);
  }

  lemma SameShapesFit(l: LoraTensor, k: LoraTensor, sels: seq<Selector>, rows: Selector, columns: Selector)
    requires AllFit(l, sels, rows, columns) && Constructed(k) && k.a.shape == l.a.shape && k.b.shape == l.b.shape
    ensures AllFit(k, sels, rows, columns)
  {
    hide Prod, Fits, LeadSelectors, AllRows;
  }

  // ---------------------------------------------------------------- tuples

  /** The selectors that an expanded tuple has for B's batch axes. */
  function BatchSelectors(l: LoraTensor, e: seq<Item>): (r: Result<seq<Selector>, TensorError>)
    requires Constructed(l) && |e| == |Shape(l)|
  {
    ResolveAll(e[..|e| - 2], Front(Front(l.b.shape)))
  }

  /** An accepted tuple without an integer on the last axis, in terms of its selectors. */
  lemma AcceptedSelects(l: LoraTensor, items: seq<Item>) returns (sels: seq<Selector>, rows: Selector, columns: Selector)
    requires WellFormed(l) && LoraIndex(l, items).Ok?
    requires var e := LoraExpand(items, |Shape(l)|).value; !Last(e).Int? && CountLists(e) <= 1
    ensures var e := LoraExpand(items, |Shape(l)|).value;
            && |e| == |Shape(l)| && BatchSelectors(l, e) == Ok(sels)
            && AllFit(l, sels, rows, columns)
            && LoraIndex(l, items) == Ok(Selected(l, sels, rows, columns))
            && Chosen(Ok(e), Shape(l)) == Ok(ForProduct(sels, rows, columns))
  {
    hide LoraExpand, LeadItems, ResolveAll, Resolve, CountLists, Select, Prod, LeadSelectors, AllRows, Index, Fits, SelectedShape;
    var n := |Shape(l)|;
    var e := LoraExpand(items, n).value;
    PairRank(l, items);
    var (lead, row, last) := (e[..n - 2], e[n - 2], Last(e));
    assert Front(e) == lead + [row] && e == lead + [row] + [last];
    CountSplit(lead, row, last);
    var a := LeadItems(lead, ALead(l)).value;
    assert a + [FULL, last] == a + [FULL] + [last];
    sels, rows := IndexedB(l, lead, row);
    columns := IndexedLeadA(l, lead, last, sels);
    RowTaken(l, items);
    ResolvedKind(row, Last(Front(l.b.shape)));
    ResolvedKind(last, Width(l.a));
    SelectsFit(l, sels, rows, columns);
    ChosenOf(l, lead, row, last);
  }

  lemma ResolvedKind(item: Item, n: nat)
    requires Resolve(item, n).Ok?
    ensures Resolve(item, n).value.Pick? <==> item.Int?
  {
  }

  lemma CountSplit(lead: seq<Item>, row: Item, last: Item)
    ensures CountLists(lead + [row] + [last])
            == CountLists(lead) + (if row.List? then 1 else 0) + (if last.List? then 1 else 0)
    ensures CountLists(lead + [row]) == CountLists(lead) + (if row.List? then 1 else 0)
  {
    assert Front(lead + [row] + [last]) == lead + [row] && Front(lead + [row]) == lead;
  }

  /** The second-last item is no integer either: B would lose an axis that A keeps. */
  lemma RowTaken(l: LoraTensor, items: seq<Item>)
    requires Constructed(l) && LoraIndex(l, items).Ok?
    requires var e := LoraExpand(items, |Shape(l)|).value; !Last(e).Int?
    ensures var e := LoraExpand(items, |Shape(l)|).value; |e| == |Shape(l)| && !e[|e| - 2].Int?
  {
    hide LoraExpand, LoraIndex, Count;
    PairRank(l, items);
    var e := LoraExpand(items, |Shape(l)|).value;
    CountLast(Front(e), false);
    assert Front(Front(e)) == e[..|e| - 2];
  }

  lemma IndexedB(l: LoraTensor, lead: seq<Item>, row: Item) returns (sels: seq<Selector>, rows: Selector)
    requires Constructed(l) && |lead| + 2 == |l.b.shape| && CountLists(lead + [row]) <= 1
    requires Index(l.b, lead + [row] + [FULL]).Ok?
    ensures ResolveAll(lead, Front(Front(l.b.shape))) == Ok(sels) && Resolve(row, Last(Front(l.b.shape))) == Ok(rows)
    ensures SelectorsFit(sels + [rows], Front(l.b.shape)) && SelectorsFit(ForB(l, sels, rows), l.b.shape)
    ensures Index(l.b, lead + [row] + [FULL]) == Ok(Select(l.b, ForB(l, sels, rows)))
  {
    hide ResolveAll, Resolve, CountLists, Select, Prod, Index, SelectorsFit, Fits, AllRows, SelectedShape;
    IndexedShape(l.b, lead + [row], FULL);
    var b := Front(l.b.shape);
    assert b == Front(b) + [Last(b)];
    ResolveSplit(lead, row, Front(b), Last(b));
    sels, rows := ResolveAll(lead, Front(b)).value, Resolve(row, Last(b)).value;
  }

  lemma IndexedLeadA(l: LoraTensor, lead: seq<Item>, last: Item, sels: seq<Selector>) returns (columns: Selector)
    requires WellFormed(l) && |lead| + 2 == |l.b.shape| && LeadItems(lead, ALead(l)).Ok?
    requires ResolveAll(lead, Front(Front(l.b.shape))) == Ok(sels)
    requires Index(l.a, LeadItems(lead, ALead(l)).value + [FULL] + [last]).Ok?
    ensures Resolve(last, Width(l.a)) == Ok(columns) && |sels| == |ALead(l)| && SelectorsFit(ForA(l, sels, columns), l.a.shape)
    ensures Index(l.a, LeadItems(lead, ALead(l)).value + [FULL] + [last]) == Ok(Select(l.a, ForA(l, sels, columns)))
  {
    LeadSpreads(l);
    LeadResolved(lead, ALead(l), Front(Front(l.b.shape)));
    assert |sels| == |lead|;
    columns := IndexedBehind(l.a, LeadItems(lead, ALead(l)).value, LeadSelectors(sels, ALead(l)), last);
  }

  /** Indexing the last axis and the whole of the one before it. */
  lemma IndexedBehind(t: Tensor<real>, items: seq<Item>, sels: seq<Selector>, last: Item) returns (columns: Selector)
    requires t.Valid() && |t.shape| == |items| + 2 && ResolveAll(items, Front(Front(t.shape))) == Ok(sels) && CountLists(items) == 0
    requires Index(t, items + [FULL] + [last]).Ok?
    ensures Resolve(last, Width(t)) == Ok(columns)
    ensures SelectorsFit(sels + [AllRows(Last(Front(t.shape)))] + [columns], t.shape)
    ensures Index(t, items + [FULL] + [last]) == Ok(Select(t, sels + [AllRows(Last(Front(t.shape)))] + [columns]))
  {
    hide ResolveAll, Resolve, CountLists, Select, Prod, Index, SelectorsFit, Fits, AllRows, SelectedShape;
    var front := Front(t.shape);
    assert front == Front(front) + [Last(front)];
    ResolveSplit(items, FULL, Front(front), Last(front));
    CountSplit(items, FULL, last);
    IndexedShape(t, items + [FULL], last);
    columns := Resolve(last, Width(t)).value;
  }

  lemma ChosenOf(l: LoraTensor, lead: seq<Item>, row: Item, last: Item)
    requires Constructed(l) && |lead| + 2 == |l.b.shape| && CountLists(lead + [row] + [last]) <= 1
    requires ResolveAll(lead, Front(Front(l.b.shape))).Ok? && Resolve(row, Last(Front(l.b.shape))).Ok?
    requires Resolve(last, Width(l.a)).Ok?
    ensures Chosen(Ok(lead + [row] + [last]), Shape(l))
            == Ok(ForProduct(ResolveAll(lead, Front(Front(l.b.shape))).value,
                             Resolve(row, Last(Front(l.b.shape))).value, Resolve(last, Width(l.a)).value))
  {
    hide ResolveAll, Resolve, CountLists, Prod, Fits;
    var b := Front(l.b.shape);
    assert b == Front(b) + [Last(b)];
    ResolveSplit(lead, row, Front(b), Last(b));
    ResolveSplit(lead + [row], last, b, Width(l.a));
  }

  /** No item is a list. */
  predicate NoLists(items: seq<Item>) {
    forall i :: 0 <= i < |items| ==> !items[i].List?
  }

  /** A slice that keeps the number of positions keeps them all in place. */
  lemma {:induction false} SpanUnmoved(lo: nat, hi: nat, step: nat, n: nat)
    requires step > 0 && hi <= n
    ensures |SpanRows(lo, hi, step)| <= (if lo < hi then hi - lo else 0)
    ensures lo < hi && |SpanRows(lo, hi, step)| == hi - lo ==>
              forall j :: 0 <= j < hi - lo ==> SpanRows(lo, hi, step)[j] == lo + j
    decreases hi - lo
  {
    if lo < hi {
      SpanUnmoved(lo + step, hi, step, n);
      var rest := SpanRows(lo + step, hi, step);
      if |rest| + 1 == hi - lo && lo + step < hi {
        assert step == 1;
        assert forall j :: 0 < j < hi - lo ==> SpanRows(lo, hi, step)[j] == rest[j - 1] == lo + j;
      }
    }
  }

  lemma SliceUnmoved(item: Item, n: nat)
    requires item.Span? && Resolve(item, n).Ok? && |Resolve(item, n).value.rows| == n
    ensures Unmoved(Resolve(item, n).value.rows)
  {
    hide SpanRows;
    var l := if item.lo.Some? then Clamp(item.lo.value, n) else 0;
    var h := if item.hi.Some? then Clamp(item.hi.value, n) else n;
    SpanUnmoved(l, h, item.step, n);
  }

  lemma SlicesKept(items: seq<Item>, lead: seq<nat>, to: seq<nat>)
    requires |items| == |lead| && Spreads(lead, to) && NoLists(items) && ResolveAll(items, to).Ok?
    ensures CountsMatch(ResolveAll(items, to).value, lead) <==> LeadsKept(ResolveAll(items, to).value, lead)
  {
    hide ResolveAll, Resolve, Unmoved;
    var sels := ResolveAll(items, to).value;
    if CountsMatch(sels, lead) {
      forall i | 0 <= i < |sels| && sels[i].Take? && lead[i] != 1
        ensures Unmoved(sels[i].rows)
      {
        assert Resolve(items[i], to[i]) == Ok(sels[i]);
        SpanOf(items[i], to[i]);
        SliceUnmoved(items[i], to[i]);
      }
    }
  }

  lemma SpanOf(item: Item, n: nat)
    requires Resolve(item, n).Ok? && !item.List? && Resolve(item, n).value.Take?
    ensures item.Span?
  {
  }

  /**
    An accepted tuple with at most one list and no integer on the last axis, of a pair whose A may
    be batched: the result multiplies out iff what remains of each batch axis of A and B has one
    extent or A's is one; if moreover no list reorders an axis that A has too, it is then the
    selection of the product, and its dense index if the two readings of the tuple are alike.
   */
  lemma BatchedIndexStep(l: LoraTensor, items: seq<Item>)
    requires WellFormed(l) && LoraIndex(l, items).Ok?
    requires var e := LoraExpand(items, |Shape(l)|).value; !Last(e).Int? && CountLists(e) <= 1
    ensures var (e, l') := (LoraExpand(items, |Shape(l)|).value, LoraIndex(l, items).value);
            && |e| == |Shape(l)| && BatchSelectors(l, e).Ok?
            && var sels := BatchSelectors(l, e).value;
            && |sels| == |ALead(l)|
            && (WellFormed(l') <==> CountsMatch(sels, ALead(l)))
            && (NoLists(e[..|e| - 2]) ==> (CountsMatch(sels, ALead(l)) <==> LeadsKept(sels, ALead(l))))
            && (LeadsKept(sels, ALead(l)) ==>
                  && WellFormed(l')
                  && Index(Product(l), e) == Ok(Product(l'))
                  && (ReadsAlike(items, Shape(l)) ==> DenseIndex(Product(l), items) == Ok(Product(l'))))
  {
    hide LoraExpand, LoraIndex, DenseIndex, ResolveAll, Index, CountLists, Select, Product, LeadsKept, CountsMatch, SameSelection,
         Selected, ForProduct, DenseExpand;
    PairRank(l, items);
    var e := LoraExpand(items, |Shape(l)|).value;
    var sels, rows, columns := AcceptedSelects(l, items);
    SelectedShapesOf(l, sels, rows, columns);
    LeadSpreads(l);
    if NoLists(e[..|e| - 2]) {
      SlicesKept(e[..|e| - 2], ALead(l), Front(Front(l.b.shape)));
    }
    if LeadsKept(sels, ALead(l)) {
      SelectedProduct(l, sels, rows, columns);
      IndexIsSelection(Product(l), e);
      if ReadsAlike(items, Shape(l)) {
        DenseReading(l, items);
      }
    }
  }

  lemma IndexIsSelection(t: Tensor<real>, e: seq<Item>)
    requires t.Valid() && Chosen(Ok(e), t.shape).Ok?
    ensures Index(t, e) == Ok(Select(t, Chosen(Ok(e), t.shape).value))
  {
    hide ResolveAll, Select, CountLists, KindsFit;
  }

  /** A tuple that both sides read alike selects the same of the product. */
  lemma DenseReading(l: LoraTensor, items: seq<Item>)
    requires WellFormed(l) && LoraExpand(items, |Shape(l)|).Ok? && ReadsAlike(items, Shape(l))
    ensures var s := Chosen(LoraExpand(items, |Shape(l)|), Shape(l));
            s.Ok? && DenseIndex(Product(l), items) == Ok(Select(Product(l), s.value))
  {
    hide LoraExpand, DenseExpand, ResolveAll, CountLists, Select, SameSelection, Product, DenseIndex;
    DenseChosen(Product(l), items);
    SelectAlike(Product(l), Chosen(LoraExpand(items, |Shape(l)|), Shape(l)).value,
                Chosen(DenseExpand(items, |Shape(l)|), Shape(l)).value);
  }

  // ---------------------------------------------------------------- for every pair of a shape

  /** Pairs of one shape that multiply out. */
  ghost predicate ShapedAs(k: LoraTensor, l: LoraTensor) {
    WellFormed(k) && k.a.shape == l.a.shape && k.b.shape == l.b.shape
  }

  /** The pair accepts the index, and multiplies out to what its own reading of the tuple selects of the product. */
  ghost predicate SelectsAlike(k: LoraTensor, items: seq<Item>)
    requires WellFormed(k)
  {
    && LoraIndex(k, items).Ok? && WellFormed(LoraIndex(k, items).value)
    && LoraExpand(items, |Shape(k)|).Ok?
    && Index(Product(k), LoraExpand(items, |Shape(k)|).value) == Ok(Product(LoraIndex(k, items).value))
  }

  lemma {:induction false} EmptyProduct(shape: seq<nat>)
    requires !Positive(shape)
    ensures Prod(shape) == 0
  {
    var n := |shape| - 1;
    if shape[n] > 0 {
      assert !Positive(Front(shape));
      EmptyProduct(Front(shape));
    }
  }

  /** A selection of nothing is the product of nothing. */
  lemma EmptySelected(l: LoraTensor, sels: seq<Selector>, rows: Selector, columns: Selector)
    requires AllFit(l, sels, rows, columns) && CountsMatch(sels, ALead(l))
    requires !Positive(Shape(Selected(l, sels, rows, columns)))
    ensures WellFormed(Selected(l, sels, rows, columns))
    ensures Select(Product(l), ForProduct(sels, rows, columns)) == Product(Selected(l, sels, rows, columns))
  {
    hide LeadSelectors, AllRows, SelectedShape, Select, Product, ForProduct, Selected, Prod, Positive;
    SelectedShapesOf(l, sels, rows, columns);
    EmptyProduct(Shape(Selected(l, sels, rows, columns)));
  }

  lemma PositiveParts(shape: seq<nat>, m: nat, n: nat)
    ensures Positive(shape + [m] + [n]) <==> Positive(shape) && m > 0 && n > 0
  {
    var all := shape + [m] + [n];
    assert all[|shape|] == m && all[|shape| + 1] == n;
    assert forall i :: 0 <= i < |shape| ==> all[i] == shape[i];
  }

  lemma AcceptedAs(k: LoraTensor, l: LoraTensor, items: seq<Item>)
    requires Constructed(l) && Constructed(k) && k.a.shape == l.a.shape && k.b.shape == l.b.shape && LoraIndex(l, items).Ok?
    ensures LoraIndex(k, items).Ok?
  {
    hide LoraExpand, LeadItems, Index, Prod;
    var rank := |Shape(l)|;
    var e := LoraExpand(items, rank).value;
    var lead := LeadItems(e[..rank - 2], ALead(l)).value;
    IndexShape(l.a, k.a, lead + [FULL, Last(e)]);
    IndexShape(l.b, k.b, Front(e) + [FULL]);
  }

  /** A pair's selection of the product, in terms of its selectors. */
  lemma SelectsAlikeIff(k: LoraTensor, items: seq<Item>)
    requires WellFormed(k) && LoraIndex(k, items).Ok?
    requires var e := LoraExpand(items, |Shape(k)|).value; !Last(e).Int? && CountLists(e) <= 1
    ensures var e := LoraExpand(items, |Shape(k)|).value;
            && LoraExpand(items, |Shape(k)|).Ok? && Chosen(Ok(e), Shape(k)).Ok?
            && (SelectsAlike(k, items) <==>
                  && WellFormed(LoraIndex(k, items).value)
                  && Select(Product(k), Chosen(Ok(e), Shape(k)).value) == Product(LoraIndex(k, items).value))
  {
    hide LoraExpand, LoraIndex, Chosen, Select, Product, Index, CountLists;
    PairRank(k, items);
    var _, _, _ := AcceptedSelects(k, items);
    IndexIsSelection(Product(k), LoraExpand(items, |Shape(k)|).value);
  }

  /** Pairs of one shape are selected by the same selectors. */
  lemma SelectedAs(l: LoraTensor, k: LoraTensor, items: seq<Item>, sels: seq<Selector>, rows: Selector, columns: Selector)
    requires WellFormed(l) && ShapedAs(k, l) && LoraIndex(l, items).Ok?
    requires var e := LoraExpand(items, |Shape(l)|).value;
             !Last(e).Int? && CountLists(e) <= 1 && Chosen(Ok(e), Shape(l)) == Ok(ForProduct(sels, rows, columns))
    ensures LoraIndex(k, items).Ok? && AllFit(k, sels, rows, columns) && LoraIndex(k, items).value == Selected(k, sels, rows, columns)
    ensures SelectsAlike(k, items) <==>
              && WellFormed(Selected(k, sels, rows, columns))
              && Select(Product(k), ForProduct(sels, rows, columns)) == Product(Selected(k, sels, rows, columns))
  {
    assert Constructed(l) && Constructed(k) && Shape(k) == Shape(l);
    hide LoraExpand, LoraIndex, Chosen, Select, Product, Index, CountLists, Selected, SelectsAlike, AllFit, WellFormed;
    AcceptedAs(k, l, items);
    SelectsAlikeIff(k, items);
    var sels', rows', columns' := AcceptedSelects(k, items);
    SameParts(sels, rows, columns, sels', rows', columns');
  }

  lemma SameParts(sels: seq<Selector>, rows: Selector, columns: Selector, sels': seq<Selector>, rows': Selector, columns': Selector)
    requires ForProduct(sels, rows, columns) == ForProduct(sels', rows', columns')
    ensures sels == sels' && rows == rows' && columns == columns'
  {
    var (all, all') := (ForProduct(sels, rows, columns), ForProduct(sels', rows', columns'));
    assert |all| == |sels| + 2 && |all'| == |sels'| + 2;
    assert all[..|sels|] == sels && all'[..|sels'|] == sels';
    assert all[|sels|] == rows && all[|sels| + 1] == columns && all'[|sels'|] == rows' && all'[|sels'| + 1] == columns';
  }

  /**
    Over all pairs of a shape with a positive inner extent, the index of the pair is what its own
    reading of the tuple selects of the product if and only if what remains of each batch axis of A
    and B has one extent or A's is one, and no list reorders an axis that A has too, unless nothing
    is selected.
   */
  lemma BatchedIndexExact(l: LoraTensor, items: seq<Item>)
    requires WellFormed(l) && Rank(l) > 0 && LoraIndex(l, items).Ok?
    requires var e := LoraExpand(items, |Shape(l)|).value; !Last(e).Int? && CountLists(e) <= 1
    ensures var e := LoraExpand(items, |Shape(l)|).value;
            && |e| == |Shape(l)| && BatchSelectors(l, e).Ok? && |BatchSelectors(l, e).value| == |ALead(l)|
            && var sels := BatchSelectors(l, e).value;
               (forall k | ShapedAs(k, l) :: SelectsAlike(k, items))
               <==> CountsMatch(sels, ALead(l)) && (LeadsKept(sels, ALead(l)) || !Positive(Shape(LoraIndex(l, items).value)))
  {
    hide LoraExpand, LoraIndex, Chosen, Select, Product, CountLists, Selected, SelectsAlike, CountsMatch, LeadsKept, Positive,
         ForProduct, SelectedShape;
    var sels, rows, columns := AcceptedSelects(l, items);
    SelectedShapesOf(l, sels, rows, columns);
    PositiveParts(SelectedShape(sels), |rows.rows|, |columns.rows|);
    var kept := CountsMatch(sels, ALead(l)) && (LeadsKept(sels, ALead(l)) || !Positive(Shape(LoraIndex(l, items).value)));
    if kept {
      forall k | ShapedAs(k, l)
        ensures SelectsAlike(k, items)
      {
        SelectedAs(l, k, items, sels, rows, columns);
        KeptAlike(l, k, sels, rows, columns);
      }
    } else if !CountsMatch(sels, ALead(l)) {
      ShapedSelf(l);
      SelectedAs(l, l, items, sels, rows, columns);
    } else {
      var k := ReorderedApart(l, sels, rows, columns);
      ShapedFit(k, l, sels, rows, columns);
      SelectedAs(l, k, items, sels, rows, columns);
    }
  }

  lemma ShapedSelf(l: LoraTensor)
    requires WellFormed(l)
    ensures ShapedAs(l, l)
  {
  }

  lemma ShapedFit(k: LoraTensor, l: LoraTensor, sels: seq<Selector>, rows: Selector, columns: Selector)
    requires AllFit(k, sels, rows, columns) && k.a.shape == l.a.shape && k.b.shape == l.b.shape
    ensures ShapedAs(k, l)
  {
    hide SelectorsFit, Fits;
  }

  lemma KeptAlike(l: LoraTensor, k: LoraTensor, sels: seq<Selector>, rows: Selector, columns: Selector)
    requires AllFit(l, sels, rows, columns) && AllFit(k, sels, rows, columns) && k.a.shape == l.a.shape && k.b.shape == l.b.shape
    requires CountsMatch(sels, ALead(l))
    requires LeadsKept(sels, ALead(l)) || !Positive(Shape(Selected(l, sels, rows, columns)))
    ensures WellFormed(Selected(k, sels, rows, columns))
    ensures Select(Product(k), ForProduct(sels, rows, columns)) == Product(Selected(k, sels, rows, columns))
  {
    hide Select, Product, Selected, CountsMatch, LeadsKept, Positive, ForProduct, SelectedShape, SelectorsFit, Fits;
    if LeadsKept(sels, ALead(l)) {
      SelectedProduct(k, sels, rows, columns);
    } else {
      SelectedShapesOf(l, sels, rows, columns);
      SelectedShapesOf(k, sels, rows, columns);
      EmptySelected(k, sels, rows, columns);
    }
  }
}
