/**
  The pair's operations along the first axis: integer and slice indexing, stack and cat.
  A tensor of shape [n] + rest is read as n sub-tensors of shape rest.
 */
module LoraBatches {
  import opened Wrappers
  import opened Tensors
  import opened Lora

  function Tail<T>(s: seq<T>): seq<T>
    requires s != []
  {
    s[1..]
  }

  // ---------------------------------------------------------------- sub-tensors

  lemma {:induction false} LeadSplit(n: nat, rest: seq<nat>)
    ensures Prod([n] + rest) == n * Prod(rest)
  {
    var shape := [n] + rest;
    if rest == [] {
      assert Front(shape) == [];
    } else {
      assert Front(shape) == [n] + Front(rest);
      LeadSplit(n, Front(rest));
      Associate(n, Prod(Front(rest)), Last(rest));
    }
  }

  lemma Associate(a: nat, b: nat, c: nat)
    ensures a * b * c == a * (b * c)
  {
  }

  lemma {:induction false} LeadFlat(n: nat, rest: seq<nat>, i: nat, idx: seq<nat>)
    requires |idx| == |rest|
    ensures Flat([n] + rest, [i] + idx) == i * Prod(rest) + Flat(rest, idx)
  {
    var shape, full := [n] + rest, [i] + idx;
    if rest == [] {
      assert Front(shape) == [] && Front(full) == [];
    } else {
      assert Front(shape) == [n] + Front(rest) && Front(full) == [i] + Front(idx);
      LeadFlat(n, Front(rest), i, Front(idx));
      Distribute(i * Prod(Front(rest)), Flat(Front(rest), Front(idx)), Last(rest));
      Associate(i, Prod(Front(rest)), Last(rest));
    }
  }

  lemma Distribute(a: nat, b: nat, c: nat)
    ensures (a + b) * c == a * c + b * c
  {
  }

  lemma SubBounds(n: nat, rest: seq<nat>, i: nat)
    requires i < n
    ensures i * Prod(rest) + Prod(rest) <= Prod([n] + rest)
  {
    hide Prod;
    LeadSplit(n, rest);
    MulMonotone(i + 1, n, Prod(rest));
    Distribute(i, 1, Prod(rest));
  }

  /** The i-th sub-tensor along the first axis. */
  function Sub<T>(t: Tensor<T>, i: nat): (r: Tensor<T>)
    requires t.Valid() && t.shape != [] && i < t.shape[0]
    ensures r.Valid() && r.shape == Tail(t.shape)
  {
    var size := Prod(Tail(t.shape));
    SubBounds(t.shape[0], Tail(t.shape), i);
    assert [t.shape[0]] + Tail(t.shape) == t.shape;
    Tensor(Tail(t.shape), t.data[i * size..i * size + size])
  }

  lemma SubAt<T>(t: Tensor<T>, i: nat, idx: seq<nat>)
    requires t.Valid() && t.shape != [] && i < t.shape[0] && InShape(Tail(t.shape), idx)
    ensures InShape(t.shape, [i] + idx) && At(Sub(t, i), idx) == At(t, [i] + idx)
  {
    hide Prod, Flat, Unflat;
    assert [t.shape[0]] + Tail(t.shape) == t.shape;
    LeadFlat(t.shape[0], Tail(t.shape), i, idx);
    SubBounds(t.shape[0], Tail(t.shape), i);
    FlatBound(Tail(t.shape), idx);
    FlatBound(t.shape, [i] + idx);
  }

  lemma SameSubs<T>(t: Tensor<T>, u: Tensor<T>)
    requires t.Valid() && u.Valid() && t.shape == u.shape != []
    requires forall i: nat | i < t.shape[0] :: Sub(t, i) == Sub(u, i)
    ensures t == u
  {
    forall idx | InShape(t.shape, idx)
      ensures At(t, idx) == At(u, idx)
    {
      assert idx == [idx[0]] + Tail(idx);
      assert Sub(t, idx[0]) == Sub(u, idx[0]);
      SubAt(t, idx[0], Tail(idx));
      SubAt(u, idx[0], Tail(idx));
    }
    SameEntries(t, u);
  }

  // ---------------------------------------------------------------- dense operations

  function Concat<T>(parts: seq<seq<T>>): seq<T> {
    if parts == [] then [] else Concat(Front(parts)) + Last(parts)
  }

  lemma {:induction false} ConcatLength<T>(parts: seq<seq<T>>, size: nat)
    requires forall i :: 0 <= i < |parts| ==> |parts[i]| == size
    ensures |Concat(parts)| == |parts| * size
  {
    if parts != [] {
      ConcatLength(Front(parts), size);
      Distribute(|parts| - 1, 1, size);
    }
  }

  lemma {:induction false} ConcatPart<T>(parts: seq<seq<T>>, size: nat, i: nat)
    requires forall i :: 0 <= i < |parts| ==> |parts[i]| == size
    requires i < |parts|
    ensures 0 <= i * size && i * size + size <= |Concat(parts)| && Concat(parts)[i * size..i * size + size] == parts[i]
  {
    ConcatLength(Front(parts), size);
    if i < |parts| - 1 {
      Distribute(i, 1, size);
      MulMonotone(i + 1, |parts| - 1, size);
      ConcatPart(Front(parts), size, i);
      SlicePrefix(Concat(Front(parts)), Last(parts), i * size, i * size + size);
    } else {
      SliceSuffix(Concat(Front(parts)), Last(parts));
    }
  }

  lemma SlicePrefix<T>(s: seq<T>, t: seq<T>, lo: int, hi: int)
    requires 0 <= lo <= hi <= |s|
    ensures (s + t)[lo..hi] == s[lo..hi]
  {
  }

  lemma SliceSuffix<T>(s: seq<T>, t: seq<T>)
    ensures (s + t)[|s|..|s| + |t|] == t
  {
  }

  function Datas<T>(ts: seq<Tensor<T>>): (r: seq<seq<T>>)
    ensures |r| == |ts| && forall i :: 0 <= i < |ts| ==> r[i] == ts[i].data
  {
    seq(|ts|, i requires 0 <= i < |ts| => ts[i].data)
  }

  predicate SameShapes<T>(ts: seq<Tensor<T>>, shape: seq<nat>) {
    forall i :: 0 <= i < |ts| ==> ts[i].shape == shape && ts[i].Valid()
  }

  function StackOf<T>(ts: seq<Tensor<T>>, shape: seq<nat>): (r: Tensor<T>)
    requires SameShapes(ts, shape)
    ensures r.Valid() && r.shape == [|ts|] + shape
  {
    ConcatLength(Datas(ts), Prod(shape));
    LeadSplit(|ts|, shape);
    Tensor([|ts|] + shape, Concat(Datas(ts)))
  }

  /** torch.stack along a new first axis. */
  function Stack<T>(ts: seq<Tensor<T>>): (r: Result<Tensor<T>, TensorError>)
    ensures r.Ok? ==> r.value.Valid()
  {
    if ts == [] || !SameShapes(ts, ts[0].shape) then Err(BadShape) else Ok(StackOf(ts, ts[0].shape))
  }

  lemma StackSub<T>(ts: seq<Tensor<T>>, shape: seq<nat>, i: nat)
    requires SameShapes(ts, shape) && i < |ts|
    ensures Sub(StackOf(ts, shape), i) == ts[i]
  {
    ConcatPart(Datas(ts), Prod(shape), i);
    assert Tail([|ts|] + shape) == shape;
  }

  /** The first axis thinned to the listed positions. */
  function TakeRows<T>(t: Tensor<T>, rows: seq<nat>): (r: Tensor<T>)
    requires t.Valid() && t.shape != [] && Fits(Take(rows), t.shape[0])
    ensures r.Valid() && r.shape == [|rows|] + Tail(t.shape)
  {
    StackOf(seq(|rows|, j requires 0 <= j < |rows| => Sub(t, rows[j])), Tail(t.shape))
  }

  lemma TakeRowsSub<T>(t: Tensor<T>, rows: seq<nat>, j: nat)
    requires t.Valid() && t.shape != [] && Fits(Take(rows), t.shape[0]) && j < |rows|
    ensures Sub(TakeRows(t, rows), j) == Sub(t, rows[j])
  {
    StackSub(seq(|rows|, j requires 0 <= j < |rows| => Sub(t, rows[j])), Tail(t.shape), j);
  }

  /** Indexing the first axis with an integer or a slice. */
  function IndexFirst<T>(t: Tensor<T>, item: Item): (r: Result<Tensor<T>, TensorError>)
    requires t.Valid() && t.shape != []
    ensures r.Ok? ==> r.value.Valid()
  {
    match Resolve(item, t.shape[0])
    case Err(e) => Err(e)
    case Ok(Pick(i)) => Ok(Sub(t, i))
    case Ok(Take(rows)) => Ok(TakeRows(t, rows))
  }

  // ---------------------------------------------------------------- the product, batch by batch

  /** The i-th batch of a pair; a broadcast A is read at 0. */
  function SubPair(l: LoraTensor, i: nat): LoraTensor
    requires Constructed(l) && |l.b.shape| >= 3 && i < l.b.shape[0]
    requires l.a.shape[0] == 1 || l.a.shape[0] == l.b.shape[0]
  {
    LoraTensor(Sub(l.a, if l.a.shape[0] == 1 then 0 else i), Sub(l.b, i))
  }

  lemma ProductAtIndex(l: LoraTensor, idx: seq<nat>)
    requires WellFormed(l) && InShape(Shape(l), idx)
    ensures At(Product(l), idx) == ProductAt(l, idx)
  {
    hide Prod, Flat, Unflat;
    FlatBound(Shape(l), idx);
  }

  lemma SubPairFormed(l: LoraTensor, i: nat)
    requires WellFormed(l) && |l.b.shape| >= 3 && i < l.b.shape[0]
    ensures l.a.shape[0] == 1 || l.a.shape[0] == l.b.shape[0]
    ensures WellFormed(SubPair(l, i)) && Shape(SubPair(l, i)) == Tail(Shape(l))
    ensures Rank(SubPair(l, i)) == Rank(l) && ALead(SubPair(l, i)) == Tail(ALead(l))
  {
    hide Prod, Sub;
    assert ALead(l)[0] == l.a.shape[0];
    var s := SubPair(l, i);
    assert ALead(s) == Tail(ALead(l)) && s.b.shape == Tail(l.b.shape);
    assert forall k :: 0 <= k < |ALead(s)| ==> ALead(s)[k] == ALead(l)[k + 1] && s.b.shape[k] == l.b.shape[k + 1];
    assert Shape(s) == Tail(Shape(l));
  }

  /** Each batch of the product is the product of that batch. */
  lemma SubProduct(l: LoraTensor, i: nat)
    requires WellFormed(l) && |l.b.shape| >= 3 && i < l.b.shape[0]
    ensures l.a.shape[0] == 1 || l.a.shape[0] == l.b.shape[0]
    ensures WellFormed(SubPair(l, i)) && Sub(Product(l), i) == Product(SubPair(l, i))
  {
    hide Product, Sub, ProductAt;
    SubPairFormed(l, i);
    var s := SubPair(l, i);
    forall idx | InShape(Tail(Shape(l)), idx)
      ensures At(Sub(Product(l), i), idx) == At(Product(s), idx)
    {
      SubAt(Product(l), i, idx);
      ProductAtIndex(l, [i] + idx);
      ProductAtIndex(s, idx);
      SubProductAt(l, i, idx);
    }
    SameEntries(Sub(Product(l), i), Product(s));
  }

  lemma SubProductAt(l: LoraTensor, i: nat, idx: seq<nat>)
    requires WellFormed(l) && |l.b.shape| >= 3 && i < l.b.shape[0]
    requires l.a.shape[0] == 1 || l.a.shape[0] == l.b.shape[0]
    requires WellFormed(SubPair(l, i)) && Shape(SubPair(l, i)) == Tail(Shape(l))
    requires InShape(Tail(Shape(l)), idx) && InShape(Shape(l), [i] + idx)
    ensures ProductAt(l, [i] + idx) == ProductAt(SubPair(l, i), idx)
  {
    hide Sub, Prod, Flat, Unflat, Product;
    SubPairFormed(l, i);
    var s := SubPair(l, i);
    var full := [i] + idx;
    var row, row' := Front(idx), Front(full);
    assert row' == [i] + row;
    assert Front(row') == [i] + Front(row);
    var batch, batch' := Broadcast(ALead(s), Front(row)), Broadcast(ALead(l), Front(row'));
    var ia := if l.a.shape[0] == 1 then 0 else i;
    assert ALead(l)[0] == l.a.shape[0];
    assert batch' == [ia] + batch;
    SubRow(l.b, i, row);
    SubColumn(l, i, idx);
  }

  lemma SubRow(b: Tensor<real>, i: nat, row: seq<nat>)
    requires b.Valid() && |b.shape| >= 2 && i < b.shape[0] && InShape(Front(Tail(b.shape)), row)
    ensures InShape(Front(b.shape), [i] + row) && RowAt(Sub(b, i), row) == RowAt(b, [i] + row)
  {
    hide Sub, Prod, Flat, Unflat;
    forall q | 0 <= q < Last(b.shape)
      ensures InShape(Tail(b.shape), row + [q]) && InShape(b.shape, [i] + row + [q])
      ensures At(Sub(b, i), row + [q]) == At(b, [i] + row + [q])
    {
      assert [i] + row + [q] == [i] + (row + [q]);
      SubAt(b, i, row + [q]);
    }
  }

  lemma SubColumn(l: LoraTensor, i: nat, idx: seq<nat>)
    requires WellFormed(l) && |l.b.shape| >= 3 && i < l.b.shape[0]
    requires l.a.shape[0] == 1 || l.a.shape[0] == l.b.shape[0]
    requires WellFormed(SubPair(l, i)) && Shape(SubPair(l, i)) == Tail(Shape(l))
    requires InShape(Tail(Shape(l)), idx) && InShape(Shape(l), [i] + idx)
    ensures var ia := if l.a.shape[0] == 1 then 0 else i;
            var batch := Broadcast(ALead(SubPair(l, i)), Front(Front(idx)));
            && InShape(ALead(SubPair(l, i)), batch) && InShape(ALead(l), [ia] + batch)
            && ColumnAt(SubPair(l, i).a, batch, Last(idx)) == ColumnAt(l.a, [ia] + batch, Last(idx))
  {
    hide Sub, Prod, Flat, Unflat, Product;
    SubPairFormed(l, i);
    var s := SubPair(l, i);
    var ia := if l.a.shape[0] == 1 then 0 else i;
    var batch := Broadcast(ALead(s), Front(Front(idx)));
    forall q | 0 <= q < Rank(l)
      ensures InShape(s.a.shape, batch + [q, Last(idx)]) && InShape(l.a.shape, [ia] + batch + [q, Last(idx)])
      ensures At(s.a, batch + [q, Last(idx)]) == At(l.a, [ia] + batch + [q, Last(idx)])
    {
      assert [ia] + batch + [q, Last(idx)] == [ia] + (batch + [q, Last(idx)]);
      BatchInShape(s, idx, q);
      SubAt(l.a, ia, batch + [q, Last(idx)]);
    }
  }

  lemma BatchInShape(l: LoraTensor, idx: seq<nat>, q: nat)
    requires WellFormed(l) && InShape(Shape(l), idx) && q < Rank(l)
    ensures InShape(l.a.shape, Broadcast(ALead(l), Front(Front(idx))) + [q, Last(idx)])
  {
    var batch := Broadcast(ALead(l), Front(Front(idx)));
    var full := batch + [q, Last(idx)];
    forall i | 0 <= i < |full|
      ensures full[i] < l.a.shape[i]
    {
      if i < |batch| {
        assert ALead(l)[i] == l.a.shape[i];
      }
    }
  }

  // ---------------------------------------------------------------- single index

  /** Indexing a pair with one integer or one slice. */
  function LoraGet(l: LoraTensor, item: Item): (r: Result<LoraTensor, TensorError>)
    requires Constructed(l)
    ensures r.Ok? ==> Constructed(r.value)
  {
    if |Shape(l)| > 2 then
      var a :- IndexFirst(l.a, item);
      var b :- IndexFirst(l.b, item);
      MakeLora(a, b)
    else if item.Int? then
      Err(NotImplemented)
    else
      var b :- IndexFirst(l.b, item);
      MakeLora(l.a, b)
  }

  /** The row vector u times the matrix a. */
  function RowProduct(u: Tensor<real>, a: Tensor<real>): (r: Tensor<real>)
    requires a.Valid() && |a.shape| == 2 && |u.data| == Rows(a)
    ensures r.Valid()
  {
    FlatOne(Width(a), 0);
    Tensor([Width(a)], seq(Width(a), c requires 0 <= c < Width(a) => Dot(u.data, ColumnOf(a, c))))
  }

  lemma MatrixSub(t: Tensor<real>, p: nat)
    requires t.Valid() && |t.shape| == 2 && p < t.shape[0]
    ensures Rows(t) == t.shape[0] && |Sub(t, p).data| == Width(t)
    ensures forall q :: 0 <= q < Width(t) ==> Sub(t, p).data[q] == Cell(t, p, q)
  {
    hide Prod, Flat, Unflat;
    RowsOfMatrix(t);
    var w := Width(t);
    assert Tail(t.shape) == [w];
    FlatOne(w, 0);
    SubBounds(t.shape[0], [w], p);
    assert [t.shape[0]] + [w] == t.shape;
    assert Sub(t, p).data == t.data[p * w..p * w + w];
    forall q | 0 <= q < w
      ensures Sub(t, p).data[q] == Cell(t, p, q)
    {
      assert t.data[p * w..p * w + w][q] == t.data[p * w + q];
    }
  }

  /** Each row of a 2-D product is that row of B times A. */
  lemma MatrixProductSub(l: LoraTensor, p: nat)
    requires Unbatched(l) && |l.b.shape| == 2 && p < l.b.shape[0]
    ensures WellFormed(l) && |Sub(l.b, p).data| == Rows(l.a)
    ensures Sub(Product(l), p) == RowProduct(Sub(l.b, p), l.a)
  {
    UnbatchedRows(l);
    MatrixSub(l.b, p);
    MatrixSub(Product(l), p);
    assert Sub(l.b, p).data == RowOf(l.b, p);
    var u := Sub(Product(l), p);
    assert u.shape == [Width(l.a)];
    forall c | 0 <= c < Width(l.a)
      ensures u.data[c] == RowProduct(Sub(l.b, p), l.a).data[c]
    {
      ProductCell(l, p, c);
    }
  }

  /** Whether the pair that `LoraGet` returns still multiplies out. */
  ghost predicate GetKeepsBatches(l: LoraTensor, item: Item)
    requires Constructed(l)
  {
    |Shape(l)| == 2 || item.Int? || (
      match (Resolve(item, l.a.shape[0]), Resolve(item, l.b.shape[0]))
      case (Ok(Take(rowsA)), Ok(Take(rowsB))) => |rowsA| == 1 || |rowsA| == |rowsB|
      case _ => true)
  }

  /** One integer or slice: the result multiplies out iff the batches match, and then it is right. */
  lemma GetStep(l: LoraTensor, item: Item)
    requires Constructed(l) && WellFormed(l) && LoraGet(l, item).Ok?
    ensures WellFormed(LoraGet(l, item).value) <==> GetKeepsBatches(l, item)
    ensures GetKeepsBatches(l, item) ==> IndexFirst(Product(l), item) == Ok(Product(LoraGet(l, item).value))
  {
    hide Product, Sub, TakeRows, WellFormed, Prod;
    if |Shape(l)| == 2 {
      GetMatrix(l, item);
    } else if item.Int? {
      GetOne(l, item);
    } else {
      BatchExtent(l);
      GetBatches(l, Resolve(item, l.a.shape[0]).value.rows, Resolve(item, l.b.shape[0]).value.rows);
    }
  }

  lemma BatchExtent(l: LoraTensor)
    requires Constructed(l) && WellFormed(l) && |l.b.shape| > 2
    ensures l.a.shape[0] == 1 || l.a.shape[0] == l.b.shape[0]
  {
    assert ALead(l)[0] == l.a.shape[0];
  }

  lemma GetOne(l: LoraTensor, item: Item)
    requires Constructed(l) && WellFormed(l) && |l.b.shape| > 2 && item.Int? && LoraGet(l, item).Ok?
    ensures WellFormed(LoraGet(l, item).value)
    ensures IndexFirst(Product(l), item) == Ok(Product(LoraGet(l, item).value))
  {
    hide Product, Sub, Prod;
    BatchExtent(l);
    var i := Resolve(item, l.b.shape[0]).value.i;
    SubProduct(l, i);
    assert LoraGet(l, item).value == SubPair(l, i);
  }

  lemma GetMatrix(l: LoraTensor, item: Item)
    requires Constructed(l) && WellFormed(l) && |Shape(l)| == 2 && LoraGet(l, item).Ok?
    ensures WellFormed(LoraGet(l, item).value)
    ensures IndexFirst(Product(l), item) == Ok(Product(LoraGet(l, item).value))
  {
    hide Product, Sub, TakeRows, RowProduct;
    var rows := Resolve(item, l.b.shape[0]).value.rows;
    var l' := LoraTensor(l.a, TakeRows(l.b, rows));
    var t := TakeRows(Product(l), rows);
    forall j: nat | j < |rows|
      ensures Sub(t, j) == Sub(Product(l'), j)
    {
      TakeRowsSub(Product(l), rows, j);
      TakeRowsSub(l.b, rows, j);
      MatrixProductSub(l, rows[j]);
      MatrixProductSub(l', j);
    }
    SameSubs(t, Product(l'));
  }

  lemma TakenBatches(l: LoraTensor, rowsA: seq<nat>, rowsB: seq<nat>)
    requires WellFormed(l) && |l.b.shape| > 2
    requires Fits(Take(rowsA), l.a.shape[0]) && Fits(Take(rowsB), l.b.shape[0])
    ensures var l' := LoraTensor(TakeRows(l.a, rowsA), TakeRows(l.b, rowsB));
            && Constructed(l') && Rank(l') == Rank(l)
            && (WellFormed(l') <==> |rowsA| == 1 || |rowsA| == |rowsB|)
            && Shape(l') == [|rowsB|] + Tail(Shape(l))
  {
    hide Product, Sub, TakeRows;
    var l' := LoraTensor(TakeRows(l.a, rowsA), TakeRows(l.b, rowsB));
    assert ALead(l)[0] == l.a.shape[0] && ALead(l')[0] == |rowsA|;
    assert forall i :: 1 <= i < |ALead(l)| ==> ALead(l')[i] == ALead(l)[i] && l'.b.shape[i] == l.b.shape[i];
  }

  lemma GetBatches(l: LoraTensor, rowsA: seq<nat>, rowsB: seq<nat>)
    requires Constructed(l) && WellFormed(l) && |l.b.shape| > 2
    requires Fits(Take(rowsA), l.a.shape[0]) && Fits(Take(rowsB), l.b.shape[0])
    requires l.a.shape[0] == l.b.shape[0] ==> rowsA == rowsB
    ensures var l' := LoraTensor(TakeRows(l.a, rowsA), TakeRows(l.b, rowsB));
            && (WellFormed(l') <==> |rowsA| == 1 || |rowsA| == |rowsB|)
            && (WellFormed(l') ==> TakeRows(Product(l), rowsB) == Product(l'))
  {
    hide Product, Sub, TakeRows, WellFormed;
    TakenBatches(l, rowsA, rowsB);
    var l' := LoraTensor(TakeRows(l.a, rowsA), TakeRows(l.b, rowsB));
    if WellFormed(l') {
      var t := TakeRows(Product(l), rowsB);
      forall j: nat | j < |rowsB|
        ensures Sub(t, j) == Sub(Product(l'), j)
      {
        var ja := if |rowsA| == 1 then 0 else j;
        TakeRowsSub(Product(l), rowsB, j);
        TakeRowsSub(l.b, rowsB, j);
        TakeRowsSub(l.a, rowsA, ja);
        SubProduct(l, rowsB[j]);
        SubProduct(l', j);
        assert SubPair(l', j) == SubPair(l, rowsB[j]);
      }
      SameSubs(t, Product(l'));
    }
  }

  // ---------------------------------------------------------------- stack

  function As(ls: seq<LoraTensor>): (r: seq<Tensor<real>>)
    ensures |r| == |ls| && forall i :: 0 <= i < |ls| ==> r[i] == ls[i].a
  {
    seq(|ls|, i requires 0 <= i < |ls| => ls[i].a)
  }

  function Bs(ls: seq<LoraTensor>): (r: seq<Tensor<real>>)
    ensures |r| == |ls| && forall i :: 0 <= i < |ls| ==> r[i] == ls[i].b
  {
    seq(|ls|, i requires 0 <= i < |ls| => ls[i].b)
  }

  ghost function Products(ls: seq<LoraTensor>): (r: seq<Tensor<real>>)
    requires forall i :: 0 <= i < |ls| ==> WellFormed(ls[i])
    ensures |r| == |ls| && forall i :: 0 <= i < |ls| ==> r[i] == Product(ls[i])
  {
    seq(|ls|, i requires 0 <= i < |ls| => Product(ls[i]))
  }

  ghost predicate AllConstructed(ls: seq<LoraTensor>) {
    forall i :: 0 <= i < |ls| ==> Constructed(ls[i])
  }

  function LoraStack(ls: seq<LoraTensor>): (r: Result<LoraTensor, TensorError>)
    ensures r.Ok? ==> Constructed(r.value)
  {
    var a :- Stack(As(ls));
    var b :- Stack(Bs(ls));
    MakeLora(a, b)
  }

  /** Stacking pairs stacks their products. */
  lemma StackStep(ls: seq<LoraTensor>)
    requires LoraStack(ls).Ok? && forall i :: 0 <= i < |ls| ==> WellFormed(ls[i])
    ensures WellFormed(LoraStack(ls).value)
    ensures Stack(Products(ls)) == Ok(Product(LoraStack(ls).value))
  {
    hide Product, Sub, StackOf;
    var l' := LoraStack(ls).value;
    var n := |ls|;
    var sa, sb := As(ls)[0].shape, Bs(ls)[0].shape;
    assert l'.a == StackOf(As(ls), sa) && l'.b == StackOf(Bs(ls), sb);
    assert ALead(l') == [n] + ALead(ls[0]);
    forall i | 0 <= i < |ALead(l')|
      ensures ALead(l')[i] == 1 || ALead(l')[i] == l'.b.shape[i]
    {
      if i > 0 {
        assert ALead(ls[0])[i - 1] == ALead(l')[i] && l'.b.shape[i] == ls[0].b.shape[i - 1];
      }
    }
    assert forall i :: 0 <= i < n ==> Products(ls)[i].shape == Shape(ls[0]);
    var t := StackOf(Products(ls), Shape(ls[0]));
    assert t.shape == Shape(l');
    forall i: nat | i < n
      ensures Sub(t, i) == Sub(Product(l'), i)
    {
      StackSub(Products(ls), Shape(ls[0]), i);
      StackSub(As(ls), sa, i);
      StackSub(Bs(ls), sb, i);
      SubProduct(l', i);
      assert SubPair(l', i) == ls[i];
    }
    SameSubs(t, Product(l'));
  }

  // ---------------------------------------------------------------- cat

  function Subs<T>(t: Tensor<T>): (r: seq<Tensor<T>>)
    requires t.Valid() && t.shape != []
    ensures |r| == t.shape[0] && SameShapes(r, Tail(t.shape))
    ensures forall i :: 0 <= i < |r| ==> r[i] == Sub(t, i)
  {
    seq(t.shape[0], i requires 0 <= i < t.shape[0] => Sub(t, i))
  }

  predicate SameTails<T>(ts: seq<Tensor<T>>, tail: seq<nat>) {
    forall i :: 0 <= i < |ts| ==> ts[i].Valid() && ts[i].shape != [] && Tail(ts[i].shape) == tail
  }

  function AllSubs<T>(ts: seq<Tensor<T>>, tail: seq<nat>): (r: seq<Tensor<T>>)
    requires SameTails(ts, tail)
    ensures SameShapes(r, tail)
  {
    if ts == [] then [] else AllSubs(Front(ts), tail) + Subs(Last(ts))
  }

  /** torch.cat along the first axis. */
  function Cat<T>(ts: seq<Tensor<T>>): (r: Result<Tensor<T>, TensorError>)
    ensures r.Ok? ==> r.value.Valid()
  {
    if ts == [] || ts[0].shape == [] || !SameTails(ts, Tail(ts[0].shape)) then Err(BadShape)
    else Ok(StackOf(AllSubs(ts, Tail(ts[0].shape)), Tail(ts[0].shape)))
  }

  function LoraCat(ls: seq<LoraTensor>): (r: Result<LoraTensor, TensorError>)
    requires AllConstructed(ls)
    ensures r.Ok? ==> Constructed(r.value)
  {
    if ls == [] then Err(BadIndex)
    else if |Shape(ls[0])| > 2 then
      var a :- Cat(As(ls));
      var b :- Cat(Bs(ls));
      MakeLora(a, b)
    else if forall i :: 0 <= i < |ls| ==> ls[i].a == ls[0].a then
      var b :- Cat(Bs(ls));
      MakeLora(ls[0].a, b)
    else
      Err(NotImplemented)
  }

  lemma AllSubsLast<T>(ts: seq<Tensor<T>>, tail: seq<nat>, j: nat)
    requires ts != [] && SameTails(ts, tail)
    ensures var front := AllSubs(Front(ts), tail);
            && |AllSubs(ts, tail)| == |front| + Last(ts).shape[0]
            && (j < |front| ==> AllSubs(ts, tail)[j] == front[j])
            && (|front| <= j < |AllSubs(ts, tail)| ==> AllSubs(ts, tail)[j] == Sub(Last(ts), j - |front|))
  {
    hide Sub, Prod, SameShapes;
    assert AllSubs(ts, tail) == AllSubs(Front(ts), tail) + Subs(Last(ts));
  }

  lemma AllSubsNone<T>(tail: seq<nat>)
    ensures SameTails<T>([], tail) && AllSubs<T>([], tail) == []
  {
  }

  /** A relation that holds row by row holds along the concatenation. */
  lemma {:induction false} AllSubsRelated(
      xs: seq<Tensor<real>>, ys: seq<Tensor<real>>, zs: seq<Tensor<real>>,
      tx: seq<nat>, ty: seq<nat>, tz: seq<nat>,
      related: (Tensor<real>, Tensor<real>, Tensor<real>) -> bool, j: nat)
    requires |xs| == |ys| == |zs|
    requires SameTails(xs, tx) && SameTails(ys, ty) && SameTails(zs, tz)
    requires forall i :: 0 <= i < |xs| ==> xs[i].shape[0] == ys[i].shape[0] == zs[i].shape[0]
    requires forall i, k: nat :: 0 <= i < |xs| && k < xs[i].shape[0] ==>
               related(Sub(xs[i], k), Sub(ys[i], k), Sub(zs[i], k))
    ensures |AllSubs(xs, tx)| == |AllSubs(ys, ty)| == |AllSubs(zs, tz)|
    ensures j < |AllSubs(xs, tx)| ==> related(AllSubs(xs, tx)[j], AllSubs(ys, ty)[j], AllSubs(zs, tz)[j])
  {
    hide Sub, Prod, AllSubs, Subs, SameShapes;
    if xs == [] {
      AllSubsNone<real>(tx);
      AllSubsNone<real>(ty);
      AllSubsNone<real>(tz);
    } else {
      var n := |xs| - 1;
      assert forall i :: 0 <= i < n ==> Front(xs)[i] == xs[i] && Front(ys)[i] == ys[i] && Front(zs)[i] == zs[i];
      AllSubsRelated(Front(xs), Front(ys), Front(zs), tx, ty, tz, related, j);
      AllSubsLast(xs, tx, j);
      AllSubsLast(ys, ty, j);
      AllSubsLast(zs, tz, j);
      var k := j - |AllSubs(Front(xs), tx)|;
      if 0 <= k < xs[n].shape[0] {
        assert related(Sub(xs[n], k), Sub(ys[n], k), Sub(zs[n], k));
      }
    }
  }

  lemma MatrixRows(ls: seq<LoraTensor>, a: Tensor<real>, j: nat)
    requires a.Valid() && |a.shape| == 2
    requires forall i :: 0 <= i < |ls| ==>
               WellFormed(ls[i]) && Unbatched(ls[i]) && ls[i].a == a && Rank(ls[i]) == Rows(a)
    ensures SameTails(Bs(ls), [Rows(a)]) && SameTails(Products(ls), [Width(a)])
    ensures |AllSubs(Bs(ls), [Rows(a)])| == |AllSubs(Products(ls), [Width(a)])|
    ensures j < |AllSubs(Bs(ls), [Rows(a)])| ==>
              && |AllSubs(Bs(ls), [Rows(a)])[j].data| == Rows(a)
              && AllSubs(Products(ls), [Width(a)])[j] == RowProduct(AllSubs(Bs(ls), [Rows(a)])[j], a)
  {
    hide Product, Sub, RowProduct, Prod;
    var r := Rows(a);
    forall i | 0 <= i < |ls|
      ensures Tail(ls[i].b.shape) == [r] && Tail(Shape(ls[i])) == [Width(a)]
    {
    }
    forall i, k: nat | 0 <= i < |ls| && k < Bs(ls)[i].shape[0]
      ensures |Sub(ls[i].b, k).data| == r && Sub(Products(ls)[i], k) == RowProduct(Sub(ls[i].b, k), a)
    {
      MatrixProductSub(ls[i], k);
    }
    AllSubsRelated(Bs(ls), Products(ls), Bs(ls), [r], [Width(a)], [r],
                   (x: Tensor<real>, y: Tensor<real>, z: Tensor<real>) => |x.data| == r && y == RowProduct(x, a), j);
  }

  /** Concatenating B over one shared A concatenates the rows of the products. */
  lemma CatMatrices(ls: seq<LoraTensor>)
    requires AllConstructed(ls) && LoraCat(ls).Ok? && |Shape(ls[0])| == 2
    ensures forall i :: 0 <= i < |ls| ==> WellFormed(ls[i])
    ensures LoraCat(ls).value.a == ls[0].a && WellFormed(LoraCat(ls).value)
    ensures Cat(Products(ls)) == Ok(Product(LoraCat(ls).value))
  {
    hide Product, Sub, RowProduct, StackOf, AllSubs;
    var a, r := ls[0].a, Rank(ls[0]);
    forall i | 0 <= i < |ls|
      ensures WellFormed(ls[i]) && Unbatched(ls[i]) && Rank(ls[i]) == Rows(a)
    {
      UnbatchedRows(ls[i]);
    }
    MatrixRows(ls, a, 0);
    var l' := LoraCat(ls).value;
    assert Tail(Bs(ls)[0].shape) == [r] && Tail(Products(ls)[0].shape) == [Width(a)];
    var t := StackOf(AllSubs(Products(ls), [Width(a)]), [Width(a)]);
    forall j: nat | j < t.shape[0]
      ensures Sub(t, j) == Sub(Product(l'), j)
    {
      MatrixRows(ls, a, j);
      StackSub(AllSubs(Products(ls), [Width(a)]), [Width(a)], j);
      StackSub(AllSubs(Bs(ls), [r]), [r], j);
      MatrixProductSub(l', j);
    }
    SameSubs(t, Product(l'));
  }

  lemma BatchRows(ls: seq<LoraTensor>, ta: seq<nat>, tb: seq<nat>, tp: seq<nat>, j: nat)
    requires forall i :: 0 <= i < |ls| ==> WellFormed(ls[i]) && |ls[i].b.shape| >= 3 && ls[i].a.shape[0] == ls[i].b.shape[0]
    requires SameTails(As(ls), ta) && SameTails(Bs(ls), tb) && SameTails(Products(ls), tp)
    ensures |AllSubs(As(ls), ta)| == |AllSubs(Bs(ls), tb)| == |AllSubs(Products(ls), tp)|
    ensures j < |AllSubs(As(ls), ta)| ==>
              var s := LoraTensor(AllSubs(As(ls), ta)[j], AllSubs(Bs(ls), tb)[j]);
              WellFormed(s) && AllSubs(Products(ls), tp)[j] == Product(s)
  {
    hide Product, Sub, Prod;
    forall i, k: nat | 0 <= i < |ls| && k < As(ls)[i].shape[0]
      ensures var s := LoraTensor(Sub(ls[i].a, k), Sub(ls[i].b, k));
              WellFormed(s) && Sub(Products(ls)[i], k) == Product(s)
    {
      SubProduct(ls[i], k);
    }
    AllSubsRelated(As(ls), Bs(ls), Products(ls), ta, tb, tp,
                   (x: Tensor<real>, y: Tensor<real>, z: Tensor<real>) =>
                     WellFormed(LoraTensor(x, y)) && z == Product(LoraTensor(x, y)), j);
  }

  /** Concatenating batched pairs concatenates the products, when A is batched like B. */
  lemma CatLikeBatches(ls: seq<LoraTensor>)
    requires AllConstructed(ls) && LoraCat(ls).Ok? && |Shape(ls[0])| > 2
    requires forall i :: 0 <= i < |ls| ==> WellFormed(ls[i]) && ls[i].a.shape[0] == ls[i].b.shape[0]
    ensures WellFormed(LoraCat(ls).value)
    ensures Cat(Products(ls)) == Ok(Product(LoraCat(ls).value))
  {
    hide Product, Sub, StackOf, AllSubs, Prod, SameShapes;
    CatBatchesFormed(ls);
    var l' := LoraCat(ls).value;
    var tp := Tail(Shape(ls[0]));
    var t := StackOf(AllSubs(Products(ls), tp), tp);
    forall j: nat | j < t.shape[0]
      ensures Sub(t, j) == Sub(Product(l'), j)
    {
      CatBatchesSub(ls, j);
    }
    SameSubs(t, Product(l'));
  }

  /** A pair whose batch extents are equal is well formed if its other extents are those of a well-formed pair. */
  lemma SameTailFormed(l: LoraTensor, l': LoraTensor)
    requires WellFormed(l) && Constructed(l') && |Shape(l)| > 2 && l'.a.shape[0] == l'.b.shape[0]
    requires Tail(l'.a.shape) == Tail(l.a.shape) && Tail(l'.b.shape) == Tail(l.b.shape)
    ensures WellFormed(l')
  {
    hide Prod;
    forall i | 0 <= i < |ALead(l')|
      ensures ALead(l')[i] == 1 || ALead(l')[i] == l'.b.shape[i]
    {
      if i > 0 {
        assert l'.a.shape[i] == Tail(l'.a.shape)[i - 1] == l.a.shape[i];
        assert l'.b.shape[i] == Tail(l'.b.shape)[i - 1] == l.b.shape[i];
        assert ALead(l)[i] == ALead(l')[i];
      }
    }
  }

  /** What a successful concatenation says of the parts and the result. */
  lemma CatTails(ls: seq<LoraTensor>)
    requires AllConstructed(ls) && LoraCat(ls).Ok? && |Shape(ls[0])| > 2
    ensures var ta, tb := Tail(ls[0].a.shape), Tail(ls[0].b.shape);
            && SameTails(As(ls), ta) && SameTails(Bs(ls), tb)
            && (forall i :: 0 <= i < |ls| ==> |ls[i].b.shape| >= 3)
            && LoraCat(ls).value == LoraTensor(StackOf(AllSubs(As(ls), ta), ta), StackOf(AllSubs(Bs(ls), tb), tb))
  {
    hide Sub, StackOf, AllSubs, Prod, SameShapes;
    forall i | 0 <= i < |ls|
      ensures |ls[i].b.shape| >= 3
    {
      assert Tail(Bs(ls)[i].shape) == Tail(ls[0].b.shape);
    }
  }

  lemma ProductTails(ls: seq<LoraTensor>, ta: seq<nat>, tb: seq<nat>)
    requires ls != [] && AllConstructed(ls) && SameTails(As(ls), ta) && SameTails(Bs(ls), tb)
    requires forall i :: 0 <= i < |ls| ==> WellFormed(ls[i]) && |ls[i].b.shape| >= 3
    ensures SameTails(Products(ls), Tail(Shape(ls[0])))
  {
    hide Product, Prod, WellFormed;
    forall i | 0 <= i < |ls|
      ensures Tail(Shape(ls[i])) == Front(tb) + [Last(ta)]
    {
      assert Tail(As(ls)[i].shape) == ta && Tail(Bs(ls)[i].shape) == tb;
      TailOfShape(ls[i]);
    }
  }

  lemma TailOfShape(l: LoraTensor)
    requires Constructed(l) && |l.b.shape| >= 3
    ensures Tail(Shape(l)) == Front(Tail(l.b.shape)) + [Last(Tail(l.a.shape))]
  {
    hide Prod;
    FrontAndTail(l.b.shape);
    var (lead, last) := (Front(Tail(l.b.shape)), Last(l.a.shape));
    assert Last(Tail(l.a.shape)) == last;
    assert ([l.b.shape[0]] + lead) + [last] == [l.b.shape[0]] + (lead + [last]);
  }

  /** The concatenated pair is well formed, and its product has the shape of the concatenated products. */
  lemma CatBatchesFormed(ls: seq<LoraTensor>)
    requires AllConstructed(ls) && LoraCat(ls).Ok? && |Shape(ls[0])| > 2
    requires forall i :: 0 <= i < |ls| ==> WellFormed(ls[i]) && ls[i].a.shape[0] == ls[i].b.shape[0]
    ensures WellFormed(LoraCat(ls).value)
    ensures var ta, tb, tp := Tail(ls[0].a.shape), Tail(ls[0].b.shape), Tail(Shape(ls[0]));
            && SameTails(As(ls), ta) && SameTails(Bs(ls), tb) && SameTails(Products(ls), tp)
            && (forall i :: 0 <= i < |ls| ==> |ls[i].b.shape| >= 3)
            && LoraCat(ls).value == LoraTensor(StackOf(AllSubs(As(ls), ta), ta), StackOf(AllSubs(Bs(ls), tb), tb))
            && Shape(LoraCat(ls).value) == [|AllSubs(Products(ls), tp)|] + tp
  {
    hide Product, Sub, StackOf, AllSubs, Prod, SameShapes, WellFormed;
    var l' := LoraCat(ls).value;
    var ta, tb, tp := Tail(ls[0].a.shape), Tail(ls[0].b.shape), Tail(Shape(ls[0]));
    CatTails(ls);
    ProductTails(ls, ta, tb);
    BatchRows(ls, ta, tb, tp, 0);
    assert Tail(l'.a.shape) == ta && Tail(l'.b.shape) == tb;
    SameTailFormed(ls[0], l');
    ShapeFromTails(ls[0], l');
  }

  lemma ShapeFromTails(l: LoraTensor, l': LoraTensor)
    requires Constructed(l) && Constructed(l') && |Shape(l)| > 2
    requires Tail(l'.a.shape) == Tail(l.a.shape) && Tail(l'.b.shape) == Tail(l.b.shape)
    ensures Shape(l') == [l'.b.shape[0]] + Tail(Shape(l))
  {
    hide Prod;
    TailOfShape(l);
    TailOfShape(l');
    assert Shape(l') == [Shape(l')[0]] + Tail(Shape(l'));
  }

  lemma FrontAndTail(s: seq<nat>)
    requires |s| > 1
    ensures Front(s) == [s[0]] + Front(Tail(s))
  {
    forall k | 0 <= k < |s| - 1
      ensures Front(s)[k] == ([s[0]] + Front(Tail(s)))[k]
    {
      assert k > 0 ==> Front(Tail(s))[k - 1] == Tail(s)[k - 1] == s[k];
    }
  }

  lemma CatBatchesSub(ls: seq<LoraTensor>, j: nat)
    requires AllConstructed(ls) && LoraCat(ls).Ok? && |Shape(ls[0])| > 2
    requires forall i :: 0 <= i < |ls| ==> WellFormed(ls[i]) && ls[i].a.shape[0] == ls[i].b.shape[0]
    requires WellFormed(LoraCat(ls).value) && j < Shape(LoraCat(ls).value)[0]
    requires SameTails(Products(ls), Tail(Shape(ls[0])))
    ensures var tp := Tail(Shape(ls[0]));
            && j < |AllSubs(Products(ls), tp)|
            && Sub(StackOf(AllSubs(Products(ls), tp), tp), j) == Sub(Product(LoraCat(ls).value), j)
  {
    hide Product, Sub, StackOf, AllSubs, Prod, SameShapes, WellFormed;
    CatBatchesFormed(ls);
    var l' := LoraCat(ls).value;
    var ta, tb, tp := Tail(ls[0].a.shape), Tail(ls[0].b.shape), Tail(Shape(ls[0]));
    BatchRows(ls, ta, tb, tp, j);
    StackSub(AllSubs(Products(ls), tp), tp, j);
    StackSub(AllSubs(As(ls), ta), ta, j);
    StackSub(AllSubs(Bs(ls), tb), tb, j);
    SubProduct(l', j);
  }

  // -- any batches

  /** The extent of the first axis after concatenation. */
  function Extent(ts: seq<Tensor<real>>): nat
    requires forall i :: 0 <= i < |ts| ==> ts[i].shape != []
  {
    if ts == [] then 0 else Extent(Front(ts)) + Last(ts).shape[0]
  }

  lemma {:induction false} AllSubsExtent(ts: seq<Tensor<real>>, tail: seq<nat>)
    requires SameTails(ts, tail)
    ensures |AllSubs(ts, tail)| == Extent(ts)
  {
    hide Sub, Prod, SameShapes;
    if ts == [] {
    } else {
      AllSubsExtent(Front(ts), tail);
      AllSubsLast(ts, tail, 0);
    }
  }

  lemma CatShape(ts: seq<Tensor<real>>)
    requires Cat(ts).Ok?
    ensures SameTails(ts, Tail(ts[0].shape)) && Cat(ts).value.shape == [Extent(ts)] + Tail(ts[0].shape)
  {
    hide Sub, Prod, SameShapes, AllSubs, StackOf;
    AllSubsExtent(ts, Tail(ts[0].shape));
  }

  /** The concatenated pair multiplies out exactly when its own batches match. */
  lemma CatFormedIff(ls: seq<LoraTensor>)
    requires AllConstructed(ls) && LoraCat(ls).Ok? && |Shape(ls[0])| > 2
    requires forall i :: 0 <= i < |ls| ==> WellFormed(ls[i])
    ensures WellFormed(LoraCat(ls).value) <==> Extent(As(ls)) == 1 || Extent(As(ls)) == Extent(Bs(ls))
  {
    hide Prod, Cat, Extent;
    var l', l := LoraCat(ls).value, ls[0];
    assert l'.a == Cat(As(ls)).value && l'.b == Cat(Bs(ls)).value;
    CatShape(As(ls));
    CatShape(Bs(ls));
    assert Tail(l'.a.shape) == Tail(l.a.shape) && Tail(l'.b.shape) == Tail(l.b.shape);
    assert ALead(l')[0] == Extent(As(ls)) && l'.b.shape[0] == Extent(Bs(ls));
    forall i | 0 < i < |ALead(l')|
      ensures ALead(l')[i] == 1 || ALead(l')[i] == l'.b.shape[i]
    {
      assert l'.a.shape[i] == l.a.shape[i] && l'.b.shape[i] == l.b.shape[i];
      assert ALead(l)[i] == ALead(l')[i];
    }
  }

  /** The batches of A and B line up: there is one pair, or each A is batched like its B. */
  ghost predicate LinedUp(ls: seq<LoraTensor>)
    requires AllConstructed(ls)
  {
    |ls| == 1 || forall i :: 0 <= i < |ls| ==> ls[i].a.shape[0] == ls[i].b.shape[0]
  }

  lemma {:induction false} ExtentAtMost(xs: seq<Tensor<real>>, ys: seq<Tensor<real>>)
    requires |xs| == |ys| && forall i :: 0 <= i < |xs| ==> xs[i].shape != [] && ys[i].shape != []
    requires forall i :: 0 <= i < |xs| ==> 1 <= xs[i].shape[0] <= ys[i].shape[0]
    ensures |xs| <= Extent(xs) <= Extent(ys)
    ensures Extent(xs) == Extent(ys) <==> forall i :: 0 <= i < |xs| ==> xs[i].shape[0] == ys[i].shape[0]
  {
    if xs == [] {
    } else {
      ExtentAtMost(Front(xs), Front(ys));
      var n := |xs| - 1;
      assert forall i :: 0 <= i < n ==> Front(xs)[i] == xs[i] && Front(ys)[i] == ys[i];
      if Extent(xs) == Extent(ys) {
        assert forall i :: 0 <= i < n ==> Front(xs)[i].shape[0] == Front(ys)[i].shape[0];
      }
    }
  }

  lemma CatOne(t: Tensor<real>)
    requires t.Valid() && t.shape != []
    ensures Cat([t]) == Ok(t)
  {
    hide Sub, Prod, StackOf;
    var tail := Tail(t.shape);
    assert Front([t]) == [] && AllSubs([t], tail) == [] + Subs(t) == Subs(t);
    var u := StackOf(Subs(t), tail);
    assert u.shape == [t.shape[0]] + tail == t.shape;
    forall j: nat | j < t.shape[0]
      ensures Sub(u, j) == Sub(t, j)
    {
      StackSub(Subs(t), tail, j);
    }
    SameSubs(u, t);
  }

  /** Concatenating one pair changes nothing, broadcast or not. */
  lemma CatOnePair(l: LoraTensor)
    requires WellFormed(l) && |Shape(l)| > 2
    ensures LoraCat([l]) == Ok(l) && Cat(Products([l])) == Ok(Product(l))
  {
    hide Prod, Product, Cat;
    CatOne(l.a);
    CatOne(l.b);
    CatOne(Product(l));
    assert As([l]) == [l.a] && Bs([l]) == [l.b] && Products([l]) == [Product(l)];
  }

  /**
    Concatenating batched pairs, whatever A is broadcast over: the result multiplies out iff its
    summed batches match; where the batches line up it is then the concatenation of the products;
    and unless some B is empty, it multiplies out only where they line up.
   */
  lemma CatBatches(ls: seq<LoraTensor>)
    requires AllConstructed(ls) && LoraCat(ls).Ok? && |Shape(ls[0])| > 2
    requires forall i :: 0 <= i < |ls| ==> WellFormed(ls[i])
    ensures WellFormed(LoraCat(ls).value) <==> Extent(As(ls)) == 1 || Extent(As(ls)) == Extent(Bs(ls))
    ensures LinedUp(ls) ==> WellFormed(LoraCat(ls).value) && Cat(Products(ls)) == Ok(Product(LoraCat(ls).value))
    ensures (forall i :: 0 <= i < |ls| ==> ls[i].b.shape[0] > 0) ==> (WellFormed(LoraCat(ls).value) <==> LinedUp(ls))
  {
    hide Prod, Product, Cat, Extent, WellFormed;
    CatFormedIff(ls);
    if LinedUp(ls) {
      if |ls| == 1 {
        assert ls == [ls[0]];
        CatOnePair(ls[0]);
      } else {
        CatLikeBatches(ls);
      }
    }
    if forall i :: 0 <= i < |ls| ==> ls[i].b.shape[0] > 0 {
      CatFormedOnlyLinedUp(ls);
    }
  }

  lemma CatSplit(ls: seq<LoraTensor>)
    requires AllConstructed(ls) && LoraCat(ls).Ok? && |Shape(ls[0])| > 2
    ensures Cat(As(ls)).Ok? && Cat(Bs(ls)).Ok? && LoraCat(ls) == Ok(LoraTensor(Cat(As(ls)).value, Cat(Bs(ls)).value))
  {
    hide Cat, Prod;
  }

  /** A batch extent of A is 1 or that of B. */
  lemma FirstExtent(l: LoraTensor)
    requires WellFormed(l) && |l.a.shape| > 2
    ensures l.a.shape[0] == 1 || l.a.shape[0] == l.b.shape[0]
  {
    hide Prod;
    assert ALead(l)[0] == l.a.shape[0];
  }

  lemma CatFormedOnlyLinedUp(ls: seq<LoraTensor>)
    requires AllConstructed(ls) && LoraCat(ls).Ok? && |Shape(ls[0])| > 2
    requires forall i :: 0 <= i < |ls| ==> WellFormed(ls[i])
    requires forall i :: 0 <= i < |ls| ==> ls[i].b.shape[0] > 0
    ensures Extent(As(ls)) == 1 || Extent(As(ls)) == Extent(Bs(ls)) ==> LinedUp(ls)
  {
    hide Prod, Product, Extent, Cat, Sub, AllSubs, StackOf, LoraCat, WellFormed;
    assert Cat(As(ls)).Ok? by { CatSplit(ls); }
    CatShape(As(ls));
    forall i | 0 <= i < |ls|
      ensures 1 <= As(ls)[i].shape[0] <= Bs(ls)[i].shape[0]
    {
      assert Tail(As(ls)[i].shape) == Tail(ls[0].a.shape);
      FirstExtent(ls[i]);
    }
    ExtentAtMost(As(ls), Bs(ls));
  }

  /** Two pairs whose A is broadcast over several batches concatenate to one that does not multiply out. */
  lemma CatBroadcastRefused(l: LoraTensor)
    requires WellFormed(l) && |Shape(l)| > 2 && l.a.shape[0] == 1 && l.b.shape[0] > 1
    ensures LoraCat([l, l]).Ok? && !WellFormed(LoraCat([l, l]).value)
  {
    hide Prod, Sub, AllSubs, StackOf;
    var ls := [l, l];
    assert Shape(ls[0]) == Shape(l);
    assert As(ls)[0] == l.a && Bs(ls)[0] == l.b;
    assert SameTails(As(ls), Tail(l.a.shape)) && SameTails(Bs(ls), Tail(l.b.shape));
    CatShape(As(ls));
    CatShape(Bs(ls));
    var a, b := Cat(As(ls)).value, Cat(Bs(ls)).value;
    CatMakes(l, a, b);
    CatBatches(ls);
  }

  lemma CatMakes(l: LoraTensor, a: Tensor<real>, b: Tensor<real>)
    requires Constructed(l) && |l.a.shape| > 2 && a.Valid() && b.Valid() && a.shape != [] && b.shape != []
    requires Tail(a.shape) == Tail(l.a.shape) && Tail(b.shape) == Tail(l.b.shape)
    ensures MakeLora(a, b).Ok?
  {
    hide Prod;
    assert a.shape == [a.shape[0]] + Tail(l.a.shape) && b.shape == [b.shape[0]] + Tail(l.b.shape);
    assert l.a.shape == [l.a.shape[0]] + Tail(l.a.shape) && l.b.shape == [l.b.shape[0]] + Tail(l.b.shape);
  }
}
