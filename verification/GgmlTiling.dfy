/** How the tensors that a scan finds lie in the file, and when the file holds all of their data. */
module GgmlTiling {
  import opened Wrappers
  import opened GgmlFormat
  import opened GgmlScan
  import opened GgmlRoundTrip

  /** Where tensor k's own header begins: behind the data of the tensor before it. */
  function HeaderOf(tensors: seq<Info>, first: int, k: nat): int
    requires k <= |tensors|
  {
    if k == 0 then first else End(tensors[k - 1])
  }

  /** The tensor is the one that is read at its header, which is no later than the end of the data. */
  ghost predicate Placed(data: Bytes, t: Info, header: int, padded: bool) {
    header < |data| && TensorAt(data, header, padded) == Ok(t)
  }

  /** A tensor's data begin behind its header, aligned in the format that pads. */
  lemma PlacedStart(data: Bytes, t: Info, header: int, padded: bool)
    requires Placed(data, t, header, padded)
    ensures -|data| <= header && header + 12 + 4 * |t.dims| + |t.name| <= t.start
    ensures padded ==> t.start % 32 == 0
  {
    hide TensorAt;
  }

  /** Whatever its offsets do, a scan that ends has read each tensor at its header, and ends behind the last. */
  lemma {:induction false} ScanPlaces(data: Bytes, at: int, padded: bool)
    requires TensorsAt(data, at, padded).Ok?
    ensures var (tensors, end) := TensorsAt(data, at, padded).value;
            && (forall k :: 0 <= k < |tensors| ==> Placed(data, tensors[k], HeaderOf(tensors, at, k), padded))
            && HeaderOf(tensors, at, |tensors|) == end >= |data|
    decreases |TensorsAt(data, at, padded).value.0|
  {
    hide TensorAt, TensorsAt, End, CountsMakeSense, HeaderOf;
    TensorsStep(data, at, padded);
    NoHeaderBefore(TensorsAt(data, at, padded).value.0, at);
    if at < |data| {
      FirstAndRest(data, at, padded);
      var (tensors, t) := (TensorsAt(data, at, padded).value.0, TensorAt(data, at, padded).value);
      var rest := TensorsAt(data, End(t), padded).value.0;
      ScanPlaces(data, End(t), padded);
      forall k | 0 <= k < |tensors|
        ensures Placed(data, tensors[k], HeaderOf(tensors, at, k), padded)
      {
        if k > 0 {
          HeaderShifts(t, rest, at, k - 1);
        }
      }
      HeaderShifts(t, rest, at, |rest|);
    }
  }

  lemma HeaderShifts(t: Info, rest: seq<Info>, first: int, k: nat)
    requires k <= |rest|
    ensures HeaderOf([t] + rest, first, k + 1) == HeaderOf(rest, End(t), k)
  {
    hide End;
  }

  lemma NoHeaderBefore(tensors: seq<Info>, first: int)
    ensures HeaderOf(tensors, first, 0) == first
  {
  }

  /** Every step ends above its own header. */
  predicate Advances(tensors: seq<Info>, first: int) {
    forall k :: 0 <= k < |tensors| ==> HeaderOf(tensors, first, k) < End(tensors[k])
  }

  /** A later tensor's header lies above every earlier one's, and not before where the data of that one end. */
  ghost predicate InOrder(tensors: seq<Info>, first: int) {
    forall j, k :: 0 <= j < k < |tensors| ==>
      HeaderOf(tensors, first, j) < HeaderOf(tensors, first, k) && End(tensors[j]) <= HeaderOf(tensors, first, k)
  }

  /** In order, and each tensor's data lie between the end of its header and the next header. */
  ghost predicate Tiles(tensors: seq<Info>, first: int) {
    && InOrder(tensors, first)
    && forall k :: 0 <= k < |tensors| ==> 0 <= HeaderOf(tensors, first, k) < tensors[k].start <= End(tensors[k])
  }

  lemma {:induction false} HeadersGrow(tensors: seq<Info>, first: int, j: nat, k: nat)
    requires Advances(tensors, first) && j <= k <= |tensors|
    ensures HeaderOf(tensors, first, j) <= HeaderOf(tensors, first, k)
    ensures j < k ==> HeaderOf(tensors, first, j) < HeaderOf(tensors, first, k)
    decreases k - j
  {
    hide End;
    if j < k {
      HeadersGrow(tensors, first, j, k - 1);
      assert HeaderOf(tensors, first, k - 1) < End(tensors[k - 1]) == HeaderOf(tensors, first, k);
    }
  }

  lemma AdvancesInOrder(tensors: seq<Info>, first: int)
    requires Advances(tensors, first)
    ensures InOrder(tensors, first)
  {
    hide End, Advances, HeaderOf;
    forall j, k | 0 <= j < k < |tensors|
      ensures HeaderOf(tensors, first, j) < HeaderOf(tensors, first, k) && End(tensors[j]) <= HeaderOf(tensors, first, k)
    {
      HeadersGrow(tensors, first, j, k);
      HeadersGrow(tensors, first, j + 1, k);
      assert HeaderOf(tensors, first, j + 1) == End(tensors[j]) by { HeaderBehind(tensors, first, j); }
    }
  }

  lemma HeaderBehind(tensors: seq<Info>, first: int, j: nat)
    requires j < |tensors|
    ensures HeaderOf(tensors, first, j + 1) == End(tensors[j])
  {
  }

  lemma OrderAdvances(data: Bytes, tensors: seq<Info>, first: int)
    requires InOrder(tensors, first) && HeaderOf(tensors, first, |tensors|) >= |data|
    requires forall k :: 0 <= k < |tensors| ==> HeaderOf(tensors, first, k) < |data|
    ensures Advances(tensors, first)
  {
    hide End, HeaderOf;
    forall k | 0 <= k < |tensors|
      ensures HeaderOf(tensors, first, k) < End(tensors[k])
    {
      HeaderBehind(tensors, first, k);
      if k + 1 < |tensors| {
        assert HeaderOf(tensors, first, k) < HeaderOf(tensors, first, k + 1);
      }
    }
  }

  /** From a header that is not below zero, a count makes sense exactly when the data do not end before they start. */
  lemma SenseIff(data: Bytes, header: nat, padded: bool, t: Info)
    requires TensorAt(data, header, padded) == Ok(t)
    ensures CountMakesSense(t) <==> t.start <= End(t)
    ensures CountMakesSense(t) ==> header < End(t)
  {
    hide TensorAt, Wrap64;
    CountOf(data, header, padded);
    EndOf(t);
  }

  lemma TilesMakesSense(data: Bytes, tensors: seq<Info>, first: nat, padded: bool)
    requires Tiles(tensors, first)
    requires forall k :: 0 <= k < |tensors| ==> Placed(data, tensors[k], HeaderOf(tensors, first, k), padded)
    ensures CountsMakeSense(tensors)
  {
    hide InOrder, TensorAt, End, HeaderOf, CountMakesSense;
    forall k | 0 <= k < |tensors|
      ensures CountMakesSense(tensors[k])
    {
      SenseIff(data, HeaderOf(tensors, first, k), padded, tensors[k]);
    }
  }

  lemma {:induction false} SenseAdvances(data: Bytes, tensors: seq<Info>, first: nat, padded: bool, k: nat)
    requires CountsMakeSense(tensors) && k < |tensors|
    requires forall i :: 0 <= i < |tensors| ==> Placed(data, tensors[i], HeaderOf(tensors, first, i), padded)
    ensures 0 <= HeaderOf(tensors, first, k) < tensors[k].start <= End(tensors[k])
    decreases k
  {
    hide TensorAt, End, CountMakesSense, HeaderOf;
    if k > 0 {
      SenseAdvances(data, tensors, first, padded, k - 1);
      HeaderBehind(tensors, first, k - 1);
    } else {
      NoHeaderBefore(tensors, first);
    }
    var (t, header) := (tensors[k], HeaderOf(tensors, first, k));
    assert Placed(data, t, header, padded) && CountMakesSense(t);
    SenseIff(data, header, padded, t);
    PlacedStart(data, t, header, padded);
  }

  lemma SenseTiles(data: Bytes, tensors: seq<Info>, first: nat, padded: bool)
    requires CountsMakeSense(tensors)
    requires forall i :: 0 <= i < |tensors| ==> Placed(data, tensors[i], HeaderOf(tensors, first, i), padded)
    ensures Tiles(tensors, first)
  {
    hide Placed, End, CountsMakeSense, HeaderOf, InOrder;
    forall k | 0 <= k < |tensors|
      ensures 0 <= HeaderOf(tensors, first, k) < tensors[k].start <= End(tensors[k])
    {
      SenseAdvances(data, tensors, first, padded, k);
    }
    AdvancesInOrder(tensors, first);
  }

  /**
    For every scan that ends: its tensors lie in order exactly when every step ends above its own
    header, and they tile the file from where the scan begins exactly when no byte count has
    wrapped below zero and no offset past 63 bits.
   */
  lemma ScanTilesIff(data: Bytes, first: nat, padded: bool)
    requires TensorsAt(data, first, padded).Ok?
    ensures var tensors := TensorsAt(data, first, padded).value.0;
            && (InOrder(tensors, first) <==> Advances(tensors, first))
            && (Tiles(tensors, first) <==> CountsMakeSense(tensors))
  {
    hide TensorsAt, Advances, InOrder, Tiles, CountsMakeSense, Placed, HeaderOf;
    var tensors := TensorsAt(data, first, padded).value.0;
    ScanPlaces(data, first, padded);
    forall k | 0 <= k < |tensors|
      ensures HeaderOf(tensors, first, k) < |data|
    {
      PlacedBelow(data, tensors[k], HeaderOf(tensors, first, k), padded);
    }
    if Advances(tensors, first) {
      AdvancesInOrder(tensors, first);
    }
    if InOrder(tensors, first) {
      OrderAdvances(data, tensors, first);
    }
    if Tiles(tensors, first) {
      TilesMakesSense(data, tensors, first, padded);
    }
    if CountsMakeSense(tensors) {
      SenseTiles(data, tensors, first, padded);
    }
  }

  lemma PlacedBelow(data: Bytes, t: Info, header: int, padded: bool)
    requires Placed(data, t, header, padded)
    ensures header < |data|
  {
    hide TensorAt;
  }

  /** A file that loads has at least one tensor, and its tensors are those of the scan behind the vocabulary. */
  lemma LoadedScan(data: Bytes)
    requires LoadAt(data, 0).Ok?
    ensures var m := LoadAt(data, 0).value;
            |m.tensors| > 0 && TensorsAt(data, TensorStart(data), m.header.format.GGJT?) == Ok((m.tensors, m.end))
  {
    hide HeaderAt, HyperAt, ItemsAt, TensorsAt;
  }

  /**
    The tensors of a loaded file: each is read at its own header, the scan ends where the last one
    does, they lie in order exactly when every step advances, and tile the file from the end of
    the vocabulary on, by the computed counts, exactly when none is negative and no offset has wrapped.
   */
  lemma LoadedFileTilesIff(data: Bytes)
    requires LoadAt(data, 0).Ok?
    ensures var (m, first) := (LoadAt(data, 0).value, TensorStart(data));
            && (forall k :: 0 <= k < |m.tensors| ==>
                  Placed(data, m.tensors[k], HeaderOf(m.tensors, first, k), m.header.format.GGJT?))
            && HeaderOf(m.tensors, first, |m.tensors|) == m.end >= |data|
            && (InOrder(m.tensors, first) <==> Advances(m.tensors, first))
            && (Tiles(m.tensors, first) <==> CountsMakeSense(m.tensors))
  {
    hide LoadAt, TensorsAt, TensorStart, Placed, HeaderOf, InOrder, Advances, Tiles, CountsMakeSense;
    LoadedScan(data);
    var m := LoadAt(data, 0).value;
    ScanPlaces(data, TensorStart(data), m.header.format.GGJT?);
    ScanTilesIff(data, TensorStart(data), m.header.format.GGJT?);
  }

  /** In order, every byte from the first header to the end of the scan belongs to exactly one tensor. */
  lemma {:induction false} OneOwner(tensors: seq<Info>, first: int, p: int, n: nat) returns (k: nat)
    requires Advances(tensors, first) && n <= |tensors| && first <= p < HeaderOf(tensors, first, n)
    ensures k < n && HeaderOf(tensors, first, k) <= p < End(tensors[k])
    ensures forall j :: 0 <= j < |tensors| && j != k ==> !(HeaderOf(tensors, first, j) <= p < End(tensors[j]))
    decreases n
  {
    hide End, Advances, HeaderOf;
    HeadersGrow(tensors, first, 0, n);
    assert HeaderOf(tensors, first, 0) == first by { NoHeaderBefore(tensors, first); }
    HeaderBehind(tensors, first, n - 1);
    if p < HeaderOf(tensors, first, n - 1) {
      k := OneOwner(tensors, first, p, n - 1);
    } else {
      k := n - 1;
      forall j | 0 <= j < |tensors| && j != k
        ensures !(HeaderOf(tensors, first, j) <= p < End(tensors[j]))
      {
        HeaderBehind(tensors, first, j);
        if j < k {
          HeadersGrow(tensors, first, j + 1, k);
        } else {
          HeadersGrow(tensors, first, n, j);
        }
      }
    }
  }

  // ---------------------------------------------------------------- progress

  /** The computed byte count is the true one exactly when the true one's product fits into 63 bits. */
  lemma CountIsExact(dims: seq<nat>, size: (nat, nat))
    requires 1 <= size.0 <= 256 && size.1 >= 1
    ensures ByteCount(dims, size) == Product(dims) * size.1 / size.0 <==> Product(dims) * size.1 < 0x8000_0000_0000_0000
  {
    hide Product, Wrap64;
    var total := Product(dims) * size.1;
    WrapOfProduct(Product(dims), size.1);
    CutOff(total);
    if total >= 0x8000_0000_0000_0000 {
      FarApart(Wrap64(total), total, size.0);
    }
  }

  /** Wrapping in between does not change a wrapped product. */
  lemma WrapOfProduct(x: int, y: int)
    ensures Wrap64(Wrap64(x) * y) == Wrap64(x * y)
  {
    var q := (x + 0x8000_0000_0000_0000) / 0x1_0000_0000_0000_0000;
    assert Wrap64(x) == x - q * 0x1_0000_0000_0000_0000;
    assert Wrap64(x) * y == x * y + (-q * y) * 0x1_0000_0000_0000_0000;
    WrapShift(x * y, -q * y);
  }

  lemma WrapShift(x: int, n: int)
    ensures Wrap64(x + n * 0x1_0000_0000_0000_0000) == Wrap64(x)
  {
  }

  lemma CutOff(total: int)
    requires total >= -0x8000_0000_0000_0000
    ensures total < 0x8000_0000_0000_0000 ==> Wrap64(total) == total
    ensures total >= 0x8000_0000_0000_0000 ==> Wrap64(total) <= total - 0x1_0000_0000_0000_0000
  {
  }

  lemma FarApart(small: int, large: int, divisor: int)
    requires 1 <= divisor <= 256 && small <= large - 0x1_0000_0000_0000_0000
    ensures small / divisor < large / divisor
  {
    QuotientBounds(small, divisor);
    QuotientBounds(large, divisor);
    ProductGrows(large / divisor, small / divisor, divisor);
  }

  lemma QuotientBounds(x: int, divisor: int)
    requires divisor >= 1
    ensures x / divisor * divisor <= x < x / divisor * divisor + divisor
  {
  }

  lemma ProductGrows(x: int, y: int, factor: int)
    requires factor >= 1
    ensures x <= y ==> x * factor <= y * factor
  {
  }

  /** The computed count is not negative exactly when the true product's 64-bit residue is below half of the range. */
  lemma CountSign(dims: seq<nat>, size: (nat, nat))
    requires 1 <= size.0 <= 256
    ensures var residue := Product(dims) * size.1 % 0x1_0000_0000_0000_0000;
            if residue < 0x8000_0000_0000_0000 then ByteCount(dims, size) == residue / size.0
            else ByteCount(dims, size) == (residue - 0x1_0000_0000_0000_0000) / size.0 < 0
  {
    hide Product, Wrap64;
    var total := Product(dims) * size.1;
    WrapOfProduct(Product(dims), size.1);
    Residue(total);
    var residue := total % 0x1_0000_0000_0000_0000;
    if residue >= 0x8000_0000_0000_0000 {
      QuotientBounds(residue - 0x1_0000_0000_0000_0000, size.0);
    }
  }

  lemma Residue(total: nat)
    ensures var residue := total % 0x1_0000_0000_0000_0000;
            Wrap64(total) == if residue < 0x8000_0000_0000_0000 then residue else residue - 0x1_0000_0000_0000_0000
  {
  }

  /**
    A step ends above its own header exactly when the 64-bit residue of its product is small
    enough for the offset behind the data, or is negative by less than the header is long.
   */
  lemma StepAdvancesIff(data: Bytes, at: nat, padded: bool)
    requires TensorAt(data, at, padded).Ok? && TensorAt(data, at, padded).value.start < 0x8000_0000_0000_0000
    ensures var t := TensorAt(data, at, padded).value;
            var size := QuantSize(t.dtype).value;
            var residue := Product(t.dims) * size.1 % 0x1_0000_0000_0000_0000;
            End(t) > at <==>
            if residue < 0x8000_0000_0000_0000 then t.start + residue / size.0 < 0x8000_0000_0000_0000
            else 0x1_0000_0000_0000_0000 - residue <= (t.start - at - 1) * size.0
  {
    hide ReadWords, ByteCount, Product, TensorAt, Wrap64, QuantSize;
    var t := TensorAt(data, at, padded).value;
    CountOf(data, at, padded);
    var size := QuantSize(t.dtype).value;
    CountSign(t.dims, size);
    var residue := Product(t.dims) * size.1 % 0x1_0000_0000_0000_0000;
    EndOf(t);
    AdvanceOf(t, size.0, residue, at);
  }

  lemma AdvanceOf(t: Info, divisor: nat, residue: nat, at: nat)
    requires 1 <= divisor && residue < 0x1_0000_0000_0000_0000 && at + 12 <= t.start < 0x8000_0000_0000_0000
    requires if residue < 0x8000_0000_0000_0000 then t.bytes == residue / divisor
             else t.bytes == (residue - 0x1_0000_0000_0000_0000) / divisor < 0
    requires End(t) >= t.start ==> t.bytes >= 0 && End(t) == t.start + t.bytes
    requires t.start + t.bytes < 0x8000_0000_0000_0000 ==> End(t) == t.start + t.bytes
    requires t.start + t.bytes >= 0x8000_0000_0000_0000 ==> End(t) < 0
    ensures End(t) > at <==>
            if residue < 0x8000_0000_0000_0000 then t.start + residue / divisor < 0x8000_0000_0000_0000
            else 0x1_0000_0000_0000_0000 - residue <= (t.start - at - 1) * divisor
  {
    hide End;
    if residue >= 0x8000_0000_0000_0000 {
      AtLeast(residue - 0x1_0000_0000_0000_0000, divisor, at + 1 - t.start);
      Negated(t.start - at - 1, divisor);
    } else {
      AtLeast(residue, divisor, 0);
    }
  }

  lemma Negated(x: int, y: int)
    ensures -x * y == -(x * y)
  {
  }

  /** The count of a tensor that was read is a 64-bit number. */
  lemma CountOf(data: Bytes, at: int, padded: bool)
    requires TensorAt(data, at, padded).Ok?
    ensures var t := TensorAt(data, at, padded).value;
            && QuantSize(t.dtype).Some? && t.bytes == ByteCount(t.dims, QuantSize(t.dtype).value)
            && -0x8000_0000_0000_0000 <= t.bytes < 0x8000_0000_0000_0000
  {
    hide ReadWords, ByteCount, QuantSize, Padding, Slice;
    var t := TensorAt(data, at, padded).value;
    CountIn64(t.dims, QuantSize(t.dtype).value);
  }

  lemma CountIn64(dims: seq<nat>, size: (nat, nat))
    requires 1 <= size.0
    ensures -0x8000_0000_0000_0000 <= ByteCount(dims, size) < 0x8000_0000_0000_0000
  {
    hide Product, Wrap64;
    var x := Wrap64(Wrap64(Product(dims)) * size.1);
    AtLeast(x, size.0, -0x8000_0000_0000_0000);
    AtLeast(x, size.0, 0x8000_0000_0000_0000);
  }

  /** The offset behind data that start at or above zero. */
  lemma EndOf(t: Info)
    requires t.start >= 0 && -0x8000_0000_0000_0000 <= t.bytes < 0x8000_0000_0000_0000
    ensures t.start + t.bytes < 0x8000_0000_0000_0000 ==> End(t) == t.start + t.bytes
    ensures End(t) >= t.start ==> t.bytes >= 0 && End(t) == t.start + t.bytes
    ensures t.start < 0x8000_0000_0000_0000 <= t.start + t.bytes ==> End(t) < 0
  {
    hide Wrap64;
    CutOff(t.start + t.bytes);
  }

  lemma AtLeast(x: int, divisor: int, q: int)
    requires divisor >= 1
    ensures x / divisor >= q <==> x >= q * divisor
  {
    QuotientBounds(x, divisor);
    ProductGrows(q, x / divisor, divisor);
    ProductGrows(x / divisor + 1, q, divisor);
  }

  // ---------------------------------------------------------------- wrapped counts

  /** The bytes of a header without a name, of a tensor of single bytes. */
  function BareHeader(dims: seq<nat>): (b: Bytes)
    requires |dims| <= 4 && AreWords(dims)
    ensures |b| == 12 + 4 * |dims|
  {
    PutWords([|dims|, 0, 24]) + PutWords(dims)
  }

  lemma BareHeaderRead(data: Bytes, at: nat, dims: seq<nat>)
    requires |dims| <= 4 && AreWords(dims) && at <= |data| && Has(data, at, BareHeader(dims))
    ensures TensorAt(data, at, false) == Ok(Info([], dims, 24, at + 12 + 4 * |dims|, ByteCount(dims, (1, 1))))
  {
    hide PutWords, ReadWords, ByteCount, Has, Slice;
    HasParts(data, at, PutWords([|dims|, 0, 24]), PutWords(dims));
    HasBounds(data, at, BareHeader(dims));
    HasWords(data, at, [|dims|, 0, 24]);
    HasWords(data, at + 12, dims);
    assert Slice(data, at + 12 + 4 * |dims|, 0) == [];
  }

  /** Dimensions whose product is one less than 2 to the power of 64, times any word. */
  function Untamed(back: nat): (dims: seq<nat>)
    requires back < 0x1_0000_0000
    ensures |dims| == 4 && AreWords(dims)
  {
    [0xFFFF_FFFF, 641, 6700417, back]
  }

  lemma UntamedProduct(back: nat)
    requires back < 0x1_0000_0000
    ensures Product(Untamed(back)) == 0xFFFF_FFFF * (641 * (6700417 * back))
  {
    var dims := Untamed(back);
    assert dims[1..] == [641, 6700417, back] && dims[1..][1..] == [6700417, back] && dims[1..][1..][1..] == [back];
    assert [back][1..] == [];
    assert Product([back]) == back;
    assert Product([6700417, back]) == 6700417 * back;
    assert Product([641, 6700417, back]) == 641 * (6700417 * back);
  }

  lemma UntamedCount(back: nat)
    requires back < 0x1_0000_0000
    ensures ByteCount(Untamed(back), (1, 1)) == -(back as int)
  {
    hide Product, Untamed, Wrap64;
    UntamedProduct(back);
    WrapShift(-(back as int), back);
    CutOff(-(back as int));
  }

  /** A wrapped count may lead back by any length: this header's tensor ends that much before the end of its 28 bytes. */
  lemma LeadsBack(data: Bytes, at: nat, back: nat)
    requires back < 0x1_0000_0000 && at + 28 < 0x8000_0000_0000_0000
    requires Has(data, at, BareHeader(Untamed(back)))
    ensures TensorAt(data, at, false) == Ok(Info([], Untamed(back), 24, at + 28, -(back as int)))
    ensures End(TensorAt(data, at, false).value) == at + 28 - back
  {
    hide BareHeader, TensorAt, ByteCount, Has, Untamed;
    HasBounds(data, at, BareHeader(Untamed(back)));
    BareHeaderRead(data, at, Untamed(back));
    UntamedCount(back);
  }

  /** By the length of the header itself it leads back to itself, and the scan never ends. */
  lemma StandsStill(data: Bytes, at: nat)
    requires at + 28 < 0x8000_0000_0000_0000 && Has(data, at, BareHeader(Untamed(28)))
    ensures TensorAt(data, at, false).Ok? && End(TensorAt(data, at, false).value) == at
    ensures TensorsAt(data, at, false) == Err(Endless)
  {
    hide TensorAt, TensorsAt, BareHeader, Untamed, End, Has;
    HasBounds(data, at, BareHeader(Untamed(28)));
    LeadsBack(data, at, 28);
    AtOwnHeader(data, at);
  }

  lemma AtOwnHeader(data: Bytes, at: nat)
    requires at < |data| && TensorAt(data, at, false).Ok? && End(TensorAt(data, at, false).value) == at
    ensures TensorsAt(data, at, false) == Err(Endless)
  {
    hide TensorAt, TensorsAt, Scan, End;
    assert OffsetAfter(data, at, false, 0) == Some(at);
    assert OffsetAfter(data, at, false, 1) == OffsetAfter(data, at, false, 0);
    assert ComesBack(data, at, false);
    EndlessIff(data, at, false);
  }

  // ---------------------------------------------------------------- a file that is read out of order

  const INNER: seq<nat> := [1000]

  /** A tensor of sixteen bytes, which happen to be the header of another one. */
  function Outer(): (t: TensorContent)
    ensures |t.data| == 16 && |t.dims| == 2 && |t.name| == 31
  {
    TensorContent(FEED_FORWARD, [2, 8], 24, BareHeader(INNER))
  }

  lemma OuterIsGood()
    ensures GoodTensor(Outer())
  {
    hide BareHeader;
    assert [2, 8][1..] == [8];
    assert Product([8]) == 8 && Product([2, 8]) == 16;
  }

  const NO_HYPER: Hyper := Hyper(0, 0, 0, 0, 0, 0, 0)

  /** A file without vocabulary: the outer tensor, and a header that leads back to the outer one's data. */
  function BackwardFile(): (data: Bytes)
    requires GoodTensor(Outer())
  {
    (GGML_MAGIC + PutWords(HyperWords(NO_HYPER))) + (WriteTensor(Outer(), 32, false) + BareHeader(Untamed(44)))
  }

  lemma BackwardFileParts()
    requires GoodTensor(Outer())
    ensures var data := BackwardFile();
            && |data| == 127
            && Has(data, 0, GGML_MAGIC) && Has(data, 4, PutWords(HyperWords(NO_HYPER)))
            && Has(data, 32, WriteTensor(Outer(), 32, false)) && |WriteTensor(Outer(), 32, false)| == 67
            && Has(data, 83, BareHeader(INNER)) && Has(data, 99, BareHeader(Untamed(44)))
  {
    hide Has, PutWords, WriteTensor, BareHeader, GoodTensor, Padding;
    var data := BackwardFile();
    var prelude := GGML_MAGIC + PutWords(HyperWords(NO_HYPER));
    var outer, back := WriteTensor(Outer(), 32, false), BareHeader(Untamed(44));
    HasAll(data);
    TensorParts(data, 32, Outer(), false);
    HasParts(data, 0, GGML_MAGIC, PutWords(HyperWords(NO_HYPER)));
    HasParts(data, 0, prelude, outer + back);
    HasParts(data, 32, outer, back);
  }

  /** The three tensors that its scan finds: the inner one is the last, though its header lies first among the data. */
  function BackwardTensors(): seq<Info> {
    [Info(FEED_FORWARD, [2, 8], 24, 83, 16), Info([], Untamed(44), 24, 127, -44), Info([], INNER, 24, 99, 1000)]
  }

  lemma BackwardHeaders()
    requires GoodTensor(Outer())
    ensures var (data, t) := (BackwardFile(), BackwardTensors());
            && |data| == 127
            && TensorAt(data, 32, false) == Ok(t[0]) && TensorAt(data, 99, false) == Ok(t[1]) && TensorAt(data, 83, false) == Ok(t[2])
  {
    hide BackwardFile, TensorAt, Has, BareHeader, ByteCount, WriteTensor, GoodTensor, End;
    var data := BackwardFile();
    BackwardFileParts();
    HasTensor(data, 32, Outer(), false);
    BareHeaderRead(data, 99, Untamed(44));
    BareHeaderRead(data, 83, INNER);
    UntamedCount(44);
    InnerCount();
  }

  lemma BackwardScan()
    requires GoodTensor(Outer())
    ensures TensorsAt(BackwardFile(), 32, false) == Ok((BackwardTensors(), 1099))
  {
    hide BackwardFile, TensorAt, TensorsAt, GoodTensor, Outer;
    var (data, t) := (BackwardFile(), BackwardTensors());
    BackwardHeaders();
    assert End(t[0]) == 99 && End(t[1]) == 83 && End(t[2]) == 1099;
    TensorsStep(data, 1099, false);
    TensorsStep(data, 83, false);
    assert [t[2]] + [] == [t[2]];
    TensorsStep(data, 99, false);
    assert [t[1]] + [t[2]] == [t[1], t[2]];
    TensorsStep(data, 32, false);
    assert [t[0]] + [t[1], t[2]] == t;
  }

  lemma InnerCount()
    ensures ByteCount(INNER, (1, 1)) == 1000
  {
    assert INNER[1..] == [];
    assert Product(INNER) == 1000;
  }

  /**
    So the code does not promise that the tensors of a loaded file lie in order: this file loads,
    and its last tensor's header lies inside the first tensor's data.
   */
  lemma LoadedOutOfOrder()
    ensures GoodTensor(Outer())
    ensures var data := BackwardFile();
            && LoadAt(data, 0) == Ok(Loaded(Header(GGML, 1), NO_HYPER, [], BackwardTensors(), 8, 1099))
            && TensorStart(data) == 32
            && var t := BackwardTensors();
               t[0].start == HeaderOf(t, 32, 2) < End(t[0]) && !InOrder(t, 32) && !Advances(t, 32)
  {
    hide BackwardFile, TensorAt, TensorsAt, Has, PutWords, ReadWords, WriteTensor, GoodTensor;
    OuterIsGood();
    BackwardFileParts();
    BackwardScan();
    var data := BackwardFile();
    HasHeader(data, 0, Header(GGML, 1));
    HasHyper(data, 4, NO_HYPER);
    BackwardWidth();
    BackwardOrder();
  }

  lemma BackwardWidth()
    ensures FeedForward(BackwardTensors()) == Ok(8)
  {
    hide TensorMap;
    TensorMapIsLast(BackwardTensors(), FEED_FORWARD);
    assert BackwardTensors()[0].name == FEED_FORWARD;
  }

  lemma BackwardOrder()
    ensures var t := BackwardTensors();
            && HeaderOf(t, 32, 1) == 99 && HeaderOf(t, 32, 2) == 83
            && !InOrder(t, 32) && !Advances(t, 32)
  {
  }

  // ---------------------------------------------------------------- completeness

  /** A tensor's data, of the length its count says, lie in the file. */
  predicate DataInside(data: Bytes, t: Info) {
    0 <= t.start && 0 <= t.bytes && t.start + t.bytes <= |data|
  }

  /** Data of the computed counts lie in the file exactly when none is negative, no offset has wrapped and the scan ends with the file. */
  lemma CompleteIffEndsThere(data: Bytes)
    requires LoadAt(data, 0).Ok?
    ensures var m := LoadAt(data, 0).value;
            (forall k :: 0 <= k < |m.tensors| ==> DataInside(data, m.tensors[k]))
            <==> m.end == |data| && CountsMakeSense(m.tensors)
  {
    hide LoadAt, TensorsAt, TensorStart, FeedForward, DataInside, CountsMakeSense;
    LoadedScan(data);
    ScanComplete(data, TensorStart(data), LoadAt(data, 0).value.header.format.GGJT?);
  }

  lemma ScanComplete(data: Bytes, first: nat, padded: bool)
    requires TensorsAt(data, first, padded).Ok? && |TensorsAt(data, first, padded).value.0| > 0
    ensures var (tensors, end) := TensorsAt(data, first, padded).value;
            (forall k :: 0 <= k < |tensors| ==> DataInside(data, tensors[k])) <==> end == |data| && CountsMakeSense(tensors)
  {
    hide TensorsAt, Placed, FeedForward, HeaderOf, CountMakesSense, DataInside, End;
    var (tensors, end) := TensorsAt(data, first, padded).value;
    ScanPlaces(data, first, padded);
    EndIn64(data, first, padded);
    HeaderBehind(tensors, first, |tensors| - 1);
    if forall k :: 0 <= k < |tensors| ==> DataInside(data, tensors[k]) {
      forall k | 0 <= k < |tensors|
        ensures CountMakesSense(tensors[k]) && End(tensors[k]) <= |data|
      {
        InsideMakesSense(data, tensors[k]);
      }
    }
    if end == |data| && CountsMakeSense(tensors) {
      forall k | 0 <= k < |tensors|
        ensures DataInside(data, tensors[k])
      {
        SenseAdvances(data, tensors, first, padded, k);
        EndBelow(data, tensors, first, padded, k);
        SenseInside(data, tensors[k]);
      }
    }
  }

  lemma InsideMakesSense(data: Bytes, t: Info)
    requires DataInside(data, t) && |data| < 0x8000_0000_0000_0000
    ensures CountMakesSense(t) && End(t) <= |data|
  {
    hide Wrap64;
    CutOff(t.start + t.bytes);
  }

  lemma SenseInside(data: Bytes, t: Info)
    requires CountMakesSense(t) && 0 <= t.start && End(t) <= |data|
    ensures DataInside(data, t)
  {
    hide End;
  }

  /** Only the last tensor may end behind the data. */
  lemma EndBelow(data: Bytes, tensors: seq<Info>, first: int, padded: bool, k: nat)
    requires k < |tensors| && HeaderOf(tensors, first, |tensors|) <= |data|
    requires forall i :: 0 <= i < |tensors| ==> Placed(data, tensors[i], HeaderOf(tensors, first, i), padded)
    ensures End(tensors[k]) <= |data|
  {
    hide Placed, End, HeaderOf;
    HeaderBehind(tensors, first, k);
    if k + 1 < |tensors| {
      PlacedBelow(data, tensors[k + 1], HeaderOf(tensors, first, k + 1), padded);
    }
  }

  // -- by the true counts

  /** The number of bytes that the shape and type of a tensor stand for. */
  function TrueCount(t: Info): nat
    requires QuantSize(t.dtype).Some?
  {
    var size := QuantSize(t.dtype).value;
    Product(t.dims) * size.1 / size.0
  }

  /** The product of the true count fits into 63 bits. */
  predicate CountFits(t: Info) {
    QuantSize(t.dtype).Some? && Product(t.dims) * QuantSize(t.dtype).value.1 < 0x8000_0000_0000_0000
  }

  /** A tensor's data, of the length its shape and type stand for, lie in the file. */
  predicate TrulyInside(data: Bytes, t: Info) {
    QuantSize(t.dtype).Some? && 0 <= t.start && t.start + TrueCount(t) <= |data|
  }

  lemma TrueCountIff(data: Bytes, t: Info, header: int, padded: bool)
    requires Placed(data, t, header, padded)
    ensures QuantSize(t.dtype).Some? && (t.bytes == TrueCount(t) <==> CountFits(t))
  {
    hide TensorAt, ByteCount, Product, QuantSize;
    CountOf(data, header, padded);
    CountIsExact(t.dims, QuantSize(t.dtype).value);
  }

  /** A header is short, so data start soon behind it. */
  lemma StartsSoon(data: Bytes, t: Info, header: int, padded: bool)
    requires Placed(data, t, header, padded)
    ensures t.start < header + 5000
  {
    hide TensorAt, ReadWords, Slice, ByteCount, QuantSize;
    var _ := TensorSteps(data, header, padded, t);
  }

  /** In a file of reasonable size, an offset that wraps leads too far below zero to be read at. */
  lemma WrapsAway(data: Bytes, t: Info, header: int, padded: bool)
    requires Placed(data, t, header, padded) && CountFits(t) && |data| < 0x80_0000_0000_0000
    ensures CountMakesSense(t) || End(t) < -|data|
  {
    hide Placed, TensorAt, Wrap64, CountFits, TrueCount;
    TrueCountIff(data, t, header, padded);
    PlacedStart(data, t, header, padded);
    StartsSoon(data, t, header, padded);
    PlacedBelow(data, t, header, padded);
    PlacedCount(data, t, header, padded);
    CutOff(t.start + t.bytes);
  }

  lemma PlacedCount(data: Bytes, t: Info, header: int, padded: bool)
    requires Placed(data, t, header, padded)
    ensures -0x8000_0000_0000_0000 <= t.bytes < 0x8000_0000_0000_0000
  {
    hide TensorAt;
    CountOf(data, header, padded);
  }

  lemma FitsMakesSense(data: Bytes, tensors: seq<Info>, first: int, padded: bool)
    requires forall k :: 0 <= k < |tensors| ==> Placed(data, tensors[k], HeaderOf(tensors, first, k), padded) && CountFits(tensors[k])
    requires HeaderOf(tensors, first, |tensors|) >= |data| && |data| < 0x80_0000_0000_0000
    ensures CountsMakeSense(tensors)
  {
    hide Placed, HeaderOf, CountMakesSense, End, CountFits;
    forall k | 0 <= k < |tensors|
      ensures CountMakesSense(tensors[k])
    {
      WrapsAway(data, tensors[k], HeaderOf(tensors, first, k), padded);
      HeaderBehind(tensors, first, k);
      if k + 1 < |tensors| {
        PlacedStart(data, tensors[k + 1], HeaderOf(tensors, first, k + 1), padded);
      }
    }
  }

  /** True data that lie in a file of reasonable size have a product that fits. */
  lemma InsideFits(data: Bytes, t: Info)
    requires TrulyInside(data, t) && |data| < 0x80_0000_0000_0000
    ensures CountFits(t)
  {
    hide Product, QuantSize;
    var size := QuantSize(t.dtype).value;
    var total := Product(t.dims) * size.1;
    QuotientBounds(total, size.0);
    ProductGrows(TrueCount(t) + 1, 0x80_0000_0000_0000, size.0);
  }

  /**
    The same by the true counts: they lie in the file, all products fitting, exactly when the scan
    ends with the file, all products fit and no offset has wrapped. In a file of less than 2 to the
    power of 55 bytes data that lie in it fit and offsets of products that fit do not wrap, so there
    the data lie in the file exactly when the scan ends with it and all products fit.
   */
  lemma TrulyCompleteIff(data: Bytes)
    requires LoadAt(data, 0).Ok?
    ensures var m := LoadAt(data, 0).value;
            var inside := forall k :: 0 <= k < |m.tensors| ==> TrulyInside(data, m.tensors[k]);
            var fit := forall k :: 0 <= k < |m.tensors| ==> CountFits(m.tensors[k]);
            && (inside && fit <==> m.end == |data| && fit && CountsMakeSense(m.tensors))
            && (|data| < 0x80_0000_0000_0000 ==> (inside <==> m.end == |data| && fit))
  {
    hide LoadAt, TensorsAt, TensorStart, FeedForward, CountsMakeSense, Placed, HeaderOf, DataInside, CountFits, TrulyInside;
    var (m, first) := (LoadAt(data, 0).value, TensorStart(data));
    LoadedFileTilesIff(data);
    CompleteIffEndsThere(data);
    forall k | 0 <= k < |m.tensors|
      ensures CountFits(m.tensors[k]) ==> (TrulyInside(data, m.tensors[k]) <==> DataInside(data, m.tensors[k]))
      ensures TrulyInside(data, m.tensors[k]) && |data| < 0x80_0000_0000_0000 ==> CountFits(m.tensors[k])
    {
      TrulyIsComputed(data, m.tensors[k], HeaderOf(m.tensors, first, k), m.header.format.GGJT?);
    }
    if |data| < 0x80_0000_0000_0000 && forall k :: 0 <= k < |m.tensors| ==> CountFits(m.tensors[k]) {
      FitsMakesSense(data, m.tensors, first, m.header.format.GGJT?);
    }
  }

  lemma TrulyIsComputed(data: Bytes, t: Info, header: int, padded: bool)
    requires Placed(data, t, header, padded)
    ensures CountFits(t) ==> (TrulyInside(data, t) <==> DataInside(data, t))
    ensures TrulyInside(data, t) && |data| < 0x80_0000_0000_0000 ==> CountFits(t)
  {
    hide Placed, CountFits, TrueCount;
    TrueCountIff(data, t, header, padded);
    if TrulyInside(data, t) && |data| < 0x80_0000_0000_0000 {
      InsideFits(data, t);
    }
  }

  const VAST: seq<nat> := [65536, 65536, 65536, 65536]

  /** A product that does not fit may be counted as nothing, without a negative count or a wrapped offset. */
  lemma CountVanishes()
    ensures Product(VAST) == 0x1_0000_0000_0000_0000 && ByteCount(VAST, (1, 1)) == 0
  {
    assert VAST[1..] == [65536, 65536, 65536] && [65536, 65536, 65536][1..] == [65536, 65536] && [65536, 65536][1..] == [65536];
    assert [65536][1..] == [];
    assert Product([65536]) == 65536;
    assert Product([65536, 65536]) == 0x1_0000_0000;
    assert Product([65536, 65536, 65536]) == 0x1_0000_0000_0000;
  }

  // ---------------------------------------------------------------- truncation

  lemma SliceCut(data: Bytes, n: nat, at: nat, length: nat)
    requires at + |Slice(data, at, length)| <= n <= |data| && at <= n
    ensures Slice(data[..n], at, length) == Slice(data, at, length)
  {
    assert n == |data| ==> data[..n] == data;
    assert at + length <= n ==> data[..n][at..at + length] == data[at..at + length];
  }

  lemma WordsCut(data: Bytes, n: nat, at: nat, count: nat)
    requires at + 4 * count <= n <= |data|
    ensures ReadWords(data[..n], at, count) == ReadWords(data, at, count)
  {
    hide WordsOf, Slice;
    SliceCut(data, n, at, 4 * count);
  }

  lemma HeaderCut(data: Bytes, n: nat)
    requires HeaderAt(data, 0).Ok? && HeaderSize(HeaderAt(data, 0).value.format) <= n <= |data|
    ensures HeaderAt(data[..n], 0) == HeaderAt(data, 0)
  {
    assert Slice(data[..n], 0, 4) == Slice(data, 0, 4);
  }

  lemma ItemCut(data: Bytes, n: nat, at: nat, scores: bool)
    requires ItemAt(data, at, scores).Ok? && ItemAt(data, at, scores).value.1 <= n <= |data|
    ensures ItemAt(data[..n], at, scores) == ItemAt(data, at, scores)
  {
    hide ReadWords, Slice;
    WordsCut(data, n, at, 1);
    var length := ReadWord(data, at).value;
    SliceCut(data, n, at + 4, length);
    var p := at + 4 + length;
    if scores {
      ScoreCut(data, n, p);
    }
  }

  lemma ScoreCut(data: Bytes, n: nat, p: nat)
    requires p + 4 <= n <= |data|
    ensures data[..n][p..p + 4] == data[p..p + 4]
  {
  }

  lemma {:induction false} ItemsCut(data: Bytes, n: nat, at: nat, count: nat, scores: bool)
    requires ItemsAt(data, at, count, scores).Ok? && ItemsAt(data, at, count, scores).value.1 <= n <= |data|
    ensures ItemsAt(data[..n], at, count, scores) == ItemsAt(data, at, count, scores)
    decreases count
  {
    hide ItemAt;
    if count > 0 {
      var next := ItemAt(data, at, scores).value.1;
      ItemsGrow(data, next, count - 1, scores);
      ItemCut(data, n, at, scores);
      ItemsCut(data, n, next, count - 1, scores);
    }
  }

  /** Where the header of a tensor ends, its name included. */
  function HeaderEnd(t: Info, header: int): int {
    header + 12 + 4 * |t.dims| + |t.name|
  }

  lemma TensorCut(data: Bytes, n: nat, at: nat, padded: bool)
    requires TensorAt(data, at, padded).Ok? && HeaderEnd(TensorAt(data, at, padded).value, at) <= n <= |data|
    ensures TensorAt(data[..n], at, padded) == TensorAt(data, at, padded)
  {
    hide ReadWords, ByteCount, QuantSize, Padding, Slice;
    var words := ReadWords(data, at, 3).value;
    WordsCut(data, n, at, 3);
    WordsCut(data, n, at + 12, words[0]);
    SliceCut(data, n, at + 12 + 4 * words[0], words[1]);
  }

  /** Every header lies in the first n bytes, counted from the start of the data. */
  predicate HeadersWithin(tensors: seq<Info>, first: int, n: nat) {
    forall k :: 0 <= k < |tensors| ==>
      0 <= HeaderOf(tensors, first, k) && HeaderEnd(tensors[k], HeaderOf(tensors, first, k)) <= n
  }

  lemma WithinStep(t: Info, rest: seq<Info>, first: int, n: nat)
    ensures HeadersWithin([t] + rest, first, n) ==>
              0 <= first && HeaderEnd(t, first) <= n && HeadersWithin(rest, End(t), n)
  {
    hide End;
    var tensors := [t] + rest;
    if HeadersWithin(tensors, first, n) {
      assert HeaderOf(tensors, first, 0) == first && tensors[0] == t;
      forall k | 0 <= k < |rest|
        ensures 0 <= HeaderOf(rest, End(t), k) && HeaderEnd(rest[k], HeaderOf(rest, End(t), k)) <= n
      {
        assert HeaderOf(tensors, first, k + 1) == HeaderOf(rest, End(t), k) && tensors[k + 1] == rest[k];
      }
    }
  }

  lemma {:induction false} TensorsCut(data: Bytes, n: nat, at: int, padded: bool)
    requires TensorsAt(data, at, padded).Ok? && n <= |data|
    requires HeadersWithin(TensorsAt(data, at, padded).value.0, at, n)
    ensures TensorsAt(data[..n], at, padded) == TensorsAt(data, at, padded)
    decreases |TensorsAt(data, at, padded).value.0|
  {
    hide TensorAt, TensorsAt, HeadersWithin, CountsMakeSense, End;
    TensorsStep(data, at, padded);
    TensorsStep(data[..n], at, padded);
    if at < |data| {
      FirstAndRest(data, at, padded);
      var t := TensorAt(data, at, padded).value;
      var rest := TensorsAt(data, End(t), padded).value.0;
      WithinStep(t, rest, at, n);
      TensorsCut(data, n, End(t), padded);
      TensorCut(data, n, at, padded);
    }
  }

  /** Where it is read from the start of the data, a header lies in them. */
  lemma HeaderLiesIn(data: Bytes, at: nat, padded: bool)
    requires TensorAt(data, at, padded).Ok?
    ensures HeaderEnd(TensorAt(data, at, padded).value, at) <= |data|
  {
    hide ByteCount, QuantSize, Padding, WordsOf;
  }

  // ---------------------------------------------------------------- cut files

  /** Words read from the first bytes are those of the whole. */
  lemma WordCutOk(data: Bytes, n: nat, at: nat)
    requires n <= |data| && ReadWord(data[..n], at).Ok?
    ensures ReadWord(data, at) == ReadWord(data[..n], at)
  {
    hide ReadWords;
    WordsCut(data, n, at, 1);
  }

  /** If the vocabulary loads from the cut data too, it ends at the same place. */
  lemma {:induction false} ItemsEndAlike(data: Bytes, n: nat, at: nat, count: nat, scores: bool)
    requires n <= |data| && ItemsAt(data[..n], at, count, scores).Ok? && ItemsAt(data, at, count, scores).Ok?
    ensures ItemsAt(data[..n], at, count, scores).value.1 == ItemsAt(data, at, count, scores).value.1
    decreases count
  {
    hide ItemAt;
    if count > 0 {
      ItemEndsAlike(data, n, at, scores);
      ItemsEndAlike(data, n, ItemAt(data, at, scores).value.1, count - 1, scores);
    }
  }

  lemma ItemEndsAlike(data: Bytes, n: nat, at: nat, scores: bool)
    requires n <= |data| && ItemAt(data[..n], at, scores).Ok? && ItemAt(data, at, scores).Ok?
    ensures ItemAt(data[..n], at, scores).value.1 == ItemAt(data, at, scores).value.1
  {
    hide ReadWord, Slice;
    WordCutOk(data, n, at);
  }

  /**
    The loader does not look at tensor data: a file cut anywhere behind its headers loads as if it
    were whole, with the same offsets, though those of the data now lead beyond what is left.
    Unless an offset has gone below zero, only these cuts go unnoticed.
   */
  lemma CutFileLoadsAlike(data: Bytes, n: nat)
    requires LoadAt(data, 0).Ok? && n <= |data|
    ensures var (m, first) := (LoadAt(data, 0).value, TensorStart(data));
            && (HeadersWithin(m.tensors, first, n) ==> LoadAt(data[..n], 0) == LoadAt(data, 0))
            && ((forall k :: 0 <= k < |m.tensors| ==> HeaderOf(m.tensors, first, k) >= 0) ==>
                  (LoadAt(data[..n], 0) == LoadAt(data, 0) <==> HeadersWithin(m.tensors, first, n)))
  {
    hide LoadAt, TensorsAt, TensorStart, HeadersWithin, Found, HeaderOf;
    var (m, first) := (LoadAt(data, 0).value, TensorStart(data));
    LoadParts(data);
    LoadedScan(data);
    if HeadersWithin(m.tensors, first, n) {
      CutFound(data, n, m, first);
      LoadFromParts(data[..n], m, first);
    }
    if LoadAt(data[..n], 0) == LoadAt(data, 0) && forall k :: 0 <= k < |m.tensors| ==> HeaderOf(m.tensors, first, k) >= 0 {
      LoadParts(data[..n]);
      StartsAlike(data, n, m, first, TensorStart(data[..n]));
      FoundWithin(data[..n], m, first);
    }
  }

  lemma CutFound(data: Bytes, n: nat, m: Loaded, first: nat)
    requires Found(data, m, first) && |m.tensors| > 0
    requires HeadersWithin(m.tensors, first, n) && n <= |data|
    ensures Found(data[..n], m, first)
  {
    hide HeaderAt, HyperAt, ItemsAt, TensorsAt, FeedForward, Eligible, HeadersWithin;
    var padded, scores := m.header.format.GGJT?, HasScores(m.header.format);
    var at := HeaderSize(m.header.format);
    assert first <= n by { FirstWithin(m.tensors, first, n); }
    ItemsGrow(data, at + 28, m.hyper.nVocab, scores);
    HeaderCut(data, n);
    HyperCut(data, n, at);
    ItemsCut(data, n, at + 28, m.hyper.nVocab, scores);
    TensorsCut(data, n, first, padded);
  }

  lemma FirstWithin(tensors: seq<Info>, first: int, n: nat)
    requires |tensors| > 0 && HeadersWithin(tensors, first, n)
    ensures 0 <= first <= n
  {
    hide End;
    assert HeaderOf(tensors, first, 0) == first;
  }

  lemma HyperCut(data: Bytes, n: nat, at: nat)
    requires at + 28 <= n <= |data|
    ensures HyperAt(data[..n], at) == HyperAt(data, at)
  {
    hide ReadWords;
    WordsCut(data, n, at, 7);
  }

  lemma StartsAlike(data: Bytes, n: nat, m: Loaded, first: nat, cutFirst: nat)
    requires n <= |data| && Found(data, m, first) && Found(data[..n], m, cutFirst)
    ensures first == cutFirst
  {
    hide HeaderAt, HyperAt, ItemsAt, TensorsAt, FeedForward, Eligible;
    ItemsEndAlike(data, n, HeaderSize(m.header.format) + 28, m.hyper.nVocab, HasScores(m.header.format));
  }

  lemma FoundWithin(data: Bytes, m: Loaded, first: nat)
    requires Found(data, m, first) && forall k :: 0 <= k < |m.tensors| ==> HeaderOf(m.tensors, first, k) >= 0
    ensures HeadersWithin(m.tensors, first, |data|)
  {
    hide HeaderAt, HyperAt, ItemsAt, TensorsAt, TensorAt, FeedForward, Eligible, HeaderOf, HeaderEnd;
    var padded := m.header.format.GGJT?;
    ScanPlaces(data, first, padded);
    forall k | 0 <= k < |m.tensors|
      ensures HeaderEnd(m.tensors[k], HeaderOf(m.tensors, first, k)) <= |data|
    {
      assert Placed(data, m.tensors[k], HeaderOf(m.tensors, first, k), padded);
      HeaderLiesIn(data, HeaderOf(m.tensors, first, k), padded);
    }
  }
}
