/** The legacy formats byte by byte: where each field stands, and the constants in figures and letters. */
module GgmlLayout {
  import opened Wrappers
  import opened GgmlFormat
  import opened GgmlRoundTrip
  import opened GgmlTiling

  /** The unsigned little-endian number in the four bytes from i on. */
  function Number(data: Bytes, i: nat): nat
    requires i + 4 <= |data|
  {
    (data[i] as int) + 256 * (data[i + 1] as int) + 65536 * (data[i + 2] as int) + 16777216 * (data[i + 3] as int)
  }

  // ---------------------------------------------------------------- letters

  /** The bytes are those characters. */
  predicate Spells(bytes: Bytes, text: string) {
    |bytes| == |text| && forall i :: 0 <= i < |text| ==> bytes[i] == text[i] as int
  }

  lemma MagicsAre()
    ensures Spells(GGUF_MAGIC, "GGUF") && Spells(GGML_MAGIC, "lmgg") && Spells(GGMF_MAGIC, "fmgg") && Spells(GGJT_MAGIC, "tjgg")
  {
  }

  lemma FeedForwardIs()
    ensures Spells(FEED_FORWARD, "layers.0" + ".feed_" + "forward" + ".w1.weight")
  {
    assert Spells(LAYER_ZERO, "layers.0") && Spells(FEED, ".feed_");
    assert Spells(FORWARD, "forward") && Spells(FIRST_WEIGHT, ".w1.weight");
    SpellsOn(LAYER_ZERO, "layers.0", FEED, ".feed_");
    SpellsOn(LAYER_ZERO + FEED, "layers.0" + ".feed_", FORWARD, "forward");
    SpellsOn(LAYER_ZERO + FEED + FORWARD, "layers.0" + ".feed_" + "forward", FIRST_WEIGHT, ".w1.weight");
  }

  lemma SpellsOn(b: Bytes, s: string, c: Bytes, t: string)
    requires Spells(b, s) && Spells(c, t)
    ensures Spells(b + c, s + t)
  {
  }

  // ---------------------------------------------------------------- words

  lemma {:induction false} WordsAre(bytes: Bytes, i: nat)
    requires |bytes| % 4 == 0 && 4 * i + 4 <= |bytes|
    ensures i < |WordsOf(bytes)| && WordsOf(bytes)[i] == Number(bytes, 4 * i)
  {
    if i > 0 {
      WordsAre(bytes[4..], i - 1);
    }
  }

  /** Words inside the data are read from consecutive fours of bytes. */
  lemma WordsRead(data: Bytes, at: nat, n: nat)
    requires at + 4 * n <= |data|
    ensures ReadWords(data, at, n).Ok?
    ensures forall i: nat :: i < n ==> ReadWords(data, at, n).value[i] == Number(data, at + 4 * i)
  {
    hide WordsOf;
    var bytes := data[at..at + 4 * n];
    forall i: nat | i < n
      ensures ReadWords(data, at, n).value[i] == Number(data, at + 4 * i)
    {
      WordsAre(bytes, i);
    }
  }

  lemma WordRead(data: Bytes, at: nat)
    ensures ReadWord(data, at).Ok? <==> at + 4 <= |data|
    ensures at + 4 <= |data| ==> ReadWord(data, at) == Ok(Number(data, at))
  {
    hide ReadWords;
    if at + 4 <= |data| {
      WordsRead(data, at, 1);
      assert ReadWords(data, at, 1).value[0] == Number(data, at + 4 * 0);
    }
  }

  /** A slice from below zero counts from the end of the data, and is empty if it reaches zero or begins before the data. */
  lemma NegativeSlice(data: Bytes, at: int, n: nat)
    requires at < 0
    ensures -|data| <= at && at + n < 0 ==> Slice(data, at, n) == data[|data| + at..|data| + at + n]
    ensures at < -|data| && at + n < -|data| ==> Slice(data, at, n) == []
    ensures at + n == 0 ==> Slice(data, at, n) == []
  {
  }

  // ---------------------------------------------------------------- header, hyperparameters and vocabulary

  /** The header: its magic, and but for the first format a version in the four bytes behind it. */
  lemma HeaderFields(data: Bytes)
    ensures HeaderAt(data, 0)
            == if data[..Fewer(|data|)] == GGUF_MAGIC then Err(AlreadyGguf)
               else if data[..Fewer(|data|)] == GGML_MAGIC then Ok(Header(GGML, 1))
               else if |data| < 8 then Err(ShortRead)
               else if data[..4] == GGMF_MAGIC then (if Number(data, 4) == 1 then Ok(Header(GGMF, 1)) else Err(BadVersion))
               else if data[..4] == GGJT_MAGIC then
                 (if Number(data, 4) in {1, 2, 3} then Ok(Header(GGJT, Number(data, 4))) else Err(BadVersion))
               else Err(UnknownMagic)
  {
    hide ReadWord;
    WordRead(data, 4);
    assert Slice(data, 0, 4) == data[..Fewer(|data|)];
  }

  function Fewer(n: nat): (r: nat)
    ensures r <= n
  {
    if n < 4 then n else 4
  }

  /** Seven words in this order, the last one a known file type. */
  lemma HyperFields(data: Bytes, at: nat)
    ensures at + 28 > |data| ==> HyperAt(data, at) == Err(ShortRead)
    ensures at + 28 <= |data| ==>
              match HyperAt(data, at)
              case Ok(h) =>
                && h.nVocab == Number(data, at) && h.nEmbd == Number(data, at + 4) && h.nMult == Number(data, at + 8)
                && h.nHead == Number(data, at + 12) && h.nLayer == Number(data, at + 16) && h.nRot == Number(data, at + 20)
                && h.ftype == Number(data, at + 24)
                && h.ftype in {0, 1, 2, 3, 4, 7, 8, 9, 10, 11, 12, 13, 14, 15, 16, 17, 18}
              case Err(e) =>
                e == InvalidFtype && Number(data, at + 24) !in {0, 1, 2, 3, 4, 7, 8, 9, 10, 11, 12, 13, 14, 15, 16, 17, 18}
  {
    hide ReadWords;
    if at + 28 <= |data| {
      WordsRead(data, at, 7);
      var w := ReadWords(data, at, 7).value;
      assert w[0] == Number(data, at + 4 * 0) && w[1] == Number(data, at + 4 * 1) && w[2] == Number(data, at + 4 * 2);
      assert w[3] == Number(data, at + 4 * 3) && w[4] == Number(data, at + 4 * 4) && w[5] == Number(data, at + 4 * 5);
      assert w[6] == Number(data, at + 4 * 6);
    }
  }

  /** Which files can be converted: unquantised ones, from the second version of GGJT on others, from the third on all. */
  lemma EligibleAre(header: Header, ftype: nat)
    requires GoodHeader(header) && KnownFtype(ftype)
    ensures Eligible(header, ftype) <==>
              || ftype == 0 || ftype == 1
              || header == Header(GGJT, 3)
              || (header == Header(GGJT, 2) && ftype !in {2, 3, 4, 7})
  {
  }

  /** An item: a length below 4096, the text, and where there are scores four bytes more. */
  lemma ItemFields(data: Bytes, at: nat, scores: bool)
    ensures at + 4 > |data| ==> ItemAt(data, at, scores) == Err(ShortRead)
    ensures at + 4 <= |data| && Number(data, at) >= 4096 ==> ItemAt(data, at, scores) == Err(AbsurdItemLength)
    ensures at + 4 <= |data| && Number(data, at) < 4096 ==>
              var (text, behind) := (Slice(data, at + 4, Number(data, at)), at + 4 + Number(data, at));
              ItemAt(data, at, scores)
              == if !scores then Ok((Item(text, [0, 0, 0, 0]), behind))
                 else if behind + 4 > |data| then Err(ShortRead)
                 else Ok((Item(text, data[behind..behind + 4]), behind + 4))
  {
    hide ReadWord, Slice;
    WordRead(data, at);
  }

  // ---------------------------------------------------------------- tensors

  /** The sizes of the tensor types: elements of a block, and its bytes from its scales, minima and quants. */
  lemma PlainSizesAre()
    ensures QuantSize(0) == Some((1, 4)) && QuantSize(1) == Some((1, 2)) && QuantSize(24) == Some((1, 1))
    ensures QuantSize(25) == Some((1, 2)) && QuantSize(26) == Some((1, 4)) && QuantSize(27) == Some((1, 8))
    ensures QuantSize(28) == Some((1, 8)) && QuantSize(30) == Some((1, 2))
  {
  }

  lemma BlockSizesAre()
    ensures QuantSize(2) == Some((32, 2 + 16)) && QuantSize(3) == Some((32, 2 + 2 + 16))
    ensures QuantSize(6) == Some((32, 2 + 4 + 16)) && QuantSize(7) == Some((32, 2 + 2 + 4 + 16))
    ensures QuantSize(8) == Some((32, 2 + 32)) && QuantSize(9) == Some((32, 4 + 4 + 32))
    ensures QuantSize(20) == Some((32, 2 + 16)) && QuantSize(39) == Some((32, 1 + 16))
  {
  }

  lemma SuperBlockSizesAre()
    ensures QuantSize(10) == Some((256, 2 + 2 + 256 / 16 + 256 / 4)) && QuantSize(11) == Some((256, 2 + 256 / 4 + 256 / 8 + 12))
    ensures QuantSize(12) == Some((256, 2 + 2 + 256 / 2 + 12)) && QuantSize(13) == Some((256, 2 + 2 + 256 / 2 + 256 / 8 + 12))
    ensures QuantSize(14) == Some((256, 2 + 256 / 2 + 256 / 4 + 256 / 16)) && QuantSize(15) == Some((256, 4 + 256 + 256 / 8))
    ensures QuantSize(34) == Some((256, 2 + 4 * 13)) && QuantSize(35) == Some((256, 2 + 64))
  {
  }

  lemma MatrixSizesAre()
    ensures QuantSize(16) == Some((256, 2 + 256 / 4)) && QuantSize(17) == Some((256, 2 + 256 / 4 + 256 / 32))
    ensures QuantSize(18) == Some((256, 2 + 256 / 4 + 256 / 8)) && QuantSize(19) == Some((256, 2 + 256 / 8 + 256 / 16))
    ensures QuantSize(21) == Some((256, 2 + 256 / 4 + 256 / 8 + 256 / 32 + 4)) && QuantSize(22) == Some((256, 2 + 256 / 4 + 256 / 16))
    ensures QuantSize(23) == Some((256, 2 + 2 + 256 / 2 + 256 / 64)) && QuantSize(29) == Some((256, 256 / 8 + 256 / 16 + 256 / 32))
  {
  }

  /** There are no other types. */
  lemma NoOtherSizes(dtype: nat)
    requires dtype in {4, 5, 31, 32, 33, 36, 37, 38} || dtype > 39
    ensures QuantSize(dtype).None?
  {
  }

  /**
    A tensor read inside the data: words for the number of dimensions, the length of the name and
    the type, then the dimensions and the name, then in one format padding to a multiple of 32.
   */
  lemma TensorFields(data: Bytes, at: nat, padded: bool)
    requires at + 12 <= |data|
    ensures var (nDims, nameLength, dtype) := (Number(data, at), Number(data, at + 4), Number(data, at + 8));
            match TensorAt(data, at, padded)
            case Ok(t) =>
              && nDims <= 4 && nameLength < 4096 && QuantSize(dtype).Some? && at + 12 + 4 * nDims <= |data|
              && t.dtype == dtype && |t.dims| == nDims
              && (forall i: nat :: i < nDims ==> t.dims[i] == Number(data, at + 12 + 4 * i))
              && t.name == Slice(data, at + 12 + 4 * nDims, nameLength)
              && t.bytes == ByteCount(t.dims, QuantSize(dtype).value)
              && at + 12 + 4 * nDims + nameLength <= t.start < at + 12 + 4 * nDims + nameLength + 32
              && (if padded then t.start % 32 == 0 else t.start == at + 12 + 4 * nDims + nameLength)
            case Err(e) =>
              if nDims > 4 then e == InvalidDimensions
              else if nameLength >= 4096 then e == AbsurdNameLength
              else if QuantSize(dtype).None? then e == UnknownTensorType
              else at + 12 + 4 * nDims > |data| && e == ShortRead
  {
    hide ReadWords, Slice, QuantSize, ByteCount, Padding;
    WordsRead(data, at, 3);
    var w := ReadWords(data, at, 3).value;
    assert w[0] == Number(data, at + 4 * 0) && w[1] == Number(data, at + 4 * 1) && w[2] == Number(data, at + 4 * 2);
    if at + 12 + 4 * w[0] <= |data| {
      WordsRead(data, at + 12, w[0]);
      assert forall i: nat :: i < w[0] ==> ReadWords(data, at + 12, w[0]).value[i] == Number(data, at + 12 + 4 * i);
    }
  }

  /** 64-bit arithmetic keeps the residue and the range. */
  lemma Wrap64Is(x: int)
    ensures -0x8000_0000_0000_0000 <= Wrap64(x) < 0x8000_0000_0000_0000
    ensures (Wrap64(x) - x) % 0x1_0000_0000_0000_0000 == 0
    ensures -0x8000_0000_0000_0000 <= x < 0x8000_0000_0000_0000 ==> Wrap64(x) == x
  {
    var q := (x + 0x8000_0000_0000_0000) / 0x1_0000_0000_0000_0000;
    assert Wrap64(x) - x == -q * 0x1_0000_0000_0000_0000;
  }

  lemma ProductIs(dims: seq<nat>, d: nat, e: nat)
    ensures Product([]) == 1 && Product([d] + dims) == d * Product(dims) && Product([d, e]) == d * e
  {
    assert ([d] + dims)[1..] == dims && [d, e][1..] == [e] && [e][1..] == [];
    assert Product([e]) == e;
  }

  // ---------------------------------------------------------------- the whole file

  /**
    What a loaded file is made of: the hyperparameters stand behind 4 bytes of header in GGML and 8
    in the others, the vocabulary behind these, with scores but in GGML, then the tensors, padded in
    GGJT only; the width is the second dimension of the last tensor of its name.
   */
  lemma LoadedFrom(data: Bytes)
    requires LoadAt(data, 0).Ok?
    ensures var m := LoadAt(data, 0).value;
            var at := if m.header.format == GGML then 4 else 8;
            && HeaderAt(data, 0) == Ok(m.header) && HyperAt(data, at) == Ok(m.hyper)
            && ItemsAt(data, at + 28, m.hyper.nVocab, m.header.format != GGML) == Ok((m.items, TensorStart(data)))
            && TensorsAt(data, TensorStart(data), m.header.format == GGJT) == Ok((m.tensors, m.end))
            && exists k :: 0 <= k < |m.tensors| && m.tensors[k].name == FEED_FORWARD && |m.tensors[k].dims| >= 2
                           && m.tensors[k].dims[1] == m.nFf
                           && forall j :: k < j < |m.tensors| ==> m.tensors[j].name != FEED_FORWARD
  {
    hide HeaderAt, HyperAt, ItemsAt, TensorsAt, Eligible, TensorMap;
    var m := LoadAt(data, 0).value;
    LoadParts(data);
    TensorMapIsLast(m.tensors, FEED_FORWARD);
    var k := TensorMap(m.tensors)[FEED_FORWARD];
    assert m.tensors[k].name == FEED_FORWARD;
  }

  /** Why a file does not load: the first of these, in this order. */
  lemma RefusedFor(data: Bytes)
    ensures var header := HeaderAt(data, 0);
            if header.Err? then LoadAt(data, 0) == Err(header.error) else RefusedBehind(data, header.value)
  {
    hide HeaderAt, HyperAt, ItemsAt, TensorsAt, Eligible, TensorMap, QuantSize, FeedForward;
    if HeaderAt(data, 0).Ok? {
      var h := HeaderAt(data, 0).value;
      var at := if h.format == GGML then 4 else 8;
      var hyper := HyperAt(data, at);
      if hyper.Ok? && Eligible(h, hyper.value.ftype) {
        var items := ItemsAt(data, at + 28, hyper.value.nVocab, h.format != GGML);
        if items.Ok? {
          var tensors := TensorsAt(data, items.value.1, h.format == GGJT);
          if tensors.Ok? {
            WidthRefused(tensors.value.0);
          }
        }
      }
    }
  }

  ghost predicate NoWidthTensor(tensors: seq<Info>) {
    forall k :: 0 <= k < |tensors| ==> tensors[k].name != FEED_FORWARD
  }

  /** Behind a good header: the hyperparameters, what can be converted, the vocabulary, the tensors, then the width. */
  ghost predicate RefusedBehind(data: Bytes, h: Header) {
    var at := if h.format == GGML then 4 else 8;
    var hyper := HyperAt(data, at);
    if hyper.Err? then LoadAt(data, 0) == Err(hyper.error)
    else if !Eligible(h, hyper.value.ftype) then LoadAt(data, 0) == Err(NotEligible)
    else
      var items := ItemsAt(data, at + 28, hyper.value.nVocab, h.format != GGML);
      if items.Err? then LoadAt(data, 0) == Err(items.error)
      else
        var tensors := TensorsAt(data, items.value.1, h.format == GGJT);
        if tensors.Err? then LoadAt(data, 0) == Err(tensors.error)
        else if NoWidthTensor(tensors.value.0) then
          LoadAt(data, 0) == Err(MissingFeedForward)
        else LoadAt(data, 0).Ok? || LoadAt(data, 0) == Err(FeedForwardShape)
  }

  lemma WidthRefused(tensors: seq<Info>)
    ensures NoWidthTensor(tensors) <==> FeedForward(tensors) == Err(MissingFeedForward)
    ensures FeedForward(tensors).Ok? || FeedForward(tensors) == Err(MissingFeedForward) || FeedForward(tensors) == Err(FeedForwardShape)
  {
    hide TensorMap;
    TensorMapIsLast(tensors, FEED_FORWARD);
    if FEED_FORWARD in TensorMap(tensors) {
      assert tensors[TensorMap(tensors)[FEED_FORWARD]].name == FEED_FORWARD;
    }
  }

  function OneMore(item: Item, rest: Result<(seq<Item>, nat), LoadError>): Result<(seq<Item>, nat), LoadError> {
    if rest.Err? then rest else Ok(([item] + rest.value.0, rest.value.1))
  }

  /** Items one after the other. */
  lemma ItemsFollow(data: Bytes, at: nat, n: nat, scores: bool)
    ensures ItemsAt(data, at, 0, scores) == Ok(([], at))
    ensures ItemsAt(data, at, n + 1, scores)
            == if ItemAt(data, at, scores).Err? then Err(ItemAt(data, at, scores).error)
               else OneMore(ItemAt(data, at, scores).value.0, ItemsAt(data, ItemAt(data, at, scores).value.1, n, scores))
  {
    hide ItemAt;
  }
}
