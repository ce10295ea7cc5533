/** Writing legacy files: loading what was written, and writing what was loaded. */
module GgmlRoundTrip {
  import opened Wrappers
  import opened GgmlFormat
  import opened GgmlScan

  datatype TensorContent = TensorContent(name: Bytes, dims: seq<nat>, dtype: nat, data: Bytes)

  /** What a file is about, without its offsets. */
  datatype File = File(header: Header, hyper: Hyper, items: seq<Item>, tensors: seq<TensorContent>)

  // ---------------------------------------------------------------- writing

  function PutWord(v: nat): (b: Bytes)
    requires v < 0x1_0000_0000
    ensures |b| == 4
  {
    [v % 0x100, v / 0x100 % 0x100, v / 0x100 / 0x100 % 0x100, v / 0x100 / 0x100 / 0x100]
  }

  predicate AreWords(words: seq<nat>) {
    forall i :: 0 <= i < |words| ==> words[i] < 0x1_0000_0000
  }

  function PutWords(words: seq<nat>): (b: Bytes)
    requires AreWords(words)
    ensures |b| == 4 * |words|
  {
    if words == [] then [] else PutWord(words[0]) + PutWords(words[1..])
  }

  function Zeros(n: nat): (b: Bytes)
    ensures |b| == n && forall i :: 0 <= i < n ==> b[i] == 0
  {
    seq(n, i => 0)
  }

  predicate GoodHeader(h: Header) {
    match h.format
    case GGML => h.version == 1
    case GGMF => h.version == 1
    case GGJT => 1 <= h.version <= 3
  }

  function WriteHeader(h: Header): (b: Bytes)
    requires GoodHeader(h)
    ensures |b| == HeaderSize(h.format)
  {
    match h.format
    case GGML => GGML_MAGIC
    case GGMF => GGMF_MAGIC + PutWord(h.version)
    case GGJT => GGJT_MAGIC + PutWord(h.version)
  }

  function HyperWords(h: Hyper): (w: seq<nat>)
    ensures |w| == 7
  {
    [h.nVocab, h.nEmbd, h.nMult, h.nHead, h.nLayer, h.nRot, h.ftype]
  }

  predicate GoodItem(item: Item, scores: bool) {
    |item.text| < 4096 && |item.score| == 4 && (!scores ==> item.score == NO_SCORE)
  }

  predicate GoodItems(items: seq<Item>, scores: bool) {
    forall i :: 0 <= i < |items| ==> GoodItem(items[i], scores)
  }

  function WriteItem(item: Item, scores: bool): Bytes
    requires GoodItem(item, scores)
  {
    PutWord(|item.text|) + (item.text + (if scores then item.score else []))
  }

  function WriteItems(items: seq<Item>, scores: bool): Bytes
    requires GoodItems(items, scores)
  {
    if items == [] then [] else WriteItem(items[0], scores) + WriteItems(items[1..], scores)
  }

  predicate GoodTensor(t: TensorContent) {
    && |t.dims| <= 4 && |t.name| < 4096 && AreWords(t.dims) && t.dtype < 0x1_0000_0000
    && QuantSize(t.dtype).Some? && |t.data| == ByteCount(t.dims, QuantSize(t.dtype).value)
  }

  predicate GoodTensors(tensors: seq<TensorContent>) {
    forall i :: 0 <= i < |tensors| ==> GoodTensor(tensors[i])
  }

  function WriteTensor(t: TensorContent, at: nat, padded: bool): Bytes
    requires GoodTensor(t)
  {
    PutWords([|t.dims|, |t.name|, t.dtype])
    + (PutWords(t.dims) + (t.name + (Zeros(Padding(at + 12 + 4 * |t.dims| + |t.name|, padded)) + t.data)))
  }

  function WriteTensors(tensors: seq<TensorContent>, at: nat, padded: bool): Bytes
    requires GoodTensors(tensors)
  {
    if tensors == [] then []
    else
      var first := WriteTensor(tensors[0], at, padded);
      first + WriteTensors(tensors[1..], at + |first|, padded)
  }

  /** The first-layer tensor that fixes the feed-forward width: the last one of that name, with two dimensions. */
  ghost predicate HasFeedForward(tensors: seq<TensorContent>) {
    exists k :: IsWidthTensor(tensors, k)
  }

  /** The tensor whose second dimension is the feed-forward width. */
  ghost predicate IsWidthTensor(tensors: seq<TensorContent>, k: int) {
    && 0 <= k < |tensors| && tensors[k].name == FEED_FORWARD && |tensors[k].dims| >= 2
    && forall j :: k < j < |tensors| ==> tensors[j].name != FEED_FORWARD
  }

  ghost predicate GoodFile(f: File) {
    && GoodHeader(f.header) && AreWords(HyperWords(f.hyper)) && KnownFtype(f.hyper.ftype) && Eligible(f.header, f.hyper.ftype)
    && |f.items| == f.hyper.nVocab && GoodItems(f.items, HasScores(f.header.format))
    && GoodTensors(f.tensors)
    && HasFeedForward(f.tensors)
    && |Write(f)| < 0x8000_0000_0000_0000
  }

  function WritePrelude(f: File): Bytes
    requires GoodHeader(f.header) && AreWords(HyperWords(f.hyper)) && GoodItems(f.items, HasScores(f.header.format))
  {
    WriteHeader(f.header) + (PutWords(HyperWords(f.hyper)) + WriteItems(f.items, HasScores(f.header.format)))
  }

  function Write(f: File): Bytes
    requires GoodHeader(f.header) && AreWords(HyperWords(f.hyper)) && GoodItems(f.items, HasScores(f.header.format))
    requires GoodTensors(f.tensors)
  {
    WritePrelude(f) + WriteTensors(f.tensors, |WritePrelude(f)|, f.header.format.GGJT?)
  }

  // ---------------------------------------------------------------- reading back

  function Content(data: Bytes, t: Info): TensorContent {
    TensorContent(t.name, t.dims, t.dtype, if t.start >= 0 && t.bytes >= 0 then Slice(data, t.start, t.bytes) else [])
  }

  function Contents(data: Bytes, tensors: seq<Info>): (r: seq<TensorContent>)
    ensures |r| == |tensors|
  {
    seq(|tensors|, k requires 0 <= k < |tensors| => Content(data, tensors[k]))
  }

  /** The file that was loaded: its tensors' data are the bytes at the offsets the loader found. */
  function FileOf(data: Bytes, m: Loaded): File {
    File(m.header, m.hyper, m.items, Contents(data, m.tensors))
  }

  ghost predicate Has(data: Bytes, at: nat, s: Bytes) {
    at + |s| <= |data| && data[at..at + |s|] == s
  }

  lemma HasParts(data: Bytes, at: nat, s: Bytes, t: Bytes)
    ensures Has(data, at, s + t) <==> Has(data, at, s) && Has(data, at + |s|, t)
  {
    if at + |s| + |t| <= |data| {
      var both := data[at..at + |s + t|];
      assert both[..|s|] == data[at..at + |s|] && both[|s|..] == data[at + |s|..at + |s| + |t|];
      assert both == both[..|s|] + both[|s|..];
      assert (s + t)[..|s|] == s && (s + t)[|s|..] == t;
    }
  }

  lemma WordOfBytes(v: nat)
    requires v < 0x1_0000_0000
    ensures var b := PutWord(v); Word(b[0], b[1], b[2], b[3]) == v
  {
  }

  lemma BytesOfWord(b0: Byte, b1: Byte, b2: Byte, b3: Byte)
    ensures PutWord(Word(b0, b1, b2, b3)) == [b0, b1, b2, b3]
  {
    var v := Word(b0, b1, b2, b3);
    assert v == b0 + 0x100 * (b1 + 0x100 * (b2 + 0x100 * b3));
    assert v / 0x100 == b1 + 0x100 * (b2 + 0x100 * b3);
    assert v / 0x100 / 0x100 == b2 + 0x100 * b3;
  }

  lemma {:induction false} WordsOfBytes(words: seq<nat>)
    requires AreWords(words)
    ensures WordsOf(PutWords(words)) == words
  {
    hide Word, PutWord;
    if words != [] {
      var bytes := PutWords(words);
      WordOfBytes(words[0]);
      WordsOfBytes(words[1..]);
      assert bytes[..4] == PutWord(words[0]) && bytes[4..] == PutWords(words[1..]);
      assert [words[0]] + words[1..] == words;
    }
  }

  lemma {:induction false} BytesOfWords(bytes: Bytes)
    requires |bytes| % 4 == 0
    ensures PutWords(WordsOf(bytes)) == bytes
  {
    hide Word, PutWord;
    if bytes != [] {
      var words := WordsOf(bytes);
      BytesOfWord(bytes[0], bytes[1], bytes[2], bytes[3]);
      BytesOfWords(bytes[4..]);
      assert words[1..] == WordsOf(bytes[4..]);
      assert [bytes[0], bytes[1], bytes[2], bytes[3]] + bytes[4..] == bytes;
    }
  }

  /** Words are there exactly when they are read. */
  lemma HasWords(data: Bytes, at: nat, words: seq<nat>)
    requires AreWords(words) && (words == [] ==> at <= |data|)
    ensures Has(data, at, PutWords(words)) <==> ReadWords(data, at, |words|) == Ok(words)
  {
    hide PutWords, WordsOf, Slice;
    if at + 4 * |words| <= |data| {
      SameWords(Slice(data, at, 4 * |words|), words);
    }
  }

  /** Bytes are words written exactly when they are read as those words. */
  lemma SameWords(bytes: Bytes, words: seq<nat>)
    requires AreWords(words) && |bytes| == 4 * |words|
    ensures bytes == PutWords(words) <==> WordsOf(bytes) == words
  {
    hide PutWords, WordsOf;
    WordsOfBytes(words);
    BytesOfWords(bytes);
  }

  lemma HasWord(data: Bytes, at: nat, v: nat)
    requires v < 0x1_0000_0000
    ensures Has(data, at, PutWord(v)) <==> ReadWord(data, at) == Ok(v)
  {
    hide Has, ReadWords, PutWord;
    HasWords(data, at, [v]);
    OneWord(v);
    var read := ReadWords(data, at, 1);
    assert read.Ok? ==> read.value == [read.value[0]];
  }

  lemma OneWord(v: nat)
    requires v < 0x1_0000_0000
    ensures PutWords([v]) == PutWord(v)
  {
    hide PutWord;
    assert [v][1..] == [];
  }

  lemma HasSlice(data: Bytes, at: nat, s: Bytes)
    requires at <= |data|
    ensures Has(data, at, s) <==> Slice(data, at, |s|) == s
  {
  }

  // ---------------------------------------------------------------- header and vocabulary

  lemma HasHeader(data: Bytes, at: nat, h: Header)
    requires GoodHeader(h) && at <= |data|
    ensures Has(data, at, WriteHeader(h)) <==> HeaderAt(data, at) == Ok(h)
  {
    hide PutWord, ReadWord;
    if h.format.GGML? {
      HasSlice(data, at, GGML_MAGIC);
    } else {
      var magic := if h.format.GGMF? then GGMF_MAGIC else GGJT_MAGIC;
      HasSlice(data, at, magic);
      HasParts(data, at, magic, PutWord(h.version));
      HasWord(data, at + 4, h.version);
    }
  }

  lemma HeaderIsGood(data: Bytes, at: nat)
    ensures HeaderAt(data, at).Ok? ==>
              var h := HeaderAt(data, at).value; GoodHeader(h) && at + HeaderSize(h.format) <= |data|
  {
  }

  lemma HasHyper(data: Bytes, at: nat, h: Hyper)
    requires AreWords(HyperWords(h)) && at <= |data|
    ensures Has(data, at, PutWords(HyperWords(h))) && KnownFtype(h.ftype) <==> HyperAt(data, at) == Ok(h)
  {
    hide PutWords, ReadWords, Has;
    HasWords(data, at, HyperWords(h));
    var w := ReadWords(data, at, 7);
    if w.Ok? {
      assert w.value == [w.value[0], w.value[1], w.value[2], w.value[3], w.value[4], w.value[5], w.value[6]];
    }
  }

  lemma HyperIsGood(data: Bytes, at: nat)
    ensures HyperAt(data, at).Ok? ==>
              AreWords(HyperWords(HyperAt(data, at).value)) && KnownFtype(HyperAt(data, at).value.ftype) && at + 28 <= |data|
  {
    hide ReadWords;
  }

  lemma HasItem(data: Bytes, at: nat, item: Item, scores: bool)
    requires GoodItem(item, scores) && at <= |data| && Has(data, at, WriteItem(item, scores))
    ensures ItemAt(data, at, scores) == Ok((item, at + |WriteItem(item, scores)|)) && at + |WriteItem(item, scores)| <= |data|
  {
    hide PutWord, ReadWord;
    var n := |item.text|;
    var score: Bytes := if scores then item.score else [];
    HasParts(data, at, PutWord(n), item.text + score);
    HasWord(data, at, n);
    HasParts(data, at + 4, item.text, score);
    HasSlice(data, at + 4, item.text);
  }

  /** An item that ends within the data was not cut short. */
  lemma ItemWasWritten(data: Bytes, at: nat, scores: bool)
    requires ItemAt(data, at, scores).Ok? && ItemAt(data, at, scores).value.1 <= |data|
    ensures var (item, end) := ItemAt(data, at, scores).value;
            GoodItem(item, scores) && Has(data, at, WriteItem(item, scores)) && end == at + |WriteItem(item, scores)|
  {
    hide PutWord, ReadWord, Has, Slice;
    var (item, end) := ItemAt(data, at, scores).value;
    var n := |item.text|;
    var score: Bytes := if scores then item.score else [];
    HasWord(data, at, n);
    HasSlice(data, at + 4, item.text);
    HasSelf(data, at + 4 + n, |score|);
    HasParts(data, at + 4, item.text, score);
    HasParts(data, at, PutWord(n), item.text + score);
  }

  lemma HasSelf(data: Bytes, at: nat, n: nat)
    requires at + n <= |data|
    ensures Has(data, at, data[at..at + n])
  {
  }

  lemma {:induction false} HasItems(data: Bytes, at: nat, items: seq<Item>, scores: bool)
    requires GoodItems(items, scores) && at <= |data| && Has(data, at, WriteItems(items, scores))
    ensures ItemsAt(data, at, |items|, scores) == Ok((items, at + |WriteItems(items, scores)|))
    decreases |items|
  {
    hide WriteItem, ItemAt, GoodItem, Has;
    if items != [] {
      var first := WriteItem(items[0], scores);
      HasParts(data, at, first, WriteItems(items[1..], scores));
      HasItem(data, at, items[0], scores);
      HasItems(data, at + |first|, items[1..], scores);
      assert items == [items[0]] + items[1..];
    }
  }

  lemma {:induction false} ItemsWereWritten(data: Bytes, at: nat, n: nat, scores: bool)
    requires ItemsAt(data, at, n, scores).Ok? && ItemsAt(data, at, n, scores).value.1 <= |data|
    ensures var (items, end) := ItemsAt(data, at, n, scores).value;
            GoodItems(items, scores) && Has(data, at, WriteItems(items, scores)) && end == at + |WriteItems(items, scores)|
    decreases n
  {
    hide WriteItem, ItemAt, GoodItem, Has;
    if n == 0 {
      HasNothing(data, at);
    } else {
      var (item, next) := ItemAt(data, at, scores).value;
      var rest := ItemsAt(data, next, n - 1, scores).value.0;
      ItemsGrow(data, next, n - 1, scores);
      ItemWasWritten(data, at, scores);
      ItemsWereWritten(data, next, n - 1, scores);
      assert ([item] + rest)[0] == item && ([item] + rest)[1..] == rest;
      HasParts(data, at, WriteItem(item, scores), WriteItems(rest, scores));
    }
  }

  lemma HasNothing(data: Bytes, at: nat)
    requires at <= |data|
    ensures Has(data, at, [])
  {
  }

  lemma {:induction false} ItemsGrow(data: Bytes, at: nat, n: nat, scores: bool)
    requires ItemsAt(data, at, n, scores).Ok?
    ensures ItemsAt(data, at, n, scores).value.1 >= at
    decreases n
  {
    if n > 0 {
      ItemsGrow(data, ItemAt(data, at, scores).value.1, n - 1, scores);
    }
  }

  // ---------------------------------------------------------------- tensors

  function InfoOf(t: TensorContent, at: nat, padded: bool): Info {
    var behindName := at + 12 + 4 * |t.dims| + |t.name|;
    Info(t.name, t.dims, t.dtype, behindName + Padding(behindName, padded), |t.data|)
  }

  lemma TensorParts(data: Bytes, at: nat, t: TensorContent, padded: bool)
    requires GoodTensor(t)
    ensures var behindDims, behindName := at + 12 + 4 * |t.dims|, at + 12 + 4 * |t.dims| + |t.name|;
            var pad := Padding(behindName, padded);
            && |WriteTensor(t, at, padded)| == 12 + 4 * |t.dims| + |t.name| + pad + |t.data|
            && (Has(data, at, WriteTensor(t, at, padded)) <==>
                  && Has(data, at, PutWords([|t.dims|, |t.name|, t.dtype])) && Has(data, at + 12, PutWords(t.dims))
                  && Has(data, behindDims, t.name) && Has(data, behindName, Zeros(pad)) && Has(data, behindName + pad, t.data))
  {
    hide Has, PutWords, Padding, ByteCount, QuantSize;
    var behindDims, behindName := at + 12 + 4 * |t.dims|, at + 12 + 4 * |t.dims| + |t.name|;
    var zeros := Zeros(Padding(behindName, padded));
    HasParts(data, behindName, zeros, t.data);
    HasParts(data, behindDims, t.name, zeros + t.data);
    HasParts(data, at + 12, PutWords(t.dims), t.name + (zeros + t.data));
    HasParts(data, at, PutWords([|t.dims|, |t.name|, t.dtype]), PutWords(t.dims) + (t.name + (zeros + t.data)));
  }

  lemma HasBounds(data: Bytes, at: nat, s: Bytes)
    requires Has(data, at, s)
    ensures at + |s| <= |data|
  {
  }

  /** A written tensor is read back: its description, where it ends, and its data. */
  lemma HasTensor(data: Bytes, at: nat, t: TensorContent, padded: bool)
    requires GoodTensor(t) && at <= |data| < 0x8000_0000_0000_0000 && Has(data, at, WriteTensor(t, at, padded))
    ensures TensorAt(data, at, padded) == Ok(InfoOf(t, at, padded))
    ensures End(InfoOf(t, at, padded)) == at + |WriteTensor(t, at, padded)| <= |data|
    ensures Content(data, InfoOf(t, at, padded)) == t && CountMakesSense(InfoOf(t, at, padded))
  {
    hide PutWords, ReadWords, Padding, ByteCount, QuantSize, WriteTensor, Has, Slice;
    var info := InfoOf(t, at, padded);
    HasBounds(data, at, WriteTensor(t, at, padded));
    TensorParts(data, at, t, padded);
    var words := [|t.dims|, |t.name|, t.dtype];
    HasWords(data, at, words);
    HasWords(data, at + 12, t.dims);
    HasSlice(data, at + 12 + 4 * |t.dims|, t.name);
    HasSlice(data, info.start, t.data);
    assert words[0] == |t.dims| && words[1] == |t.name| && words[2] == t.dtype;
  }

  /** The padding in front of a tensor's data, which the loader skips unread. */
  ghost predicate ZeroPadding(data: Bytes, at: int, t: Info) {
    forall p :: at + 12 + 4 * |t.dims| + |t.name| <= p < t.start && 0 <= p < |data| ==> data[p] == 0
  }

  lemma HasZeros(data: Bytes, at: nat, n: nat)
    requires at + n <= |data|
    ensures Has(data, at, Zeros(n)) <==> forall p :: at <= p < at + n ==> data[p] == 0
  {
    if forall p :: at <= p < at + n ==> data[p] == 0 {
      assert data[at..at + n] == Zeros(n);
    } else {
      var p :| at <= p < at + n && data[p] != 0;
      assert data[at..at + n][p - at] != Zeros(n)[p - at];
    }
  }

  /** The byte count has not wrapped below zero, nor the offset behind the data. */
  predicate CountMakesSense(t: Info) {
    t.bytes >= 0 && End(t) == t.start + t.bytes
  }

  predicate CountsMakeSense(tensors: seq<Info>) {
    forall k :: 0 <= k < |tensors| ==> CountMakesSense(tensors[k])
  }

  /** The steps of reading a tensor. */
  ghost predicate TensorRead(data: Bytes, at: int, padded: bool, t: Info, nameLength: nat) {
    var behindName := at + 12 + 4 * |t.dims| + nameLength;
    && ReadWords(data, at, 3) == Ok([|t.dims|, nameLength, t.dtype]) && |t.dims| <= 4 && nameLength < 4096
    && ReadWords(data, at + 12, |t.dims|) == Ok(t.dims)
    && t.name == Slice(data, at + 12 + 4 * |t.dims|, nameLength)
    && t.start == behindName + Padding(behindName, padded)
    && QuantSize(t.dtype).Some? && t.bytes == ByteCount(t.dims, QuantSize(t.dtype).value)
  }

  lemma TensorSteps(data: Bytes, at: int, padded: bool, t: Info) returns (nameLength: nat)
    requires TensorAt(data, at, padded) == Ok(t)
    ensures TensorRead(data, at, padded, t, nameLength)
  {
    hide ReadWords, Slice, Padding, ByteCount, QuantSize;
    var words := ReadWords(data, at, 3).value;
    nameLength := words[1];
    assert words == [words[0], words[1], words[2]];
  }

  lemma NotCutShort(data: Bytes, at: nat, n: nat)
    requires at + n <= |data|
    ensures |Slice(data, at, n)| == n
  {
  }

  /** A tensor that ends within the data is what would be written, up to the padding. */
  lemma TensorWasWritten(data: Bytes, at: nat, padded: bool, t: Info)
    requires TensorAt(data, at, padded) == Ok(t) && CountMakesSense(t) && End(t) <= |data|
    ensures var c := Content(data, t);
            GoodTensor(c) && InfoOf(c, at, padded) == t && |WriteTensor(c, at, padded)| == End(t) - at
            && (Has(data, at, WriteTensor(c, at, padded)) <==> ZeroPadding(data, at, t))
  {
    hide PutWords, ReadWords, Padding, ByteCount, QuantSize, WriteTensor, Has, Slice, TensorAt, End;
    var nameLength := TensorSteps(data, at, padded, t);
    var c := Content(data, t);
    assert [|t.dims|, nameLength, t.dtype][2] == t.dtype;
    NotCutShort(data, at + 12 + 4 * |t.dims|, nameLength);
    NotCutShort(data, t.start, t.bytes);
    TensorParts(data, at, c, padded);
    HasWords(data, at, [|c.dims|, |c.name|, c.dtype]);
    HasWords(data, at + 12, c.dims);
    HasSlice(data, at + 12 + 4 * |c.dims|, c.name);
    var behindName := at + 12 + 4 * |c.dims| + |c.name|;
    HasZeros(data, behindName, Padding(behindName, padded));
    HasSlice(data, t.start, c.data);
  }

  function InfosOf(tensors: seq<TensorContent>, at: nat, padded: bool): (r: seq<Info>)
    requires GoodTensors(tensors)
    ensures |r| == |tensors|
    ensures forall k :: 0 <= k < |r| ==> r[k].name == tensors[k].name && r[k].dims == tensors[k].dims
  {
    if tensors == [] then []
    else [InfoOf(tensors[0], at, padded)] + InfosOf(tensors[1..], at + |WriteTensor(tensors[0], at, padded)|, padded)
  }

  lemma {:induction false} HasTensors(data: Bytes, at: nat, tensors: seq<TensorContent>, padded: bool)
    requires GoodTensors(tensors) && Has(data, at, WriteTensors(tensors, at, padded))
    requires at + |WriteTensors(tensors, at, padded)| == |data| < 0x8000_0000_0000_0000
    ensures TensorsAt(data, at, padded) == Ok((InfosOf(tensors, at, padded), |data|))
    ensures Contents(data, InfosOf(tensors, at, padded)) == tensors
    ensures CountsMakeSense(InfosOf(tensors, at, padded))
    decreases |tensors|
  {
    hide WriteTensor, TensorAt, TensorsAt, GoodTensor, Has, InfoOf, Content, Contents, CountMakesSense, End;
    TensorsStep(data, at, padded);
    if tensors == [] {
      assert Contents(data, []) == [];
    } else {
      var t := tensors[0];
      var first := WriteTensor(t, at, padded);
      var rest := WriteTensors(tensors[1..], at + |first|, padded);
      assert WriteTensors(tensors, at, padded) == first + rest;
      HasParts(data, at, first, rest);
      HasTensor(data, at, t, padded);
      TensorTakesSpace(t, at, padded);
      HasTensors(data, at + |first|, tensors[1..], padded);
      ContentsCons(data, InfoOf(t, at, padded), InfosOf(tensors[1..], at + |first|, padded));
      assert tensors == [t] + tensors[1..];
    }
  }

  lemma TensorTakesSpace(t: TensorContent, at: nat, padded: bool)
    requires GoodTensor(t)
    ensures |WriteTensor(t, at, padded)| >= 12
  {
    hide GoodTensor, PutWords, Padding;
  }

  ghost predicate ZeroPaddings(data: Bytes, at: int, tensors: seq<Info>)
    decreases |tensors|
  {
    tensors == [] || (ZeroPadding(data, at, tensors[0]) && ZeroPaddings(data, End(tensors[0]), tensors[1..]))
  }

  lemma {:induction false} TensorsWereWritten(data: Bytes, at: nat, padded: bool)
    requires TensorsAt(data, at, padded).Ok? && CountsMakeSense(TensorsAt(data, at, padded).value.0)
    requires at <= |data| && TensorsAt(data, at, padded).value.1 == |data|
    ensures var c := Contents(data, TensorsAt(data, at, padded).value.0);
            GoodTensors(c) && |WriteTensors(c, at, padded)| == |data| - at
            && (Has(data, at, WriteTensors(c, at, padded)) <==> ZeroPaddings(data, at, TensorsAt(data, at, padded).value.0))
    decreases |TensorsAt(data, at, padded).value.0|
  {
    hide WriteTensor, WriteTensors, TensorAt, TensorsAt, GoodTensor, Has, InfoOf, Content, Contents, ZeroPadding, CountMakesSense;
    TensorsStep(data, at, padded);
    if at < |data| {
      var t := TensorAt(data, at, padded).value;
      FirstAndRest(data, at, padded);
      var infos := TensorsAt(data, End(t), padded).value.0;
      SensibleStep(data, at, padded, t);
      TensorsReachOn(data, End(t), padded);
      TensorWasWritten(data, at, padded, t);
      TensorsWereWritten(data, End(t), padded);
      ContentsCons(data, t, infos);
      WriteCons(data, at, Content(data, t), Contents(data, infos), padded);
    } else {
      assert Contents(data, []) == [];
      WriteNone(data, at, padded);
    }
  }

  /** A scan taken apart: its first tensor, and the scan behind it. */
  lemma FirstAndRest(data: Bytes, at: int, padded: bool)
    requires at < |data| && TensorsAt(data, at, padded).Ok?
    ensures TensorAt(data, at, padded).Ok?
    ensures var (whole, t) := (TensorsAt(data, at, padded).value, TensorAt(data, at, padded).value);
            && TensorsAt(data, End(t), padded).Ok?
            && var rest := TensorsAt(data, End(t), padded).value;
            && whole == ([t] + rest.0, rest.1)
            && whole.0[0] == t && whole.0[1..] == rest.0
            && (CountsMakeSense(whole.0) <==> CountMakesSense(t) && CountsMakeSense(rest.0))
  {
    hide TensorAt, TensorsAt, End, CountMakesSense;
    TensorsStep(data, at, padded);
    var (whole, t) := (TensorsAt(data, at, padded).value.0, TensorAt(data, at, padded).value);
    var rest := TensorsAt(data, End(t), padded).value.0;
    assert forall k :: 0 <= k < |rest| ==> rest[k] == whole[k + 1];
    assert forall k :: 0 < k < |whole| ==> rest[k - 1] == whole[k];
  }

  /** A tensor with a sensible count begins and ends behind its header. */
  lemma SensibleStep(data: Bytes, at: int, padded: bool, t: Info)
    requires TensorAt(data, at, padded) == Ok(t) && CountMakesSense(t)
    ensures at + 12 <= t.start <= End(t)
  {
    hide TensorAt, End;
  }

  lemma ContentsCons(data: Bytes, t: Info, infos: seq<Info>)
    ensures Contents(data, [t] + infos) == [Content(data, t)] + Contents(data, infos)
  {
    hide Content;
  }

  /** Writing one tensor more. */
  lemma WriteCons(data: Bytes, at: nat, t: TensorContent, rest: seq<TensorContent>, padded: bool)
    requires GoodTensor(t) && GoodTensors(rest)
    ensures GoodTensors([t] + rest)
    ensures var next := at + |WriteTensor(t, at, padded)|;
            && |WriteTensors([t] + rest, at, padded)| == |WriteTensor(t, at, padded)| + |WriteTensors(rest, next, padded)|
            && (Has(data, at, WriteTensors([t] + rest, at, padded)) <==>
                  Has(data, at, WriteTensor(t, at, padded)) && Has(data, next, WriteTensors(rest, next, padded)))
  {
    hide WriteTensor, GoodTensor, Has;
    var all := [t] + rest;
    assert all[0] == t && all[1..] == rest;
    var first := WriteTensor(t, at, padded);
    HasParts(data, at, first, WriteTensors(rest, at + |first|, padded));
  }

  lemma WriteNone(data: Bytes, at: nat, padded: bool)
    ensures WriteTensors([], at, padded) == [] && (at <= |data| ==> Has(data, at, []))
  {
  }

  /** A scan with sensible counts does not end before the place where it starts. */
  lemma {:induction false} TensorsReachOn(data: Bytes, at: int, padded: bool)
    requires TensorsAt(data, at, padded).Ok? && CountsMakeSense(TensorsAt(data, at, padded).value.0)
    ensures TensorsAt(data, at, padded).value.1 >= at
    decreases |TensorsAt(data, at, padded).value.0|
  {
    hide TensorAt, TensorsAt, End, CountsMakeSense, CountMakesSense;
    TensorsStep(data, at, padded);
    if at < |data| {
      FirstAndRest(data, at, padded);
      var t := TensorAt(data, at, padded).value;
      SensibleStep(data, at, padded, t);
      TensorsReachOn(data, End(t), padded);
    }
  }

  // ---------------------------------------------------------------- the feed-forward width

  /** A scan that finds a tensor ends at a 64-bit offset, and one that gives a width finds a tensor. */
  lemma {:induction false} EndIn64(data: Bytes, at: int, padded: bool)
    requires TensorsAt(data, at, padded).Ok?
    ensures var (tensors, end) := TensorsAt(data, at, padded).value;
            (tensors != [] || FeedForward(tensors).Ok?) ==> end < 0x8000_0000_0000_0000
    decreases |TensorsAt(data, at, padded).value.0|
  {
    hide TensorAt, TensorsAt, CountsMakeSense;
    TensorsStep(data, at, padded);
    if at < |data| {
      FirstAndRest(data, at, padded);
      var next := End(TensorAt(data, at, padded).value);
      TensorsStep(data, next, padded);
      EndIn64(data, next, padded);
    }
  }

  lemma FeedForwardFound(tensors: seq<Info>, contents: seq<TensorContent>)
    requires |tensors| == |contents|
    requires forall k :: 0 <= k < |tensors| ==> tensors[k].name == contents[k].name && tensors[k].dims == contents[k].dims
    ensures FeedForward(tensors).Ok? <==> HasFeedForward(contents)
  {
    hide TensorMap;
    TensorMapIsLast(tensors, FEED_FORWARD);
    if HasFeedForward(contents) {
      var k :| IsWidthTensor(contents, k);
      WidthOf(tensors, contents, k);
    }
    if FeedForward(tensors).Ok? {
      assert IsWidthTensor(contents, TensorMap(tensors)[FEED_FORWARD]);
    }
  }

  /** The width is the second dimension of the last tensor of its name. */
  lemma WidthOf(tensors: seq<Info>, contents: seq<TensorContent>, k: int)
    requires |tensors| == |contents| && IsWidthTensor(contents, k)
    requires forall i :: 0 <= i < |tensors| ==> tensors[i].name == contents[i].name && tensors[i].dims == contents[i].dims
    ensures FeedForward(tensors) == Ok(contents[k].dims[1])
  {
    hide TensorMap;
    TensorMapIsLast(tensors, FEED_FORWARD);
    assert tensors[k].name == FEED_FORWARD;
    var found := TensorMap(tensors)[FEED_FORWARD];
    assert contents[found].name == FEED_FORWARD;
  }

  // ---------------------------------------------------------------- whole files

  /**
    Loading inverts writing: every well-formed file of the three formats is read back, with its
    header, hyperparameters, vocabulary, and every tensor's name, shape, type and data.
   */
  lemma LoadOfWritten(f: File)
    requires GoodFile(f)
    ensures var r := LoadAt(Write(f), 0);
            r.Ok? && r.value.end == |Write(f)| && FileOf(Write(f), r.value) == f && CountsMakeSense(r.value.tensors)
    ensures forall k :: IsWidthTensor(f.tensors, k) ==> LoadAt(Write(f), 0).value.nFf == f.tensors[k].dims[1]
  {
    hide CountsMakeSense, WriteHeader, HeaderAt, HyperAt, PutWords, WriteItems, ItemsAt;
    hide WriteTensors, TensorsAt, FeedForward, HasFeedForward, Contents, Has;
    var data := Write(f);
    var scores, padded := HasScores(f.header.format), f.header.format.GGJT?;
    var header, hyper, items := WriteHeader(f.header), PutWords(HyperWords(f.hyper)), WriteItems(f.items, scores);
    var prelude := WritePrelude(f);
    var tensors := WriteTensors(f.tensors, |prelude|, padded);
    HasAll(data);
    HasParts(data, 0, prelude, tensors);
    HasParts(data, 0, header, hyper + items);
    HasParts(data, |header|, hyper, items);
    HasHeader(data, 0, f.header);
    HasHyper(data, |header|, f.hyper);
    HasItems(data, |header| + 28, f.items, scores);
    HasTensors(data, |prelude|, f.tensors, padded);
    var infos := InfosOf(f.tensors, |prelude|, padded);
    FeedForwardFound(infos, f.tensors);
    forall k | IsWidthTensor(f.tensors, k)
      ensures FeedForward(infos) == Ok(f.tensors[k].dims[1])
    {
      WidthOf(infos, f.tensors, k);
    }
  }

  lemma HasAll(data: Bytes)
    ensures Has(data, 0, data)
  {
    assert data[0..|data|] == data;
  }

  /** Where the tensors of a loaded file begin. */
  function TensorStart(data: Bytes): (at: nat)
    requires LoadAt(data, 0).Ok?
  {
    var format := HeaderAt(data, 0).value.format;
    var hyper := HyperAt(data, HeaderSize(format)).value;
    ItemsAt(data, HeaderSize(format) + 28, hyper.nVocab, HasScores(format)).value.1
  }

  /** What the steps of a successful load have found. */
  ghost predicate Found(data: Bytes, m: Loaded, first: nat) {
    var at := HeaderSize(m.header.format);
    && HeaderAt(data, 0) == Ok(m.header)
    && HyperAt(data, at) == Ok(m.hyper) && Eligible(m.header, m.hyper.ftype)
    && ItemsAt(data, at + 28, m.hyper.nVocab, HasScores(m.header.format)) == Ok((m.items, first))
    && TensorsAt(data, first, m.header.format.GGJT?) == Ok((m.tensors, m.end))
    && FeedForward(m.tensors) == Ok(m.nFf)
  }

  lemma LoadParts(data: Bytes)
    requires LoadAt(data, 0).Ok?
    ensures Found(data, LoadAt(data, 0).value, TensorStart(data))
  {
    hide HeaderAt, HyperAt, ItemsAt, TensorsAt, FeedForward, Eligible;
  }

  lemma LoadFromParts(data: Bytes, m: Loaded, first: nat)
    requires Found(data, m, first)
    ensures LoadAt(data, 0) == Ok(m)
  {
    hide HeaderAt, HyperAt, ItemsAt, TensorsAt, FeedForward, Eligible;
  }

  /**
    Writing inverts loading: a file that was loaded, whose last tensor ends with the file and
    whose byte counts did not wrap below zero, is a well-formed file, and writing that file gives
    the very same bytes exactly when the padding in front of the tensors is zero. A GGML or GGMF
    file has no padding, so there loading loses nothing.
   */
  lemma WrittenOfLoad(data: Bytes)
    requires LoadAt(data, 0).Ok?
    requires LoadAt(data, 0).value.end == |data| && CountsMakeSense(LoadAt(data, 0).value.tensors)
    ensures var m := LoadAt(data, 0).value;
            && GoodFile(FileOf(data, m))
            && (Write(FileOf(data, m)) == data <==> ZeroPaddings(data, TensorStart(data), m.tensors))
  {
    hide LoadAt, TensorStart, Found, Write, GoodFile, ZeroPaddings, CountsMakeSense;
    LoadParts(data);
    WrittenOfFound(data, LoadAt(data, 0).value, TensorStart(data));
  }

  /** A loaded file is the file written from what was loaded exactly under those conditions. */
  lemma RewrittenIff(data: Bytes)
    requires LoadAt(data, 0).Ok?
    ensures var m := LoadAt(data, 0).value;
            (GoodFile(FileOf(data, m)) && Write(FileOf(data, m)) == data)
            <==> m.end == |data| && CountsMakeSense(m.tensors) && ZeroPaddings(data, TensorStart(data), m.tensors)
  {
    hide LoadAt, TensorStart, Write, ZeroPaddings, CountsMakeSense;
    var m := LoadAt(data, 0).value;
    if m.end == |data| && CountsMakeSense(m.tensors) {
      WrittenOfLoad(data);
    }
    if GoodFile(FileOf(data, m)) && Write(FileOf(data, m)) == data {
      LoadOfWritten(FileOf(data, m));
    }
  }

  lemma WrittenOfFound(data: Bytes, m: Loaded, start: nat)
    requires Found(data, m, start) && m.end == |data| && CountsMakeSense(m.tensors)
    ensures GoodFile(FileOf(data, m))
    ensures Write(FileOf(data, m)) == data <==> ZeroPaddings(data, start, m.tensors)
  {
    hide WriteHeader, HeaderAt, HyperAt, PutWords, WriteItems, ItemsAt;
    hide WriteTensors, TensorsAt, FeedForward, HasFeedForward, Has, ZeroPaddings;
    var f := FileOf(data, m);
    var scores, padded := HasScores(m.header.format), m.header.format.GGJT?;
    var at := HeaderSize(m.header.format);
    HeaderIsGood(data, 0);
    HyperIsGood(data, at);
    TensorsReachOn(data, start, padded);
    EndIn64(data, start, padded);
    ItemsGrow(data, at + 28, m.hyper.nVocab, scores);
    ItemsWereWritten(data, at + 28, m.hyper.nVocab, scores);
    TensorsWereWritten(data, start, padded);
    FeedForwardFound(m.tensors, f.tensors);
    HasHeader(data, 0, m.header);
    HasHyper(data, at, m.hyper);
    var header, hyper, items := WriteHeader(f.header), PutWords(HyperWords(f.hyper)), WriteItems(f.items, scores);
    HasParts(data, at, hyper, items);
    HasParts(data, 0, header, hyper + items);
    HasParts(data, 0, WritePrelude(f), WriteTensors(f.tensors, start, padded));
    WholeIsAll(data, Write(f));
  }

  lemma WholeIsAll(data: Bytes, s: Bytes)
    requires |s| == |data|
    ensures Has(data, 0, s) <==> s == data
  {
    assert data[0..|data|] == data;
  }
}
