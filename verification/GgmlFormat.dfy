/**
  The legacy GGML, GGMF and GGJT files, read from an offset on. Every reader is a function of the
  bytes and the offset. Integers are little-endian and unsigned; reading one past the end of the
  data is an error, but a text or a tensor's data may be cut short by the end without one.
  Offsets behind tensors are 64-bit and may become negative; a slice then counts from the end.
 */
module GgmlFormat {
  import opened Wrappers

  type Byte = x: int | 0 <= x < 256
  type Bytes = seq<Byte>

  datatype Format = GGML | GGMF | GGJT

  datatype LoadError =
    | ShortRead
    | AlreadyGguf
    | BadVersion
    | UnknownMagic
    | InvalidFtype
    | NotEligible
    | AbsurdItemLength
    | InvalidDimensions
    | AbsurdNameLength
    | UnknownTensorType
    | MissingFeedForward
    | FeedForwardShape
    | Endless // no error of the loader: its scan never ends

  datatype Header = Header(format: Format, version: nat)

  datatype Hyper = Hyper(nVocab: nat, nEmbd: nat, nMult: nat, nHead: nat, nLayer: nat, nRot: nat, ftype: nat)

  /** A vocabulary item: its text and the four bytes of its score. */
  datatype Item = Item(text: Bytes, score: Bytes)

  /** What the loader remembers of a tensor. */
  datatype Info = Info(name: Bytes, dims: seq<nat>, dtype: nat, start: int, bytes: int)

  datatype Loaded = Loaded(header: Header, hyper: Hyper, items: seq<Item>, tensors: seq<Info>, nFf: nat, end: int)

  // ---------------------------------------------------------------- words

  function Word(b0: Byte, b1: Byte, b2: Byte, b3: Byte): (v: nat)
    ensures v < 0x1_0000_0000
  {
    b0 + 0x100 * b1 + 0x1_0000 * b2 + 0x100_0000 * b3
  }

  /** A slice bound: negative ones count from the end, and all are cut to the data. */
  function Bound(x: int, n: nat): (r: nat)
    ensures r <= n && (0 <= x <= n ==> r == x)
  {
    if x < 0 then (if x + n < 0 then 0 else x + n) else if x > n then n else x
  }

  /** The n bytes at an offset lie in the data, counted from its start or from its end. */
  predicate Inside(data: Bytes, at: int, n: nat) {
    (0 <= at && at + n <= |data|) || (-|data| <= at && at + n < 0)
  }

  /** data[at:at + n], which the ends of the data may cut short. */
  function Slice(data: Bytes, at: int, n: nat): (s: Bytes)
    ensures |s| <= n && (|s| == n <==> n == 0 || Inside(data, at, n))
    ensures 0 <= at && at + n <= |data| ==> s == data[at..at + n]
  {
    var lo, hi := Bound(at, |data|), Bound(at + n, |data|);
    if lo < hi then data[lo..hi] else []
  }

  function WordsOf(bytes: Bytes): (w: seq<nat>)
    requires |bytes| % 4 == 0
    ensures |w| == |bytes| / 4 && forall i :: 0 <= i < |w| ==> w[i] < 0x1_0000_0000
  {
    if bytes == [] then [] else [Word(bytes[0], bytes[1], bytes[2], bytes[3])] + WordsOf(bytes[4..])
  }

  /** n consecutive words. */
  function ReadWords(data: Bytes, at: int, n: nat): (r: Result<seq<nat>, LoadError>)
    ensures r.Ok? <==> n == 0 || Inside(data, at, 4 * n)
    ensures r.Ok? ==> |r.value| == n && forall i :: 0 <= i < n ==> r.value[i] < 0x1_0000_0000
    ensures r.Err? ==> r.error == ShortRead
  {
    var bytes := Slice(data, at, 4 * n);
    if |bytes| == 4 * n then Ok(WordsOf(bytes)) else Err(ShortRead)
  }

  function ReadWord(data: Bytes, at: int): (r: Result<nat, LoadError>)
    ensures r.Ok? <==> Inside(data, at, 4)
    ensures r.Ok? ==> r.value < 0x1_0000_0000
    ensures r.Err? ==> r.error == ShortRead
  {
    var w :- ReadWords(data, at, 1);
    Ok(w[0])
  }

  // ---------------------------------------------------------------- header and hyperparameters

  const GGUF_MAGIC: Bytes := [0x47, 0x47, 0x55, 0x46]
  const GGML_MAGIC: Bytes := [0x6c, 0x6d, 0x67, 0x67]
  const GGMF_MAGIC: Bytes := [0x66, 0x6d, 0x67, 0x67]
  const GGJT_MAGIC: Bytes := [0x74, 0x6a, 0x67, 0x67]

  function HeaderSize(format: Format): nat {
    if format.GGML? then 4 else 8
  }

  function HeaderAt(data: Bytes, at: nat): Result<Header, LoadError> {
    var magic := Slice(data, at, 4);
    if magic == GGUF_MAGIC then Err(AlreadyGguf)
    else if magic == GGML_MAGIC then Ok(Header(GGML, 1))
    else
      var version :- ReadWord(data, at + 4);
      if magic == GGMF_MAGIC then (if version != 1 then Err(BadVersion) else Ok(Header(GGMF, version)))
      else if magic == GGJT_MAGIC then (if version < 1 || version > 3 then Err(BadVersion) else Ok(Header(GGJT, version)))
      else Err(UnknownMagic)
  }

  predicate KnownFtype(ftype: nat) {
    ftype <= 4 || 7 <= ftype <= 18
  }

  function HyperAt(data: Bytes, at: nat): Result<Hyper, LoadError> {
    var w :- ReadWords(data, at, 7);
    if KnownFtype(w[6]) then Ok(Hyper(w[0], w[1], w[2], w[3], w[4], w[5], w[6])) else Err(InvalidFtype)
  }

  /** Quantised files are convertible only in late versions. */
  predicate Eligible(header: Header, ftype: nat) {
    if !header.format.GGJT? || header.version < 2 then ftype <= 1
    else header.version == 2 ==> ftype !in {2, 3, 4, 7}
  }

  // ---------------------------------------------------------------- vocabulary

  const NO_SCORE: Bytes := [0, 0, 0, 0]

  predicate HasScores(format: Format) {
    !format.GGML?
  }

  /** One item and the offset behind it. */
  function ItemAt(data: Bytes, at: nat, scores: bool): (r: Result<(Item, nat), LoadError>)
    ensures r.Ok? ==> r.value.1 >= at + 4
  {
    var length :- ReadWord(data, at);
    if length >= 4096 then Err(AbsurdItemLength)
    else
      var text := Slice(data, at + 4, length);
      if !scores then Ok((Item(text, NO_SCORE), at + 4 + length))
      else if at + 4 + length + 4 > |data| then Err(ShortRead)
      else Ok((Item(text, data[at + 4 + length..at + 4 + length + 4]), at + 4 + length + 4))
  }

  function ItemsAt(data: Bytes, at: nat, n: nat, scores: bool): (r: Result<(seq<Item>, nat), LoadError>)
    ensures r.Ok? ==> |r.value.0| == n
    decreases n
  {
    if n == 0 then Ok(([], at))
    else
      var first :- ItemAt(data, at, scores);
      var rest :- ItemsAt(data, first.1, n - 1, scores);
      Ok(([first.0] + rest.0, rest.1))
  }

  // ---------------------------------------------------------------- tensors

  /** Block size and bytes per block of a tensor type. */
  function QuantSize(dtype: nat): (r: Option<(nat, nat)>)
    ensures r.Some? ==> 1 <= r.value.0 <= 256 && 1 <= r.value.1 <= 292
  {
    match dtype
    case 0 => Some((1, 4))
    case 1 => Some((1, 2))
    case 2 => Some((32, 18))
    case 3 => Some((32, 20))
    case 6 => Some((32, 22))
    case 7 => Some((32, 24))
    case 8 => Some((32, 34))
    case 9 => Some((32, 40))
    case 10 => Some((256, 84))
    case 11 => Some((256, 110))
    case 12 => Some((256, 144))
    case 13 => Some((256, 176))
    case 14 => Some((256, 210))
    case 15 => Some((256, 292))
    case 16 => Some((256, 66))
    case 17 => Some((256, 74))
    case 18 => Some((256, 98))
    case 19 => Some((256, 50))
    case 20 => Some((32, 18))
    case 21 => Some((256, 110))
    case 22 => Some((256, 82))
    case 23 => Some((256, 136))
    case 24 => Some((1, 1))
    case 25 => Some((1, 2))
    case 26 => Some((1, 4))
    case 27 => Some((1, 8))
    case 28 => Some((1, 8))
    case 29 => Some((256, 56))
    case 30 => Some((1, 2))
    case 34 => Some((256, 54))
    case 35 => Some((256, 66))
    case 39 => Some((32, 17))
    case _ => None
  }

  /** Two's complement arithmetic on 64 bits. */
  function Wrap64(x: int): (w: int)
    ensures -0x8000_0000_0000_0000 <= w < 0x8000_0000_0000_0000
  {
    (x + 0x8000_0000_0000_0000) % 0x1_0000_0000_0000_0000 - 0x8000_0000_0000_0000
  }

  function Product(dims: seq<nat>): nat {
    if dims == [] then 1 else dims[0] * Product(dims[1..])
  }

  /** The number of bytes of the data, as the loader computes it. */
  function ByteCount(dims: seq<nat>, size: (nat, nat)): int
    requires size.0 > 0
  {
    Wrap64(Wrap64(Product(dims)) * size.1) / size.0
  }

  /** The padding up to a multiple of 32, in the one format that has it. */
  function Padding(at: int, padded: bool): (p: nat)
    ensures p < 32 && (padded ==> (at + p) % 32 == 0) && (!padded ==> p == 0)
  {
    if padded then (32 - at % 32) % 32 else 0
  }

  /** The offset behind a tensor, in 64-bit arithmetic. */
  function End(t: Info): (e: int)
    ensures -0x8000_0000_0000_0000 <= e < 0x8000_0000_0000_0000
  {
    Wrap64(t.start + t.bytes)
  }

  function TensorAt(data: Bytes, at: int, padded: bool): (r: Result<Info, LoadError>)
    ensures r.Ok? ==> Inside(data, at, 12) && QuantSize(r.value.dtype).Some?
    ensures r.Ok? ==> r.value.start >= at + 12 + 4 * |r.value.dims| + |r.value.name|
    ensures r.Ok? ==> (padded ==> r.value.start % 32 == 0)
    ensures r.Err? ==> r.error != Endless
  {
    var words :- ReadWords(data, at, 3);
    var (nDims, nameLength, dtype) := (words[0], words[1], words[2]);
    if nDims > 4 then Err(InvalidDimensions)
    else if nameLength >= 4096 then Err(AbsurdNameLength)
    else
      match QuantSize(dtype)
      case None => Err(UnknownTensorType)
      case Some(size) =>
        var dims :- ReadWords(data, at + 12, nDims);
        var behindName := at + 12 + 4 * nDims + nameLength;
        var name := Slice(data, at + 12 + 4 * nDims, nameLength);
        Ok(Info(name, dims, dtype, behindName + Padding(behindName, padded), ByteCount(dims, size)))
  }

  /**
    The scan over the tensors: each is read at the offset behind the one before it, wherever that
    is, until the offset is not below the end of the data. None if it is not over after n tensors.
   */
  function Scan(data: Bytes, at: int, padded: bool, n: nat): (r: Option<Result<(seq<Info>, int), LoadError>>)
    ensures r.Some? && r.value.Err? ==> r.value.error != Endless
    decreases n
  {
    if at >= |data| then Some(Ok(([], at)))
    else if n == 0 then None
    else
      match TensorAt(data, at, padded)
      case Err(e) => Some(Err(e))
      case Ok(t) =>
        match Scan(data, End(t), padded, n - 1)
        case None => None
        case Some(Err(e)) => Some(Err(e))
        case Some(Ok(v)) => Some(Ok(([t] + v.0, v.1)))
  }

  /**
    The outcome of the scan. A scan that ends does so within twice as many tensors as there are
    bytes (GgmlScan proves it), so the others are the endless ones.
   */
  function TensorsAt(data: Bytes, at: int, padded: bool): (r: Result<(seq<Info>, int), LoadError>) {
    match Scan(data, at, padded, 2 * |data| + 1)
    case None => Err(Endless)
    case Some(v) => v
  }

  /** Where each name was last used. */
  function TensorMap(tensors: seq<Info>): map<Bytes, nat> {
    if tensors == [] then map[]
    else
      var n := |tensors| - 1;
      TensorMap(tensors[..n])[tensors[n].name := n]
  }

  const LAYER_ZERO: Bytes := [0x6c, 0x61, 0x79, 0x65, 0x72, 0x73, 0x2e, 0x30]
  const FEED: Bytes := [0x2e, 0x66, 0x65, 0x65, 0x64, 0x5f]
  const FORWARD: Bytes := [0x66, 0x6f, 0x72, 0x77, 0x61, 0x72, 0x64]
  const FIRST_WEIGHT: Bytes := [0x2e, 0x77, 0x31, 0x2e, 0x77, 0x65, 0x69, 0x67, 0x68, 0x74]

  // layers.0.feed_forward.w1.weight
  const FEED_FORWARD: Bytes := LAYER_ZERO + FEED + FORWARD + FIRST_WEIGHT

  /** Every name leads to the last tensor that has it. */
  lemma {:induction false} TensorMapIsLast(tensors: seq<Info>, name: Bytes)
    ensures name in TensorMap(tensors) <==> exists k :: 0 <= k < |tensors| && tensors[k].name == name
    ensures name in TensorMap(tensors) ==>
              var k := TensorMap(tensors)[name];
              k < |tensors| && tensors[k].name == name && forall j :: k < j < |tensors| ==> tensors[j].name != name
  {
    if tensors != [] {
      var n := |tensors| - 1;
      TensorMapIsLast(tensors[..n], name);
      assert forall k :: 0 <= k < n ==> tensors[..n][k] == tensors[k];
    }
  }

  function FeedForward(tensors: seq<Info>): (r: Result<nat, LoadError>)
    ensures r.Err? ==> r.error == MissingFeedForward || r.error == FeedForwardShape
  {
    TensorMapIsLast(tensors, FEED_FORWARD);
    var index := TensorMap(tensors);
    if FEED_FORWARD !in index then Err(MissingFeedForward)
    else
      var dims := tensors[index[FEED_FORWARD]].dims;
      if |dims| < 2 then Err(FeedForwardShape) else Ok(dims[1])
  }

  // ---------------------------------------------------------------- the whole file

  function LoadAt(data: Bytes, at: nat): Result<Loaded, LoadError> {
    var header :- HeaderAt(data, at);
    var hyperAt := at + HeaderSize(header.format);
    var hyper :- HyperAt(data, hyperAt);
    if !Eligible(header, hyper.ftype) then Err(NotEligible)
    else
      var vocab :- ItemsAt(data, hyperAt + 28, hyper.nVocab, HasScores(header.format));
      var tensors :- TensorsAt(data, vocab.1, header.format.GGJT?);
      var nFf :- FeedForward(tensors.0);
      Ok(Loaded(header, hyper, vocab.0, tensors.0, nFf, tensors.1))
  }
}
