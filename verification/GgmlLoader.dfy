/** The loader's objects: they advance an offset through the data and keep what they read. */
module GgmlLoader {
  import opened Wrappers
  import opened GgmlFormat
  import opened GgmlScan

  class Hyperparameters {
    var nVocab: nat
    var nEmbd: nat
    var nMult: nat
    var nHead: nat
    var nLayer: nat
    var nRot: nat
    var nFf: nat
    var ftype: nat

    constructor ()
      ensures nFf == 0
    {
      nVocab, nEmbd, nMult, nHead, nLayer, nRot, nFf, ftype := 0, 0, 0, 0, 0, 0, 0, 0;
    }

    function Value(): Hyper
      reads this
    {
      Hyper(nVocab, nEmbd, nMult, nHead, nLayer, nRot, ftype)
    }

    method Load(data: Bytes, offset: nat) returns (r: Result<nat, LoadError>)
      modifies this
      ensures nFf == old(nFf)
      ensures match HyperAt(data, offset)
              case Ok(hyper) => r == Ok(28) && Value() == hyper
              case Err(e) => r == Err(e)
    {
      var w :- ReadWords(data, offset, 7);
      nVocab, nEmbd, nMult, nHead, nLayer, nRot := w[0], w[1], w[2], w[3], w[4], w[5];
      if !KnownFtype(w[6]) {
        return Err(InvalidFtype);
      }
      ftype := w[6];
      return Ok(28);
    }

    /** The feed-forward width is the second dimension of the last tensor with the well-known name. */
    method SetNFf(tensors: seq<Tensor>, tensorMap: map<Bytes, nat>, ghost infos: seq<Info>)
      returns (r: Result<(), LoadError>)
      requires Represent(tensors, infos) && tensorMap == TensorMap(infos)
      modifies this
      ensures Value() == old(Value())
      ensures match FeedForward(infos)
              case Ok(n) => r == Ok(()) && nFf == n
              case Err(e) => r == Err(e)
    {
      hide TensorMap;
      TensorMapIsLast(infos, FEED_FORWARD);
      if FEED_FORWARD !in tensorMap {
        return Err(MissingFeedForward);
      }
      var tensor := tensors[tensorMap[FEED_FORWARD]];
      assert tensor.Value() == infos[tensorMap[FEED_FORWARD]];
      if |tensor.dims| < 2 {
        return Err(FeedForwardShape);
      }
      nFf := tensor.dims[1];
      return Ok(());
    }
  }

  class Vocab {
    var items: seq<Item>
    var loadScores: bool

    constructor (loadScores: bool)
      ensures items == [] && this.loadScores == loadScores
    {
      items, this.loadScores := [], loadScores;
    }

    method Load(data: Bytes, offset: nat, nVocab: nat) returns (r: Result<nat, LoadError>)
      modifies this`items
      ensures match ItemsAt(data, offset, nVocab, loadScores)
              case Ok(v) => r == Ok(v.1 - offset) && items == old(items) + v.0
              case Err(e) => r == Err(e)
    {
      hide ItemsAt, ItemsBefore, Word;
      var now := offset;
      ghost var read: seq<Item> := [];
      ghost var whole := ItemsAt(data, offset, nVocab, loadScores);
      NothingRead(whole);
      for k := 0 to nVocab
        invariant now >= offset && items == old(items) + read
        invariant whole == ItemsBefore(read, ItemsAt(data, now, nVocab - k, loadScores))
      {
        OneMoreItem(data, now, nVocab - k, loadScores, read);
        var length :- ReadWord(data, now);
        if length >= 4096 {
          return Err(AbsurdItemLength);
        }
        now := now + 4;
        var text := Slice(data, now, length);
        now := now + length;
        var score := NO_SCORE;
        if loadScores {
          if now + 4 > |data| {
            return Err(ShortRead);
          }
          score := data[now..now + 4];
          now := now + 4;
        }
        items := items + [Item(text, score)];
        read := read + [Item(text, score)];
      }
      NoItemsLeft(data, now, loadScores, read);
      return Ok(now - offset);
    }
  }

  /** The result of reading on, with the items read before it. */
  ghost function ItemsBefore(read: seq<Item>, rest: Result<(seq<Item>, nat), LoadError>)
    : Result<(seq<Item>, nat), LoadError>
  {
    match rest
    case Ok(v) => Ok((read + v.0, v.1))
    case Err(e) => Err(e)
  }

  lemma NothingRead(whole: Result<(seq<Item>, nat), LoadError>)
    ensures whole == ItemsBefore([], whole)
  {
    assert whole.Ok? ==> [] + whole.value.0 == whole.value.0;
  }

  lemma NoItemsLeft(data: Bytes, now: nat, scores: bool, read: seq<Item>)
    ensures ItemsBefore(read, ItemsAt(data, now, 0, scores)) == Ok((read, now))
  {
    assert read + [] == read;
  }

  /** Reading one item, in terms of the whole result. */
  lemma OneMoreItem(data: Bytes, now: nat, n: nat, scores: bool, read: seq<Item>)
    requires n > 0
    ensures ItemsBefore(read, ItemsAt(data, now, n, scores))
            == match ItemAt(data, now, scores)
               case Err(e) => Err(e)
               case Ok(v) => ItemsBefore(read + [v.0], ItemsAt(data, v.1, n - 1, scores))
  {
    hide ItemAt;
    var first := ItemAt(data, now, scores);
    if first.Ok? {
      var rest := ItemsAt(data, first.value.1, n - 1, scores);
      assert rest.Ok? ==> read + ([first.value.0] + rest.value.0) == (read + [first.value.0]) + rest.value.0;
    }
  }

  class Tensor {
    var name: Bytes
    var dims: seq<nat>
    var dtype: nat
    var startOffset: int
    var lenBytes: int
    const usePadding: bool

    constructor (usePadding: bool)
      ensures this.usePadding == usePadding
    {
      name, dims, dtype, startOffset, lenBytes := [], [], 0, 0, 0;
      this.usePadding := usePadding;
    }

    function Value(): Info
      reads this
    {
      Info(name, dims, dtype, startOffset, lenBytes)
    }

    /** Fills the fields from the header at the offset; the result is how far the 64-bit offset moves. */
    method Load(data: Bytes, offset: int) returns (r: Result<int, LoadError>)
      modifies this
      ensures match TensorAt(data, offset, usePadding)
              case Ok(info) => r == Ok(Wrap64(End(info) - offset)) && Value() == info
              case Err(e) => r == Err(e)
    {
      hide ReadWords, Slice, ByteCount, Wrap64, QuantSize, Padding;
      var now := offset;
      var words :- ReadWords(data, offset, 3);
      var nDims, nameLength := words[0], words[1];
      if nDims > 4 {
        return Err(InvalidDimensions);
      }
      if nameLength >= 4096 {
        return Err(AbsurdNameLength);
      }
      var quant := QuantSize(words[2]);
      if quant.None? {
        return Err(UnknownTensorType);
      }
      now := now + 12;
      dtype := words[2];
      dims :- ReadWords(data, now, nDims);
      now := now + 4 * nDims;
      name := Slice(data, now, nameLength);
      now := now + nameLength;
      now := now + Padding(now, usePadding);
      var nBytes := ByteCount(dims, quant.value);
      startOffset := now;
      lenBytes := nBytes;
      now := Wrap64(now + nBytes);
      return Ok(Wrap64(now - offset));
    }
  }

  /** What a list of tensor objects holds. */
  ghost predicate Represent(tensors: seq<Tensor>, infos: seq<Info>)
    reads tensors
  {
    |tensors| == |infos| && forall k :: 0 <= k < |tensors| ==> tensors[k].Value() == infos[k]
  }

  class GgmlModel {
    var fileFormat: Format
    var formatVersion: nat
    var hyperparameters: Hyperparameters?
    var vocab: Vocab?
    var tensorMap: map<Bytes, nat>
    var tensors: seq<Tensor>

    constructor ()
      ensures hyperparameters == null && vocab == null && tensorMap == map[] && tensors == []
    {
      fileFormat, formatVersion := GGML, 0;
      hyperparameters, vocab, tensorMap, tensors := null, null, map[], [];
    }

    method ValidateHeader(data: Bytes, offset: nat) returns (r: Result<nat, LoadError>)
      modifies this`fileFormat, this`formatVersion
      ensures match HeaderAt(data, offset)
              case Ok(header) => r == Ok(HeaderSize(header.format)) && Header(fileFormat, formatVersion) == header
              case Err(e) => r == Err(e) && fileFormat == old(fileFormat) && formatVersion == old(formatVersion)
    {
      var magic := Slice(data, offset, 4);
      if magic == GGUF_MAGIC {
        return Err(AlreadyGguf);
      }
      if magic == GGML_MAGIC {
        fileFormat, formatVersion := GGML, 1;
        return Ok(4);
      }
      var version :- ReadWord(data, offset + 4);
      if magic == GGMF_MAGIC {
        if version != 1 {
          return Err(BadVersion);
        }
        fileFormat, formatVersion := GGMF, version;
        return Ok(8);
      }
      if magic == GGJT_MAGIC {
        if version < 1 || version > 3 {
          return Err(BadVersion);
        }
        fileFormat, formatVersion := GGJT, version;
        return Ok(8);
      }
      return Err(UnknownMagic);
    }

    /** What has been loaded, once loading has succeeded. */
    ghost predicate Holds(m: Loaded)
      reads this, hyperparameters, vocab, tensors
    {
      && Header(fileFormat, formatVersion) == m.header
      && hyperparameters != null && hyperparameters.Value() == m.hyper && hyperparameters.nFf == m.nFf
      && vocab != null && vocab.items == m.items
      && Represent(tensors, m.tensors) && tensorMap == TensorMap(m.tensors)
    }

    /** Loads the file, unless its scan never ends. */
    method Load(data: Bytes, start: nat) returns (r: Result<int, LoadError>)
      requires LoadAt(data, start) != Err(Endless)
      modifies this
      ensures match LoadAt(data, start)
              case Ok(m) => r == Ok(m.end) && Holds(m)
              case Err(e) => r == Err(e)
    {
      hide HeaderAt, HyperAt, ItemsAt, TensorsAt, FeedForward, TensorMap, Represent, Eligible, HasScores, ReadWords, Scan, End, Wrap64, Slice;
      var offset := start;
      var headerSize :- ValidateHeader(data, offset);
      offset := offset + headerSize;
      var hp := new Hyperparameters();
      var hyperSize :- hp.Load(data, offset);
      offset := offset + hyperSize;
      if !Eligible(Header(fileFormat, formatVersion), hp.ftype) {
        return Err(NotEligible);
      }
      var newVocab := new Vocab(HasScores(fileFormat));
      var vocabSize :- newVocab.Load(data, offset, hp.nVocab);
      offset := offset + vocabSize;
      ghost var infos: seq<Info>;
      var scanned;
      scanned, tensors, tensorMap, infos := LoadTensors(data, offset, fileFormat.GGJT?);
      if scanned.Err? {
        return Err(scanned.error);
      }
      hyperparameters := hp;
      vocab := newVocab;
      var width := hp.SetNFf(tensors, tensorMap, infos);
      if width.Err? {
        return Err(width.error);
      }
      return scanned;
    }
  }

  /** The scan: tensor after tensor until the offset is not below the end of the data, and the index of their names. */
  method LoadTensors(data: Bytes, start: int, padded: bool)
    returns (r: Result<int, LoadError>, tensors: seq<Tensor>, tensorMap: map<Bytes, nat>, ghost found: seq<Info>)
    requires TensorsAt(data, start, padded) != Err(Endless)
    ensures fresh(tensors)
    ensures Represent(tensors, found) && tensorMap == TensorMap(found)
    ensures match TensorsAt(data, start, padded)
            case Ok(v) => r == Ok(v.1) && found == v.0
            case Err(e) => r == Err(e)
  {
    hide TensorAt, Scan, TensorMap, End, Wrap64;
    tensors, tensorMap, found := [], map[], [];
    var offset := start;
    ghost var left: nat := 2 * |data| + 1;
    ghost var whole := TensorsAt(data, start, padded);
    NothingFound(whole);
    while offset < |data|
      invariant fresh(tensors)
      invariant Represent(tensors, found) && tensorMap == TensorMap(found)
      invariant Scan(data, offset, padded, left).Some? && whole == Before(found, Scan(data, offset, padded, left).value)
      decreases left
    {
      var tensor := new Tensor(padded);
      var advance := tensor.Load(data, offset);
      FoundOneMore(data, offset, padded, left, found);
      if advance.Err? {
        r := advance;
        return;
      }
      WrapBack(offset, tensor.Value());
      offset := Wrap64(offset + advance.value);
      tensorMap := tensorMap[tensor.name := |tensors|];
      tensors := tensors + [tensor];
      found := found + [tensor.Value()];
      left := left - 1;
    }
    NoneLeft(data, offset, padded, left, found);
    r := Ok(offset);
  }

  /** Adding a difference back in 64-bit arithmetic. */
  lemma WrapBack(offset: int, t: Info)
    ensures Wrap64(offset + Wrap64(End(t) - offset)) == End(t)
  {
  }

  lemma NothingFound(whole: Result<(seq<Info>, int), LoadError>)
    ensures whole == Before([], whole) && TensorMap([]) == map[]
  {
    assert whole.Ok? ==> [] + whole.value.0 == whole.value.0;
  }

  lemma NoneLeft(data: Bytes, offset: int, padded: bool, left: nat, found: seq<Info>)
    requires offset >= |data|
    ensures Scan(data, offset, padded, left).Some?
    ensures Before(found, Scan(data, offset, padded, left).value) == Ok((found, offset))
  {
    assert found + [] == found;
  }

  /** How reading one tensor at the offset determines the whole outcome. */
  ghost predicate Turn(found: seq<Info>, read: Result<Info, LoadError>, whole: Result<(seq<Info>, int), LoadError>,
                       data: Bytes, padded: bool, left: nat) {
    match read
    case Err(e) => whole == Err(e)
    case Ok(t) =>
      && TensorMap(found + [t]) == TensorMap(found)[t.name := |found|]
      && left > 0 && Scan(data, End(t), padded, left - 1).Some?
      && whole == Before(found + [t], Scan(data, End(t), padded, left - 1).value)
  }

  /** One step of the scan, in terms of the whole outcome. */
  lemma FoundOneMore(data: Bytes, offset: int, padded: bool, left: nat, found: seq<Info>)
    requires offset < |data| && Scan(data, offset, padded, left).Some?
    ensures Turn(found, TensorAt(data, offset, padded), Before(found, Scan(data, offset, padded, left).value),
                 data, padded, left)
  {
    hide TensorAt, End;
    var t := TensorAt(data, offset, padded);
    if t.Ok? {
      assert (found + [t.value])[..|found|] == found;
      var rest := Scan(data, End(t.value), padded, left - 1).value;
      assert rest.Ok? ==> found + ([t.value] + rest.value.0) == (found + [t.value]) + rest.value.0;
    }
  }
}
