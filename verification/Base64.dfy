/**
  The base64 codec (sections 4 and 5 of RFC 4648). Characters and bytes are both 8-bit values.
  The specification speaks of bit strings: encoding regroups the bits of the bytes by six,
  decoding regroups the bits of the symbols by eight and drops what is left over.
 */
module Base64 {
  import opened Wrappers

  datatype Alphabet = Auto | Standard | UrlSafe
  datatype Behavior = Moderate | Loose
  datatype Base64Error = InvalidCharacter

  const PAD: bv8 := 61

  // ---------------------------------------------------------------- symbols

  /** The character of a six-bit value. */
  function Symbol(alphabet: Alphabet, v: bv8): bv8
    requires v < 64
  {
    if v < 26 then v + 65
    else if v < 52 then v + 71
    else if v < 62 then v - 4
    else if v == 62 then (if alphabet == UrlSafe then 45 else 43)
    else (if alphabet == UrlSafe then 95 else 47)
  }

  /** A character's six-bit value, and the alphabet afterwards: a special character settles it. */
  function SymbolValue(alphabet: Alphabet, c: bv8): (r: Option<(bv8, Alphabet)>)
    ensures r.Some? ==> r.value.0 < 64
  {
    if 65 <= c <= 90 then Some((c - 65, alphabet))
    else if 97 <= c <= 122 then Some((c - 97 + 26, alphabet))
    else if 48 <= c <= 57 then Some((c - 48 + 52, alphabet))
    else
      match alphabet
      case Standard => if c == 43 then Some((62, alphabet)) else if c == 47 then Some((63, alphabet)) else None
      case UrlSafe => if c == 45 then Some((62, alphabet)) else if c == 95 then Some((63, alphabet)) else None
      case Auto =>
        if c == 43 then Some((62, Standard))
        else if c == 47 then Some((63, Standard))
        else if c == 45 then Some((62, UrlSafe))
        else if c == 95 then Some((63, UrlSafe))
        else None
  }

  lemma ValueOfSymbol(alphabet: Alphabet, v: bv8)
    requires v < 64 && alphabet != Auto
    ensures Symbol(alphabet, v) != PAD
    ensures SymbolValue(alphabet, Symbol(alphabet, v)) == Some((v, alphabet))
    ensures SymbolValue(Auto, Symbol(alphabet, v)) == Some((v, if v >= 62 then alphabet else Auto))
  {
  }

  // ---------------------------------------------------------------- bits

  function Bits6(v: bv8): (b: seq<bool>)
    ensures |b| == 6
  {
    [v & 32 != 0, v & 16 != 0, v & 8 != 0, v & 4 != 0, v & 2 != 0, v & 1 != 0]
  }

  function Bits8(v: bv8): (b: seq<bool>)
    ensures |b| == 8
  {
    [v & 128 != 0, v & 64 != 0] + Bits6(v)
  }

  function Bit(b: bool, weight: bv8): bv8 {
    if b then weight else 0
  }

  function Value6(b: seq<bool>): (v: bv8)
    requires |b| == 6
    ensures v < 64 && Bits6(v) == b
  {
    var v := Bit(b[0], 32) | Bit(b[1], 16) | Bit(b[2], 8) | Bit(b[3], 4) | Bit(b[4], 2) | Bit(b[5], 1);
    assert Bits6(v)[0] == b[0] && Bits6(v)[1] == b[1] && Bits6(v)[2] == b[2];
    assert Bits6(v)[3] == b[3] && Bits6(v)[4] == b[4] && Bits6(v)[5] == b[5];
    v
  }

  function Joined(b: seq<bool>): (v: bv8)
    requires |b| == 8
  {
    Bit(b[0], 128) | Bit(b[1], 64) | Bit(b[2], 32) | Bit(b[3], 16) | Bit(b[4], 8) | Bit(b[5], 4) | Bit(b[6], 2) | Bit(b[7], 1)
  }

  lemma JoinedBits(b: seq<bool>)
    requires |b| == 8
    ensures var v := Joined(b);
            && (v & 128 != 0 <==> b[0]) && (v & 64 != 0 <==> b[1]) && (v & 32 != 0 <==> b[2]) && (v & 16 != 0 <==> b[3])
            && (v & 8 != 0 <==> b[4]) && (v & 4 != 0 <==> b[5]) && (v & 2 != 0 <==> b[6]) && (v & 1 != 0 <==> b[7])
  {
  }

  lemma BitsOfJoined(b: seq<bool>)
    requires |b| == 8
    ensures Bits8(Joined(b)) == b
  {
    hide Joined, Bits8;
    JoinedBits(b);
    ByteBits(Joined(b));
  }

  function Value8(b: seq<bool>): (v: bv8)
    requires |b| == 8
    ensures Bits8(v) == b
  {
    BitsOfJoined(b);
    Joined(b)
  }

  /** Eight bits, spelled out. */
  lemma ByteBits(v: bv8)
    ensures Bits8(v) == [v & 128 != 0, v & 64 != 0, v & 32 != 0, v & 16 != 0,
                         v & 8 != 0, v & 4 != 0, v & 2 != 0, v & 1 != 0]
  {
  }

  lemma SameBits6(v: bv8, w: bv8)
    requires v < 64 && w < 64 && Bits6(v) == Bits6(w)
    ensures v == w
  {
    assert Bits6(v)[0] == Bits6(w)[0] && Bits6(v)[1] == Bits6(w)[1] && Bits6(v)[2] == Bits6(w)[2];
    assert Bits6(v)[3] == Bits6(w)[3] && Bits6(v)[4] == Bits6(w)[4] && Bits6(v)[5] == Bits6(w)[5];
  }

  lemma SameBits8(v: bv8, w: bv8)
    requires Bits8(v) == Bits8(w)
    ensures v == w
  {
    assert Bits8(v)[0] == Bits8(w)[0] && Bits8(v)[1] == Bits8(w)[1];
    assert Bits8(v)[2] == Bits8(w)[2] && Bits8(v)[3] == Bits8(w)[3];
    assert Bits8(v)[4] == Bits8(w)[4] && Bits8(v)[5] == Bits8(w)[5];
    assert Bits8(v)[6] == Bits8(w)[6] && Bits8(v)[7] == Bits8(w)[7];
  }

  function BitsOfBytes(bytes: seq<bv8>): (b: seq<bool>)
    ensures |b| == 8 * |bytes|
  {
    if bytes == [] then [] else Bits8(bytes[0]) + BitsOfBytes(bytes[1..])
  }

  function BitsOfValues(values: seq<bv8>): (b: seq<bool>)
    ensures |b| == 6 * |values|
  {
    if values == [] then [] else Bits6(values[0]) + BitsOfValues(values[1..])
  }

  function Zeros(n: nat): (b: seq<bool>)
    ensures |b| == n
  {
    seq(n, i => false)
  }

  /** Bits by six, the last group filled with zeros. */
  function Group6(b: seq<bool>): (values: seq<bv8>)
    ensures forall i :: 0 <= i < |values| ==> values[i] < 64
  {
    if b == [] then []
    else if |b| < 6 then [Value6(b + Zeros(6 - |b|))]
    else [Value6(b[..6])] + Group6(b[6..])
  }

  /** Bits by eight, an incomplete last group dropped. */
  function Group8(b: seq<bool>): seq<bv8> {
    if |b| < 8 then [] else [Value8(b[..8])] + Group8(b[8..])
  }

  // ---------------------------------------------------------------- specification

  function Characters(alphabet: Alphabet, values: seq<bv8>): (r: seq<bv8>)
    requires forall i :: 0 <= i < |values| ==> values[i] < 64
    ensures |r| == |values|
  {
    seq(|values|, i requires 0 <= i < |values| => Symbol(alphabet, values[i]))
  }

  function Pads(n: nat): (r: seq<bv8>)
    ensures |r| == n && forall i :: 0 <= i < n ==> r[i] == PAD
  {
    seq(n, i => PAD)
  }

  function EncodeSpec(bytes: seq<bv8>, alphabet: Alphabet): seq<bv8> {
    Characters(alphabet, Group6(BitsOfBytes(bytes))) + Pads((3 - |bytes| % 3) % 3)
  }

  /** The values read from position i on, where reading stopped, and whether without error. */
  datatype Scanned = Scanned(values: seq<bv8>, stop: nat, ok: bool)

  function Scan(input: seq<bv8>, i: nat, alphabet: Alphabet): (s: Scanned)
    requires i <= |input|
    ensures s.stop == i + |s.values| <= |input|
    ensures s.ok ==> s.stop == |input| || input[s.stop] == PAD
    decreases |input| - i
  {
    if i == |input| || input[i] == PAD then Scanned([], i, true)
    else
      match SymbolValue(alphabet, input[i])
      case None => Scanned([], i, false)
      case Some((v, next)) =>
        var rest := Scan(input, i + 1, next);
        Scanned([v] + rest.values, rest.stop, rest.ok)
  }

  predicate OnlyPads(input: seq<bv8>, i: nat) {
    forall j :: i <= j < |input| ==> input[j] == PAD
  }

  function Decoded(s: Scanned): seq<bv8> {
    Group8(BitsOfValues(s.values))
  }

  function DecodeSpec(input: seq<bv8>, alphabet: Alphabet, behavior: Behavior): Result<seq<bv8>, Base64Error> {
    var s := Scan(input, 0, alphabet);
    if !s.ok then Err(InvalidCharacter)
    else if behavior != Loose && !OnlyPads(input, s.stop) then Err(InvalidCharacter)
    else Ok(Decoded(s))
  }

  function MaxDecodeSize(size: nat): nat {
    (size / 4 + (if size % 4 != 0 then 1 else 0)) * 3
  }

  function RequiredEncodeSize(size: nat): nat {
    (size / 3 + (if size % 3 != 0 then 1 else 0)) * 4
  }

  // ---------------------------------------------------------------- bit regrouping

  lemma {:induction false} BitsOfBytesAppend(x: seq<bv8>, y: seq<bv8>)
    ensures BitsOfBytes(x + y) == BitsOfBytes(x) + BitsOfBytes(y)
  {
    if x == [] {
      assert x + y == y;
    } else {
      assert (x + y)[1..] == x[1..] + y;
      BitsOfBytesAppend(x[1..], y);
    }
  }

  lemma {:induction false} BitsOfValuesAppend(x: seq<bv8>, y: seq<bv8>)
    ensures BitsOfValues(x + y) == BitsOfValues(x) + BitsOfValues(y)
  {
    if x == [] {
      assert x + y == y;
    } else {
      assert (x + y)[1..] == x[1..] + y;
      BitsOfValuesAppend(x[1..], y);
    }
  }

  lemma {:induction false} Group6Append(b: seq<bool>, c: seq<bool>)
    requires |b| % 6 == 0
    ensures Group6(b + c) == Group6(b) + Group6(c)
  {
    hide Group6;
    if b == [] {
      assert b + c == c;
      NoGroups();
    } else {
      assert |b| >= 6;
      assert (b + c)[..6] == b[..6] && (b + c)[6..] == b[6..] + c;
      Group6Append(b[6..], c);
      FirstGroup(b);
      FirstGroup(b + c);
      assert [Value6(b[..6])] + Group6(b[6..]) + Group6(c) == [Value6(b[..6])] + (Group6(b[6..]) + Group6(c));
    }
  }

  lemma NoGroups()
    ensures Group6([]) == []
  {
  }

  lemma FirstGroup(b: seq<bool>)
    requires |b| >= 6
    ensures Group6(b) == [Value6(b[..6])] + Group6(b[6..])
  {
    hide Value6;
  }

  /** Regrouping by six and spelling out the bits again only adds zeros at the end. */
  lemma {:induction false} BitsOfGroup6(b: seq<bool>)
    ensures var n := if |b| % 6 == 0 then 0 else 6 - |b| % 6;
            BitsOfValues(Group6(b)) == b + Zeros(n)
  {
    hide Bits6, Value6;
    if b == [] {
    } else if |b| < 6 {
      BitsOfMore(Value6(b + Zeros(6 - |b|)), []);
    } else {
      BitsOfGroup6(b[6..]);
      BitsOfMore(Value6(b[..6]), Group6(b[6..]));
      SameRemainder(|b|);
      SplitAtSix(b, Zeros(if |b| % 6 == 0 then 0 else 6 - |b| % 6));
    }
  }

  lemma BitsOfMore(v: bv8, rest: seq<bv8>)
    ensures BitsOfValues([v] + rest) == Bits6(v) + BitsOfValues(rest)
    ensures [v] + [] == [v]
  {
    hide Bits6;
    assert ([v] + rest)[1..] == rest;
  }

  lemma SameRemainder(n: nat)
    requires n >= 6
    ensures (n - 6) % 6 == n % 6
  {
  }

  lemma SplitAtSix(b: seq<bool>, tail: seq<bool>)
    requires |b| >= 6
    ensures b[..6] + (b[6..] + tail) == b + tail
  {
  }

  /** Regrouping the bits of bytes by eight gives the bytes, whatever less than a byte follows. */
  lemma {:induction false} Group8OfBytes(bytes: seq<bv8>, tail: seq<bool>)
    requires |tail| < 8
    ensures Group8(BitsOfBytes(bytes) + tail) == bytes
  {
    var b := BitsOfBytes(bytes) + tail;
    if bytes != [] {
      assert b[..8] == Bits8(bytes[0]);
      assert b[8..] == BitsOfBytes(bytes[1..]) + tail;
      SameBits8(Value8(b[..8]), bytes[0]);
      Group8OfBytes(bytes[1..], tail);
    }
  }

  lemma {:induction false} Group8Length(b: seq<bool>)
    ensures |Group8(b)| == |b| / 8
  {
    if |b| >= 8 {
      Group8Length(b[8..]);
    }
  }

  lemma {:induction false} Group6Length(b: seq<bool>)
    ensures |Group6(b)| == (|b| + 5) / 6
  {
    if |b| >= 6 {
      Group6Length(b[6..]);
    }
  }

  // ---------------------------------------------------------------- round trip

  lemma {:induction false} ScanCharacters(values: seq<bv8>, alphabet: Alphabet, current: Alphabet,
                                          pads: seq<bv8>, input: seq<bv8>, i: nat)
    requires forall k :: 0 <= k < |values| ==> values[k] < 64
    requires alphabet != Auto && (current == Auto || current == alphabet)
    requires i <= |input| && input[i..] == Characters(alphabet, values) + pads
    requires forall k :: 0 <= k < |pads| ==> pads[k] == PAD
    ensures Scan(input, i, current) == Scanned(values, i + |values|, true)
    decreases |values|
  {
    hide Symbol, SymbolValue;
    if values == [] {
      assert input[i..] == pads;
      assert pads != [] ==> input[i] == pads[0];
    } else {
      assert input[i] == input[i..][0] == Symbol(alphabet, values[0]);
      ValueOfSymbol(alphabet, values[0]);
      var next := if current == Auto && values[0] < 62 then Auto else alphabet;
      CharactersRest(alphabet, values, pads);
      assert input[i + 1..] == input[i..][1..];
      ScanCharacters(values[1..], alphabet, next, pads, input, i + 1);
      assert [values[0]] + values[1..] == values;
    }
  }

  lemma CharactersRest(alphabet: Alphabet, values: seq<bv8>, pads: seq<bv8>)
    requires values != [] && forall k :: 0 <= k < |values| ==> values[k] < 64
    ensures (Characters(alphabet, values) + pads)[1..] == Characters(alphabet, values[1..]) + pads
  {
    hide Symbol;
    assert Characters(alphabet, values)[1..] == Characters(alphabet, values[1..]);
  }

  /** The alphabet that encoding uses: automatic means standard. */
  function EncodingAlphabet(alphabet: Alphabet): Alphabet {
    if alphabet == UrlSafe then UrlSafe else Standard
  }

  /**
    Decoding what was encoded gives the bytes back, for every byte string and both alphabets,
    under the same alphabet or automatic detection, strictly or loosely.
   */
  lemma RoundTrip(bytes: seq<bv8>, alphabet: Alphabet, decoding: Alphabet, behavior: Behavior)
    requires decoding == Auto || decoding == EncodingAlphabet(alphabet)
    ensures DecodeSpec(EncodeSpec(bytes, alphabet), decoding, behavior) == Ok(bytes)
  {
    hide Group6, Group8, BitsOfValues, BitsOfBytes, Symbol, Scan;
    var used := EncodingAlphabet(alphabet);
    var values := Group6(BitsOfBytes(bytes));
    var pads := Pads((3 - |bytes| % 3) % 3);
    var input := EncodeSpec(bytes, alphabet);
    SameCharacters(alphabet, values);
    assert input[0..] == Characters(used, values) + pads;
    ScanCharacters(values, used, decoding, pads, input, 0);
    assert OnlyPads(input, |values|);
    BitsOfGroup6(BitsOfBytes(bytes));
    var n := if |bytes| * 8 % 6 == 0 then 0 else 6 - |bytes| * 8 % 6;
    Group8OfBytes(bytes, Zeros(n));
  }

  lemma SameCharacters(alphabet: Alphabet, values: seq<bv8>)
    requires forall i :: 0 <= i < |values| ==> values[i] < 64
    ensures Characters(alphabet, values) == Characters(EncodingAlphabet(alphabet), values)
  {
  }

  /** The encoded length is the announced size. */
  lemma EncodedSize(bytes: seq<bv8>, alphabet: Alphabet)
    ensures |EncodeSpec(bytes, alphabet)| == RequiredEncodeSize(|bytes|)
  {
    hide Group6, BitsOfBytes;
    Group6Length(BitsOfBytes(bytes));
    var q, r := |bytes| / 3, |bytes| % 3;
    assert |bytes| == 3 * q + r;
    assert (8 * |bytes| + 5) / 6 == 4 * q + (8 * r + 5) / 6;
  }

  /** k symbols decode to floor(6k / 8) bytes, never more than the announced maximum. */
  lemma DecodedSize(input: seq<bv8>, alphabet: Alphabet)
    ensures |Decoded(Scan(input, 0, alphabet))| == 6 * |Scan(input, 0, alphabet).values| / 8
    ensures |Decoded(Scan(input, 0, alphabet))| <= MaxDecodeSize(|input|)
  {
    hide Scan;
    var s := Scan(input, 0, alphabet);
    Group8Length(BitsOfValues(s.values));
    var q, r := |input| / 4, |input| % 4;
    assert |input| == 4 * q + r;
    assert 6 * |s.values| / 8 <= 6 * |input| / 8;
    assert 6 * (4 * q + r) / 8 == 3 * q + 6 * r / 8;
  }

  // ---------------------------------------------------------------- automatic detection

  predicate IsSpecial(c: bv8) {
    c == 43 || c == 47 || c == 45 || c == 95
  }

  /** The family of the first special character before any padding; standard if there is none. */
  function Detected(input: seq<bv8>, i: nat): (a: Alphabet)
    requires i <= |input|
    ensures a != Auto
    decreases |input| - i
  {
    if i == |input| || input[i] == PAD then Standard
    else if input[i] == 43 || input[i] == 47 then Standard
    else if input[i] == 45 || input[i] == 95 then UrlSafe
    else Detected(input, i + 1)
  }

  /** Automatic detection reads the whole text in the alphabet of its first special character. */
  lemma {:induction false} AutoIsDetected(input: seq<bv8>, i: nat)
    requires i <= |input|
    ensures Scan(input, i, Auto) == Scan(input, i, Detected(input, i))
    decreases |input| - i
  {
    if i < |input| && input[i] != PAD && !IsSpecial(input[i]) {
      AutoIsDetected(input, i + 1);
    }
  }

  lemma AutoDecodesAsDetected(input: seq<bv8>, behavior: Behavior)
    ensures DecodeSpec(input, Auto, behavior) == DecodeSpec(input, Detected(input, 0), behavior)
  {
    AutoIsDetected(input, 0);
  }

  // ---------------------------------------------------------------- encoding

  // the four values that three bytes are split into
  function First(b0: bv8): bv8 { (b0 >> 2) & 0x3f }
  function Second(b0: bv8, b1: bv8): bv8 { ((b0 & 0x3) << 4) | ((b1 >> 4) & 0x0f) }
  function Third(b1: bv8, b2: bv8): bv8 { ((b1 & 0xf) << 2) | ((b2 >> 6) & 0x03) }
  function Fourth(b2: bv8): bv8 { b2 & 0x3f }

  lemma SplitValues(b0: bv8, b1: bv8, b2: bv8)
    ensures First(b0) < 64 && Second(b0, b1) < 64 && Third(b1, b2) < 64 && Fourth(b2) < 64
    ensures Bits6(First(b0)) == Bits8(b0)[..6]
    ensures Bits6(Second(b0, b1)) == Bits8(b0)[6..] + Bits8(b1)[..4]
    ensures Bits6(Third(b1, b2)) == Bits8(b1)[4..] + Bits8(b2)[..2]
    ensures Bits6(Fourth(b2)) == Bits8(b2)[2..]
  {
    FirstBits(b0);
    SecondBits(b0, b1);
    ThirdBits(b1, b2);
    FourthBits(b2);
  }

  lemma FirstBits(b: bv8)
    ensures First(b) < 64 && Bits6(First(b)) == Bits8(b)[..6]
  {
    FirstFacts(b);
    ByteParts(b);
    hide First, Bits8;
  }

  lemma FirstFacts(b: bv8)
    ensures var v := First(b);
            && v < 64
            && (v & 32 != 0 <==> b & 128 != 0) && (v & 16 != 0 <==> b & 64 != 0) && (v & 8 != 0 <==> b & 32 != 0)
            && (v & 4 != 0 <==> b & 16 != 0) && (v & 2 != 0 <==> b & 8 != 0) && (v & 1 != 0 <==> b & 4 != 0)
  {
  }

  lemma SecondBits(b0: bv8, b1: bv8)
    ensures Second(b0, b1) < 64 && Bits6(Second(b0, b1)) == Bits8(b0)[6..] + Bits8(b1)[..4]
  {
    hide Second, Bits6, Bits8;
    SecondFacts(b0, b1);
    ByteParts(b0);
    ByteParts(b1);
    ValueBits(Second(b0, b1));
    TwoAndFour(b0 & 2 != 0, b0 & 1 != 0, b1 & 128 != 0, b1 & 64 != 0, b1 & 32 != 0, b1 & 16 != 0, Bits6(Second(b0, b1)));
  }

  /** Six bits, spelled out. */
  lemma ValueBits(v: bv8)
    ensures Bits6(v) == [v & 32 != 0, v & 16 != 0, v & 8 != 0, v & 4 != 0, v & 2 != 0, v & 1 != 0]
  {
  }

  lemma TwoAndFour(a: bool, b: bool, c: bool, d: bool, e: bool, f: bool, bits: seq<bool>)
    requires bits == [a, b, c, d, e, f]
    ensures bits == [a, b] + [c, d, e, f]
  {
  }

  lemma FourAndTwo(a: bool, b: bool, c: bool, d: bool, e: bool, f: bool, bits: seq<bool>)
    requires bits == [a, b, c, d, e, f]
    ensures bits == [a, b, c, d] + [e, f]
  {
  }

  lemma SecondFacts(b0: bv8, b1: bv8)
    ensures var v := Second(b0, b1);
            && v < 64
            && (v & 32 != 0 <==> b0 & 2 != 0) && (v & 16 != 0 <==> b0 & 1 != 0) && (v & 8 != 0 <==> b1 & 128 != 0)
            && (v & 4 != 0 <==> b1 & 64 != 0) && (v & 2 != 0 <==> b1 & 32 != 0) && (v & 1 != 0 <==> b1 & 16 != 0)
  {
  }

  lemma ThirdFacts(b1: bv8, b2: bv8)
    ensures var v := Third(b1, b2);
            && v < 64
            && (v & 32 != 0 <==> b1 & 8 != 0) && (v & 16 != 0 <==> b1 & 4 != 0) && (v & 8 != 0 <==> b1 & 2 != 0)
            && (v & 4 != 0 <==> b1 & 1 != 0) && (v & 2 != 0 <==> b2 & 128 != 0) && (v & 1 != 0 <==> b2 & 64 != 0)
  {
  }

  lemma ThirdBits(b1: bv8, b2: bv8)
    ensures Third(b1, b2) < 64 && Bits6(Third(b1, b2)) == Bits8(b1)[4..] + Bits8(b2)[..2]
  {
    hide Third, Bits6, Bits8;
    ThirdFacts(b1, b2);
    ByteParts(b1);
    ByteParts(b2);
    ValueBits(Third(b1, b2));
    FourAndTwo(b1 & 8 != 0, b1 & 4 != 0, b1 & 2 != 0, b1 & 1 != 0, b2 & 128 != 0, b2 & 64 != 0, Bits6(Third(b1, b2)));
  }

  /** A byte cut where the encoder cuts it, the parts spelled out. */
  lemma ByteParts(b: bv8)
    ensures Bits8(b)[..6] == [b & 128 != 0, b & 64 != 0, b & 32 != 0, b & 16 != 0, b & 8 != 0, b & 4 != 0]
    ensures Bits8(b)[6..] == [b & 2 != 0, b & 1 != 0]
    ensures Bits8(b)[..4] == [b & 128 != 0, b & 64 != 0, b & 32 != 0, b & 16 != 0]
    ensures Bits8(b)[4..] == [b & 8 != 0, b & 4 != 0, b & 2 != 0, b & 1 != 0]
    ensures Bits8(b)[..2] == [b & 128 != 0, b & 64 != 0]
  {
    assert Bits8(b) == [b & 128 != 0, b & 64 != 0, b & 32 != 0, b & 16 != 0, b & 8 != 0, b & 4 != 0, b & 2 != 0, b & 1 != 0];
  }

  lemma FourthBits(b: bv8)
    ensures Fourth(b) < 64 && Bits6(Fourth(b)) == Bits8(b)[2..]
  {
    var x, y := Bits6(Fourth(b)), Bits8(b)[2..];
    assert x[0] == y[0] && x[1] == y[1] && x[2] == y[2] && x[3] == y[3] && x[4] == y[4] && x[5] == y[5];
  }

  lemma SplitBits(b0: bv8, b1: bv8, b2: bv8)
    ensures First(b0) < 64 && Second(b0, b1) < 64 && Third(b1, b2) < 64 && Fourth(b2) < 64
    ensures Bits6(First(b0)) + Bits6(Second(b0, b1)) + Bits6(Third(b1, b2)) + Bits6(Fourth(b2))
            == Bits8(b0) + Bits8(b1) + Bits8(b2)
  {
    hide First, Second, Third, Fourth, Bits6, Bits8;
    SplitValues(b0, b1, b2);
  }

  lemma {:induction false} Group6OfValues(values: seq<bv8>)
    requires forall i :: 0 <= i < |values| ==> values[i] < 64
    ensures Group6(BitsOfValues(values)) == values
  {
    if values != [] {
      var b := BitsOfValues(values);
      assert b[..6] == Bits6(values[0]) && b[6..] == BitsOfValues(values[1..]);
      SameBits6(Value6(b[..6]), values[0]);
      Group6OfValues(values[1..]);
    }
  }

  lemma FourBits(a: bv8, b: bv8, c: bv8, d: bv8)
    ensures BitsOfValues([a, b, c, d]) == Bits6(a) + Bits6(b) + Bits6(c) + Bits6(d)
  {
    hide Bits6, BitsOfValues, BitsOfBytes;
    BitsOfValuesAppend([a], [b, c, d]);
    BitsOfValuesAppend([b], [c, d]);
    BitsOfValuesAppend([c], [d]);
    assert [a] + [b, c, d] == [a, b, c, d] && [b] + [c, d] == [b, c, d] && [c] + [d] == [c, d];
    OneValue(a);
    OneValue(b);
    OneValue(c);
    OneValue(d);
  }

  lemma OneValue(a: bv8)
    ensures BitsOfValues([a]) == Bits6(a) && BitsOfBytes([a]) == Bits8(a)
  {
    assert [a][1..] == [];
  }

  lemma ThreeBytes(b0: bv8, b1: bv8, b2: bv8)
    ensures BitsOfBytes([b0, b1, b2]) == Bits8(b0) + Bits8(b1) + Bits8(b2)
    ensures BitsOfBytes([b0, b1]) == Bits8(b0) + Bits8(b1)
  {
    hide BitsOfBytes, Bits8;
    BitsOfBytesAppend([b0], [b1, b2]);
    BitsOfBytesAppend([b1], [b2]);
    BitsOfBytesAppend([b0], [b1]);
    assert [b0] + [b1, b2] == [b0, b1, b2] && [b1] + [b2] == [b1, b2] && [b0] + [b1] == [b0, b1];
    OneValue(b0);
    OneValue(b1);
    OneValue(b2);
  }

  function FourCharacters(alphabet: Alphabet, b0: bv8, b1: bv8, b2: bv8): (r: seq<bv8>) {
    SplitBits(b0, b1, b2);
    [Symbol(alphabet, First(b0)), Symbol(alphabet, Second(b0, b1)),
     Symbol(alphabet, Third(b1, b2)), Symbol(alphabet, Fourth(b2))]
  }

  /** Three bytes become four characters, independently of what follows. */
  lemma EncodeThree(b0: bv8, b1: bv8, b2: bv8, rest: seq<bv8>, alphabet: Alphabet)
    ensures EncodeSpec([b0, b1, b2] + rest, alphabet) == FourCharacters(alphabet, b0, b1, b2) + EncodeSpec(rest, alphabet)
  {
    hide Group6, BitsOfBytes, BitsOfValues, First, Second, Third, Fourth, Symbol, Bits6, Bits8;
    var four := [First(b0), Second(b0, b1), Third(b1, b2), Fourth(b2)];
    SplitBits(b0, b1, b2);
    GroupsOfThree(b0, b1, b2, rest);
    CharactersOfFour(four, Group6(BitsOfBytes(rest)), alphabet);
    SamePadding(|rest|);
  }

  lemma GroupsOfThree(b0: bv8, b1: bv8, b2: bv8, rest: seq<bv8>)
    ensures Group6(BitsOfBytes([b0, b1, b2] + rest))
            == [First(b0), Second(b0, b1), Third(b1, b2), Fourth(b2)] + Group6(BitsOfBytes(rest))
  {
    hide Group6, BitsOfBytes, BitsOfValues, First, Second, Third, Fourth, Bits6, Bits8;
    var four := [First(b0), Second(b0, b1), Third(b1, b2), Fourth(b2)];
    SplitBits(b0, b1, b2);
    ThreeBytes(b0, b1, b2);
    FourBits(four[0], four[1], four[2], four[3]);
    BitsOfBytesAppend([b0, b1, b2], rest);
    Group6Append(BitsOfBytes([b0, b1, b2]), BitsOfBytes(rest));
    Group6OfValues(four);
  }

  lemma CharactersOfFour(four: seq<bv8>, rest: seq<bv8>, alphabet: Alphabet)
    requires |four| == 4 && (forall i :: 0 <= i < 4 ==> four[i] < 64) && (forall i :: 0 <= i < |rest| ==> rest[i] < 64)
    ensures Characters(alphabet, four + rest)
            == [Symbol(alphabet, four[0]), Symbol(alphabet, four[1]), Symbol(alphabet, four[2]), Symbol(alphabet, four[3])]
               + Characters(alphabet, rest)
  {
    hide Symbol;
  }

  lemma SamePadding(n: nat)
    ensures (3 - (n + 3) % 3) % 3 == (3 - n % 3) % 3
  {
  }

  lemma LastTwo(b0: bv8, b1: bv8)
    ensures Group6(Bits8(b0) + Bits8(b1)) == [First(b0), Second(b0, b1), Third(b1, 0)]
  {
    hide Group6, First, Second, Third, Bits6, Bits8, Value6;
    SplitBits(b0, b1, 0);
    var b := Bits8(b0) + Bits8(b1);
    var whole := Bits6(First(b0)) + Bits6(Second(b0, b1)) + Bits6(Third(b1, 0)) + Bits6(Fourth(0));
    assert whole[..16] == b;
    ZeroByte();
    assert b[..6] == whole[..6] == Bits6(First(b0));
    assert b[6..][..6] == whole[6..12] == Bits6(Second(b0, b1));
    assert b[6..][6..] == whole[12..16];
    assert whole[16..18] == Bits8(0)[..2] == Zeros(2);
    assert b[6..][6..] + Zeros(2) == whole[12..18] == Bits6(Third(b1, 0));
    GroupThree(b, First(b0), Second(b0, b1), Third(b1, 0));
  }

  lemma ZeroByte()
    ensures Bits8(0) == Zeros(8)
  {
  }

  lemma GroupThree(b: seq<bool>, x: bv8, y: bv8, z: bv8)
    requires |b| == 16 && x < 64 && y < 64 && z < 64
    requires b[..6] == Bits6(x) && b[6..][..6] == Bits6(y) && b[6..][6..] + Zeros(2) == Bits6(z)
    ensures Group6(b) == [x, y, z]
  {
    hide Bits6, Value6;
    SameBits6(Value6(b[..6]), x);
    SameBits6(Value6(b[6..][..6]), y);
    SameBits6(Value6(b[6..][6..] + Zeros(2)), z);
    assert Group6(b[6..][6..]) == [z];
    assert Group6(b[6..]) == [y] + [z];
  }

  lemma LastOne(b0: bv8)
    ensures Group6(Bits8(b0)) == [First(b0), Second(b0, 0)]
  {
    hide Group6, First, Second, Third, Bits6, Bits8, Value6;
    SplitBits(b0, 0, 0);
    var b := Bits8(b0);
    var whole := Bits6(First(b0)) + Bits6(Second(b0, 0)) + Bits6(Third(0, 0)) + Bits6(Fourth(0));
    ZeroByte();
    assert whole[..8] == b;
    assert b[..6] == whole[..6] == Bits6(First(b0));
    assert b[6..] == whole[6..8];
    assert whole[8..12] == (Bits8(0) + Bits8(0))[..4] == Zeros(4);
    assert b[6..] + Zeros(4) == whole[6..12] == Bits6(Second(b0, 0));
    GroupTwo(b, First(b0), Second(b0, 0));
  }

  lemma GroupTwo(b: seq<bool>, x: bv8, y: bv8)
    requires |b| == 8 && x < 64 && y < 64 && b[..6] == Bits6(x) && b[6..] + Zeros(4) == Bits6(y)
    ensures Group6(b) == [x, y]
  {
    hide Bits6, Value6;
    SameBits6(Value6(b[..6]), x);
    SameBits6(Value6(b[6..] + Zeros(4)), y);
    assert Group6(b[6..]) == [y];
  }

  lemma EncodeTail(b0: bv8, b1: bv8, alphabet: Alphabet)
    ensures First(b0) < 64 && Second(b0, 0) < 64 && Second(b0, b1) < 64 && Third(b1, 0) < 64
    ensures EncodeSpec([b0], alphabet) == [Symbol(alphabet, First(b0)), Symbol(alphabet, Second(b0, 0)), PAD, PAD]
    ensures EncodeSpec([b0, b1], alphabet)
            == [Symbol(alphabet, First(b0)), Symbol(alphabet, Second(b0, b1)), Symbol(alphabet, Third(b1, 0)), PAD]
  {
    hide Group6, First, Second, Third, Symbol, Bits8, BitsOfBytes;
    SplitBits(b0, b1, 0);
    SplitBits(b0, 0, 0);
    OneValue(b0);
    ThreeBytes(b0, b1, 0);
    LastOne(b0);
    LastTwo(b0, b1);
  }

  lemma TailFormulas(b0: bv8, b1: bv8)
    ensures Second(b0, 0) == (b0 & 0x3) << 4 && Third(b1, 0) == (b1 & 0xf) << 2
  {
  }

  method Encode(input: seq<bv8>, alphabet: Alphabet) returns (out: seq<bv8>)
    ensures out == EncodeSpec(input, alphabet)
  {
    hide EncodeSpec, First, Second, Third, Fourth, Symbol, FourCharacters;
    out := [];
    var i := 0;
    assert input[0..] == input;
    EncodeNothing(alphabet);
    while i != |input|
      invariant i <= |input|
      invariant out + EncodeSpec(input[i..], alphabet) == EncodeSpec(input, alphabet)
      decreases |input| - i
    {
      var chars, taken := EncodeGroup(input, i, alphabet);
      ghost var rest := EncodeSpec(input[i + taken..], alphabet);
      assert out + (chars + rest) == (out + chars) + rest;
      out := out + chars;
      i := i + taken;
    }
    assert input[i..] == [];
  }

  /** One turn of the loop: up to three bytes, their characters and the padding. */
  method EncodeGroup(input: seq<bv8>, i: nat, alphabet: Alphabet) returns (chars: seq<bv8>, taken: nat)
    requires i < |input|
    ensures 1 <= taken <= |input| - i
    ensures EncodeSpec(input[i..], alphabet) == chars + EncodeSpec(input[i + taken..], alphabet)
  {
    hide EncodeSpec, First, Second, Third, Fourth, Symbol;
    EncodeNothing(alphabet);
    var i0 := input[i];
    if i + 1 == |input| {
      assert input[i..] == [i0] && input[i + 1..] == [];
      EncodeTail(i0, 0, alphabet);
      TailFormulas(i0, 0);
      chars, taken := [Symbol(alphabet, First(i0)), Symbol(alphabet, (i0 & 0x3) << 4), PAD, PAD], 1;
      return;
    }
    var i1 := input[i + 1];
    if i + 2 == |input| {
      assert input[i..] == [i0, i1] && input[i + 2..] == [];
      EncodeTail(i0, i1, alphabet);
      TailFormulas(i0, i1);
      chars := [Symbol(alphabet, First(i0)), Symbol(alphabet, Second(i0, i1)), Symbol(alphabet, (i1 & 0xf) << 2), PAD];
      taken := 2;
      return;
    }
    var i2 := input[i + 2];
    assert input[i..] == [i0, i1, i2] + input[i + 3..];
    EncodeThree(i0, i1, i2, input[i + 3..], alphabet);
    chars, taken := FourCharacters(alphabet, i0, i1, i2), 3;
  }

  lemma EncodeNothing(alphabet: Alphabet)
    ensures EncodeSpec([], alphabet) == []
  {
  }

  // ---------------------------------------------------------------- decoding

  /** The low n bits of a six-bit value. */
  function LowBits(v: bv8, n: nat): seq<bool>
    requires n <= 6
  {
    Bits6(v)[6 - n..]
  }

  /** The byte completed by a symbol when `bits` bits of the previous one are still unused. */
  function Completed(last: bv8, part: bv8, bits: int): bv8
    requires 2 <= bits <= 6
  {
    (last << (8 - bits)) | (part >> (bits - 2))
  }

  lemma CompletedBits(last: bv8, part: bv8, bits: int)
    requires last < 64 && part < 64 && (bits == 2 || bits == 4 || bits == 6)
    ensures Bits8(Completed(last, part, bits)) == LowBits(last, bits) + Bits6(part)[..8 - bits]
  {
    if bits == 6 {
      Completed6(last, part);
    } else if bits == 4 {
      Completed4(last, part);
    } else {
      Completed2(last, part);
    }
  }

  /** The two halves of a six-bit value, wherever it is cut, spelled out. */
  lemma ValueParts(v: bv8)
    ensures LowBits(v, 6) == [v & 32 != 0, v & 16 != 0, v & 8 != 0, v & 4 != 0, v & 2 != 0, v & 1 != 0]
    ensures LowBits(v, 4) == [v & 8 != 0, v & 4 != 0, v & 2 != 0, v & 1 != 0]
    ensures LowBits(v, 2) == [v & 2 != 0, v & 1 != 0]
    ensures Bits6(v)[..2] == [v & 32 != 0, v & 16 != 0]
    ensures Bits6(v)[..4] == [v & 32 != 0, v & 16 != 0, v & 8 != 0, v & 4 != 0]
    ensures Bits6(v)[..6] == [v & 32 != 0, v & 16 != 0, v & 8 != 0, v & 4 != 0, v & 2 != 0, v & 1 != 0]
  {
  }

  lemma Completed6(last: bv8, part: bv8)
    requires last < 64 && part < 64
    ensures Bits8(Completed(last, part, 6)) == LowBits(last, 6) + Bits6(part)[..2]
  {
    hide Completed, LowBits, Bits6, Bits8;
    Completed6Facts(last, part);
    var v := Completed(last, part, 6);
    ByteBits(v);
    ValueParts(last);
    ValueParts(part);
    SixAndTwo(last & 32 != 0, last & 16 != 0, last & 8 != 0, last & 4 != 0, last & 2 != 0, last & 1 != 0,
              part & 32 != 0, part & 16 != 0, Bits8(v));
  }

  lemma SixAndTwo(a: bool, b: bool, c: bool, d: bool, e: bool, f: bool, g: bool, h: bool, bits: seq<bool>)
    requires bits == [a, b, c, d, e, f, g, h]
    ensures bits == [a, b, c, d, e, f] + [g, h]
  {
  }

  lemma Completed6Facts(last: bv8, part: bv8)
    requires last < 64 && part < 64
    ensures var v := Completed(last, part, 6);
            && (v & 128 != 0 <==> last & 32 != 0) && (v & 64 != 0 <==> last & 16 != 0)
            && (v & 32 != 0 <==> last & 8 != 0) && (v & 16 != 0 <==> last & 4 != 0)
            && (v & 8 != 0 <==> last & 2 != 0) && (v & 4 != 0 <==> last & 1 != 0)
            && (v & 2 != 0 <==> part & 32 != 0) && (v & 1 != 0 <==> part & 16 != 0)
  {
  }

  lemma FourAndFour(a: bool, b: bool, c: bool, d: bool, e: bool, f: bool, g: bool, h: bool, bits: seq<bool>)
    requires bits == [a, b, c, d, e, f, g, h]
    ensures bits == [a, b, c, d] + [e, f, g, h]
  {
  }

  lemma Completed4(last: bv8, part: bv8)
    requires last < 64 && part < 64
    ensures Bits8(Completed(last, part, 4)) == LowBits(last, 4) + Bits6(part)[..4]
  {
    hide Completed, LowBits, Bits6, Bits8;
    Completed4Facts(last, part);
    var v := Completed(last, part, 4);
    ByteBits(v);
    ValueParts(last);
    ValueParts(part);
    FourAndFour(last & 8 != 0, last & 4 != 0, last & 2 != 0, last & 1 != 0,
                part & 32 != 0, part & 16 != 0, part & 8 != 0, part & 4 != 0, Bits8(v));
  }

  lemma Completed4Facts(last: bv8, part: bv8)
    requires last < 64 && part < 64
    ensures var v := Completed(last, part, 4);
            && (v & 128 != 0 <==> last & 8 != 0) && (v & 64 != 0 <==> last & 4 != 0)
            && (v & 32 != 0 <==> last & 2 != 0) && (v & 16 != 0 <==> last & 1 != 0)
            && (v & 8 != 0 <==> part & 32 != 0) && (v & 4 != 0 <==> part & 16 != 0)
            && (v & 2 != 0 <==> part & 8 != 0) && (v & 1 != 0 <==> part & 4 != 0)
  {
  }

  lemma Completed2(last: bv8, part: bv8)
    requires last < 64 && part < 64
    ensures Bits8(Completed(last, part, 2)) == LowBits(last, 2) + Bits6(part)[..6]
  {
    Completed2Facts(last, part);
    ByteBits(Completed(last, part, 2));
    ValueParts(last);
    ValueParts(part);
    hide Completed, LowBits, Bits6, Bits8;
  }

  lemma Completed2Facts(last: bv8, part: bv8)
    requires last < 64 && part < 64
    ensures var v := Completed(last, part, 2);
            && (v & 128 != 0 <==> last & 2 != 0) && (v & 64 != 0 <==> last & 1 != 0)
            && (v & 32 != 0 <==> part & 32 != 0) && (v & 16 != 0 <==> part & 16 != 0)
            && (v & 8 != 0 <==> part & 8 != 0) && (v & 4 != 0 <==> part & 4 != 0)
            && (v & 2 != 0 <==> part & 2 != 0) && (v & 1 != 0 <==> part & 1 != 0)
  {
  }

  /** The carry: the values read so far are the bytes written so far and the unused low bits of the last one. */
  ghost predicate Carry(values: seq<bv8>, out: seq<bv8>, last: bv8, bits: int) {
    && (bits == 0 || bits == 2 || bits == 4 || bits == 6) && last < 64
    && BitsOfValues(values) == BitsOfBytes(out) + LowBits(last, bits)
  }

  /** One symbol more: either a byte is completed or six bits are carried. */
  lemma CarryStep(values: seq<bv8>, out: seq<bv8>, last: bv8, bits: int, part: bv8)
    requires Carry(values, out, last, bits) && part < 64
    ensures if bits + 6 >= 8 then Carry(values + [part], out + [Completed(last, part, bits)], part, bits - 2)
            else Carry(values + [part], out, part, bits + 6)
  {
    hide Bits6, Bits8, BitsOfValues, BitsOfBytes, Completed;
    BitsOfValuesAppend(values, [part]);
    OneValue(part);
    if bits + 6 >= 8 {
      var b := Completed(last, part, bits);
      CompletedBits(last, part, bits);
      BitsOfBytesAppend(out, [b]);
      OneValue(b);
      assert Bits6(part) == Bits6(part)[..8 - bits] + Bits6(part)[8 - bits..];
      assert BitsOfBytes(out) + LowBits(last, bits) + Bits6(part)
          == BitsOfBytes(out) + (LowBits(last, bits) + Bits6(part)[..8 - bits]) + Bits6(part)[8 - bits..];
    } else {
      assert LowBits(part, 6) == Bits6(part);
    }
  }

  /** What has been written is what the values read so far decode to. */
  lemma CarryDecodes(values: seq<bv8>, out: seq<bv8>, last: bv8, bits: int)
    requires Carry(values, out, last, bits)
    ensures out == Group8(BitsOfValues(values)) && |out| == 6 * |values| / 8
    ensures |out| <= |values| && (|values| > 0 ==> |out| < |values|)
  {
    hide Bits6, BitsOfValues, BitsOfBytes, Group8;
    Group8OfBytes(out, LowBits(last, bits));
  }

  /** Reading up to `i` and then on is reading from the start. */
  ghost predicate ScanGoesOn(whole: Scanned, values: seq<bv8>, rest: Scanned) {
    whole.values == values + rest.values && whole.stop == rest.stop && whole.ok == rest.ok
  }

  method DecodeTo(input: seq<bv8>, alphabet: Alphabet, behavior: Behavior) returns (r: Result<seq<bv8>, Base64Error>)
    ensures r == DecodeSpec(input, alphabet, behavior)
  {
    hide Group8, BitsOfValues, Completed, Carry, SymbolValue;
    var out: seq<bv8> := [];
    var current := alphabet;
    var last: bv8 := 0;
    var bits := 0;
    var i := 0;
    ghost var values: seq<bv8> := [];
    ghost var whole := Scan(input, 0, alphabet);
    CarryStart();
    while i != |input|
      invariant i <= |input| && Carry(values, out, last, bits) && (bits == 0 || bits == 2 || bits == 4 || bits == 6)
      invariant ScanGoesOn(whole, values, Scan(input, i, current))
      decreases |input| - i
    {
      var c := input[i];
      if c == PAD {
        break;
      }
      var part := SymbolValue(current, c);
      if part.None? {
        return Err(InvalidCharacter);
      }
      CarryStep(values, out, last, bits, part.value.0);
      if bits + 6 >= 8 {
        out := out + [Completed(last, part.value.0, bits)];
        bits := bits - 2;
      } else {
        bits := bits + 6;
      }
      last := part.value.0;
      current := part.value.1;
      values := values + [last];
      i := i + 1;
    }
    assert values + [] == values;
    CarryDecodes(values, out, last, bits);
    CarryBits(values, out, last, bits);
    if behavior != Loose {
      var j := i;
      while j != |input|
        invariant i <= j <= |input| && forall k :: i <= k < j ==> input[k] == PAD
      {
        if input[j] != PAD {
          return Err(InvalidCharacter);
        }
        j := j + 1;
      }
    }
    return Ok(out);
  }

  lemma CarryStart()
    ensures Carry([], [], 0, 0)
  {
  }

  lemma CarryBits(values: seq<bv8>, out: seq<bv8>, last: bv8, bits: int)
    requires Carry(values, out, last, bits)
    ensures bits == 0 || bits == 2 || bits == 4 || bits == 6
  {
  }

  /**
    The buffer while it is decoded into itself: `w` bytes are written over its front, what is
    left to read is still the input, and the write index has never passed the read index.
   */
  ghost predicate Progress(input: seq<bv8>, now: seq<bv8>, i: int, w: int, values: seq<bv8>, last: bv8, bits: int) {
    && 0 <= w <= i == |values| <= |input| == |now| && (i > 0 ==> w < i)
    && now[w..] == input[w..]
    && Carry(values, now[..w], last, bits)
  }

  lemma ProgressStart(input: seq<bv8>)
    ensures Progress(input, input, 0, 0, [], 0, 0)
  {
    assert input[..0] == [];
  }

  /** The next character has not been overwritten, and the carry is one of four. */
  lemma ProgressReads(input: seq<bv8>, now: seq<bv8>, i: int, w: int, values: seq<bv8>, last: bv8, bits: int)
    requires Progress(input, now, i, w, values, last, bits)
    ensures 0 <= w <= i <= |input| == |now| && (bits == 0 || bits == 2 || bits == 4 || bits == 6)
    ensures forall j :: i <= j < |input| ==> now[j] == input[j]
  {
    forall j | i <= j < |input|
      ensures now[j] == input[j]
    {
      assert now[w..][j - w] == input[w..][j - w];
    }
  }

  /** A symbol is read at i, and a completed byte written at w, which is strictly below i. */
  lemma ProgressStep(input: seq<bv8>, now: seq<bv8>, i: int, w: int, values: seq<bv8>, last: bv8, bits: int, part: bv8)
    requires Progress(input, now, i, w, values, last, bits) && i < |input| && part < 64
    ensures bits + 6 >= 8 ==>
              w < i && Progress(input, now[w := Completed(last, part, bits)], i + 1, w + 1, values + [part], part, bits - 2)
    ensures bits + 6 < 8 ==> Progress(input, now, i + 1, w, values + [part], part, bits + 6)
  {
    hide Carry, Completed, BitsOfValues, BitsOfBytes, LowBits;
    CarryStep(values, now[..w], last, bits, part);
    CarryBits(values, now[..w], last, bits);
    if bits + 6 >= 8 {
      var byte := Completed(last, part, bits);
      CarryDecodes(values, now[..w], last, bits);
      NoCarryAtStart(values, now[..w], last, bits);
      CarryDecodes(values + [part], now[..w] + [byte], part, bits - 2);
      assert now[w := byte][..w + 1] == now[..w] + [byte];
      assert now[w := byte][w + 1..] == now[w..][1..] == input[w..][1..] == input[w + 1..];
    }
  }

  lemma NoCarryAtStart(values: seq<bv8>, out: seq<bv8>, last: bv8, bits: int)
    requires Carry(values, out, last, bits)
    ensures values == [] ==> bits == 0
  {
  }

  /** When reading has stopped, the written bytes are the decoded ones and the rest is untouched. */
  lemma ProgressStops(input: seq<bv8>, now: seq<bv8>, i: int, w: int, values: seq<bv8>, last: bv8, bits: int,
                      whole: Scanned)
    requires Progress(input, now, i, w, values, last, bits) && whole.values == values + []
    ensures |Decoded(whole)| == w && now == Decoded(whole) + input[w..]
  {
    hide Carry;
    CarryDecodes(values, now[..w], last, bits);
    assert values + [] == values;
    assert now == now[..w] + now[w..];
  }

  /** How reading goes on at i. */
  lemma ScanTurn(input: seq<bv8>, i: nat, current: Alphabet, whole: Scanned, values: seq<bv8>)
    requires i <= |input| && ScanGoesOn(whole, values, Scan(input, i, current))
    ensures i == |input| || input[i] == PAD ==> whole == Scanned(values + [], i, true)
    ensures i < |input| && input[i] != PAD ==>
              match SymbolValue(current, input[i])
              case None => whole == Scanned(values + [], i, false)
              case Some((v, next)) => ScanGoesOn(whole, values + [v], Scan(input, i + 1, next))
  {
    hide SymbolValue;
    if i < |input| && input[i] != PAD && SymbolValue(current, input[i]).Some? {
      var (v, next) := SymbolValue(current, input[i]).value;
      var rest := Scan(input, i + 1, next);
      assert values + ([v] + rest.values) == (values + [v]) + rest.values;
    }
  }

  /**
    Decoding into the buffer that is being read. Every byte is written strictly before the next
    one to be read, so the result is that of decoding elsewhere; positions beyond the output
    keep their old content, also when an invalid character ends the decoding.
   */
  method DecodeInPlace(a: array<bv8>, alphabet: Alphabet, behavior: Behavior) returns (r: Result<nat, Base64Error>)
    modifies a
    ensures var s := Scan(old(a[..]), 0, alphabet);
            |Decoded(s)| <= a.Length && a[..] == Decoded(s) + old(a[..])[|Decoded(s)|..]
    ensures match DecodeSpec(old(a[..]), alphabet, behavior)
            case Ok(bytes) => r == Ok(|bytes|) && a[..|bytes|] == bytes
            case Err(e) => r == Err(e)
  {
    hide Decoded, Completed, Carry, Progress, SymbolValue, Scan, ScanGoesOn;
    ghost var input := a[..];
    var current := alphabet;
    var last: bv8 := 0;
    var bits := 0;
    var i, w := 0, 0;
    ghost var values: seq<bv8> := [];
    ghost var whole := Scan(input, 0, alphabet);
    ProgressStart(input);
    ScanStarts(input, alphabet);
    while i != a.Length
      invariant 0 <= i <= a.Length == |input| && Progress(input, a[..], i, w, values, last, bits)
      invariant ScanGoesOn(whole, values, Scan(input, i, current))
      decreases a.Length - i
    {
      ProgressReads(input, a[..], i, w, values, last, bits);
      ScanTurn(input, i, current, whole, values);
      var c := a[i];
      if c == PAD {
        break;
      }
      var part := SymbolValue(current, c);
      if part.None? {
        ProgressStops(input, a[..], i, w, values, last, bits, whole);
        return Err(InvalidCharacter);
      }
      ghost var before := a[..];
      ProgressStep(input, before, i, w, values, last, bits, part.value.0);
      if bits + 6 >= 8 {
        a[w] := Completed(last, part.value.0, bits);
        assert a[..] == before[w := Completed(last, part.value.0, bits)];
        w := w + 1;
        bits := bits - 2;
      } else {
        bits := bits + 6;
      }
      values := values + [part.value.0];
      last := part.value.0;
      current := part.value.1;
      i := i + 1;
    }
    ProgressReads(input, a[..], i, w, values, last, bits);
    ScanTurn(input, i, current, whole, values);
    ProgressStops(input, a[..], i, w, values, last, bits, whole);
    if behavior != Loose {
      var j := i;
      while j != a.Length
        invariant i <= j <= a.Length && forall k :: i <= k < j ==> input[k] == PAD
      {
        if a[j] != PAD {
          return Err(InvalidCharacter);
        }
        j := j + 1;
      }
    }
    return Ok(w);
  }

  lemma ScanStarts(input: seq<bv8>, alphabet: Alphabet)
    ensures ScanGoesOn(Scan(input, 0, alphabet), [], Scan(input, 0, alphabet))
  {
  }
}
