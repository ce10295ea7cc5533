/** The base64 codec in letters: the two alphabets, the padding, and which texts are decoded. */
module Base64Text {
  import opened Wrappers
  import opened Base64

  // sections 4 and 5 of RFC 4648
  const CAPITALS: string := "ABCDEFGHIJKLMNOPQRSTUVWXYZ"
  const SMALLS: string := "abcdefghijklmnopqrstuvwxyz"
  const DIGITS: string := "0123456789"
  const LETTERS: string := CAPITALS + SMALLS + DIGITS + "+/"
  const URL_LETTERS: string := CAPITALS + SMALLS + DIGITS + "-_"

  function LettersOf(alphabet: Alphabet): (s: string)
    ensures |s| == 64
  {
    if alphabet == UrlSafe then URL_LETTERS else LETTERS
  }

  /** A byte is a character. */
  predicate Is(b: bv8, c: char) {
    b as int == c as int
  }

  /** The character is letter v of the alphabet. */
  predicate IsNth(c: bv8, alphabet: Alphabet, v: nat) {
    v < 64 && Is(c, LettersOf(alphabet)[v])
  }

  ghost predicate IsLetter(alphabet: Alphabet, c: bv8) {
    exists v: nat :: IsNth(c, alphabet, v)
  }

  /** Value v is written as letter v of the alphabet. */
  lemma SymbolIsLetter(alphabet: Alphabet, v: bv8)
    requires v < 64
    ensures Is(Symbol(alphabet, v), LettersOf(alphabet)[v as int])
  {
    var s := LettersOf(alphabet);
    if v < 26 {
      CapitalLetters(v as int);
    } else if v < 52 {
      SmallLetters(v as int - 26);
    } else if v < 62 {
      Digits(v as int - 52);
    }
  }

  lemma CapitalLetters(k: nat)
    requires k < 26
    ensures LETTERS[k] == URL_LETTERS[k] == CAPITALS[k] && CAPITALS[k] as int == 65 + k
  {
  }

  lemma SmallLetters(k: nat)
    requires k < 26
    ensures LETTERS[26 + k] == URL_LETTERS[26 + k] == SMALLS[k] && SMALLS[k] as int == 97 + k
  {
  }

  lemma Digits(k: nat)
    requires k < 10
    ensures LETTERS[52 + k] == URL_LETTERS[52 + k] == DIGITS[k] && DIGITS[k] as int == 48 + k
  {
  }

  /** A character is read as the place it has in the alphabet, and no other character is read. */
  lemma LetterIsRead(alphabet: Alphabet, c: bv8)
    requires alphabet != Auto
    ensures SymbolValue(alphabet, c).Some? ==>
              SymbolValue(alphabet, c) == Some((SymbolValue(alphabet, c).value.0, alphabet))
              && Is(c, LettersOf(alphabet)[SymbolValue(alphabet, c).value.0 as int])
    ensures SymbolValue(alphabet, c).None? ==> forall v: nat :: !IsNth(c, alphabet, v)
  {
    hide SymbolValue, Symbol, LettersOf, IsNth;
    var r := SymbolValue(alphabet, c);
    if r.Some? {
      SymbolIsLetter(alphabet, r.value.0);
      SymbolOfValue(alphabet, c);
    } else {
      forall v: nat
        ensures !IsNth(c, alphabet, v)
      {
        NotRead(alphabet, c, v);
      }
    }
  }

  lemma NotRead(alphabet: Alphabet, c: bv8, v: nat)
    requires alphabet != Auto && SymbolValue(alphabet, c).None?
    ensures !IsNth(c, alphabet, v)
  {
    hide SymbolValue, Symbol, LettersOf;
    if v < 64 {
      var b := v as bv8;
      ByteOf(v);
      SymbolIsLetter(alphabet, b);
      ValueOfSymbol(alphabet, b);
      SameByte(c, Symbol(alphabet, b));
    }
  }

  lemma ByteOf(v: nat)
    requires v < 64
    ensures v as bv8 < 64 && (v as bv8) as int == v
  {
  }

  lemma SymbolOfValue(alphabet: Alphabet, c: bv8)
    requires alphabet != Auto && SymbolValue(alphabet, c).Some?
    ensures Symbol(alphabet, SymbolValue(alphabet, c).value.0) == c && SymbolValue(alphabet, c).value.1 == alphabet
  {
  }

  lemma SameByte(b: bv8, c: bv8)
    ensures b as int == c as int ==> b == c
  {
  }

  // ---------------------------------------------------------------- encoded texts

  /** How many '=' bring the letters to a multiple of four. */
  function PadCount(n: nat): nat {
    if n % 3 == 1 then 2 else if n % 3 == 2 then 1 else 0
  }

  /** An encoded text is letters of its alphabet and then as many '=' as are missing to a multiple of four. */
  lemma EncodedText(bytes: seq<bv8>, alphabet: Alphabet)
    ensures var (out, pads) := (EncodeSpec(bytes, alphabet), PadCount(|bytes|));
            && |out| % 4 == 0 && pads <= |out|
            && (forall i :: |out| - pads <= i < |out| ==> Is(out[i], '='))
            && forall i :: 0 <= i < |out| - pads ==> IsLetter(alphabet, out[i])
  {
    hide Group6, BitsOfBytes, Symbol, IsLetter;
    EncodedSize(bytes, alphabet);
    var (values, out) := (Group6(BitsOfBytes(bytes)), EncodeSpec(bytes, alphabet));
    assert out == Characters(alphabet, values) + Pads((3 - |bytes| % 3) % 3);
    assert PadCount(|bytes|) == (3 - |bytes| % 3) % 3 && |values| == |out| - PadCount(|bytes|);
    forall i | 0 <= i < |values|
      ensures IsLetter(alphabet, out[i])
    {
      SymbolIsLetter(alphabet, values[i]);
      IsItsLetter(alphabet, values[i]);
      assert out[i] == Symbol(alphabet, values[i]);
    }
  }

  lemma IsItsLetter(alphabet: Alphabet, v: bv8)
    requires v < 64
    ensures IsNth(Symbol(alphabet, v), alphabet, v as int) && IsLetter(alphabet, Symbol(alphabet, v))
  {
    hide Symbol, LettersOf;
    SymbolIsLetter(alphabet, v);
    Small(v);
    assert IsNth(Symbol(alphabet, v), alphabet, v as int);
  }

  lemma Small(v: bv8)
    requires v < 64
    ensures v as int < 64
  {
  }

  /** Examples: one, two and three bytes, and the two special letters of each alphabet. */
  lemma Examples()
    ensures EncodeSpec([65], Standard) == [81, 81, 61, 61]
    ensures EncodeSpec([65, 66], Standard) == [81, 85, 73, 61]
    ensures EncodeSpec([77, 97, 110], Standard) == [84, 87, 70, 117]
    ensures EncodeSpec([251, 255], Standard) == [43, 47, 56, 61]
    ensures EncodeSpec([251, 255], UrlSafe) == [45, 95, 56, 61]
    ensures DecodeSpec([84, 87, 70, 117], Standard, Moderate) == Ok([77, 97, 110])
  {
    hide EncodeSpec, DecodeSpec, First, Second, Third, Fourth;
    EncodeTail(65, 66, Standard);
    EncodeTail(251, 255, Standard);
    EncodeTail(251, 255, UrlSafe);
    EncodeThree(77, 97, 110, [], Standard);
    assert [77, 97, 110] + [] == [77 as bv8, 97, 110] && EncodeSpec([], Standard) == [] by { NothingEncoded(); }
    assert FourCharacters(Standard, 77, 97, 110) + [] == FourCharacters(Standard, 77, 97, 110);
    ExampleParts();
    RoundTrip([77, 97, 110], Standard, Standard, Moderate);
  }

  lemma NothingEncoded()
    ensures EncodeSpec([], Standard) == []
  {
  }

  lemma ExampleParts()
    ensures First(65) == 16 && Second(65, 0) == 16 && Second(65, 66) == 20 && Third(66, 0) == 8
    ensures First(77) == 19 && Second(77, 97) == 22 && Third(97, 110) == 5 && Fourth(110) == 46
    ensures First(251) == 62 && Second(251, 255) == 63 && Third(255, 0) == 60
  {
  }

  // ---------------------------------------------------------------- decoded texts

  lemma LetterIff(alphabet: Alphabet, c: bv8)
    requires alphabet != Auto
    ensures IsLetter(alphabet, c) <==> SymbolValue(alphabet, c).Some?
    ensures IsLetter(alphabet, c) ==> !Is(c, '=')
  {
    hide LettersOf, SymbolValue, Symbol;
    LetterIsRead(alphabet, c);
    if SymbolValue(alphabet, c).Some? {
      assert IsNth(c, alphabet, SymbolValue(alphabet, c).value.0 as int);
      PadIsNoSymbol(alphabet, c);
    }
  }

  lemma PadIsNoSymbol(alphabet: Alphabet, c: bv8)
    requires alphabet != Auto && SymbolValue(alphabet, c).Some?
    ensures !Is(c, '=')
  {
  }

  /** Letters up to position k, and there the end of the text or a '='. */
  ghost predicate LettersTo(input: seq<bv8>, i: nat, k: nat, alphabet: Alphabet) {
    && i <= k <= |input| && (forall j :: i <= j < k ==> IsLetter(alphabet, input[j]))
    && (k == |input| || Is(input[k], '='))
  }

  lemma {:induction false} ScanStops(input: seq<bv8>, i: nat, alphabet: Alphabet)
    requires i <= |input| && alphabet != Auto
    ensures Scan(input, i, alphabet).ok ==> LettersTo(input, i, Scan(input, i, alphabet).stop, alphabet)
    ensures forall k: nat :: LettersTo(input, i, k, alphabet) ==> Scan(input, i, alphabet).ok && Scan(input, i, alphabet).stop == k
    decreases |input| - i
  {
    hide IsLetter;
    if i < |input| {
      LetterIff(alphabet, input[i]);
      assert Is(input[i], '=') <==> input[i] == PAD by { SameByte(input[i], PAD); }
      if SymbolValue(alphabet, input[i]).Some? {
        ScanStops(input, i + 1, alphabet);
        forall k: nat | LettersTo(input, i, k, alphabet)
          ensures LettersTo(input, i + 1, k, alphabet)
        {
          assert k != i;
        }
      } else {
        forall k: nat | LettersTo(input, i, k, alphabet)
          ensures k == i
        {
          StopsAt(input, i, k, alphabet);
        }
      }
    }
  }

  lemma StopsAt(input: seq<bv8>, i: nat, k: nat, alphabet: Alphabet)
    requires LettersTo(input, i, k, alphabet)
    ensures k == i || (i < |input| && IsLetter(alphabet, input[i]))
  {
  }

  /**
    With a given alphabet a text is decoded iff it is letters up to its end or its first '=', and
    behind that, unless reading loosely, nothing but '='.
   */
  lemma DecodesIff(input: seq<bv8>, alphabet: Alphabet, behavior: Behavior)
    requires alphabet != Auto
    ensures DecodeSpec(input, alphabet, behavior).Ok? <==>
              exists k: nat :: LettersTo(input, 0, k, alphabet)
                               && (behavior == Loose || forall j :: k <= j < |input| ==> Is(input[j], '='))
  {
    hide IsLetter, Scan, LettersTo;
    ScanStops(input, 0, alphabet);
    forall j | 0 <= j < |input|
      ensures Is(input[j], '=') <==> input[j] == PAD
    {
      SameByte(input[j], PAD);
    }
    var s := Scan(input, 0, alphabet);
    if s.ok {
      assert LettersTo(input, 0, s.stop, alphabet);
    }
  }

  // ---------------------------------------------------------------- announced sizes

  /** The announced decoded size is the smallest multiple of three bytes with room for all the symbols. */
  lemma AnnouncedSize(size: nat)
    ensures var n := MaxDecodeSize(size);
            n % 3 == 0 && 8 * n >= 6 * size && (n > 0 ==> 8 * (n - 3) < 6 * size)
  {
  }
}
