/**
  The MXFP4 nibble repack. A block is 16 bytes holding 32 four-bit values; the checkpoint stores
  value 2i in the low and 2i + 1 in the high nibble of byte i, the target format stores value i
  in the low and value 16 + i in the high nibble.
 */
module Nibbles {

  const BLOCK := 16

  function Map(s: seq<bv8>, f: bv8 -> bv8): (r: seq<bv8>)
    ensures |r| == |s|
  {
    seq(|s|, i requires 0 <= i < |s| => f(s[i]))
  }

  function Or(s: seq<bv8>, t: seq<bv8>): (r: seq<bv8>)
    requires |s| == |t|
    ensures |r| == |s|
  {
    seq(|s|, i requires 0 <= i < |s| => s[i] | t[i])
  }

  /** One half of `chunk(2, dim=-1)`: columns lo..lo+8 of every 16-byte row, flattened. */
  function Half(s: seq<bv8>, lo: nat): (r: seq<bv8>)
    requires |s| % BLOCK == 0 && lo <= 8
    ensures |r| == |s| / 2
  {
    seq(|s| / 2, k requires 0 <= k < |s| / 2 => s[k / 8 * BLOCK + lo + k % 8])
  }

  /** `stack((x, y), dim=2).view(...)` of two columns: their elements alternate. */
  function Alternate(x: seq<bv8>, y: seq<bv8>): (r: seq<bv8>)
    requires |x| == |y|
    ensures |r| == 2 * |x|
  {
    seq(2 * |x|, k requires 0 <= k < 2 * |x| => if k % 2 == 0 then x[k / 2] else y[k / 2])
  }

  // the byte operations of the repack; shifts drop bits beyond the eighth
  function SwapNibbles(b: bv8): bv8 { ((b & 0x0F) << 4) | ((b & 0xF0) >> 4) }
  function KeepHigh(b: bv8): bv8 { b & 0xF0 }
  function KeepLow(b: bv8): bv8 { b & 0x0F }
  function Raise(b: bv8): bv8 { b << 4 }
  function Lower(b: bv8): bv8 { b >> 4 }

  /** The repack of a whole tensor, flattened; its last axis has extent 16. */
  function TransformNibbleLayout(tensor: seq<bv8>): (out: seq<bv8>)
    requires |tensor| % BLOCK == 0
    ensures |out| == |tensor|
  {
    var swapped := Map(tensor, SwapNibbles);
    var blkA, blkB := Half(swapped, 0), Half(swapped, 8);
    var a := Alternate(Map(blkA, KeepHigh), Map(blkA, Raise));
    var b := Alternate(Map(blkB, Lower), Map(blkB, KeepLow));
    Map(Or(a, b), SwapNibbles)
  }

  // ---------------------------------------------------------------- the two layouts

  /** Value v of the block at `base` in the checkpoint layout. */
  function SourceValue(s: seq<bv8>, base: nat, v: nat): bv8
    requires v < 32 && base + BLOCK <= |s|
  {
    if v % 2 == 0 then KeepLow(s[base + v / 2]) else Lower(s[base + v / 2])
  }

  /** Value v of the block at `base` in the target layout. */
  function TargetValue(s: seq<bv8>, base: nat, v: nat): bv8
    requires v < 32 && base + BLOCK <= |s|
  {
    if v < 16 then KeepLow(s[base + v]) else Lower(s[base + v - 16])
  }

  lemma HalfByte(s: seq<bv8>, lo: nat, base: nat, i: nat)
    requires |s| % BLOCK == 0 && base % BLOCK == 0 && base + BLOCK <= |s| && i < BLOCK && (lo == 0 || lo == 8)
    ensures (base + i) / 2 < |s| / 2 && (base + i) % 2 == i % 2
    ensures Half(s, lo)[(base + i) / 2] == s[base + lo + i / 2]
  {
    var k := (base + i) / 2;
    assert k / 8 == base / 16 && k % 8 == i / 2;
  }

  /** Byte i of an output block: value i low, value 16 + i high, both read from one input nibble. */
  lemma OutputByte(s: seq<bv8>, base: nat, i: nat)
    requires |s| % BLOCK == 0 && base % BLOCK == 0 && base + BLOCK <= |s| && i < BLOCK
    ensures var x, y := s[base + i / 2], s[base + 8 + i / 2];
            TransformNibbleLayout(s)[base + i]
            == if i % 2 == 0 then ((y & 0x0F) << 4) | (x & 0x0F) else (y & 0xF0) | (x >> 4)
  {
    hide SwapNibbles, KeepHigh, KeepLow, Raise, Lower, Half;
    var swapped := Map(s, SwapNibbles);
    HalfByte(swapped, 0, base, i);
    HalfByte(swapped, 8, base, i);
    ByteAlgebra(s[base + i / 2], s[base + 8 + i / 2]);
  }

  lemma ByteAlgebra(x: bv8, y: bv8)
    ensures SwapNibbles(KeepHigh(SwapNibbles(x)) | Lower(SwapNibbles(y))) == ((y & 0x0F) << 4) | (x & 0x0F)
    ensures SwapNibbles(Raise(SwapNibbles(x)) | KeepLow(SwapNibbles(y))) == (y & 0xF0) | (x >> 4)
  {
  }

  lemma ByteValues(x: bv8, y: bv8)
    ensures KeepLow(((y & 0x0F) << 4) | (x & 0x0F)) == KeepLow(x) && Lower(((y & 0x0F) << 4) | (x & 0x0F)) == KeepLow(y)
    ensures KeepLow((y & 0xF0) | (x >> 4)) == Lower(x) && Lower((y & 0xF0) | (x >> 4)) == Lower(y)
  {
  }

  /** The repack preserves every value of every block, for any number of blocks. */
  lemma PreservesValues(s: seq<bv8>, base: nat, v: nat)
    requires |s| % BLOCK == 0 && base % BLOCK == 0 && base + BLOCK <= |s| && v < 32
    ensures TargetValue(TransformNibbleLayout(s), base, v) == SourceValue(s, base, v)
  {
    hide TransformNibbleLayout, KeepLow, Lower;
    var i := if v < 16 then v else v - 16;
    OutputByte(s, base, i);
    ByteValues(s[base + i / 2], s[base + 8 + i / 2]);
  }

  /** The block that a byte lies in. */
  lemma BlockOf(k: nat, size: nat)
    requires size % BLOCK == 0 && k < size
    ensures var base := k - k % BLOCK;
            0 <= base && base % BLOCK == 0 && base + BLOCK <= size
  {
  }

  lemma OffsetInBlock(base: nat, j: nat)
    requires base % BLOCK == 0 && j < BLOCK
    ensures (base + j) % BLOCK == j
  {
  }

  /** The checkpoint byte that holds values 2j and 2j + 1 of a target block. */
  function RestoreByte(out: seq<bv8>, k: nat): bv8
    requires |out| % BLOCK == 0 && k < |out|
  {
    BlockOf(k, |out|);
    var j := k % BLOCK;
    TargetValue(out, k - j, 2 * j) | Raise(TargetValue(out, k - j, 2 * j + 1))
  }

  function Restore(out: seq<bv8>): (s: seq<bv8>)
    requires |out| % BLOCK == 0
    ensures |s| == |out|
  {
    seq(|out|, k requires 0 <= k < |out| => RestoreByte(out, k))
  }

  lemma JoinNibbles(b: bv8, lo: bv8, hi: bv8)
    ensures KeepLow(b) | Raise(Lower(b)) == b
    ensures lo <= 15 && hi <= 15 ==> KeepLow(lo | Raise(hi)) == lo && Lower(lo | Raise(hi)) == hi
    ensures KeepLow(b) <= 15 && Lower(b) <= 15
  {
  }

  /** The repack loses nothing: the checkpoint bytes can be read back. */
  lemma RestoreTransform(s: seq<bv8>)
    requires |s| % BLOCK == 0
    ensures Restore(TransformNibbleLayout(s)) == s
  {
    hide TransformNibbleLayout, KeepLow, Lower, Raise, TargetValue;
    var out := TransformNibbleLayout(s);
    forall k | 0 <= k < |s|
      ensures RestoreByte(out, k) == s[k]
    {
      BlockOf(k, |s|);
      var j := k % BLOCK;
      PreservesValues(s, k - j, 2 * j);
      PreservesValues(s, k - j, 2 * j + 1);
      JoinNibbles(s[k], 0, 0);
    }
  }

  /** Every target tensor is the repack of one checkpoint tensor. */
  lemma TransformRestore(out: seq<bv8>)
    requires |out| % BLOCK == 0
    ensures TransformNibbleLayout(Restore(out)) == out
  {
    hide TransformNibbleLayout, KeepLow, Lower, Raise, RestoreByte, SourceValue;
    var again := TransformNibbleLayout(Restore(out));
    forall k | 0 <= k < |out|
      ensures again[k] == out[k]
    {
      BlockOf(k, |out|);
      var i := k % BLOCK;
      RestoredValue(out, k - i, i);
      RestoredValue(out, k - i, 16 + i);
      PreservesValues(Restore(out), k - i, i);
      PreservesValues(Restore(out), k - i, 16 + i);
      JoinNibbles(out[k], 0, 0);
      JoinNibbles(again[k], 0, 0);
    }
  }

  /** The restored byte of two values of a block. */
  lemma RestoredByte(out: seq<bv8>, base: nat, j: nat)
    requires |out| % BLOCK == 0 && base % BLOCK == 0 && base + BLOCK <= |out| && j < BLOCK
    ensures Restore(out)[base + j] == TargetValue(out, base, 2 * j) | Raise(TargetValue(out, base, 2 * j + 1))
  {
    hide TargetValue, Raise;
    OffsetInBlock(base, j);
  }

  lemma RestoredValue(out: seq<bv8>, base: nat, v: nat)
    requires |out| % BLOCK == 0 && base % BLOCK == 0 && base + BLOCK <= |out| && v < 32
    ensures SourceValue(Restore(out), base, v) == TargetValue(out, base, v)
  {
    hide KeepLow, Lower, Raise, Restore, RestoreByte, TargetValue;
    var j := v / 2;
    RestoredByte(out, base, j);
    NibbleBound(out, base, 2 * j);
    NibbleBound(out, base, 2 * j + 1);
    JoinNibbles(0, TargetValue(out, base, 2 * j), TargetValue(out, base, 2 * j + 1));
  }

  lemma NibbleBound(out: seq<bv8>, base: nat, v: nat)
    requires v < 32 && base + BLOCK <= |out|
    ensures TargetValue(out, base, v) <= 15
  {
    hide KeepLow, Lower;
    JoinNibbles(out[base + if v < 16 then v else v - 16], 0, 0);
  }
}
