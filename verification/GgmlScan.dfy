/** When the scan over the tensors ends, and how its outcome is built up. */
module GgmlScan {
  import opened Wrappers
  import opened GgmlFormat

  type Scanned = Result<(seq<Info>, int), LoadError>

  /** The outcome of scanning on, with the tensors found before it. */
  function Before(found: seq<Info>, rest: Scanned): Scanned {
    match rest
    case Ok(v) => Ok((found + v.0, v.1))
    case Err(e) => Err(e)
  }

  /** The offset after k tensors, or None if the scan is over by then. */
  function OffsetAfter(data: Bytes, at: int, padded: bool, k: nat): Option<int>
    decreases k
  {
    if k == 0 then Some(at)
    else if at >= |data| || TensorAt(data, at, padded).Err? then None
    else OffsetAfter(data, End(TensorAt(data, at, padded).value), padded, k - 1)
  }

  lemma {:induction false} ScanMore(data: Bytes, at: int, padded: bool, n: nat, m: nat)
    requires n <= m && Scan(data, at, padded, n).Some?
    ensures Scan(data, at, padded, m) == Scan(data, at, padded, n)
    decreases n
  {
    hide TensorAt;
    if at < |data| {
      var t := TensorAt(data, at, padded);
      if t.Ok? {
        ScanMore(data, End(t.value), padded, n - 1, m - 1);
      }
    }
  }

  /** The scan is over after k tensors exactly when the scan from the offset after j of them is over after k - j. */
  lemma {:induction false} ScanOn(data: Bytes, at: int, padded: bool, j: nat, k: nat)
    requires j <= k && OffsetAfter(data, at, padded, j).Some?
    ensures Scan(data, at, padded, k).Some? <==> Scan(data, OffsetAfter(data, at, padded, j).value, padded, k - j).Some?
    decreases j
  {
    hide TensorAt;
    if j > 0 {
      ScanOn(data, End(TensorAt(data, at, padded).value), padded, j - 1, k - 1);
    }
  }

  lemma {:induction false} OffsetOn(data: Bytes, at: int, padded: bool, j: nat, k: nat)
    requires OffsetAfter(data, at, padded, j).Some?
    ensures OffsetAfter(data, at, padded, j + k) == OffsetAfter(data, OffsetAfter(data, at, padded, j).value, padded, k)
    decreases j
  {
    hide TensorAt;
    if j > 0 {
      OffsetOn(data, End(TensorAt(data, at, padded).value), padded, j - 1, k);
    }
  }

  /** Where there is no offset any more the scan is over. */
  lemma {:induction false} OverThen(data: Bytes, at: int, padded: bool, k: nat)
    requires OffsetAfter(data, at, padded, k).None?
    ensures Scan(data, at, padded, k).Some?
    decreases k
  {
    hide TensorAt;
    if at < |data| && TensorAt(data, at, padded).Ok? {
      OverThen(data, End(TensorAt(data, at, padded).value), padded, k - 1);
    }
  }

  /** Where there is a later offset the scan is not over. */
  lemma {:induction false} NotOverThen(data: Bytes, at: int, padded: bool, n: nat, k: nat)
    requires n < k && OffsetAfter(data, at, padded, k).Some?
    ensures Scan(data, at, padded, n).None?
    decreases n
  {
    hide TensorAt;
    if n > 0 {
      NotOverThen(data, End(TensorAt(data, at, padded).value), padded, n - 1, k - 1);
    }
  }

  /** Every offset but the last one is inside the data, from one side or the other. */
  lemma {:induction false} OffsetInside(data: Bytes, at: int, padded: bool, k: nat)
    requires OffsetAfter(data, at, padded, k + 1).Some?
    ensures OffsetAfter(data, at, padded, k).Some?
    ensures -|data| <= OffsetAfter(data, at, padded, k).value < |data|
    decreases k
  {
    hide TensorAt;
    if k > 0 {
      OffsetInside(data, End(TensorAt(data, at, padded).value), padded, k - 1);
    }
  }

  // ---------------------------------------------------------------- repetition

  ghost predicate Repeats(s: seq<int>) {
    exists i, j :: 0 <= i < j < |s| && s[i] == s[j]
  }

  /** The numbers from -n up to n. */
  function Range(n: nat): (r: set<int>)
    ensures |r| == 2 * n && forall x :: x in r <==> -(n as int) <= x < n
  {
    if n == 0 then {} else Range(n - 1) + {-(n as int), n - 1}
  }

  lemma {:induction false} Members(s: seq<int>)
    requires !Repeats(s)
    ensures |set x | x in s| == |s|
  {
    if s == [] {
      assert (set x | x in s) == {};
    } else {
      var n := |s| - 1;
      assert !Repeats(s[..n]);
      Members(s[..n]);
      assert (set x | x in s) == (set x | x in s[..n]) + {s[n]};
      assert s[n] !in s[..n];
    }
  }

  lemma Fewer(x: set<int>, y: set<int>)
    requires x <= y
    ensures |x| <= |y|
  {
    assert |y - x| == |y| - |x|;
  }

  /** More numbers than there are in the range repeat. */
  lemma Pigeonhole(s: seq<int>, n: nat)
    requires |s| > 2 * n && forall i :: 0 <= i < |s| ==> -(n as int) <= s[i] < n
    ensures Repeats(s)
  {
    if !Repeats(s) {
      Members(s);
      var members := set x | x in s;
      Fewer(members, Range(n));
    }
  }

  /** A scan that goes on for more tensors than twice the bytes comes back to an offset. */
  lemma LongScanRepeats(data: Bytes, at: int, padded: bool, k: nat) returns (i: nat, j: nat)
    requires k > 2 * |data| && OffsetAfter(data, at, padded, k).Some?
    ensures i < j < k && OffsetAfter(data, at, padded, i).Some? && OffsetAfter(data, at, padded, j).Some?
    ensures OffsetAfter(data, at, padded, i) == OffsetAfter(data, at, padded, j)
  {
    hide OffsetAfter;
    forall m: nat | m < k
      ensures OffsetAfter(data, at, padded, m).Some? && -|data| <= OffsetAfter(data, at, padded, m).value < |data|
    {
      OffsetsInside(data, at, padded, m, k);
    }
    var s := seq(k, m requires 0 <= m < k => OffsetAfter(data, at, padded, m).value);
    Pigeonhole(s, |data|);
    i, j :| 0 <= i < j < |s| && s[i] == s[j];
  }

  lemma {:induction false} OffsetsInside(data: Bytes, at: int, padded: bool, m: nat, k: nat)
    requires m < k && OffsetAfter(data, at, padded, k).Some?
    ensures OffsetAfter(data, at, padded, m).Some? && -|data| <= OffsetAfter(data, at, padded, m).value < |data|
    decreases k
  {
    hide OffsetAfter;
    OffsetInside(data, at, padded, k - 1);
    if m < k - 1 {
      OffsetsInside(data, at, padded, m, k - 1);
    }
  }

  /** A scan that ends does so within twice as many tensors as there are bytes, and one more. */
  lemma {:induction false} EndsSoon(data: Bytes, at: int, padded: bool, n: nat)
    requires Scan(data, at, padded, n).Some?
    ensures Scan(data, at, padded, 2 * |data| + 1) == Scan(data, at, padded, n)
    decreases n
  {
    hide Scan, OffsetAfter;
    var enough := 2 * |data| + 1;
    if n <= enough {
      ScanMore(data, at, padded, n, enough);
    } else if OffsetAfter(data, at, padded, enough).None? {
      OverThen(data, at, padded, enough);
      ScanMore(data, at, padded, enough, n);
    } else {
      var i, j := LongScanRepeats(data, at, padded, enough);
      ScanOn(data, at, padded, j, n);
      ScanOn(data, at, padded, i, n - (j - i));
      EndsSoon(data, at, padded, n - (j - i));
      ScanMore(data, at, padded, n - (j - i), n);
    }
  }

  /** A scan that comes back to where it is never ends. */
  lemma {:induction false} CircleNeverEnds(data: Bytes, at: int, padded: bool, round: nat, n: nat)
    requires round > 0 && OffsetAfter(data, at, padded, round) == Some(at)
    ensures Scan(data, at, padded, n).None?
    decreases n
  {
    hide Scan, OffsetAfter;
    if n < round {
      NotOverThen(data, at, padded, n, round);
    } else {
      ScanOn(data, at, padded, round, n);
      CircleNeverEnds(data, at, padded, round, n - round);
    }
  }

  /** The scan comes back to an offset. */
  ghost predicate ComesBack(data: Bytes, at: int, padded: bool) {
    exists i, j :: 0 <= i < j && OffsetAfter(data, at, padded, i).Some?
                   && OffsetAfter(data, at, padded, i) == OffsetAfter(data, at, padded, j)
  }

  lemma NeverOver(data: Bytes, at: int, padded: bool, n: nat)
    requires Scan(data, at, padded, 2 * |data| + 1).None?
    ensures Scan(data, at, padded, n).None?
  {
    hide Scan;
    if Scan(data, at, padded, n).Some? {
      EndsSoon(data, at, padded, n);
    }
  }

  lemma MustComeBack(data: Bytes, at: int, padded: bool)
    requires Scan(data, at, padded, 2 * |data| + 1).None?
    ensures ComesBack(data, at, padded)
  {
    hide Scan, OffsetAfter;
    var enough := 2 * |data| + 1;
    if OffsetAfter(data, at, padded, enough).None? {
      OverThen(data, at, padded, enough);
    }
    var i, j := LongScanRepeats(data, at, padded, enough);
  }

  /** The scan never ends if and only if it comes back to an offset it has been at. */
  lemma EndlessIff(data: Bytes, at: int, padded: bool)
    ensures TensorsAt(data, at, padded) == Err(Endless) <==> forall n :: Scan(data, at, padded, n).None?
    ensures TensorsAt(data, at, padded) == Err(Endless) <==> ComesBack(data, at, padded)
  {
    hide Scan, OffsetAfter, ComesBack;
    var enough := 2 * |data| + 1;
    if Scan(data, at, padded, enough).None? {
      MustComeBack(data, at, padded);
      forall n: nat
        ensures Scan(data, at, padded, n).None?
      {
        NeverOver(data, at, padded, n);
      }
    } else {
      assert Scan(data, at, padded, enough).Some?;
      BackOnlyIfEndless(data, at, padded);
    }
  }

  lemma BackOnlyIfEndless(data: Bytes, at: int, padded: bool)
    ensures ComesBack(data, at, padded) ==> Scan(data, at, padded, 2 * |data| + 1).None?
  {
    hide Scan, OffsetAfter;
    if ComesBack(data, at, padded) {
      var i, j :| 0 <= i < j && OffsetAfter(data, at, padded, i).Some?
                  && OffsetAfter(data, at, padded, i) == OffsetAfter(data, at, padded, j);
      BackIsEndless(data, at, padded, i, j);
    }
  }

  lemma BackIsEndless(data: Bytes, at: int, padded: bool, i: nat, j: nat)
    requires i < j && OffsetAfter(data, at, padded, i).Some?
    requires OffsetAfter(data, at, padded, i) == OffsetAfter(data, at, padded, j)
    ensures Scan(data, at, padded, 2 * |data| + 1).None?
  {
    hide Scan, OffsetAfter;
    var x := OffsetAfter(data, at, padded, i).value;
    OffsetOn(data, at, padded, i, j - i);
    var n := 2 * |data| + 1 + i;
    ScanOn(data, at, padded, i, n);
    CircleNeverEnds(data, x, padded, j - i, n - i);
    if Scan(data, at, padded, 2 * |data| + 1).Some? {
      ScanMore(data, at, padded, 2 * |data| + 1, n);
    }
  }

  // ---------------------------------------------------------------- one tensor at a time

  /** The outcome of a scan from the outcome behind its first tensor. */
  lemma TensorsStep(data: Bytes, at: int, padded: bool)
    ensures TensorsAt(data, at, padded)
            == if at >= |data| then Ok(([], at))
               else match TensorAt(data, at, padded)
                    case Err(e) => Err(e)
                    case Ok(t) => Before([t], TensorsAt(data, End(t), padded))
  {
    hide TensorAt;
    if at < |data| && TensorAt(data, at, padded).Ok? {
      var t := TensorAt(data, at, padded).value;
      var enough := 2 * |data| + 1;
      if Scan(data, End(t), padded, enough).Some? {
        assert Scan(data, at, padded, enough + 1).Some?;
        EndsSoon(data, at, padded, enough + 1);
      }
      if Scan(data, at, padded, enough).Some? {
        ScanMore(data, End(t), padded, enough - 1, enough);
      }
    }
  }
}
