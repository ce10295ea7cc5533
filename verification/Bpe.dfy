/**
  Byte-pair merging bounded by a rank, and the reconstruction of a merge list from it.
 */
module Bpe {
  import opened Wrappers

  type Token = seq<bv8>
  type Ranks = map<Token, int>

  // ---------------------------------------------------------------- specification

  predicate Ranked(ranks: Ranks, parts: seq<Token>, i: nat)
    requires i + 1 < |parts|
  {
    parts[i] + parts[i + 1] in ranks
  }

  function PairRank(ranks: Ranks, parts: seq<Token>, i: nat): int
    requires i + 1 < |parts| && Ranked(ranks, parts, i)
  {
    ranks[parts[i] + parts[i + 1]]
  }

  /** The leftmost lowest-ranked adjacent pair among the first n pairs. */
  function BestPair(ranks: Ranks, parts: seq<Token>, n: nat): (best: Option<nat>)
    requires n == 0 || n < |parts|
    ensures best.None? ==> forall j :: 0 <= j < n ==> !Ranked(ranks, parts, j)
    ensures best.Some? ==> best.value < n && Ranked(ranks, parts, best.value)
    ensures best.Some? ==> forall j :: 0 <= j < n && Ranked(ranks, parts, j) ==>
              PairRank(ranks, parts, best.value) <= PairRank(ranks, parts, j)
              && (j < best.value ==> PairRank(ranks, parts, best.value) < PairRank(ranks, parts, j))
  {
    if n == 0 then None
    else
      var b := BestPair(ranks, parts, n - 1);
      if Ranked(ranks, parts, n - 1)
         && (b.None? || PairRank(ranks, parts, n - 1) < PairRank(ranks, parts, b.value)) then Some(n - 1)
      else b
  }

  function PairCount(parts: seq<Token>): (n: nat)
    ensures n == 0 || n < |parts|
    ensures |parts| > 0 ==> n == |parts| - 1
  {
    if |parts| == 0 then 0 else |parts| - 1
  }

  function Merge(parts: seq<Token>, i: nat): (r: seq<Token>)
    requires i + 1 < |parts|
    ensures |r| == |parts| - 1
  {
    parts[..i] + [parts[i] + parts[i + 1]] + parts[i + 2..]
  }

  predicate Below(rank: int, maxRank: Option<int>) {
    maxRank.None? || rank < maxRank.value
  }

  /** The parts left when no adjacent pair ranks below the bound. */
  function Run(ranks: Ranks, parts: seq<Token>, maxRank: Option<int>): (r: seq<Token>)
    ensures |r| <= |parts|
    decreases |parts|
  {
    var best := BestPair(ranks, parts, PairCount(parts));
    if best.None? || !Below(PairRank(ranks, parts, best.value), maxRank) then parts
    else Run(ranks, Merge(parts, best.value), maxRank)
  }

  function Singles(token: Token): (r: seq<Token>)
    ensures |r| == |token|
  {
    seq(|token|, i requires 0 <= i < |token| => [token[i]])
  }

  function Bpe(ranks: Ranks, token: Token, maxRank: Option<int>): seq<Token> {
    Run(ranks, Singles(token), maxRank)
  }

  // ---------------------------------------------------------------- the loops

  method BpeLoop(ranks: Ranks, token: Token, maxRank: Option<int>) returns (parts: seq<Token>)
    ensures parts == Bpe(ranks, token, maxRank)
  {
    hide BestPair, Ranked, PairRank;
    parts := Singles(token);
    while true
      invariant Run(ranks, parts, maxRank) == Bpe(ranks, token, maxRank)
      decreases |parts|
    {
      var minIdx, minRank := FindBest(ranks, parts);
      if minIdx.None? || (maxRank.Some? && minRank >= maxRank.value) {
        break;
      }
      parts := parts[..minIdx.value] + [parts[minIdx.value] + parts[minIdx.value + 1]] + parts[minIdx.value + 2..];
    }
  }

  /** The inner loop: the leftmost lowest-ranked adjacent pair. */
  method FindBest(ranks: Ranks, parts: seq<Token>) returns (minIdx: Option<nat>, minRank: int)
    ensures minIdx == BestPair(ranks, parts, PairCount(parts))
    ensures minIdx.Some? ==> minRank == PairRank(ranks, parts, minIdx.value)
  {
    minIdx, minRank := None, 0;
    for i := 0 to PairCount(parts)
      invariant minIdx == BestPair(ranks, parts, i)
      invariant minIdx.Some? ==> minRank == PairRank(ranks, parts, minIdx.value)
    {
      var pair := parts[i] + parts[i + 1];
      if pair in ranks && (minIdx.None? || ranks[pair] < minRank) {
        minIdx, minRank := Some(i), ranks[pair];
      }
    }
  }

  // ---------------------------------------------------------------- what every run keeps

  function Concat(parts: seq<Token>): Token {
    if parts == [] then [] else parts[0] + Concat(parts[1..])
  }

  lemma {:induction false} ConcatAppend(x: seq<Token>, y: seq<Token>)
    ensures Concat(x + y) == Concat(x) + Concat(y)
  {
    if x == [] {
      assert x + y == y;
    } else {
      assert (x + y)[1..] == x[1..] + y;
      ConcatAppend(x[1..], y);
    }
  }

  lemma ConcatPair(a: Token, b: Token)
    ensures Concat([a + b]) == Concat([a, b]) == a + b
  {
    assert [a, b][1..] == [b] && [b][1..] == [] && [a + b][1..] == [];
    assert Concat([b]) == b + Concat([]);
  }

  lemma MergeKeepsConcat(parts: seq<Token>, i: nat)
    requires i + 1 < |parts|
    ensures Concat(Merge(parts, i)) == Concat(parts)
  {
    hide Concat;
    ConcatPair(parts[i], parts[i + 1]);
    CutAtPair(parts, i);
    ConcatThree(parts[..i], [parts[i], parts[i + 1]], parts[i + 2..]);
    ConcatThree(parts[..i], [parts[i] + parts[i + 1]], parts[i + 2..]);
  }

  lemma CutAtPair(parts: seq<Token>, i: nat)
    requires i + 1 < |parts|
    ensures parts == parts[..i] + [parts[i], parts[i + 1]] + parts[i + 2..]
  {
    hide Concat, Merge;
  }

  lemma ConcatThree(x: seq<Token>, m: seq<Token>, y: seq<Token>)
    ensures Concat(x + m + y) == Concat(x) + Concat(m) + Concat(y)
  {
    ConcatAppend(x + m, y);
    ConcatAppend(x, m);
  }

  /** Every part is one byte or a key ranked below the bound. */
  ghost predicate PartsAllowed(ranks: Ranks, parts: seq<Token>, maxRank: Option<int>) {
    forall i :: 0 <= i < |parts| ==>
      |parts[i]| == 1 || (|parts[i]| > 1 && parts[i] in ranks && Below(ranks[parts[i]], maxRank))
  }

  /** No adjacent pair is ranked below the bound. */
  ghost predicate Settled(ranks: Ranks, parts: seq<Token>, maxRank: Option<int>) {
    forall i :: 0 <= i < |parts| - 1 && Ranked(ranks, parts, i) ==> !Below(PairRank(ranks, parts, i), maxRank)
  }

  lemma {:induction false} RunKeeps(ranks: Ranks, parts: seq<Token>, maxRank: Option<int>)
    requires PartsAllowed(ranks, parts, maxRank)
    ensures Concat(Run(ranks, parts, maxRank)) == Concat(parts)
    ensures PartsAllowed(ranks, Run(ranks, parts, maxRank), maxRank)
    ensures Settled(ranks, Run(ranks, parts, maxRank), maxRank)
    decreases |parts|
  {
    var best := BestPair(ranks, parts, PairCount(parts));
    if best.Some? && Below(PairRank(ranks, parts, best.value), maxRank) {
      MergeKeepsConcat(parts, best.value);
      RunKeeps(ranks, Merge(parts, best.value), maxRank);
    }
  }

  lemma {:induction false} ConcatSingles(token: Token)
    ensures Concat(Singles(token)) == token
  {
    if token != [] {
      assert Singles(token)[1..] == Singles(token[1..]);
      ConcatSingles(token[1..]);
    }
  }

  /** Cutting never loses a byte, uses only allowed parts, and stops only when nothing is left to merge. */
  lemma BpeKeeps(ranks: Ranks, token: Token, maxRank: Option<int>)
    ensures Concat(Bpe(ranks, token, maxRank)) == token
    ensures PartsAllowed(ranks, Bpe(ranks, token, maxRank), maxRank)
    ensures Settled(ranks, Bpe(ranks, token, maxRank), maxRank)
  {
    RunKeeps(ranks, Singles(token), maxRank);
    ConcatSingles(token);
  }

  // ---------------------------------------------------------------- bounded runs

  /** A run with a larger bound continues the run with the smaller one. */
  lemma {:induction false} LargerBoundExtends(ranks: Ranks, parts: seq<Token>, small: int, large: Option<int>)
    requires large.None? || small <= large.value
    ensures Run(ranks, Run(ranks, parts, Some(small)), large) == Run(ranks, parts, large)
    decreases |parts|
  {
    var best := BestPair(ranks, parts, PairCount(parts));
    if best.Some? && Below(PairRank(ranks, parts, best.value), Some(small)) {
      LargerBoundExtends(ranks, Merge(parts, best.value), small, large);
    }
  }

  /** Bounded by its own rank, a token of at least two bytes is never reassembled. */
  lemma OwnRankLeavesTwo(ranks: Ranks, token: Token)
    requires |token| >= 2 && token in ranks
    ensures |Bpe(ranks, token, Some(ranks[token]))| >= 2
  {
    var parts := Bpe(ranks, token, Some(ranks[token]));
    BpeKeeps(ranks, token, Some(ranks[token]));
    ConcatShort(parts);
  }

  lemma ConcatShort(parts: seq<Token>)
    ensures |parts| == 1 ==> Concat(parts) == parts[0]
  {
    if |parts| == 1 {
      assert parts[1..] == [];
    }
  }

  ghost predicate InjectiveRanks(ranks: Ranks) {
    forall x, y :: x in ranks && y in ranks && ranks[x] == ranks[y] ==> x == y
  }

  lemma {:induction false} ConcatLonger(parts: seq<Token>, i: nat)
    requires i + 1 < |parts| && |parts| >= 3
    requires forall k :: 0 <= k < |parts| ==> |parts[k]| >= 1
    ensures |parts[i]| + |parts[i + 1]| < |Concat(parts)|
  {
    if i == 0 {
      assert |Concat(parts)| == |parts[0]| + |Concat(parts[1..])|;
      assert |Concat(parts[1..])| == |parts[1]| + |Concat(parts[1..][1..])|;
      assert |Concat(parts[2..])| == |parts[2]| + |Concat(parts[2..][1..])|;
      assert parts[1..][1..] == parts[2..];
    } else if |parts| == 3 {
      assert parts[1..] == [parts[1], parts[2]];
      ConcatPair(parts[1], parts[2]);
    } else {
      ConcatLonger(parts[1..], i - 1);
    }
  }

  lemma TwoParts(ranks: Ranks, token: Token)
    requires |token| >= 2 && token in ranks && |Bpe(ranks, token, Some(ranks[token]))| == 2
    ensures Bpe(ranks, token, Some(ranks[token] + 1)) == [token]
  {
    var r := ranks[token];
    var parts := Bpe(ranks, token, Some(r));
    BpeKeeps(ranks, token, Some(r));
    LargerBoundExtends(ranks, Singles(token), r, Some(r + 1));
    assert parts == [parts[0], parts[1]];
    ConcatPair(parts[0], parts[1]);
    assert parts[0] + parts[1] == token;
    assert Ranked(ranks, parts, 0);
    assert BestPair(ranks, parts, 0) == None;
    assert BestPair(ranks, parts, 1) == Some(0);
    assert Merge(parts, 0) == [token];
    assert BestPair(ranks, [token], 0) == None;
  }

  /**
    With injective ranks, a token splits into exactly two parts under its own rank iff raising
    the bound by one reassembles it.
   */
  lemma TwoPartsIffReassembled(ranks: Ranks, token: Token)
    requires InjectiveRanks(ranks) && |token| >= 2 && token in ranks
    ensures |Bpe(ranks, token, Some(ranks[token]))| == 2 <==> Bpe(ranks, token, Some(ranks[token] + 1)) == [token]
  {
    var r := ranks[token];
    var parts := Bpe(ranks, token, Some(r));
    BpeKeeps(ranks, token, Some(r));
    OwnRankLeavesTwo(ranks, token);
    if |parts| == 2 {
      TwoParts(ranks, token);
    } else {
      LargerBoundExtends(ranks, Singles(token), r, Some(r + 1));
      NoPairIsToken(ranks, parts, token);
    }
  }

  /** Three or more settled parts of a token stay apart under the next bound: none of their pairs is the token. */
  lemma NoPairIsToken(ranks: Ranks, parts: seq<Token>, token: Token)
    requires InjectiveRanks(ranks) && token in ranks && |parts| >= 3 && Concat(parts) == token
    requires PartsAllowed(ranks, parts, Some(ranks[token])) && Settled(ranks, parts, Some(ranks[token]))
    ensures Run(ranks, parts, Some(ranks[token] + 1)) == parts
  {
    hide BestPair, Concat;
    var best := BestPair(ranks, parts, PairCount(parts));
    if best.Some? {
      var i := best.value;
      ConcatLonger(parts, i);
      assert parts[i] + parts[i + 1] != token;
    }
  }

  // ---------------------------------------------------------------- merge reconstruction

  /** The vocabulary as a map, from the order the tokenizer lists it in. */
  function RanksOf(items: seq<(Token, int)>): Ranks {
    if items == [] then map[] else RanksOf(items[..|items| - 1])[items[|items| - 1].0 := items[|items| - 1].1]
  }

  /** The parts recorded for the i-th vocabulary entry. */
  function Split(items: seq<(Token, int)>, i: nat): seq<Token>
    requires i < |items|
  {
    Bpe(RanksOf(items), items[i].0, Some(items[i].1))
  }

  /** The merges of the first n entries: the two parts of every entry that is not a single byte. */
  function MergesOf(items: seq<(Token, int)>, n: nat): seq<(Token, Token)>
    requires n <= |items|
    requires forall i :: 0 <= i < n && |items[i].0| != 1 ==> |Split(items, i)| == 2
  {
    if n == 0 then []
    else if |items[n - 1].0| == 1 then MergesOf(items, n - 1)
    else MergesOf(items, n - 1) + [(Split(items, n - 1)[0], Split(items, n - 1)[1])]
  }

  /** The first assertion that `len(merged) == 2` fails stops the conversion. */
  method ReconstructMerges(items: seq<(Token, int)>) returns (r: Result<seq<(Token, Token)>, nat>)
    ensures r.Ok? <==> forall i :: 0 <= i < |items| && |items[i].0| != 1 ==> |Split(items, i)| == 2
    ensures r.Ok? ==> r.value == MergesOf(items, |items|)
    ensures r.Err? ==> r.error < |items| && |items[r.error].0| != 1 && |Split(items, r.error)| != 2
    ensures r.Err? ==> forall i :: 0 <= i < r.error && |items[i].0| != 1 ==> |Split(items, i)| == 2
  {
    var merges := [];
    var ranks := RanksOf(items);
    for i := 0 to |items|
      invariant forall j :: 0 <= j < i && |items[j].0| != 1 ==> |Split(items, j)| == 2
      invariant merges == MergesOf(items, i)
    {
      if |items[i].0| == 1 {
        continue;
      }
      var merged := BpeLoop(ranks, items[i].0, Some(items[i].1));
      if |merged| != 2 {
        return Err(i);
      }
      merges := merges + [(merged[0], merged[1])];
    }
    return Ok(merges);
  }

  lemma {:induction false} RankOfEntry(items: seq<(Token, int)>, i: nat)
    requires forall j, k :: 0 <= j < k < |items| ==> items[j].0 != items[k].0
    requires i < |items|
    ensures items[i].0 in RanksOf(items) && RanksOf(items)[items[i].0] == items[i].1
  {
    if i < |items| - 1 {
      RankOfEntry(items[..|items| - 1], i);
    }
  }

  /** A recorded merge joins to its token, and each side is a byte or a token of lower rank. */
  lemma MergesRebuildTokens(items: seq<(Token, int)>, i: nat)
    requires i < |items| && |Split(items, i)| == 2
    ensures var p := Split(items, i);
            && p[0] + p[1] == items[i].0
            && PartsAllowed(RanksOf(items), p, Some(items[i].1))
  {
    var p := Split(items, i);
    BpeKeeps(RanksOf(items), items[i].0, Some(items[i].1));
    assert p == [p[0], p[1]];
    ConcatPair(p[0], p[1]);
  }

  /** The entries among the first n that are not single bytes, in their order. */
  function LongTokens(items: seq<(Token, int)>, n: nat): seq<Token>
    requires n <= |items|
  {
    if n == 0 then []
    else if |items[n - 1].0| == 1 then LongTokens(items, n - 1)
    else LongTokens(items, n - 1) + [items[n - 1].0]
  }

  /** The recorded merges, each joined, are the entries that are not single bytes, in the order of the vocabulary. */
  lemma {:induction false} MergesListTokens(items: seq<(Token, int)>, n: nat)
    requires n <= |items|
    requires forall i :: 0 <= i < n && |items[i].0| != 1 ==> |Split(items, i)| == 2
    ensures |MergesOf(items, n)| == |LongTokens(items, n)|
    ensures forall k :: 0 <= k < |MergesOf(items, n)| ==>
              MergesOf(items, n)[k].0 + MergesOf(items, n)[k].1 == LongTokens(items, n)[k]
  {
    hide Split;
    if n > 0 {
      MergesListTokens(items, n - 1);
      if |items[n - 1].0| != 1 {
        MergesRebuildTokens(items, n - 1);
      }
    }
  }

  lemma {:induction false} KeysAreEntries(items: seq<(Token, int)>, t: Token)
    requires t in RanksOf(items)
    ensures exists i :: 0 <= i < |items| && items[i].0 == t && RanksOf(items)[t] == items[i].1
  {
    var n := |items| - 1;
    if t != items[n].0 {
      KeysAreEntries(items[..n], t);
      var i :| 0 <= i < n && items[..n][i].0 == t && RanksOf(items[..n])[t] == items[..n][i].1;
      assert items[i].0 == t;
    } else {
      assert items[n].0 == t;
    }
  }

  /**
    For a vocabulary of distinct tokens with distinct ranks, reconstruction succeeds exactly when
    every entry other than the single bytes has at least two bytes and is reassembled by a run
    whose bound lies just above its own rank.
   */
  lemma ReconstructionCondition(items: seq<(Token, int)>)
    requires forall j, k :: 0 <= j < k < |items| ==> items[j].0 != items[k].0 && items[j].1 != items[k].1
    ensures (forall i :: 0 <= i < |items| && |items[i].0| != 1 ==> |Split(items, i)| == 2)
            <==> (forall i :: 0 <= i < |items| && |items[i].0| != 1 ==>
                    |items[i].0| >= 2 && Bpe(RanksOf(items), items[i].0, Some(items[i].1 + 1)) == [items[i].0])
  {
    hide Bpe;
    var ranks := RanksOf(items);
    assert InjectiveRanks(ranks) by {
      forall x, y | x in ranks && y in ranks && ranks[x] == ranks[y]
        ensures x == y
      {
        KeysAreEntries(items, x);
        KeysAreEntries(items, y);
      }
    }
    forall i | 0 <= i < |items| && |items[i].0| != 1
      ensures |Split(items, i)| == 2 <==>
                |items[i].0| >= 2 && Bpe(ranks, items[i].0, Some(items[i].1 + 1)) == [items[i].0]
    {
      RankOfEntry(items, i);
      if |items[i].0| >= 2 {
        TwoPartsIffReassembled(ranks, items[i].0);
      } else {
        EmptyToken(ranks, items[i].1);
      }
    }
  }

  lemma EmptyToken(ranks: Ranks, r: int)
    ensures Bpe(ranks, [], Some(r)) == []
  {
  }
}
