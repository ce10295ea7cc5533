/**
  Merging of mixture-of-experts weights. Expert tensors arrive one by one, in any order; a layer's
  tensors are held back until all of them are there and are then emitted as three stacks.
 */
module Experts {
  import opened Wrappers

  /** Tensor names: expert matrices w1, w2, w3 (0, 1, 2) of a layer, or anything else. */
  datatype Name = Expert(layer: int, expert: int, matrix: int) | Other(text: string)

  /** `layers.{layer}.feed_forward.experts.{matrix}.weight` with its stacked data. */
  datatype Merged<T> = Merged(layer: int, matrix: int, stack: seq<T>)

  datatype ExpertError = NoLayer | BadLayer | MissingExpert | EmptyStack | Unprocessed

  const MATRICES := 3

  // ---------------------------------------------------------------- specification of one arrival

  /** Experts x.. of one matrix, taken out of a layer's tensors until one is missing. */
  datatype Taken<T> = Taken(datas: seq<T>, left: map<Name, T>, missing: bool)

  function TakeStack<T>(d: map<Name, T>, layer: int, matrix: int, x: nat, n: nat): (t: Taken<T>)
    ensures !t.missing && x <= n ==> |t.datas| == n - x
    decreases n - x
  {
    var name := Expert(layer, x, matrix);
    if x >= n then Taken([], d, false)
    else if name !in d then Taken([], d, true)
    else
      var rest := TakeStack(d - {name}, layer, matrix, x + 1, n);
      Taken([d[name]] + rest.datas, rest.left, rest.missing)
  }

  /** The matrices w.. of a layer, taken out in order until an expert is missing; there is no stack of nothing. */
  datatype Emission<T> = Emission(tensors: seq<Merged<T>>, left: map<Name, T>, error: Option<ExpertError>)

  function TakeMatrices<T>(d: map<Name, T>, layer: int, w: nat, n: nat): (e: Emission<T>)
    decreases MATRICES - w
  {
    if w >= MATRICES then Emission([], d, None)
    else
      var t := TakeStack(d, layer, w, 0, n);
      if t.missing then Emission([], t.left, Some(MissingExpert))
      else if t.datas == [] then Emission([], t.left, Some(EmptyStack))
      else
        var rest := TakeMatrices(t.left, layer, w + 1, n);
        Emission([Merged(layer, w, t.datas)] + rest.tensors, rest.left, rest.error)
  }

  type Held<T> = seq<map<Name, T>>

  /** The held tensors after one arrival, and what the arrival returns. */
  datatype Outcome<T> = Outcome(held: Held<T>, result: Result<seq<Merged<T>>, ExpertError>)

  function Arrive<T>(held: Held<T>, n: nat, name: Name, bid: int, data: T): (o: Outcome<T>)
    ensures |o.held| == |held|
  {
    if !(-|held| <= bid < |held|) then Outcome(held, Err(BadLayer))
    else
      var b := if bid < 0 then bid + |held| else bid;
      var d := held[b][name := data];
      if |d| < n * MATRICES then Outcome(held[b := d], Ok([]))
      else
        var e := TakeMatrices(d, bid, 0, n);
        Outcome(held[b := e.left], if e.error.Some? then Err(e.error.value) else Ok(e.tensors))
  }

  lemma ArriveOutOfRange<T>(held: Held<T>, n: nat, name: Name, bid: int, data: T)
    requires !(-|held| <= bid < |held|)
    ensures Arrive(held, n, name, bid, data) == Outcome(held, Err(BadLayer))
  {
  }

  lemma ArriveInRange<T>(held: Held<T>, n: nat, name: Name, bid: int, data: T)
    requires -|held| <= bid < |held|
    ensures var b := if bid < 0 then bid + |held| else bid;
            var d := held[b][name := data];
            var e := TakeMatrices(d, bid, 0, n);
            Arrive(held, n, name, bid, data)
            == if |d| < n * MATRICES then Outcome(held[b := d], Ok([]))
               else Outcome(held[b := e.left], if e.error.Some? then Err(e.error.value) else Ok(e.tensors))
  {
    hide TakeMatrices;
  }

  lemma UpdatedTwice<T>(s: seq<T>, b: nat, x: T, y: T)
    requires b < |s|
    ensures s[b := x][b := y] == s[b := y]
  {
  }

  function Empty<T>(blocks: nat): (h: Held<T>)
    ensures |h| == blocks && forall b :: 0 <= b < blocks ==> h[b] == map[]
  {
    seq(blocks, b => map[])
  }

  /** t is what has been taken so far and what is still to be taken. */
  ghost predicate Continues<T>(t: Taken<T>, taken: seq<T>, rest: Taken<T>) {
    t.missing == rest.missing && t.left == rest.left && t.datas == taken + rest.datas
  }

  lemma ContinuesAtStart<T>(t: Taken<T>)
    ensures Continues(t, [], t)
  {
    assert [] + t.datas == t.datas;
  }

  lemma OneTaken<T>(t: Taken<T>, taken: seq<T>, d: map<Name, T>, layer: int, w: int, x: nat, n: nat)
    requires x < n && Continues(t, taken, TakeStack(d, layer, w, x, n))
    ensures var name := Expert(layer, x, w);
            if name in d then Continues(t, taken + [d[name]], TakeStack(d - {name}, layer, w, x + 1, n))
            else t.missing && t.left == d
  {
    var name := Expert(layer, x, w);
    if name in d {
      var rest := TakeStack(d - {name}, layer, w, x + 1, n);
      assert taken + ([d[name]] + rest.datas) == (taken + [d[name]]) + rest.datas;
    }
  }

  lemma AllTaken<T>(t: Taken<T>, taken: seq<T>, d: map<Name, T>, layer: int, w: int, n: nat)
    requires Continues(t, taken, TakeStack(d, layer, w, n, n))
    ensures !t.missing && t.left == d && t.datas == taken
  {
    assert taken + [] == taken;
  }

  /** e is what has been emitted so far and what is still to be emitted. */
  ghost predicate Emits<T>(e: Emission<T>, tensors: seq<Merged<T>>, rest: Emission<T>) {
    e.error == rest.error && e.left == rest.left && e.tensors == tensors + rest.tensors
  }

  lemma EmitsAtStart<T>(e: Emission<T>)
    ensures Emits(e, [], e)
  {
    assert [] + e.tensors == e.tensors;
  }

  lemma OneEmitted<T>(e: Emission<T>, tensors: seq<Merged<T>>, d: map<Name, T>, layer: int, w: nat, n: nat)
    requires w < MATRICES && Emits(e, tensors, TakeMatrices(d, layer, w, n))
    ensures var t := TakeStack(d, layer, w, 0, n);
            if t.missing then e.error == Some(MissingExpert) && e.left == t.left
            else if t.datas == [] then e.error == Some(EmptyStack) && e.left == t.left
            else Emits(e, tensors + [Merged(layer, w, t.datas)], TakeMatrices(t.left, layer, w + 1, n))
  {
    hide TakeStack;
    var t := TakeStack(d, layer, w, 0, n);
    if !t.missing && t.datas != [] {
      var rest := TakeMatrices(t.left, layer, w + 1, n);
      assert tensors + ([Merged(layer, w, t.datas)] + rest.tensors) == (tensors + [Merged(layer, w, t.datas)]) + rest.tensors;
    }
  }

  lemma AllEmitted<T>(e: Emission<T>, tensors: seq<Merged<T>>, d: map<Name, T>, layer: int, n: nat)
    requires Emits(e, tensors, TakeMatrices(d, layer, MATRICES, n))
    ensures e.error.None? && e.left == d && e.tensors == tensors
  {
    assert tensors + [] == tensors;
  }

  // ---------------------------------------------------------------- the accumulator

  class ExpertMerger<T> {
    const blockCount: nat
    const nExperts: nat
    var experts: Option<Held<T>>

    ghost predicate Valid()
      reads this
    {
      experts.Some? ==> |experts.value| == blockCount
    }

    /** The held tensors; none have been held before the first arrival. */
    ghost function Current(): (h: Held<T>)
      reads this
    {
      if experts.Some? then experts.value else Empty(blockCount)
    }

    constructor (blockCount: nat, nExperts: nat)
      ensures Valid() && Current() == Empty(blockCount)
      ensures this.blockCount == blockCount && this.nExperts == nExperts && experts == None
    {
      this.blockCount, this.nExperts := blockCount, nExperts;
      experts := None;
    }

    method ModifyTensors(data: T, name: Name, bid: Option<int>) returns (r: Result<seq<Merged<T>>, ExpertError>)
      requires Valid()
      modifies this
      ensures Valid()
      ensures bid.None? ==> r == Err(NoLayer) && experts == old(experts)
      ensures bid.Some? ==> experts.Some? && Arrive(old(Current()), nExperts, name, bid.value, data) == Outcome(Current(), r)
    {
      hide TakeMatrices, Arrive, Empty;
      if bid.None? {
        return Err(NoLayer);
      }
      if experts.None? {
        experts := Some(Empty(blockCount));
      }
      if !(-(blockCount as int) <= bid.value < blockCount) {
        ArriveOutOfRange(Current(), nExperts, name, bid.value, data);
        return Err(BadLayer);
      }
      ArriveInRange(Current(), nExperts, name, bid.value, data);
      var b := if bid.value < 0 then bid.value + blockCount else bid.value;
      var d := experts.value[b][name := data];
      experts := Some(experts.value[b := d]);
      if |d| < nExperts * MATRICES {
        return Ok([]);
      }
      r := EmitLayer(b, bid.value);
      UpdatedTwice(old(Current()), b, d, TakeMatrices(d, bid.value, 0, nExperts).left);
    }

    /** The stacks of a layer that holds enough tensors. */
    method EmitLayer(b: nat, layer: int) returns (r: Result<seq<Merged<T>>, ExpertError>)
      requires experts.Some? && b < |experts.value| == blockCount
      modifies this
      ensures experts.Some? && |experts.value| == blockCount
      ensures var e := TakeMatrices(old(experts).value[b], layer, 0, nExperts);
              && experts.value == old(experts).value[b := e.left]
              && r == if e.error.Some? then Err(e.error.value) else Ok(e.tensors)
    {
      hide TakeStack, TakeMatrices, Emits;
      ghost var before := experts.value;
      ghost var all := TakeMatrices(before[b], layer, 0, nExperts);
      var tensors := [];
      EmitsAtStart(all);
      for w := 0 to MATRICES
        invariant experts.Some? && |experts.value| == blockCount && experts.value == before[b := experts.value[b]]
        invariant Emits(all, tensors, TakeMatrices(experts.value[b], layer, w, nExperts))
      {
        OneEmitted(all, tensors, experts.value[b], layer, w, nExperts);
        var datas := TakeExperts(b, layer, w);
        if datas.None? {
          return Err(MissingExpert);
        }
        if datas.value == [] {
          return Err(EmptyStack);
        }
        tensors := tensors + [Merged(layer, w, datas.value)];
      }
      AllEmitted(all, tensors, experts.value[b], layer, nExperts);
      return Ok(tensors);
    }

    /** One matrix of every expert, removed from its layer; stops where one is missing. */
    method TakeExperts(b: nat, layer: int, w: int) returns (datas: Option<seq<T>>)
      requires experts.Some? && b < |experts.value|
      modifies this
      ensures experts.Some? && |experts.value| == |old(experts).value|
      ensures var t := TakeStack(old(experts).value[b], layer, w, 0, nExperts);
              && experts.value == old(experts).value[b := t.left]
              && datas == if t.missing then None else Some(t.datas)
    {
      hide TakeStack, Continues;
      ghost var before := experts.value;
      ghost var t := TakeStack(before[b], layer, w, 0, nExperts);
      var taken := [];
      ContinuesAtStart(t);
      for x := 0 to nExperts
        invariant experts.Some? && |experts.value| == |before| && experts.value == before[b := experts.value[b]]
        invariant Continues(t, taken, TakeStack(experts.value[b], layer, w, x, nExperts))
      {
        var ename := Expert(layer, x, w);
        OneTaken(t, taken, experts.value[b], layer, w, x, nExperts);
        if ename !in experts.value[b] {
          return None;
        }
        taken := taken + [experts.value[b][ename]];
        experts := Some(experts.value[b := experts.value[b] - {ename}]);
      }
      AllTaken(t, taken, experts.value[b], layer, w, nExperts);
      return Some(taken);
    }

    /** The check after the last tensor. */
    method PrepareTensors() returns (r: Result<(), ExpertError>)
      requires Valid()
      ensures r == (if exists b :: 0 <= b < blockCount && Current()[b] != map[] then Err(Unprocessed) else Ok(()))
    {
      if experts.Some? {
        for b := 0 to |experts.value|
          invariant forall c :: 0 <= c < b ==> experts.value[c] == map[]
        {
          if experts.value[b] != map[] {
            assert Current()[b] != map[];
            return Err(Unprocessed);
          }
        }
      }
      return Ok(());
    }
  }

  // ---------------------------------------------------------------- whole runs

  /** One expert tensor, delivered with the layer its name carries. */
  datatype Arrival<T> = Arrival(layer: nat, expert: nat, matrix: nat, data: T) {
    function Key(): Name {
      Expert(layer, expert, matrix)
    }
  }

  /** A run delivers expert tensors of existing layers, each at most once, in any order. */
  ghost predicate ProperRun<T>(run: seq<Arrival<T>>, blocks: nat, n: nat) {
    && (forall i :: 0 <= i < |run| ==> run[i].layer < blocks && run[i].expert < n && run[i].matrix < MATRICES)
    && (forall i, j :: 0 <= i < j < |run| ==> run[i].Key() != run[j].Key())
  }

  /** The held tensors after a run; arrivals that fail leave what they leave. */
  function HeldAfter<T>(run: seq<Arrival<T>>, blocks: nat, n: nat): (h: Held<T>)
    ensures |h| == blocks
  {
    if run == [] then Empty(blocks)
    else
      var last := run[|run| - 1];
      Arrive(HeldAfter(run[..|run| - 1], blocks, n), n, last.Key(), last.layer, last.data).held
  }

  /** What the i-th arrival of a run returns. */
  function Returned<T>(run: seq<Arrival<T>>, i: nat, blocks: nat, n: nat): Result<seq<Merged<T>>, ExpertError>
    requires i < |run|
  {
    Arrive(HeldAfter(run[..i], blocks, n), n, run[i].Key(), run[i].layer, run[i].data).result
  }

  /** The tensors of layer b that have arrived. */
  function Pending<T>(run: seq<Arrival<T>>, b: nat): map<Name, T> {
    if run == [] then map[]
    else
      var last := run[|run| - 1];
      var front := Pending(run[..|run| - 1], b);
      if last.layer == b then front[last.Key() := last.data] else front
  }

  /** How many tensors of layer b have arrived. */
  function Arrived<T>(run: seq<Arrival<T>>, b: nat): nat {
    if run == [] then 0 else Arrived(run[..|run| - 1], b) + (if run[|run| - 1].layer == b then 1 else 0)
  }

  lemma ProperPrefix<T>(run: seq<Arrival<T>>, k: nat, blocks: nat, n: nat)
    requires ProperRun(run, blocks, n) && k <= |run|
    ensures ProperRun(run[..k], blocks, n)
  {
  }

  lemma {:induction false} PendingIs<T>(run: seq<Arrival<T>>, b: nat, blocks: nat, n: nat)
    requires ProperRun(run, blocks, n)
    ensures |Pending(run, b)| == Arrived(run, b)
    ensures forall i :: 0 <= i < |run| && run[i].layer == b ==>
              run[i].Key() in Pending(run, b) && Pending(run, b)[run[i].Key()] == run[i].data
    ensures forall k :: k in Pending(run, b) ==> exists i :: 0 <= i < |run| && run[i].layer == b && run[i].Key() == k
  {
    if run == [] {
    } else {
      var m := |run| - 1;
      ProperPrefix(run, m, blocks, n);
      PendingIs(run[..m], b, blocks, n);
      assert forall i :: 0 <= i < m ==> run[..m][i] == run[i];
      hide ProperRun;
      PendingKeys(run, b);
      LastIsNew(run, blocks, n);
      PendingGrows(run, b);
    }
  }

  /** Only arrivals of the layer are pending. */
  lemma {:induction false} PendingKeys<T>(run: seq<Arrival<T>>, b: nat)
    ensures forall k :: k in Pending(run, b) ==> exists i :: 0 <= i < |run| && run[i].layer == b && run[i].Key() == k
  {
    if run == [] {
    } else {
      var m := |run| - 1;
      PendingKeys(run[..m], b);
      forall k | k in Pending(run, b)
        ensures exists i :: 0 <= i < |run| && run[i].layer == b && run[i].Key() == k
      {
        if k in Pending(run[..m], b) {
          var i :| 0 <= i < m && run[..m][i].layer == b && run[..m][i].Key() == k;
          assert run[i].Key() == k;
        } else {
          assert run[m].Key() == k;
        }
      }
    }
  }

  lemma LastIsNew<T>(run: seq<Arrival<T>>, blocks: nat, n: nat)
    requires ProperRun(run, blocks, n) && run != []
    ensures forall i :: 0 <= i < |run| - 1 ==> run[i].Key() != run[|run| - 1].Key()
  {
  }

  /** One arrival more, whose name is new, is one pending tensor more of its layer. */
  lemma PendingGrows<T>(run: seq<Arrival<T>>, b: nat)
    requires run != [] && forall i :: 0 <= i < |run| - 1 ==> run[i].Key() != run[|run| - 1].Key()
    requires var front := run[..|run| - 1];
             && |Pending(front, b)| == Arrived(front, b)
             && (forall k :: k in Pending(front, b) ==> exists i :: 0 <= i < |front| && front[i].layer == b && front[i].Key() == k)
             && (forall i :: 0 <= i < |run| - 1 && run[i].layer == b ==>
                   run[i].Key() in Pending(front, b) && Pending(front, b)[run[i].Key()] == run[i].data)
    ensures |Pending(run, b)| == Arrived(run, b)
    ensures forall i :: 0 <= i < |run| && run[i].layer == b ==>
              run[i].Key() in Pending(run, b) && Pending(run, b)[run[i].Key()] == run[i].data
  {
    var m := |run| - 1;
    var key := run[m].Key();
    assert forall i :: 0 <= i < m ==> run[..m][i] == run[i];
    assert key !in Pending(run[..m], b);
  }

  function LayerNames(b: nat, n: nat): set<Name> {
    set x, w | 0 <= x < n && 0 <= w < MATRICES :: Expert(b, x, w)
  }

  lemma {:induction false} LayerNameCount(b: nat, n: nat)
    ensures |LayerNames(b, n)| == n * MATRICES
  {
    if n == 0 {
      assert LayerNames(b, n) == {};
    } else {
      LayerNameCount(b, n - 1);
      var last := {Expert(b, n - 1, 0), Expert(b, n - 1, 1), Expert(b, n - 1, 2)};
      assert LayerNames(b, n) == LayerNames(b, n - 1) + last;
    }
  }

  lemma SubsetSize(x: set<Name>, y: set<Name>)
    requires x <= y
    ensures |x| <= |y| && (|x| == |y| ==> x == y)
  {
    assert |y - x| == |y| - |x|;
  }

  /** A layer never receives more than three tensors per expert, and with that many it has them all. */
  lemma PendingComplete<T>(run: seq<Arrival<T>>, b: nat, blocks: nat, n: nat)
    requires ProperRun(run, blocks, n)
    ensures |Pending(run, b)| == Arrived(run, b) <= n * MATRICES
    ensures Arrived(run, b) == n * MATRICES ==> Pending(run, b).Keys == LayerNames(b, n)
  {
    PendingIs(run, b, blocks, n);
    LayerNameCount(b, n);
    SubsetSize(Pending(run, b).Keys, LayerNames(b, n));
  }

  // -- emission from a complete layer

  lemma {:induction false} StackOfAll<T>(d: map<Name, T>, b: int, w: nat, x: nat, n: nat)
    requires x <= n && forall y :: x <= y < n ==> Expert(b, y, w) in d
    ensures var t := TakeStack(d, b, w, x, n);
            && !t.missing && |t.datas| == n - x
            && (forall y :: x <= y < n ==> t.datas[y - x] == d[Expert(b, y, w)])
            && (forall k :: k in t.left <==> k in d && !(k.Expert? && k.layer == b && k.matrix == w && x <= k.expert < n))
            && (forall k :: k in t.left ==> t.left[k] == d[k])
    decreases n - x
  {
    if x < n {
      StackOfAll(d - {Expert(b, x, w)}, b, w, x + 1, n);
    }
  }

  /** The stack of one matrix: slot y is expert y. */
  ghost predicate IsStack<T>(m: Merged<T>, d: map<Name, T>, b: int, w: nat, n: nat) {
    && m.layer == b && m.matrix == w && |m.stack| == n
    && forall y :: 0 <= y < n ==> Expert(b, y, w) in d && m.stack[y] == d[Expert(b, y, w)]
  }

  lemma {:induction false} EmissionOfAll<T>(d: map<Name, T>, b: int, w: nat, n: nat)
    requires n > 0 && w <= MATRICES && forall v, y :: w <= v < MATRICES && 0 <= y < n ==> Expert(b, y, v) in d
    ensures var e := TakeMatrices(d, b, w, n);
            && e.error.None? && |e.tensors| == MATRICES - w
            && (forall i :: 0 <= i < |e.tensors| ==> IsStack(e.tensors[i], d, b, w + i, n))
            && (forall k :: k in e.left <==> k in d && !(k.Expert? && k.layer == b && w <= k.matrix < MATRICES && 0 <= k.expert < n))
    decreases MATRICES - w
  {
    hide TakeStack, IsStack;
    if w < MATRICES {
      StackOfAll(d, b, w, 0, n);
      var t := TakeStack(d, b, w, 0, n);
      EmissionOfAll(t.left, b, w + 1, n);
      var e, rest := TakeMatrices(d, b, w, n), TakeMatrices(t.left, b, w + 1, n);
      FirstStack(d, b, w, n);
      forall i | 0 <= i < |e.tensors|
        ensures IsStack(e.tensors[i], d, b, w + i, n)
      {
        if i > 0 {
          assert e.tensors[i] == rest.tensors[i - 1];
          LaterStack(rest.tensors[i - 1], t.left, d, b, w + i, n);
        }
      }
    }
  }

  lemma FirstStack<T>(d: map<Name, T>, b: int, w: nat, n: nat)
    requires forall y :: 0 <= y < n ==> Expert(b, y, w) in d
    ensures IsStack(Merged(b, w, TakeStack(d, b, w, 0, n).datas), d, b, w, n)
  {
    hide TakeStack;
    StackOfAll(d, b, w, 0, n);
    var datas := TakeStack(d, b, w, 0, n).datas;
    assert forall y :: 0 <= y < n ==> datas[y] == datas[y - 0] == d[Expert(b, y, w)];
  }

  lemma LaterStack<T>(m: Merged<T>, left: map<Name, T>, d: map<Name, T>, b: int, w: nat, n: nat)
    requires IsStack(m, left, b, w, n) && forall k :: k in left ==> k in d && left[k] == d[k]
    ensures IsStack(m, d, b, w, n)
  {
  }

  /** After any proper run, a layer holds exactly its arrivals, or nothing once it is complete. */
  lemma {:induction false} HeldIsPending<T>(run: seq<Arrival<T>>, b: nat, blocks: nat, n: nat)
    requires ProperRun(run, blocks, n) && b < blocks
    ensures HeldAfter(run, blocks, n)[b]
            == if Arrived(run, b) == n * MATRICES then map[] else Pending(run, b)
  {
    if run != [] {
      var m := |run| - 1;
      ProperPrefix(run, m, blocks, n);
      HeldIsPending(run[..m], b, blocks, n);
      if run[m].layer == b {
        PendingComplete(run, b, blocks, n);
        ArrivalStep(run, blocks, n);
      }
    }
  }

  /** The last arrival of a run adds to its layer, and empties it when it is the last one missing. */
  lemma ArrivalStep<T>(run: seq<Arrival<T>>, blocks: nat, n: nat)
    requires ProperRun(run, blocks, n) && run != []
    requires var m := |run| - 1;
             HeldAfter(run[..m], blocks, n)[run[m].layer]
             == if Arrived(run[..m], run[m].layer) == n * MATRICES then map[] else Pending(run[..m], run[m].layer)
    ensures var b := run[|run| - 1].layer;
            && HeldAfter(run, blocks, n)[b] == (if Arrived(run, b) == n * MATRICES then map[] else Pending(run, b))
            && (Arrived(run, b) < n * MATRICES ==> Returned(run, |run| - 1, blocks, n) == Ok([]))
            && (Arrived(run, b) == n * MATRICES ==>
                  Returned(run, |run| - 1, blocks, n) == Ok(TakeMatrices(Pending(run, b), b, 0, n).tensors))
  {
    var m := |run| - 1;
    var b := run[m].layer;
    PendingComplete(run, b, blocks, n);
    ProperPrefix(run, m, blocks, n);
    PendingComplete(run[..m], b, blocks, n);
    if Arrived(run, b) == n * MATRICES {
      EmissionOfAll(Pending(run, b), b, 0, n);
      var left := TakeMatrices(Pending(run, b), b, 0, n).left;
      assert left.Keys == {};
    }
  }

  // ---------------------------------------------------------------- main results

  /** Three stacks, slot x of matrix w holding the tensor that arrived under that name. */
  ghost predicate StacksOf<T>(tensors: seq<Merged<T>>, run: seq<Arrival<T>>, b: nat, n: nat) {
    && |tensors| == MATRICES
    && (forall w :: 0 <= w < MATRICES ==> tensors[w].layer == b && tensors[w].matrix == w && |tensors[w].stack| == n)
    && (forall i :: 0 <= i < |run| && run[i].layer == b && run[i].matrix < MATRICES && run[i].expert < n ==>
          tensors[run[i].matrix].stack[run[i].expert] == run[i].data)
    && (forall w, x :: 0 <= w < MATRICES && 0 <= x < n ==>
          exists i :: 0 <= i < |run| && run[i].Key() == Expert(b, x, w))
  }

  /**
    In any order of arrival, an arrival returns nothing until its layer is complete, and then the
    three stacks with every expert of the layer in its own slot.
   */
  lemma ArrivalReturns<T>(run: seq<Arrival<T>>, i: nat, blocks: nat, n: nat)
    requires ProperRun(run, blocks, n) && i < |run|
    ensures var b := run[i].layer;
            var r := Returned(run, i, blocks, n);
            && r.Ok?
            && (Arrived(run[..i + 1], b) < n * MATRICES ==> r.value == [])
            && (Arrived(run[..i + 1], b) == n * MATRICES ==> StacksOf(r.value, run[..i + 1], b, n))
            && Arrived(run[..i + 1], b) <= n * MATRICES
  {
    hide Arrived, HeldAfter, Pending, TakeMatrices, StacksOf, Returned;
    var upTo := run[..i + 1];
    var b := run[i].layer;
    ProperPrefix(run, i + 1, blocks, n);
    ProperPrefix(run, i, blocks, n);
    assert upTo[..i] == run[..i];
    HeldIsPending(run[..i], b, blocks, n);
    ArrivalStep(upTo, blocks, n);
    PendingComplete(upTo, b, blocks, n);
    ReturnedPrefix(run, i, blocks, n);
    if Arrived(upTo, b) == n * MATRICES {
      CompleteStacks(upTo, b, blocks, n);
    }
  }

  lemma ReturnedPrefix<T>(run: seq<Arrival<T>>, i: nat, blocks: nat, n: nat)
    requires i < |run|
    ensures Returned(run[..i + 1], i, blocks, n) == Returned(run, i, blocks, n)
  {
    assert run[..i + 1][..i] == run[..i];
  }

  lemma CompleteStacks<T>(run: seq<Arrival<T>>, b: nat, blocks: nat, n: nat)
    requires ProperRun(run, blocks, n) && n > 0 && Arrived(run, b) == n * MATRICES
    ensures StacksOf(TakeMatrices(Pending(run, b), b, 0, n).tensors, run, b, n)
  {
    hide Arrived, Pending, TakeMatrices, IsStack, LayerNames, ProperRun;
    PendingComplete(run, b, blocks, n);
    PendingIs(run, b, blocks, n);
    forall w: int, x: int | 0 <= w < MATRICES && 0 <= x < n
      ensures Expert(b, x, w) in Pending(run, b)
    {
      NameOfLayer(b, n, x, w);
    }
    EmissionOfAll(Pending(run, b), b, 0, n);
    var tensors := TakeMatrices(Pending(run, b), b, 0, n).tensors;
    forall w: int | 0 <= w < MATRICES
      ensures tensors[w].layer == b && tensors[w].matrix == w && |tensors[w].stack| == n
    {
      StackParts(tensors[w], Pending(run, b), b, w, n);
    }
    forall i | 0 <= i < |run| && run[i].layer == b && run[i].matrix < MATRICES && run[i].expert < n
      ensures tensors[run[i].matrix].stack[run[i].expert] == run[i].data
    {
      SlotOf(tensors[run[i].matrix], Pending(run, b), b, run[i].matrix, n, run[i].expert);
      assert run[i].Key() == Expert(b, run[i].expert, run[i].matrix);
    }
  }

  lemma NameOfLayer(b: nat, n: nat, x: int, w: int)
    requires 0 <= x < n && 0 <= w < MATRICES
    ensures Expert(b, x, w) in LayerNames(b, n)
  {
  }

  lemma StackParts<T>(m: Merged<T>, d: map<Name, T>, b: nat, w: nat, n: nat)
    requires IsStack(m, d, b, w, n)
    ensures m.layer == b && m.matrix == w && |m.stack| == n
  {
  }

  lemma SlotOf<T>(m: Merged<T>, d: map<Name, T>, b: nat, w: nat, n: nat, y: nat)
    requires IsStack(m, d, b, w, n) && y < n
    ensures |m.stack| == n && Expert(b, y, w) in d && m.stack[y] == d[Expert(b, y, w)]
  {
  }

  lemma {:induction false} ArrivedGrows<T>(run: seq<Arrival<T>>, b: nat, i: nat, j: nat)
    requires i <= j <= |run|
    ensures Arrived(run[..i], b) <= Arrived(run[..j], b)
    ensures i < j && run[j - 1].layer == b ==> Arrived(run[..i], b) < Arrived(run[..j], b)
    decreases j
  {
    if i < j {
      assert run[..j][..j - 1] == run[..j - 1];
      ArrivedGrows(run, b, i, j - 1);
    }
  }

  lemma {:induction false} CompletingArrival<T>(run: seq<Arrival<T>>, b: nat, total: nat) returns (i: nat)
    requires total > 0 && Arrived(run, b) == total
    ensures i < |run| && run[i].layer == b && Arrived(run[..i + 1], b) == total
  {
    var m := |run| - 1;
    if run[m].layer == b {
      i := m;
      assert run[..m + 1] == run;
    } else {
      i := CompletingArrival(run[..m], b, total);
      assert run[..m][..i + 1] == run[..i + 1];
    }
  }

  /** A layer whose tensors have all arrived is emitted by exactly one arrival, the last of them. */
  lemma EmittedExactlyOnce<T>(run: seq<Arrival<T>>, b: nat, blocks: nat, n: nat)
    requires ProperRun(run, blocks, n) && n > 0 && Arrived(run, b) == n * MATRICES
    ensures exists i :: 0 <= i < |run| && run[i].layer == b && Returned(run, i, blocks, n) != Ok([])
    ensures forall i, j :: 0 <= i < j < |run| && run[i].layer == b && run[j].layer == b ==>
              Returned(run, i, blocks, n) == Ok([])
  {
    hide Arrived, Returned, ProperRun;
    var i := CompletingArrival(run, b, n * MATRICES);
    ArrivalReturns(run, i, blocks, n);
    forall i, j | 0 <= i < j < |run| && run[i].layer == b && run[j].layer == b
      ensures Returned(run, i, blocks, n) == Ok([])
    {
      ArrivedGrows(run, b, i + 1, j + 1);
      ArrivalReturns(run, j, blocks, n);
      ArrivalReturns(run, i, blocks, n);
    }
  }

  /** Some, but not all, tensors of layer b have arrived. */
  ghost predicate Unfinished<T>(run: seq<Arrival<T>>, b: nat, n: nat) {
    0 < Arrived(run, b) < n * MATRICES
  }

  /** Layer b still holds tensors after the run. */
  ghost predicate Leftover<T>(run: seq<Arrival<T>>, b: nat, blocks: nat, n: nat) {
    b < blocks && HeldAfter(run, blocks, n)[b] != map[]
  }

  /** The final check fails exactly when some layer was started but not completed. */
  lemma FinalCheck<T>(run: seq<Arrival<T>>, blocks: nat, n: nat)
    requires ProperRun(run, blocks, n)
    ensures (exists b: nat :: Leftover(run, b, blocks, n)) <==> (exists b: nat :: b < blocks && Unfinished(run, b, n))
  {
    forall b: nat
      ensures Leftover(run, b, blocks, n) <==> b < blocks && Unfinished(run, b, n)
    {
      if b < blocks {
        HeldIffStarted(run, b, blocks, n);
      }
    }
    hide Leftover, Unfinished, ProperRun;
    if b: nat :| Leftover(run, b, blocks, n) {
      assert Unfinished(run, b, n);
    }
    if b: nat :| b < blocks && Unfinished(run, b, n) {
      assert Leftover(run, b, blocks, n);
    }
  }

  lemma HeldIffStarted<T>(run: seq<Arrival<T>>, b: nat, blocks: nat, n: nat)
    requires ProperRun(run, blocks, n) && b < blocks
    ensures HeldAfter(run, blocks, n)[b] != map[] <==> 0 < Arrived(run, b) < n * MATRICES
  {
    hide HeldAfter, Arrived, ProperRun, Pending;
    HeldIsPending(run, b, blocks, n);
    PendingComplete(run, b, blocks, n);
  }

  /** The converter's pass over a checkpoint: every tensor in the order of arrival, then the check. */
  method ConvertAll<T>(merger: ExpertMerger<T>, run: seq<Arrival<T>>)
    returns (emitted: seq<seq<Merged<T>>>, final: Result<(), ExpertError>)
    requires merger.Valid() && merger.experts == None && ProperRun(run, merger.blockCount, merger.nExperts)
    modifies merger
    ensures |emitted| == |run|
    ensures forall i :: 0 <= i < |run| ==> Returned(run, i, merger.blockCount, merger.nExperts) == Ok(emitted[i])
    ensures final.Err? <==> exists b: nat :: b < merger.blockCount && Unfinished(run, b, merger.nExperts)
  {
    hide Arrived, Arrive, TakeMatrices, ProperRun, Unfinished;
    var blocks, n := merger.blockCount, merger.nExperts;
    emitted := [];
    for i := 0 to |run|
      invariant merger.Valid() && merger.Current() == HeldAfter(run[..i], blocks, n)
      invariant |emitted| == i
      invariant forall j :: 0 <= j < i ==> Returned(run, j, blocks, n) == Ok(emitted[j])
    {
      ArrivalReturns(run, i, blocks, n);
      assert run[..i + 1][..i] == run[..i];
      var r := merger.ModifyTensors(run[i].data, run[i].Key(), Some(run[i].layer));
      emitted := emitted + [r.value];
    }
    assert run[..|run|] == run;
    FinalCheck(run, blocks, n);
    ghost var held := HeldAfter(run, blocks, n);
    final := merger.PrepareTensors();
    assert merger.Current() == held;
    assert final.Err? <==> exists b :: 0 <= b < blocks && held[b] != map[];
    assert forall b: nat :: Leftover(run, b, blocks, n) <==> b < blocks && held[b] != map[];
  }
}
