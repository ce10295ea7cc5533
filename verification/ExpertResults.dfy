/** What one arrival does, whatever it is called and whatever its layer holds. */
module ExpertResults {
  import opened Wrappers
  import opened Experts

  /** All experts of all matrices are there. */
  ghost predicate AllThere<T>(d: map<Name, T>, layer: int, n: nat) {
    forall w, x :: 0 <= w < MATRICES && 0 <= x < n ==> Expert(layer, x, w) in d
  }

  /** Matrix w of expert x comes before matrix v of expert y: matrix by matrix, expert by expert. */
  predicate Before(x: int, w: int, y: int, v: int) {
    w < v || (w == v && x < y)
  }

  /** Expert x of matrix w is the first one that is not there. */
  ghost predicate FirstMissing<T>(d: map<Name, T>, layer: int, n: nat, x: int, w: int) {
    && 0 <= w < MATRICES && 0 <= x < n && Expert(layer, x, w) !in d
    && forall v, y :: 0 <= v < MATRICES && 0 <= y < n && Before(y, v, x, w) ==> Expert(layer, y, v) in d
  }

  /** What is left of a layer without its experts in front of expert x of matrix w. */
  ghost predicate LeftBefore<T>(left: map<Name, T>, d: map<Name, T>, layer: int, n: nat, x: int, w: int) {
    && (forall k :: k in left <==>
          k in d && !(k.Expert? && k.layer == layer && 0 <= k.matrix && 0 <= k.expert < n && Before(k.expert, k.matrix, x, w)))
    && (forall k :: k in left ==> left[k] == d[k])
  }

  // ---------------------------------------------------------------- one stack

  lemma {:induction false} StackUpTo<T>(d: map<Name, T>, layer: int, w: nat, from: nat, x: nat, n: nat)
    requires from <= x < n && Expert(layer, x, w) !in d
    requires forall y :: from <= y < x ==> Expert(layer, y, w) in d
    ensures var t := TakeStack(d, layer, w, from, n);
            && t.missing
            && (forall k :: k in t.left <==> k in d && !(k.Expert? && k.layer == layer && k.matrix == w && from <= k.expert < x))
            && (forall k :: k in t.left ==> t.left[k] == d[k])
    decreases x - from
  {
    if from < x {
      StackUpTo(d - {Expert(layer, from, w)}, layer, w, from + 1, x, n);
    }
  }

  // ---------------------------------------------------------------- all stacks

  /** Matrix w is complete and goes first; what follows is read from what it leaves. */
  lemma AfterStack<T>(d: map<Name, T>, layer: int, w: nat, n: nat)
    requires w < MATRICES && n > 0 && forall y :: 0 <= y < n ==> Expert(layer, y, w) in d
    ensures var (e, t) := (TakeMatrices(d, layer, w, n), TakeStack(d, layer, w, 0, n));
            && e.left == TakeMatrices(t.left, layer, w + 1, n).left && e.error == TakeMatrices(t.left, layer, w + 1, n).error
            && (forall k :: k in t.left <==> k in d && !(k.Expert? && k.layer == layer && k.matrix == w && 0 <= k.expert < n))
            && (forall k :: k in t.left ==> t.left[k] == d[k])
  {
    StackOfAll(d, layer, w, 0, n);
    hide TakeStack;
  }

  /** The names of matrices from w on. */
  ghost predicate LeftFrom<T>(left: map<Name, T>, d: map<Name, T>, layer: int, n: nat, from: nat, x: int, w: int) {
    && (forall k :: k in left <==>
          k in d && !(k.Expert? && k.layer == layer && from <= k.matrix && 0 <= k.expert < n && Before(k.expert, k.matrix, x, w)))
    && (forall k :: k in left ==> left[k] == d[k])
  }

  lemma {:induction false} MissingFrom<T>(d: map<Name, T>, layer: int, from: nat, n: nat, x: nat, w: nat)
    requires from <= w < MATRICES && x < n && Expert(layer, x, w) !in d
    requires forall v, y :: from <= v < MATRICES && 0 <= y < n && Before(y, v, x, w) ==> Expert(layer, y, v) in d
    ensures var e := TakeMatrices(d, layer, from, n);
            e.error == Some(MissingExpert) && LeftFrom(e.left, d, layer, n, from, x, w)
    decreases w - from
  {
    if from < w {
      forall y | 0 <= y < n
        ensures Expert(layer, y, from) in d
      {
        assert Before(y, from, x, w);
      }
      AfterStack(d, layer, from, n);
      MissingFrom(TakeStack(d, layer, from, 0, n).left, layer, from + 1, n, x, w);
    } else {
      forall y | 0 <= y < x
        ensures Expert(layer, y, w) in d
      {
        assert Before(y, w, x, w);
      }
      StackUpTo(d, layer, w, 0, x, n);
    }
  }

  lemma {:induction false} LeftOfAll<T>(d: map<Name, T>, layer: int, from: nat, n: nat)
    requires from <= MATRICES && n > 0 && forall v, y :: from <= v < MATRICES && 0 <= y < n ==> Expert(layer, y, v) in d
    ensures LeftFrom(TakeMatrices(d, layer, from, n).left, d, layer, n, from, 0, MATRICES)
    decreases MATRICES - from
  {
    if from < MATRICES {
      AfterStack(d, layer, from, n);
      LeftOfAll(TakeStack(d, layer, from, 0, n).left, layer, from + 1, n);
    }
  }

  lemma Missing<T>(d: map<Name, T>, layer: int, n: nat) returns (x: int, w: int)
    requires !AllThere(d, layer, n)
    ensures FirstMissing(d, layer, n, x, w)
  {
    w := 0;
    while forall y :: 0 <= y < n ==> Expert(layer, y, w) in d
      invariant 0 <= w < MATRICES && forall v, y :: 0 <= v < w && 0 <= y < n ==> Expert(layer, y, v) in d
      decreases MATRICES - w
    {
      if w + 1 == MATRICES {
        assert AllThere(d, layer, n);
      }
      w := w + 1;
    }
    x := 0;
    while Expert(layer, x, w) in d
      invariant 0 <= x < n && forall y :: 0 <= y < x ==> Expert(layer, y, w) in d
      decreases n - x
    {
      x := x + 1;
    }
  }

  // ---------------------------------------------------------------- one arrival

  /** The tensors that layer b then holds, and what is returned. */
  ghost predicate ArrivalIs<T>(held: Held<T>, b: nat, o: Outcome<T>, left: map<Name, T>,
                               result: Result<seq<Merged<T>>, ExpertError>)
    requires b < |held|
  {
    |o.held| == |held| && o.held[b] == left && o.result == result
    && forall c :: 0 <= c < |held| && c != b ==> o.held[c] == held[c]
  }

  /** Three stacks of a layer's experts, which are no longer held; everything else stays. */
  ghost predicate Emitted<T>(d: map<Name, T>, layer: int, n: nat, tensors: seq<Merged<T>>, left: map<Name, T>) {
    && |tensors| == MATRICES && (forall w :: 0 <= w < MATRICES ==> IsStack(tensors[w], d, layer, w, n))
    && (forall k :: k in left <==> k in d && !(k.Expert? && k.layer == layer && 0 <= k.matrix < MATRICES && 0 <= k.expert < n))
    && (forall k :: k in left ==> left[k] == d[k])
  }

  /** A block number outside the blocks, counted from either end, is an error that changes nothing. */
  lemma ArrivalOutside<T>(held: Held<T>, n: nat, name: Name, bid: int, data: T)
    requires bid >= |held| || bid < -|held|
    ensures Arrive(held, n, name, bid, data) == Outcome(held, Err(BadLayer))
  {
  }

  /**
    An arrival is held under its name in its own block, which a negative number counts from the last
    one. With three tensors per expert held, the stacks are made and their parts let go; the first
    expert that is not there stops that, with everything before it gone.
   */
  lemma ArrivalInside<T>(held: Held<T>, n: nat, name: Name, bid: int, data: T, b: nat)
    requires b < |held| && (bid == b || bid == b - |held|)
    ensures var (d, o) := (held[b][name := data], Arrive(held, n, name, bid, data));
            && (|d| < 3 * n ==> ArrivalIs(held, b, o, d, Ok([])))
            && (n == 0 ==> ArrivalIs(held, b, o, d, Err(EmptyStack)))
            && (|d| >= 3 * n > 0 && AllThere(d, bid, n) ==>
                  o.result.Ok? && ArrivalIs(held, b, o, o.held[b], o.result) && Emitted(d, bid, n, o.result.value, o.held[b]))
            && (|d| >= 3 * n > 0 && !AllThere(d, bid, n) ==>
                  ArrivalIs(held, b, o, o.held[b], Err(MissingExpert))
                  && exists x, w :: FirstMissing(d, bid, n, x, w) && LeftBefore(o.held[b], d, bid, n, x, w))
  {
    hide TakeStack;
    var d := held[b][name := data];
    ArriveInRange(held, n, name, bid, data);
    if n == 0 {
      NoExperts(d, bid);
    } else if |d| >= 3 * n {
      StacksOrError(d, bid, n);
    }
  }

  lemma NoExperts<T>(d: map<Name, T>, layer: int)
    ensures TakeMatrices(d, layer, 0, 0) == Emission([], d, Some(EmptyStack))
  {
  }

  lemma StacksOrError<T>(d: map<Name, T>, layer: int, n: nat)
    requires n > 0
    ensures var e := TakeMatrices(d, layer, 0, n);
            && (AllThere(d, layer, n) ==> e.error.None? && Emitted(d, layer, n, e.tensors, e.left))
            && (!AllThere(d, layer, n) ==>
                  e.error == Some(MissingExpert)
                  && exists x, w :: FirstMissing(d, layer, n, x, w) && LeftBefore(e.left, d, layer, n, x, w))
  {
    if AllThere(d, layer, n) {
      EmissionOfAll(d, layer, 0, n);
      LeftOfAll(d, layer, 0, n);
    } else {
      var x, w := Missing(d, layer, n);
      MissingFrom(d, layer, 0, n, x, w);
      assert LeftBefore(TakeMatrices(d, layer, 0, n).left, d, layer, n, x, w);
    }
  }
}
