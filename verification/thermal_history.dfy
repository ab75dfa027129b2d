/** The worker's `thermal_history` deque: 120 entries, each new sample appended
    on the right and the oldest popped from the left. */
module ThermalHistory {

  /** Entries kept. */
  const Capacity := 120

  /** A history entry: the integer 0 the deque is created with, or a formatted
      sample of type S pushed later. */
  datatype Entry<S> = Zero | Sample(text: S)

  /** `deque([0] * 120)`, with `zero` standing for the integer 0. */
  function Initial<T>(zero: T): (h: seq<T>)
    ensures |h| == Capacity
    ensures forall i :: 0 <= i < |h| ==> h[i] == zero
  {
    seq(Capacity, _ => zero)
  }

  /** `append(x)` followed by `popleft()`. On an empty deque the pop removes
      the element just appended. */
  function Push<T>(h: seq<T>, x: T): (r: seq<T>)
    ensures |r| == |h|
    ensures |h| > 0 ==> r[|r| - 1] == x && r[..|r| - 1] == h[1..]
    ensures |h| == 0 ==> r == []
  {
    (h + [x])[1..]
  }

  /** The history after pushing the samples `xs` in arrival order. */
  function PushAll<T>(h: seq<T>, xs: seq<T>): (r: seq<T>)
    ensures |r| == |h|
    decreases |xs|
  {
    if |xs| == 0 then h else PushAll(Push(h, xs[0]), xs[1..])
  }

  /** Pushing is a sliding window over the old history followed by the new
      samples: only the last |h| of them are kept. */
  lemma {:induction false} PushAllWindow<T>(h: seq<T>, xs: seq<T>)
    ensures PushAll(h, xs) == (h + xs)[|xs|..]
    decreases |xs|
  {
    if |xs| > 0 {
      var h' := Push(h, xs[0]);
      PushAllWindow(h', xs[1..]);
      if |h| == 0 {
        assert h' == [];
        assert (h + xs)[|xs|..] == [];
        assert (h' + xs[1..])[|xs| - 1..] == [];
      } else {
        assert h' == (h + [xs[0]])[1..];
        assert h' + xs[1..] == (h + xs)[1..];
      }
    }
  }

  /** Up to capacity, the pushed samples occupy the newest slots in arrival
      order and the older entries move left. */
  lemma {:induction false} PushAllFewSamples<T>(h: seq<T>, xs: seq<T>)
    requires |xs| <= |h|
    ensures PushAll(h, xs) == h[|xs|..] + xs
  {
    PushAllWindow(h, xs);
    assert (h + xs)[|xs|..] == h[|xs|..] + xs;
  }

  /** Beyond capacity, the history holds exactly the |h| most recent samples. */
  lemma {:induction false} PushAllManySamples<T>(h: seq<T>, xs: seq<T>)
    requires |xs| >= |h|
    ensures PushAll(h, xs) == xs[|xs| - |h|..]
  {
    PushAllWindow(h, xs);
    assert (h + xs)[|xs|..] == xs[|xs| - |h|..];
  }

  /** From the initial history, n <= 120 samples leave 120 - n zeros
      followed by the samples in arrival order. */
  lemma {:induction false} InitialHistoryAfterSamples<S>(xs: seq<Entry<S>>)
    requires |xs| <= Capacity
    ensures PushAll(Initial(Zero), xs) == seq(Capacity - |xs|, _ => Zero) + xs
  {
    PushAllFewSamples(Initial(Zero), xs);
    assert Initial<Entry<S>>(Zero)[|xs|..] == seq(Capacity - |xs|, _ => Zero);
  }
}
