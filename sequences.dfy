/**
 * Facts about sequences shared by several components: the bounded window kept
 * by a `deque(maxlen=k)` and by the training loop's list of recent episodes,
 * and the size of the set of a sequence without repeats.
 */
module Sequences {

  /** The last `min(|s|, k)` elements of `s`, in their original order. */
  function Window<T>(s: seq<T>, k: nat): seq<T>
  {
    if |s| <= k then s else s[|s| - k..]
  }

  /** Appending to a full window drops its oldest element and nothing else. */
  function Push<T>(window: seq<T>, x: T, k: nat): (r: seq<T>)
    requires 0 < k && |window| <= k
    ensures |r| <= k
    ensures r == Window(window + [x], k)
  {
    if |window| == k then window[1..] + [x] else window + [x]
  }

  /** Pushing the elements of `xs` one at a time, starting from `window`. */
  function PushAll<T>(window: seq<T>, xs: seq<T>, k: nat): (r: seq<T>)
    requires 0 < k && |window| <= k
    ensures |r| <= k
    decreases |xs|
  {
    if xs == [] then window else PushAll(Push(window, xs[0], k), xs[1..], k)
  }

  /**
   * A window that is kept by pushing one element at a time always holds the
   * last k elements ever pushed: after k + 1 pushes the first one is gone.
   */
  lemma {:induction false} PushAllIsWindow<T>(window: seq<T>, xs: seq<T>, k: nat, history: seq<T>)
    requires 0 < k && |window| <= k && window == Window(history, k)
    ensures PushAll(window, xs, k) == Window(history + xs, k)
    decreases |xs|
  {
    if xs != [] {
      var w' := Push(window, xs[0], k);
      WindowOfWindow(history, xs[0], k);
      assert history + xs == (history + [xs[0]]) + xs[1..];
      PushAllIsWindow(w', xs[1..], k, history + [xs[0]]);
    }
  }

  lemma WindowOfWindow<T>(history: seq<T>, x: T, k: nat)
    requires 0 < k
    ensures Window(Window(history, k) + [x], k) == Window(history + [x], k)
  {
    var w := Window(history, k);
    if |history| > k {
      assert w + [x] == (history + [x])[|history| - k..];
      assert (w + [x])[1..] == (history + [x])[|history| + 1 - k..];
    }
  }

  /** No element occurs twice. */
  predicate Distinct<T(==)>(s: seq<T>)
  {
    forall i, j :: 0 <= i < j < |s| ==> s[i] != s[j]
  }

  function Elements<T(==)>(s: seq<T>): set<T>
  {
    set x | x in s
  }

  /** Appending a new element keeps a sequence without repeats and adds the element to its set. */
  lemma DistinctSnoc<T>(s: seq<T>, x: T)
    requires Distinct(s) && x !in Elements(s)
    ensures Distinct(s + [x]) && Elements(s + [x]) == Elements(s) + {x}
  {
  }

  /** A sequence without repeats has as many elements as its set. */
  lemma {:induction false} DistinctCard<T>(s: seq<T>)
    requires Distinct(s)
    ensures |Elements(s)| == |s|
  {
    if s != [] {
      var init := s[..|s| - 1];
      assert Distinct(init);
      DistinctCard(init);
      assert Elements(s) == Elements(init) + {s[|s| - 1]};
      assert s[|s| - 1] !in Elements(init);
    }
  }
}
