/** Sequence helpers shared by the processor's history and the gateway's buffers. */
module Sequences {

  function Min(a: int, b: int): int { if a <= b then a else b }

  /**
   * A bounded append: `x` goes at the end and only the newest `cap` elements are
   * kept, as a `deque` with `maxlen` or an append followed by `[-cap:]` does.
   */
  function KeepNewest<T>(xs: seq<T>, x: T, cap: nat): (r: seq<T>)
    requires cap > 0
    ensures |r| == Min(cap, |xs| + 1)
    ensures r == (xs + [x])[|xs| + 1 - |r|..]
    ensures r[|r| - 1] == x
  {
    var appended := xs + [x];
    if |appended| > cap then appended[|appended| - cap..] else appended
  }

  /** The newest `cap` elements of `xs`, or all of them when there are fewer. */
  function Newest<T>(xs: seq<T>, cap: nat): (r: seq<T>)
    ensures |r| == Min(cap, |xs|)
    ensures forall i :: 0 <= i < |r| ==> r[i] == xs[|xs| - |r| + i]
  {
    xs[|xs| - Min(cap, |xs|)..]
  }

  /** Bounded appends of every element of `ys` in turn. */
  function KeepAll<T>(xs: seq<T>, ys: seq<T>, cap: nat): seq<T>
    requires cap > 0
    decreases |ys|
  {
    if |ys| == 0 then xs else KeepNewest(KeepAll(xs, ys[..|ys| - 1], cap), ys[|ys| - 1], cap)
  }

  /** Appending `x` to the newest `cap` elements of `xs` gives the newest `cap` of `xs + [x]`. */
  lemma KeepNewestOfNewest<T>(xs: seq<T>, x: T, cap: nat)
    requires cap > 0
    ensures KeepNewest(Newest(xs, cap), x, cap) == Newest(xs + [x], cap)
  {
    if |xs| < cap {
      assert Newest(xs, cap) == xs;
      assert Newest(xs + [x], cap) == xs + [x];
    } else {
      var k := |xs| - cap;
      assert Newest(xs, cap) == xs[k..];
      assert KeepNewest(xs[k..], x, cap) == (xs[k..] + [x])[1..];
      assert (xs[k..] + [x])[1..] == (xs + [x])[k + 1..];
    }
  }

  /** `xs + ys` is `xs` followed by all but the last of `ys`, then that last element. */
  lemma SplitLast<T>(xs: seq<T>, ys: seq<T>)
    requires |ys| > 0
    ensures xs + ys == (xs + ys[..|ys| - 1]) + [ys[|ys| - 1]]
  {
    assert ys == ys[..|ys| - 1] + [ys[|ys| - 1]];
  }

  /**
   * However many bounded appends follow one another, the result is the newest `cap`
   * elements of everything appended, as long as the start held at most `cap`.
   */
  lemma {:induction false} KeepAllIsNewest<T>(xs: seq<T>, ys: seq<T>, cap: nat)
    requires cap > 0 && |xs| <= cap
    ensures KeepAll(xs, ys, cap) == Newest(xs + ys, cap)
    decreases |ys|
  {
    if |ys| == 0 {
      assert xs + ys == xs;
    } else {
      var init, y := ys[..|ys| - 1], ys[|ys| - 1];
      KeepAllIsNewest(xs, init, cap);
      KeepNewestOfNewest(xs + init, y, cap);
      SplitLast(xs, ys);
    }
  }
}
