/**
A bounded first-in-first-out window of real samples, the state behind a
moving-window indicator such as a simple moving average or a standard
deviation over the last `capacity` inputs.

Once the window is full, every insert evicts the oldest sample, so the window
always holds the most recent `min(count, capacity)` inputs in insertion order.
*/
module RollingWindow {

  datatype Window = Window(capacity: nat, samples: seq<real>)

  /** A window has room for at least one sample and never holds more than it may. */
  predicate Valid(w: Window) {
    0 < w.capacity && |w.samples| <= w.capacity
  }

  /** A window of the given capacity that has seen no input yet. */
  function Empty(capacity: nat): (w: Window)
    requires 0 < capacity
    ensures Valid(w) && w.capacity == capacity && |w.samples| == 0
  {
    Window(capacity, [])
  }

  /** The trailing `n` elements of `s`, or all of `s` when it is shorter. */
  function LastN(s: seq<real>, n: nat): (r: seq<real>)
    ensures |r| == if |s| < n then |s| else n
  {
    if |s| <= n then s else s[|s| - n..]
  }

  /** Inserts one sample, evicting the oldest one when the window is full. */
  function Push(w: Window, x: real): (r: Window)
    requires Valid(w)
    ensures Valid(r) && r.capacity == w.capacity
    ensures |r.samples| > 0 && r.samples[|r.samples| - 1] == x
    ensures r.samples == LastN(w.samples + [x], w.capacity)
  {
    if |w.samples| < w.capacity then Window(w.capacity, w.samples + [x])
    else Window(w.capacity, w.samples[1..] + [x])
  }

  /** Taking the trailing `n` of a suffix that is itself at least that long changes nothing. */
  lemma LastNOfLongSuffix(u: seq<real>, j: nat, n: nat)
    requires j <= |u|
    requires |u| - j >= (if |u| < n then |u| else n)
    ensures LastN(u[j..], n) == LastN(u, n)
  {
    var t := u[j..];
    var k := |LastN(u, n)|;
    assert |LastN(t, n)| == k;
    assert t[|t| - k..] == u[|u| - k..];
  }

  /** Trimming a window early does not change which samples survive later inserts. */
  lemma LastNOfLastN(a: seq<real>, b: seq<real>, n: nat)
    ensures LastN(LastN(a, n) + b, n) == LastN(a + b, n)
  {
    var a' := LastN(a, n);
    var j := |a| - |a'|;
    assert (a + b)[j..] == a' + b;
    LastNOfLongSuffix(a + b, j, n);
  }

  /** Inserts every element of `xs`, first element first. */
  function Feed(w: Window, xs: seq<real>): (r: Window)
    requires Valid(w)
    ensures Valid(r) && r.capacity == w.capacity
    decreases |xs|
  {
    if |xs| == 0 then w else Feed(Push(w, xs[0]), xs[1..])
  }

  /** After any run of inserts the window holds exactly the most recent inputs, in order. */
  lemma {:induction false} FeedKeepsMostRecent(w: Window, xs: seq<real>)
    requires Valid(w)
    ensures Feed(w, xs).samples == LastN(w.samples + xs, w.capacity)
    decreases |xs|
  {
    if |xs| == 0 {
      assert w.samples + xs == w.samples;
    } else {
      var a := w.samples + [xs[0]];
      var rest := xs[1..];
      var w' := Push(w, xs[0]);
      assert Feed(w, xs) == Feed(w', rest);
      FeedKeepsMostRecent(w', rest);
      assert w'.samples == LastN(a, w.capacity);
      LastNOfLastN(a, rest, w.capacity);
      assert a + rest == w.samples + xs;
    }
  }

  /** A run of at least `capacity` inserts evicts everything the window held before it. */
  lemma LongRunForgetsOldSamples(w: Window, xs: seq<real>)
    requires Valid(w)
    requires |xs| >= w.capacity
    ensures Feed(w, xs).samples == xs[|xs| - w.capacity..]
  {
    FeedKeepsMostRecent(w, xs);
    var u := w.samples + xs;
    var j := |w.samples|;
    assert u[j..] == xs;
    LastNOfLongSuffix(u, j, w.capacity);
    if |xs| == w.capacity {
      assert xs[0..] == xs;
    }
  }

  /** While the window has room, every input is retained: nothing is reset or evicted. */
  lemma ShortRunKeepsEverything(w: Window, xs: seq<real>)
    requires Valid(w)
    requires |w.samples| + |xs| <= w.capacity
    ensures Feed(w, xs).samples == w.samples + xs
  {
    FeedKeepsMostRecent(w, xs);
  }

  function Sum(s: seq<real>): (total: real)
    decreases |s|
  {
    if |s| == 0 then 0.0 else s[0] + Sum(s[1..])
  }

  /** The arithmetic mean of the samples; an indicator that has seen nothing reads 0. */
  function Mean(s: seq<real>): (mean: real) {
    if |s| == 0 then 0.0 else Sum(s) / (|s| as real)
  }

  lemma {:induction false} SumAtLeast(s: seq<real>, lo: real)
    requires forall i :: 0 <= i < |s| ==> lo <= s[i]
    ensures (|s| as real) * lo <= Sum(s)
    decreases |s|
  {
    if |s| > 0 {
      assert forall i :: 0 <= i < |s[1..]| ==> s[1..][i] == s[i + 1];
      SumAtLeast(s[1..], lo);
    }
  }

  lemma {:induction false} SumAtMost(s: seq<real>, hi: real)
    requires forall i :: 0 <= i < |s| ==> s[i] <= hi
    ensures Sum(s) <= (|s| as real) * hi
    decreases |s|
  {
    if |s| > 0 {
      assert forall i :: 0 <= i < |s[1..]| ==> s[1..][i] == s[i + 1];
      SumAtMost(s[1..], hi);
    }
  }

  /** The mean of a non-empty window is no smaller than its smallest sample. */
  lemma MeanAtLeastLowerBound(s: seq<real>, lo: real)
    requires |s| > 0
    requires forall i :: 0 <= i < |s| ==> lo <= s[i]
    ensures lo <= Mean(s)
  {
    SumAtLeast(s, lo);
    var n := |s| as real;
    assert Mean(s) * n == Sum(s);
  }

  /** The mean of a non-empty window is no larger than its largest sample. */
  lemma MeanAtMostUpperBound(s: seq<real>, hi: real)
    requires |s| > 0
    requires forall i :: 0 <= i < |s| ==> s[i] <= hi
    ensures Mean(s) <= hi
  {
    SumAtMost(s, hi);
    var n := |s| as real;
    assert Mean(s) * n == Sum(s);
  }

  /** A window holding one value throughout has that value as its mean. */
  lemma MeanOfConstant(s: seq<real>, c: real)
    requires |s| > 0
    requires forall i :: 0 <= i < |s| ==> s[i] == c
    ensures Mean(s) == c
  {
    MeanAtLeastLowerBound(s, c);
    MeanAtMostUpperBound(s, c);
  }
}
