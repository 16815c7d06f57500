/** Simple moving averages over a series of closing prices (`Close` column).
    A window of `w` rows has a mean only once `w` rows of history exist; before
    that the value is `None`, where pandas stores NaN. Prices are exact reals. */
module MovingAverage {
  import opened Wrappers

  /** Sum of a sequence of prices, accumulated left to right. */
  function Sum(s: seq<real>): real
  {
    if |s| == 0 then 0.0 else Sum(s[..|s| - 1]) + s[|s| - 1]
  }

  lemma {:induction false} SumConcat(a: seq<real>, b: seq<real>)
    ensures Sum(a + b) == Sum(a) + Sum(b)
    decreases |b|
  {
    if |b| == 0 {
      assert a + b == a;
    } else {
      assert (a + b)[..|a + b| - 1] == a + b[..|b| - 1];
      SumConcat(a, b[..|b| - 1]);
    }
  }

  /** Dropping the oldest element of a window subtracts it from the sum. */
  lemma {:induction false} SumHead(s: seq<real>)
    requires |s| > 0
    ensures Sum(s) == s[0] + Sum(s[1..])
  {
    assert s == [s[0]] + s[1..];
    SumConcat([s[0]], s[1..]);
    SumSingleton(s[0]);
  }

  lemma SumSingleton(x: real)
    ensures Sum([x]) == x
  {
    assert [x][..0] == [];
  }

  /** The `w` closes ending at row `i`, both ends included. */
  function Window(closes: seq<real>, w: nat, i: nat): (r: seq<real>)
    requires 1 <= w <= i + 1 <= |closes|
    ensures |r| == w
  {
    closes[i + 1 - w..i + 1]
  }

  /** The exact mean of the `w` closes ending at row `i`. */
  function Mean(closes: seq<real>, w: nat, i: nat): real
    requires 1 <= w <= i + 1 <= |closes|
  {
    Sum(Window(closes, w, i)) / (w as real)
  }

  /** The rolling mean at row `i`: undefined while fewer than `w` rows exist. */
  function MeanAt(closes: seq<real>, w: nat, i: nat): Option<real>
    requires 1 <= w && i < |closes|
  {
    if i + 1 < w then None else Some(Mean(closes, w, i))
  }

  /** `calculate_moving_average`: `Close.rolling(window).mean()`, defined the
      way the rows arrive, one new value per appended close. */
  function CalculateMovingAverage(closes: seq<real>, window: nat): (r: seq<Option<real>>)
    requires window >= 1
    ensures |r| == |closes|
    ensures forall i :: 0 <= i < |r| ==> r[i] == MeanAt(closes, window, i)
    ensures forall i :: 0 <= i < |r| ==> (r[i].None? <==> i < window - 1)
    ensures forall i :: window - 1 <= i < |r| ==> r[i] == Some(Mean(closes, window, i))
    decreases |closes|
  {
    if |closes| == 0 then []
    else
      var prev := CalculateMovingAverage(closes[..|closes| - 1], window);
      AppendMean(closes, window, prev);
      prev + [MeanAt(closes, window, |closes| - 1)]
  }

  /** The averages of all but the last close, followed by the last row's
      average, are the averages of all the closes. */
  lemma AppendMean(closes: seq<real>, window: nat, prev: seq<Option<real>>)
    requires window >= 1 && |closes| > 0 && |prev| == |closes| - 1
    requires forall i :: 0 <= i < |prev| ==> prev[i] == MeanAt(closes[..|closes| - 1], window, i)
    ensures forall i :: 0 <= i < |closes| ==>
      (prev + [MeanAt(closes, window, |closes| - 1)])[i] == MeanAt(closes, window, i)
  {
    PrefixMeans(closes, window);
  }

  /** First row of the running sum before row `i` is added: the window
      reaches back `window` rows once that much history exists. */
  function Lo(i: nat, window: nat): nat
  {
    if i < window then 0 else i - window
  }

  /** Adding the entering close and, once the window is full, removing the
      leaving one keeps the running sum equal to the window's sum. */
  lemma SlideWindow(closes: seq<real>, window: nat, i: nat, sum: real)
    requires window >= 1 && i < |closes|
    requires sum == Sum(closes[Lo(i, window)..i])
    ensures (if i >= window then sum + closes[i] - closes[i - window] else sum + closes[i])
      == Sum(closes[Lo(i + 1, window)..i + 1])
    ensures i + 1 >= window ==> closes[Lo(i + 1, window)..i + 1] == Window(closes, window, i)
  {
    var lo := Lo(i, window);
    assert closes[lo..i + 1][..i - lo] == closes[lo..i];
    if i >= window {
      SumHead(closes[lo..i + 1]);
      assert closes[lo..i + 1][1..] == closes[lo + 1..i + 1];
    }
  }

  /** Appending a close leaves every earlier window, and so its mean, as it was. */
  lemma PrefixMeans(closes: seq<real>, window: nat)
    requires window >= 1 && |closes| > 0
    ensures forall i :: 0 <= i < |closes| - 1 ==>
      MeanAt(closes[..|closes| - 1], window, i) == MeanAt(closes, window, i)
  {
    var prefix := closes[..|closes| - 1];
    forall i | window - 1 <= i < |prefix|
      ensures Window(prefix, window, i) == Window(closes, window, i)
    {
    }
  }

  /** The O(n) rolling computation: a running sum that gains the entering
      close and loses the close that leaves the window. */
  method RollingMean(closes: seq<real>, window: nat) returns (r: seq<Option<real>>)
    requires window >= 1
    ensures r == CalculateMovingAverage(closes, window)
  {
    r := [];
    var sum := 0.0;
    var i := 0;
    while i < |closes|
      invariant 0 <= i <= |closes|
      invariant |r| == i
      invariant forall k :: 0 <= k < i ==> r[k] == MeanAt(closes, window, k)
      invariant sum == Sum(closes[Lo(i, window)..i])
    {
      SlideWindow(closes, window, i, sum);
      sum := sum + closes[i];
      if i >= window {
        sum := sum - closes[i - window];
      }
      var next := if i + 1 >= window then Some(sum / (window as real)) else None;
      assert next == MeanAt(closes, window, i);
      r := r + [next];
      i := i + 1;
    }
    var m := CalculateMovingAverage(closes, window);
    assert forall k :: 0 <= k < |r| ==> r[k] == m[k];
  }

  /** A series shorter than the window has no defined average at all. */
  lemma ShortSeriesUndefined(closes: seq<real>, window: nat)
    requires window >= 1 && |closes| < window
    ensures forall i :: 0 <= i < |closes| ==> CalculateMovingAverage(closes, window)[i] == None
  {
  }

  /** A window of one reproduces the closes exactly. */
  lemma WindowOneIsIdentity(closes: seq<real>)
    ensures forall i :: 0 <= i < |closes| ==> CalculateMovingAverage(closes, 1)[i] == Some(closes[i])
  {
    forall i | 0 <= i < |closes|
      ensures Mean(closes, 1, i) == closes[i]
    {
      assert Window(closes, 1, i) == [closes[i]];
      SumSingleton(closes[i]);
    }
  }

  /** A window of equal closes sums to their count times the price. */
  lemma {:induction false} SumConstant(s: seq<real>, c: real)
    requires forall k :: 0 <= k < |s| ==> s[k] == c
    ensures Sum(s) == (|s| as real) * c
    decreases |s|
  {
    if |s| > 0 {
      SumConstant(s[..|s| - 1], c);
    }
  }

  /** Every close strictly below `m` keeps a non-empty sum strictly below. */
  lemma {:induction false} SumBelow(s: seq<real>, m: real)
    requires |s| > 0
    requires forall k :: 0 <= k < |s| ==> s[k] < m
    ensures Sum(s) < (|s| as real) * m
    decreases |s|
  {
    if |s| == 1 {
      SumSingleton(s[0]);
      assert s == [s[0]];
    } else {
      SumBelow(s[..|s| - 1], m);
    }
  }

  /** Every close at least `m` keeps the sum at least the count times `m`. */
  lemma {:induction false} SumAtLeast(s: seq<real>, m: real)
    requires forall k :: 0 <= k < |s| ==> s[k] >= m
    ensures Sum(s) >= (|s| as real) * m
    decreases |s|
  {
    if |s| > 0 {
      SumAtLeast(s[..|s| - 1], m);
    }
  }

  /** Over a flat series every defined average equals the price. */
  lemma ConstantMean(closes: seq<real>, c: real, w: nat, i: nat)
    requires forall k :: 0 <= k < |closes| ==> closes[k] == c
    requires 1 <= w <= i + 1 <= |closes|
    ensures Mean(closes, w, i) == c
  {
    SumConstant(Window(closes, w, i), c);
  }

  /** Over a strictly rising series the shorter of two windows ending at the
      same row has the strictly higher mean. */
  lemma RisingMeanOrder(closes: seq<real>, w1: nat, w2: nat, i: nat)
    requires forall j, k :: 0 <= j < k < |closes| ==> closes[j] < closes[k]
    requires 1 <= w1 < w2 <= i + 1 <= |closes|
    ensures Mean(closes, w1, i) > Mean(closes, w2, i)
  {
    OlderBelow(closes, w1, w2, i);
    RecentAtLeast(closes, w1, i);
    SplitMeanOrder(closes, w1, w2, i);
  }

  /** The two means compared through the close where the short window
      starts: older closes below it, recent closes at least it. */
  lemma SplitMeanOrder(closes: seq<real>, w1: nat, w2: nat, i: nat)
    requires 1 <= w1 < w2 <= i + 1 <= |closes|
    requires Sum(closes[i + 1 - w2..i + 1 - w1]) < ((w2 - w1) as real) * closes[i + 1 - w1]
    requires Sum(closes[i + 1 - w1..i + 1]) >= (w1 as real) * closes[i + 1 - w1]
    ensures Mean(closes, w1, i) > Mean(closes, w2, i)
  {
    var lo, mid := i + 1 - w2, i + 1 - w1;
    WindowSplit(closes, w1, w2, i);
    MeanOrderArith(Sum(closes[lo..mid]), Sum(closes[mid..i + 1]), w1 as real, w2 as real,
      (w2 - w1) as real, closes[mid], Mean(closes, w1, i), Mean(closes, w2, i));
  }

  /** The long window is its older part followed by the short window. */
  lemma WindowSplit(closes: seq<real>, w1: nat, w2: nat, i: nat)
    requires 1 <= w1 < w2 <= i + 1 <= |closes|
    ensures Mean(closes, w1, i) == Sum(closes[i + 1 - w1..i + 1]) / (w1 as real)
    ensures Mean(closes, w2, i)
      == (Sum(closes[i + 1 - w2..i + 1 - w1]) + Sum(closes[i + 1 - w1..i + 1])) / (w2 as real)
  {
    var older := closes[i + 1 - w2..i + 1 - w1];
    var recent := closes[i + 1 - w1..i + 1];
    assert Window(closes, w2, i) == older + recent;
    assert Window(closes, w1, i) == recent;
    SumConcat(older, recent);
  }

  /** In a rising series the closes older than the short window sum below
      their count times the close that starts the short window. */
  lemma OlderBelow(closes: seq<real>, w1: nat, w2: nat, i: nat)
    requires forall j, k :: 0 <= j < k < |closes| ==> closes[j] < closes[k]
    requires 1 <= w1 < w2 <= i + 1 <= |closes|
    ensures Sum(closes[i + 1 - w2..i + 1 - w1]) < ((w2 - w1) as real) * closes[i + 1 - w1]
  {
    var older := closes[i + 1 - w2..i + 1 - w1];
    forall k | 0 <= k < |older|
      ensures older[k] < closes[i + 1 - w1]
    {
      assert older[k] == closes[i + 1 - w2 + k];
    }
    SumBelow(older, closes[i + 1 - w1]);
  }

  /** In a rising series the closes of the short window sum to at least
      their count times the close that starts it. */
  lemma RecentAtLeast(closes: seq<real>, w1: nat, i: nat)
    requires forall j, k :: 0 <= j < k < |closes| ==> closes[j] < closes[k]
    requires 1 <= w1 <= i + 1 <= |closes|
    ensures Sum(closes[i + 1 - w1..i + 1]) >= (w1 as real) * closes[i + 1 - w1]
  {
    var recent := closes[i + 1 - w1..i + 1];
    forall k | 0 <= k < |recent|
      ensures recent[k] >= closes[i + 1 - w1]
    {
      assert recent[k] == closes[i + 1 - w1 + k];
    }
    SumAtLeast(recent, closes[i + 1 - w1]);
  }

  /** The arithmetic step: the `d` older closes sum below `d * m0` and the
      `n1` recent ones to at least `n1 * m0`, so the recent mean `m1` is
      above the mean `m2` of all `n2` of them. */
  lemma MeanOrderArith(sa: real, sb: real, n1: real, n2: real, d: real, m0: real, m1: real, m2: real)
    requires 0.0 < n1 < n2 && d == n2 - n1
    requires sa < d * m0
    requires sb >= n1 * m0
    requires m1 == sb / n1 && m2 == (sa + sb) / n2
    ensures m1 > m2
  {
    assert sb * d >= n1 * m0 * d;
    assert n1 * (d * m0) > n1 * sa;
    assert sb * n2 > (sa + sb) * n1;
    assert m1 - m2 == (sb * n2 - (sa + sb) * n1) / (n1 * n2);
  }
}
