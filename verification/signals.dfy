/** The per-row signal columns. Each flag compares two moving averages of the
    closes; a comparison that involves an undefined average is false, as a
    comparison with NaN is in pandas. */
module Signals {
  import opened Wrappers
  import opened MovingAverage

  /** Window lengths of the four rules. */
  const BuyFast: nat := 50
  const BuySlow: nat := 500
  const SellFast: nat := 20
  const SellSlow: nat := 200
  const CloseBuyFast: nat := 10
  const CloseBuySlow: nat := 20
  const CloseSellFast: nat := 5
  const CloseSellSlow: nat := 10

  /** One row of the annotated frame, as the position ledger reads it. */
  datatype SignalRow = SignalRow(close: real, buy: int, sell: int, closeBuy: int, closeSell: int)

  /** `a > b` on two float cells: false when either is NaN. */
  predicate Above(a: Option<real>, b: Option<real>)
  {
    a.Some? && b.Some? && a.value > b.value
  }

  /** `a < b` on two float cells: false when either is NaN. */
  predicate Below(a: Option<real>, b: Option<real>)
  {
    a.Some? && b.Some? && a.value < b.value
  }

  /** `shift(1)`: each row sees its predecessor, the first row sees NaN. */
  function Shift(c: seq<Option<real>>): (r: seq<Option<real>>)
    ensures |r| == |c|
    ensures forall i :: 0 < i < |r| ==> r[i] == c[i - 1]
    ensures |r| > 0 ==> r[0] == None
  {
    if |c| == 0 then [] else [None] + c[..|c| - 1]
  }

  /** The buy rule at row `i`, stated on exact window means. */
  predicate BuyRule(closes: seq<real>, i: nat)
    requires i < |closes|
  {
    BuySlow - 1 <= i && Mean(closes, BuyFast, i) > Mean(closes, BuySlow, i)
  }

  /** The sell rule at row `i`. */
  predicate SellRule(closes: seq<real>, i: nat)
    requires i < |closes|
  {
    SellSlow - 1 <= i && Mean(closes, SellFast, i) < Mean(closes, SellSlow, i)
  }

  /** A strict downward crossing of the `fast` mean through the `slow` mean
      between rows `i - 1` and `i`, both means defined at both rows. */
  predicate CrossesBelow(closes: seq<real>, fast: nat, slow: nat, i: nat)
    requires 1 <= fast < slow && i < |closes|
  {
    slow <= i
    && Mean(closes, fast, i) < Mean(closes, slow, i)
    && Mean(closes, fast, i - 1) > Mean(closes, slow, i - 1)
  }

  /** `generate_buy_signals`: 1 where MA50 > MA500, else 0. */
  function GenerateBuySignals(closes: seq<real>): (r: seq<int>)
    ensures |r| == |closes|
    ensures forall i :: 0 <= i < |r| ==> r[i] == 0 || r[i] == 1
    ensures forall i :: 0 <= i < |r| ==> (r[i] == 1 <==> BuyRule(closes, i))
  {
    var fast := CalculateMovingAverage(closes, BuyFast);
    var slow := CalculateMovingAverage(closes, BuySlow);
    seq(|closes|, i requires 0 <= i < |closes| => if Above(fast[i], slow[i]) then 1 else 0)
  }

  /** `generate_sell_signals`: 1 where MA20 < MA200, else 0. */
  function GenerateSellSignals(closes: seq<real>): (r: seq<int>)
    ensures |r| == |closes|
    ensures forall i :: 0 <= i < |r| ==> r[i] == 0 || r[i] == 1
    ensures forall i :: 0 <= i < |r| ==> (r[i] == 1 <==> SellRule(closes, i))
  {
    var fast := CalculateMovingAverage(closes, SellFast);
    var slow := CalculateMovingAverage(closes, SellSlow);
    seq(|closes|, i requires 0 <= i < |closes| => if Below(fast[i], slow[i]) then 1 else 0)
  }

  /** `close_buy_positions`: -1 where MA10 crosses strictly below MA20, else 0. */
  function CloseBuyPositions(closes: seq<real>): (r: seq<int>)
    ensures |r| == |closes|
    ensures forall i :: 0 <= i < |r| ==> r[i] == 0 || r[i] == -1
    ensures forall i :: 0 <= i < |r| ==> (r[i] == -1 <==> CrossesBelow(closes, CloseBuyFast, CloseBuySlow, i))
  {
    var fast := CalculateMovingAverage(closes, CloseBuyFast);
    var slow := CalculateMovingAverage(closes, CloseBuySlow);
    var fastBefore := Shift(fast);
    var slowBefore := Shift(slow);
    seq(|closes|, i requires 0 <= i < |closes| =>
      if Below(fast[i], slow[i]) && Above(fastBefore[i], slowBefore[i]) then -1 else 0)
  }

  /** `close_sell_positions`: 1 where MA5 crosses strictly below MA10, else 0. */
  function CloseSellPositions(closes: seq<real>): (r: seq<int>)
    ensures |r| == |closes|
    ensures forall i :: 0 <= i < |r| ==> r[i] == 0 || r[i] == 1
    ensures forall i :: 0 <= i < |r| ==> (r[i] == 1 <==> CrossesBelow(closes, CloseSellFast, CloseSellSlow, i))
  {
    var fast := CalculateMovingAverage(closes, CloseSellFast);
    var slow := CalculateMovingAverage(closes, CloseSellSlow);
    var fastBefore := Shift(fast);
    var slowBefore := Shift(slow);
    seq(|closes|, i requires 0 <= i < |closes| =>
      if Below(fast[i], slow[i]) && Above(fastBefore[i], slowBefore[i]) then 1 else 0)
  }

  /** The four signal stages applied in turn to one symbol's closes. */
  function AnnotateSignals(closes: seq<real>): (r: seq<SignalRow>)
    ensures |r| == |closes|
    ensures forall i :: 0 <= i < |r| ==> r[i].close == closes[i]
    ensures forall i :: 0 <= i < |r| ==> (r[i].buy == 1 <==> BuyRule(closes, i))
    ensures forall i :: 0 <= i < |r| ==> (r[i].sell == 1 <==> SellRule(closes, i))
    ensures forall i :: 0 <= i < |r| ==>
      (r[i].closeBuy == -1 <==> CrossesBelow(closes, CloseBuyFast, CloseBuySlow, i))
    ensures forall i :: 0 <= i < |r| ==>
      (r[i].closeSell == 1 <==> CrossesBelow(closes, CloseSellFast, CloseSellSlow, i))
    ensures forall i :: 0 <= i < |r| ==>
      && (r[i].buy == 0 || r[i].buy == 1) && (r[i].sell == 0 || r[i].sell == 1)
      && (r[i].closeBuy == 0 || r[i].closeBuy == -1) && (r[i].closeSell == 0 || r[i].closeSell == 1)
  {
    var buy := GenerateBuySignals(closes);
    var sell := GenerateSellSignals(closes);
    var closeBuy := CloseBuyPositions(closes);
    var closeSell := CloseSellPositions(closes);
    seq(|closes|, i requires 0 <= i < |closes| =>
      SignalRow(closes[i], buy[i], sell[i], closeBuy[i], closeSell[i]))
  }

  /** No buy flag before row 499 and no sell flag before row 199: the slow
      average is undefined there. */
  lemma NoEarlySignals(closes: seq<real>, i: nat)
    requires i < |closes|
    ensures i < BuySlow - 1 ==> GenerateBuySignals(closes)[i] == 0
    ensures i < SellSlow - 1 ==> GenerateSellSignals(closes)[i] == 0
    ensures i == 0 ==> CloseBuyPositions(closes)[i] == 0 && CloseSellPositions(closes)[i] == 0
  {
  }

  /** A flat series never raises any flag. */
  lemma ConstantSeriesIsQuiet(closes: seq<real>, c: real)
    requires forall k :: 0 <= k < |closes| ==> closes[k] == c
    ensures forall i :: 0 <= i < |closes| ==>
      GenerateBuySignals(closes)[i] == 0 && GenerateSellSignals(closes)[i] == 0
      && CloseBuyPositions(closes)[i] == 0 && CloseSellPositions(closes)[i] == 0
  {
    forall i, w | 0 <= i < |closes| && 1 <= w <= i + 1
      ensures Mean(closes, w, i) == c
    {
      ConstantMean(closes, c, w, i);
    }
  }

  /** A strictly rising series buys from row 499 on and raises no other flag. */
  lemma RisingSeriesSignals(closes: seq<real>)
    requires forall j, k :: 0 <= j < k < |closes| ==> closes[j] < closes[k]
    ensures forall i :: 0 <= i < |closes| ==> (GenerateBuySignals(closes)[i] == 1 <==> BuySlow - 1 <= i)
    ensures forall i :: 0 <= i < |closes| ==>
      GenerateSellSignals(closes)[i] == 0 && CloseBuyPositions(closes)[i] == 0
      && CloseSellPositions(closes)[i] == 0
  {
    forall i, w1, w2 | 0 <= i < |closes| && 1 <= w1 < w2 <= i + 1
      ensures Mean(closes, w1, i) > Mean(closes, w2, i)
    {
      RisingMeanOrder(closes, w1, w2, i);
    }
  }

  /** The annotated rows of a strictly rising series: buy flags exactly from
      row 499 on, no sell flag anywhere. */
  lemma RisingSeriesRows(closes: seq<real>)
    requires forall j, k :: 0 <= j < k < |closes| ==> closes[j] < closes[k]
    ensures forall k :: 0 <= k < |closes| ==> (AnnotateSignals(closes)[k].buy == 1 <==> BuySlow - 1 <= k)
    ensures forall k :: 0 <= k < |closes| ==> AnnotateSignals(closes)[k].sell != 1
  {
    RisingSeriesSignals(closes);
    var rows := AnnotateSignals(closes);
    forall k | 0 <= k < |rows|
      ensures rows[k].sell != 1
    {
      assert GenerateSellSignals(closes)[k] == 0;
    }
  }
}
