/** Profit and loss over all symbols: each symbol's closes are annotated with
    the four signal columns, then run through its own fresh ledger. */
module Backtest {
  import opened Signals
  import opened Ledger

  /** A symbol is the CSV file's base name. */
  type Symbol = string

  /** `calculate_profit_loss`: one entry per symbol, each the realised sum of
      that symbol's completed round trips alone. */
  function CalculateProfitLoss(data: map<Symbol, seq<SignalRow>>): (r: map<Symbol, real>)
    ensures r.Keys == data.Keys
    ensures forall s :: s in data ==> r[s] == TradesProfit(ReplayFrom(data[s], 0).trades)
    ensures forall s :: s in data && |data[s]| == 0 ==> r[s] == 0.0
  {
    map s | s in data :: TotalProfitLoss(data[s])
  }

  /** The per-symbol pipeline of the driver: the four signal stages, then the
      ledger, with the profit/loss mapping computed once over all symbols. */
  function RunBacktest(series: map<Symbol, seq<real>>): (r: map<Symbol, real>)
    ensures r.Keys == series.Keys
    ensures forall s :: s in series ==>
      r[s] == TradesProfit(ReplayFrom(AnnotateSignals(series[s]), 0).trades)
    ensures forall s :: s in series && |series[s]| == 0 ==> r[s] == 0.0
  {
    CalculateProfitLoss(map s | s in series :: AnnotateSignals(series[s]))
  }

  /** A symbol's total depends on nothing but its own rows. */
  lemma SymbolsIndependent(a: map<Symbol, seq<SignalRow>>, b: map<Symbol, seq<SignalRow>>, s: Symbol)
    requires s in a && s in b && a[s] == b[s]
    ensures CalculateProfitLoss(a)[s] == CalculateProfitLoss(b)[s]
  {
  }

  /** A flat price series never trades: after every row the ledger is still
      empty with nothing realised. */
  lemma FlatSeriesEarnsNothing(closes: seq<real>, c: real)
    requires forall k :: 0 <= k < |closes| ==> closes[k] == c
    ensures forall n :: 0 <= n <= |closes| ==> Run(AnnotateSignals(closes)[..n], Fresh) == Fresh
    ensures Run(AnnotateSignals(closes), Fresh) == Fresh
  {
    var rows := AnnotateSignals(closes);
    ConstantSeriesIsQuiet(closes, c);
    forall k | 0 <= k < |rows|
      ensures rows[k].buy != 1
    {
      assert GenerateBuySignals(closes)[k] == 0;
    }
    forall n | 0 <= n <= |rows|
      ensures Run(rows[..n], Fresh) == Fresh
    {
      NoBuyStaysFresh(rows[..n]);
    }
    assert rows[..|rows|] == rows;
  }

  /** A strictly rising series opens one position at row 499, the first row
      with a 500-row average, and never closes it. */
  lemma RisingSeriesHoldsOne(closes: seq<real>)
    requires forall j, k :: 0 <= j < k < |closes| ==> closes[j] < closes[k]
    ensures |closes| < BuySlow ==> Run(AnnotateSignals(closes), Fresh) == Fresh
    ensures |closes| >= BuySlow ==>
      Run(AnnotateSignals(closes), Fresh) == Book([Position(closes[BuySlow - 1], Quantity)], 0.0)
  {
    RisingSeriesRows(closes);
    LateBuyNoSell(AnnotateSignals(closes), BuySlow - 1);
  }

  /** A buy on a close of 10 followed by a sell on a close of 15 realises
      (15 - 10) * 100. */
  lemma BuyThenSellRealises()
    ensures TotalProfitLoss([SignalRow(10.0, 1, 0, 0, 0), SignalRow(15.0, 0, 1, 0, 0)]) == 500.0
  {
    var rows := [SignalRow(10.0, 1, 0, 0, 0), SignalRow(15.0, 0, 1, 0, 0)];
    assert rows[1..][1..] == [];
  }
}
