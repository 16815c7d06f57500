/** The position ledger of `calculate_profit_loss` for one symbol: the rows are
    read in order, a position of 100 units opens on a buy flag while no
    position is held, and the held position closes on a sell flag, realising
    `(sell - buy) * quantity`. Only the Buy, Sell and Close columns are read. */
module Ledger {
  import opened Wrappers
  import opened Signals

  /** Units bought per position. */
  const Quantity: int := 100

  datatype Position = Position(buyPrice: real, quantity: int)

  /** The loop state: the list of open positions and the realised total. */
  datatype Book = Book(positions: seq<Position>, total: real)

  /** The state a symbol starts from: no positions, nothing realised. */
  const Fresh := Book([], 0.0)

  /** At most one open position, always of the fixed quantity. */
  predicate Valid(b: Book)
  {
    |b.positions| <= 1 && forall p :: p in b.positions ==> p.quantity == Quantity
  }

  /** One iteration of the row loop: the buy test comes first, and the sell
      test is the `elif`, so a row that opens a position never closes one. */
  function Step(b: Book, row: SignalRow): (r: Book)
    ensures Valid(b) ==> Valid(r)
    ensures |b.positions| == 0 ==> r.total == b.total
    ensures |b.positions| > 0 ==> |r.positions| <= |b.positions|
    ensures |b.positions| == 0 && row.buy != 1 ==> r == b
    ensures |b.positions| > 0 && row.sell != 1 ==> r == b
    ensures |r.positions| > |b.positions| ==> row.buy == 1
    ensures |r.positions| < |b.positions| ==> row.sell == 1
  {
    if row.buy == 1 && |b.positions| == 0 then
      Book(b.positions + [Position(row.close, Quantity)], b.total)
    else if row.sell == 1 && |b.positions| > 0 then
      var p := b.positions[0];
      Book(b.positions[1..], b.total + (row.close - p.buyPrice) * (p.quantity as real))
    else
      b
  }

  /** The row loop from state `b` over `rows`, in index order. */
  function Run(rows: seq<SignalRow>, b: Book): (r: Book)
    ensures Valid(b) ==> Valid(r)
    decreases |rows|
  {
    if |rows| == 0 then b else Run(rows[1..], Step(b, rows[0]))
  }

  /** Realised profit/loss of one symbol's rows, starting fresh: the sum of
      the completed buy-then-sell trades; a position still open at the end
      contributes nothing. */
  function TotalProfitLoss(rows: seq<SignalRow>): (r: real)
    ensures r == TradesProfit(ReplayFrom(rows, 0).trades)
  {
    RunMatchesReplay(rows);
    Run(rows, Fresh).total
  }

  // ---------------------------------------------------------------------
  // The two-state machine the position list implements.

  datatype State = Flat | Holding(entry: real)

  function StateOf(b: Book): State
    requires Valid(b)
  {
    if |b.positions| == 0 then Flat else Holding(b.positions[0].buyPrice)
  }

  /** The book a state denotes, with realised total `t`. */
  function BookOf(s: State, t: real): (b: Book)
    ensures Valid(b) && StateOf(b) == s && b.total == t
  {
    match s
    case Flat => Book([], t)
    case Holding(e) => Book([Position(e, Quantity)], t)
  }

  /** One row of the Flat/Holding machine: the next state and the amount
      realised on that row. */
  function Transition(s: State, row: SignalRow): (State, real)
  {
    match s
    case Flat => if row.buy == 1 then (Holding(row.close), 0.0) else (Flat, 0.0)
    case Holding(e) =>
      if row.sell == 1 then (Flat, (row.close - e) * (Quantity as real)) else (Holding(e), 0.0)
  }

  /** The position list never holds more than the two-state machine does, and
      each row moves it exactly as the machine moves. */
  lemma StepRefinesTransition(b: Book, row: SignalRow)
    requires Valid(b)
    ensures Valid(Step(b, row))
    ensures StateOf(Step(b, row)) == Transition(StateOf(b), row).0
    ensures Step(b, row).total == b.total + Transition(StateOf(b), row).1
  {
  }

  // ---------------------------------------------------------------------
  // An index-search reference: the first buy, then the first sell after
  // it, then the first buy after that sell, and so on.

  /** The first row at or after `from` whose buy flag is 1. */
  function NextBuy(rows: seq<SignalRow>, from: nat): (r: Option<nat>)
    ensures r.Some? ==> from <= r.value < |rows| && rows[r.value].buy == 1
    ensures r.Some? ==> forall k :: from <= k < r.value ==> rows[k].buy != 1
    ensures r.None? ==> forall k :: from <= k < |rows| ==> rows[k].buy != 1
    decreases |rows| - from
  {
    if from >= |rows| then None
    else if rows[from].buy == 1 then Some(from)
    else NextBuy(rows, from + 1)
  }

  /** The first row at or after `from` whose sell flag is 1. */
  function NextSell(rows: seq<SignalRow>, from: nat): (r: Option<nat>)
    ensures r.Some? ==> from <= r.value < |rows| && rows[r.value].sell == 1
    ensures r.Some? ==> forall k :: from <= k < r.value ==> rows[k].sell != 1
    ensures r.None? ==> forall k :: from <= k < |rows| ==> rows[k].sell != 1
    decreases |rows| - from
  {
    if from >= |rows| then None
    else if rows[from].sell == 1 then Some(from)
    else NextSell(rows, from + 1)
  }

  /** A completed round trip: bought at `openRow`, sold at `closeRow`. */
  datatype Trade = Trade(openRow: nat, entry: real, closeRow: nat, exit: real)

  /** The completed trades and the state left at the end of the rows. */
  datatype Replay = Replay(trades: seq<Trade>, open: State)

  /** A trade of `rows` opened on a buy row and closed on a later sell row,
      at those rows' closes. */
  predicate TradeOf(rows: seq<SignalRow>, t: Trade)
  {
    && t.openRow < t.closeRow < |rows|
    && rows[t.openRow].buy == 1 && rows[t.closeRow].sell == 1
    && t.entry == rows[t.openRow].close && t.exit == rows[t.closeRow].close
  }

  function ReplayFrom(rows: seq<SignalRow>, from: nat): (r: Replay)
    decreases |rows| - from
  {
    match NextBuy(rows, from)
    case None => Replay([], Flat)
    case Some(b) =>
      match NextSell(rows, b + 1)
      case None => Replay([], Holding(rows[b].close))
      case Some(s) =>
        var rest := ReplayFrom(rows, s + 1);
        Replay([Trade(b, rows[b].close, s, rows[s].close)] + rest.trades, rest.open)
  }

  /** Each trade closes before the next one opens. */
  predicate Chained(ts: seq<Trade>)
  {
    forall j :: 0 < j < |ts| ==> ts[j - 1].closeRow < ts[j].openRow
  }

  lemma ChainedCons(x: Trade, ts: seq<Trade>)
    requires Chained(ts)
    requires |ts| > 0 ==> x.closeRow < ts[0].openRow
    ensures Chained([x] + ts)
  {
    var r := [x] + ts;
    forall j | 0 < j < |r|
      ensures r[j - 1].closeRow < r[j].openRow
    {
      if j > 1 {
        assert r[j - 1] == ts[j - 2] && r[j] == ts[j - 1];
      }
    }
  }

  /** The reference's first round trip, opened at the first buy row `b` and
      closed at the first sell row `s` after it, followed by the rest. */
  lemma ReplayUnfold(rows: seq<SignalRow>, from: nat, b: nat, s: nat)
    requires NextBuy(rows, from) == Some(b) && NextSell(rows, b + 1) == Some(s)
    ensures ReplayFrom(rows, from).trades
      == [Trade(b, rows[b].close, s, rows[s].close)] + ReplayFrom(rows, s + 1).trades
    ensures ReplayFrom(rows, from).open == ReplayFrom(rows, s + 1).open
  {
  }

  /** The reference's trades are genuine round trips of the rows: each opens
      on a buy row and closes on a later sell row, at those rows' closes. */
  lemma {:induction false} ReplayTradesGenuine(rows: seq<SignalRow>, from: nat)
    ensures forall t :: t in ReplayFrom(rows, from).trades ==> from <= t.openRow && TradeOf(rows, t)
    decreases |rows| - from
  {
    match NextBuy(rows, from)
    case None =>
    case Some(b) =>
      match NextSell(rows, b + 1)
      case None =>
      case Some(s) =>
        ReplayTradesGenuine(rows, s + 1);
        ReplayUnfold(rows, from, b, s);
  }

  /** Each of the reference's trades closes before the next one opens. */
  lemma {:induction false} ReplayTradesChained(rows: seq<SignalRow>, from: nat)
    ensures Chained(ReplayFrom(rows, from).trades)
    decreases |rows| - from
  {
    match NextBuy(rows, from)
    case None =>
    case Some(b) =>
      match NextSell(rows, b + 1)
      case None =>
      case Some(s) =>
        ReplayTradesChained(rows, s + 1);
        ReplayTradesGenuine(rows, s + 1);
        ReplayUnfold(rows, from, b, s);
        var rest := ReplayFrom(rows, s + 1).trades;
        assert |rest| > 0 ==> rest[0] in rest;
        ChainedCons(Trade(b, rows[b].close, s, rows[s].close), rest);
  }

  /** Realised amount of one round trip. */
  function Profit(t: Trade): real
  {
    (t.exit - t.entry) * (Quantity as real)
  }

  function TradesProfit(ts: seq<Trade>): real
  {
    if |ts| == 0 then 0.0 else Profit(ts[0]) + TradesProfit(ts[1..])
  }

  /** Unfolding the loop by one row at index `from`. */
  lemma RunAt(rows: seq<SignalRow>, from: nat, b: Book)
    requires from < |rows|
    ensures Run(rows[from..], b) == Run(rows[from + 1..], Step(b, rows[from]))
  {
    assert rows[from..][1..] == rows[from + 1..];
  }

  lemma TradesProfitCons(x: Trade, ts: seq<Trade>)
    ensures TradesProfit([x] + ts) == Profit(x) + TradesProfit(ts)
  {
    assert ([x] + ts)[1..] == ts;
  }

  /** Where a held position at entry `e` with realised total `t` ends up
      after the rows from `from` on, by the reference. */
  function HoldingOutcome(rows: seq<SignalRow>, from: nat, e: real, t: real): Book
    requires from <= |rows|
  {
    match NextSell(rows, from)
    case None => Book([Position(e, Quantity)], t)
    case Some(s) =>
      var rest := ReplayFrom(rows, s + 1);
      BookOf(rest.open, t + (rows[s].close - e) * (Quantity as real) + TradesProfit(rest.trades))
  }

  lemma {:induction false} ReplayFlat(rows: seq<SignalRow>, from: nat, t: real)
    requires from <= |rows|
    ensures Run(rows[from..], Book([], t))
      == BookOf(ReplayFrom(rows, from).open, t + TradesProfit(ReplayFrom(rows, from).trades))
    decreases |rows| - from, 3
  {
    if from == |rows| {
      assert rows[from..] == [];
      assert NextBuy(rows, from) == None;
    } else if rows[from].buy == 1 {
      ReplayFlatBuy(rows, from, t);
    } else {
      var flat := Book([], t);
      RunAt(rows, from, flat);
      assert Step(flat, rows[from]) == flat;
      SkipNonBuy(rows, from);
      ReplayFlat(rows, from + 1, t);
    }
  }

  /** A row without a buy flag is passed over by the reference while flat. */
  lemma SkipNonBuy(rows: seq<SignalRow>, from: nat)
    requires from < |rows| && rows[from].buy != 1
    ensures ReplayFrom(rows, from) == ReplayFrom(rows, from + 1)
  {
    assert NextBuy(rows, from) == NextBuy(rows, from + 1);
  }

  /** The row that opens a position, seen from the Flat state. */
  lemma {:induction false} ReplayFlatBuy(rows: seq<SignalRow>, from: nat, t: real)
    requires from < |rows| && rows[from].buy == 1
    ensures Run(rows[from..], Book([], t))
      == BookOf(ReplayFrom(rows, from).open, t + TradesProfit(ReplayFrom(rows, from).trades))
    decreases |rows| - from, 2
  {
    var row := rows[from];
    RunAt(rows, from, Book([], t));
    BuyStep(Book([], t), row);
    ReplayHolding(rows, from + 1, row.close, t);
    BuyOpensHolding(rows, from, t);
  }

  /** Seen from the reference, a buy row while flat leads to the outcome of
      holding a position entered at that row's close. */
  lemma BuyOpensHolding(rows: seq<SignalRow>, from: nat, t: real)
    requires from < |rows| && rows[from].buy == 1
    ensures BookOf(ReplayFrom(rows, from).open, t + TradesProfit(ReplayFrom(rows, from).trades))
      == HoldingOutcome(rows, from + 1, rows[from].close, t)
  {
    var row := rows[from];
    assert NextBuy(rows, from) == Some(from);
    match NextSell(rows, from + 1)
    case None =>
      assert ReplayFrom(rows, from) == Replay([], Holding(row.close));
      assert TradesProfit([]) == 0.0;
    case Some(s) =>
      var rest := ReplayFrom(rows, s + 1);
      var x := Trade(from, row.close, s, rows[s].close);
      assert ReplayFrom(rows, from) == Replay([x] + rest.trades, rest.open);
      TradesProfitCons(x, rest.trades);
  }

  lemma {:induction false} ReplayHolding(rows: seq<SignalRow>, from: nat, e: real, t: real)
    requires from <= |rows|
    ensures Run(rows[from..], Book([Position(e, Quantity)], t)) == HoldingOutcome(rows, from, e, t)
    decreases |rows| - from, 1
  {
    if from < |rows| {
      var held := Book([Position(e, Quantity)], t);
      if rows[from].sell == 1 {
        ReplayHoldingSell(rows, from, e, t);
      } else {
        RunAt(rows, from, held);
        assert Step(held, rows[from]) == held;
        assert NextSell(rows, from) == NextSell(rows, from + 1);
        ReplayHolding(rows, from + 1, e, t);
      }
    }
  }

  /** The row that closes the held position. */
  lemma {:induction false} ReplayHoldingSell(rows: seq<SignalRow>, from: nat, e: real, t: real)
    requires from < |rows| && rows[from].sell == 1
    ensures Run(rows[from..], Book([Position(e, Quantity)], t)) == HoldingOutcome(rows, from, e, t)
    decreases |rows| - from, 0
  {
    var held := Book([Position(e, Quantity)], t);
    var t' := t + (rows[from].close - e) * (Quantity as real);
    RunAt(rows, from, held);
    assert Step(held, rows[from]) == Book([], t');
    assert NextSell(rows, from) == Some(from);
    ReplayFlat(rows, from + 1, t');
  }

  /** The row loop from a fresh book ends in the state the reference leaves
      and with the realised sum of the reference's completed trades. */
  lemma RunMatchesReplay(rows: seq<SignalRow>)
    ensures Run(rows, Fresh) == BookOf(ReplayFrom(rows, 0).open, TradesProfit(ReplayFrom(rows, 0).trades))
  {
    assert rows[0..] == rows;
    ReplayFlat(rows, 0, 0.0);
  }

  /** Without a buy flag the ledger never leaves its fresh state. */
  lemma NoBuyStaysFresh(rows: seq<SignalRow>)
    requires forall k :: 0 <= k < |rows| ==> rows[k].buy != 1
    ensures Run(rows, Fresh) == Fresh
  {
    RunMatchesReplay(rows);
    assert NextBuy(rows, 0) == None;
  }

  /** A first buy at row `b` with no sell after it leaves exactly that one
      position open and nothing realised. */
  lemma SingleOpenPosition(rows: seq<SignalRow>, b: nat)
    requires b < |rows| && rows[b].buy == 1
    requires forall k :: 0 <= k < b ==> rows[k].buy != 1
    requires forall k :: b < k < |rows| ==> rows[k].sell != 1
    ensures Run(rows, Fresh) == Book([Position(rows[b].close, Quantity)], 0.0)
  {
    RunMatchesReplay(rows);
    assert NextBuy(rows, 0) == Some(b);
    assert NextSell(rows, b + 1) == None;
    assert ReplayFrom(rows, 0) == Replay([], Holding(rows[b].close));
    assert TradesProfit([]) == 0.0;
  }

  /** Rows that raise the buy flag exactly from row `b` on and never the
      sell flag: one position opened at row `b`, if the rows reach it. */
  lemma LateBuyNoSell(rows: seq<SignalRow>, b: nat)
    requires forall k :: 0 <= k < |rows| ==> (rows[k].buy == 1 <==> b <= k)
    requires forall k :: 0 <= k < |rows| ==> rows[k].sell != 1
    ensures |rows| <= b ==> Run(rows, Fresh) == Fresh
    ensures |rows| > b ==> Run(rows, Fresh) == Book([Position(rows[b].close, Quantity)], 0.0)
  {
    if |rows| <= b {
      NoBuyStaysFresh(rows);
    } else {
      SingleOpenPosition(rows, b);
    }
  }

  /** The close-buy and close-sell flags are never read: two row sequences
      that agree on Close, Buy and Sell run identically. */
  lemma {:induction false} CloseFlagsIgnored(rows: seq<SignalRow>, rows': seq<SignalRow>, b: Book)
    requires |rows| == |rows'|
    requires forall i :: 0 <= i < |rows| ==>
      rows[i].close == rows'[i].close && rows[i].buy == rows'[i].buy && rows[i].sell == rows'[i].sell
    ensures Run(rows, b) == Run(rows', b)
    decreases |rows|
  {
    if |rows| > 0 {
      assert Step(b, rows[0]) == Step(b, rows'[0]);
      CloseFlagsIgnored(rows[1..], rows'[1..], Step(b, rows[0]));
    }
  }

  /** A buy flag while no position is held opens one at the row's close. */
  lemma BuyStep(b: Book, row: SignalRow)
    requires row.buy == 1 && |b.positions| == 0
    ensures Step(b, row) == Book([Position(row.close, Quantity)], b.total)
  {
  }

  /** A row that neither opens nor closes a position leaves the book as it was. */
  lemma IdleStep(b: Book, row: SignalRow)
    requires !(row.buy == 1 && |b.positions| == 0) && !(row.sell == 1 && |b.positions| > 0)
    ensures Step(b, row) == b
  {
  }

  /** A sell flag while a position is held pops the first position and
      realises its profit at the row's close. */
  lemma SellStep(b: Book, row: SignalRow)
    requires row.sell == 1 && |b.positions| > 0 && !(row.buy == 1 && |b.positions| == 0)
    ensures Step(b, row) == Book(b.positions[1..],
      b.total + (row.close - b.positions[0].buyPrice) * (b.positions[0].quantity as real))
  {
  }

  /** One pass of the source's loop body on the local position list and
      running total: the buy test, then the `elif` sell test. */
  method ProcessRow(positions: seq<Position>, total: real, row: SignalRow)
    returns (positions': seq<Position>, total': real)
    ensures Book(positions', total') == Step(Book(positions, total), row)
    ensures Valid(Book(positions, total)) ==> Valid(Book(positions', total'))
    ensures Valid(Book(positions, total)) ==>
      && StateOf(Book(positions', total')) == Transition(StateOf(Book(positions, total)), row).0
      && total' == total + Transition(StateOf(Book(positions, total)), row).1
  {
    positions', total' := positions, total;
    if row.buy == 1 && |positions| == 0 {
      BuyStep(Book(positions, total), row);
      positions' := positions + [Position(row.close, Quantity)];
    } else if row.sell == 1 && |positions| > 0 {
      var p := positions[0];
      SellStep(Book(positions, total), row);
      positions' := positions[1..];
      total' := total + (row.close - p.buyPrice) * (p.quantity as real);
    } else {
      IdleStep(Book(positions, total), row);
    }
    if Valid(Book(positions, total)) {
      StepRefinesTransition(Book(positions, total), row);
    }
  }

  /** The source's loop over the rows, with the position list as a local. */
  method CalculateSymbolProfitLoss(rows: seq<SignalRow>) returns (total: real)
    ensures total == TradesProfit(ReplayFrom(rows, 0).trades)
  {
    var positions: seq<Position> := [];
    total := 0.0;
    var i := 0;
    while i < |rows|
      invariant 0 <= i <= |rows|
      invariant Run(rows[i..], Book(positions, total)) == Run(rows, Fresh)
    {
      RunAt(rows, i, Book(positions, total));
      positions, total := ProcessRow(positions, total, rows[i]);
      i := i + 1;
    }
    RunMatchesReplay(rows);
  }
}
