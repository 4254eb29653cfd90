/** The arithmetic of the Portfolio Tracker page: each position valued at its latest close,
    positions whose lookup fails skipped, and the totals and overall return. */
module Portfolio {
  import opened Wrappers
  import opened Seqs
  import opened Quotes

  /** A position as the page stores it. `date` is the day it was added. */
  datatype Position = Position(ticker: string, shares: real, purchasePrice: real, date: string)

  /** One row of the portfolio table, before formatting. `returnPct` is `None` where the
      source divides by a zero investment (an IEEE infinity or NaN, not an exception). */
  datatype Holding = Holding(
    ticker: string,
    shares: real,
    purchasePrice: real,
    currentPrice: real,
    investment: real,
    currentValue: real,
    profitLoss: real,
    returnPct: Option<real>)

  datatype Summary = Summary(totalInvestment: real, totalValue: real, totalProfit: real, totalReturn: real)

  /** A position valued at `price`. */
  function Valuate(p: Position, price: real): (h: Holding)
    ensures h.ticker == p.ticker && h.shares == p.shares && h.purchasePrice == p.purchasePrice
    ensures h.currentPrice == price
    ensures h.investment == p.shares * p.purchasePrice && h.currentValue == p.shares * price
    ensures h.profitLoss == p.shares * (price - p.purchasePrice)
    ensures h.profitLoss == h.currentValue - h.investment
    ensures h.returnPct.Some? <==> h.investment != 0.0
    ensures h.returnPct.Some? ==> h.returnPct.value * h.investment == 100.0 * h.profitLoss
  {
    var investment := p.shares * p.purchasePrice;
    var value := p.shares * price;
    var profitLoss := value - investment;
    Holding(p.ticker, p.shares, p.purchasePrice, price, investment, value, profitLoss,
            if investment == 0.0 then None else Some(profitLoss / investment * 100.0))
  }

  function ValuateWith(quote: Quote): Position -> Option<Holding>
  {
    (p: Position) => match quote(p.ticker)
         case Some(price) => Some(Valuate(p, price))
         case None => None
  }

  /** `h` is the row of position `p` valued at the price its lookup returns. */
  predicate ValuedFrom(p: Position, quote: Quote, h: Holding)
  {
    quote(p.ticker) == Some(h.currentPrice) && h == Valuate(p, h.currentPrice)
  }

  /** The table rows: every position whose price lookup succeeds, valued at that price. */
  function Holdings(positions: seq<Position>, quote: Quote): (hs: seq<Holding>)
    ensures |hs| <= |positions|
    ensures forall i :: 0 <= i < |positions| && quote(positions[i].ticker).Some? ==>
              Valuate(positions[i], quote(positions[i].ticker).value) in hs
    ensures forall j :: 0 <= j < |hs| ==>
              exists i :: 0 <= i < |positions| && ValuedFrom(positions[i], quote, hs[j])
  {
    var hs := Collect(positions, ValuateWith(quote));
    PricedPositionsHaveRows(positions, quote, hs);
    RowsComeFromPositions(positions, quote, hs);
    hs
  }

  lemma PricedPositionsHaveRows(positions: seq<Position>, quote: Quote, hs: seq<Holding>)
    requires hs == Collect(positions, ValuateWith(quote))
    ensures forall i :: 0 <= i < |positions| && quote(positions[i].ticker).Some? ==>
              Valuate(positions[i], quote(positions[i].ticker).value) in hs
  {
    forall i | 0 <= i < |positions| && quote(positions[i].ticker).Some?
      ensures Valuate(positions[i], quote(positions[i].ticker).value) in hs
    {
      assert ValuateWith(quote)(positions[i]) == Some(Valuate(positions[i], quote(positions[i].ticker).value));
    }
  }

  lemma RowsComeFromPositions(positions: seq<Position>, quote: Quote, hs: seq<Holding>)
    requires hs == Collect(positions, ValuateWith(quote))
    ensures forall j :: 0 <= j < |hs| ==>
              exists i :: 0 <= i < |positions| && ValuedFrom(positions[i], quote, hs[j])
  {
    forall j | 0 <= j < |hs|
      ensures exists i :: 0 <= i < |positions| && ValuedFrom(positions[i], quote, hs[j])
    {
      var i :| 0 <= i < |positions| && ValuateWith(quote)(positions[i]) == Some(hs[j]);
      assert ValuedFrom(positions[i], quote, hs[j]);
    }
  }

  /** The rows of two lists of positions shown one after the other are their rows one after the other. */
  lemma HoldingsAppend(a: seq<Position>, b: seq<Position>, quote: Quote)
    ensures Holdings(a + b, quote) == Holdings(a, quote) + Holdings(b, quote)
  {
    CollectAppend(a, b, ValuateWith(quote));
  }

  /** A single position gives one row valued at its price, or none when its lookup fails.
      With `HoldingsAppend` this fixes the table: one row per priced position, in order. */
  lemma HoldingsOne(p: Position, quote: Quote)
    ensures Holdings([p], quote) == if quote(p.ticker).Some? then [Valuate(p, quote(p.ticker).value)] else []
  {
    assert [p][1..] == [];
  }

  function TotalInvestment(hs: seq<Holding>): real
    decreases |hs|
  {
    if |hs| == 0 then 0.0 else hs[0].investment + TotalInvestment(hs[1..])
  }

  function TotalValue(hs: seq<Holding>): real
    decreases |hs|
  {
    if |hs| == 0 then 0.0 else hs[0].currentValue + TotalValue(hs[1..])
  }

  function TotalProfitLoss(hs: seq<Holding>): real
    decreases |hs|
  {
    if |hs| == 0 then 0.0 else hs[0].profitLoss + TotalProfitLoss(hs[1..])
  }

  /** The summary metrics, shown only when at least one row exists. */
  function Summarize(hs: seq<Holding>): (s: Option<Summary>)
    ensures s.None? <==> |hs| == 0
    ensures s.Some? ==> s.value.totalInvestment == TotalInvestment(hs) && s.value.totalValue == TotalValue(hs)
    ensures s.Some? ==> s.value.totalProfit == s.value.totalValue - s.value.totalInvestment
    ensures s.Some? && s.value.totalInvestment <= 0.0 ==> s.value.totalReturn == 0.0
    ensures s.Some? && s.value.totalInvestment > 0.0 ==>
              s.value.totalReturn * s.value.totalInvestment == 100.0 * s.value.totalProfit
              && (s.value.totalReturn > 0.0 <==> s.value.totalProfit > 0.0)
  {
    if |hs| == 0 then None
    else
      var investment := TotalInvestment(hs);
      var value := TotalValue(hs);
      var profit := value - investment;
      var ret := if investment > 0.0 then profit / investment * 100.0 else 0.0;
      Some(Summary(investment, value, profit, ret))
  }

  /** The Portfolio Tracker page for the stored positions at the given prices: shown when some
      lookup succeeds, with totals over exactly the positions whose lookup succeeds. */
  function Report(positions: seq<Position>, quote: Quote): (s: Option<Summary>)
    ensures s.None? <==> forall i :: 0 <= i < |positions| ==> quote(positions[i].ticker).None?
    ensures s.Some? ==> s.value.totalInvestment == PricedCost(positions, quote)
    ensures s.Some? ==> s.value.totalProfit == PricedGain(positions, quote)
    ensures s.Some? ==> s.value.totalValue == PricedCost(positions, quote) + PricedGain(positions, quote)
  {
    TotalsOverPricedPositions(positions, quote);
    NoRowsIff(positions, quote);
    Summarize(Holdings(positions, quote))
  }

  /** The table is empty exactly when every lookup fails. */
  lemma NoRowsIff(positions: seq<Position>, quote: Quote)
    ensures |Holdings(positions, quote)| == 0 <==> forall i :: 0 <= i < |positions| ==> quote(positions[i].ticker).None?
  {
    var hs := Holdings(positions, quote);
    if |hs| > 0 {
      var i :| 0 <= i < |positions| && ValuedFrom(positions[i], quote, hs[0]);
    }
  }

  /** The total profit is the sum of the rows' profit or loss. */
  lemma {:induction false} ProfitIsSumOfRows(hs: seq<Holding>)
    requires forall j :: 0 <= j < |hs| ==> hs[j].profitLoss == hs[j].currentValue - hs[j].investment
    ensures TotalValue(hs) - TotalInvestment(hs) == TotalProfitLoss(hs)
    decreases |hs|
  {
    if |hs| > 0 {
      ProfitIsSumOfRows(hs[1..]);
    }
  }

  /** The cost of the positions whose lookup succeeds, summed independently of the table. */
  function PricedCost(positions: seq<Position>, quote: Quote): real
    decreases |positions|
  {
    if |positions| == 0 then 0.0
    else
      (if quote(positions[0].ticker).Some? then positions[0].shares * positions[0].purchasePrice else 0.0)
      + PricedCost(positions[1..], quote)
  }

  /** The gain of the positions whose lookup succeeds, summed independently of the table. */
  function PricedGain(positions: seq<Position>, quote: Quote): real
    decreases |positions|
  {
    if |positions| == 0 then 0.0
    else
      (match quote(positions[0].ticker)
       case Some(price) => positions[0].shares * (price - positions[0].purchasePrice)
       case None => 0.0)
      + PricedGain(positions[1..], quote)
  }

  /** The table totals count exactly the positions whose lookup succeeds: the investment is
      their cost and the profit is the sum of shares times price move over them. */
  lemma {:induction false} TotalsOverPricedPositions(positions: seq<Position>, quote: Quote)
    ensures TotalInvestment(Holdings(positions, quote)) == PricedCost(positions, quote)
    ensures TotalValue(Holdings(positions, quote)) - TotalInvestment(Holdings(positions, quote))
         == PricedGain(positions, quote)
    decreases |positions|
  {
    if |positions| > 0 {
      TotalsOverPricedPositions(positions[1..], quote);
    }
  }

  /** Positions entered through the form have at least 0.01 shares bought at 0.01 or more,
      so whenever the summary is shown its return is profit over investment, in percent. */
  lemma FormPositionsHaveReturn(positions: seq<Position>, quote: Quote)
    requires forall i :: 0 <= i < |positions| ==> positions[i].shares >= 0.01 && positions[i].purchasePrice >= 0.01
    ensures Report(positions, quote).Some? ==> Report(positions, quote).value.totalInvestment > 0.0
    ensures Report(positions, quote).Some? ==>
              Report(positions, quote).value.totalReturn
              == Report(positions, quote).value.totalProfit / Report(positions, quote).value.totalInvestment * 100.0
  {
    var hs := Holdings(positions, quote);
    assert Report(positions, quote) == Summarize(hs);
    if |hs| > 0 {
      FormHoldingsCostSomething(positions, quote);
      SummaryOfCostlyRows(hs);
    }
  }

  /** A summary of rows that all cost something has a positive investment and divides by it. */
  lemma SummaryOfCostlyRows(hs: seq<Holding>)
    requires |hs| > 0
    requires forall j :: 0 <= j < |hs| ==> hs[j].investment > 0.0
    ensures Summarize(hs).Some? && Summarize(hs).value.totalInvestment > 0.0
    ensures Summarize(hs).value.totalReturn
         == Summarize(hs).value.totalProfit / Summarize(hs).value.totalInvestment * 100.0
  {
    InvestmentPositive(hs);
  }

  /** Every row of a form-entered position has a positive investment. */
  lemma FormHoldingsCostSomething(positions: seq<Position>, quote: Quote)
    requires forall i :: 0 <= i < |positions| ==> positions[i].shares >= 0.01 && positions[i].purchasePrice >= 0.01
    ensures forall j :: 0 <= j < |Holdings(positions, quote)| ==> Holdings(positions, quote)[j].investment > 0.0
  {
    var hs := Holdings(positions, quote);
    forall j | 0 <= j < |hs| ensures hs[j].investment > 0.0 {
      var i :| 0 <= i < |positions| && ValuedFrom(positions[i], quote, hs[j]);
      FormPositionCostsSomething(positions[i], hs[j].currentPrice);
    }
  }

  lemma FormPositionCostsSomething(p: Position, price: real)
    requires p.shares >= 0.01 && p.purchasePrice >= 0.01
    ensures Valuate(p, price).investment > 0.0
  {
    assert p.shares * p.purchasePrice >= 0.01 * p.purchasePrice;
  }

  /** Rows of form-entered positions all cost something, so their total is positive. */
  lemma {:induction false} InvestmentPositive(hs: seq<Holding>)
    requires |hs| > 0
    requires forall j :: 0 <= j < |hs| ==> hs[j].investment > 0.0
    ensures TotalInvestment(hs) > 0.0
    decreases |hs|
  {
    if |hs| > 1 {
      InvestmentPositive(hs[1..]);
    }
  }
}
