/** The status table of the Price Alerts page: every stored alert whose price lookup
    succeeds, shown with its latest close and whether its condition holds. */
module AlertsPage {
  import opened Wrappers
  import opened Seqs
  import opened Quotes
  import AlertRule
  import PriceAlerts

  /** An alert as the page stores it in the session. */
  datatype PageAlert = PageAlert(ticker: string, targetPrice: real, alertType: string, created: string)

  /** One row of the status table, before formatting. */
  datatype StatusRow = StatusRow(ticker: string, targetPrice: real, currentPrice: real, condition: string, triggered: bool)

  /** The row of one alert, or `None` when its lookup raises and the loop moves on. */
  function StatusOf(quote: Quote): PageAlert -> Option<StatusRow>
  {
    (a: PageAlert) => match quote(a.ticker)
      case Some(price) =>
        Some(StatusRow(a.ticker, a.targetPrice, price, a.alertType, AlertRule.Fires(a.alertType, price, a.targetPrice)))
      case None => None
  }

  /** `row` is how the page shows alert `a` when its lookup returns the row's price. */
  predicate Shows(a: PageAlert, quote: Quote, row: StatusRow)
  {
    quote(a.ticker) == Some(row.currentPrice)
    && row.ticker == a.ticker && row.targetPrice == a.targetPrice && row.condition == a.alertType
  }

  /** The table: one row per alert whose lookup succeeds, TRIGGERED exactly when an 'above'
      alert's price is at or over its target or a 'below' alert's price at or under it. */
  function StatusTable(alerts: seq<PageAlert>, quote: Quote): (rows: seq<StatusRow>)
    ensures |rows| <= |alerts|
    ensures forall j :: 0 <= j < |rows| ==>
              (rows[j].triggered <==>
                 (rows[j].condition == "above" && rows[j].currentPrice >= rows[j].targetPrice)
                 || (rows[j].condition == "below" && rows[j].currentPrice <= rows[j].targetPrice))
    ensures forall j :: 0 <= j < |rows| ==> exists i :: 0 <= i < |alerts| && Shows(alerts[i], quote, rows[j])
    ensures forall i :: 0 <= i < |alerts| && quote(alerts[i].ticker).Some? ==>
              exists j :: 0 <= j < |rows| && Shows(alerts[i], quote, rows[j])
  {
    var rows := Collect(alerts, StatusOf(quote));
    RowsComeFromAlerts(alerts, quote, rows);
    PricedAlertsHaveRows(alerts, quote, rows);
    rows
  }

  /** Each row of the collected table is how the page shows one of the alerts. */
  lemma RowsComeFromAlerts(alerts: seq<PageAlert>, quote: Quote, rows: seq<StatusRow>)
    requires rows == Collect(alerts, StatusOf(quote))
    ensures forall j :: 0 <= j < |rows| ==>
              AlertRule.Fires(rows[j].condition, rows[j].currentPrice, rows[j].targetPrice) == rows[j].triggered
    ensures forall j :: 0 <= j < |rows| ==> exists i :: 0 <= i < |alerts| && Shows(alerts[i], quote, rows[j])
  {
    forall j | 0 <= j < |rows|
      ensures AlertRule.Fires(rows[j].condition, rows[j].currentPrice, rows[j].targetPrice) == rows[j].triggered
      ensures exists i :: 0 <= i < |alerts| && Shows(alerts[i], quote, rows[j])
    {
      var i :| 0 <= i < |alerts| && StatusOf(quote)(alerts[i]) == Some(rows[j]);
      assert Shows(alerts[i], quote, rows[j]);
    }
  }

  /** Every alert whose lookup succeeds is shown by some row of the collected table. */
  lemma PricedAlertsHaveRows(alerts: seq<PageAlert>, quote: Quote, rows: seq<StatusRow>)
    requires rows == Collect(alerts, StatusOf(quote))
    ensures forall i :: 0 <= i < |alerts| && quote(alerts[i].ticker).Some? ==>
              exists j :: 0 <= j < |rows| && Shows(alerts[i], quote, rows[j])
  {
    forall i | 0 <= i < |alerts| && quote(alerts[i].ticker).Some?
      ensures exists j :: 0 <= j < |rows| && Shows(alerts[i], quote, rows[j])
    {
      var row := StatusOf(quote)(alerts[i]).value;
      var j :| 0 <= j < |rows| && rows[j] == row;
      assert Shows(alerts[i], quote, rows[j]);
    }
  }

  /** The rows of two lists of alerts shown one after the other are their tables one after the other. */
  lemma StatusTableAppend(a: seq<PageAlert>, b: seq<PageAlert>, quote: Quote)
    ensures StatusTable(a + b, quote) == StatusTable(a, quote) + StatusTable(b, quote)
  {
    CollectAppend(a, b, StatusOf(quote));
  }

  /** The page and the alert monitor apply the same rule: a page alert shows TRIGGERED exactly
      when the monitor, given an untriggered alert with the same fields, fires and reports it. */
  lemma PageAgreesWithMonitor(a: PageAlert, quote: Quote, now: string)
    requires quote(a.ticker).Some?
    ensures StatusOf(quote)(a).value.triggered <==>
              |PriceAlerts.CheckAlerts([PriceAlerts.NewAlert(a.ticker, a.targetPrice, a.alertType, a.created)], quote, now).notices| == 1
  {
    var alerts := [PriceAlerts.NewAlert(a.ticker, a.targetPrice, a.alertType, a.created)];
    var r := PriceAlerts.CheckAlerts(alerts, quote, now);
    assert r.notices == PriceAlerts.NewlyFired(alerts, r.alerts);
    assert alerts[1..] == [] && r.alerts[1..] == [];
  }
}
