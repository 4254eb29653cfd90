# Price alerts and indicator arithmetic of the AI stock tool

This Dafny project models the two pieces of plain logic in the stock tool. The rest of
the tool is user interface and library calls.

* **The price-alert monitor** (`PriceAlertSystem` in `price_alert_system.py`). The stored
  alerts are an ordered list of records: ticker, target price, alert type, creation time,
  triggered flag, and the time and price at which the alert fired. `add_alert`,
  `remove_alert`, `check_alerts` and `display_alerts` are pure transitions on that list
  (module `PriceAlerts`). The 'above'/'below' firing condition is defined once (module
  `AlertRule`). It is shared with the status column of the Streamlit Price Alerts page
  (module `AlertsPage`).
* **The numeric blocks of the Streamlit app** (`comprehensive_stock_app.py`):
  * `calculate_rsi` and the 7/21-bar moving averages and the volume percent change that
    `predict_stock` adds to the downloaded bars (module `Indicators`);
  * the `dropna` step and the assembly of the feature matrix and close labels
    (module `TrainingData`);
  * the profit and return arithmetic of the Portfolio Tracker page (module `Portfolio`).

Prices are exact `real`s and volumes are `nat`s. Every price lookup (`yf.Ticker(t).history(...)`)
becomes a parameter `quote: string -> Option<real>`, where `None` stands for a lookup
that raises. The clock (`datetime.now()`) becomes a string parameter. A pandas NaN is
`None` in the indicator columns. The volume change uses `Pct = NaN | Finite | PosInf`,
because it can also be +infinity.

Helper modules: `Wrappers` (Option, Result), `Seqs` (order-preserving `Filter` and
`Collect`, the `Subseq` relation), `Stats` (exact `Sum` and `Mean`).

### Edge cases, as the code behaves

The code's behaviour at the edges of its inputs, as the model states it:

* **RSI start.** RSI is defined from bar 13, not bar 14. `delta.where(delta > 0, 0)`
  turns the undefined first difference into 0, so the first 14-bar window is complete at
  bar 13.
* **Zero average loss.** If the average gain is positive, `gain / loss` is +infinity and
  the RSI is exactly 100. If the average gain is also zero, the RSI is NaN and `dropna`
  removes the row. `RsiDefinedIff` states when this happens: the close did not move in
  the 14 bars ending there.
* **Zero previous volume.** `pct_change` gives NaN for 0 → 0, and that row is dropped. It gives +infinity for
  0 → v > 0, and `dropna` keeps that row, because infinity is not NaN. So a feature row
  can carry an infinite volume change (`FeaturesDefined`).
* **Row count.** The code keeps at most n − 20 rows of n bars (`KeptAtMost`). It keeps exactly n − 20 only when the close changes at every bar
  and no volume is zero (`KeptExactly`). `CompleteIff` gives the exact rule for which
  rows are kept.
* **Return of a zero-cost position.** A position's return divides by its investment. A
  numpy float divided by 0.0 gives infinity or NaN, not an exception. `Holding.returnPct`
  is `None` in that case. The entry form's `min_value=0.01` makes this unreachable from
  the page (`FormPositionsHaveReturn`).

## Model

| member | source | states |
|---|---|---|
| `PriceAlerts.AddAlert` | price_alert_system.py:25-38 | appends exactly one alert with the given ticker, target and type, created at the given time, not triggered and with no trigger time or price; every earlier alert is unchanged |
| `PriceAlerts.RemoveAlert` | price_alert_system.py:42-47 | every alert of the result is in the list and does not match both ticker and target price, every non-matching alert of the list is in the result, and the result is a subsequence of the list (order kept) |
| `PriceAlerts.RemoveKeepsCopies` | price_alert_system.py:44-47 | the result keeps as many copies of each non-matching alert as the list has, and no copy of a matching one |
| `PriceAlerts.RemoveIdempotent` | price_alert_system.py:44-47 | removing the same ticker/target pair twice equals removing it once |
| `PriceAlerts.RemoveAbsent` | price_alert_system.py:44-47 | removing a pair that no alert has leaves the list unchanged |
| `PriceAlerts.RemoveUndoesAdd` | price_alert_system.py:30-47 | adding an alert and then removing its pair gives the same list as only removing the pair |
| `PriceAlerts.DisplayAlerts` | price_alert_system.py:96-102 | the active list holds only untriggered alerts of the list and every untriggered alert of it, as a subsequence (list order kept) |
| `PriceAlerts.ActiveKeepsCopies` | price_alert_system.py:96-102 | the active list keeps as many copies of each untriggered alert as the list has, and no copy of a triggered one |
| `PriceAlerts.DisplayAfterAdd` | price_alert_system.py:30-38 | a newly added alert appears last among the active alerts, after those already active |
| `PriceAlerts.CheckAlerts` | price_alert_system.py:51-94 | length and order kept. Triggered alerts and alerts whose lookup fails stay unchanged. An untriggered alert becomes triggered iff it is 'above' with price ≥ target or 'below' with price ≤ target, and then records now and the observed price. Triggered is never reset. The returned notices are exactly the newly fired alerts, in list order |
| `PriceAlerts.CheckTwice` | price_alert_system.py:55-94 | a second pass with the same prices returns no notices and leaves the list unchanged |
| `PriceAlerts.CheckDrainsActive` | price_alert_system.py:51-102 | the active alerts after a pass are, in order, exactly the alerts that were active before it and did not fire at the quoted price; the number of active alerts after it plus the number of notices is the number before it |
| `AlertRule.OnlyKnownTypesFire` | price_alert_system.py:67-71 | only the types 'above' and 'below' can ever fire |
| `AlertRule.FiresMonotone` | price_alert_system.py:67-71 | an 'above' alert that fires at a price fires at every higher price; a 'below' alert at every lower one |
| `Indicators.MovingAverage` | comprehensive_stock_app.py:44-45 | MA_k at bar i is defined iff i ≥ k − 1 |
| `Indicators.RollingMean` | comprehensive_stock_app.py:44-45 | the running-sum rolling mean equals, at every bar, the mean of the k closes ending there (undefined before bar k − 1) |
| `Indicators.MovingAverageBounds` | comprehensive_stock_app.py:44-45 | a moving average lies within the range of the closes in its window |
| `Indicators.MovingAverageCausal` | comprehensive_stock_app.py:44-45 | the moving average at bar i does not depend on any later bar |
| `Indicators.Gain` | comprehensive_stock_app.py:28-29 | the gain is non-negative, and positive exactly when the close rose from the previous bar |
| `Indicators.Loss` | comprehensive_stock_app.py:28-30 | the loss is non-negative, and positive exactly when the close fell from the previous bar |
| `Indicators.GainLossSplit` | comprehensive_stock_app.py:28-30 | at most one of gain and loss is nonzero; both are 0 at bar 0; gain − loss is the price move |
| `Indicators.RsiOf` | comprehensive_stock_app.py:31-32 | RSI is defined iff gain + loss > 0, equals 100·gain/(gain + loss) and lies in [0, 100]; with a positive loss it is below 100; zero loss with positive gain gives 100 |
| `Indicators.RsiClosedForm` | comprehensive_stock_app.py:31-32 | 100 − 100/(1 + gain/loss) = 100·gain/(gain + loss) < 100 when loss > 0 |
| `Indicators.Rsi` | comprehensive_stock_app.py:26-33 | RSI is undefined before bar 13 and always within [0, 100] |
| `Indicators.RsiDefinedIff` | comprehensive_stock_app.py:28-32 | RSI at bar i is defined iff i ≥ 13 and the close moved in one of the 14 bars ending at i |
| `Indicators.RsiCausal` | comprehensive_stock_app.py:26-33 | the RSI at bar i depends only on closes up to bar i |
| `Indicators.RsiOfRisingSeries` | comprehensive_stock_app.py:28-32 | on strictly rising closes the RSI is exactly 100 from bar 13 on |
| `Indicators.VolumeChange` | comprehensive_stock_app.py:47 | NaN at bar 0 and for a 0 → 0 volume; +infinity for a rise from 0; otherwise a ratio ≥ −1 with previous·(1 + change) = current |
| `TrainingData.KeptFrom` | comprehensive_stock_app.py:48 | the kept positions are strictly increasing, each row kept is complete, and every complete row is kept |
| `TrainingData.PredictStockData` | comprehensive_stock_app.py:37-53 | an empty download is the "No data found" error. Otherwise features, labels and dates have equal length. The dates are strictly increasing. Each feature row and label comes from the same complete bar, and every complete bar is included |
| `TrainingData.CompleteIff` | comprehensive_stock_app.py:44-48 | a row survives `dropna` iff it is at bar 20 or later, the close moved in the RSI window, and the volume did not stay at 0 |
| `TrainingData.KeptAtMost` | comprehensive_stock_app.py:48 | at most n − 20 rows remain of n bars, and none when n ≤ 20 |
| `TrainingData.KeptExactly` | comprehensive_stock_app.py:44-48 | when the close changes at every bar and no volume is zero, exactly n − 20 rows remain |
| `TrainingData.RowCausal` | comprehensive_stock_app.py:44-47 | the whole indicator row of bar i is unchanged by any later bar |
| `TrainingData.FeaturesDefined` | comprehensive_stock_app.py:48-52 | every feature row has an RSI in [0, 100] and a volume change that is never NaN |
| `Portfolio.Valuate` | comprehensive_stock_app.py:149-152 | investment = shares·purchase price and value = shares·current price. Profit/loss = shares·(current − purchase) = value − investment. The return % times the investment is 100·profit, and the return is undefined exactly when the investment is 0 |
| `Portfolio.Holdings` | comprehensive_stock_app.py:144-168 | every position whose price lookup succeeds has a row valued at that price, and every row is such a valuation; positions whose lookup fails are skipped |
| `Portfolio.HoldingsAppend` | comprehensive_stock_app.py:144-168 | the rows of two lists of positions one after the other are their rows one after the other (rows keep the positions' order) |
| `Portfolio.HoldingsOne` | comprehensive_stock_app.py:144-168 | a single position gives exactly one row, valued at its price, when its lookup succeeds and none when it fails; with `HoldingsAppend` this is one row per priced position, duplicates included |
| `Portfolio.Summarize` | comprehensive_stock_app.py:154-176 | no summary without rows. The total investment and the total value are the sums of the rows' investment and value. Total profit = total value − total investment. The total return is 0 when the investment is ≤ 0, and otherwise return·investment = 100·profit, positive iff the profit is |
| `Portfolio.ProfitIsSumOfRows` | comprehensive_stock_app.py:149-155 | total value − total investment equals the sum of the rows' profit/loss |
| `Portfolio.TotalsOverPricedPositions` | comprehensive_stock_app.py:144-168 | the total investment is the cost of exactly the positions whose lookup succeeds, and the total profit is Σ shares·(price − purchase) over them |
| `Portfolio.Report` | comprehensive_stock_app.py:140-176 | the summary is shown iff some position's lookup succeeds; its total investment is the cost of exactly those positions, its total profit is Σ shares·(price − purchase) over them, and its total value is the sum of the two |
| `Portfolio.FormPositionsHaveReturn` | comprehensive_stock_app.py:120-176 | for positions entered through the form (shares and price ≥ 0.01), a shown summary has positive investment and return = profit/investment·100 |
| `AlertsPage.StatusTable` | comprehensive_stock_app.py:215-235 | one row per alert whose lookup succeeds (failing ones skipped). Each row is TRIGGERED iff it is 'above' with price ≥ target or 'below' with price ≤ target. Any other type is never triggered |
| `AlertsPage.StatusTableAppend` | comprehensive_stock_app.py:216-235 | the table of two alert lists shown in sequence is the two tables in sequence (rows keep the alerts' order) |
| `AlertsPage.PageAgreesWithMonitor` | comprehensive_stock_app.py:221-225 | the page shows TRIGGERED exactly when the monitor, given the same alert untriggered, fires it and reports one notice |

## Left out

- JSON persistence (`load_alerts`, `save_alerts`) and the `monitor` polling loop with `time.sleep`: file I/O and timing. The alert list is an in-memory value.
- Console output of `add_alert`, `remove_alert`, `check_alerts` and `display_alerts`: `DisplayAlerts` returns the list that is printed.
- Price lookups: `check_alerts` and the two pages fetch a price per alert or position over the network. The model answers all of them from one `quote` function. Two lookups of the same ticker in one pass therefore see the same price.
- Records without a `triggered` key, which a hand-edited JSON file could contain and which would raise outside the `try`. Every modelled alert has the field.
- CheckAlerts: one clock reading `now` serves the whole pass. The code reads `datetime.now()` each time it fires an alert, after a network lookup per alert, so two alerts fired in one pass can record different `triggered_at` times; the model records the same time for both.
- Bar: a downloaded bar carries only a close and a volume, both defined. `yf.download` also returns Open, High, Low and Adj Close columns, and `data.dropna()` drops a bar with a NaN in any of them; the model has no such bar, so it does not state which bars a missing value in those columns removes.
- The default `alert_type='above'` of `add_alert`: callers of `AddAlert` pass the type explicitly.
- The regressor fit and predict (`LinearRegression`, `RandomForestRegressor`): library code that is not part of this model. This includes how the library treats an empty feature matrix or an infinite volume change; `KeptAtMost` and `FeaturesDefined` state when those inputs arise.
- RsiOf: accepts only non-negative averages. It is applied only to the window means of `Gains` and `Losses`, which are never negative; the IEEE outcome for a negative loss average is not modelled.
- Floating point: all arithmetic is exact. The rounding of pandas' running rolling sums and of IEEE division is not modelled. The IEEE infinities and NaNs that the code reaches are stated case by case instead.
- The Streamlit pages, widgets, charts, session-state appends (the add-to-portfolio and create-alert forms), metric formatting, the prediction-page change percentage, the Crypto Tracker and the Market Overview: user interface only.
- `stock_prediction_app.py`, `portfolio_tracker (1).py`, `advanced_stock_predictor (1).py` and `automatecash_ui_wireframes.jsx` are not part of this model.
