/** The alert list of `PriceAlertSystem` and its operations as pure transitions.
    The list lives in memory; loading and saving it as JSON is not modelled. */
module PriceAlerts {
  import opened Wrappers
  import opened Seqs
  import opened Quotes
  import AlertRule

  /** One stored alert. `created` and `triggeredAt` are timestamps taken from the clock. */
  datatype Alert = Alert(
    ticker: string,
    targetPrice: real,
    alertType: string,
    created: string,
    triggered: bool,
    triggeredAt: Option<string>,
    triggeredPrice: Option<real>)

  /** The record `check_alerts` returns for an alert it has just fired. */
  datatype Notice = Notice(ticker: string, targetPrice: real, currentPrice: real, alertType: string)

  /** The updated alert list and the notices of one `check_alerts` pass. */
  datatype Checked = Checked(alerts: seq<Alert>, notices: seq<Notice>)

  /** The alert `add_alert` creates at time `now`. */
  function NewAlert(ticker: string, targetPrice: real, alertType: string, now: string): Alert
  {
    Alert(ticker, targetPrice, alertType, now, false, None, None)
  }

  /** `add_alert`: one fresh, untriggered alert at the end of the list. */
  function AddAlert(alerts: seq<Alert>, ticker: string, targetPrice: real, alertType: string, now: string): (r: seq<Alert>)
    ensures |r| == |alerts| + 1
    ensures r[..|alerts|] == alerts
    ensures r[|alerts|].ticker == ticker && r[|alerts|].targetPrice == targetPrice
    ensures r[|alerts|].alertType == alertType && r[|alerts|].created == now
    ensures !r[|alerts|].triggered && r[|alerts|].triggeredAt.None? && r[|alerts|].triggeredPrice.None?
  {
    alerts + [NewAlert(ticker, targetPrice, alertType, now)]
  }

  predicate Matches(a: Alert, ticker: string, targetPrice: real)
  {
    a.ticker == ticker && a.targetPrice == targetPrice
  }

  /** `remove_alert`: drop every alert with this ticker and this target price. */
  function RemoveAlert(alerts: seq<Alert>, ticker: string, targetPrice: real): (r: seq<Alert>)
    ensures forall i :: 0 <= i < |r| ==> r[i] in alerts && !Matches(r[i], ticker, targetPrice)
    ensures forall i :: 0 <= i < |alerts| && !Matches(alerts[i], ticker, targetPrice) ==> alerts[i] in r
    ensures Subseq(r, alerts)
  {
    Filter(alerts, a => !Matches(a, ticker, targetPrice))
  }

  /** Removal keeps every copy of a non-matching alert and no copy of a matching one. */
  lemma RemoveKeepsCopies(alerts: seq<Alert>, ticker: string, targetPrice: real)
    ensures forall x :: multiset(RemoveAlert(alerts, ticker, targetPrice))[x]
                        == if Matches(x, ticker, targetPrice) then 0 else multiset(alerts)[x]
  {
    FilterCounts(alerts, a => !Matches(a, ticker, targetPrice));
  }

  /** Removing the same pair twice is removing it once. */
  lemma RemoveIdempotent(alerts: seq<Alert>, ticker: string, targetPrice: real)
    ensures RemoveAlert(RemoveAlert(alerts, ticker, targetPrice), ticker, targetPrice)
         == RemoveAlert(alerts, ticker, targetPrice)
  {
    FilterIdempotent(alerts, a => !Matches(a, ticker, targetPrice));
  }

  /** Removing a pair no alert has leaves the list as it was. */
  lemma RemoveAbsent(alerts: seq<Alert>, ticker: string, targetPrice: real)
    requires forall i :: 0 <= i < |alerts| ==> !Matches(alerts[i], ticker, targetPrice)
    ensures RemoveAlert(alerts, ticker, targetPrice) == alerts
  {
    FilterKeepsAll(alerts, a => !Matches(a, ticker, targetPrice));
  }

  /** Adding an alert and then removing its pair is the same as only removing the pair. */
  lemma RemoveUndoesAdd(alerts: seq<Alert>, ticker: string, targetPrice: real, alertType: string, now: string)
    ensures RemoveAlert(AddAlert(alerts, ticker, targetPrice, alertType, now), ticker, targetPrice)
         == RemoveAlert(alerts, ticker, targetPrice)
  {
    var keep := a => !Matches(a, ticker, targetPrice);
    var added := [NewAlert(ticker, targetPrice, alertType, now)];
    FilterAppend(alerts, added, keep);
    assert Filter(added, keep) == [];
  }

  predicate Active(a: Alert)
  {
    !a.triggered
  }

  /** `display_alerts`: the alerts not yet triggered. */
  function DisplayAlerts(alerts: seq<Alert>): (r: seq<Alert>)
    ensures forall i :: 0 <= i < |r| ==> r[i] in alerts && !r[i].triggered
    ensures forall i :: 0 <= i < |alerts| && !alerts[i].triggered ==> alerts[i] in r
    ensures Subseq(r, alerts)
  {
    Filter(alerts, Active)
  }

  /** The active list keeps every copy of an untriggered alert and no copy of a triggered one. */
  lemma ActiveKeepsCopies(alerts: seq<Alert>)
    ensures forall x :: multiset(DisplayAlerts(alerts))[x] == if x.triggered then 0 else multiset(alerts)[x]
  {
    FilterCounts(alerts, Active);
  }

  /** A new alert is shown as active, after the alerts that were already active. */
  lemma DisplayAfterAdd(alerts: seq<Alert>, ticker: string, targetPrice: real, alertType: string, now: string)
    ensures DisplayAlerts(AddAlert(alerts, ticker, targetPrice, alertType, now))
         == DisplayAlerts(alerts) + [NewAlert(ticker, targetPrice, alertType, now)]
  {
    FilterAppend(alerts, [NewAlert(ticker, targetPrice, alertType, now)], Active);
  }

  /** The body of the `check_alerts` loop for one alert. */
  function CheckOne(a: Alert, quote: Quote, now: string): Alert
  {
    if a.triggered then a
    else match quote(a.ticker)
      case None => a
      case Some(price) =>
        if AlertRule.Fires(a.alertType, price, a.targetPrice)
        then a.(triggered := true, triggeredAt := Some(now), triggeredPrice := Some(price))
        else a
  }

  /** The notices for the alerts that are untriggered in `before` and triggered in `after`, in list order. */
  ghost function NewlyFired(before: seq<Alert>, after: seq<Alert>): seq<Notice>
    requires |before| == |after|
    decreases |before|
  {
    if |before| == 0 then []
    else
      var a := after[0];
      var head := if !before[0].triggered && a.triggered && a.triggeredPrice.Some?
                  then [Notice(a.ticker, a.targetPrice, a.triggeredPrice.value, a.alertType)]
                  else [];
      head + NewlyFired(before[1..], after[1..])
  }

  /** What one pass may do to one alert: an alert already triggered, or whose lookup fails,
      stays as it was; an untriggered one becomes triggered exactly when its condition holds
      at the quoted price, recording `now` and that price, and nothing else about it changes. */
  predicate Transition(before: Alert, after: Alert, quote: Quote, now: string)
  {
    && (before.triggered ==> after == before)
    && (quote(before.ticker).None? ==> after == before)
    && (after.triggered <==>
          before.triggered
          || (quote(before.ticker).Some? && AlertRule.Fires(before.alertType, quote(before.ticker).value, before.targetPrice)))
    && (!before.triggered && after.triggered ==>
          after == before.(triggered := true, triggeredAt := Some(now), triggeredPrice := quote(before.ticker)))
    && (!after.triggered ==> after == before)
  }

  /** `check_alerts` with every price lookup answered by `quote`: fire each untriggered alert
      whose condition holds, record when and at what price, and report the fired ones. */
  function CheckAlerts(alerts: seq<Alert>, quote: Quote, now: string): (r: Checked)
    ensures |r.alerts| == |alerts|
    ensures forall i :: 0 <= i < |alerts| ==> Transition(alerts[i], r.alerts[i], quote, now)
    ensures r.notices == NewlyFired(alerts, r.alerts)
    decreases |alerts|
  {
    if |alerts| == 0 then Checked([], [])
    else
      var rest := CheckAlerts(alerts[1..], quote, now);
      var a := CheckOne(alerts[0], quote, now);
      var notice := if !alerts[0].triggered && a.triggered
                    then [Notice(a.ticker, a.targetPrice, a.triggeredPrice.value, a.alertType)]
                    else [];
      var r := Checked([a] + rest.alerts, notice + rest.notices);
      assert r.alerts[1..] == rest.alerts;
      assert Transition(alerts[0], a, quote, now);
      assert forall i :: 1 <= i < |alerts| ==> alerts[i] == alerts[1..][i - 1] && r.alerts[i] == rest.alerts[i - 1];
      r
  }

  /** With no alert newly triggered there is nothing to report. */
  lemma {:induction false} NewlyFiredOfSame(alerts: seq<Alert>)
    ensures NewlyFired(alerts, alerts) == []
    decreases |alerts|
  {
    if |alerts| > 0 {
      NewlyFiredOfSame(alerts[1..]);
    }
  }

  /** A second pass with the same prices changes nothing and reports nothing. */
  lemma CheckTwice(alerts: seq<Alert>, quote: Quote, now: string, later: string)
    ensures CheckAlerts(CheckAlerts(alerts, quote, now).alerts, quote, later).alerts
         == CheckAlerts(alerts, quote, now).alerts
    ensures CheckAlerts(CheckAlerts(alerts, quote, now).alerts, quote, later).notices == []
  {
    var first := CheckAlerts(alerts, quote, now).alerts;
    var second := CheckAlerts(first, quote, later);
    assert second.alerts == first;
    NewlyFiredOfSame(first);
  }

  /** An untriggered alert whose condition holds at the quoted price: the ones a pass fires. */
  predicate FiresNow(a: Alert, quote: Quote)
  {
    !a.triggered && quote(a.ticker).Some? && AlertRule.Fires(a.alertType, quote(a.ticker).value, a.targetPrice)
  }

  /** The alerts that stay active through a pass at these prices. */
  function StaysActive(quote: Quote): Alert -> bool
  {
    (a: Alert) => Active(a) && !FiresNow(a, quote)
  }

  /** One alert through a pass: it is active afterwards exactly when it was active and did not fire. */
  lemma StaysActiveStep(before: Alert, after: Alert, quote: Quote, now: string)
    requires Transition(before, after, quote, now)
    ensures Filter([after], Active) == Filter([before], StaysActive(quote))
  {
    assert [after][1..] == [] && [before][1..] == [];
  }

  /** The active alerts after a pass are, in order, those active before it that did not fire. */
  lemma {:induction false} ActiveAfterCheck(alerts: seq<Alert>, quote: Quote, now: string)
    ensures DisplayAlerts(CheckAlerts(alerts, quote, now).alerts) == Filter(alerts, StaysActive(quote))
    decreases |alerts|
  {
    if |alerts| > 0 {
      var r := CheckAlerts(alerts, quote, now).alerts;
      ActiveAfterCheck(alerts[1..], quote, now);
      assert alerts == [alerts[0]] + alerts[1..];
      assert r == [r[0]] + r[1..];
      assert r[1..] == CheckAlerts(alerts[1..], quote, now).alerts;
      FilterAppend([alerts[0]], alerts[1..], StaysActive(quote));
      FilterAppend([r[0]], r[1..], Active);
      StaysActiveStep(alerts[0], r[0], quote, now);
    }
  }

  /** A pass reports one notice for every alert that leaves the active list. */
  lemma {:induction false} NoticesCountDrained(alerts: seq<Alert>, quote: Quote, now: string)
    ensures |DisplayAlerts(CheckAlerts(alerts, quote, now).alerts)| + |CheckAlerts(alerts, quote, now).notices|
         == |DisplayAlerts(alerts)|
    decreases |alerts|
  {
    if |alerts| > 0 {
      var r := CheckAlerts(alerts, quote, now);
      NoticesCountDrained(alerts[1..], quote, now);
      assert alerts == [alerts[0]] + alerts[1..];
      assert r.alerts == [r.alerts[0]] + r.alerts[1..];
      FilterAppend([alerts[0]], alerts[1..], Active);
      FilterAppend([r.alerts[0]], r.alerts[1..], Active);
      assert r.alerts[1..] == CheckAlerts(alerts[1..], quote, now).alerts;
    }
  }

  /** Every fired alert leaves the active list: the active alerts after a pass are, in order,
      the alerts that were active before it and did not fire, and there are as many fewer of
      them as the pass reported notices. */
  lemma CheckDrainsActive(alerts: seq<Alert>, quote: Quote, now: string)
    ensures DisplayAlerts(CheckAlerts(alerts, quote, now).alerts) == Filter(alerts, StaysActive(quote))
    ensures |DisplayAlerts(CheckAlerts(alerts, quote, now).alerts)| + |CheckAlerts(alerts, quote, now).notices|
         == |DisplayAlerts(alerts)|
  {
    ActiveAfterCheck(alerts, quote, now);
    NoticesCountDrained(alerts, quote, now);
  }
}
