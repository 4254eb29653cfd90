/** The data preparation of `predict_stock`: indicator columns added to the downloaded
    bars, every row with a missing value dropped, and the feature matrix and close labels
    taken from what remains. Fitting the regressor is not part of this model. */
module TrainingData {
  import opened Wrappers
  import opened Indicators

  /** One downloaded daily bar; only the close and the volume enter the computation. */
  datatype Bar = Bar(close: real, volume: nat)

  /** A bar with its indicator columns, as the frame holds it before `dropna`. */
  datatype Row = Row(close: real, ma7: Option<real>, ma21: Option<real>, rsi: Option<real>, volumeChange: Pct)

  /** The feature columns `MA_7`, `MA_21`, `RSI`, `Volume_Change` of a kept row. */
  datatype Features = Features(ma7: real, ma21: real, rsi: real, volumeChange: Pct)

  /** What `predict_stock` trains on: the positions of the kept bars (the frame's date
      index after `dropna`), the feature rows `X` and the close labels `y`. */
  datatype Dataset = Dataset(dates: seq<nat>, x: seq<Features>, y: seq<real>)

  function Closes(bars: seq<Bar>): (closes: seq<real>)
    ensures |closes| == |bars|
  {
    seq(|bars|, i requires 0 <= i < |bars| => bars[i].close)
  }

  function Volumes(bars: seq<Bar>): (volumes: seq<nat>)
    ensures |volumes| == |bars|
  {
    seq(|bars|, i requires 0 <= i < |bars| => bars[i].volume)
  }

  /** The indicator row of bar `i`. */
  function RowAt(bars: seq<Bar>, i: nat): Row
    requires i < |bars|
  {
    Row(bars[i].close,
        MovingAverage(Closes(bars), ShortWindow, i),
        MovingAverage(Closes(bars), LongWindow, i),
        Rsi(Closes(bars), i),
        VolumeChange(Volumes(bars), i))
  }

  /** The price frame with its indicator columns, one row per bar. */
  function Frame(bars: seq<Bar>): (frame: seq<Row>)
    ensures |frame| == |bars|
  {
    seq(|bars|, i requires 0 <= i < |bars| => RowAt(bars, i))
  }

  /** `dropna` keeps a row with no NaN in it; an infinite volume change is not NaN. */
  predicate Complete(row: Row)
  {
    row.ma7.Some? && row.ma21.Some? && row.rsi.Some? && !row.volumeChange.NaN?
  }

  predicate Increasing(s: seq<nat>)
  {
    forall i, j :: 0 <= i < j < |s| ==> s[i] < s[j]
  }

  /** The positions from `from` on whose rows `dropna` keeps, in order. */
  function KeptFrom(frame: seq<Row>, from: nat): (kept: seq<nat>)
    requires from <= |frame|
    ensures Increasing(kept)
    ensures forall j :: 0 <= j < |kept| ==> from <= kept[j] < |frame| && Complete(frame[kept[j]])
    ensures forall i :: from <= i < |frame| && Complete(frame[i]) ==> i in kept
    decreases |frame| - from
  {
    if from == |frame| then []
    else
      var rest := KeptFrom(frame, from + 1);
      if Complete(frame[from]) then
        var kept := [from] + rest;
        assert forall j :: 1 <= j < |kept| ==> kept[j] == rest[j - 1];
        kept
      else rest
  }

  function FeaturesOf(row: Row): Features
    requires Complete(row)
  {
    Features(row.ma7.value, row.ma21.value, row.rsi.value, row.volumeChange)
  }

  /** `predict_stock` up to the model fit: an error for an empty download, otherwise the
      kept bars with their features and labels, aligned row for row. */
  function PredictStockData(bars: seq<Bar>): (r: Result<Dataset, string>)
    ensures r.Err? <==> |bars| == 0
    ensures r.Ok? ==> |r.value.x| == |r.value.dates| && |r.value.y| == |r.value.dates|
    ensures r.Ok? ==> Increasing(r.value.dates)
    ensures r.Ok? ==> forall j :: 0 <= j < |r.value.dates| ==>
              r.value.dates[j] < |bars| && Complete(Frame(bars)[r.value.dates[j]])
              && r.value.x[j] == FeaturesOf(Frame(bars)[r.value.dates[j]])
              && r.value.y[j] == bars[r.value.dates[j]].close
    ensures r.Ok? ==> forall i :: 0 <= i < |bars| && Complete(Frame(bars)[i]) ==> i in r.value.dates
  {
    if |bars| == 0 then Err("No data found")
    else
      var frame := Frame(bars);
      var dates := KeptFrom(frame, 0);
      Ok(Dataset(
        dates,
        seq(|dates|, j requires 0 <= j < |dates| => FeaturesOf(frame[dates[j]])),
        seq(|dates|, j requires 0 <= j < |dates| => bars[dates[j]].close)))
  }

  /** A row survives `dropna` exactly when all 21 bars of the long average exist, the close
      moved somewhere in the 14 bars ending there, and the volume did not stay at zero. */
  lemma CompleteIff(bars: seq<Bar>, i: nat)
    requires i < |bars|
    ensures Complete(RowAt(bars, i)) <==>
              i + 1 >= LongWindow
              && (exists t :: i + 1 - RsiPeriod <= t <= i && Moves(Closes(bars), t))
              && !(bars[i - 1].volume == 0 && bars[i].volume == 0)
  {
    RsiDefinedIff(Closes(bars), i);
  }

  /** A nonempty strictly increasing sequence of positions in [lo, hi) has at most hi - lo elements. */
  lemma {:induction false} IncreasingBound(s: seq<nat>, lo: nat, hi: nat)
    requires Increasing(s)
    requires forall j :: 0 <= j < |s| ==> lo <= s[j] < hi
    ensures |s| > 0 ==> lo + |s| <= hi
    decreases |s|
  {
    if |s| > 0 {
      forall j | 0 <= j < |s[1..]| ensures s[0] + 1 <= s[1..][j] < hi {
        assert s[1..][j] == s[j + 1];
      }
      IncreasingBound(s[1..], s[0] + 1, hi);
    }
  }

  /** At most `n - 20` rows remain of `n` bars, and none when there are 20 bars or fewer. */
  lemma KeptAtMost(bars: seq<Bar>)
    requires |bars| > 0
    ensures |bars| < LongWindow ==> PredictStockData(bars).value.x == []
    ensures |bars| >= LongWindow - 1 ==> |PredictStockData(bars).value.x| <= |bars| - (LongWindow - 1)
  {
    var d := PredictStockData(bars).value;
    forall j | 0 <= j < |d.dates| ensures LongWindow - 1 <= d.dates[j] < |bars| {
      assert Complete(Frame(bars)[d.dates[j]]);
    }
    IncreasingBound(d.dates, LongWindow - 1, |bars|);
  }

  /** Rows before `upto` that `dropna` drops contribute nothing. */
  lemma {:induction false} KeptSkipsIncomplete(frame: seq<Row>, from: nat, upto: nat)
    requires from <= upto <= |frame|
    requires forall i :: from <= i < upto ==> !Complete(frame[i])
    ensures KeptFrom(frame, from) == KeptFrom(frame, upto)
    decreases upto - from
  {
    if from < upto {
      KeptSkipsIncomplete(frame, from + 1, upto);
    }
  }

  /** When every row from `from` on is complete, all of them are kept. */
  lemma {:induction false} KeptAllComplete(frame: seq<Row>, from: nat)
    requires from <= |frame|
    requires forall i :: from <= i < |frame| ==> Complete(frame[i])
    ensures |KeptFrom(frame, from)| == |frame| - from
    decreases |frame| - from
  {
    if from < |frame| {
      KeptAllComplete(frame, from + 1);
    }
  }

  /** When the close changes at every bar and no volume is zero, exactly the first 20 rows
      are dropped. */
  lemma KeptExactly(bars: seq<Bar>)
    requires |bars| >= LongWindow - 1
    requires forall t :: 1 <= t < |bars| ==> bars[t].close != bars[t - 1].close
    requires forall t :: 0 <= t < |bars| ==> bars[t].volume > 0
    ensures |PredictStockData(bars).value.x| == |bars| - (LongWindow - 1)
  {
    var frame := Frame(bars);
    forall i | 0 <= i < LongWindow - 1 ensures !Complete(frame[i]) {
      CompleteIff(bars, i);
    }
    forall i | LongWindow - 1 <= i < |bars| ensures Complete(frame[i]) {
      CompleteIff(bars, i);
      assert Moves(Closes(bars), i);
    }
    KeptSkipsIncomplete(frame, 0, LongWindow - 1);
    KeptAllComplete(frame, LongWindow - 1);
  }

  /** No look-ahead: the indicator row of bar `i` is the same whatever bars follow it. */
  lemma RowCausal(bars: seq<Bar>, i: nat, j: nat)
    requires i <= j < |bars|
    ensures RowAt(bars[..j + 1], i) == RowAt(bars, i)
  {
    var prefix := bars[..j + 1];
    assert Closes(prefix) == Closes(bars)[..j + 1];
    assert Volumes(prefix) == Volumes(bars)[..j + 1];
    MovingAverageCausal(Closes(bars), ShortWindow, i, j);
    MovingAverageCausal(Closes(bars), LongWindow, i, j);
    RsiCausal(Closes(bars), i, j);
  }

  /** Every feature row is fully defined: its RSI lies in [0, 100] and its volume change
      is a number or, after a zero-volume bar, +infinity, never NaN. */
  lemma FeaturesDefined(bars: seq<Bar>)
    requires |bars| > 0
    ensures forall j :: 0 <= j < |PredictStockData(bars).value.x| ==>
              0.0 <= PredictStockData(bars).value.x[j].rsi <= 100.0
              && !PredictStockData(bars).value.x[j].volumeChange.NaN?
  {
  }
}
