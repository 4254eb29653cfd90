/** The technical indicators `predict_stock` adds to the downloaded price frame: 7- and
    21-bar moving averages of the close, the 14-bar RSI of `calculate_rsi`, and the
    volume percent change. Prices are exact reals; a pandas NaN is `None` (or `NaN`). */
module Indicators {
  import opened Wrappers
  import opened Stats

  const ShortWindow: nat := 7
  const LongWindow: nat := 21
  const RsiPeriod: nat := 14

  /** A floating-point cell as the volume percent change can produce it: a number,
      NaN (0/0 or no previous bar) or +infinity (a rise from zero volume). */
  datatype Pct = NaN | Finite(value: real) | PosInf

  /** `Series.rolling(window=k).mean()` at bar `i`: the mean of the `k` closes ending
      at `i`, undefined while fewer than `k` bars exist. */
  function MovingAverage(xs: seq<real>, k: nat, i: nat): (r: Option<real>)
    requires 1 <= k && i < |xs|
    ensures r.Some? <==> i + 1 >= k
  {
    if i + 1 < k then None else Some(Mean(xs[i + 1 - k .. i + 1]))
  }

  /** Where the running window of `RollingMean` starts once `i` bars have been read. */
  function WindowStart(i: nat, k: nat): nat
  {
    if i < k then 0 else i - k
  }

  /** The value that leaves the running window when bar `i` is read, once it is full. */
  function Leaving(xs: seq<real>, k: nat, i: nat): real
    requires i < |xs|
  {
    if i >= k then xs[i - k] else 0.0
  }

  /** Reading bar `i` moves the running window: `xs[i]` enters and `Leaving(xs, k, i)` leaves,
      and once the window is full its sum over `k` is the moving average at `i`. */
  lemma WindowStep(xs: seq<real>, k: nat, i: nat, total: real)
    requires 1 <= k && i < |xs|
    requires total == Sum(xs[WindowStart(i, k) .. i])
    ensures total + xs[i] - Leaving(xs, k, i) == Sum(xs[WindowStart(i + 1, k) .. i + 1])
    ensures MovingAverage(xs, k, i)
         == if i + 1 >= k then Some((total + xs[i] - Leaving(xs, k, i)) / (k as real)) else None
  {
    var lo := WindowStart(i, k);
    SumSnoc(xs[lo .. i], xs[i]);
    assert xs[lo .. i] + [xs[i]] == xs[lo .. i + 1];
    if i >= k {
      assert xs[lo .. i + 1][1..] == xs[lo + 1 .. i + 1];
    }
    if i + 1 >= k {
      assert WindowStart(i + 1, k) == i + 1 - k;
      assert |xs[i + 1 - k .. i + 1]| == k;
    }
  }

  /** The rolling mean computed the way pandas does, by adding the entering value to a
      running sum and subtracting the leaving one; it agrees with `MovingAverage` at every bar. */
  method RollingMean(xs: seq<real>, k: nat) returns (r: seq<Option<real>>)
    requires k >= 1
    ensures |r| == |xs|
    ensures forall i :: 0 <= i < |xs| ==> r[i] == MovingAverage(xs, k, i)
  {
    r := [];
    var total := 0.0;
    var i := 0;
    while i < |xs|
      invariant 0 <= i <= |xs|
      invariant |r| == i
      invariant forall j :: 0 <= j < i ==> r[j] == MovingAverage(xs, k, j)
      invariant total == Sum(xs[WindowStart(i, k) .. i])
    {
      WindowStep(xs, k, i, total);
      total := total + xs[i] - Leaving(xs, k, i);
      r := r + [if i + 1 >= k then Some(total / (k as real)) else None];
      i := i + 1;
    }
  }

  /** The close moved between bar `t - 1` and bar `t`. */
  predicate Moves(closes: seq<real>, t: nat)
    requires t < |closes|
  {
    t >= 1 && closes[t] != closes[t - 1]
  }

  /** `delta.where(delta > 0, 0)` at bar `t`; the undefined first difference becomes 0. */
  function Gain(closes: seq<real>, t: nat): (g: real)
    requires t < |closes|
    ensures g >= 0.0
    ensures g > 0.0 <==> t >= 1 && closes[t] > closes[t - 1]
  {
    if t == 0 then 0.0
    else
      var d := closes[t] - closes[t - 1];
      if d > 0.0 then d else 0.0
  }

  /** `-delta.where(delta < 0, 0)` at bar `t`; the undefined first difference becomes 0. */
  function Loss(closes: seq<real>, t: nat): (l: real)
    requires t < |closes|
    ensures l >= 0.0
    ensures l > 0.0 <==> t >= 1 && closes[t] < closes[t - 1]
  {
    if t == 0 then 0.0
    else
      var d := closes[t] - closes[t - 1];
      if d < 0.0 then -d else 0.0
  }

  /** Gain and loss split each price move: at most one of them is nonzero, their
      difference is the move, and both vanish at the first bar. */
  lemma GainLossSplit(closes: seq<real>, t: nat)
    requires t < |closes|
    ensures Gain(closes, t) == 0.0 || Loss(closes, t) == 0.0
    ensures t == 0 ==> Gain(closes, t) == 0.0 && Loss(closes, t) == 0.0
    ensures t >= 1 ==> Gain(closes, t) - Loss(closes, t) == closes[t] - closes[t - 1]
    ensures Gain(closes, t) + Loss(closes, t) > 0.0 <==> Moves(closes, t)
  {
  }

  function Gains(closes: seq<real>): seq<real>
  {
    seq(|closes|, t requires 0 <= t < |closes| => Gain(closes, t))
  }

  function Losses(closes: seq<real>): seq<real>
  {
    seq(|closes|, t requires 0 <= t < |closes| => Loss(closes, t))
  }

  /** `100 - 100 / (1 + gain / loss)` over exact reals, with the IEEE outcomes of a zero
      average loss made explicit: gain / 0 is +infinity, giving 100, and 0 / 0 is NaN. */
  function RsiOf(avgGain: real, avgLoss: real): (r: Option<real>)
    requires avgGain >= 0.0 && avgLoss >= 0.0
    ensures r.Some? <==> avgGain + avgLoss > 0.0
    ensures r.Some? ==> r.value == 100.0 * avgGain / (avgGain + avgLoss)
    ensures r.Some? ==> 0.0 <= r.value <= 100.0
    ensures avgLoss > 0.0 ==> r.Some? && r.value < 100.0
  {
    if avgLoss > 0.0 then
      RsiClosedForm(avgGain, avgLoss);
      Some(100.0 - 100.0 / (1.0 + avgGain / avgLoss))
    else if avgGain > 0.0 then
      assert 100.0 * avgGain / (avgGain + avgLoss) == 100.0 * (avgGain / avgGain);
      Some(100.0)
    else None
  }

  /** A product with a positive factor can be cancelled. */
  lemma CancelPositive(x: real, y: real, c: real)
    requires c > 0.0
    ensures x * c == y * c ==> x == y
    ensures x * c < y * c ==> x < y
    ensures x * c >= 0.0 ==> x >= 0.0
  {
  }

  /** The textbook form of the RSI equals 100 · gain / (gain + loss) when the loss is positive. */
  lemma RsiClosedForm(avgGain: real, avgLoss: real)
    requires avgGain >= 0.0 && avgLoss > 0.0
    ensures 100.0 - 100.0 / (1.0 + avgGain / avgLoss) == 100.0 * avgGain / (avgGain + avgLoss)
    ensures 0.0 <= 100.0 * avgGain / (avgGain + avgLoss) < 100.0
  {
    var g, l := avgGain, avgLoss;
    var rs := g / l;
    assert rs * l == g;
    var q := 100.0 / (1.0 + rs);
    assert q * (1.0 + rs) == 100.0;
    assert (q * (1.0 + rs)) * l == 100.0 * l;
    assert q * l + q * (rs * l) == 100.0 * l;
    assert q * (g + l) == 100.0 * l;
    var t := 100.0 * g / (g + l);
    assert t * (g + l) == 100.0 * g;
    assert (100.0 - q) * (g + l) == t * (g + l);
    CancelPositive(100.0 - q, t, g + l);
    assert t * (g + l) < 100.0 * (g + l);
    CancelPositive(t, 100.0, g + l);
  }

  /** `calculate_rsi(closes)` at bar `i`: undefined until 14 gains and losses exist
      (from bar 13, since the first difference counts as 0). */
  function Rsi(closes: seq<real>, i: nat): (r: Option<real>)
    requires i < |closes|
    ensures i + 1 < RsiPeriod ==> r.None?
    ensures r.Some? ==> 0.0 <= r.value <= 100.0
  {
    if i + 1 < RsiPeriod then None
    else
      var lo := i + 1 - RsiPeriod;
      var gains := Gains(closes)[lo .. i + 1];
      var losses := Losses(closes)[lo .. i + 1];
      MeanPositiveIff(gains);
      MeanPositiveIff(losses);
      RsiOf(Mean(gains), Mean(losses))
  }

  /** `Series.pct_change()` of the volume at bar `i`, with the IEEE outcomes of a zero
      previous volume: NaN for 0 to 0, +infinity for a rise from 0. */
  function VolumeChange(volumes: seq<nat>, i: nat): (r: Pct)
    requires i < |volumes|
    ensures r.NaN? <==> i == 0 || (volumes[i - 1] == 0 && volumes[i] == 0)
    ensures r.PosInf? <==> i >= 1 && volumes[i - 1] == 0 && volumes[i] > 0
    ensures r.Finite? ==> r.value >= -1.0
    ensures r.Finite? ==> (volumes[i - 1] as real) * (1.0 + r.value) == volumes[i] as real
  {
    if i == 0 then NaN
    else if volumes[i - 1] == 0 then (if volumes[i] == 0 then NaN else PosInf)
    else
      var prev := volumes[i - 1] as real;
      var change := (volumes[i] as real - prev) / prev;
      assert prev * (1.0 + change) == volumes[i] as real;
      Finite(change)
  }

  /** The moving average lies within the range of the closes in its window. */
  lemma MovingAverageBounds(xs: seq<real>, k: nat, i: nat, lo: real, hi: real)
    requires 1 <= k && k <= i + 1 && i < |xs|
    requires forall t :: i + 1 - k <= t <= i ==> lo <= xs[t] <= hi
    ensures lo <= MovingAverage(xs, k, i).value <= hi
  {
    var w := xs[i + 1 - k .. i + 1];
    assert forall t :: 0 <= t < |w| ==> w[t] == xs[i + 1 - k + t];
    MeanBounds(w, lo, hi);
  }

  /** No look-ahead: the moving average at bar `i` is the same whatever bars follow it. */
  lemma MovingAverageCausal(xs: seq<real>, k: nat, i: nat, j: nat)
    requires 1 <= k && i <= j < |xs|
    ensures MovingAverage(xs[..j + 1], k, i) == MovingAverage(xs, k, i)
  {
    if i + 1 >= k {
      assert xs[..j + 1][i + 1 - k .. i + 1] == xs[i + 1 - k .. i + 1];
    }
  }

  /** The RSI at bar `i` is defined exactly when `i` is at least 13 and the close moved
      somewhere in the 14 bars ending at `i`; a flat window gives 0 / 0. */
  lemma RsiDefinedIff(closes: seq<real>, i: nat)
    requires i < |closes|
    ensures Rsi(closes, i).Some? <==>
              i + 1 >= RsiPeriod && exists t :: i + 1 - RsiPeriod <= t <= i && Moves(closes, t)
  {
    if i + 1 >= RsiPeriod {
      var lo := i + 1 - RsiPeriod;
      var gains := Gains(closes)[lo .. i + 1];
      var losses := Losses(closes)[lo .. i + 1];
      MeanPositiveIff(gains);
      MeanPositiveIff(losses);
      forall k | 0 <= k < |gains|
        ensures gains[k] + losses[k] > 0.0 <==> Moves(closes, lo + k)
      {
        GainLossSplit(closes, lo + k);
      }
      if Rsi(closes, i).Some? {
        assert Mean(gains) > 0.0 || Mean(losses) > 0.0;
        var k :| 0 <= k < |gains| && (gains[k] > 0.0 || losses[k] > 0.0);
        assert Moves(closes, lo + k);
      } else {
        forall t | lo <= t <= i ensures !Moves(closes, t) {
          assert gains[t - lo] + losses[t - lo] == 0.0;
        }
      }
    }
  }

  /** No look-ahead: the RSI at bar `i` is the same whatever bars follow it. */
  lemma RsiCausal(closes: seq<real>, i: nat, j: nat)
    requires i <= j < |closes|
    ensures Rsi(closes[..j + 1], i) == Rsi(closes, i)
  {
    if i + 1 >= RsiPeriod {
      var lo := i + 1 - RsiPeriod;
      var prefix := closes[..j + 1];
      assert Gains(prefix)[lo .. i + 1] == Gains(closes)[lo .. i + 1];
      assert Losses(prefix)[lo .. i + 1] == Losses(closes)[lo .. i + 1];
    }
  }

  /** On strictly rising closes every defined RSI is 100: no loss in any window,
      and the last gain of each window is positive. */
  lemma RsiOfRisingSeries(closes: seq<real>)
    requires forall t :: 1 <= t < |closes| ==> closes[t - 1] < closes[t]
    ensures forall i :: RsiPeriod <= i + 1 <= |closes| ==> Rsi(closes, i) == Some(100.0)
  {
    forall i | RsiPeriod <= i + 1 <= |closes|
      ensures Rsi(closes, i) == Some(100.0)
    {
      var lo := i + 1 - RsiPeriod;
      var gains := Gains(closes)[lo .. i + 1];
      var losses := Losses(closes)[lo .. i + 1];
      MeanPositiveIff(gains);
      MeanPositiveIff(losses);
      assert gains[|gains| - 1] > 0.0;
      assert forall k :: 0 <= k < |losses| ==> losses[k] == 0.0;
      assert Mean(losses) == 0.0;
    }
  }
}
