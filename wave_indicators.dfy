/** The weekly-bar indicators of the wave screener, each reduced to the value
    or flag the screener reads from the last bars. Prices and volumes are
    whole won; averages and ratios are exact reals standing in for floats. */
module WaveIndicators {
  import opened Series

  // ---------------------------------------------------------------------
  // Bollinger bands (20 bars, 2 standard deviations)

  const BollingerWindow: nat := 20

  /** %B of the latest bar. `sd` is the 20-bar standard deviation of the
      closes at that bar (it needs a square root, so it is an input). None
      where pandas yields NaN: fewer than 20 bars, or a zero deviation, which
      means the 20 closes are all equal and %B is 0/0. */
  function BollingerPctB(closes: seq<int>, sd: real): Option<real> {
    if |closes| < BollingerWindow || sd <= 0.0 then None
    else
      var mid := Mean(closes[|closes| - BollingerWindow..]);
      var upper, lower := mid + 2.0 * sd, mid - 2.0 * sd;
      Some((Last(closes) as real - lower) / (upper - lower))
  }

  /** `current_pctb < 0.2`; a NaN %B compares false. */
  predicate InBollingerLow(closes: seq<int>, sd: real) {
    match BollingerPctB(closes, sd)
    case Some(b) => b < 0.2
    case None => false
  }

  /** Near the lower band means the close is below the middle band by more
      than 1.2 standard deviations (a fifth of the band width above the
      lower band). */
  lemma BollingerLowBand(closes: seq<int>, sd: real)
    requires |closes| >= BollingerWindow && sd > 0.0
    ensures InBollingerLow(closes, sd) <==>
            (Last(closes) as real) < Mean(closes[|closes| - BollingerWindow..]) - 1.2 * sd
  {
    var mid := Mean(closes[|closes| - BollingerWindow..]);
    var c := Last(closes) as real;
    var lower, k := mid - 2.0 * sd, 4.0 * sd;
    assert (mid + 2.0 * sd) - lower == k;
    var b := (c - lower) / k;
    assert BollingerPctB(closes, sd) == Some(b);
    DivUnique(b, c - lower, k);
    assert InBollingerLow(closes, sd) <==> b < 0.2;
    ScaledBelow(b, k, c - lower, 0.2);
  }

  // ---------------------------------------------------------------------
  // On-balance volume

  /** OBV at bar i: the first bar's volume, then plus the volume on an up
      close, minus it on a down close, unchanged on a flat close. */
  function ObvAt(bars: seq<Bar>, i: nat): int
    requires i < |bars|
  {
    if i == 0 then bars[0].volume
    else if bars[i].close > bars[i - 1].close then ObvAt(bars, i - 1) + bars[i].volume
    else if bars[i].close < bars[i - 1].close then ObvAt(bars, i - 1) - bars[i].volume
    else ObvAt(bars, i - 1)
  }

  function ObvSeries(bars: seq<Bar>): seq<int> {
    seq(|bars|, i requires 0 <= i < |bars| => ObvAt(bars, i))
  }

  /** The `obv` column, written bar by bar from the first. */
  method CalculateObv(bars: seq<Bar>) returns (obv: array<int>)
    ensures fresh(obv) && obv.Length == |bars|
    ensures forall i :: 0 <= i < |bars| ==> obv[i] == ObvAt(bars, i)
  {
    obv := new int[|bars|];
    if |bars| == 0 {
      return;
    }
    obv[0] := bars[0].volume;
    for i := 1 to |bars|
      invariant forall j :: 0 <= j < i ==> obv[j] == ObvAt(bars, j)
    {
      var prev := obv[i - 1];
      if bars[i].close > bars[i - 1].close {
        obv[i] := prev + bars[i].volume;
      } else if bars[i].close < bars[i - 1].close {
        obv[i] := prev - bars[i].volume;
      } else {
        obv[i] := prev;
      }
    }
  }

  /** `obv[-1] > obv_ma[-1]`, the 10-bar mean being NaN below 10 bars. */
  predicate ObvRising(bars: seq<Bar>) {
    match TrailingMean(ObvSeries(bars), 10)
    case Some(ma) => Last(ObvSeries(bars)) as real > ma
    case None => false
  }

  /** OBV is rising exactly when there are ten bars and ten times the latest
      OBV exceeds the total OBV of the last ten bars. */
  lemma ObvRisingIff(bars: seq<Bar>)
    ensures var n, obv := |bars|, ObvSeries(bars);
      ObvRising(bars) <==> n >= 10 && 10 * ObvAt(bars, n - 1) > Sum(obv[n - 10..])
  {
    var n, obv := |bars|, ObvSeries(bars);
    if n >= 10 {
      var total := Sum(obv[n - 10..]) as real;
      assert Mean(obv[n - 10..]) == total / 10.0;
      assert Last(obv) == ObvAt(bars, n - 1);
      var v := ObvAt(bars, n - 1) as real;
      assert v > total / 10.0 <==> 10.0 * v > total;
    }
  }

  /** On a strictly rising path OBV at bar t is the total volume of bars 0..t. */
  lemma {:induction false} ObvOnRisingCloses(bars: seq<Bar>, t: nat)
    requires t < |bars|
    requires forall i :: 0 < i < |bars| ==> bars[i - 1].close < bars[i].close
    ensures ObvAt(bars, t) == Sum(Volumes(bars)[..t + 1])
  {
    if t == 0 {
      assert Volumes(bars)[..1] == [bars[0].volume];
    } else {
      ObvOnRisingCloses(bars, t - 1);
      SumSnoc(Volumes(bars), t);
    }
  }

  /** On a flat path OBV never moves from the first bar's volume. */
  lemma {:induction false} ObvOnFlatCloses(bars: seq<Bar>, t: nat)
    requires t < |bars|
    requires forall i :: 0 < i < |bars| ==> bars[i - 1].close == bars[i].close
    ensures ObvAt(bars, t) == bars[0].volume
  {
    if t > 0 {
      ObvOnFlatCloses(bars, t - 1);
    }
  }

  /** With non-negative volumes OBV never exceeds the volume traded so far,
      in either direction. */
  lemma {:induction false} ObvBoundedByVolume(bars: seq<Bar>, t: nat)
    requires t < |bars|
    requires forall i :: 0 <= i < |bars| ==> bars[i].volume >= 0
    ensures -Sum(Volumes(bars)[..t + 1]) <= ObvAt(bars, t) <= Sum(Volumes(bars)[..t + 1])
  {
    if t == 0 {
      assert Volumes(bars)[..1] == [bars[0].volume];
    } else {
      ObvBoundedByVolume(bars, t - 1);
      SumSnoc(Volumes(bars), t);
    }
  }

  // ---------------------------------------------------------------------
  // MACD (12/26 exponential means, 9-bar signal)

  function ToReals(s: seq<int>): seq<real> {
    seq(|s|, i requires 0 <= i < |s| => s[i] as real)
  }

  /** pandas `ewm(span, adjust=False).mean()`: y[0] = x[0] and
      y[t] = (1 - a) y[t-1] + a x[t] with a = 2 / (span + 1). */
  function Ewm(xs: seq<real>, span: nat): (ys: seq<real>)
    requires span >= 1
    ensures |ys| == |xs|
  {
    if |xs| <= 1 then xs
    else
      var prev := Ewm(xs[..|xs| - 1], span);
      var a := 2.0 / (span + 1) as real;
      prev + [(1.0 - a) * Last(prev) + a * Last(xs)]
  }

  /** One smoothing step stays between the bounds of its two inputs. */
  lemma ConvexStep(a: real, y: real, x: real, lo: real, hi: real)
    requires 0.0 <= a <= 1.0
    requires lo <= y <= hi && lo <= x <= hi
    ensures lo <= (1.0 - a) * y + a * x <= hi
  {
    MulNonNegative(1.0 - a, y - lo);
    MulNonNegative(a, x - lo);
    MulNonNegative(1.0 - a, hi - y);
    MulNonNegative(a, hi - x);
    assert (1.0 - a) * y + a * x - lo == (1.0 - a) * (y - lo) + a * (x - lo);
    assert hi - ((1.0 - a) * y + a * x) == (1.0 - a) * (hi - y) + a * (hi - x);
  }

  /** The smoothing factor 2 / (span + 1) of a span of at least 1 lies in (0, 1]. */
  lemma SmoothingFactorBounds(span: nat)
    requires span >= 1
    ensures 0.0 < 2.0 / (span + 1) as real <= 1.0
  {
    var d := (span + 1) as real;
    assert d >= 2.0;
    DivUnique(2.0 / d, 2.0, d);
    DivUnique((d - 2.0) / d, d - 2.0, d);
    assert 1.0 - 2.0 / d == (d - 2.0) / d;
  }

  lemma MulCongruence(x: real, a: real, b: real)
    requires a == b
    ensures x * a == x * b
  {
  }

  lemma MulAssoc(x: real, y: real, z: real)
    ensures (x * y) * z == x * (y * z)
  {
  }

  lemma MulCancel(x: real, y: real, z: real)
    requires z > 0.0 && x * z == y * z
    ensures x == y
  {
  }

  /** An exponential mean stays within the range of what it averages. */
  lemma {:induction false} EwmWithinBounds(xs: seq<real>, span: nat, lo: real, hi: real)
    requires span >= 1
    requires forall i :: 0 <= i < |xs| ==> lo <= xs[i] <= hi
    ensures forall i :: 0 <= i < |xs| ==> lo <= Ewm(xs, span)[i] <= hi
  {
    if |xs| > 1 {
      var init := xs[..|xs| - 1];
      EwmWithinBounds(init, span, lo, hi);
      var prev := Ewm(init, span);
      var a := 2.0 / (span + 1) as real;
      SmoothingFactorBounds(span);
      ConvexStep(a, Last(prev), Last(xs), lo, hi);
    }
  }

  function Minus(a: seq<real>, b: seq<real>): (d: seq<real>)
    requires |a| == |b|
  {
    seq(|a|, i requires 0 <= i < |a| => a[i] - b[i])
  }

  function Macd(closes: seq<int>): seq<real> {
    Minus(Ewm(ToReals(closes), 12), Ewm(ToReals(closes), 26))
  }

  function MacdSignal(closes: seq<int>): seq<real> {
    Ewm(Macd(closes), 9)
  }

  function MacdHist(closes: seq<int>): seq<real> {
    Minus(Macd(closes), MacdSignal(closes))
  }

  datatype MacdFlags = MacdFlags(histRising: bool, goldenCross: bool)

  /** The histogram is rising when positive and strictly increasing over the
      last three bars; a golden cross is MACD moving from below to above its
      signal between the last two bars. Fewer than three bars raise
      IndexError, and both flags fall back to false. */
  function CalculateMacd(closes: seq<int>): MacdFlags {
    var n := |closes|;
    if n < 3 then MacdFlags(false, false)
    else
      var m, s, h := Macd(closes), MacdSignal(closes), MacdHist(closes);
      MacdFlags(h[n - 1] > 0.0 && h[n - 1] > h[n - 2] > h[n - 3],
                m[n - 2] < s[n - 2] && m[n - 1] > s[n - 1])
  }

  /** Fewer than three bars give neither flag; otherwise the histogram is
      rising when it is positive, so MACD is above its signal, and has grown
      over each of the last two bars. */
  lemma MacdFlagsIff(closes: seq<int>)
    ensures |closes| < 3 ==> CalculateMacd(closes) == MacdFlags(false, false)
    ensures |closes| >= 3 ==>
      var n, m, s, h := |closes|, Macd(closes), MacdSignal(closes), MacdHist(closes);
      (CalculateMacd(closes).histRising <==> m[n - 1] > s[n - 1] && h[n - 1] > h[n - 2] > h[n - 3])
  {
  }

  /** A golden cross is the histogram changing sign from negative to positive. */
  lemma GoldenCrossIsHistogramSignChange(closes: seq<int>)
    requires |closes| >= 3
    ensures var n, h := |closes|, MacdHist(closes);
            CalculateMacd(closes).goldenCross <==> h[n - 2] < 0.0 && h[n - 1] > 0.0
  {
  }

  /** A flat price path gives neither MACD signal. */
  lemma FlatClosesGiveNoMacdSignal(closes: seq<int>)
    requires forall i :: 0 <= i < |closes| ==> closes[i] == closes[0]
    ensures CalculateMacd(closes) == MacdFlags(false, false)
  {
    var n := |closes|;
    if n >= 3 {
      var c := closes[0] as real;
      EwmWithinBounds(ToReals(closes), 12, c, c);
      EwmWithinBounds(ToReals(closes), 26, c, c);
      var m := Macd(closes);
      assert forall i :: 0 <= i < n ==> m[i] == 0.0;
      EwmWithinBounds(m, 9, 0.0, 0.0);
      var s := MacdSignal(closes);
      assert s[n - 2] == 0.0 && s[n - 1] == 0.0;
    }
  }

  // ---------------------------------------------------------------------
  // RSI (14 bars, simple rolling means)

  const RsiPeriod: nat := 14

  /** `delta.where(delta > 0, 0)`: the first delta is NaN and becomes 0. */
  function Gains(closes: seq<int>): seq<int> {
    seq(|closes|, i requires 0 <= i < |closes| =>
      if i > 0 && closes[i] > closes[i - 1] then closes[i] - closes[i - 1] else 0)
  }

  /** `-delta.where(delta < 0, 0)`. */
  function Losses(closes: seq<int>): seq<int> {
    seq(|closes|, i requires 0 <= i < |closes| =>
      if i > 0 && closes[i] < closes[i - 1] then closes[i - 1] - closes[i] else 0)
  }

  /** RSI at bar i from the 14-bar simple means of gains and losses. None is
      NaN: fewer than 14 bars, or no movement at all (0/0). No losses with
      some gains gives an infinite RS and an RSI of 100. */
  function RsiAt(closes: seq<int>, i: nat): Option<real>
    requires i < |closes|
  {
    if i + 1 < RsiPeriod then None
    else
      var g, l := AvgGain(closes, i), AvgLoss(closes, i);
      if l == 0.0 then (if g == 0.0 then None else Some(100.0))
      else
        RsAlgebra(g, l);
        Some(100.0 - 100.0 / (1.0 + g / l))
  }

  /** `gain.rolling(14).mean()` at bar i. */
  function AvgGain(closes: seq<int>, i: nat): (g: real)
    requires RsiPeriod <= i + 1 <= |closes|
    ensures g >= 0.0
  {
    var w := Gains(closes)[i + 1 - RsiPeriod..i + 1];
    SumNonNegative(w);
    Mean(w)
  }

  /** `loss.rolling(14).mean()` at bar i. */
  function AvgLoss(closes: seq<int>, i: nat): (l: real)
    requires RsiPeriod <= i + 1 <= |closes|
    ensures l >= 0.0
  {
    var w := Losses(closes)[i + 1 - RsiPeriod..i + 1];
    SumNonNegative(w);
    Mean(w)
  }

  /** 100 - 100 / (1 + g/l) is the gains' share 100 g / (g + l), in [0, 100]. */
  lemma RsAlgebra(g: real, l: real)
    requires g >= 0.0 && l > 0.0
    ensures 1.0 + g / l >= 1.0
    ensures 100.0 - 100.0 / (1.0 + g / l) == 100.0 * g / (g + l)
    ensures 0.0 <= 100.0 * g / (g + l) <= 100.0
  {
    var r := g / l;
    DivUnique(r, g, l);
    var d := 1.0 + r;
    assert d * l == g + l;
    var q := 100.0 / d;
    assert q * d == 100.0;
    var t := 100.0 * l / (g + l);
    DivUnique(t, 100.0 * l, g + l);
    MulAssoc(t, d, l);
    MulCongruence(t, d * l, g + l);
    MulCancel(t * d, 100.0, l);
    DivUnique(t, 100.0, d);
    assert q == t;
    assert (100.0 - t) * (g + l) == 100.0 * g;
    DivUnique(100.0 - t, 100.0 * g, g + l);
    var u := g / (g + l);
    DivUnique(u, g, g + l);
    assert (1.0 - u) * (g + l) == l;
    DivUnique(1.0 - u, l, g + l);
    assert 100.0 * g / (g + l) == 100.0 * u;
  }

  /** Each step is either a gain or a loss, never both, and they recover the
      price change. */
  lemma GainLossSplit(closes: seq<int>, i: nat)
    requires 0 < i < |closes|
    ensures Gains(closes)[i] >= 0 && Losses(closes)[i] >= 0
    ensures Gains(closes)[i] == 0 || Losses(closes)[i] == 0
    ensures Gains(closes)[i] - Losses(closes)[i] == closes[i] - closes[i - 1]
  {
  }

  /** RSI is the gains' share of all movement in the window, so it lies in
      [0, 100]; it is defined exactly when the window has 14 bars and some
      movement. */
  lemma RsiIsGainShare(closes: seq<int>, i: nat)
    requires i < |closes|
    ensures i + 1 < RsiPeriod ==> RsiAt(closes, i).None?
    ensures i + 1 >= RsiPeriod ==>
      var g, l := AvgGain(closes, i), AvgLoss(closes, i);
      (RsiAt(closes, i).Some? <==> g + l > 0.0) &&
      (g + l > 0.0 ==> RsiAt(closes, i) == Some(100.0 * g / (g + l)))
    ensures RsiAt(closes, i).Some? ==> 0.0 <= RsiAt(closes, i).value <= 100.0
  {
    if i + 1 >= RsiPeriod {
      var g, l := AvgGain(closes, i), AvgLoss(closes, i);
      if l > 0.0 {
        RsAlgebra(g, l);
      } else if g > 0.0 {
        assert 100.0 * g / (g + l) == 100.0;
      }
    }
  }

  datatype RsiFlags = RsiFlags(rsi: Option<real>, oversold: bool, rising: bool)

  /** Oversold is the latest RSI below 30; rising is the RSI strictly
      increasing over the last three bars (any NaN compares false). Fewer
      than three bars raise IndexError: no RSI and both flags false. */
  function CalculateRsi(closes: seq<int>): RsiFlags {
    var n := |closes|;
    if n < 3 then RsiFlags(None, false, false)
    else
      var r1, r2, r3 := RsiAt(closes, n - 1), RsiAt(closes, n - 2), RsiAt(closes, n - 3);
      RsiFlags(r1,
               r1.Some? && r1.value < 30.0,
               r1.Some? && r2.Some? && r3.Some? && r1.value > r2.value > r3.value)
  }

  /** Below 14 bars there is no RSI and neither flag. */
  lemma RsiShortHistory(closes: seq<int>)
    requires |closes| < RsiPeriod
    ensures CalculateRsi(closes) == RsiFlags(None, false, false)
  {
    var n := |closes|;
    if n >= 3 {
      RsiIsGainShare(closes, n - 1);
      RsiIsGainShare(closes, n - 2);
      RsiIsGainShare(closes, n - 3);
    }
  }

  /** From 14 bars on the latest RSI is reported, and it is oversold exactly
      when the market moved and the average gain is under 3/7 of the
      average loss (RSI below 30). */
  lemma RsiOversoldIff(closes: seq<int>)
    requires |closes| >= RsiPeriod
    ensures var n := |closes|;
      var g, l := AvgGain(closes, n - 1), AvgLoss(closes, n - 1);
      CalculateRsi(closes).rsi == RsiAt(closes, n - 1) &&
      (CalculateRsi(closes).oversold <==> g + l > 0.0 && 7.0 * g < 3.0 * l)
  {
    var n := |closes|;
    var g, l := AvgGain(closes, n - 1), AvgLoss(closes, n - 1);
    RsiIsGainShare(closes, n - 1);
    if g + l > 0.0 {
      OversoldShare(g, l);
    }
  }

  /** Rising compares three RSI values, so it needs at least 16 bars. */
  lemma RsiRisingNeedsSixteenBars(closes: seq<int>)
    requires CalculateRsi(closes).rising
    ensures |closes| >= RsiPeriod + 2
  {
    var n := |closes|;
    RsiIsGainShare(closes, n - 3);
  }

  /** The gains' share is below 30 exactly when 7 g < 3 l. */
  lemma OversoldShare(g: real, l: real)
    requires g >= 0.0 && l >= 0.0 && g + l > 0.0
    ensures 100.0 * g / (g + l) < 30.0 <==> 7.0 * g < 3.0 * l
  {
    var t := g + l;
    var q := 100.0 * g / t;
    DivUnique(q, 100.0 * g, t);
    ScaledBelow(q, t, 100.0 * g, 30.0);
  }

  /** A 14-bar window without any losing step is never oversold. */
  lemma NoLossesNeverOversold(closes: seq<int>)
    requires forall i :: 0 < i < |closes| ==> closes[i - 1] <= closes[i]
    ensures !CalculateRsi(closes).oversold
  {
    var n := |closes|;
    if n >= RsiPeriod {
      var lw := Losses(closes)[n - RsiPeriod..n];
      assert forall j :: 0 <= j < |lw| ==> lw[j] == 0;
      ZeroSum(lw);
      assert AvgLoss(closes, n - 1) == 0.0;
    } else {
      RsiShortHistory(closes);
    }
  }

  lemma {:induction false} ZeroSum(s: seq<int>)
    requires forall j :: 0 <= j < |s| ==> s[j] == 0
    ensures Sum(s) == 0
  {
    if s != [] {
      ZeroSum(s[..|s| - 1]);
    }
  }

  // ---------------------------------------------------------------------
  // Volume trend

  datatype VolumeTrend = VolumeTrend(increasing: bool, decreasePattern: bool)

  /** Increasing: latest volume above its 10-bar mean. Decrease pattern:
      v[-4] > v[-3] > v[-2], which leaves the latest bar out. Fewer than four
      bars raise IndexError and both flags fall back to false. */
  function CheckVolumeTrend(volumes: seq<int>): VolumeTrend {
    var n := |volumes|;
    if n < 4 then VolumeTrend(false, false)
    else
      VolumeTrend(match TrailingMean(volumes, 10)
                  case Some(ma) => volumes[n - 1] as real > ma
                  case None => false,
                  volumes[n - 4] > volumes[n - 3] > volumes[n - 2])
  }

  /** Fewer than four bars give neither flag. Otherwise the decrease pattern
      is v[-4] > v[-3] > v[-2], and volume is increasing exactly when there
      are ten bars and ten times the latest volume exceeds their total. */
  lemma VolumeTrendIff(volumes: seq<int>)
    ensures |volumes| < 4 ==> CheckVolumeTrend(volumes) == VolumeTrend(false, false)
    ensures |volumes| >= 4 ==>
      var n, t := |volumes|, CheckVolumeTrend(volumes);
      (t.decreasePattern <==> volumes[n - 4] > volumes[n - 3] > volumes[n - 2]) &&
      (t.increasing <==> n >= 10 && 10 * volumes[n - 1] > Sum(volumes[n - 10..]))
  {
    var n := |volumes|;
    if n >= 10 {
      var total := Sum(volumes[n - 10..]) as real;
      assert Mean(volumes[n - 10..]) == total / 10.0;
      var v := volumes[n - 1] as real;
      assert v > total / 10.0 <==> 10.0 * v > total;
    }
  }

  /** The decrease pattern does not look at the latest bar's volume. */
  lemma DecreasePatternIgnoresLatest(volumes: seq<int>, v: int)
    requires |volumes| >= 4
    ensures CheckVolumeTrend(volumes[|volumes| - 1 := v]).decreasePattern
            == CheckVolumeTrend(volumes).decreasePattern
  {
  }

  // ---------------------------------------------------------------------
  // Market cap and MA240 band

  const WaveCapFloor: int := 300_000_000_000

  /** `marcap >= 300000000000`. */
  predicate PassesMarketCap(marcap: int) {
    marcap >= WaveCapFloor
  }

  /** The floor of 300 billion won is inclusive, and a larger cap never
      fails where a smaller one passes. */
  lemma MarketCapFloor(marcap: int, larger: int)
    ensures PassesMarketCap(300_000_000_000) && !PassesMarketCap(299_999_999_999)
    ensures marcap <= larger && PassesMarketCap(marcap) ==> PassesMarketCap(larger)
  {
  }

  /** The close lies within [0.5, 1.5] times the 240-bar mean, both bounds
      inclusive; false with fewer than 240 bars. */
  predicate InMa240Band(closes: seq<int>) {
    match TrailingMean(closes, 240)
    case Some(ma) => Last(closes) as real >= ma * 0.5 && Last(closes) as real <= ma * 1.5
    case None => false
  }

  /** Fewer than 240 bars never pass. With a positive 240-bar mean the close
      passes exactly when its distance from the mean is at most half the
      mean; a negative mean makes the band empty, and a zero mean admits
      only a zero close. */
  lemma Ma240BandIff(closes: seq<int>)
    ensures |closes| < 240 ==> !InMa240Band(closes)
    ensures |closes| >= 240 ==>
      var ma, c := Mean(closes[|closes| - 240..]), Last(closes) as real;
      (ma > 0.0 ==> (InMa240Band(closes) <==> Abs(c - ma) / ma <= 0.5)) &&
      (ma < 0.0 ==> !InMa240Band(closes)) &&
      (ma == 0.0 ==> (InMa240Band(closes) <==> c == 0.0))
  {
    if |closes| >= 240 {
      var ma, c := Mean(closes[|closes| - 240..]), Last(closes) as real;
      if ma > 0.0 {
        var dist := Abs(c - ma);
        assert dist == if c < ma then ma - c else c - ma;
        var q := dist / ma;
        DivUnique(q, dist, ma);
        ScaledAtMost(q, ma, dist, 0.5);
      }
    }
  }

  // ---------------------------------------------------------------------
  // Wave high/low and Fibonacci retracement

  const HighPeriod: nat := 20
  const LowPeriod: nat := 10

  datatype WaveData = WaveData(wave3High: int, wave4Low: int, fib236: real, fib382: real,
                               inFibZone: bool, recentRebound: bool)

  /** Position of the 20-bar high in the whole series. */
  function HighPos(bars: seq<Bar>): (p: nat)
    requires |bars| >= HighPeriod
    ensures |bars| - HighPeriod <= p < |bars|
  {
    |bars| - HighPeriod + FirstArgMax(Highs(bars[|bars| - HighPeriod..]))
  }

  /** The bars from the high through at most nine bars after it. */
  function PostHigh(bars: seq<Bar>, hp: nat): (post: seq<Bar>)
    requires hp < |bars|
    ensures 0 < |post| <= LowPeriod
  {
    bars[hp..if hp + LowPeriod < |bars| then hp + LowPeriod else |bars|]
  }

  /** None with fewer than 30 bars or when the 20-bar high is on the last
      bar; otherwise the high, the lowest low after it, the 23.6% and 38.2%
      retracement levels, whether the close lies between them, and whether
      the last close rose. */
  function IdentifyWavePattern(bars: seq<Bar>): Option<WaveData> {
    var n := |bars|;
    if n < HighPeriod + LowPeriod then None
    else
      var hp := HighPos(bars);
      if hp >= n - 1 then None
      else
        var high := bars[hp].high;
        var low := MinOf(Lows(PostHigh(bars, hp)));
        var range := (high - low) as real;
        var fib382, fib236 := high as real - range * 0.382, high as real - range * 0.236;
        var close := Last(bars).close as real;
        Some(WaveData(high, low, fib236, fib382,
                      close <= fib236 && close >= fib382,
                      Last(bars).close > bars[n - 2].close))
  }

  /** The pattern is missing exactly when history is short or the last bar
      makes a strict new 20-bar high. */
  lemma WavePatternMissing(bars: seq<Bar>)
    ensures IdentifyWavePattern(bars).None? <==>
      |bars| < HighPeriod + LowPeriod ||
      forall j :: |bars| - HighPeriod <= j < |bars| - 1 ==> bars[j].high < Last(bars).high
  {
    var n := |bars|;
    if n >= HighPeriod + LowPeriod {
      var w := Highs(bars[n - HighPeriod..]);
      var k := FirstArgMax(w);
      assert forall j :: n - HighPeriod <= j < n ==> bars[j].high == w[j - (n - HighPeriod)];
      if HighPos(bars) >= n - 1 {
        assert k == HighPeriod - 1;
        forall j | n - HighPeriod <= j < n - 1 ensures bars[j].high < Last(bars).high {
          assert w[j - (n - HighPeriod)] < w[k];
        }
      } else {
        assert w[k] >= w[HighPeriod - 1];
        assert bars[n - HighPeriod + k].high >= Last(bars).high;
      }
    }
  }

  /** wave3_high is the 20-bar high and sits on a bar before the last. */
  lemma WaveHigh(bars: seq<Bar>)
    requires IdentifyWavePattern(bars).Some?
    ensures var n, hp := |bars|, HighPos(bars);
      n - HighPeriod <= hp < n - 1 &&
      IdentifyWavePattern(bars).value.wave3High == bars[hp].high &&
      forall j :: n - HighPeriod <= j < n ==> bars[j].high <= bars[hp].high
  {
    var n := |bars|;
    var win := Highs(bars[n - HighPeriod..]);
    assert forall j :: n - HighPeriod <= j < n ==> bars[j].high == win[j - (n - HighPeriod)];
  }

  /** wave4_low is the lowest low from the high bar through at most nine bars
      after it. */
  lemma WaveLow(bars: seq<Bar>)
    requires IdentifyWavePattern(bars).Some?
    ensures var n, hp, low := |bars|, HighPos(bars), IdentifyWavePattern(bars).value.wave4Low;
      (forall j :: hp <= j < n && j < hp + LowPeriod ==> low <= bars[j].low) &&
      (exists j :: hp <= j < n && j < hp + LowPeriod && low == bars[j].low)
  {
    var n, hp := |bars|, HighPos(bars);
    var post := PostHigh(bars, hp);
    var ls := Lows(post);
    assert IdentifyWavePattern(bars).value.wave4Low == MinOf(ls);
    forall j | hp <= j < n && j < hp + LowPeriod
      ensures bars[j].low == ls[j - hp]
    {
      assert post[j - hp] == bars[j];
    }
    var k :| 0 <= k < |ls| && ls[k] == MinOf(ls);
    assert bars[hp + k].low == MinOf(ls);
  }

  /** The Fibonacci zone is a retracement band: over a swing from
      wave3_high down to a lower wave4_low, the close is in the zone exactly
      when it has given back between 23.6% and 38.2% of the swing, both
      inclusive. With no swing the zone is the high itself. A rebound is a
      close above the previous one. */
  lemma WaveZoneAndRebound(bars: seq<Bar>)
    requires IdentifyWavePattern(bars).Some?
    ensures var w, n := IdentifyWavePattern(bars).value, |bars|;
      var range, close := (w.wave3High - w.wave4Low) as real, Last(bars).close as real;
      (range > 0.0 ==>
        (w.inFibZone <==> 0.236 <= (w.wave3High as real - close) / range <= 0.382)) &&
      (range == 0.0 ==> (w.inFibZone <==> close == w.wave3High as real)) &&
      (w.recentRebound <==> bars[n - 1].close > bars[n - 2].close)
  {
    var w := IdentifyWavePattern(bars).value;
    var range, close := (w.wave3High - w.wave4Low) as real, Last(bars).close as real;
    var given := w.wave3High as real - close;
    assert w.inFibZone <==> 0.236 * range <= given <= 0.382 * range;
    if range > 0.0 {
      var q := given / range;
      DivUnique(q, given, range);
      ScaledBelow(q, range, given, 0.236);
      ScaledAtMost(q, range, given, 0.382);
    }
  }

  /** With every bar's low at most its high, the levels are ordered:
      fib_382 <= fib_236 <= wave3_high, and a close in the zone lies inside
      the swing. */
  lemma FibLevelsOrdered(bars: seq<Bar>)
    requires forall j :: 0 <= j < |bars| ==> WellFormed(bars[j])
    requires IdentifyWavePattern(bars).Some?
    ensures var w := IdentifyWavePattern(bars).value;
      w.wave4Low <= w.wave3High &&
      w.fib382 <= w.fib236 <= w.wave3High as real &&
      (w.inFibZone ==> w.wave4Low as real <= Last(bars).close as real <= w.wave3High as real)
  {
    WaveLow(bars);
    WaveHigh(bars);
    var hp := HighPos(bars);
    assert WellFormed(bars[hp]);
  }
}
