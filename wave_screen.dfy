/** The wave screener's decision: nine weekly-bar signals, a weighted score,
    the selection threshold, and the run over the filtered universe. The
    weekly bars of a code and the 20-week standard deviation of its closes
    come from `weeklyOf`, which stands for the market-data call and the
    calendar bucketing. */
module WaveScreen {
  import opened Series
  import opened Universe
  import opened WaveIndicators

  /** The nine signals in the order the score adds them. */
  datatype Signals = Signals(
    fibRebound: bool,
    bollingerLow: bool,
    rsiOversoldRising: bool,
    macdGoldenCross: bool,
    macdHistRising: bool,
    obvRising: bool,
    volumeDecrease: bool,
    nearMa240: bool,
    marketCap: bool)

  /** The points each signal is worth, in the same order. */
  const Weights: seq<nat> := [3, 2, 3, 2, 1, 1, 1, 1, 1]

  const SelectionThreshold: nat := 7

  function AsFlags(s: Signals): seq<bool> {
    [s.fibRebound, s.bollingerLow, s.rsiOversoldRising, s.macdGoldenCross,
     s.macdHistRising, s.obvRising, s.volumeDecrease, s.nearMa240, s.marketCap]
  }

  function Points(flag: bool, weight: nat): nat {
    if flag then weight else 0
  }

  /** The points of the flags from position k on. */
  function WeightedSumFrom(flags: seq<bool>, weights: seq<nat>, k: nat): nat
    requires |flags| == |weights| && k <= |flags|
    decreases |flags| - k
  {
    if k == |flags| then 0
    else Points(flags[k], weights[k]) + WeightedSumFrom(flags, weights, k + 1)
  }

  function WeightedSum(flags: seq<bool>, weights: seq<nat>): nat
    requires |flags| == |weights|
  {
    WeightedSumFrom(flags, weights, 0)
  }

  function SumNatFrom(s: seq<nat>, k: nat): nat
    requires k <= |s|
    decreases |s| - k
  {
    if k == |s| then 0 else s[k] + SumNatFrom(s, k + 1)
  }

  /** The composite score: the weights of the signals that hold. */
  function Score(s: Signals): nat {
    WeightedSum(AsFlags(s), Weights)
  }

  /** From position k on, a weighted sum lies between 0 and the remaining
      weight, and reaches it exactly when every remaining flag with a
      positive weight holds. */
  lemma {:induction false} WeightedSumBounds(flags: seq<bool>, weights: seq<nat>, k: nat)
    requires |flags| == |weights| && k <= |flags|
    ensures WeightedSumFrom(flags, weights, k) <= SumNatFrom(weights, k)
    ensures WeightedSumFrom(flags, weights, k) == SumNatFrom(weights, k) <==>
            forall i :: k <= i < |flags| && weights[i] > 0 ==> flags[i]
    decreases |flags| - k
  {
    if k < |flags| {
      WeightedSumBounds(flags, weights, k + 1);
    }
  }

  /** The score, one term per signal. */
  lemma ScoreTerms(s: Signals)
    ensures Score(s) ==
      Points(s.fibRebound, 3) + Points(s.bollingerLow, 2) + Points(s.rsiOversoldRising, 3) +
      Points(s.macdGoldenCross, 2) + Points(s.macdHistRising, 1) + Points(s.obvRising, 1) +
      Points(s.volumeDecrease, 1) + Points(s.nearMa240, 1) + Points(s.marketCap, 1)
  {
    var f, w := AsFlags(s), Weights;
    assert WeightedSumFrom(f, w, 8) == Points(s.marketCap, 1);
    assert WeightedSumFrom(f, w, 7) == Points(s.nearMa240, 1) + WeightedSumFrom(f, w, 8);
    assert WeightedSumFrom(f, w, 6) == Points(s.volumeDecrease, 1) + WeightedSumFrom(f, w, 7);
    assert WeightedSumFrom(f, w, 5) == Points(s.obvRising, 1) + WeightedSumFrom(f, w, 6);
    assert WeightedSumFrom(f, w, 4) == Points(s.macdHistRising, 1) + WeightedSumFrom(f, w, 5);
    assert WeightedSumFrom(f, w, 3) == Points(s.macdGoldenCross, 2) + WeightedSumFrom(f, w, 4);
    assert WeightedSumFrom(f, w, 2) == Points(s.rsiOversoldRising, 3) + WeightedSumFrom(f, w, 3);
    assert WeightedSumFrom(f, w, 1) == Points(s.bollingerLow, 2) + WeightedSumFrom(f, w, 2);
  }

  /** The `score += ...` sequence of the screener. */
  method AccumulateScore(s: Signals) returns (score: nat)
    ensures score == Score(s)
  {
    ScoreTerms(s);
    score := 0;
    if s.fibRebound { score := score + 3; }
    assert score == Points(s.fibRebound, 3);
    if s.bollingerLow { score := score + 2; }
    assert score == Points(s.fibRebound, 3) + Points(s.bollingerLow, 2);
    ghost var partial := score;
    if s.rsiOversoldRising { score := score + 3; }
    assert score == partial + Points(s.rsiOversoldRising, 3);
    partial := score;
    if s.macdGoldenCross { score := score + 2; }
    assert score == partial + Points(s.macdGoldenCross, 2);
    partial := score;
    if s.macdHistRising { score := score + 1; }
    assert score == partial + Points(s.macdHistRising, 1);
    partial := score;
    if s.obvRising { score := score + 1; }
    assert score == partial + Points(s.obvRising, 1);
    partial := score;
    if s.volumeDecrease { score := score + 1; }
    assert score == partial + Points(s.volumeDecrease, 1);
    partial := score;
    if s.nearMa240 { score := score + 1; }
    assert score == partial + Points(s.nearMa240, 1);
    partial := score;
    if s.marketCap { score := score + 1; }
    assert score == partial + Points(s.marketCap, 1);
  }

  /** The score is at most 15, which it reaches exactly when all nine
      signals hold; the report's "/14" scale understates the maximum. */
  lemma ScoreRange(s: Signals)
    ensures Score(s) <= 15
    ensures Score(s) == 15 <==> AsFlags(s) == [true, true, true, true, true, true, true, true, true]
  {
    var f := AsFlags(s);
    WeightedSumBounds(f, Weights, 0);
    WeightsTotal();
    assert forall i :: 0 <= i < |Weights| ==> Weights[i] > 0;
    if Score(s) == 15 {
      assert forall i :: 0 <= i < |f| ==> f[i];
      assert f[0] && f[1] && f[2] && f[3] && f[4] && f[5] && f[6] && f[7] && f[8];
    }
  }

  /** The weights add up to 15. */
  lemma WeightsTotal()
    ensures SumNatFrom(Weights, 0) == 15
  {
    assert SumNatFrom(Weights, 9) == 0;
    assert SumNatFrom(Weights, 8) == 1;
    assert SumNatFrom(Weights, 7) == 2;
    assert SumNatFrom(Weights, 6) == 3;
    assert SumNatFrom(Weights, 5) == 4;
    assert SumNatFrom(Weights, 4) == 5;
    assert SumNatFrom(Weights, 3) == 7;
    assert SumNatFrom(Weights, 2) == 10;
    assert SumNatFrom(Weights, 1) == 12;
  }

  /** The weight-one signals add up to 5, so reaching the threshold of 7
      takes one of Fibonacci rebound, Bollinger low, RSI rebound or the MACD
      golden cross. */
  lemma SelectionNeedsHeavySignal(s: Signals)
    requires Score(s) >= SelectionThreshold
    ensures s.fibRebound || s.bollingerLow || s.rsiOversoldRising || s.macdGoldenCross
  {
    ScoreTerms(s);
  }

  /** What one instrument's weekly data provides. */
  datatype WeeklyInput = WeeklyInput(bars: seq<Bar>, bandSd: real)

  /** Everything the indicator functions report for one instrument. */
  datatype Indicators = Indicators(
    passMarcap: bool,
    bollingerLow: bool,
    obvRising: bool,
    macd: MacdFlags,
    rsi: RsiFlags,
    passMa240: bool,
    wave: Option<WaveData>,
    volume: VolumeTrend)

  function ComputeIndicators(marcap: int, input: WeeklyInput): Indicators {
    var closes := Closes(input.bars);
    Indicators(
      PassesMarketCap(marcap),
      InBollingerLow(closes, input.bandSd),
      ObvRising(input.bars),
      CalculateMacd(closes),
      CalculateRsi(closes),
      InMa240Band(closes),
      IdentifyWavePattern(input.bars),
      CheckVolumeTrend(Volumes(input.bars)))
  }

  function SignalsOf(ind: Indicators): Signals {
    Signals(
      ind.wave.Some? && ind.wave.value.inFibZone && ind.wave.value.recentRebound,
      ind.bollingerLow,
      ind.rsi.oversold && ind.rsi.rising,
      ind.macd.goldenCross,
      ind.macd.histRising,
      ind.obvRising,
      ind.volume.decreasePattern,
      ind.passMa240,
      ind.passMarcap)
  }

  /** The record a selected instrument is reported with. */
  datatype WaveRecord = WaveRecord(
    code: string,
    score: nat,
    rsi: Option<real>,
    fibZone: bool,
    fibData: Option<WaveData>,
    bollingerLow: bool,
    macdCross: bool,
    obvRising: bool,
    rebound: bool,
    volTrend: bool)

  const MinWeeks: nat := 52

  /** One instrument: None with fewer than 52 weekly bars or a score below
      7, otherwise the record with its score and signals. */
  function ProcessStock(code: string, marcap: int, input: WeeklyInput): Option<WaveRecord> {
    if |input.bars| < MinWeeks then None
    else
      var ind := ComputeIndicators(marcap, input);
      var score := Score(SignalsOf(ind));
      if score < SelectionThreshold then None
      else
        Some(WaveRecord(
          code, score, ind.rsi.rsi,
          ind.wave.Some? && ind.wave.value.inFibZone,
          ind.wave,
          ind.bollingerLow,
          ind.macd.goldenCross,
          ind.obvRising,
          ind.wave.Some? && ind.wave.value.recentRebound,
          ind.volume.decreasePattern))
  }

  /** A record is returned exactly when there are 52 weekly bars and the
      score reaches 7; it carries that score, between 7 and 15, the current
      RSI, the wave data, and flags that agree with the signals (no Fibonacci
      zone or rebound when the wave pattern is missing). */
  lemma ProcessStockSelects(code: string, marcap: int, input: WeeklyInput)
    ensures var ind := ComputeIndicators(marcap, input);
      ProcessStock(code, marcap, input).Some? <==>
        |input.bars| >= MinWeeks && Score(SignalsOf(ind)) >= SelectionThreshold
    ensures ProcessStock(code, marcap, input).Some? ==>
      var r, ind := ProcessStock(code, marcap, input).value, ComputeIndicators(marcap, input);
      var s := SignalsOf(ind);
      r.code == code && r.score == Score(s) && SelectionThreshold <= r.score <= 15 &&
      r.bollingerLow == s.bollingerLow && r.macdCross == s.macdGoldenCross &&
      r.obvRising == s.obvRising && r.volTrend == s.volumeDecrease &&
      r.fibZone == (ind.wave.Some? && ind.wave.value.inFibZone) &&
      r.rebound == (ind.wave.Some? && ind.wave.value.recentRebound) &&
      (r.fibZone && r.rebound <==> s.fibRebound) &&
      r.rsi == ind.rsi.rsi && r.fibData == ind.wave
  {
    ScoreRange(SignalsOf(ComputeIndicators(marcap, input)));
  }

  /** The wave worker applied to every (code, market cap) pair. */
  function WaveResults(pairs: seq<(string, int)>, weeklyOf: string -> WeeklyInput): seq<Option<WaveRecord>> {
    Evaluate(pairs, (code, marcap) => ProcessStock(code, marcap, weeklyOf(code)))
  }

  /** `run_analysis`: filter the universe, look up market caps, evaluate every
      pair (sequentially here) and keep the records, in input order. */
  method RunWaveAnalysis(codes: seq<string>, nameOf: string -> string,
                         capOf: string -> seq<int>, weeklyOf: string -> WeeklyInput)
    returns (selected: seq<WaveRecord>)
    ensures var filtered := Survivors(codes, nameOf);
      selected == Somes(WaveResults(AnalysisPairs(filtered, CapTable(filtered, capOf)), weeklyOf))
  {
    var filtered := FilterUniverse(codes, nameOf);
    var caps := BuildCapTable(filtered, capOf);
    var stocksToAnalyze := AnalysisPairs(filtered, caps);
    var results := WaveResults(stocksToAnalyze, weeklyOf);
    selected := Somes(results);
  }

  /** Every selected record belongs to a listed, eligible code, was scored
      at least 7 and was screened with that code's cap (0 when it has no
      cap history). */
  lemma SelectedRecordsQualify(codes: seq<string>, nameOf: string -> string,
                               capOf: string -> seq<int>, weeklyOf: string -> WeeklyInput, r: WaveRecord)
    requires var filtered := Survivors(codes, nameOf);
      r in Somes(WaveResults(AnalysisPairs(filtered, CapTable(filtered, capOf)), weeklyOf))
    ensures r.code in codes && IsEligible(r.code, nameOf(r.code))
    ensures SelectionThreshold <= r.score <= 15
    ensures var cap := if capOf(r.code) == [] then 0 else Last(capOf(r.code));
      Some(r) == ProcessStock(r.code, cap, weeklyOf(r.code))
  {
    var filtered := Survivors(codes, nameOf);
    var pairs := AnalysisPairs(filtered, CapTable(filtered, capOf));
    var results := WaveResults(pairs, weeklyOf);
    SomesMembership(results, r);
    var i :| 0 <= i < |results| && results[i] == Some(r);
    ProcessStockSelects(pairs[i].0, pairs[i].1, weeklyOf(pairs[i].0));
    assert r.code == filtered[i];
    SurvivorMembership(codes, nameOf, r.code);
    ScreenedCap(filtered, capOf, i);
  }

  /** A code without a cap history is screened with a cap of 0, so its
      market-cap signal never holds. */
  lemma MissingCapNeverPassesFloor(filtered: seq<string>, capOf: string -> seq<int>, i: nat)
    requires i < |filtered| && capOf(filtered[i]) == []
    ensures !PassesMarketCap(AnalysisPairs(filtered, CapTable(filtered, capOf))[i].1)
  {
    ScreenedCap(filtered, capOf, i);
  }
}
