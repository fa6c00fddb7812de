/** The TQQQ trend rule: from the daily closes of TQQQ, the 200-day moving
    average, an envelope 10% above it, and a three-way recommendation —
    SGOV below the average, TQQQ between the average and the envelope,
    SPLG above the envelope. Prices are US dollars, modelled as exact reals.
    The price history is an input: None when the download raised. */
module Tqqq {
  import opened Series

  datatype Recommendation = SGOV | TQQQ | SPLG

  /** The dictionary the analysis returns. A missing field is NaN. */
  datatype Analysis = Analysis(
    closePrice: real,
    ma200: Option<real>,
    envelope: Option<real>,
    diff: Option<real>,
    recommendation: Recommendation)

  const MaWindow: nat := 200

  /** NaN-aware `x < y`: a NaN right-hand side compares false. */
  predicate LessThan(x: real, y: Option<real>) {
    y.Some? && x < y.value
  }

  /** NaN-aware `x >= y`. */
  predicate AtLeast(x: real, y: Option<real>) {
    y.Some? && x >= y.value
  }

  /** `MA200 * 1.10`, NaN when the average is. */
  function Envelope(ma200: Option<real>): Option<real> {
    match ma200
    case Some(m) => Some(m * 1.10)
    case None => None
  }

  /** `close_price - ma200`, NaN when the average is. */
  function Difference(close: real, ma200: Option<real>): Option<real> {
    match ma200
    case Some(m) => Some(close - m)
    case None => None
  }

  /** The if/elif/else chain, with its comparisons as Python evaluates them. */
  function Recommend(close: real, ma200: Option<real>, envelope: Option<real>): Recommendation {
    if LessThan(close, ma200) then SGOV
    else if AtLeast(close, ma200) && LessThan(close, envelope) then TQQQ
    else SPLG
  }

  /** With an average m and its envelope the three branches partition the
      closes: below m, from m up to the envelope, and at or above both. A
      NaN average leaves only the last branch. */
  lemma RecommendCases(close: real, m: real)
    ensures var r := Recommend(close, Some(m), Envelope(Some(m)));
      (r == SGOV <==> close < m) &&
      (r == TQQQ <==> m <= close < 1.10 * m) &&
      (r == SPLG <==> close >= m && close >= 1.10 * m)
    ensures Recommend(close, None, Envelope(None)) == SPLG
  {
  }

  /** The analysis as written: no data gives None; otherwise the latest
      close is compared with the latest 200-day average, which is NaN while
      fewer than 200 closes exist. */
  function AnalyzeTqqq(history: Option<seq<real>>): (r: Option<Analysis>)
    ensures r.None? <==> history.None? || history.value == []
    ensures r.Some? ==> r.value.closePrice == Last(history.value)
  {
    match history
    case None => None
    case Some(closes) =>
      if closes == [] then None
      else
        var close := Last(closes);
        var ma200 := TrailingMeanReal(closes, MaWindow);
        var envelope := Envelope(ma200);
        Some(Analysis(close, ma200, envelope, Difference(close, ma200),
                      Recommend(close, ma200, envelope)))
  }

  /** With at least 200 closes the average, the envelope and the difference
      are those of the last 200 closes. */
  lemma AnalysisFields(closes: seq<real>)
    requires |closes| >= MaWindow
    ensures var a := AnalyzeTqqq(Some(closes)).value;
            var ma := MeanReal(closes[|closes| - MaWindow..]);
            a.ma200 == Some(ma) && a.envelope == Some(1.10 * ma)
            && a.diff == Some(Last(closes) - ma)
  {
  }

  /** A negative difference means SGOV and SGOV means a negative difference. */
  lemma NegativeDiffIffSgov(history: Option<seq<real>>)
    requires AnalyzeTqqq(history).Some?
    ensures var a := AnalyzeTqqq(history).value;
            (a.diff.Some? && a.diff.value < 0.0) <==> a.recommendation == SGOV
  {
  }

  lemma {:induction false} SumRealPositive(s: seq<real>)
    requires |s| > 0
    requires forall j :: 0 <= j < |s| ==> s[j] > 0.0
    ensures SumReal(s) > 0.0
  {
    if |s| > 1 {
      SumRealPositive(s[..|s| - 1]);
    }
  }

  /** With 200 or more positive closes, SPLG exactly when the close is at or
      above the envelope. */
  lemma SplgIffAboveEnvelope(closes: seq<real>)
    requires |closes| >= MaWindow
    requires forall j :: 0 <= j < |closes| ==> closes[j] > 0.0
    ensures var a := AnalyzeTqqq(Some(closes)).value;
            a.envelope.Some?
            && (a.recommendation == SPLG <==> a.closePrice >= a.envelope.value)
  {
    var window := closes[|closes| - MaWindow..];
    SumRealPositive(window);
    var ma := MeanReal(window);
    assert ma > 0.0 by {
      DivPositive(SumReal(window), MaWindow as real);
    }
  }

  lemma DivPositive(x: real, y: real)
    requires x > 0.0 && y > 0.0
    ensures x / y > 0.0
  {
  }

  /** SGOV, TQQQ, SPLG in the order of a rising close. */
  function Rank(r: Recommendation): nat {
    match r
    case SGOV => 0
    case TQQQ => 1
    case SPLG => 2
  }

  /** For a fixed positive average, a higher close never moves the
      recommendation down the order SGOV, TQQQ, SPLG. */
  lemma RecommendationMonotone(low: real, high: real, ma: real)
    requires ma > 0.0 && low <= high
    ensures Rank(Recommend(low, Some(ma), Envelope(Some(ma))))
            <= Rank(Recommend(high, Some(ma), Envelope(Some(ma))))
  {
  }

  /** As written, 1 to 199 closes leave the average NaN; every comparison is
      then false and the rule falls through to SPLG, the branch meant for a
      close above the envelope, although no envelope exists. */
  lemma ShortHistoryRecommendsSplg(closes: seq<real>)
    requires 0 < |closes| < MaWindow
    ensures var a := AnalyzeTqqq(Some(closes)).value;
            a.recommendation == SPLG && a.ma200.None? && a.envelope.None?
  {
  }

  /** The analysis with an insufficient-data guard: fewer than 200 closes
      give no result, as a missing history does. */
  function AnalyzeTqqqGuarded(history: Option<seq<real>>): (r: Option<Analysis>)
    ensures r.Some? ==> r == AnalyzeTqqq(history)
  {
    if history.None? || |history.value| < MaWindow then None
    else AnalyzeTqqq(history)
  }

  /** Under the guard every result has an average, and SPLG is recommended
      only for a close at or above the envelope. */
  lemma GuardedSplgMeansAboveEnvelope(history: Option<seq<real>>)
    ensures var r := AnalyzeTqqqGuarded(history);
            r.None? <==> history.None? || |history.value| < MaWindow
    ensures var r := AnalyzeTqqqGuarded(history);
            r.Some? ==> r.value.ma200.Some? && r.value.envelope.Some?
                        && (r.value.recommendation == SPLG <==>
                              r.value.closePrice >= r.value.envelope.value
                              && r.value.closePrice >= r.value.ma200.value)
  {
    if history.Some? && |history.value| >= MaWindow {
      AnalysisFields(history.value);
    }
  }

  /** The message sent for a result: the fixed failure text for None,
      otherwise the report of the analysis (its number formatting is not
      modelled). */
  datatype TqqqMessage = FailureNotice(text: string) | Report(analysis: Analysis)

  const FailureText: string := "TQQQ 데이터를 가져오는데 실패했습니다."

  function FormatTqqqMessage(result: Option<Analysis>): (m: TqqqMessage)
    ensures m.FailureNotice? <==> result.None?
    ensures m.FailureNotice? ==> m.text == FailureText
    ensures m.Report? ==> m.analysis == result.value
  {
    match result
    case None => FailureNotice(FailureText)
    case Some(a) => Report(a)
  }

  /** With the guard, a short history is reported as the failure notice
      rather than as an SPLG recommendation. */
  lemma ShortHistoryReportsFailure(closes: seq<real>)
    requires |closes| < MaWindow
    ensures FormatTqqqMessage(AnalyzeTqqqGuarded(Some(closes))) == FailureNotice(FailureText)
  {
  }
}
