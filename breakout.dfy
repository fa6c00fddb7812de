/** The breakout screener over daily bars: five hard checks joined by AND,
    the run that keeps the codes passing all of them together with their
    names, and the first-workday-of-month helper. The daily bars and the
    pension-fund trading table of a code come from `dailyOf`, which stands
    for the market-data calls. */
module Breakout {
  import opened Series
  import opened Universe

  // ---------------------------------------------------------------------
  // First workday of a month

  /** Days since 1970-01-01 of a proleptic Gregorian date (the civil-date
      count pandas' timestamps rest on). */
  function DaysFromCivil(year: int, month: int, day: int): int
    requires 1 <= month <= 12
  {
    var y := if month <= 2 then year - 1 else year;
    var era := y / 400;
    var yoe := y - era * 400;
    var mp := if month > 2 then month - 3 else month + 9;
    var doy := (153 * mp + 2) / 5 + day - 1;
    var doe := yoe * 365 + yoe / 4 - yoe / 100 + doy;
    era * 146097 + doe - 719468
  }

  /** Day of the week, Monday = 0 ... Sunday = 6 (1970-01-01 was a Thursday). */
  function Weekday(year: int, month: int, day: int): (w: int)
    requires 1 <= month <= 12
    ensures 0 <= w < 7
  {
    (DaysFromCivil(year, month, day) + 3) % 7
  }

  /** The days among 1..7 of the month that are Monday to Friday, in order:
      `pd.date_range(first, seventh, freq='B')`. */
  function BusinessDaysFrom(year: int, month: int, day: nat): seq<nat>
    requires 1 <= month <= 12
    decreases 8 - day
  {
    if day > 7 then []
    else (if Weekday(year, month, day) < 5 then [day] else []) + BusinessDaysFrom(year, month, day + 1)
  }

  /** Consecutive days have consecutive weekdays. */
  lemma NextWeekday(year: int, month: int, day: int)
    requires 1 <= month <= 12
    ensures Weekday(year, month, day + 1) == (Weekday(year, month, day) + 1) % 7
  {
    assert DaysFromCivil(year, month, day + 1) == DaysFromCivil(year, month, day) + 1;
  }

  /** The first business day of the first week is the 1st on a weekday, the
      3rd when the 1st is a Saturday and the 2nd when it is a Sunday. */
  lemma FirstBusinessDay(year: int, month: int)
    requires 1 <= month <= 12
    ensures |BusinessDaysFrom(year, month, 1)| > 0
    ensures var d := BusinessDaysFrom(year, month, 1)[0];
      1 <= d <= 3 && Weekday(year, month, d) < 5 &&
      forall e :: 1 <= e < d ==> Weekday(year, month, e) >= 5
  {
    NextWeekday(year, month, 1);
    NextWeekday(year, month, 2);
    var w := Weekday(year, month, 1);
    if w == 5 {
      assert Weekday(year, month, 2) == 6;
      assert Weekday(year, month, 3) == 0;
      assert BusinessDaysFrom(year, month, 1) == BusinessDaysFrom(year, month, 3);
    } else if w == 6 {
      assert Weekday(year, month, 2) == 0;
      assert BusinessDaysFrom(year, month, 1) == BusinessDaysFrom(year, month, 2);
    }
  }

  /** `get_first_workday_of_month`: the day of the month of its first Monday
      to Friday, always 1, 2 or 3. */
  function FirstWorkdayOfMonth(year: int, month: int): (d: nat)
    requires 1 <= month <= 12
    ensures 1 <= d <= 3 && Weekday(year, month, d) < 5
    ensures forall e :: 1 <= e < d ==> Weekday(year, month, e) >= 5
  {
    FirstBusinessDay(year, month);
    BusinessDaysFrom(year, month, 1)[0]
  }

  // ---------------------------------------------------------------------
  // The five checks

  /** `tail(11)[:-1]`: the up to ten bars before the latest one. */
  function VolumeBaseline(volumes: seq<int>): seq<int> {
    var t := Tail(volumes, 11);
    if t == [] then [] else t[..|t| - 1]
  }

  /** The latest volume is more than twice the baseline mean, strictly; an
      empty baseline has a NaN mean and no series has no latest bar, so both
      fail. */
  predicate VolumeSpike(volumes: seq<int>) {
    var base := VolumeBaseline(volumes);
    volumes != [] && base != [] && Last(volumes) as real > Mean(base) * 2.0
  }

  /** With eleven bars or more the baseline is exactly the ten bars before the
      latest, and the spike is "ten times the latest volume exceeds twice
      their total". */
  lemma VolumeSpikeIff(volumes: seq<int>)
    requires |volumes| >= 11
    ensures var n := |volumes|;
      VolumeBaseline(volumes) == volumes[n - 11..n - 1] &&
      (VolumeSpike(volumes) <==> 10 * Last(volumes) > 2 * Sum(volumes[n - 11..n - 1]))
  {
    var n := |volumes|;
    var base := volumes[n - 11..n - 1];
    assert VolumeBaseline(volumes) == base;
    var m := Sum(base) as real / 10.0;
    assert Mean(base) == m;
    var v := Last(volumes) as real;
    assert v > m * 2.0 <==> 10.0 * v > 2.0 * (Sum(base) as real);
  }

  const BreakoutCapFloor: int := 500_000_000_000

  /** `marcap >= 500000000000`. */
  predicate PassesMarketCap(marcap: int) {
    marcap >= BreakoutCapFloor
  }

  /** The floor of 500 billion won is inclusive, and a larger cap never
      fails where a smaller one passes. */
  lemma MarketCapFloor(marcap: int, larger: int)
    ensures PassesMarketCap(500_000_000_000) && !PassesMarketCap(499_999_999_999)
    ensures marcap <= larger && PassesMarketCap(marcap) ==> PassesMarketCap(larger)
  {
  }

  /** |close - MA240| / MA240 < 0.10; false with fewer than 240 bars, and
      false for a zero average, where the ratio is NaN or infinite. */
  predicate CloseToMa240(closes: seq<int>) {
    match TrailingMean(closes, 240)
    case Some(ma) => ma != 0.0 && Abs(Last(closes) as real - ma) / ma < 0.10
    case None => false
  }

  /** For a positive average the check is the open band (0.9, 1.1) x MA240. */
  lemma CloseToMa240Band(closes: seq<int>)
    requires |closes| >= 240
    requires Mean(closes[|closes| - 240..]) > 0.0
    ensures var ma, c := Mean(closes[|closes| - 240..]), Last(closes) as real;
      CloseToMa240(closes) <==> 0.9 * ma < c < 1.1 * ma
  {
    RelativeDistanceBand(Last(closes) as real, Mean(closes[|closes| - 240..]));
  }

  lemma RelativeDistanceBand(c: real, ma: real)
    requires ma > 0.0
    ensures Abs(c - ma) / ma < 0.10 <==> 0.9 * ma < c < 1.1 * ma
  {
    var dist := Abs(c - ma);
    assert dist == if c < ma then ma - c else c - ma;
    var q := dist / ma;
    DivUnique(q, dist, ma);
    ScaledBelow(q, ma, dist, 0.10);
  }

  /** NaN-aware `a > b`: a missing average compares false. */
  predicate Above(a: Option<real>, b: Option<real>) {
    a.Some? && b.Some? && a.value > b.value
  }

  /** MA20 crossing above MA60 between the last two bars, or MA20 already
      above MA60; false with fewer than 60 bars. At exactly 60 bars the
      previous MA60 is NaN and the crossover compares false. */
  predicate MaTransition(closes: seq<int>) {
    var n := |closes|;
    if n < 60 then false
    else
      var ma20, ma60 := TrailingMean(closes, 20), TrailingMean(closes, 60);
      var prev20, prev60 := TrailingMean(closes[..n - 1], 20), TrailingMean(closes[..n - 1], 60);
      var crossover := Above(prev60, prev20) && Above(ma20, ma60);
      crossover || Above(ma20, ma60)
  }

  /** The crossover disjunct adds nothing: the transition holds exactly when
      the latest MA20 is above the latest MA60. */
  lemma MaTransitionIsMa20AboveMa60(closes: seq<int>)
    requires |closes| >= 60
    ensures var n := |closes|;
      MaTransition(closes) <==> Mean(closes[n - 20..]) > Mean(closes[n - 60..])
  {
  }

  /** The insufficient-data paths: no spike without a previous bar, no MA240
      check below 240 bars or on a zero average, and no transition below
      60 bars. */
  lemma ChecksNeedHistory(volumes: seq<int>, closes: seq<int>)
    ensures |volumes| <= 1 ==> !VolumeSpike(volumes)
    ensures |closes| < 240 ==> !CloseToMa240(closes)
    ensures |closes| >= 240 && Mean(closes[|closes| - 240..]) == 0.0 ==> !CloseToMa240(closes)
    ensures |closes| < 60 ==> !MaTransition(closes)
  {
  }

  /** One row of the investor trading table fetched for 연기금 (pension
      funds). */
  datatype TradeRow = TradeRow(buy: int, sell: int)

  /** The investor table as fetched; the column flags say whether the buy and
      sell columns exist. */
  datatype InvestorTable = InvestorTable(hasBuyColumn: bool, hasSellColumn: bool, rows: seq<TradeRow>)

  function NetBuying(rows: seq<TradeRow>): seq<int> {
    seq(|rows|, i requires 0 <= i < |rows| => rows[i].buy - rows[i].sell)
  }

  const InstitutionWindow: nat := 20

  /** The mean net buying over the last 20 rows is positive; false for an
      empty table or one without the buy and sell columns. */
  predicate InstitutionalBuying(table: InvestorTable) {
    if table.rows == [] || !table.hasBuyColumn || !table.hasSellColumn then false
    else Mean(Tail(NetBuying(table.rows), InstitutionWindow)) > 0.0
  }

  /** Buying holds exactly when the table has both columns and some rows, and
      the total net buying of its last 20 rows is positive. */
  lemma InstitutionalBuyingIff(table: InvestorTable)
    ensures InstitutionalBuying(table) <==>
      table.rows != [] && table.hasBuyColumn && table.hasSellColumn &&
      Sum(Tail(NetBuying(table.rows), InstitutionWindow)) > 0
  {
    if table.rows != [] {
      var w := Tail(NetBuying(table.rows), InstitutionWindow);
      assert |w| > 0;
      var s, k := Sum(w) as real, |w| as real;
      DivSign(s, k);
    }
  }

  lemma DivSign(s: real, k: real)
    requires k > 0.0
    ensures s / k > 0.0 <==> s > 0.0
  {
    assert (s / k) * k == s;
    if s / k > 0.0 {
      assert (s / k) * k > 0.0 * k;
    } else {
      assert (s / k) * k <= 0.0 * k;
    }
  }

  // ---------------------------------------------------------------------
  // One instrument and the run

  /** What one instrument's daily data provides. */
  datatype DailyInput = DailyInput(bars: seq<Bar>, institutions: InvestorTable)

  const MinDays: nat := 60

  function ProcessStock(code: string, marcap: int, input: DailyInput): Option<string> {
    if |input.bars| < MinDays then None
    else
      var closes := Closes(input.bars);
      if VolumeSpike(Volumes(input.bars)) && PassesMarketCap(marcap) && CloseToMa240(closes)
         && MaTransition(closes) && InstitutionalBuying(input.institutions)
      then Some(code)
      else None
  }

  /** The code comes back exactly when there are 60 daily bars and all five
      checks pass, with the transition read as MA20 above MA60; any one
      failing check gives None. */
  lemma ProcessStockIsAndGate(code: string, marcap: int, input: DailyInput)
    ensures var bars, closes := input.bars, Closes(input.bars);
      ProcessStock(code, marcap, input) ==
        if |bars| >= MinDays && VolumeSpike(Volumes(bars)) && marcap >= BreakoutCapFloor
           && CloseToMa240(closes)
           && Mean(closes[|bars| - 20..]) > Mean(closes[|bars| - 60..])
           && InstitutionalBuying(input.institutions)
        then Some(code) else None
  {
    if |input.bars| >= MinDays {
      MaTransitionIsMa20AboveMa60(Closes(input.bars));
    }
  }

  /** The breakout worker applied to every (code, market cap) pair. */
  function BreakoutResults(pairs: seq<(string, int)>, dailyOf: string -> DailyInput): seq<Option<string>> {
    Evaluate(pairs, (code, marcap) => ProcessStock(code, marcap, dailyOf(code)))
  }

  /** Every selected code was returned by the worker of some filtered code,
      which is that code itself. */
  lemma SelectedAreFiltered(filtered: seq<string>, caps: map<string, int>, dailyOf: string -> DailyInput, c: string)
    requires c in SelectedCodes(BreakoutResults(AnalysisPairs(filtered, caps), dailyOf))
    ensures exists i :: (0 <= i < |filtered| && filtered[i] == c &&
      ProcessStock(c, CapOrZero(caps, c), dailyOf(c)) == Some(c))
  {
    var results := BreakoutResults(AnalysisPairs(filtered, caps), dailyOf);
    SelectedCodesMembership(results, c);
    var i :| 0 <= i < |results| && results[i] == Some(c);
    assert filtered[i] == c;
  }

  /** `run_analysis`: filter the universe, look up caps and names, evaluate
      every pair (sequentially here), keep the returned codes and line their
      names up with them. */
  method RunBreakoutAnalysis(codes: seq<string>, nameOf: string -> string,
                             capOf: string -> seq<int>, dailyOf: string -> DailyInput)
    returns (selectedStocks: seq<string>, selectedNames: seq<string>)
    ensures var filtered := Survivors(codes, nameOf);
      selectedStocks == SelectedCodes(BreakoutResults(AnalysisPairs(filtered, CapTable(filtered, capOf)), dailyOf))
    ensures |selectedNames| == |selectedStocks|
    ensures forall i :: 0 <= i < |selectedStocks| ==> selectedNames[i] == nameOf(selectedStocks[i])
  {
    var filtered := FilterUniverse(codes, nameOf);
    var caps := BuildCapTable(filtered, capOf);
    var smallCaps := AnalysisPairs(filtered, caps);
    var codeToName := map c | c in filtered :: nameOf(c);
    var results := BreakoutResults(smallCaps, dailyOf);
    selectedStocks := SelectedCodes(results);
    forall c | c in selectedStocks ensures c in codeToName {
      SelectedAreFiltered(filtered, caps, dailyOf, c);
    }
    selectedNames := seq(|selectedStocks|, i requires 0 <= i < |selectedStocks| => codeToName[selectedStocks[i]]);
  }

  /** Every selected code is a listed, eligible code with a cap history whose
      latest cap is at least 500 billion won, and passes every check. */
  lemma SelectedCodesQualify(codes: seq<string>, nameOf: string -> string,
                             capOf: string -> seq<int>, dailyOf: string -> DailyInput, c: string)
    requires var filtered := Survivors(codes, nameOf);
      c in SelectedCodes(BreakoutResults(AnalysisPairs(filtered, CapTable(filtered, capOf)), dailyOf))
    ensures c in codes && IsEligible(c, nameOf(c))
    ensures capOf(c) != [] && Last(capOf(c)) >= BreakoutCapFloor
    ensures ProcessStock(c, Last(capOf(c)), dailyOf(c)) == Some(c)
  {
    var filtered := Survivors(codes, nameOf);
    var caps := CapTable(filtered, capOf);
    SelectedAreFiltered(filtered, caps, dailyOf, c);
    SurvivorMembership(codes, nameOf, c);
    CapTableEntries(filtered, capOf, c);
  }
}
