/** Shared vocabulary of the three screeners: optional values (pandas' NaN and
    Python's None), price bars, and the trailing-window arithmetic that the
    screeners perform with pandas' `rolling`, `tail` and `iloc`. */
module Series {

  /** None stands for a missing value: Python's None, or a pandas NaN. */
  datatype Option<T> = None | Some(value: T)

  /** One daily or weekly bar. Korean prices and volumes are whole won. */
  datatype Bar = Bar(open: int, high: int, low: int, close: int, volume: int)

  predicate WellFormed(b: Bar) {
    b.low <= b.high
  }

  function Highs(bars: seq<Bar>): seq<int> {
    seq(|bars|, i requires 0 <= i < |bars| => bars[i].high)
  }

  function Lows(bars: seq<Bar>): seq<int> {
    seq(|bars|, i requires 0 <= i < |bars| => bars[i].low)
  }

  function Closes(bars: seq<Bar>): seq<int> {
    seq(|bars|, i requires 0 <= i < |bars| => bars[i].close)
  }

  function Volumes(bars: seq<Bar>): seq<int> {
    seq(|bars|, i requires 0 <= i < |bars| => bars[i].volume)
  }

  function Sum(s: seq<int>): int {
    if s == [] then 0 else Sum(s[..|s| - 1]) + s[|s| - 1]
  }

  function SumReal(s: seq<real>): real {
    if s == [] then 0.0 else SumReal(s[..|s| - 1]) + s[|s| - 1]
  }

  function Mean(s: seq<int>): real
    requires |s| > 0
  {
    Sum(s) as real / |s| as real
  }

  function MeanReal(s: seq<real>): real
    requires |s| > 0
  {
    SumReal(s) / |s| as real
  }

  function Last<T>(s: seq<T>): T
    requires |s| > 0
  {
    s[|s| - 1]
  }

  /** pandas `tail(k)`: the last k elements, or all of them when fewer. */
  function Tail<T>(s: seq<T>, k: nat): seq<T> {
    if |s| <= k then s else s[|s| - k..]
  }

  /** `rolling(w).mean().iloc[-1]`: NaN until w values are available. */
  function TrailingMean(s: seq<int>, w: nat): Option<real>
    requires w > 0
  {
    if |s| < w then None else Some(Mean(s[|s| - w..]))
  }

  function TrailingMeanReal(s: seq<real>, w: nat): Option<real>
    requires w > 0
  {
    if |s| < w then None else Some(MeanReal(s[|s| - w..]))
  }

  /** Python's `abs` on a real. */
  function Abs(x: real): real {
    if x < 0.0 then -x else x
  }

  /** The position pandas' `idxmax` reports on a series with a unique index:
      the first position holding the largest value. */
  function FirstArgMax(s: seq<int>): (k: nat)
    requires |s| > 0
    ensures k < |s|
    ensures forall j :: 0 <= j < |s| ==> s[j] <= s[k]
    ensures forall j :: 0 <= j < k ==> s[j] < s[k]
  {
    if |s| == 1 then 0
    else
      var k' := FirstArgMax(s[..|s| - 1]);
      if s[|s| - 1] > s[k'] then |s| - 1 else k'
  }

  /** pandas `min` over a non-empty integer column. */
  function MinOf(s: seq<int>): (m: int)
    requires |s| > 0
    ensures forall j :: 0 <= j < |s| ==> m <= s[j]
    ensures exists j :: 0 <= j < |s| && s[j] == m
  {
    if |s| == 1 then s[0]
    else
      var m' := MinOf(s[..|s| - 1]);
      if s[|s| - 1] < m' then s[|s| - 1] else m'
  }

  /** pandas `max` over a non-empty integer column. */
  function MaxOf(s: seq<int>): (m: int)
    requires |s| > 0
    ensures forall j :: 0 <= j < |s| ==> s[j] <= m
    ensures exists j :: 0 <= j < |s| && s[j] == m
  {
    if |s| == 1 then s[0]
    else
      var m' := MaxOf(s[..|s| - 1]);
      if s[|s| - 1] > m' then s[|s| - 1] else m'
  }

  lemma MulNonNegative(p: real, q: real)
    requires p >= 0.0 && q >= 0.0
    ensures p * q >= 0.0
  {
  }

  /** x * z == y pins x down as y / z. */
  lemma DivUnique(x: real, y: real, z: real)
    requires z > 0.0
    ensures x * z == y <==> x == y / z
    ensures y >= 0.0 ==> y / z >= 0.0
  {
  }

  /** Multiplying by a positive factor keeps a strict order. */
  lemma MulStrictMono(a: real, b: real, t: real)
    requires t > 0.0 && a < b
    ensures a * t < b * t
  {
  }

  /** Multiplying by a positive factor keeps a weak order. */
  lemma MulMono(a: real, b: real, t: real)
    requires t > 0.0 && a <= b
    ensures a * t <= b * t
  {
  }

  /** With a positive scale t and q * t == y, q is below a bound c exactly
      when y is below c * t. Stated without division so that callers can
      use it next to quotient terms. */
  lemma ScaledBelow(q: real, t: real, y: real, c: real)
    requires t > 0.0 && q * t == y
    ensures q < c <==> y < c * t
  {
    if q < c {
      MulStrictMono(q, c, t);
    } else {
      MulMono(c, q, t);
    }
  }

  /** The non-strict companion of ScaledBelow. */
  lemma ScaledAtMost(q: real, t: real, y: real, c: real)
    requires t > 0.0 && q * t == y
    ensures q <= c <==> y <= c * t
  {
    if q <= c {
      MulMono(q, c, t);
    } else {
      MulStrictMono(c, q, t);
    }
  }

  /** Sum of the first i + 1 elements, one step at a time. */
  lemma SumSnoc(s: seq<int>, i: nat)
    requires i < |s|
    ensures Sum(s[..i + 1]) == Sum(s[..i]) + s[i]
  {
    assert s[..i + 1][..i] == s[..i];
  }

  /** A sum of non-negative values is non-negative. */
  lemma {:induction false} SumNonNegative(s: seq<int>)
    requires forall j :: 0 <= j < |s| ==> s[j] >= 0
    ensures Sum(s) >= 0
  {
    if s != [] {
      SumNonNegative(s[..|s| - 1]);
    }
  }

  /** The weekly bar that `resample('W').agg(first, max, min, last, sum)`
      builds from the non-empty bucket of daily bars of one calendar week. */
  function AggregateWeek(days: seq<Bar>): Bar
    requires |days| > 0
  {
    Bar(days[0].open, MaxOf(Highs(days)), MinOf(Lows(days)), Last(days).close, Sum(Volumes(days)))
  }

  /** Weekly bars from the calendar buckets (bucketing itself is an input);
      an empty bucket gives a NaN row, which `dropna` removes. */
  function WeeklyBars(buckets: seq<seq<Bar>>): (weeks: seq<Bar>)
    ensures |weeks| <= |buckets|
  {
    if buckets == [] then []
    else
      var earlier := WeeklyBars(buckets[..|buckets| - 1]);
      var bucket := Last(buckets);
      if bucket == [] then earlier else earlier + [AggregateWeek(bucket)]
  }

  /** A week built from well-formed days is well formed, and its open and close
      lie between its low and its high when each day's do. */
  lemma AggregateWeekWellFormed(days: seq<Bar>)
    requires |days| > 0
    requires forall j :: 0 <= j < |days| ==> days[j].low <= days[j].open <= days[j].high
    requires forall j :: 0 <= j < |days| ==> days[j].low <= days[j].close <= days[j].high
    ensures var w := AggregateWeek(days);
            WellFormed(w) && w.low <= w.open <= w.high && w.low <= w.close <= w.high
  {
    var w := AggregateWeek(days);
    var hs, ls := Highs(days), Lows(days);
    assert ls[0] <= days[0].open <= hs[0];
    assert ls[|days| - 1] <= Last(days).close <= hs[|days| - 1];
  }

  /** Every weekly bar is the aggregate of one non-empty bucket; when no
      bucket is empty, week i is the aggregate of bucket i. */
  lemma WeeklyBarsFromBuckets(buckets: seq<seq<Bar>>)
    ensures forall w :: w in WeeklyBars(buckets) ==>
              exists b :: b in buckets && |b| > 0 && w == AggregateWeek(b)
    ensures (forall b :: b in buckets ==> |b| > 0) ==> |WeeklyBars(buckets)| == |buckets|
    ensures (forall b :: b in buckets ==> |b| > 0) ==>
              forall i :: 0 <= i < |buckets| ==> WeeklyBars(buckets)[i] == AggregateWeek(buckets[i])
  {
    WeeksComeFromBuckets(buckets);
    if forall b :: b in buckets ==> |b| > 0 {
      WeekPerBucket(buckets);
    }
  }

  lemma {:induction false} WeeksComeFromBuckets(buckets: seq<seq<Bar>>)
    ensures forall w :: w in WeeklyBars(buckets) ==>
              exists b :: b in buckets && |b| > 0 && w == AggregateWeek(b)
  {
    if buckets != [] {
      var front := buckets[..|buckets| - 1];
      WeeksComeFromBuckets(front);
      var earlier := WeeklyBars(front);
      forall w | w in WeeklyBars(buckets)
        ensures exists b :: b in buckets && |b| > 0 && w == AggregateWeek(b)
      {
        if w in earlier {
          var b :| b in front && |b| > 0 && w == AggregateWeek(b);
          assert b in buckets;
        } else {
          assert Last(buckets) in buckets;
        }
      }
    }
  }

  lemma {:induction false} WeekPerBucket(buckets: seq<seq<Bar>>)
    requires forall b :: b in buckets ==> |b| > 0
    ensures |WeeklyBars(buckets)| == |buckets|
    ensures forall i :: 0 <= i < |buckets| ==> WeeklyBars(buckets)[i] == AggregateWeek(buckets[i])
  {
    if buckets != [] {
      var front := buckets[..|buckets| - 1];
      assert forall b :: b in front ==> b in buckets;
      WeekPerBucket(front);
      assert Last(buckets) in buckets;
      assert WeeklyBars(buckets) == WeeklyBars(front) + [AggregateWeek(Last(buckets))];
    }
  }
}
