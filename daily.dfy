/** `compute_daily_metrics`: per (device_id, date) aggregates joined back to
    every row with a left join. Rows whose date is NULL form a group of
    their own in the aggregation, but the join cannot match a NULL key, so
    their aggregate columns are NULL. */
module Daily {
  import opened SqlValues
  import opened Thresholds
  import opened Readings
  import Checks

  /** Readings a fully-available day is expected to hold: one per 15 minutes. */
  const ExpectedPerDay: real := 96.0

  predicate InDay(x: Reading, dev: string, date: string) {
    x.deviceId == dev && x.date == Some(date)
  }

  /** The rows of one device-day, in table order. */
  function DayRows(rows: seq<Reading>, dev: string, date: string): (r: seq<Reading>)
    ensures forall x :: x in r <==> x in rows && InDay(x, dev, date)
    ensures forall x :: multiset(r)[x] == if InDay(x, dev, date) then multiset(rows)[x] else 0
    ensures |r| <= |rows|
  {
    if rows == [] then []
    else
      var init := DayRows(rows[..|rows| - 1], dev, date);
      var last := rows[|rows| - 1];
      assert rows == rows[..|rows| - 1] + [last];
      assert multiset(rows) == multiset(rows[..|rows| - 1]) + multiset{last};
      if InDay(last, dev, date) then
        assert multiset(init + [last]) == multiset(init) + multiset{last};
        init + [last]
      else init
  }

  function Rains(rows: seq<Reading>): (r: seq<Option<real>>)
    ensures |r| == |rows|
    ensures forall k :: 0 <= k < |rows| ==> r[k] == rows[k].rainGauge
  {
    seq(|rows|, k requires 0 <= k < |rows| => rows[k].rainGauge)
  }

  /** `daily_valid_frac`: the device-day's row count over 96. */
  function DailyValidFrac(rows: seq<Reading>, i: nat): (f: Option<real>)
    requires i < |rows|
    ensures f.None? <==> rows[i].date.None?
    ensures f.Some? ==> f.value * ExpectedPerDay == |DayRows(rows, rows[i].deviceId, rows[i].date.value)| as real
    ensures f.Some? ==> f.value > 0.0
  {
    match rows[i].date
    case None => None
    case Some(d) =>
      var day := DayRows(rows, rows[i].deviceId, d);
      assert rows[i] in day;
      Some(|day| as real / ExpectedPerDay)
  }

  /** `daily_rain_mm`: the SQL sum of the device-day's rain values. */
  function DailyRainMm(rows: seq<Reading>, i: nat): (s: Option<real>)
    requires i < |rows|
    ensures rows[i].date.None? ==> s.None?
    ensures s.None? ==> rows[i].date.None? || rows[i].rainGauge.None?
    ensures rows[i].date.Some? ==> s == SumNonNull(Rains(DayRows(rows, rows[i].deviceId, rows[i].date.value)))
    ensures s.Some? ==> s.value == PresentTotal(Rains(DayRows(rows, rows[i].deviceId, rows[i].date.value)))
  {
    match rows[i].date
    case None => None
    case Some(d) =>
      var day := DayRows(rows, rows[i].deviceId, d);
      assert rows[i] in day;
      var k :| 0 <= k < |day| && day[k] == rows[i];
      assert Rains(day)[k] == rows[i].rainGauge;
      SumNonNull(Rains(day))
  }

  /** Every row of a device-day carries the same aggregates. */
  lemma DailySharedWithinDay(rows: seq<Reading>, i: nat, j: nat)
    requires i < |rows| && j < |rows|
    requires rows[i].deviceId == rows[j].deviceId && rows[i].date == rows[j].date
    ensures DailyValidFrac(rows, i) == DailyValidFrac(rows, j)
    ensures DailyRainMm(rows, i) == DailyRainMm(rows, j)
  {
  }

  /** After negative rain is clamped, a daily total is never negative. */
  lemma DailyRainNonNegative(rows: seq<Reading>, i: nat)
    requires i < |rows|
    requires forall k :: 0 <= k < |rows| && rows[k].rainGauge.Some? ==> rows[k].rainGauge.value >= 0.0
    ensures DailyRainMm(rows, i).Some? ==> DailyRainMm(rows, i).value >= 0.0
  {
    if rows[i].date.Some? {
      var day := DayRows(rows, rows[i].deviceId, rows[i].date.value);
      forall k | 0 <= k < |day| && Rains(day)[k].Some? ensures Rains(day)[k].value >= 0.0 {
        assert day[k] in rows;
      }
      SumNonNullNonNegative(Rains(day));
    }
  }

  /** `QC_Daily_Availability` is 1 exactly when the device-day has at least
      96 * Min_daily_avail rows; a row with a NULL date is never available. */
  lemma AvailabilityByCount(rows: seq<Reading>, i: nat, thr: Thresholds)
    requires i < |rows|
    ensures Checks.DailyAvailability(DailyValidFrac(rows, i), thr) == 1 <==>
              rows[i].date.Some? &&
              |DayRows(rows, rows[i].deviceId, rows[i].date.value)| as real >= ExpectedPerDay * thr.minDailyAvail
  {
    var f := DailyValidFrac(rows, i);
    if f.Some? {
      var n := |DayRows(rows, rows[i].deviceId, rows[i].date.value)| as real;
      assert f.value == n / ExpectedPerDay;
      assert f.value >= thr.minDailyAvail <==> n >= ExpectedPerDay * thr.minDailyAvail;
    }
  }

  /** With the Busia threshold of 0.8 a day needs 77 of its 96 readings. */
  lemma BusiaAvailabilityNeeds77(rows: seq<Reading>, i: nat)
    requires i < |rows| && rows[i].date.Some?
    ensures Checks.DailyAvailability(DailyValidFrac(rows, i), Busia) == 1 <==>
              |DayRows(rows, rows[i].deviceId, rows[i].date.value)| >= 77
  {
    AvailabilityByCount(rows, i, Busia);
    var n := |DayRows(rows, rows[i].deviceId, rows[i].date.value)|;
    assert n as real >= 76.8 <==> n >= 77;
  }
}
