/** `qc_check_level1`: the composed level-1 pipeline. It de-duplicates the
    table, computes each row's time difference, clamps negative rain,
    converts pressure, grades the row-wise ranges, the temperature step and
    the device-day aggregates, and lists the failed and warning checks. */
module Level1 {
  import opened SqlValues
  import opened Thresholds
  import opened Encoding
  import opened Readings
  import opened Lag
  import opened Checks
  import opened Daily
  import opened Collect

  /** One row of the enriched table. */
  datatype QcRow = QcRow(
    reading: Reading,
    timeDiff: Option<real>,
    pressureHpa: Option<real>,
    tairStep: Option<real>,
    dailyValidFrac: Option<real>,
    dailyRainMm: Option<real>,
    flags: QcFlags,
    failedChecks: seq<string>,
    warningChecks: seq<string>)

  /** The readings of an enriched table. */
  function Table(out: seq<QcRow>): (t: seq<Reading>)
    ensures |t| == |out|
    ensures forall k :: 0 <= k < |out| ==> t[k] == out[k].reading
  {
    seq(|out|, k requires 0 <= k < |out| => out[k].reading)
  }

  /** The enriched row `i`: the time difference is taken on the table before
      rain is clamped, everything else after. */
  function EnrichRow(deduped: seq<Reading>, cleaned: seq<Reading>, i: nat, thr: Thresholds,
                     pressureMedian: Option<real>): QcRow
    requires |deduped| == |cleaned| && i < |cleaned|
  {
    var x := cleaned[i];
    var timeDiff := TimeDiff(deduped, i);
    var step := TairStepOf(cleaned, i);
    var validFrac := DailyValidFrac(cleaned, i);
    var rainMm := DailyRainMm(cleaned, i);
    var flags := QcFlags(
      timeGap := TimeGap(timeDiff, MinGapMinutes, MaxGapMinutes),
      tairRange := TairRange(x.airTemperature, thr),
      rhRange := RhRange(x.airHumidity, thr),
      windSpeedRange := WindSpeedRange(x.windSpeed, thr),
      windDirRange := WindDirRange(x.windDirection, thr),
      windDirRequiresWind := WindDirRequiresWind(x.windSpeed, thr),
      rain15Min := Rain15Min(x.rainGauge, thr),
      tairStep := TairStep(step, thr),
      dailyAvailability := DailyAvailability(validFrac, thr),
      rainDaily := RainDaily(rainMm, thr));
    var names := CollectQcCheckResults(flags);
    QcRow(x, timeDiff, ConvertPressureHpa(x.barometricPressure, pressureMedian), step,
          validFrac, rainMm, flags, names.failed, names.warnings)
  }

  function QcCheckLevel1(raw: seq<Reading>, thr: Thresholds, pressureMedian: Option<real>): (out: seq<QcRow>)
    ensures |out| == |Dedup(raw)|
    ensures forall k :: 0 <= k < |out| ==> out[k].reading == CleanRow(Dedup(raw)[k])
    ensures UniqueKeys(Table(out)) && KeysOf(Table(out)) == KeysOf(raw)
    ensures forall k :: 0 <= k < |out| && out[k].reading.rainGauge.Some? ==> out[k].reading.rainGauge.value >= 0.0
    ensures forall k, i :: 0 <= k < |out| && 0 <= i < |QcColumns| ==>
              (QcColumns[i] in out[k].failedChecks <==> FlagValues(out[k].flags)[i] == Fail)
              && (QcColumns[i] in out[k].warningChecks <==> FlagValues(out[k].flags)[i] == Warning)
    ensures forall k :: 0 <= k < |out| ==>
              CheckNames(out[k].failedChecks, out[k].warningChecks) == CollectQcCheckResults(out[k].flags)
  {
    var deduped := Dedup(raw);
    var cleaned := CleanNegativeRain(deduped);
    CleanNegativeRainKeepsKeys(deduped);
    var out := seq(|cleaned|, i requires 0 <= i < |cleaned| => EnrichRow(deduped, cleaned, i, thr, pressureMedian));
    assert Table(out) == cleaned;
    out
  }

  /** The enriched table's readings are the cleaned, de-duplicated rows, and
      the time difference may be read off them. */
  lemma TableIsCleaned(raw: seq<Reading>, thr: Thresholds, pressureMedian: Option<real>)
    ensures Table(QcCheckLevel1(raw, thr, pressureMedian)) == CleanNegativeRain(Dedup(raw))
    ensures SameSchedule(Dedup(raw), CleanNegativeRain(Dedup(raw)))
  {
    var out := QcCheckLevel1(raw, thr, pressureMedian);
    assert Table(out) == CleanNegativeRain(Dedup(raw));
  }

  /** Every derived column of an output row is its function over the output
      readings, and every flag is its check applied to those columns. */
  lemma Level1Columns(raw: seq<Reading>, thr: Thresholds, pressureMedian: Option<real>, k: nat)
    requires k < |Dedup(raw)|
    ensures var out := QcCheckLevel1(raw, thr, pressureMedian);
            var t := Table(out);
            && out[k].timeDiff == TimeDiff(t, k)
            && out[k].tairStep == TairStepOf(t, k)
            && out[k].dailyValidFrac == DailyValidFrac(t, k)
            && out[k].dailyRainMm == DailyRainMm(t, k)
            && out[k].pressureHpa == ConvertPressureHpa(t[k].barometricPressure, pressureMedian)
    ensures var out := QcCheckLevel1(raw, thr, pressureMedian);
            var t := Table(out);
            var x := t[k];
            out[k].flags == QcFlags(
              TimeGap(TimeDiff(t, k), MinGapMinutes, MaxGapMinutes),
              TairRange(x.airTemperature, thr),
              RhRange(x.airHumidity, thr),
              WindSpeedRange(x.windSpeed, thr),
              WindDirRange(x.windDirection, thr),
              WindDirRequiresWind(x.windSpeed, thr),
              Rain15Min(x.rainGauge, thr),
              TairStep(TairStepOf(t, k), thr),
              DailyAvailability(DailyValidFrac(t, k), thr),
              RainDaily(DailyRainMm(t, k), thr))
  {
    var out := QcCheckLevel1(raw, thr, pressureMedian);
    TableIsCleaned(raw, thr, pressureMedian);
    ScheduleDeterminesLag(Dedup(raw), Table(out), k);
  }

  /** A device's first row has no time difference, so its gap is regular
      (0); every later row has a positive difference, and its gap is
      irregular (-1) exactly when the predecessor lies less than 14 or more
      than 16 minutes (840 or 960 seconds) earlier. */
  lemma Level1TimeGap(raw: seq<Reading>, thr: Thresholds, pressureMedian: Option<real>, k: nat)
    requires k < |Dedup(raw)|
    ensures var out := QcCheckLevel1(raw, thr, pressureMedian);
            IsFirstOfDevice(Table(out), k) ==> out[k].timeDiff.None? && out[k].flags.timeGap == 0
    ensures var out := QcCheckLevel1(raw, thr, pressureMedian);
            !IsFirstOfDevice(Table(out), k) ==> out[k].timeDiff.Some? && out[k].timeDiff.value > 0.0
    ensures var out := QcCheckLevel1(raw, thr, pressureMedian);
            forall j :: IsPredecessor(Table(out), k, j) ==>
              var gap := Table(out)[k].timestamp - Table(out)[j].timestamp;
              (out[k].flags.timeGap == -1 <==> gap < 840 || gap > 960)
  {
    var out := QcCheckLevel1(raw, thr, pressureMedian);
    var deduped := Dedup(raw);
    TableIsCleaned(raw, thr, pressureMedian);
    ScheduleDeterminesLag(deduped, Table(out), k);
    forall j | IsPredecessor(Table(out), k, j)
      ensures var gap := Table(out)[k].timestamp - Table(out)[j].timestamp;
              (out[k].flags.timeGap == -1 <==> gap < 840 || gap > 960)
    {
      TimeDiffOfPredecessor(deduped, k, j);
      var gap := deduped[k].timestamp - deduped[j].timestamp;
      var minutes := gap as real / 60.0;
      assert MinGapMinutes <= minutes <= MaxGapMinutes <==> 840 <= gap <= 960;
    }
  }

  /** Because rain is clamped first, the `< Rain_min_inc` branch of the
      15-minute rain check never fires for a non-positive minimum: the check
      fails exactly for rain above the 15-minute maximum. */
  lemma Level1RainFailsOnlyAboveMax(raw: seq<Reading>, thr: Thresholds, pressureMedian: Option<real>, k: nat)
    requires thr.rainMinInc <= 0.0
    requires k < |Dedup(raw)|
    ensures var x := QcCheckLevel1(raw, thr, pressureMedian)[k];
            x.flags.rain15Min == Fail <==> x.reading.rainGauge.Some? && x.reading.rainGauge.value > thr.rainMax15min
    ensures var x := QcCheckLevel1(raw, thr, pressureMedian)[k];
            x.dailyRainMm.Some? ==> x.dailyRainMm.value >= 0.0
  {
    var out := QcCheckLevel1(raw, thr, pressureMedian);
    TableIsCleaned(raw, thr, pressureMedian);
    DailyRainNonNegative(Table(out), k);
  }

  /** With the Busia thresholds, whose rain minimum is 0, the 15-minute rain
      of an output row fails exactly above 40. */
  lemma Level1BusiaRainFailsOnlyAbove40(raw: seq<Reading>, pressureMedian: Option<real>, k: nat)
    requires k < |Dedup(raw)|
    ensures var x := QcCheckLevel1(raw, Busia, pressureMedian)[k];
            x.flags.rain15Min == Fail <==> x.reading.rainGauge.Some? && x.reading.rainGauge.value > 40.0
  {
    BusiaBandsNested();
    Level1RainFailsOnlyAboveMax(raw, Busia, pressureMedian, k);
  }

  /** The temperature step of a device's first row is OK (1); for a later
      row whose temperatures are both present it fails exactly when the
      temperature moved by more than the step maximum, and warns otherwise. */
  lemma Level1TairStep(raw: seq<Reading>, thr: Thresholds, pressureMedian: Option<real>, k: nat)
    requires k < |Dedup(raw)|
    ensures var out := QcCheckLevel1(raw, thr, pressureMedian);
            IsFirstOfDevice(Table(out), k) ==> out[k].flags.tairStep == Ok
    ensures var out := QcCheckLevel1(raw, thr, pressureMedian);
            forall j :: IsPredecessor(Table(out), k, j)
                        && Table(out)[k].airTemperature.Some? && Table(out)[j].airTemperature.Some? ==>
              var step := Table(out)[k].airTemperature.value - Table(out)[j].airTemperature.value;
              out[k].flags.tairStep == (if step > thr.tairMaxStepFail || step < -thr.tairMaxStepFail then Fail else Warning)
  {
    var out := QcCheckLevel1(raw, thr, pressureMedian);
    TableIsCleaned(raw, thr, pressureMedian);
    CleanNegativeRainKeepsKeys(Dedup(raw));
  }

  /** All rows of one device-day carry the same aggregates, and the day is
      available exactly when it has at least 96 * Min_daily_avail rows. */
  lemma Level1Daily(raw: seq<Reading>, thr: Thresholds, pressureMedian: Option<real>, k: nat, m: nat)
    requires k < |Dedup(raw)| && m < |Dedup(raw)|
    ensures var out := QcCheckLevel1(raw, thr, pressureMedian);
            out[k].reading.deviceId == out[m].reading.deviceId && out[k].reading.date == out[m].reading.date ==>
              out[k].dailyValidFrac == out[m].dailyValidFrac && out[k].dailyRainMm == out[m].dailyRainMm
    ensures var out := QcCheckLevel1(raw, thr, pressureMedian);
            out[k].flags.dailyAvailability == 1 <==>
              out[k].reading.date.Some? &&
              |DayRows(Table(out), out[k].reading.deviceId, out[k].reading.date.value)| as real
                >= ExpectedPerDay * thr.minDailyAvail
  {
    var out := QcCheckLevel1(raw, thr, pressureMedian);
    TableIsCleaned(raw, thr, pressureMedian);
    AvailabilityByCount(Table(out), k, thr);
    if out[k].reading.deviceId == out[m].reading.deviceId && out[k].reading.date == out[m].reading.date {
      DailySharedWithinDay(Table(out), k, m);
    }
  }

  /** No check of a row is both failed and a warning, and an irregular time
      gap (-1) is in neither list while a regular one is a warning. */
  lemma Level1Listing(raw: seq<Reading>, thr: Thresholds, pressureMedian: Option<real>, k: nat)
    requires k < |Dedup(raw)|
    ensures var x := QcCheckLevel1(raw, thr, pressureMedian)[k];
            forall n :: n in x.failedChecks ==> n !in x.warningChecks
    ensures var x := QcCheckLevel1(raw, thr, pressureMedian)[k];
            "QC_time_gap" !in x.failedChecks && ("QC_time_gap" in x.warningChecks <==> x.flags.timeGap == 0)
  {
    var x := QcCheckLevel1(raw, thr, pressureMedian)[k];
    FailedAndWarningsDisjoint(x.flags);
    TimeGapListing(x.flags);
  }

  /** A temperature outside the physical range is listed as a failed check;
      one inside it, the climatological band included, as a warning. */
  lemma Level1TemperatureListing(raw: seq<Reading>, thr: Thresholds, pressureMedian: Option<real>, k: nat)
    requires k < |Dedup(raw)|
    ensures var x := QcCheckLevel1(raw, thr, pressureMedian)[k];
            var t := x.reading.airTemperature;
            ("QC_Tair_range" in x.failedChecks <==> t.Some? && (t.value < thr.tairMinPhy || t.value > thr.tairMaxPhy))
            && ("QC_Tair_range" in x.warningChecks <==> t.Some? && thr.tairMinPhy <= t.value <= thr.tairMaxPhy)
  {
    assert QcColumns[1] == "QC_Tair_range";
  }
}
