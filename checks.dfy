/** The row-wise level-1 checks. Each grades one (nullable) column value of a
    row; the table-level columns they read (time difference, temperature
    step, daily aggregates) are computed in the modules Lag and Daily.

    The temperature, humidity, wind-speed, temperature-step and daily-rain
    checks give every present value that does not fail WARNING (0), because
    their warning condition encloses the climatological OK band and is
    tested first; a NULL value is OK (1). The wind-direction range has no
    warning branch, and the 15-minute rain check warns only above
    Rain_warn_15min. */
module Checks {
  import opened SqlValues
  import opened Thresholds
  import opened Encoding

  /** Default bounds of `qc_time_gap`, in minutes. */
  const MinGapMinutes: real := 14.0
  const MaxGapMinutes: real := 16.0

  /** `qc_time_gap`: its own encoding, 0 = regular and -1 = irregular. A
      missing time difference is regular. */
  function TimeGap(timeDiff: Option<real>, minGap: real, maxGap: real): (r: int)
    ensures r == -1 <==> timeDiff.Some? && !(minGap <= timeDiff.value <= maxGap)
    ensures r == 0 <==> timeDiff.None? || minGap <= timeDiff.value <= maxGap
  {
    var irregular := And(Not(Between(timeDiff, minGap, maxGap)), IsNotNull(timeDiff));
    if Holds(irregular) then -1 else 0
  }

  /** `qc_temperature_range`. */
  function TairRange(t: Option<real>, thr: Thresholds): (r: int)
    ensures r == Fail <==> t.Some? && (t.value < thr.tairMinPhy || t.value > thr.tairMaxPhy)
    ensures r == Warning <==> t.Some? && thr.tairMinPhy <= t.value <= thr.tairMaxPhy
    ensures r == Ok <==> t.None?
  {
    Encode(Between(t, thr.tairWarnMinClim, thr.tairWarnMaxClim),
           Some(And(Ge(t, thr.tairMinPhy), Le(t, thr.tairMaxPhy))),
           Some(Or(Lt(t, thr.tairMinPhy), Gt(t, thr.tairMaxPhy))))
  }

  /** `qc_rh_range`. */
  function RhRange(h: Option<real>, thr: Thresholds): (r: int)
    ensures r == Fail <==> h.Some? && (h.value < thr.rhMinPhy || h.value > thr.rhMaxPhy)
    ensures r == Warning <==> h.Some? && thr.rhMinPhy <= h.value <= thr.rhMaxPhy
    ensures r == Ok <==> h.None?
  {
    Encode(Between(h, thr.rhWarnMinClim, thr.rhMaxPhy),
           Some(Between(h, thr.rhMinPhy, thr.rhMaxPhy)),
           Some(Or(Lt(h, thr.rhMinPhy), Gt(h, thr.rhMaxPhy))))
  }

  /** `qc_windspeed_range`. */
  function WindSpeedRange(w: Option<real>, thr: Thresholds): (r: int)
    ensures r == Fail <==> w.Some? && (w.value < thr.windMinPhy || w.value > thr.windMaxPhy)
    ensures r == Warning <==> w.Some? && thr.windMinPhy <= w.value <= thr.windMaxPhy
    ensures r == Ok <==> w.None?
  {
    Encode(Between(w, thr.windMinPhy, thr.windWarnMaxClim),
           Some(Between(w, thr.windMinPhy, thr.windMaxPhy)),
           Some(Or(Lt(w, thr.windMinPhy), Gt(w, thr.windMaxPhy))))
  }

  /** `qc_winddir_range`: no warning condition, so a direction is either
      FAIL or OK; both bounds are inclusive. */
  function WindDirRange(d: Option<real>, thr: Thresholds): (r: int)
    ensures r == Fail <==> d.Some? && (d.value < thr.windDirMinPhy || d.value > thr.windDirMaxPhy)
    ensures r == Ok <==> d.None? || thr.windDirMinPhy <= d.value <= thr.windDirMaxPhy
  {
    Encode(Between(d, thr.windDirMinPhy, thr.windDirMaxPhy),
           None,
           Some(Or(Lt(d, thr.windDirMinPhy), Gt(d, thr.windDirMaxPhy))))
  }

  /** `qc_winddir_requires_wind`: 0 when the wind speed is below the minimum
      at which a direction is meaningful, 1 otherwise (also for a NULL
      speed). The direction itself is not read. */
  function WindDirRequiresWind(windSpeed: Option<real>, thr: Thresholds): (r: int)
    ensures r == 0 <==> windSpeed.Some? && windSpeed.value < thr.windDirRequiresWind
    ensures r == 1 <==> windSpeed.None? || windSpeed.value >= thr.windDirRequiresWind
  {
    if Holds(Lt(windSpeed, thr.windDirRequiresWind)) then 0 else 1
  }

  /** `qc_rain_15min`. */
  function Rain15Min(rain: Option<real>, thr: Thresholds): (r: int)
    ensures r == Fail <==> rain.Some? && (rain.value < thr.rainMinInc || rain.value > thr.rainMax15min)
    ensures r == Warning <==>
              rain.Some? && thr.rainMinInc <= rain.value && thr.rainWarn15min < rain.value <= thr.rainMax15min
    ensures r == Ok <==>
              rain.None? || (thr.rainMinInc <= rain.value <= thr.rainMax15min && rain.value <= thr.rainWarn15min)
  {
    Encode(Le(rain, thr.rainWarn15min),
           Some(And(Gt(rain, thr.rainWarn15min), Le(rain, thr.rainMax15min))),
           Some(Or(Lt(rain, thr.rainMinInc), Gt(rain, thr.rainMax15min))))
  }

  /** `qc_tair_step`: graded on the absolute step. */
  function TairStep(step: Option<real>, thr: Thresholds): (r: int)
    ensures r == Fail <==> step.Some? && (step.value > thr.tairMaxStepFail || step.value < -thr.tairMaxStepFail)
    ensures r == Warning <==> step.Some? && -thr.tairMaxStepFail <= step.value <= thr.tairMaxStepFail
    ensures r == Ok <==> step.None?
  {
    Encode(Le(Abs(step), thr.tairMaxStepWarn),
           Some(Le(Abs(step), thr.tairMaxStepFail)),
           Some(Gt(Abs(step), thr.tairMaxStepFail)))
  }

  /** `qc_daily_availability`: 1 when the day's fraction reaches the minimum,
      0 otherwise, including a NULL fraction. */
  function DailyAvailability(validFrac: Option<real>, thr: Thresholds): (r: int)
    ensures r == 1 <==> validFrac.Some? && validFrac.value >= thr.minDailyAvail
    ensures r == 0 <==> validFrac.None? || validFrac.value < thr.minDailyAvail
  {
    if Holds(Ge(validFrac, thr.minDailyAvail)) then 1 else 0
  }

  /** `qc_rain_daily`. */
  function RainDaily(rainMm: Option<real>, thr: Thresholds): (r: int)
    ensures r == Fail <==> rainMm.Some? && rainMm.value > thr.rainMaxDaily
    ensures r == Warning <==> rainMm.Some? && rainMm.value <= thr.rainMaxDaily
    ensures r == Ok <==> rainMm.None?
  {
    Encode(Le(rainMm, thr.rainWarnDaily),
           Some(Le(rainMm, thr.rainMaxDaily)),
           Some(Gt(rainMm, thr.rainMaxDaily)))
  }

  /** With the Busia thresholds, every temperature in [10, 45], the
      climatological band [12, 36] included, is a WARNING. */
  lemma BusiaTemperatureBands(t: real)
    ensures TairRange(Some(t), Busia) == (if 10.0 <= t <= 45.0 then Warning else Fail)
    ensures TairRange(None, Busia) == Ok
  {
  }

  /** With the Busia thresholds a 15-minute rain above 40 fails, one in
      (20, 40] warns and one in [0, 20] is OK. */
  lemma BusiaRainBands(rain: real)
    requires rain >= 0.0
    ensures Rain15Min(Some(rain), Busia) == (if rain > 40.0 then Fail else if rain > 20.0 then Warning else Ok)
  {
  }
}
