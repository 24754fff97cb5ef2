/** The threshold record `thr` that every level-1 check reads. */
module Thresholds {

  datatype Thresholds = Thresholds(
    tairMinPhy: real, tairMaxPhy: real,
    tairWarnMinClim: real, tairWarnMaxClim: real,
    tairMaxStepWarn: real, tairMaxStepFail: real,
    rhMinPhy: real, rhMaxPhy: real, rhWarnMinClim: real,
    rainMinInc: real, rainWarn15min: real, rainMax15min: real,
    rainWarnDaily: real, rainMaxDaily: real,
    windMinPhy: real, windWarnMaxClim: real, windMaxPhy: real,
    windDirMinPhy: real, windDirMaxPhy: real, windDirRequiresWind: real,
    pMinPhy: real, pMaxPhy: real, pWarnAbsDev: real, pFailAbsDev: real,
    minDailyAvail: real)

  /** The Busia station thresholds the pipeline is configured with. */
  const Busia: Thresholds := Thresholds(
    tairMinPhy := 10.0, tairMaxPhy := 45.0,
    tairWarnMinClim := 12.0, tairWarnMaxClim := 36.0,
    tairMaxStepWarn := 3.0, tairMaxStepFail := 5.0,
    rhMinPhy := 0.0, rhMaxPhy := 100.0, rhWarnMinClim := 20.0,
    rainMinInc := 0.0, rainWarn15min := 20.0, rainMax15min := 40.0,
    rainWarnDaily := 150.0, rainMaxDaily := 300.0,
    windMinPhy := 0.0, windWarnMaxClim := 20.0, windMaxPhy := 40.0,
    windDirMinPhy := 0.0, windDirMaxPhy := 360.0, windDirRequiresWind := 0.3,
    pMinPhy := 750.0, pMaxPhy := 1010.0, pWarnAbsDev := 25.0, pFailAbsDev := 40.0,
    minDailyAvail := 0.8)

  /** Every warning band lies inside its physical range, and every warning
      level is at most its failure level. */
  predicate BandsNested(thr: Thresholds) {
    && thr.tairMinPhy <= thr.tairWarnMinClim <= thr.tairWarnMaxClim <= thr.tairMaxPhy
    && thr.rhMinPhy <= thr.rhWarnMinClim <= thr.rhMaxPhy
    && thr.windMinPhy <= thr.windWarnMaxClim <= thr.windMaxPhy
    && thr.windDirMinPhy <= thr.windDirMaxPhy
    && thr.tairMaxStepWarn <= thr.tairMaxStepFail
    && thr.rainMinInc <= thr.rainWarn15min <= thr.rainMax15min
    && thr.rainWarnDaily <= thr.rainMaxDaily
    && thr.pWarnAbsDev <= thr.pFailAbsDev
    && 0.0 < thr.minDailyAvail <= 1.0
  }

  /** The Busia record is consistent, and its rain minimum admits every
      clamped rain value. */
  lemma BusiaBandsNested()
    ensures BandsNested(Busia)
    ensures Busia.rainMinInc <= 0.0
  {
  }
}
