/** The readings table and the preprocessing steps that rebuild it:
    de-duplication on (device_id, timestamp), clamping of negative rain and
    the pressure unit conversion. */
module Readings {
  import opened SqlValues

  /** One row of the readings table. The timestamp is in whole seconds since
      the epoch, so two readings of a device are either in the same second
      or at least one second apart; `date` is the day column the daily
      aggregates group by. Sensor columns not
      read by any check are omitted. */
  datatype Reading = Reading(
    deviceId: string,
    timestamp: int,
    date: Option<string>,
    airTemperature: Option<real>,
    airHumidity: Option<real>,
    windSpeed: Option<real>,
    windDirection: Option<real>,
    rainGauge: Option<real>,
    barometricPressure: Option<real>)

  type Key = (string, int)

  function KeyOf(r: Reading): Key {
    (r.deviceId, r.timestamp)
  }

  function KeysOf(rows: seq<Reading>): set<Key> {
    set r | r in rows :: KeyOf(r)
  }

  /** No two rows share (device_id, timestamp). */
  predicate UniqueKeys(rows: seq<Reading>) {
    forall i, j :: 0 <= i < j < |rows| ==> KeyOf(rows[i]) != KeyOf(rows[j])
  }

  lemma KeysOfCons(head: Reading, rest: seq<Reading>)
    ensures KeysOf([head] + rest) == {KeyOf(head)} + KeysOf(rest)
  {
    assert forall x :: x in [head] + rest <==> x == head || x in rest;
  }

  lemma UniqueKeysCons(head: Reading, rest: seq<Reading>)
    requires UniqueKeys(rest) && KeyOf(head) !in KeysOf(rest)
    ensures UniqueKeys([head] + rest)
  {
    var r := [head] + rest;
    forall j | 0 < j < |r| ensures KeyOf(r[j]) != KeyOf(head) {
      assert r[j] == rest[j - 1];
      assert r[j] in rest;
    }
  }

  /** Keeps the first row of every key not in `seen`. */
  function DedupFrom(rows: seq<Reading>, seen: set<Key>): (r: seq<Reading>)
    ensures forall x :: x in r ==> x in rows && KeyOf(x) !in seen
    ensures UniqueKeys(r)
    ensures KeysOf(r) == KeysOf(rows) - seen
    decreases |rows|
  {
    if rows == [] then []
    else
      var head, rest := rows[0], rows[1..];
      assert rows == [head] + rest;
      KeysOfCons(head, rest);
      if KeyOf(head) in seen then DedupFrom(rest, seen)
      else
        var tail := DedupFrom(rest, seen + {KeyOf(head)});
        KeysOfCons(head, tail);
        UniqueKeysCons(head, tail);
        [head] + tail
  }

  /** `parse_and_dedup`: drops rows whose (device_id, timestamp) repeats an
      earlier row's. */
  function Dedup(rows: seq<Reading>): (r: seq<Reading>)
    ensures UniqueKeys(r)
    ensures KeysOf(r) == KeysOf(rows)
    ensures forall x :: x in r ==> x in rows
  {
    DedupFrom(rows, {})
  }

  /** A table that already has unique keys loses no row. */
  lemma {:induction false} DedupFromKeepsUnique(rows: seq<Reading>, seen: set<Key>)
    requires UniqueKeys(rows)
    requires forall x :: x in rows ==> KeyOf(x) !in seen
    ensures DedupFrom(rows, seen) == rows
    decreases |rows|
  {
    if rows != [] {
      var rest := rows[1..];
      forall x | x in rest ensures KeyOf(x) !in seen + {KeyOf(rows[0])} {
        var j :| 0 <= j < |rest| && rest[j] == x;
        assert KeyOf(rows[j + 1]) != KeyOf(rows[0]);
      }
      DedupFromKeepsUnique(rest, seen + {KeyOf(rows[0])});
    }
  }

  /** De-duplication is idempotent. */
  lemma DedupIdempotent(rows: seq<Reading>)
    ensures Dedup(Dedup(rows)) == Dedup(rows)
  {
    DedupFromKeepsUnique(Dedup(rows), {});
  }

  /** `clean_negative_rain` on one value: a negative increment becomes 0.0; a
      NULL stays NULL, because `NULL < 0` is not TRUE. */
  function CleanRain(rain: Option<real>): (r: Option<real>)
    ensures r.None? <==> rain.None?
    ensures r.Some? ==> r.value >= 0.0
    ensures rain.Some? && rain.value >= 0.0 ==> r == rain
    ensures rain.Some? && rain.value < 0.0 ==> r == Some(0.0)
  {
    if Holds(Lt(rain, 0.0)) then Some(0.0) else rain
  }

  function CleanRow(x: Reading): Reading {
    x.(rainGauge := CleanRain(x.rainGauge))
  }

  /** `clean_negative_rain` over the table. */
  function CleanNegativeRain(rows: seq<Reading>): (r: seq<Reading>)
    ensures |r| == |rows|
    ensures forall i :: 0 <= i < |r| ==>
              r[i] == rows[i].(rainGauge := r[i].rainGauge)
              && (r[i].rainGauge.None? <==> rows[i].rainGauge.None?)
              && (r[i].rainGauge.Some? ==> r[i].rainGauge.value >= 0.0)
              && (rows[i].rainGauge.Some? && rows[i].rainGauge.value >= 0.0 ==> r[i] == rows[i])
              && (rows[i].rainGauge.Some? && rows[i].rainGauge.value < 0.0 ==> r[i].rainGauge == Some(0.0))
  {
    seq(|rows|, i requires 0 <= i < |rows| => CleanRow(rows[i]))
  }

  /** Cleaning a cleaned table changes nothing. */
  lemma CleanNegativeRainIdempotent(rows: seq<Reading>)
    ensures CleanNegativeRain(CleanNegativeRain(rows)) == CleanNegativeRain(rows)
  {
  }

  /** Cleaning touches no key. */
  lemma CleanNegativeRainKeepsKeys(rows: seq<Reading>)
    ensures KeysOf(CleanNegativeRain(rows)) == KeysOf(rows)
    ensures UniqueKeys(rows) ==> UniqueKeys(CleanNegativeRain(rows))
  {
    var c := CleanNegativeRain(rows);
    forall x | x in c ensures KeyOf(x) in KeysOf(rows) {
      var i :| 0 <= i < |c| && c[i] == x;
      assert rows[i] in rows;
    }
    forall x | x in rows ensures KeyOf(x) in KeysOf(c) {
      var i :| 0 <= i < |rows| && rows[i] == x;
      assert c[i] in c;
    }
  }

  /** The Pa to hPa factor. */
  const PaPerHpa: real := 100.0

  /** `convert_pressure_hpa` on one value: the table's median pressure is
      given, and when it is above 2000 every value is taken to be in Pa and
      divided by 100. */
  function ConvertPressureHpa(pressure: Option<real>, median: Option<real>): (r: Option<real>)
    ensures r.None? <==> pressure.None?
    ensures r.Some? && median.Some? && median.value > 2000.0 ==> r.value * PaPerHpa == pressure.value
    ensures !(median.Some? && median.value > 2000.0) ==> r == pressure
  {
    if median.Some? && median.value > 2000.0 && pressure.Some? then Some(pressure.value / PaPerHpa)
    else pressure
  }
}
