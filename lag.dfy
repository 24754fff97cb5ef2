/** Per-device predecessor values: `F.lag(...)` over a window partitioned by
    device_id and ordered by timestamp. A row's predecessor is the row of the
    same device with the latest strictly earlier timestamp; a device's first
    row has none. */
module Lag {
  import opened SqlValues
  import opened Readings

  /** Row `k` belongs to the device `dev` and lies strictly before `t`. */
  predicate Earlier(rows: seq<Reading>, k: int, dev: string, t: int)
    requires 0 <= k < |rows|
  {
    rows[k].deviceId == dev && rows[k].timestamp < t
  }

  /** Row `j` is the window predecessor of row `i`. */
  predicate IsPredecessor(rows: seq<Reading>, i: nat, j: int)
    requires i < |rows|
  {
    && 0 <= j < |rows|
    && Earlier(rows, j, rows[i].deviceId, rows[i].timestamp)
    && forall k :: 0 <= k < |rows| && Earlier(rows, k, rows[i].deviceId, rows[i].timestamp) ==>
         rows[k].timestamp <= rows[j].timestamp
  }

  /** No row of the device lies before row `i`. */
  predicate IsFirstOfDevice(rows: seq<Reading>, i: nat)
    requires i < |rows|
  {
    forall k :: 0 <= k < |rows| ==> !Earlier(rows, k, rows[i].deviceId, rows[i].timestamp)
  }

  /** Among the first `n` rows, the latest one of `dev` strictly before `t`. */
  function LatestBefore(rows: seq<Reading>, dev: string, t: int, n: nat): (p: Option<nat>)
    requires n <= |rows|
    ensures p.Some? ==> p.value < n && Earlier(rows, p.value, dev, t)
    ensures p.Some? ==> forall k :: 0 <= k < n && Earlier(rows, k, dev, t) ==>
                          rows[k].timestamp <= rows[p.value].timestamp
    ensures p.None? ==> forall k :: 0 <= k < n ==> !Earlier(rows, k, dev, t)
  {
    if n == 0 then None
    else
      var p := LatestBefore(rows, dev, t, n - 1);
      if Earlier(rows, n - 1, dev, t) && (p.None? || rows[p.value].timestamp <= rows[n - 1].timestamp)
      then Some(n - 1)
      else p
  }

  /** The window predecessor of row `i`, found by a scan of the table. */
  function Predecessor(rows: seq<Reading>, i: nat): (p: Option<nat>)
    requires i < |rows|
    ensures p.Some? ==> IsPredecessor(rows, i, p.value)
    ensures p.None? <==> IsFirstOfDevice(rows, i)
  {
    LatestBefore(rows, rows[i].deviceId, rows[i].timestamp, |rows|)
  }

  /** Once keys are unique the predecessor is unique, so the lag is well
      defined. */
  lemma PredecessorUnique(rows: seq<Reading>, i: nat, j1: nat, j2: nat)
    requires i < |rows| && UniqueKeys(rows)
    requires IsPredecessor(rows, i, j1) && IsPredecessor(rows, i, j2)
    ensures j1 == j2
  {
    assert rows[j1].timestamp == rows[j2].timestamp;
  }

  /** `compute_time_diff`: minutes since the device's previous row, NULL for
      its first row. */
  function TimeDiff(rows: seq<Reading>, i: nat): (d: Option<real>)
    requires i < |rows|
    ensures d.None? <==> IsFirstOfDevice(rows, i)
    ensures d.Some? ==> d.value > 0.0
  {
    match Predecessor(rows, i)
    case None => None
    case Some(j) => Some((rows[i].timestamp - rows[j].timestamp) as real / 60.0)
  }

  /** The time difference of a later row is the predecessor's gap in
      seconds, divided by 60. */
  lemma TimeDiffOfPredecessor(rows: seq<Reading>, i: nat, j: nat)
    requires i < |rows| && UniqueKeys(rows) && IsPredecessor(rows, i, j)
    ensures TimeDiff(rows, i) == Some((rows[i].timestamp - rows[j].timestamp) as real / 60.0)
  {
    PredecessorUnique(rows, i, j, Predecessor(rows, i).value);
  }

  /** `compute_tair_step`: the temperature minus the predecessor's
      temperature; NULL for a first row or when either temperature is NULL. */
  function TairStepOf(rows: seq<Reading>, i: nat): (s: Option<real>)
    requires i < |rows|
    ensures IsFirstOfDevice(rows, i) ==> s.None?
    ensures s.Some? ==> rows[i].airTemperature.Some?
    ensures forall j :: IsPredecessor(rows, i, j) && UniqueKeys(rows) ==>
              s == Sub(rows[i].airTemperature, rows[j].airTemperature)
  {
    match Predecessor(rows, i)
    case None => None
    case Some(j) =>
      assert forall j' :: IsPredecessor(rows, i, j') && UniqueKeys(rows) ==> j' == j by {
        forall j' | IsPredecessor(rows, i, j') && UniqueKeys(rows) ensures j' == j {
          PredecessorUnique(rows, i, j, j');
        }
      }
      Sub(rows[i].airTemperature, rows[j].airTemperature)
  }

  /** Two tables holding the same device and timestamp at every position. */
  predicate SameSchedule(a: seq<Reading>, b: seq<Reading>) {
    |a| == |b| &&
    forall k :: 0 <= k < |a| ==> a[k].deviceId == b[k].deviceId && a[k].timestamp == b[k].timestamp
  }

  lemma {:induction false} LatestBeforeSameSchedule(a: seq<Reading>, b: seq<Reading>, dev: string, t: int, n: nat)
    requires SameSchedule(a, b) && n <= |a|
    ensures LatestBefore(a, dev, t, n) == LatestBefore(b, dev, t, n)
  {
    if n > 0 {
      LatestBeforeSameSchedule(a, b, dev, t, n - 1);
    }
  }

  /** The lag only reads device ids and timestamps, so columns that a later
      step rewrites (rain, say) do not change it. */
  lemma ScheduleDeterminesLag(a: seq<Reading>, b: seq<Reading>, i: nat)
    requires SameSchedule(a, b) && i < |a|
    ensures Predecessor(a, i) == Predecessor(b, i)
    ensures TimeDiff(a, i) == TimeDiff(b, i)
    ensures IsFirstOfDevice(a, i) <==> IsFirstOfDevice(b, i)
    ensures forall j :: IsPredecessor(a, i, j) <==> IsPredecessor(b, i, j)
  {
    LatestBeforeSameSchedule(a, b, a[i].deviceId, a[i].timestamp, |a|);
  }
}
