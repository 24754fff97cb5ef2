/** `collect_qc_check_results`: the names of the failed and of the warning
    checks of a row, in the fixed order of the QC columns. A column counts as
    failed when it holds -2 and as a warning when it holds 0; any other value
    (1, or the -1 of an irregular time gap) is listed nowhere. */
module Collect {

  /** The ten QC result columns of a row. */
  datatype QcFlags = QcFlags(
    timeGap: int,
    tairRange: int,
    rhRange: int,
    windSpeedRange: int,
    windDirRange: int,
    windDirRequiresWind: int,
    rain15Min: int,
    tairStep: int,
    dailyAvailability: int,
    rainDaily: int)

  const QcColumns: seq<string> := [
    "QC_time_gap",
    "QC_Tair_range",
    "QC_RH_range",
    "QC_WindSpeed_range",
    "QC_WindDir_range",
    "QC_WindDir_requires_wind",
    "QC_Rain_15min",
    "QC_Tair_step",
    "QC_Daily_Availability",
    "QC_Rain_Daily"]

  /** The column values, in the order of `QcColumns`. */
  function FlagValues(f: QcFlags): (v: seq<int>)
    ensures |v| == |QcColumns|
  {
    [f.timeGap, f.tairRange, f.rhRange, f.windSpeedRange, f.windDirRange,
     f.windDirRequiresWind, f.rain15Min, f.tairStep, f.dailyAvailability, f.rainDaily]
  }

  predicate Distinct<T(==)>(s: seq<T>) {
    forall i, j :: 0 <= i < j < |s| ==> s[i] != s[j]
  }

  /** `a` is `b` with some elements left out, order kept. */
  predicate Subsequence<T(==)>(a: seq<T>, b: seq<T>)
    decreases |b|
  {
    a == [] || (b != [] && (if a[0] == b[0] then Subsequence(a[1..], b[1..]) else Subsequence(a, b[1..])))
  }

  /** Dropping the first element of a subsequence keeps it a subsequence. */
  lemma {:induction false} SubsequenceDropHead<T>(a: seq<T>, b: seq<T>)
    requires a != [] && Subsequence(a, b)
    ensures Subsequence(a[1..], b)
    decreases |b|, 0
  {
    assert b == [b[0]] + b[1..];
    if a[0] == b[0] {
      SubsequenceSkip(b[0], a[1..], b[1..]);
    } else {
      SubsequenceDropHead(a, b[1..]);
      SubsequenceSkip(b[0], a[1..], b[1..]);
    }
  }

  /** A subsequence of `b` is a subsequence of `b` with an element put in front. */
  lemma {:induction false} SubsequenceSkip<T>(x: T, a: seq<T>, b: seq<T>)
    requires Subsequence(a, b)
    ensures Subsequence(a, [x] + b)
    decreases |b|, 1
  {
    assert ([x] + b)[1..] == b;
    if a != [] && a[0] == x {
      SubsequenceDropHead(a, b);
    }
  }

  /** The names whose value equals `code`, in the order of `names`. */
  function NamesWithCode(names: seq<string>, values: seq<int>, code: int): (r: seq<string>)
    requires |names| == |values|
    ensures Subsequence(r, names)
    ensures forall i :: 0 <= i < |names| && values[i] == code ==> names[i] in r
    ensures forall n :: n in r ==> exists i :: 0 <= i < |names| && names[i] == n && values[i] == code
    decreases |names|
  {
    if names == [] then []
    else
      var rest := NamesWithCode(names[1..], values[1..], code);
      assert names == [names[0]] + names[1..];
      if values[0] == code then [names[0]] + rest
      else
        SubsequenceSkip(names[0], rest, names[1..]);
        rest
  }

  /** The two name lists of a row. */
  datatype CheckNames = CheckNames(failed: seq<string>, warnings: seq<string>)

  function CollectQcCheckResults(f: QcFlags): (r: CheckNames)
    ensures Subsequence(r.failed, QcColumns) && Subsequence(r.warnings, QcColumns)
    ensures forall n :: n in r.failed || n in r.warnings ==> n in QcColumns
    ensures forall i :: 0 <= i < |QcColumns| ==>
              (QcColumns[i] in r.failed <==> FlagValues(f)[i] == -2)
              && (QcColumns[i] in r.warnings <==> FlagValues(f)[i] == 0)
  {
    QcColumnsDistinct();
    CheckNames(NamesWithCode(QcColumns, FlagValues(f), -2), NamesWithCode(QcColumns, FlagValues(f), 0))
  }

  /** The ten check columns are named once each. */
  lemma QcColumnsDistinct()
    ensures |QcColumns| == 10
    ensures Distinct(QcColumns)
  {
  }

  /** No check is both failed and a warning. */
  lemma {:induction false} FailedAndWarningsDisjoint(f: QcFlags)
    ensures forall n :: n in CollectQcCheckResults(f).failed ==> n !in CollectQcCheckResults(f).warnings
  {
    var r := CollectQcCheckResults(f);
    forall n | n in r.failed ensures n !in r.warnings {
      var i :| 0 <= i < |QcColumns| && QcColumns[i] == n && FlagValues(f)[i] == -2;
    }
  }

  /** The time-gap column is listed as a warning when it holds 0 (a regular
      gap) and is listed in neither list when it holds -1. */
  lemma TimeGapListing(f: QcFlags)
    ensures "QC_time_gap" in CollectQcCheckResults(f).failed <==> f.timeGap == -2
    ensures "QC_time_gap" in CollectQcCheckResults(f).warnings <==> f.timeGap == 0
  {
    assert QcColumns[0] == "QC_time_gap";
  }
}
