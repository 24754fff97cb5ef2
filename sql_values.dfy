/** Nullable column values and Spark SQL's three-valued logic.

    Every column of the readings table may hold NULL. A comparison with NULL
    yields NULL, `&` and `|` follow Kleene's logic, and `F.when(c, v)` takes
    its branch only when `c` is TRUE: FALSE and NULL both fall through to
    `otherwise`. */
module SqlValues {

  datatype Option<+T> = None | Some(value: T)

  /** A SQL boolean: `None` is NULL. */
  type Truth = Option<bool>

  /** The test `F.when` applies to its condition. */
  predicate Holds(c: Truth) {
    c == Some(true)
  }

  function Not(a: Truth): (r: Truth)
    ensures r.None? <==> a.None?
    ensures Holds(r) <==> a == Some(false)
  {
    match a
    case None => None
    case Some(b) => Some(!b)
  }

  /** Kleene conjunction: FALSE wins over NULL. */
  function And(a: Truth, b: Truth): (r: Truth)
    ensures r == Some(false) <==> a == Some(false) || b == Some(false)
    ensures Holds(r) <==> Holds(a) && Holds(b)
  {
    match (a, b)
    case (Some(x), Some(y)) => Some(x && y)
    case (Some(false), None) => Some(false)
    case (None, Some(false)) => Some(false)
    case _ => None
  }

  /** Kleene disjunction: TRUE wins over NULL. */
  function Or(a: Truth, b: Truth): (r: Truth)
    ensures Holds(r) <==> Holds(a) || Holds(b)
    ensures r == Some(false) <==> a == Some(false) && b == Some(false)
  {
    match (a, b)
    case (Some(x), Some(y)) => Some(x || y)
    case (Some(true), None) => Some(true)
    case (None, Some(true)) => Some(true)
    case _ => None
  }

  function Lt(x: Option<real>, c: real): (r: Truth)
    ensures Holds(r) <==> x.Some? && x.value < c
  {
    if x.None? then None else Some(x.value < c)
  }

  function Le(x: Option<real>, c: real): (r: Truth)
    ensures Holds(r) <==> x.Some? && x.value <= c
  {
    if x.None? then None else Some(x.value <= c)
  }

  function Gt(x: Option<real>, c: real): (r: Truth)
    ensures Holds(r) <==> x.Some? && x.value > c
  {
    if x.None? then None else Some(x.value > c)
  }

  function Ge(x: Option<real>, c: real): (r: Truth)
    ensures Holds(r) <==> x.Some? && x.value >= c
  {
    if x.None? then None else Some(x.value >= c)
  }

  /** `Column.between(lo, hi)`, which Spark defines as `x >= lo AND x <= hi`. */
  function Between(x: Option<real>, lo: real, hi: real): (r: Truth)
    ensures r.None? <==> x.None?
    ensures Holds(r) <==> x.Some? && lo <= x.value <= hi
  {
    And(Ge(x, lo), Le(x, hi))
  }

  function IsNotNull(x: Option<real>): (r: Truth)
    ensures Holds(r) <==> x.Some?
  {
    Some(x.Some?)
  }

  /** Column subtraction: NULL when either operand is NULL. */
  function Sub(a: Option<real>, b: Option<real>): (r: Option<real>)
    ensures r.Some? <==> a.Some? && b.Some?
    ensures r.Some? ==> r.value + b.value == a.value
  {
    if a.Some? && b.Some? then Some(a.value - b.value) else None
  }

  function AbsReal(x: real): real {
    if x < 0.0 then -x else x
  }

  /** `F.abs` on a nullable column. */
  function Abs(x: Option<real>): (r: Option<real>)
    ensures r.Some? <==> x.Some?
    ensures r.Some? ==> r.value >= 0.0 && (r.value == x.value || r.value == -x.value)
  {
    if x.None? then None else Some(AbsReal(x.value))
  }

  /** Adds one value to a running SQL sum: a NULL addend is skipped. */
  function AddNonNull(acc: Option<real>, x: Option<real>): Option<real> {
    match x
    case None => acc
    case Some(v) => if acc.None? then Some(v) else Some(acc.value + v)
  }

  /** The arithmetic total of the present values; a NULL adds nothing. */
  function PresentTotal(xs: seq<Option<real>>): real {
    if xs == [] then 0.0
    else (if xs[0].Some? then xs[0].value else 0.0) + PresentTotal(xs[1..])
  }

  lemma {:induction false} PresentTotalAppend(a: seq<Option<real>>, b: seq<Option<real>>)
    ensures PresentTotal(a + b) == PresentTotal(a) + PresentTotal(b)
  {
    if a == [] {
      assert a + b == b;
    } else {
      assert (a + b)[1..] == a[1..] + b;
      PresentTotalAppend(a[1..], b);
    }
  }

  /** The aggregate `F.sum`: NULL values are ignored, the sum of a group
      without any non-NULL value is NULL, and otherwise it is the total of
      the present values. */
  function SumNonNull(xs: seq<Option<real>>): (r: Option<real>)
    ensures r.None? <==> forall k :: 0 <= k < |xs| ==> xs[k].None?
    ensures PresentTotal(xs) == if r.Some? then r.value else 0.0
  {
    if xs == [] then None
    else
      var init, last := xs[..|xs| - 1], xs[|xs| - 1];
      assert xs == init + [last];
      PresentTotalAppend(init, [last]);
      assert PresentTotal([last]) == (if last.Some? then last.value else 0.0) by {
        assert [last][1..] == [];
      }
      AddNonNull(SumNonNull(init), last)
  }

  /** The sum of a concatenation combines the sums of its parts, so the
      total does not depend on how a group is split. */
  lemma {:induction false} SumNonNullAppend(a: seq<Option<real>>, b: seq<Option<real>>)
    ensures SumNonNull(a + b) == AddNonNull(SumNonNull(a), SumNonNull(b))
    decreases |b|
  {
    if b == [] {
      assert a + b == a;
    } else {
      var init := b[..|b| - 1];
      assert (a + b)[..|a + b| - 1] == a + init;
      assert (a + b)[|a + b| - 1] == b[|b| - 1];
      SumNonNullAppend(a, init);
    }
  }

  /** A sum of non-negative values is non-negative. */
  lemma {:induction false} SumNonNullNonNegative(xs: seq<Option<real>>)
    requires forall k :: 0 <= k < |xs| && xs[k].Some? ==> xs[k].value >= 0.0
    ensures SumNonNull(xs).Some? ==> SumNonNull(xs).value >= 0.0
  {
    if xs != [] {
      SumNonNullNonNegative(xs[..|xs| - 1]);
    }
  }
}
