/** The three-way QC encoding: -2 = FAIL, 0 = WARNING, 1 = OK. */
module Encoding {
  import opened SqlValues

  const Fail: int := -2
  const Warning: int := 0
  const Ok: int := 1

  /** An optional condition argument (`cond_warn=None` when `None`) that is
      given and evaluates to TRUE. */
  predicate Given(c: Option<Truth>) {
    c.Some? && Holds(c.value)
  }

  /** `qc_encode_col`: FAIL takes precedence over WARNING, and everything
      else, including a NULL condition, is OK. The OK condition is evaluated
      but both of its branches yield 1. */
  function Encode(condOk: Truth, condWarn: Option<Truth>, condFail: Option<Truth>): (r: int)
    ensures r in {Fail, Warning, Ok}
    ensures r == Fail <==> Given(condFail)
    ensures r == Warning <==> !Given(condFail) && Given(condWarn)
    ensures r == Ok <==> !Given(condFail) && !Given(condWarn)
  {
    var innerOk := if Holds(condOk) then 1 else 1;
    var innerWarn :=
      match condWarn
      case Some(w) => if Holds(w) then 0 else innerOk
      case None => innerOk;
    match condFail
    case Some(f) => if Holds(f) then -2 else innerWarn
    case None => innerWarn
  }

  /** The OK condition never influences the code. */
  lemma EncodeIgnoresCondOk(ok1: Truth, ok2: Truth, condWarn: Option<Truth>, condFail: Option<Truth>)
    ensures Encode(ok1, condWarn, condFail) == Encode(ok2, condWarn, condFail)
  {
  }
}
