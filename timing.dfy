/** The timing check: the form carries the Unix time at which it was
    rendered; a submission that comes back sooner than minSubmitTime seconds
    later is a bot's. The clock is the parameter `now`. */
module Timing {
  import opened Php
  import opened PhpNumeric

  const DefaultMinSubmitTime: int := 3
  const DefaultFieldName: string := "_form_token_time"

  datatype TimingValidator = TimingValidator(minSubmitTime: int, fieldName: string) {

    /** True when the form passes: no timing field; or a truthy numeric
        token whose (int) value lies at least minSubmitTime seconds before now. */
    function Validate(form: Fields, now: int): (ok: bool)
      ensures !HasKey(form, fieldName) ==> ok
      ensures HasKey(form, fieldName) ==>
        var token := Lookup(form, fieldName).value;
        ok <==> Truthy(token) && IsNumeric(token) && now - IntCast(token) >= minSubmitTime
    {
      match Lookup(form, fieldName)
      case None => true
      case Some(token) =>
        if !Truthy(token) || !IsNumeric(token) then false
        else now - IntCast(token) >= minSubmitTime
    }

    function GetMinSubmitTime(): int {
      minSubmitTime
    }
  }

  function Default(): (v: TimingValidator)
    ensures v.minSubmitTime == 3 && v.fieldName == "_form_token_time"
    ensures v.GetMinSubmitTime() == 3
  {
    TimingValidator(DefaultMinSubmitTime, DefaultFieldName)
  }

  /** For the token the form renders, `(string) time()` of a non-zero load
      time t, the check passes exactly when now - t >= minSubmitTime. */
  lemma DecimalTokenDecides(v: TimingValidator, form: Fields, t: int, now: int)
    requires t != 0
    requires Lookup(form, v.fieldName) == Some(VStr(IntToDecimal(t)))
    ensures v.Validate(form, now) <==> now - t >= v.minSubmitTime
  {
    NonZeroDecimalIsTruthy(t);
    IntCastOfDecimal(t);
  }

  /** The boundary is inclusive: exactly minSubmitTime seconds pass. */
  lemma ExactMinimumPasses(v: TimingValidator, form: Fields, t: int)
    requires t != 0
    requires Lookup(form, v.fieldName) == Some(VStr(IntToDecimal(t)))
    ensures v.Validate(form, t + v.minSubmitTime)
  {
    DecimalTokenDecides(v, form, t, t + v.minSubmitTime);
  }

  /** A load time in the future fails whenever the minimum is positive. */
  lemma FutureLoadTimeFails(v: TimingValidator, form: Fields, t: int, now: int)
    requires t != 0 && now < t && v.minSubmitTime > 0
    requires Lookup(form, v.fieldName) == Some(VStr(IntToDecimal(t)))
    ensures !v.Validate(form, now)
  {
    DecimalTokenDecides(v, form, t, now);
  }

  /** Falsy tokens fail, '0' included, whatever the clock says. */
  lemma FalsyTokenFails(v: TimingValidator, form: Fields, now: int)
    requires Lookup(form, v.fieldName) in {Some(VNull), Some(VStr("")), Some(VStr("0"))}
    ensures !v.Validate(form, now)
  {
  }

  /** A string that is not numeric fails. */
  lemma NonNumericTokenFails(v: TimingValidator, form: Fields, now: int, s: string)
    requires Lookup(form, v.fieldName) == Some(VStr(s))
    requires ParseNumeric(s).None?
    ensures !v.Validate(form, now)
  {
  }
}
