/** The honeypot check: a hidden field that people leave empty and naive
    bots fill in. */
module Honeypot {
  import opened Php

  const DefaultFieldName: string := "email_confirm"

  datatype HoneypotValidator = HoneypotValidator(fieldName: string) {

    /** True when the form passes: it has no honeypot field, or the field's
        data is PHP-empty. */
    function Validate(form: Fields): (ok: bool)
      ensures !HasKey(form, fieldName) ==> ok
      ensures HasKey(form, fieldName) ==> (ok <==> Empty(Lookup(form, fieldName).value))
    {
      match Lookup(form, fieldName)
      case None => true
      case Some(data) => Empty(data)
    }
  }

  /** The validator as the service container builds it. */
  function Default(): (v: HoneypotValidator)
    ensures v.fieldName == "email_confirm"
  {
    HoneypotValidator(DefaultFieldName)
  }

  /** Any string other than '' and '0', including blanks, is a bot's. */
  lemma FilledStringFails(v: HoneypotValidator, form: Fields, s: string)
    requires Lookup(form, v.fieldName) == Some(VStr(s))
    requires s != "" && s != "0"
    ensures !v.Validate(form)
  {
  }

  lemma WhitespaceFails(v: HoneypotValidator, form: Fields)
    requires Lookup(form, v.fieldName) == Some(VStr("   "))
    ensures !v.Validate(form)
  {
  }

  /** The verdict depends on the honeypot field's data and nothing else. */
  lemma OnlyHoneypotFieldMatters(v: HoneypotValidator, f1: Fields, f2: Fields)
    requires Lookup(f1, v.fieldName) == Lookup(f2, v.fieldName)
    ensures v.Validate(f1) == v.Validate(f2)
  {
  }
}
