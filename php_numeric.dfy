/** PHP 8 numeric strings: is_numeric() and the (int) cast of a numeric
    value. A numeric string is optional leading whitespace, an optional sign,
    a decimal number (digits with an optional fraction, or a fraction alone),
    an optional exponent and optional trailing whitespace. */
module PhpNumeric {
  import opened Php

  predicate IsWhitespace(c: char) {
    c == ' ' || c == '\t' || c == '\n' || c == '\r' || c == '\U{B}' || c == '\U{C}'
  }

  /** Length of the run of characters satisfying the class at position p. */
  function DigitRun(s: string, p: nat): (n: nat)
    requires p <= |s|
    ensures p + n <= |s|
    ensures forall i :: p <= i < p + n ==> IsDigit(s[i])
    ensures p + n < |s| ==> !IsDigit(s[p + n])
    decreases |s| - p
  {
    if p < |s| && IsDigit(s[p]) then 1 + DigitRun(s, p + 1) else 0
  }

  function WhitespaceRun(s: string, p: nat): (n: nat)
    requires p <= |s|
    ensures p + n <= |s|
    ensures forall i :: p <= i < p + n ==> IsWhitespace(s[i])
    ensures p + n < |s| ==> !IsWhitespace(s[p + n])
    decreases |s| - p
  {
    if p < |s| && IsWhitespace(s[p]) then 1 + WhitespaceRun(s, p + 1) else 0
  }

  /** The parts of a numeric string. */
  datatype Numeric = Numeric(negative: bool, intDigits: string, fracDigits: string, exponent: int)

  /** Optional exponent `[eE][+-]?digits` at p, then trailing whitespace to the end. */
  function ParseTail(s: string, p: nat): (r: Option<int>)
    requires p <= |s|
  {
    if p < |s| && (s[p] == 'e' || s[p] == 'E') then
      var q := if p + 1 < |s| && (s[p + 1] == '+' || s[p + 1] == '-') then p + 2 else p + 1;
      if q > |s| then None
      else
        var n := DigitRun(s, q);
        var w := WhitespaceRun(s, q + n);
        if n == 0 || q + n + w != |s| then None
        else
          var magnitude: int := DigitsValue(s[q..q + n]);
          Some(if q == p + 2 && s[p + 1] == '-' then -magnitude else magnitude)
    else if p + WhitespaceRun(s, p) == |s| then Some(0)
    else None
  }

  /** The numeric-string grammar; None when the string is not numeric. */
  function ParseNumeric(s: string): Option<Numeric> {
    var p0 := WhitespaceRun(s, 0);
    var negative := p0 < |s| && s[p0] == '-';
    var p1 := if p0 < |s| && (s[p0] == '+' || s[p0] == '-') then p0 + 1 else p0;
    var ni := DigitRun(s, p1);
    var hasDot := p1 + ni < |s| && s[p1 + ni] == '.';
    var p2 := if hasDot then p1 + ni + 1 else p1 + ni;
    var nf := if hasDot then DigitRun(s, p2) else 0;
    if ni + nf == 0 then None
    else
      match ParseTail(s, p2 + nf)
      case None => None
      case Some(e) => Some(Numeric(negative, s[p1..p1 + ni], s[p2..p2 + nf], e))
  }

  function Pow10(k: nat): (r: nat)
    ensures r >= 1
  {
    if k == 0 then 1 else 10 * Pow10(k - 1)
  }

  /** The value of the numeric string, truncated toward zero. */
  function Truncate(n: Numeric): (r: int)
    requires forall i :: 0 <= i < |n.intDigits| ==> IsDigit(n.intDigits[i])
    requires forall i :: 0 <= i < |n.fracDigits| ==> IsDigit(n.fracDigits[i])
    ensures if n.negative then r <= 0 else r >= 0
  {
    var mantissa := DigitsValue(n.intDigits + n.fracDigits);
    var shift := n.exponent - |n.fracDigits|;
    var magnitude := if shift >= 0 then Scaled(mantissa, Pow10(shift)) else Shrunk(mantissa, Pow10(-shift));
    if n.negative then -magnitude else magnitude
  }

  function Scaled(a: nat, b: nat): (r: nat) {
    a * b
  }

  function Shrunk(a: nat, b: nat): (r: nat)
    requires b >= 1
  {
    a / b
  }

  /** is_numeric() on the value kinds modelled here (floats are not):
      every integer, and exactly the strings of the numeric grammar, each of
      which holds at least one digit. */
  predicate IsNumeric(v: Value)
    ensures v.VInt? ==> IsNumeric(v)
    ensures IsNumeric(v) ==> v.VInt? || v.VStr?
    ensures IsNumeric(v) && v.VStr? ==> exists i :: 0 <= i < |v.s| && IsDigit(v.s[i])
  {
    match v
    case VInt(_) => true
    case VStr(s) => NumericHasDigit(s); ParseNumeric(s).Some?
    case _ => false
  }

  lemma NumericHasDigit(s: string)
    ensures ParseNumeric(s).Some? ==> exists i :: 0 <= i < |s| && IsDigit(s[i])
  {
    var p0 := WhitespaceRun(s, 0);
    var p1 := if p0 < |s| && (s[p0] == '+' || s[p0] == '-') then p0 + 1 else p0;
    var ni := DigitRun(s, p1);
    var hasDot := p1 + ni < |s| && s[p1 + ni] == '.';
    var p2 := if hasDot then p1 + ni + 1 else p1 + ni;
    if ni > 0 {
      assert IsDigit(s[p1]);
    } else if hasDot && DigitRun(s, p2) > 0 {
      assert IsDigit(s[p2]);
    }
  }

  lemma ParsedDigits(s: string)
    requires ParseNumeric(s).Some?
    ensures var n := ParseNumeric(s).value;
      (forall i :: 0 <= i < |n.intDigits| ==> IsDigit(n.intDigits[i])) &&
      (forall i :: 0 <= i < |n.fracDigits| ==> IsDigit(n.fracDigits[i]))
  {
  }

  /** `(int) $v` for a numeric value: an integer is itself, a numeric
      string is its value truncated toward zero, so it has the string's
      sign. */
  function IntCast(v: Value): (i: int)
    requires IsNumeric(v)
    ensures v.VInt? ==> i == v.i
    ensures v.VStr? && !ParseNumeric(v.s).value.negative ==> i >= 0
    ensures v.VStr? && ParseNumeric(v.s).value.negative ==> i <= 0
  {
    match v
    case VInt(i) => i
    case VStr(s) => ParsedDigits(s); Truncate(ParseNumeric(s).value)
  }

  lemma {:induction false} DigitRunAll(s: string, p: nat)
    requires p <= |s|
    requires forall i :: p <= i < |s| ==> IsDigit(s[i])
    ensures DigitRun(s, p) == |s| - p
    decreases |s| - p
  {
    if p < |s| {
      DigitRunAll(s, p + 1);
    }
  }

  /** A whole number without exponent truncates to its digits' value. */
  lemma TruncateWhole(n: Numeric)
    requires forall i :: 0 <= i < |n.intDigits| ==> IsDigit(n.intDigits[i])
    requires n.fracDigits == "" && n.exponent == 0
    ensures var d: int := DigitsValue(n.intDigits); Truncate(n) == if n.negative then -d else d
  {
    assert n.intDigits + n.fracDigits == n.intDigits;
    assert Pow10(0) == 1;
  }

  /** An optional minus sign followed by digits parses as an integer
      without fraction or exponent. */
  lemma ParseSignedDigits(s: string, p1: nat)
    requires p1 < |s| && (p1 == 0 || p1 == 1)
    requires (p1 == 1) == (s[0] == '-')
    requires forall i :: p1 <= i < |s| ==> IsDigit(s[i])
    ensures ParseNumeric(s) == Some(Numeric(p1 == 1, s[p1..], "", 0))
  {
    assert IsDigit(s[p1]);
    assert WhitespaceRun(s, 0) == 0;
    DigitRunAll(s, p1);
    assert WhitespaceRun(s, |s|) == 0;
    assert ParseTail(s, |s|) == Some(0);
    assert s[p1..p1 + (|s| - p1)] == s[p1..];
    assert s[|s|..|s|] == "";
  }

  /** The decimal string of an integer is numeric and casts back to it: the
      hidden timing field holds `(string) time()`, read back with `(int)`. */
  lemma IntCastOfDecimal(t: int)
    ensures IsNumeric(VStr(IntToDecimal(t)))
    ensures IntCast(VStr(IntToDecimal(t))) == t
  {
    var s := IntToDecimal(t);
    var m: nat := if t < 0 then -t else t;
    var digits := NatToDecimal(m);
    var p1 := if t < 0 then 1 else 0;
    assert s[p1..] == digits;
    assert forall i :: p1 <= i < |s| ==> IsDigit(s[i]) by {
      forall i | p1 <= i < |s| ensures IsDigit(s[i]) {
        assert s[i] == digits[i - p1];
      }
    }
    ParseSignedDigits(s, p1);
    TruncateWhole(Numeric(t < 0, digits, "", 0));
    DigitsValueOfDecimal(m);
  }
}
