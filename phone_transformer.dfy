/** The telephone field's data transformer: a full number such as
    "+36301234567" is split into a country key and the national number, and
    the two parts are joined back. */
module PhoneTransformer {
  import opened Php
  import opened CountryCodes

  const DefaultCountry: string := "HU"

  /** The form's view of a number: ['country_code' => …, 'number' => …]. */
  datatype PhoneParts = PhoneParts(countryCode: string, number: string)

  // ---------------------------------------------------------------------
  // Candidate order: a stable sort by calling-code length, longest first

  function CodeLength(e: (string, Country)): nat {
    |e.1.code|
  }

  predicate LongestFirst(cs: seq<(string, Country)>) {
    forall i, j :: 0 <= i < j < |cs| ==> CodeLength(cs[i]) >= CodeLength(cs[j])
  }

  /** Insert x after every entry whose code is at least as long. */
  function InsertByCodeLength(x: (string, Country), sorted: seq<(string, Country)>): (r: seq<(string, Country)>)
    ensures multiset(r) == multiset(sorted) + multiset{x}
  {
    if |sorted| == 0 then [x]
    else if CodeLength(sorted[0]) >= CodeLength(x) then
      assert sorted == [sorted[0]] + sorted[1..];
      [sorted[0]] + InsertByCodeLength(x, sorted[1..])
    else
      [x] + sorted
  }

  lemma {:induction false} InsertKeepsLongestFirst(x: (string, Country), sorted: seq<(string, Country)>)
    requires LongestFirst(sorted)
    ensures LongestFirst(InsertByCodeLength(x, sorted))
  {
    if |sorted| > 0 && CodeLength(sorted[0]) >= CodeLength(x) {
      var rest := InsertByCodeLength(x, sorted[1..]);
      InsertKeepsLongestFirst(x, sorted[1..]);
      var r := [sorted[0]] + rest;
      forall j | 0 < j < |r| ensures CodeLength(r[0]) >= CodeLength(r[j]) {
        assert r[j] in multiset(rest);
        assert r[j] in multiset(sorted[1..]) || r[j] == x;
        if r[j] != x {
          var k :| 0 <= k < |sorted[1..]| && sorted[1..][k] == r[j];
          assert sorted[k + 1] == r[j];
        }
      }
      assert InsertByCodeLength(x, sorted) == r;
    }
  }

  /** The entries whose calling code has length n, in their order. */
  function OfLength(cs: seq<(string, Country)>, n: nat): seq<(string, Country)> {
    if |cs| == 0 then []
    else (if CodeLength(cs[0]) == n then [cs[0]] else []) + OfLength(cs[1..], n)
  }

  lemma {:induction false} OfLengthAppend(a: seq<(string, Country)>, b: seq<(string, Country)>, n: nat)
    ensures OfLength(a + b, n) == OfLength(a, n) + OfLength(b, n)
  {
    if |a| > 0 {
      assert (a + b)[0] == a[0] && (a + b)[1..] == a[1..] + b;
      OfLengthAppend(a[1..], b, n);
    } else {
      assert a + b == b;
    }
  }

  lemma {:induction false} OfLengthShorter(cs: seq<(string, Country)>, n: nat)
    requires forall i :: 0 <= i < |cs| ==> CodeLength(cs[i]) < n
    ensures OfLength(cs, n) == []
  {
    if |cs| > 0 {
      OfLengthShorter(cs[1..], n);
    }
  }

  lemma OfLengthCons(c: (string, Country), rest: seq<(string, Country)>, n: nat)
    ensures OfLength([c] + rest, n) == (if CodeLength(c) == n then [c] else []) + OfLength(rest, n)
  {
    assert ([c] + rest)[0] == c && ([c] + rest)[1..] == rest;
  }

  lemma TailLongestFirst(sorted: seq<(string, Country)>)
    requires |sorted| > 0 && LongestFirst(sorted)
    ensures LongestFirst(sorted[1..])
  {
    forall i, j | 0 <= i < j < |sorted| - 1 ensures CodeLength(sorted[1..][i]) >= CodeLength(sorted[1..][j]) {
      assert sorted[1..][i] == sorted[i + 1] && sorted[1..][j] == sorted[j + 1];
    }
  }

  /** Insertion puts the new entry after every entry of its code length. */
  lemma {:induction false} InsertKeepsOrder(x: (string, Country), sorted: seq<(string, Country)>, n: nat)
    requires LongestFirst(sorted)
    ensures OfLength(InsertByCodeLength(x, sorted), n)
         == OfLength(sorted, n) + (if CodeLength(x) == n then [x] else [])
  {
    if |sorted| == 0 {
      OfLengthCons(x, [], n);
      assert [x] + [] == [x];
    } else {
      assert sorted == [sorted[0]] + sorted[1..];
      OfLengthCons(sorted[0], sorted[1..], n);
      if CodeLength(sorted[0]) >= CodeLength(x) {
        TailLongestFirst(sorted);
        InsertKeepsOrder(x, sorted[1..], n);
        OfLengthCons(sorted[0], InsertByCodeLength(x, sorted[1..]), n);
      } else {
        if CodeLength(x) == n {
          OfLengthShorter(sorted, n);
        }
        OfLengthCons(x, sorted, n);
      }
    }
  }

  /** uasort() by `strlen($b['code']) <=> strlen($a['code'])`: a
      permutation with the longest code first, in which entries with codes
      of equal length keep their order, as PHP's sort is stable. */
  function SortByCodeLength(cs: seq<(string, Country)>): (r: seq<(string, Country)>)
    ensures multiset(r) == multiset(cs)
    ensures LongestFirst(r)
    ensures forall n: nat :: OfLength(r, n) == OfLength(cs, n)
  {
    if |cs| == 0 then []
    else
      assert cs == cs[..|cs| - 1] + [cs[|cs| - 1]];
      var sorted := SortByCodeLength(cs[..|cs| - 1]);
      InsertKeepsLongestFirst(cs[|cs| - 1], sorted);
      SortKeepsOrder(cs[..|cs| - 1], cs[|cs| - 1], sorted);
      InsertByCodeLength(cs[|cs| - 1], sorted)
  }

  lemma SortKeepsOrder(init: seq<(string, Country)>, x: (string, Country), sorted: seq<(string, Country)>)
    requires LongestFirst(sorted)
    requires forall n: nat :: OfLength(sorted, n) == OfLength(init, n)
    ensures forall n: nat :: OfLength(InsertByCodeLength(x, sorted), n) == OfLength(init + [x], n)
  {
    forall n: nat ensures OfLength(InsertByCodeLength(x, sorted), n) == OfLength(init + [x], n) {
      InsertKeepsOrder(x, sorted, n);
      OfLengthAppend(init, [x], n);
      assert OfLength([x], n) == (if CodeLength(x) == n then [x] else []) + OfLength([], n);
    }
  }

  /** The first candidate whose calling code begins the value. */
  function FirstPrefixMatch(cands: seq<(string, Country)>, v: string): (k: Option<nat>)
    ensures k.Some? ==> k.value < |cands| && StartsWith(v, cands[k.value].1.code)
    ensures k.Some? ==> forall j :: 0 <= j < k.value ==> !StartsWith(v, cands[j].1.code)
    ensures k.None? ==> forall j :: 0 <= j < |cands| ==> !StartsWith(v, cands[j].1.code)
  {
    if |cands| == 0 then None
    else if StartsWith(v, cands[0].1.code) then Some(0)
    else
      match FirstPrefixMatch(cands[1..], v)
      case None => None
      case Some(k) => Some(k + 1)
  }

  /** transform()'s loop: the candidates are tried in order and the first
      whose calling code begins the value is taken. */
  method ScanCodes(cands: seq<(string, Country)>, v: string) returns (k: Option<nat>)
    ensures k == FirstPrefixMatch(cands, v)
  {
    var i := 0;
    while i < |cands|
      invariant 0 <= i <= |cands|
      invariant forall j :: 0 <= j < i ==> !StartsWith(v, cands[j].1.code)
    {
      var callingCode := cands[i].1.code;
      if StartsWith(v, callingCode) {
        return Some(i);
      }
      i := i + 1;
    }
    return None;
  }

  /** ltrim($s, '+') */
  function LTrimPlus(s: string): (r: string)
    ensures |r| <= |s| && s[|s| - |r|..] == r
    ensures forall i :: 0 <= i < |s| - |r| ==> s[i] == '+'
    ensures |r| > 0 ==> r[0] != '+'
  {
    if |s| > 0 && s[0] == '+' then LTrimPlus(s[1..]) else s
  }

  /** preg_replace('/[^0-9]/', '', $s) */
  function DigitsOnly(s: string): (r: string)
    ensures forall i :: 0 <= i < |r| ==> IsDigit(r[i])
    ensures (forall i :: 0 <= i < |s| ==> IsDigit(s[i])) ==> r == s
  {
    if |s| == 0 then ""
    else if IsDigit(s[0]) then [s[0]] + DigitsOnly(s[1..])
    else DigitsOnly(s[1..])
  }

  /** What reverseTransform() is given: not an array (or null), or an array
      whose keys may be missing or null. */
  datatype PhoneInput = NotAnArray | PhoneArray(countryCode: Option<string>, number: Option<string>)

  /** The outcome of reverseTransform(): a number or null, or the
      TransformationFailedException for an unknown country. */
  datatype Reversed = Phone(value: Option<string>) | InvalidCountry(countryCode: string)

  class PhoneNumberTransformer {
    const allowedCountries: Option<seq<string>>
    const defaultCountry: string

    constructor (allowedCountries: Option<seq<string>>, defaultCountry: Option<string>)
      ensures this.allowedCountries == allowedCountries
      ensures this.defaultCountry == defaultCountry.GetOr(DefaultCountry)
    {
      this.allowedCountries := allowedCountries;
      this.defaultCountry := defaultCountry.GetOr(DefaultCountry);
    }

    /** The countries in the order transform() tries them. */
    function Candidates(): (cands: seq<(string, Country)>)
      ensures multiset(cands) == multiset(GetCountries(allowedCountries)) && LongestFirst(cands)
    {
      SortByCodeLength(GetCountries(allowedCountries))
    }

    /** What transform() returns: the default country and '' for null or '',
        else the first candidate whose code begins the value with the rest of
        the value, else the default country and the value without leading '+'. */
    function Split(value: Option<string>): (parts: PhoneParts)
      ensures value.None? || value == Some("") ==> parts == PhoneParts(defaultCountry, "")
      ensures value.Some? && value.value != "" && FirstPrefixMatch(Candidates(), value.value).None? ==>
        parts == PhoneParts(defaultCountry, LTrimPlus(value.value))
      ensures value.Some? && value.value != "" && FirstPrefixMatch(Candidates(), value.value).Some? ==>
        var c := Candidates()[FirstPrefixMatch(Candidates(), value.value).value];
        parts == PhoneParts(c.0, value.value[|c.1.code|..])
    {
      match value
      case None => PhoneParts(defaultCountry, "")
      case Some(v) =>
        if v == "" then PhoneParts(defaultCountry, "")
        else
          match FirstPrefixMatch(Candidates(), v)
          case Some(k) => PhoneParts(Candidates()[k].0, v[|Candidates()[k].1.code|..])
          case None => PhoneParts(defaultCountry, LTrimPlus(v))
    }

    /** transform($value): the candidates are scanned in order and the first
        matching code wins. */
    method Transform(value: Option<string>) returns (parts: PhoneParts)
      ensures parts == Split(value)
    {
      if value.None? || value.value == "" {
        return PhoneParts(defaultCountry, "");
      }
      var v := value.value;
      var cands := Candidates();
      var k := ScanCodes(cands, v);
      if k.Some? {
        parts := PhoneParts(cands[k.value].0, v[|cands[k.value].1.code|..]);
      } else {
        parts := PhoneParts(defaultCountry, LTrimPlus(v));
      }
    }

    /** reverseTransform($value): null for a non-array or an empty number;
        otherwise the country's calling code followed by the number's
        digits, or a failure for a country the table lacks. */
    function ReverseTransform(value: PhoneInput): (r: Reversed)
      ensures value.NotAnArray? ==> r == Phone(None)
      ensures value.PhoneArray? && value.number.GetOr("") == "" ==> r == Phone(None)
      ensures value.PhoneArray? && value.number.GetOr("") != "" ==>
        var code := GetCallingCode(value.countryCode.GetOr(""));
        r == if code.None? then InvalidCountry(value.countryCode.GetOr(""))
             else Phone(Some(code.value + DigitsOnly(value.number.GetOr(""))))
    {
      match value
      case NotAnArray => Phone(None)
      case PhoneArray(countryCode, number) =>
        var cc := countryCode.GetOr("");
        var n := number.GetOr("");
        if n == "" then Phone(None)
        else
          match GetCallingCode(cc)
          case None => InvalidCountry(cc)
          case Some(code) => Phone(Some(code + DigitsOnly(n)))
    }
  }

  // ---------------------------------------------------------------------
  // Round trip

  /** Two calling codes of the table that both begin one number are equal:
      the table's codes are free of proper prefixes. */
  lemma PrefixFree(a: string, b: string, v: string)
    requires WellFormedCode(a) && WellFormedCode(b)
    requires StartsWith(v, a) && StartsWith(v, b)
    ensures a == b
  {
    assert forall i :: 0 <= i < |a| && i < |b| ==> a[i] == v[i] == b[i];
    assert a[1] == b[1];
    if |a| >= 3 && |b| >= 3 {
      assert a[2] == b[2];
    }
    assert |a| == |b|;
    assert a == v[..|a|] == b;
  }

  lemma TableCodesWellFormed(e: (string, Country))
    requires e in DefaultCountries()
    ensures WellFormedCode(e.1.code) && IsCountryKey(e.0)
  {
    var i :| 0 <= i < |DefaultCountries()| && DefaultCountries()[i] == e;
    RowShape(i);
  }

  lemma CountriesFromTable(allowed: Option<seq<string>>, e: (string, Country))
    requires e in GetCountries(allowed)
    ensures e in DefaultCountries()
  {
  }

  /** For a value that begins with the code of an offered country, the
      candidate transform() picks is a table country with that same code. */
  lemma {:induction false} MatchHasSameCode(t: PhoneNumberTransformer, e: (string, Country), v: string)
    requires e in GetCountries(t.allowedCountries) && StartsWith(v, e.1.code)
    ensures FirstPrefixMatch(t.Candidates(), v).Some?
    ensures var c := t.Candidates()[FirstPrefixMatch(t.Candidates(), v).value];
      c in DefaultCountries() && c.1.code == e.1.code
  {
    var cands := t.Candidates();
    assert e in multiset(cands);
    var j :| 0 <= j < |cands| && cands[j] == e;
    var m := FirstPrefixMatch(cands, v);
    var c := cands[m.value];
    assert c in multiset(GetCountries(t.allowedCountries));
    CountriesFromTable(t.allowedCountries, c);
    CountriesFromTable(t.allowedCountries, e);
    TableCodesWellFormed(c);
    TableCodesWellFormed(e);
    PrefixFree(c.1.code, e.1.code, v);
  }

  /** Every country of the table is found again by its own key. */
  lemma CallingCodeOfEntry(e: (string, Country))
    requires e in DefaultCountries()
    ensures GetCallingCode(e.0) == Some(e.1.code)
  {
    var i :| 0 <= i < |DefaultCountries()| && DefaultCountries()[i] == e;
    TableCodesWellFormed(e);
    assert UpperStr(e.0) == e.0;
    CallingCodeAt(e.0, i);
  }

  /** transform() then reverseTransform() returns the number, when it is an
      offered country's calling code followed by a non-empty digit string. */
  lemma RoundTrip(t: PhoneNumberTransformer, j: nat, digits: string)
    requires j < |GetCountries(t.allowedCountries)|
    requires |digits| > 0 && forall i :: 0 <= i < |digits| ==> IsDigit(digits[i])
    ensures var e := GetCountries(t.allowedCountries)[j];
      var v := e.1.code + digits;
      var parts := t.Split(Some(v));
      && GetCallingCode(e.0) == Some(e.1.code)
      && parts.number == digits
      && GetCallingCode(parts.countryCode) == Some(e.1.code)
      && (exists c :: c in DefaultCountries() && c.0 == parts.countryCode && c.1.code == e.1.code)
      && t.ReverseTransform(PhoneArray(Some(parts.countryCode), Some(parts.number))) == Phone(Some(v))
  {
    var e := GetCountries(t.allowedCountries)[j];
    CountriesFromTable(t.allowedCountries, e);
    CallingCodeOfEntry(e);
    var c := SplitOffered(t, e, digits);
    CallingCodeOfEntry(c);
    ReverseOfKnownCountry(t, c.0, e.1.code, digits);
  }

  /** transform() of an offered country's code followed by digits yields a
      table country with that code, and the digits. */
  lemma SplitOffered(t: PhoneNumberTransformer, e: (string, Country), digits: string) returns (c: (string, Country))
    requires e in GetCountries(t.allowedCountries)
    ensures var parts := t.Split(Some(e.1.code + digits));
      && c in DefaultCountries() && c.1.code == e.1.code
      && parts == PhoneParts(c.0, digits)
  {
    var code := e.1.code;
    CountriesFromTable(t.allowedCountries, e);
    TableCodesWellFormed(e);
    ConcatSplits(code, digits);
    MatchHasSameCode(t, e, code + digits);
    var k := FirstPrefixMatch(t.Candidates(), code + digits).value;
    SplitOfCode(t, code, digits, k);
    c := t.Candidates()[k];
  }

  /** transform() of a code followed by digits, when the first matching
      candidate has a code of that length. */
  lemma SplitOfCode(t: PhoneNumberTransformer, code: string, digits: string, k: nat)
    requires FirstPrefixMatch(t.Candidates(), code + digits) == Some(k)
    requires k < |t.Candidates()| && |t.Candidates()[k].1.code| == |code| > 0
    ensures t.Split(Some(code + digits)) == PhoneParts(t.Candidates()[k].0, digits)
  {
    ConcatSplits(code, digits);
    SplitAtMatch(t, code + digits, k);
  }

  lemma ConcatSplits(code: string, digits: string)
    ensures StartsWith(code + digits, code) && (code + digits)[|code|..] == digits
  {
    assert (code + digits)[..|code|] == code;
  }

  lemma SplitAtMatch(t: PhoneNumberTransformer, v: string, k: nat)
    requires v != "" && FirstPrefixMatch(t.Candidates(), v) == Some(k)
    ensures k < |t.Candidates()|
    ensures t.Split(Some(v)) == PhoneParts(t.Candidates()[k].0, v[|t.Candidates()[k].1.code|..])
  {
  }

  /** reverseTransform() of a known country and a non-empty digit string:
      the country's calling code followed by the digits. */
  lemma ReverseOfKnownCountry(t: PhoneNumberTransformer, key: string, code: string, digits: string)
    requires GetCallingCode(key) == Some(code)
    requires |digits| > 0 && forall i :: 0 <= i < |digits| ==> IsDigit(digits[i])
    ensures t.ReverseTransform(PhoneArray(Some(key), Some(digits))) == Phone(Some(code + digits))
  {
  }

  /** The example of the transformer's documentation, with the default
      settings: "+36301234567" splits into HU and "301234567" and joins back. */
  lemma HungarianExample(t: PhoneNumberTransformer)
    requires t.allowedCountries.None?
    ensures t.Split(Some("+36301234567")) == PhoneParts("HU", "301234567")
    ensures t.ReverseTransform(PhoneArray(Some("HU"), Some("301234567"))) == Phone(Some("+36301234567"))
  {
    HungarianSplit(t);
    HungarianJoin(t);
  }

  lemma HungarianSplit(t: PhoneNumberTransformer)
    requires t.allowedCountries.None?
    ensures t.Split(Some("+36301234567")) == PhoneParts("HU", "301234567")
  {
    var digits := "301234567";
    var hu := DefaultCountries()[16];
    HungaryRow();
    assert hu in GetCountries(t.allowedCountries);
    assert hu.1.code + digits == "+36301234567";
    var c := SplitOffered(t, hu, digits);
    HungaryOnlyWith36(c);
  }

  lemma HungarianJoin(t: PhoneNumberTransformer)
    ensures t.ReverseTransform(PhoneArray(Some("HU"), Some("301234567"))) == Phone(Some("+36301234567"))
  {
    var digits := "301234567";
    assert forall i :: 0 <= i < |digits| ==> IsDigit(digits[i]);
    HungaryRow();
    CallingCodeAt("HU", 16);
    ReverseOfKnownCountry(t, "HU", "+36", digits);
    HungarianConcat();
  }

  lemma HungarianConcat()
    ensures "+36" + "301234567" == "+36301234567"
  {
  }

  lemma HungaryRow()
    ensures DefaultCountries()[16].0 == "HU" && DefaultCountries()[16].1.code == "+36"
    ensures UpperStr("HU") == "HU"
  {
  }
}
