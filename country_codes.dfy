/** The calling-code table of the telephone field: each country's code,
    its flag emoji and its English name, keyed by ISO country code. */
module CountryCodes {
  import opened Php

  datatype Country = Country(code: string, flag: string, name: string)

  /** The regional-indicator symbol of an upper-case ASCII letter. */
  function RegionalIndicator(c: char): (r: char)
    requires IsAsciiUpper(c)
    ensures r as int == 0x1F1E6 + (c as int - 'A' as int)
  {
    (0x1F1E6 + (c as int - 'A' as int)) as char
  }

  predicate IsCountryKey(key: string) {
    |key| == 2 && IsAsciiUpper(key[0]) && IsAsciiUpper(key[1])
  }

  /** A country's flag: the regional indicators of its two letters. */
  function Flag(key: string): (f: string)
    requires IsCountryKey(key)
    ensures |f| == 2
  {
    [RegionalIndicator(key[0]), RegionalIndicator(key[1])]
  }

  function Entry(key: string, code: string, name: string): (string, Country)
    requires IsCountryKey(key)
  {
    (key, Country(code, Flag(key), name))
  }

  /** Row i of getDefaultCountries(): key, calling code and name, in the
      table's order (alphabetical by key). */
  function Row(i: nat): (string, string, string)
    requires i < 39
  {
    if i == 0 then ("AT", "+43", "Austria")
    else if i == 1 then ("AU", "+61", "Australia")
    else if i == 2 then ("BE", "+32", "Belgium")
    else if i == 3 then ("BR", "+55", "Brazil")
    else if i == 4 then ("CA", "+1", "Canada")
    else if i == 5 then ("CH", "+41", "Switzerland")
    else if i == 6 then ("CN", "+86", "China")
    else if i == 7 then ("CZ", "+420", "Czech Republic")
    else if i == 8 then ("DE", "+49", "Germany")
    else if i == 9 then ("DK", "+45", "Denmark")
    else if i == 10 then ("ES", "+34", "Spain")
    else if i == 11 then ("FI", "+358", "Finland")
    else if i == 12 then ("FR", "+33", "France")
    else if i == 13 then ("GB", "+44", "United Kingdom")
    else if i == 14 then ("GR", "+30", "Greece")
    else if i == 15 then ("HR", "+385", "Croatia")
    else if i == 16 then ("HU", "+36", "Hungary")
    else if i == 17 then ("IE", "+353", "Ireland")
    else if i == 18 then ("IL", "+972", "Israel")
    else if i == 19 then ("IN", "+91", "India")
    else if i == 20 then ("IT", "+39", "Italy")
    else if i == 21 then ("JP", "+81", "Japan")
    else if i == 22 then ("KR", "+82", "South Korea")
    else if i == 23 then ("MX", "+52", "Mexico")
    else if i == 24 then ("NL", "+31", "Netherlands")
    else if i == 25 then ("NO", "+47", "Norway")
    else if i == 26 then ("NZ", "+64", "New Zealand")
    else if i == 27 then ("PL", "+48", "Poland")
    else if i == 28 then ("PT", "+351", "Portugal")
    else if i == 29 then ("RO", "+40", "Romania")
    else if i == 30 then ("RS", "+381", "Serbia")
    else if i == 31 then ("RU", "+7", "Russia")
    else if i == 32 then ("SE", "+46", "Sweden")
    else if i == 33 then ("SI", "+386", "Slovenia")
    else if i == 34 then ("SK", "+421", "Slovakia")
    else if i == 35 then ("TR", "+90", "Turkey")
    else if i == 36 then ("UA", "+380", "Ukraine")
    else if i == 37 then ("US", "+1", "United States")
    else ("ZA", "+27", "South Africa")
  }

  /** getDefaultCountries(): each row with the flag of its key. */
  function DefaultCountries(): (t: seq<(string, Country)>)
    ensures |t| == 39
  {
    assert forall i :: 0 <= i < 39 ==> IsCountryKey(Row(i).0) by {
      forall i | 0 <= i < 39 ensures IsCountryKey(Row(i).0) {
        RowShape(i);
      }
    }
    seq(39, i requires 0 <= i < 39 => Entry(Row(i).0, Row(i).1, Row(i).2))
  }

  /** Every row has a two-letter key and a well-formed calling code. */
  lemma RowShape(i: nat)
    requires i < 39
    ensures IsCountryKey(Row(i).0) && WellFormedCode(Row(i).1)
  {
    if i < 10 {
      RowShape0(i);
    } else if i < 20 {
      RowShape1(i);
    } else if i < 30 {
      RowShape2(i);
    } else {
      RowShape3(i);
    }
  }

  lemma RowShape0(i: nat)
    requires 0 <= i < 10
    ensures IsCountryKey(Row(i).0) && WellFormedCode(Row(i).1)
  {
    if i == 0 {
    } else if i == 1 {
    } else if i == 2 {
    } else if i == 3 {
    } else if i == 4 {
    } else if i == 5 {
    } else if i == 6 {
    } else if i == 7 {
    } else if i == 8 {
    }
  }

  lemma RowShape1(i: nat)
    requires 10 <= i < 20
    ensures IsCountryKey(Row(i).0) && WellFormedCode(Row(i).1)
  {
    if i == 10 {
    } else if i == 11 {
    } else if i == 12 {
    } else if i == 13 {
    } else if i == 14 {
    } else if i == 15 {
    } else if i == 16 {
    } else if i == 17 {
    } else if i == 18 {
    }
  }

  lemma RowShape2(i: nat)
    requires 20 <= i < 30
    ensures IsCountryKey(Row(i).0) && WellFormedCode(Row(i).1)
  {
    if i == 20 {
    } else if i == 21 {
    } else if i == 22 {
    } else if i == 23 {
    } else if i == 24 {
    } else if i == 25 {
    } else if i == 26 {
    } else if i == 27 {
    } else if i == 28 {
    }
  }

  lemma RowShape3(i: nat)
    requires 30 <= i < 39
    ensures IsCountryKey(Row(i).0) && WellFormedCode(Row(i).1)
  {
    if i == 30 {
    } else if i == 31 {
    } else if i == 32 {
    } else if i == 33 {
    } else if i == 34 {
    } else if i == 35 {
    } else if i == 36 {
    } else if i == 37 {
    }
  }

  // ---------------------------------------------------------------------
  // The shape of the table

  /** Alphabetical rank of a two-letter key. */
  function Rank(key: string): int
    requires |key| == 2
  {
    key[0] as int * 256 + key[1] as int
  }

  /** Whether two digits begin one of the four-character codes. */
  predicate LongStem(c1: char, c2: char) {
    (c1 == '4' && c2 == '2') || (c1 == '3' && c2 == '5') || (c1 == '3' && c2 == '8') || (c1 == '9' && c2 == '7')
  }

  /** A calling code of the table: '+' and one to three digits, where the
      first digit alone decides a one-digit code and the first two digits
      decide a three-digit one. */
  predicate WellFormedCode(code: string) {
    && 2 <= |code| <= 4 && code[0] == '+'
    && (forall i :: 1 <= i < |code| ==> IsDigit(code[i]))
    && ((|code| == 2) <==> (code[1] == '1' || code[1] == '7'))
    && (|code| >= 3 ==> ((|code| == 4) <==> LongStem(code[1], code[2])))
  }

  /** The keys ascend strictly through the table. */
  lemma KeysAscend(i: nat)
    requires i < 38
    ensures Rank(Row(i).0) < Rank(Row(i + 1).0)
  {
    if i < 10 {
      KeysAscend0(i);
    } else if i < 20 {
      KeysAscend1(i);
    } else if i < 30 {
      KeysAscend2(i);
    } else {
      KeysAscend3(i);
    }
  }

  lemma KeysAscend0(i: nat)
    requires 0 <= i < 10
    ensures Rank(Row(i).0) < Rank(Row(i + 1).0)
  {
    if i == 0 {
    } else if i == 1 {
    } else if i == 2 {
    } else if i == 3 {
    } else if i == 4 {
    } else if i == 5 {
    } else if i == 6 {
    } else if i == 7 {
    } else if i == 8 {
    }
  }

  lemma KeysAscend1(i: nat)
    requires 10 <= i < 20
    ensures Rank(Row(i).0) < Rank(Row(i + 1).0)
  {
    if i == 10 {
    } else if i == 11 {
    } else if i == 12 {
    } else if i == 13 {
    } else if i == 14 {
    } else if i == 15 {
    } else if i == 16 {
    } else if i == 17 {
    } else if i == 18 {
    }
  }

  lemma KeysAscend2(i: nat)
    requires 20 <= i < 30
    ensures Rank(Row(i).0) < Rank(Row(i + 1).0)
  {
    if i == 20 {
    } else if i == 21 {
    } else if i == 22 {
    } else if i == 23 {
    } else if i == 24 {
    } else if i == 25 {
    } else if i == 26 {
    } else if i == 27 {
    } else if i == 28 {
    }
  }

  lemma KeysAscend3(i: nat)
    requires 30 <= i < 38
    ensures Rank(Row(i).0) < Rank(Row(i + 1).0)
  {
    if i == 30 {
    } else if i == 31 {
    } else if i == 32 {
    } else if i == 33 {
    } else if i == 34 {
    } else if i == 35 {
    } else if i == 36 {
    }
  }

  lemma {:induction false} KeysIncrease(i: nat, j: nat)
    requires i < j < 39
    ensures Rank(Row(i).0) < Rank(Row(j).0)
    decreases j - i
  {
    KeysAscend(j - 1);
    if i < j - 1 {
      KeysIncrease(i, j - 1);
    }
  }

  /** Country keys in strictly ascending alphabetical order. */
  ghost predicate SortedByKey(cs: seq<(string, Country)>) {
    && (forall i :: 0 <= i < |cs| ==> IsCountryKey(cs[i].0) && cs[i].1.flag == Flag(cs[i].0))
    && (forall i, j :: 0 <= i < j < |cs| ==> Rank(cs[i].0) < Rank(cs[j].0))
  }

  lemma TableSorted()
    ensures SortedByKey(DefaultCountries())
  {
    var t := DefaultCountries();
    forall i | 0 <= i < |t| ensures IsCountryKey(t[i].0) && t[i].1.flag == Flag(t[i].0) {
      RowShape(i);
    }
    forall i, j | 0 <= i < j < |t| ensures Rank(t[i].0) < Rank(t[j].0) {
      KeysIncrease(i, j);
    }
  }

  lemma SortedKeysUnique(cs: seq<(string, Country)>)
    requires SortedByKey(cs)
    ensures UniqueKeys(cs)
  {
    forall i, j | 0 <= i < j < |cs| ensures cs[i].0 != cs[j].0 {
      assert Rank(cs[i].0) < Rank(cs[j].0);
    }
  }

  // ---------------------------------------------------------------------
  // Lookups

  /** getCallingCode(): the code of the upper-cased key, null when the
      table has no such country. */
  function GetCallingCode(countryCode: string): (r: Option<string>)
    ensures r.Some? <==> HasKey(DefaultCountries(), UpperStr(countryCode))
    ensures forall i :: 0 <= i < |DefaultCountries()| && DefaultCountries()[i].0 == UpperStr(countryCode) ==>
      r == Some(DefaultCountries()[i].1.code)
  {
    var t := DefaultCountries();
    var entry := Lookup(t, UpperStr(countryCode));
    TableSorted();
    LookupSorted(t, UpperStr(countryCode));
    if entry.Some? then Some(entry.value.code) else None
  }

  /** In a sorted table a key's lookup finds the one entry with that key. */
  lemma LookupSorted(t: seq<(string, Country)>, k: string)
    requires SortedByKey(t)
    ensures forall i :: 0 <= i < |t| && t[i].0 == k ==> Lookup(t, k) == Some(t[i].1)
  {
    SortedKeysUnique(t);
  }

  lemma CallingCodeAt(countryCode: string, i: nat)
    requires i < 39 && DefaultCountries()[i].0 == UpperStr(countryCode)
    ensures GetCallingCode(countryCode) == Some(DefaultCountries()[i].1.code)
  {
  }

  lemma HungaryCallingCode()
    ensures GetCallingCode("hu") == Some("+36")
  {
    assert UpperStr("hu") == "HU";
    assert DefaultCountries()[16].0 == "HU" && DefaultCountries()[16].1.code == "+36";
    CallingCodeAt("hu", 16);
  }

  /** Canada and the United States share +1. */
  lemma SharedCodes()
    ensures GetCallingCode("CA") == GetCallingCode("us") == Some("+1")
  {
    assert UpperStr("CA") == "CA" && DefaultCountries()[4].0 == "CA" && DefaultCountries()[4].1.code == "+1";
    assert UpperStr("us") == "US" && DefaultCountries()[37].0 == "US" && DefaultCountries()[37].1.code == "+1";
    CallingCodeAt("CA", 4);
    CallingCodeAt("us", 37);
  }

  /** getCountries(): the table entries whose key is in the allowed list,
      in table order. */
  function FilterAllowed(cs: seq<(string, Country)>, allowed: seq<string>): (r: seq<(string, Country)>)
    ensures forall e :: e in r <==> e in cs && e.0 in allowed
    ensures SortedByKey(cs) ==> SortedByKey(r)
  {
    if |cs| == 0 then []
    else
      var rest := FilterAllowed(cs[1..], allowed);
      MemberCons(cs);
      if cs[0].0 in allowed then
        assert SortedByKey(cs) ==> SortedByKey([cs[0]] + rest) by {
          if SortedByKey(cs) {
            SortedTail(cs);
            SortedCons(cs[0], rest);
          }
        }
        [cs[0]] + rest
      else
        assert SortedByKey(cs) ==> SortedByKey(rest) by {
          if SortedByKey(cs) {
            SortedTail(cs);
          }
        }
        rest
  }

  lemma MemberCons<T>(cs: seq<T>)
    requires |cs| > 0
    ensures forall e :: e in cs <==> e == cs[0] || e in cs[1..]
  {
    assert cs == [cs[0]] + cs[1..];
  }

  /** The tail of a sorted table is sorted, and its keys follow the head's. */
  lemma SortedTail(cs: seq<(string, Country)>)
    requires SortedByKey(cs) && |cs| > 0
    ensures SortedByKey(cs[1..])
    ensures forall e :: e in cs[1..] ==> Rank(cs[0].0) < Rank(e.0)
  {
    var tail := cs[1..];
    forall i, j | 0 <= i < j < |tail| ensures Rank(tail[i].0) < Rank(tail[j].0) {
      assert tail[i] == cs[i + 1] && tail[j] == cs[j + 1];
    }
    forall e | e in tail ensures Rank(cs[0].0) < Rank(e.0) {
      var k :| 0 <= k < |tail| && tail[k] == e;
      assert cs[k + 1] == e;
    }
  }

  /** A country below every key of a sorted table extends it. */
  lemma SortedCons(c: (string, Country), rest: seq<(string, Country)>)
    requires IsCountryKey(c.0) && c.1.flag == Flag(c.0)
    requires SortedByKey(rest) && forall e :: e in rest ==> Rank(c.0) < Rank(e.0)
    ensures SortedByKey([c] + rest)
  {
    var r := [c] + rest;
    forall i, j | 0 <= i < j < |r| ensures Rank(r[i].0) < Rank(r[j].0) {
      assert r[j] == rest[j - 1];
      if i > 0 {
        assert r[i] == rest[i - 1];
      } else {
        assert r[j] in rest;
      }
    }
  }

  /** getCountries($allowed): the whole table unless a non-empty list of
      allowed keys is given. */
  function GetCountries(allowed: Option<seq<string>>): (r: seq<(string, Country)>)
    ensures allowed.None? || |allowed.value| == 0 ==> r == DefaultCountries()
    ensures allowed.Some? && |allowed.value| > 0 ==>
      forall e :: e in r <==> e in DefaultCountries() && e.0 in allowed.value
    ensures SortedByKey(r)
  {
    TableSorted();
    if allowed.Some? && |allowed.value| > 0 then FilterAllowed(DefaultCountries(), allowed.value)
    else DefaultCountries()
  }

  /** The choice label: '<flag> <name> (<code>)'. */
  function Label(c: Country): string {
    c.flag + " " + c.name + " (" + c.code + ")"
  }

  lemma FlagsDistinct(k1: string, k2: string)
    requires IsCountryKey(k1) && IsCountryKey(k2) && k1 != k2
    ensures Flag(k1) != Flag(k2)
  {
    if k1[0] != k2[0] {
      assert Flag(k1)[0] != Flag(k2)[0];
    } else {
      assert k1 == [k1[0], k1[1]] && k2 == [k2[0], k2[1]];
      assert Flag(k1)[1] != Flag(k2)[1];
    }
  }

  lemma LabelsDistinct(cs: seq<(string, Country)>, i: nat, j: nat)
    requires SortedByKey(cs) && i < j < |cs|
    ensures Label(cs[i].1) != Label(cs[j].1)
  {
    assert cs[i].0 != cs[j].0 by {
      assert Rank(cs[i].0) < Rank(cs[j].0);
    }
    FlagsDistinct(cs[i].0, cs[j].0);
    assert Label(cs[i].1)[..2] == cs[i].1.flag;
    assert Label(cs[j].1)[..2] == cs[j].1.flag;
  }

  /** getChoices($allowed): one choice per country, label to key, in
      table order; no two labels collide. */
  method GetChoices(allowed: Option<seq<string>>) returns (choices: seq<(string, string)>)
    ensures var cs := GetCountries(allowed);
      |choices| == |cs| && forall i :: 0 <= i < |cs| ==> choices[i] == (Label(cs[i].1), cs[i].0)
  {
    var cs := GetCountries(allowed);
    choices := ChoicesOf(cs);
  }

  /** The loop of getChoices() over sorted countries: each label is new when
      it is added. */
  method ChoicesOf(cs: seq<(string, Country)>) returns (choices: seq<(string, string)>)
    requires SortedByKey(cs)
    ensures |choices| == |cs| && forall i :: 0 <= i < |cs| ==> choices[i] == (Label(cs[i].1), cs[i].0)
  {
    choices := [];
    var i := 0;
    while i < |cs|
      invariant 0 <= i <= |cs|
      invariant |choices| == i && forall k :: 0 <= k < i ==> choices[k] == (Label(cs[k].1), cs[k].0)
    {
      var caption := Label(cs[i].1);
      LabelNew(cs, choices, i);
      choices := Put(choices, caption, cs[i].0);
      i := i + 1;
    }
  }

  lemma LabelNew(cs: seq<(string, Country)>, choices: seq<(string, string)>, i: nat)
    requires SortedByKey(cs) && i < |cs|
    requires |choices| == i && forall k :: 0 <= k < i ==> choices[k] == (Label(cs[k].1), cs[k].0)
    ensures !HasKey(choices, Label(cs[i].1))
  {
    forall k | 0 <= k < i ensures choices[k].0 != Label(cs[i].1) {
      LabelsDistinct(cs, k, i);
    }
  }

  lemma HungaryOnlyWith36(c: (string, Country))
    requires c in DefaultCountries() && c.1.code == "+36"
    ensures c.0 == "HU"
  {
    var i :| 0 <= i < |DefaultCountries()| && DefaultCountries()[i] == c;
    OnlyHungaryDials36(i);
  }

  lemma OnlyHungaryDials36(i: nat)
    requires i < 39 && DefaultCountries()[i].1.code == "+36"
    ensures i == 16 && DefaultCountries()[i].0 == "HU"
  {
    if i < 5 {
    } else if i < 10 {
    } else if i < 15 {
    } else if i < 20 {
    } else if i < 25 {
    } else if i < 30 {
    } else if i < 35 {
    }
  }
}
