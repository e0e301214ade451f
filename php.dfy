/** PHP value semantics the bundle relies on: loosely typed values, empty(),
    the null-coalescing operator, ordered associative arrays, ASCII case
    mapping, string conversion of integers and bin2hex. */
module Php {

  datatype Option<T> = None | Some(value: T) {
    function GetOr(default: T): T {
      match this
      case Some(v) => v
      case None => default
    }
  }

  /** A PHP value as it can appear in submitted form data or configuration.
      Arrays are ordered maps with string keys. */
  datatype Value =
    | VNull
    | VBool(b: bool)
    | VInt(i: int)
    | VStr(s: string)
    | VArr(entries: seq<(string, Value)>)

  /** PHP empty(): null, false, 0, '', '0' and [] are empty. */
  predicate Empty(v: Value) {
    match v
    case VNull => true
    case VBool(b) => !b
    case VInt(i) => i == 0
    case VStr(s) => s == "" || s == "0"
    case VArr(e) => |e| == 0
  }

  /** PHP truthiness (`if ($v)`, `!$v`, `?:`), the negation of empty(). */
  predicate Truthy(v: Value) {
    !Empty(v)
  }

  lemma EmptyExactly(v: Value)
    ensures Empty(v) <==> v in {VNull, VBool(false), VInt(0), VStr(""), VStr("0"), VArr([])}
  {
  }

  // ---------------------------------------------------------------------
  // Ordered associative arrays

  /** A form's children in order, each with its submitted data. */
  type Fields = seq<(string, Value)>

  predicate HasKey<T>(e: seq<(string, T)>, k: string) {
    exists i :: 0 <= i < |e| && e[i].0 == k
  }

  /** `$a[$k]` read: the value stored under k, if any. */
  function Lookup<T>(e: seq<(string, T)>, k: string): (r: Option<T>)
    ensures r.Some? <==> HasKey(e, k)
    ensures r.Some? ==> exists i :: 0 <= i < |e| && e[i] == (k, r.value)
  {
    if |e| == 0 then None
    else if e[0].0 == k then Some(e[0].1)
    else
      var r := Lookup(e[1..], k);
      assert r.Some? ==> exists i :: 0 <= i < |e[1..]| && e[1..][i] == (k, r.value);
      assert HasKey(e[1..], k) ==> HasKey(e, k) by {
        if HasKey(e[1..], k) {
          var i :| 0 <= i < |e[1..]| && e[1..][i].0 == k;
          assert e[i + 1].0 == k;
        }
      }
      assert HasKey(e, k) ==> HasKey(e[1..], k) by {
        if HasKey(e, k) {
          var i :| 0 <= i < |e| && e[i].0 == k;
          assert i > 0 && e[1..][i - 1].0 == k;
        }
      }
      r
  }

  function Keys<T>(e: seq<(string, T)>): (ks: seq<string>)
    ensures |ks| == |e| && forall i :: 0 <= i < |e| ==> ks[i] == e[i].0
  {
    if |e| == 0 then [] else [e[0].0] + Keys(e[1..])
  }

  ghost predicate UniqueKeys<T>(e: seq<(string, T)>) {
    forall i, j :: 0 <= i < j < |e| ==> e[i].0 != e[j].0
  }

  /** `$a[$k] = $v`: overwrite in place when k is present, append otherwise. */
  function Put<T>(e: seq<(string, T)>, k: string, v: T): (r: seq<(string, T)>)
    ensures HasKey(e, k) ==> |r| == |e|
    ensures !HasKey(e, k) ==> r == e + [(k, v)]
    ensures forall i :: 0 <= i < |e| ==> r[i].0 == e[i].0
    ensures forall i :: 0 <= i < |e| && e[i].0 != k ==> r[i] == e[i]
    ensures Lookup(r, k) == Some(v)
    ensures forall k' {:trigger Lookup(r, k')} :: k' != k ==> Lookup(r, k') == Lookup(e, k')
  {
    if |e| == 0 then [(k, v)]
    else if e[0].0 == k then [(k, v)] + e[1..]
    else
      var tail := Put(e[1..], k, v);
      PutCons(e, k, v, tail);
      [e[0]] + tail
  }

  /** A write keeps the keys already present, in place. */
  lemma PutKeysPrefix<T>(e: seq<(string, T)>, k: string, v: T)
    ensures |Put(e, k, v)| >= |e| && Keys(Put(e, k, v))[..|e|] == Keys(e)
  {
    var r := Put(e, k, v);
    var kr, ke := Keys(r), Keys(e);
    forall i | 0 <= i < |e| ensures kr[i] == ke[i] {
      assert kr[i] == r[i].0 && ke[i] == e[i].0;
    }
    assert kr[..|e|] == ke;
  }

  lemma HasKeyCons<T>(e: seq<(string, T)>, k: string)
    requires |e| > 0
    ensures HasKey(e, k) <==> (e[0].0 == k || HasKey(e[1..], k))
  {
    if HasKey(e, k) && e[0].0 != k {
      var i :| 0 <= i < |e| && e[i].0 == k;
      assert e[1..][i - 1].0 == k;
    }
    if HasKey(e[1..], k) {
      var i :| 0 <= i < |e[1..]| && e[1..][i].0 == k;
      assert e[i + 1].0 == k;
    }
  }

  /** Put's recursive case: a write past the head keeps the head. */
  lemma PutCons<T>(e: seq<(string, T)>, k: string, v: T, tail: seq<(string, T)>)
    requires |e| > 0 && e[0].0 != k
    requires HasKey(e[1..], k) ==> |tail| == |e[1..]|
    requires !HasKey(e[1..], k) ==> tail == e[1..] + [(k, v)]
    requires forall i :: 0 <= i < |e[1..]| ==> tail[i].0 == e[1..][i].0
    requires forall i :: 0 <= i < |e[1..]| && e[1..][i].0 != k ==> tail[i] == e[1..][i]
    requires Lookup(tail, k) == Some(v)
    requires forall k' :: k' != k ==> Lookup(tail, k') == Lookup(e[1..], k')
    ensures HasKey(e, k) ==> |[e[0]] + tail| == |e|
    ensures !HasKey(e, k) ==> [e[0]] + tail == e + [(k, v)]
    ensures forall i :: 0 <= i < |e| ==> ([e[0]] + tail)[i].0 == e[i].0
    ensures forall i :: 0 <= i < |e| && e[i].0 != k ==> ([e[0]] + tail)[i] == e[i]
    ensures Lookup([e[0]] + tail, k) == Some(v)
    ensures forall k' :: k' != k ==> Lookup([e[0]] + tail, k') == Lookup(e, k')
  {
    var r := [e[0]] + tail;
    HasKeyCons(e, k);
    assert r[1..] == tail;
    if !HasKey(e, k) {
      assert e == [e[0]] + e[1..];
    }
    forall i | 0 <= i < |e|
      ensures r[i].0 == e[i].0
      ensures e[i].0 != k ==> r[i] == e[i]
    {
      if i > 0 {
        assert r[i] == tail[i - 1] && e[i] == e[1..][i - 1];
      }
    }
  }

  lemma {:induction false} PutKeepsUnique<T>(e: seq<(string, T)>, k: string, v: T)
    requires UniqueKeys(e)
    ensures UniqueKeys(Put(e, k, v))
  {
    var r := Put(e, k, v);
    if !HasKey(e, k) {
      forall i, j | 0 <= i < j < |r| ensures r[i].0 != r[j].0 {
        if j == |e| {
          assert r[i].0 == e[i].0;
        }
      }
    }
  }

  /** A sequence of `$a[$k] = $v` writes, in order. */
  function PutAll<T>(e: seq<(string, T)>, kvs: seq<(string, T)>): seq<(string, T)>
    decreases |kvs|
  {
    if |kvs| == 0 then e
    else Put(PutAll(e, kvs[..|kvs| - 1]), kvs[|kvs| - 1].0, kvs[|kvs| - 1].1)
  }

  /** A sequence of optional writes `$a[$k] = $v`, in order; None writes nothing. */
  function PutSome<T>(e: seq<(string, T)>, ws: seq<Option<(string, T)>>): seq<(string, T)>
    decreases |ws|
  {
    if |ws| == 0 then e
    else
      var r := PutSome(e, ws[..|ws| - 1]);
      match ws[|ws| - 1]
      case Some(kv) => Put(r, kv.0, kv.1)
      case None => r
  }

  predicate WritesAt<T>(ws: seq<Option<(string, T)>>, i: int, k: string) {
    0 <= i < |ws| && ws[i].Some? && ws[i].value.0 == k
  }

  /** Write i is the last one to key k. */
  predicate LastWrite<T>(ws: seq<Option<(string, T)>>, i: int, k: string) {
    WritesAt(ws, i, k) && forall j :: i < j < |ws| ==> !WritesAt(ws, j, k)
  }

  lemma PutSomeStep<T>(e: seq<(string, T)>, ws: seq<Option<(string, T)>>, k: string)
    requires |ws| > 0
    ensures Lookup(PutSome(e, ws), k) ==
      if WritesAt(ws, |ws| - 1, k) then Some(ws[|ws| - 1].value.1) else Lookup(PutSome(e, ws[..|ws| - 1]), k)
  {
  }

  /** The last write to k decides its value. */
  lemma {:induction false} PutSomeLastWins<T>(e: seq<(string, T)>, ws: seq<Option<(string, T)>>, k: string, i: int)
    requires LastWrite(ws, i, k)
    ensures Lookup(PutSome(e, ws), k) == Some(ws[i].value.1)
    decreases |ws|
  {
    PutSomeStep(e, ws, k);
    if i < |ws| - 1 {
      LastWriteBeforeEnd(ws, i, k);
      PutSomeLastWins(e, ws[..|ws| - 1], k, i);
    }
  }

  lemma LastWriteBeforeEnd<T>(ws: seq<Option<(string, T)>>, i: int, k: string)
    requires LastWrite(ws, i, k) && i < |ws| - 1
    ensures !WritesAt(ws, |ws| - 1, k) && LastWrite(ws[..|ws| - 1], i, k)
  {
    var init := ws[..|ws| - 1];
    forall j | i < j < |init| ensures !WritesAt(init, j, k) {
      assert init[j] == ws[j];
      assert !WritesAt(ws, j, k);
    }
    assert init[i] == ws[i];
  }

  /** Without a write to k, k reads as before. */
  lemma {:induction false} PutSomeUnwritten<T>(e: seq<(string, T)>, ws: seq<Option<(string, T)>>, k: string)
    requires forall i :: !WritesAt(ws, i, k)
    ensures Lookup(PutSome(e, ws), k) == Lookup(e, k)
    decreases |ws|
  {
    if |ws| > 0 {
      var init := ws[..|ws| - 1];
      PutSomeStep(e, ws, k);
      forall i ensures !WritesAt(init, i, k) {
        if 0 <= i < |init| {
          assert init[i] == ws[i];
          assert !WritesAt(ws, i, k);
        }
      }
      PutSomeUnwritten(e, init, k);
    }
  }

  /** Every write to k is followed by a last one. */
  lemma {:induction false} LastWriteExists<T>(ws: seq<Option<(string, T)>>, i: int, k: string)
    requires WritesAt(ws, i, k)
    ensures exists j :: LastWrite(ws, j, k)
    decreases |ws| - i
  {
    if !LastWrite(ws, i, k) {
      var j :| i < j < |ws| && WritesAt(ws, j, k);
      LastWriteExists(ws, j, k);
    }
  }

  /** After the writes, k is present iff it was or some write wrote it; the
      last write to k decides its value, and without one it is unchanged. */
  lemma PutSomeLookup<T>(e: seq<(string, T)>, ws: seq<Option<(string, T)>>, k: string)
    ensures HasKey(PutSome(e, ws), k) <==> HasKey(e, k) || exists i :: WritesAt(ws, i, k)
    ensures (exists i :: WritesAt(ws, i, k)) ==> exists i :: LastWrite(ws, i, k)
    ensures forall i :: LastWrite(ws, i, k) ==> Lookup(PutSome(e, ws), k) == Some(ws[i].value.1)
    ensures (forall i :: !WritesAt(ws, i, k)) ==> Lookup(PutSome(e, ws), k) == Lookup(e, k)
  {
    forall i | LastWrite(ws, i, k) ensures Lookup(PutSome(e, ws), k) == Some(ws[i].value.1) {
      PutSomeLastWins(e, ws, k, i);
    }
    if exists i :: WritesAt(ws, i, k) {
      var i :| WritesAt(ws, i, k);
      LastWriteExists(ws, i, k);
    } else {
      PutSomeUnwritten(e, ws, k);
    }
  }

  /** Writing distinct new keys into an empty array appends them in order. */
  lemma {:induction false} PutAllFresh<T>(kvs: seq<(string, T)>)
    requires UniqueKeys(kvs)
    ensures PutAll([], kvs) == kvs
    decreases |kvs|
  {
    if |kvs| > 0 {
      var n := |kvs| - 1;
      var init := kvs[..n];
      assert UniqueKeys(init);
      PutAllFresh(init);
      forall i | 0 <= i < n
        ensures init[i].0 != kvs[n].0
      {
        assert init[i] == kvs[i];
      }
      assert kvs == init + [kvs[n]];
    }
  }

  /** Writing to a key the array does not hold appends the entry. */
  lemma PutFreshAppends<T>(e: seq<(string, T)>, k: string, v: T)
    requires forall i :: 0 <= i < |e| ==> e[i].0 != k
    ensures Put(e, k, v) == e + [(k, v)]
  {
  }

  /** Writing two distinct keys the array does not hold appends both, in order. */
  lemma PutTwoFreshAppends<T>(e: seq<(string, T)>, k1: string, v1: T, k2: string, v2: T)
    requires forall i :: 0 <= i < |e| ==> e[i].0 != k1 && e[i].0 != k2
    requires k1 != k2
    ensures Put(Put(e, k1, v1), k2, v2) == e + [(k1, v1)] + [(k2, v2)]
  {
    var e1 := e + [(k1, v1)];
    PutFreshAppends(e, k1, v1);
    assert forall i :: 0 <= i < |e1| ==> e1[i].0 != k2;
    PutFreshAppends(e1, k2, v2);
  }

  /** In an array with unique keys, reading the key of entry i gives entry i's value. */
  lemma LookupUnique<T>(e: seq<(string, T)>, i: nat)
    requires UniqueKeys(e) && i < |e|
    ensures Lookup(e, e[i].0) == Some(e[i].1)
  {
    assert HasKey(e, e[i].0);
  }

  /** `$a[$k]` read as a value: null when the key is missing. */
  function Get(e: seq<(string, Value)>, k: string): (v: Value)
    ensures !HasKey(e, k) ==> v == VNull
    ensures HasKey(e, k) ==> Lookup(e, k) == Some(v)
  {
    Lookup(e, k).GetOr(VNull)
  }

  /** `$a[$k] ?? $default`: a present, non-null value, else the default. */
  function Coalesce(o: Option<Value>, default: Value): (r: Value)
    ensures r == default || (o.Some? && r == o.value && o.value != VNull)
    ensures o.Some? && o.value != VNull ==> r == o.value
  {
    match o
    case Some(v) => if v != VNull then v else default
    case None => default
  }

  // ---------------------------------------------------------------------
  // Characters and strings (PHP's case functions are ASCII-only)

  predicate IsDigit(c: char) { '0' <= c <= '9' }

  predicate IsAsciiUpper(c: char) { 'A' <= c <= 'Z' }

  predicate IsAsciiLower(c: char) { 'a' <= c <= 'z' }

  function Upper(c: char): (r: char)
    ensures IsAsciiLower(c) ==> IsAsciiUpper(r) && r as int == c as int - 32
    ensures !IsAsciiLower(c) ==> r == c
  {
    if IsAsciiLower(c) then (c as int - 32) as char else c
  }

  function Lower(c: char): (r: char)
    ensures IsAsciiUpper(c) ==> IsAsciiLower(r) && r as int == c as int + 32
    ensures !IsAsciiUpper(c) ==> r == c
  {
    if IsAsciiUpper(c) then (c as int + 32) as char else c
  }

  /** strtolower */
  function LowerStr(s: string): (r: string)
    ensures |r| == |s| && forall i :: 0 <= i < |s| ==> r[i] == Lower(s[i])
  {
    if |s| == 0 then "" else [Lower(s[0])] + LowerStr(s[1..])
  }

  lemma LowerConcat(a: string, b: string)
    ensures LowerStr(a + b) == LowerStr(a) + LowerStr(b)
  {
    var l, r := LowerStr(a + b), LowerStr(a) + LowerStr(b);
    assert |l| == |r|;
    forall i | 0 <= i < |l| ensures l[i] == r[i] {
      if i < |a| {
        assert (a + b)[i] == a[i];
      } else {
        assert (a + b)[i] == b[i - |a|];
      }
    }
  }

  /** strtoupper */
  function UpperStr(s: string): (r: string)
    ensures |r| == |s| && forall i :: 0 <= i < |s| ==> r[i] == Upper(s[i])
  {
    if |s| == 0 then "" else [Upper(s[0])] + UpperStr(s[1..])
  }

  predicate StartsWith(s: string, prefix: string) {
    |prefix| <= |s| && s[..|prefix|] == prefix
  }

  predicate EndsWith(s: string, suffix: string) {
    |suffix| <= |s| && s[|s| - |suffix|..] == suffix
  }

  // ---------------------------------------------------------------------
  // Decimal integers

  function DigitChar(d: nat): (c: char)
    requires d < 10
    ensures IsDigit(c) && c as int - '0' as int == d
  {
    ('0' as int + d) as char
  }

  /** Decimal digits of a natural number, no leading zeros. */
  function NatToDecimal(n: nat): (s: string)
    ensures |s| >= 1 && forall i :: 0 <= i < |s| ==> IsDigit(s[i])
    ensures n > 0 ==> s[0] != '0'
    ensures n == 0 ==> s == "0"
    decreases n
  {
    if n < 10 then [DigitChar(n)] else NatToDecimal(n / 10) + [DigitChar(n % 10)]
  }

  /** PHP's string conversion of an int: `(string) $i`. */
  function IntToDecimal(i: int): (s: string)
    ensures |s| >= 1
  {
    if i < 0 then "-" + NatToDecimal(-i) else NatToDecimal(i)
  }

  lemma NonZeroDecimalIsTruthy(i: int)
    requires i != 0
    ensures Truthy(VStr(IntToDecimal(i)))
  {
    if i > 0 {
      assert IntToDecimal(i)[0] != '0';
    }
  }

  /** Value of a string of decimal digits. */
  function DigitsValue(s: string): (n: nat)
    requires forall i :: 0 <= i < |s| ==> IsDigit(s[i])
    decreases |s|
  {
    if |s| == 0 then 0
    else
      assert IsDigit(s[|s| - 1]);
      DigitsValue(s[..|s| - 1]) * 10 + (s[|s| - 1] as int - '0' as int)
  }

  lemma {:induction false} DigitsValueOfDecimal(n: nat)
    ensures DigitsValue(NatToDecimal(n)) == n
    decreases n
  {
    if n >= 10 {
      var s := NatToDecimal(n);
      DigitsValueOfDecimal(n / 10);
      assert s[..|s| - 1] == NatToDecimal(n / 10);
    }
  }

  /** PHP's string conversion of a value, as used by concatenation. */
  function ToStr(v: Value): string {
    match v
    case VNull => ""
    case VBool(b) => if b then "1" else ""
    case VInt(i) => IntToDecimal(i)
    case VStr(s) => s
    case VArr(_) => "Array"
  }

  // ---------------------------------------------------------------------
  // bin2hex

  function HexDigit(n: nat): (c: char)
    requires n < 16
    ensures IsDigit(c) || 'a' <= c <= 'f'
  {
    if n < 10 then ('0' as int + n) as char else ('a' as int + n - 10) as char
  }

  /** A lower-case hexadecimal digit. */
  predicate IsLowerHex(c: char) { IsDigit(c) || 'a' <= c <= 'f' }

  /** Value of a hex digit; 0 for any other character. */
  function HexValue(c: char): (n: nat)
    ensures n < 16
  {
    if IsDigit(c) then c as int - '0' as int
    else if 'a' <= c <= 'f' then c as int - 'a' as int + 10
    else 0
  }

  lemma HexValueOfDigit(n: nat)
    requires n < 16
    ensures HexValue(HexDigit(n)) == n
  {
  }

  /** PHP bin2hex: two lower-case hex digits per byte, high nibble first. */
  function Bin2Hex(bytes: seq<bv8>): (h: string)
    ensures |h| == 2 * |bytes|
    ensures forall i :: 0 <= i < |h| ==> IsLowerHex(h[i])
  {
    if |bytes| == 0 then ""
    else
      var b := bytes[0] as nat;
      [HexDigit(b / 16), HexDigit(b % 16)] + Bin2Hex(bytes[1..])
  }

  function PairByte(hi: nat, lo: nat): bv8
    requires hi < 16 && lo < 16
  {
    (hi * 16 + lo) as bv8
  }

  /** hex2bin on input of even length: the inverse of Bin2Hex. */
  function Hex2Bin(h: string): (bytes: seq<bv8>)
    requires |h| % 2 == 0
    ensures |bytes| == |h| / 2
  {
    if |h| == 0 then []
    else [PairByte(HexValue(h[0]), HexValue(h[1]))] + Hex2Bin(h[2..])
  }

  lemma ByteFromNibbles(x: bv8)
    ensures PairByte(x as nat / 16, x as nat % 16) == x
  {
  }

  lemma {:induction false} Bin2HexRoundTrip(bytes: seq<bv8>)
    ensures Hex2Bin(Bin2Hex(bytes)) == bytes
  {
    if |bytes| > 0 {
      var b := bytes[0] as nat;
      var h := Bin2Hex(bytes);
      var tail := Bin2Hex(bytes[1..]);
      assert h == [HexDigit(b / 16), HexDigit(b % 16)] + tail;
      assert h[0] == HexDigit(b / 16) && h[1] == HexDigit(b % 16) && h[2..] == tail;
      HexValueOfDigit(b / 16);
      HexValueOfDigit(b % 16);
      ByteFromNibbles(bytes[0]);
      Bin2HexRoundTrip(bytes[1..]);
      assert bytes == [bytes[0]] + bytes[1..];
    }
  }
}
