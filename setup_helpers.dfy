/** The decision logic of the setup wizard: the field configuration derived
    from an existing entity's metadata, the default fields, the validator of
    the admin route prefix, and the email-verification and mailer answers.
    Prompt answers are parameters; console output is not modelled. */
module SetupHelpers {
  import opened Php
  import FormType

  // ---------------------------------------------------------------------
  // Constraints written into the configuration

  function NotBlankItem(): Value { VArr([("NotBlank", VArr([]))]) }
  function EmailItem(): Value { VArr([("Email", VArr([]))]) }
  function MaxLengthItem(max: Value): Value { VArr([("Length", VArr([("max", max)]))]) }
  function TextareaLengthItem(): Value { VArr([("Length", VArr([("min", VInt(10)), ("max", VInt(5000))]))]) }

  /** The position each kind of generated constraint takes in the list. */
  function ItemRank(item: Value): nat {
    if item == NotBlankItem() then 0
    else if item == EmailItem() then 1
    else if item == TextareaLengthItem() then 3
    else if item.VArr? && |item.entries| == 1 && item.entries[0].0 == "Length" then 2
    else 4
  }

  /** `!($fieldInfo['nullable'] ?? false)`. */
  predicate NotNullable(fieldInfo: Fields) {
    !Truthy(Coalesce(Lookup(fieldInfo, "nullable"), VBool(false)))
  }

  /** The list generateConstraints() returns, as a function of its inputs. */
  function ConstraintsFor(fieldType: string, fieldInfo: Fields): seq<Value> {
    Selected(NotNullable(fieldInfo), fieldType == "email", Truthy(Get(fieldInfo, "length")),
             fieldType == "textarea", Get(fieldInfo, "length"))
  }

  /** NotBlank, Email, a maximum length and the textarea length, each when
      its decision holds, in this order. */
  function Selected(notBlank: bool, email: bool, maxLength: bool, textarea: bool, length: Value): seq<Value> {
    (if notBlank then [NotBlankItem()] else [])
    + (if email then [EmailItem()] else [])
    + (if maxLength then [MaxLengthItem(length)] else [])
    + (if textarea then [TextareaLengthItem()] else [])
  }

  /** NotBlank iff the column is not nullable, Email iff the type is email,
      a maximum length iff the metadata has a truthy length, and the 10..5000
      length iff the type is textarea; nothing else, in this order. */
  lemma ConstraintsForSpec(fieldType: string, fieldInfo: Fields)
    ensures var cs := ConstraintsFor(fieldType, fieldInfo);
      && (NotBlankItem() in cs <==> NotNullable(fieldInfo))
      && (EmailItem() in cs <==> fieldType == "email")
      && (MaxLengthItem(Get(fieldInfo, "length")) in cs <==> Truthy(Get(fieldInfo, "length")))
      && (TextareaLengthItem() in cs <==> fieldType == "textarea")
      && (forall c :: c in cs ==> c == NotBlankItem() || c == EmailItem() || c == MaxLengthItem(Get(fieldInfo, "length")) || c == TextareaLengthItem())
      && (forall i, j :: 0 <= i < j < |cs| ==> ItemRank(cs[i]) < ItemRank(cs[j]))
  {
    SelectedSpec(NotNullable(fieldInfo), fieldType == "email", Truthy(Get(fieldInfo, "length")),
                 fieldType == "textarea", Get(fieldInfo, "length"));
  }

  /** Each item is present exactly when its decision holds, and the ranks
      increase along the list. */
  lemma SelectedSpec(notBlank: bool, email: bool, maxLength: bool, textarea: bool, length: Value)
    ensures var cs := Selected(notBlank, email, maxLength, textarea, length);
      && (NotBlankItem() in cs <==> notBlank)
      && (EmailItem() in cs <==> email)
      && (MaxLengthItem(length) in cs <==> maxLength)
      && (TextareaLengthItem() in cs <==> textarea)
      && (forall c :: c in cs ==> c == NotBlankItem() || c == EmailItem() || c == MaxLengthItem(length) || c == TextareaLengthItem())
      && (forall i, j :: 0 <= i < j < |cs| ==> ItemRank(cs[i]) < ItemRank(cs[j]))
  {
    ItemRanks(length);
    FourParts(NotBlankItem(), EmailItem(), MaxLengthItem(length), TextareaLengthItem(),
              notBlank, email, maxLength, textarea);
  }

  /** Four items of ranks 0 to 3, each taken when its flag is set: each is
      present exactly when its flag is, nothing else is, and the ranks
      increase along the list. */
  lemma FourParts(p: Value, q: Value, r: Value, t: Value, np: bool, nq: bool, nr: bool, nt: bool)
    requires ItemRank(p) == 0 && ItemRank(q) == 1 && ItemRank(r) == 2 && ItemRank(t) == 3
    ensures var cs := (if np then [p] else []) + (if nq then [q] else []) + (if nr then [r] else []) + (if nt then [t] else []);
      && (p in cs <==> np) && (q in cs <==> nq) && (r in cs <==> nr) && (t in cs <==> nt)
      && (forall c :: c in cs ==> c == p || c == q || c == r || c == t)
      && (forall i, j :: 0 <= i < j < |cs| ==> ItemRank(cs[i]) < ItemRank(cs[j]))
  {
    var a := if np then [p] else [];
    var b := if nq then [q] else [];
    var c := if nr then [r] else [];
    var d := if nt then [t] else [];
    FourRanked(a, b, c, d);
    FourMembers(a, b, c, d, p, q, r, t);
  }

  /** Membership in four parts of ranks 0 to 3, each empty or one item. */
  lemma FourMembers(a: seq<Value>, b: seq<Value>, c: seq<Value>, d: seq<Value>, p: Value, q: Value, r: Value, t: Value)
    requires a == [] || a == [p]
    requires b == [] || b == [q]
    requires c == [] || c == [r]
    requires d == [] || d == [t]
    requires ItemRank(p) == 0 && ItemRank(q) == 1 && ItemRank(r) == 2 && ItemRank(t) == 3
    ensures var cs := a + b + c + d;
      && (p in cs <==> a == [p]) && (q in cs <==> b == [q]) && (r in cs <==> c == [r]) && (t in cs <==> d == [t])
      && (forall x :: x in cs ==> x == p || x == q || x == r || x == t)
  {
    RankedMembers(a, b, c, d, p);
    RankedMembers(a, b, c, d, q);
    RankedMembers(a, b, c, d, r);
    RankedMembers(a, b, c, d, t);
    forall x | x in a + b + c + d
      ensures x == p || x == q || x == r || x == t
    {
      RankedMembers(a, b, c, d, x);
    }
  }

  /** In such a list an item of rank k can only come from the k-th part. */
  lemma RankedMembers(a: seq<Value>, b: seq<Value>, c: seq<Value>, d: seq<Value>, x: Value)
    requires forall i :: 0 <= i < |a| ==> ItemRank(a[i]) == 0
    requires forall i :: 0 <= i < |b| ==> ItemRank(b[i]) == 1
    requires forall i :: 0 <= i < |c| ==> ItemRank(c[i]) == 2
    requires forall i :: 0 <= i < |d| ==> ItemRank(d[i]) == 3
    ensures x in a + b + c + d <==> x in a || x in b || x in c || x in d
    ensures ItemRank(x) != 0 ==> x !in a
    ensures ItemRank(x) != 1 ==> x !in b
    ensures ItemRank(x) != 2 ==> x !in c
    ensures ItemRank(x) != 3 ==> x !in d
  {
  }

  /** At most one item of each rank, taken in rank order, makes a list whose
      ranks increase. */
  lemma FourRanked(a: seq<Value>, b: seq<Value>, c: seq<Value>, d: seq<Value>)
    requires |a| <= 1 && |b| <= 1 && |c| <= 1 && |d| <= 1
    requires forall i :: 0 <= i < |a| ==> ItemRank(a[i]) == 0
    requires forall i :: 0 <= i < |b| ==> ItemRank(b[i]) == 1
    requires forall i :: 0 <= i < |c| ==> ItemRank(c[i]) == 2
    requires forall i :: 0 <= i < |d| ==> ItemRank(d[i]) == 3
    ensures var cs := a + b + c + d;
      forall i, j :: 0 <= i < j < |cs| ==> ItemRank(cs[i]) < ItemRank(cs[j])
  {
    RankedAppend([], a, 0);
    assert [] + a == a;
    RankedAppend(a, b, 1);
    RankedAppend(a + b, c, 2);
    RankedAppend(a + b + c, d, 3);
    RankedIncreasing(a + b + c + d, 4);
  }

  /** The generated items are distinct, and rank in generation order. */
  lemma ItemRanks(len: Value)
    ensures ItemRank(NotBlankItem()) == 0 && ItemRank(EmailItem()) == 1
    ensures ItemRank(MaxLengthItem(len)) == 2 && ItemRank(TextareaLengthItem()) == 3
  {
    assert NotBlankItem().entries[0].0[0] == 'N';
    assert EmailItem().entries[0].0[0] == 'E';
    assert MaxLengthItem(len).entries[0].0[0] == 'L';
    assert |MaxLengthItem(len).entries[0].1.entries| == 1 != |TextareaLengthItem().entries[0].1.entries|;
  }

  /** Ranks strictly increasing along the list, all below r. */
  predicate RankedBelow(cs: seq<Value>, r: nat)
    decreases |cs|
  {
    |cs| == 0 || (ItemRank(cs[|cs| - 1]) < r && RankedBelow(cs[..|cs| - 1], ItemRank(cs[|cs| - 1])))
  }

  lemma RankedAppend(cs: seq<Value>, next: seq<Value>, r: nat)
    requires RankedBelow(cs, r) && |next| <= 1
    requires forall i :: 0 <= i < |next| ==> ItemRank(next[i]) == r
    ensures RankedBelow(cs + next, r + 1)
  {
    if |next| == 1 {
      assert (cs + next)[..|cs|] == cs;
    } else {
      assert cs + next == cs;
      RankedWeaken(cs, r, r + 1);
    }
  }

  lemma RankedWeaken(cs: seq<Value>, r: nat, r': nat)
    requires RankedBelow(cs, r) && r <= r'
    ensures RankedBelow(cs, r')
  {
  }

  /** A ranked list has its ranks strictly increasing. */
  lemma {:induction false} RankedIncreasing(cs: seq<Value>, r: nat)
    requires RankedBelow(cs, r)
    ensures forall i :: 0 <= i < |cs| ==> ItemRank(cs[i]) < r
    ensures forall i, j :: 0 <= i < j < |cs| ==> ItemRank(cs[i]) < ItemRank(cs[j])
    decreases |cs|
  {
    if |cs| > 0 {
      var n := |cs| - 1;
      var init := cs[..n];
      RankedIncreasing(init, ItemRank(cs[n]));
      assert forall i :: 0 <= i < n ==> cs[i] == init[i];
    }
  }

  /** generateConstraints(). */
  method GenerateConstraints(fieldType: string, fieldInfo: Fields) returns (cs: seq<Value>)
    ensures cs == ConstraintsFor(fieldType, fieldInfo)
  {
    cs := [];
    if NotNullable(fieldInfo) {
      cs := cs + [NotBlankItem()];
    }
    if fieldType == "email" {
      cs := cs + [EmailItem()];
    }
    var length := Get(fieldInfo, "length");
    if length != VNull && Truthy(length) {
      cs := cs + [MaxLengthItem(length)];
    }
    if fieldType == "textarea" {
      cs := cs + [TextareaLengthItem()];
    }
  }

  /** A PHP list: the items under keys "0", "1", ... */
  function ListValue(items: seq<Value>): (v: Value)
    ensures v.VArr? && |v.entries| == |items|
    ensures forall i :: 0 <= i < |items| ==> v.entries[i].1 == items[i]
  {
    VArr(seq(|items|, i requires 0 <= i < |items| => (IntToDecimal(i), items[i])))
  }

  // ---------------------------------------------------------------------
  // Fields

  /** The fixed map from lower-cased entity field names to the canonical field names. */
  function CanonicalName(normalized: string): Option<string> {
    if normalized == "title" || normalized == "name" then Some("name")
    else if normalized == "email" then Some("email")
    else if normalized == "phone" then Some("phone")
    else if normalized == "subject" || normalized == "subtitle" then Some("subject")
    else if normalized == "body" || normalized == "message" then Some("message")
    else None
  }

  /** The field type of each canonical field. */
  function CanonicalType(name: string): string {
    if name == "email" then "email"
    else if name == "phone" then "tel"
    else if name == "message" then "textarea"
    else "text"
  }

  /** Whether the entity field's name maps to canonical field n. */
  predicate MapsTo(fieldName: string, n: string) {
    CanonicalName(LowerStr(fieldName)) == Some(n)
  }

  /** One field of the generated configuration. */
  function FieldConfig(tag: string, required: bool, name: string, constraints: seq<Value>): Value {
    VArr([("type", VStr(tag)), ("required", VBool(required)), ("label", VStr("contact.field." + name)),
          ("constraints", ListValue(constraints))])
  }

  /** A generated field reads back its type, whether it is required, the
      label `contact.field.<name>` and its constraint list. */
  lemma FieldConfigReads(tag: string, required: bool, name: string, constraints: seq<Value>)
    ensures var v := FieldConfig(tag, required, name, constraints);
      && v.VArr? && Keys(v.entries) == ["type", "required", "label", "constraints"]
      && Get(v.entries, "type") == VStr(tag)
      && Get(v.entries, "required") == VBool(required)
      && Get(v.entries, "label") == VStr("contact.field." + name)
      && Get(v.entries, "constraints") == ListValue(constraints)
  {
    var e := FieldConfig(tag, required, name, constraints).entries;
    assert UniqueKeys(e);
    LookupUnique(e, 0);
    LookupUnique(e, 1);
    LookupUnique(e, 2);
    LookupUnique(e, 3);
  }

  /** The configuration written for a canonical field derived from the
      metadata: required unless the column is nullable. */
  function DerivedField(name: string, fieldInfo: Fields, constraints: seq<Value>): Value {
    FieldConfig(CanonicalType(name), NotNullable(fieldInfo), name, constraints)
  }

  /** getDefaultFields(): name, email, subject and message, all required. */
  function DefaultFields(): (d: Fields)
    ensures Keys(d) == ["name", "email", "subject", "message"]
    ensures UniqueKeys(d)
  {
    var name := FieldConfig("text", true, "name", [NotBlankItem(), MaxLengthItem(VInt(100))]);
    var email := FieldConfig("email", true, "email", [NotBlankItem(), EmailItem()]);
    var subject := FieldConfig("text", true, "subject", [NotBlankItem(), MaxLengthItem(VInt(200))]);
    var message := FieldConfig("textarea", true, "message", [NotBlankItem(), TextareaLengthItem()]);
    var d := [("name", name), ("email", email), ("subject", subject), ("message", message)];
    KeysOfFour(d, "name", "email", "subject", "message");
    d
  }

  /** Four keys with distinct first letters. */
  lemma KeysOfFour<T>(d: seq<(string, T)>, a: string, b: string, c: string, e: string)
    requires |d| == 4 && d[0].0 == a && d[1].0 == b && d[2].0 == c && d[3].0 == e
    requires |a| > 0 && |b| > 0 && |c| > 0 && |e| > 0
    requires a[0] != b[0] && a[0] != c[0] && a[0] != e[0] && b[0] != c[0] && b[0] != e[0] && c[0] != e[0]
    ensures Keys(d) == [a, b, c, e]
    ensures UniqueKeys(d)
  {
  }

  /** The write one entity column makes: its canonical field, when its
      lower-cased name is in the map. */
  function Column(column: (string, Fields)): Option<(string, Value)> {
    match CanonicalName(LowerStr(column.0))
    case Some(n) => Some((n, DerivedFrom(n, column.1)))
    case None => None
  }

  function Columns(metadata: seq<(string, Fields)>): (ws: seq<Option<(string, Value)>>)
    ensures |ws| == |metadata| && forall i :: 0 <= i < |metadata| ==> ws[i] == Column(metadata[i])
  {
    seq(|metadata|, i requires 0 <= i < |metadata| => Column(metadata[i]))
  }

  /** The loop of generateFieldsFromEntity: the columns' writes in order, a
      later column replacing an earlier one's field in place. */
  function EntityFields(metadata: seq<(string, Fields)>): Fields {
    PutSome([], Columns(metadata))
  }

  /** `isset($fields[$k])`. */
  predicate IsSet(fields: Fields, k: string) {
    HasKey(fields, k) && Lookup(fields, k).value != VNull
  }

  /** The default field k, for the three fields the result must hold. */
  function DefaultField(k: string): Value {
    Get(DefaultFields(), k)
  }

  /** `if (!isset($fields[$k])) { $fields[$k] = $v; }` */
  function EnsureSet(fields: Fields, k: string, v: Value): Fields {
    if !IsSet(fields, k) then Put(fields, k, v) else fields
  }

  lemma EnsureSetLookup(fields: Fields, k: string, v: Value)
    ensures Lookup(EnsureSet(fields, k, v), k) == if IsSet(fields, k) then Lookup(fields, k) else Some(v)
    ensures forall n :: n != k ==> Lookup(EnsureSet(fields, k, v), n) == Lookup(fields, n)
    ensures forall n :: n != k ==> IsSet(EnsureSet(fields, k, v), n) == IsSet(fields, n)
  {
    forall n | n != k ensures IsSet(EnsureSet(fields, k, v), n) == IsSet(fields, n) {
      assert Lookup(EnsureSet(fields, k, v), n) == Lookup(fields, n);
    }
  }

  /** The "ensure minimum fields" step. */
  function WithMinimum(fields: Fields): Fields {
    var f1 := EnsureSet(fields, "name", DefaultField("name"));
    var f2 := EnsureSet(f1, "email", DefaultField("email"));
    EnsureSet(f2, "message", DefaultField("message"))
  }

  /** generateFieldsFromEntity(). */
  method GenerateFieldsFromEntity(metadata: seq<(string, Fields)>) returns (fields: Fields)
    ensures fields == WithMinimum(EntityFields(metadata))
  {
    fields := [];
    var i := 0;
    while i < |metadata|
      invariant 0 <= i <= |metadata|
      invariant fields == EntityFields(metadata[..i])
    {
      assert Columns(metadata[..i + 1])[..i] == Columns(metadata[..i]);
      var normalized := LowerStr(metadata[i].0);
      match CanonicalName(normalized) {
        case Some(n) =>
          var constraints := GenerateConstraints(CanonicalType(n), metadata[i].1);
          fields := Put(fields, n, DerivedField(n, metadata[i].1, constraints));
        case None =>
      }
      i := i + 1;
    }
    assert metadata[..|metadata|] == metadata;
    ghost var found := fields;
    if !IsSet(fields, "name") {
      fields := Put(fields, "name", DefaultField("name"));
    }
    ghost var f1 := fields;
    if !IsSet(fields, "email") {
      fields := Put(fields, "email", DefaultField("email"));
    }
    ghost var f2 := fields;
    if !IsSet(fields, "message") {
      fields := Put(fields, "message", DefaultField("message"));
    }
    assert f1 == EnsureSet(found, "name", DefaultField("name"));
    assert f2 == EnsureSet(f1, "email", DefaultField("email"));
  }


  /** The configuration the loop writes for an entity column mapped to canonical field n. */
  function DerivedFrom(n: string, fieldInfo: Fields): Value {
    DerivedField(n, fieldInfo, ConstraintsFor(CanonicalType(n), fieldInfo))
  }

  predicate IsCanonical(n: string) {
    n == "name" || n == "email" || n == "phone" || n == "subject" || n == "message"
  }

  /** The map recognises exactly the eight names and sends them to the five canonical fields. */
  lemma CanonicalNames(normalized: string)
    ensures CanonicalName(normalized).Some? <==>
      normalized in {"title", "name", "email", "phone", "subject", "subtitle", "body", "message"}
    ensures CanonicalName(normalized).Some? ==> IsCanonical(CanonicalName(normalized).value)
  {
  }

  /** Column i is the last one that maps to canonical field n. */
  predicate LastMapping(metadata: seq<(string, Fields)>, i: int, n: string) {
    0 <= i < |metadata| && MapsTo(metadata[i].0, n)
      && forall j :: i < j < |metadata| ==> !MapsTo(metadata[j].0, n)
  }

  /** Field n is present iff some column maps to it, and then it holds the
      configuration derived from the last such column, which is an array
      under a canonical name. */
  lemma EntityFieldsLookup(metadata: seq<(string, Fields)>, n: string)
    ensures HasKey(EntityFields(metadata), n) <==> exists i :: 0 <= i < |metadata| && MapsTo(metadata[i].0, n)
    ensures forall i :: LastMapping(metadata, i, n) ==>
      Lookup(EntityFields(metadata), n) == Some(DerivedFrom(n, metadata[i].1))
    ensures HasKey(EntityFields(metadata), n) ==> Lookup(EntityFields(metadata), n).value.VArr? && IsCanonical(n)
  {
    var ws := Columns(metadata);
    forall i ensures WritesAt(ws, i, n) <==> 0 <= i < |metadata| && MapsTo(metadata[i].0, n) {
      if 0 <= i < |metadata| {
        CanonicalNames(LowerStr(metadata[i].0));
      }
    }
    PutSomeLookup([], ws, n);
    forall i | LastMapping(metadata, i, n) ensures LastWrite(ws, i, n) {
      forall j | i < j < |ws| ensures !WritesAt(ws, j, n) {
        assert !MapsTo(metadata[j].0, n);
      }
    }
    if HasKey(EntityFields(metadata), n) {
      var i :| LastWrite(ws, i, n);
      CanonicalNames(LowerStr(metadata[i].0));
    }
  }

  /** The fields the generated configuration must hold. */
  predicate MinimumField(n: string) {
    n == "name" || n == "email" || n == "message"
  }

  /** Setting name, email and message when unset, with any values, on any
      array whose name, email and message, when present, are set. */
  lemma EnsureMinimumLookup(e: Fields, dn: Value, de: Value, dm: Value)
    requires HasKey(e, "name") ==> Lookup(e, "name").value != VNull
    requires HasKey(e, "email") ==> Lookup(e, "email").value != VNull
    requires HasKey(e, "message") ==> Lookup(e, "message").value != VNull
    ensures var r := EnsureSet(EnsureSet(EnsureSet(e, "name", dn), "email", de), "message", dm);
      && Lookup(r, "name") == (if HasKey(e, "name") then Lookup(e, "name") else Some(dn))
      && Lookup(r, "email") == (if HasKey(e, "email") then Lookup(e, "email") else Some(de))
      && Lookup(r, "message") == (if HasKey(e, "message") then Lookup(e, "message") else Some(dm))
      && forall n :: !MinimumField(n) ==> Lookup(r, n) == Lookup(e, n)
  {
    var name, email, message := "name", "email", "message";
    assert name[0] == 'n' && email[0] == 'e' && message[0] == 'm';
    EnsureThreeLookup(e, name, email, message, dn, de, dm);
  }

  /** Three `isset`-guarded writes to distinct keys whose present values are set. */
  lemma EnsureThreeLookup(e: Fields, k1: string, k2: string, k3: string, v1: Value, v2: Value, v3: Value)
    requires k1 != k2 && k1 != k3 && k2 != k3
    requires HasKey(e, k1) ==> Lookup(e, k1).value != VNull
    requires HasKey(e, k2) ==> Lookup(e, k2).value != VNull
    requires HasKey(e, k3) ==> Lookup(e, k3).value != VNull
    ensures var r := EnsureSet(EnsureSet(EnsureSet(e, k1, v1), k2, v2), k3, v3);
      && Lookup(r, k1) == (if HasKey(e, k1) then Lookup(e, k1) else Some(v1))
      && Lookup(r, k2) == (if HasKey(e, k2) then Lookup(e, k2) else Some(v2))
      && Lookup(r, k3) == (if HasKey(e, k3) then Lookup(e, k3) else Some(v3))
      && forall n :: n != k1 && n != k2 && n != k3 ==> Lookup(r, n) == Lookup(e, n)
  {
    assert IsSet(e, k1) == HasKey(e, k1);
    assert IsSet(e, k2) == HasKey(e, k2);
    assert IsSet(e, k3) == HasKey(e, k3);
    var f1 := EnsureSet(e, k1, v1);
    EnsureSetLookup(e, k1, v1);
    var f2 := EnsureSet(f1, k2, v2);
    EnsureSetLookup(f1, k2, v2);
    var r := EnsureSet(f2, k3, v3);
    EnsureSetLookup(f2, k3, v3);
    assert Lookup(r, k1) == Lookup(f1, k1);
    assert Lookup(r, k2) == Lookup(f2, k2);
  }

  /** The "ensure minimum fields" step on any array whose name, email and
      message, when present, are set. */
  lemma WithMinimumLookup(e: Fields)
    requires HasKey(e, "name") ==> Lookup(e, "name").value != VNull
    requires HasKey(e, "email") ==> Lookup(e, "email").value != VNull
    requires HasKey(e, "message") ==> Lookup(e, "message").value != VNull
    ensures forall n :: Lookup(WithMinimum(e), n) ==
                        (if MinimumField(n) && !HasKey(e, n) then Some(DefaultField(n)) else Lookup(e, n))
  {
    var dn, de, dm := DefaultField("name"), DefaultField("email"), DefaultField("message");
    EnsureMinimumLookup(e, dn, de, dm);
    var r := WithMinimum(e);
    assert r == EnsureSet(EnsureSet(EnsureSet(e, "name", dn), "email", de), "message", dm);
    forall n ensures Lookup(r, n) == (if MinimumField(n) && !HasKey(e, n) then Some(DefaultField(n)) else Lookup(e, n)) {
      if n == "name" {
      } else if n == "email" {
      } else if n == "message" {
      }
    }
  }

  /** The "ensure minimum fields" step adds name, email and message from the
      defaults when the entity supplied none, and changes nothing else. */
  lemma MinimumFields(metadata: seq<(string, Fields)>)
    ensures var e := EntityFields(metadata);
      forall n :: Lookup(WithMinimum(e), n) ==
                  (if MinimumField(n) && !HasKey(e, n) then Some(DefaultField(n)) else Lookup(e, n))
  {
    EntityFieldsLookup(metadata, "name");
    EntityFieldsLookup(metadata, "email");
    EntityFieldsLookup(metadata, "message");
    WithMinimumLookup(EntityFields(metadata));
  }

  /** The generated configuration always holds name, email and message. */
  lemma MinimumFieldsPresent(metadata: seq<(string, Fields)>)
    ensures var r := WithMinimum(EntityFields(metadata));
      HasKey(r, "name") && HasKey(r, "email") && HasKey(r, "message")
  {
    var e := EntityFields(metadata);
    MinimumFields(metadata);
    assert Lookup(WithMinimum(e), "name").Some?;
    assert Lookup(WithMinimum(e), "email").Some?;
    assert Lookup(WithMinimum(e), "message").Some?;
  }

  /** A column whose name is not in the map leaves the result untouched. */
  lemma UnmappedColumnIgnored(metadata: seq<(string, Fields)>, column: (string, Fields))
    requires CanonicalName(LowerStr(column.0)).None?
    ensures EntityFields(metadata + [column]) == EntityFields(metadata)
  {
    var ws := Columns(metadata + [column]);
    assert ws[..|metadata|] == Columns(metadata);
    assert ws[|metadata|] == None;
  }

  // ---------------------------------------------------------------------
  // What the contact form makes of the generated configuration

  /** A constraint item with exactly one entry whose name the form type knows. */
  predicate SingleKnown(item: Value) {
    item.VArr? && |item.entries| == 1 && FormType.ConstraintOfName(item.entries[0].0).Some?
  }

  lemma {:induction false} SinglesArrayEntries(items: Fields)
    requires forall i :: 0 <= i < |items| ==> SingleKnown(items[i].1)
    ensures var es := FormType.ArrayEntries(items);
      |es| == |items| && forall i :: 0 <= i < |items| ==> SingleKnown(items[i].1) && es[i] == items[i].1.entries[0]
    decreases |items|
  {
    if |items| > 0 {
      var init := items[..|items| - 1];
      assert forall i :: 0 <= i < |init| ==> init[i] == items[i];
      SinglesArrayEntries(init);
    }
  }

  lemma {:induction false} KnownMapConstraints(entries: Fields)
    requires forall i :: 0 <= i < |entries| ==> FormType.ConstraintOfName(entries[i].0).Some?
    ensures var cs := FormType.MapConstraints(entries);
      |cs| == |entries| && forall i :: 0 <= i < |entries| ==> FormType.FromEntry(cs[i], entries[i])
    decreases |entries|
  {
    if |entries| > 0 {
      var init := entries[..|entries| - 1];
      assert forall i :: 0 <= i < |init| ==> init[i] == entries[i];
      KnownMapConstraints(init);
    }
  }

  /** A list of single known constraint maps gives the form one constraint per item, in order. */
  lemma SinglesConstraints(items: Fields)
    requires forall i :: 0 <= i < |items| ==> SingleKnown(items[i].1)
    ensures var cs := FormType.ConstraintsOf(items);
      |cs| == |items| && forall i :: 0 <= i < |items| ==> SingleKnown(items[i].1) && FormType.FromEntry(cs[i], items[i].1.entries[0])
  {
    SinglesArrayEntries(items);
    KnownMapConstraints(FormType.ArrayEntries(items));
  }

  /** The constraint the form type builds from a single-entry item. */
  function Built(item: Value): FormType.Constraint
    requires SingleKnown(item)
  {
    FormType.Constraint(FormType.ConstraintOfName(item.entries[0].0).value,
                        Coalesce(Some(item.entries[0].1), VArr([])))
  }

  /** The constraints generated for an entity column are the ones the form
      applies to the field: one per item, in the same order. */
  lemma GeneratedConstraintsApplied(fieldType: string, fieldInfo: Fields)
    ensures var cs := ConstraintsFor(fieldType, fieldInfo);
      var built := FormType.ConstraintsOf(ListValue(cs).entries);
      && (forall i :: 0 <= i < |cs| ==> SingleKnown(cs[i]))
      && |built| == |cs|
      && forall i :: 0 <= i < |cs| ==> built[i] == Built(cs[i])
  {
    var cs := ConstraintsFor(fieldType, fieldInfo);
    ConstraintsForSpec(fieldType, fieldInfo);
    ItemsApplied(cs, Get(fieldInfo, "length"));
  }

  /** Any list of the generated items: which item each is. */
  predicate OfGeneratedItems(cs: seq<Value>, length: Value) {
    forall c :: c in cs ==> c == NotBlankItem() || c == EmailItem() || c == MaxLengthItem(length) || c == TextareaLengthItem()
  }

  /** The form type knows each generated item's name, and NotBlank is the
      only one that builds a NotBlank constraint. */
  lemma ItemsKnown(length: Value)
    ensures SingleKnown(NotBlankItem()) && SingleKnown(EmailItem())
    ensures SingleKnown(MaxLengthItem(length)) && SingleKnown(TextareaLengthItem())
    ensures Built(NotBlankItem()) == FormType.Constraint(FormType.NotBlank, VArr([]))
    ensures Built(EmailItem()).kind != FormType.NotBlank
    ensures Built(MaxLengthItem(length)).kind != FormType.NotBlank
    ensures Built(TextareaLengthItem()).kind != FormType.NotBlank
  {
    assert FormType.ConstraintOfName("NotBlank") == Some(FormType.NotBlank);
    assert FormType.ConstraintOfName("Email") == Some(FormType.EmailRule);
    assert FormType.ConstraintOfName("Length") == Some(FormType.Length);
  }

  /** A list of generated items reaches the form one constraint per item. */
  lemma ItemsApplied(cs: seq<Value>, length: Value)
    requires OfGeneratedItems(cs, length)
    ensures var built := FormType.ConstraintsOf(ListValue(cs).entries);
      && (forall i :: 0 <= i < |cs| ==> SingleKnown(cs[i]))
      && |built| == |cs|
      && forall i :: 0 <= i < |cs| ==> built[i] == Built(cs[i])
  {
    ItemsKnown(length);
    forall i | 0 <= i < |cs| ensures SingleKnown(cs[i]) {
      assert cs[i] in cs;
    }
    var items := ListValue(cs).entries;
    SinglesConstraints(items);
  }

  /** The form receives NotBlank exactly for the columns that are not nullable. */
  lemma NotBlankIffNotNullable(fieldType: string, fieldInfo: Fields)
    ensures FormType.Constraint(FormType.NotBlank, VArr([])) in FormType.ConstraintsOf(ListValue(ConstraintsFor(fieldType, fieldInfo)).entries)
      <==> NotNullable(fieldInfo)
  {
    var cs := ConstraintsFor(fieldType, fieldInfo);
    ConstraintsForSpec(fieldType, fieldInfo);
    NotBlankBuiltIffPresent(cs, Get(fieldInfo, "length"));
  }

  /** For a list of generated items, the form gets NotBlank iff the list holds it. */
  lemma NotBlankBuiltIffPresent(cs: seq<Value>, length: Value)
    requires OfGeneratedItems(cs, length)
    ensures FormType.Constraint(FormType.NotBlank, VArr([])) in FormType.ConstraintsOf(ListValue(cs).entries)
      <==> NotBlankItem() in cs
  {
    var built := FormType.ConstraintsOf(ListValue(cs).entries);
    var nb := FormType.Constraint(FormType.NotBlank, VArr([]));
    ItemsApplied(cs, length);
    ItemsKnown(length);
    if NotBlankItem() in cs {
      var i :| 0 <= i < |cs| && cs[i] == NotBlankItem();
      assert built[i] == nb;
    } else {
      forall i | 0 <= i < |built| ensures built[i] != nb {
        assert cs[i] in cs;
      }
    }
  }

  /** The four default fields, by name. */
  lemma DefaultFieldValues()
    ensures DefaultField("name") == FieldConfig("text", true, "name", [NotBlankItem(), MaxLengthItem(VInt(100))])
    ensures DefaultField("email") == FieldConfig("email", true, "email", [NotBlankItem(), EmailItem()])
    ensures DefaultField("subject") == FieldConfig("text", true, "subject", [NotBlankItem(), MaxLengthItem(VInt(200))])
    ensures DefaultField("message") == FieldConfig("textarea", true, "message", [NotBlankItem(), TextareaLengthItem()])
  {
    var d := DefaultFields();
    LookupUnique(d, 0);
    LookupUnique(d, 1);
    LookupUnique(d, 2);
    LookupUnique(d, 3);
  }

  /** The form type of a generated field is the one its tag names. */
  lemma FieldConfigType(tag: string, required: bool, name: string, constraints: seq<Value>)
    ensures FormType.FieldTypeOf(FieldConfig(tag, required, name, constraints).entries) == FormType.TypeOfTag(tag).GetOr(FormType.TextType)
  {
    FieldConfigReads(tag, required, name, constraints);
  }

  /** Each default field becomes the form field of its type. */
  lemma DefaultFieldTypes()
    ensures FormType.FieldTypeOf(DefaultField("name").entries) == FormType.TextType
    ensures FormType.FieldTypeOf(DefaultField("email").entries) == FormType.EmailType
    ensures FormType.FieldTypeOf(DefaultField("subject").entries) == FormType.TextType
    ensures FormType.FieldTypeOf(DefaultField("message").entries) == FormType.TextareaType
  {
    DefaultFieldValues();
    FieldConfigType("text", true, "name", [NotBlankItem(), MaxLengthItem(VInt(100))]);
    FieldConfigType("email", true, "email", [NotBlankItem(), EmailItem()]);
    FieldConfigType("text", true, "subject", [NotBlankItem(), MaxLengthItem(VInt(200))]);
    FieldConfigType("textarea", true, "message", [NotBlankItem(), TextareaLengthItem()]);
  }

  /** Every default field is required and labelled `contact.field.<name>`. */
  lemma DefaultFieldsRequired(n: string)
    requires n == "name" || n == "email" || n == "subject" || n == "message"
    ensures Get(DefaultField(n).entries, "required") == VBool(true)
    ensures Get(DefaultField(n).entries, "label") == VStr("contact.field." + n)
  {
    DefaultFieldValues();
    if n == "name" {
      FieldConfigReads("text", true, "name", [NotBlankItem(), MaxLengthItem(VInt(100))]);
    } else if n == "email" {
      FieldConfigReads("email", true, "email", [NotBlankItem(), EmailItem()]);
    } else if n == "subject" {
      FieldConfigReads("text", true, "subject", [NotBlankItem(), MaxLengthItem(VInt(200))]);
    } else {
      FieldConfigReads("textarea", true, "message", [NotBlankItem(), TextareaLengthItem()]);
    }
  }

  /** Two single constraint maps give the form their two constraints, in order. */
  lemma TwoConstraints(a: Value, b: Value)
    requires SingleKnown(a) && SingleKnown(b)
    ensures FormType.ConstraintsOf(ListValue([a, b]).entries) == [Built(a), Built(b)]
  {
    var items := ListValue([a, b]).entries;
    SinglesConstraints(items);
  }

  /** The constraints the form builds from the items the wizard writes. */
  lemma BuiltItems(max: Value)
    requires max != VNull
    ensures SingleKnown(NotBlankItem()) && Built(NotBlankItem()) == FormType.Constraint(FormType.NotBlank, VArr([]))
    ensures SingleKnown(EmailItem()) && Built(EmailItem()) == FormType.Constraint(FormType.EmailRule, VArr([]))
    ensures SingleKnown(MaxLengthItem(max)) && Built(MaxLengthItem(max)) == FormType.Constraint(FormType.Length, VArr([("max", max)]))
    ensures SingleKnown(TextareaLengthItem()) &&
      Built(TextareaLengthItem()) == FormType.Constraint(FormType.Length, VArr([("min", VInt(10)), ("max", VInt(5000))]))
  {
  }

  /** The form applies the two constraints the default name field lists. */
  lemma DefaultNameConstraints()
    ensures FormType.ConstraintsOf(Get(DefaultField("name").entries, "constraints").entries)
      == [FormType.Constraint(FormType.NotBlank, VArr([])), FormType.Constraint(FormType.Length, VArr([("max", VInt(100))]))]
  {
    DefaultFieldValues();
    FieldConfigReads("text", true, "name", [NotBlankItem(), MaxLengthItem(VInt(100))]);
    BuiltItems(VInt(100));
    TwoConstraints(NotBlankItem(), MaxLengthItem(VInt(100)));
  }

  /** The form applies the two constraints the default email field lists. */
  lemma DefaultEmailConstraints()
    ensures DefaultField("email") == FieldConfig("email", true, "email", [NotBlankItem(), EmailItem()])
    ensures Get(DefaultField("email").entries, "constraints") == ListValue([NotBlankItem(), EmailItem()])
    ensures FormType.ConstraintsOf(Get(DefaultField("email").entries, "constraints").entries)
      == [FormType.Constraint(FormType.NotBlank, VArr([])), FormType.Constraint(FormType.EmailRule, VArr([]))]
  {
    DefaultFieldValues();
    FieldConfigReads("email", true, "email", [NotBlankItem(), EmailItem()]);
    BuiltItems(VInt(0));
    TwoConstraints(NotBlankItem(), EmailItem());
  }

  /** The form applies the two constraints the default subject field lists. */
  lemma DefaultSubjectConstraints()
    ensures DefaultField("subject") == FieldConfig("text", true, "subject", [NotBlankItem(), MaxLengthItem(VInt(200))])
    ensures Get(DefaultField("subject").entries, "constraints") == ListValue([NotBlankItem(), MaxLengthItem(VInt(200))])
    ensures FormType.ConstraintsOf(Get(DefaultField("subject").entries, "constraints").entries)
      == [FormType.Constraint(FormType.NotBlank, VArr([])), FormType.Constraint(FormType.Length, VArr([("max", VInt(200))]))]
  {
    DefaultFieldValues();
    FieldConfigReads("text", true, "subject", [NotBlankItem(), MaxLengthItem(VInt(200))]);
    BuiltItems(VInt(200));
    TwoConstraints(NotBlankItem(), MaxLengthItem(VInt(200)));
  }

  /** The form applies the two constraints the default message field lists. */
  lemma DefaultMessageConstraints()
    ensures DefaultField("message") == FieldConfig("textarea", true, "message", [NotBlankItem(), TextareaLengthItem()])
    ensures Get(DefaultField("message").entries, "constraints") == ListValue([NotBlankItem(), TextareaLengthItem()])
    ensures FormType.ConstraintsOf(Get(DefaultField("message").entries, "constraints").entries)
      == [FormType.Constraint(FormType.NotBlank, VArr([])), FormType.Constraint(FormType.Length, VArr([("min", VInt(10)), ("max", VInt(5000))]))]
  {
    DefaultFieldValues();
    FieldConfigReads("textarea", true, "message", [NotBlankItem(), TextareaLengthItem()]);
    BuiltItems(VInt(0));
    TwoConstraints(NotBlankItem(), TextareaLengthItem());
  }

  // ---------------------------------------------------------------------
  // Admin route prefix

  datatype PrefixError = MustStartWithSlash | MustNotEndWithSlash

  datatype PrefixCheck = Accepted(prefix: string) | Rejected(error: PrefixError)

  /** The validator of the CRUD route prefix answer. */
  function ValidatePrefix(input: string): (r: PrefixCheck)
    ensures r.Accepted? ==> r.prefix == input
  {
    if !StartsWith(input, "/") then Rejected(MustStartWithSlash)
    else if EndsWith(input, "/") && |input| > 1 then Rejected(MustNotEndWithSlash)
    else Accepted(input)
  }

  /** A prefix is accepted iff it starts with a slash and either does not end
      with one or is exactly "/"; a missing leading slash is reported first. */
  lemma PrefixAcceptedIff(input: string)
    ensures ValidatePrefix(input).Accepted? <==>
      |input| > 0 && input[0] == '/' && (input[|input| - 1] != '/' || input == "/")
    ensures |input| == 0 || input[0] != '/' ==> ValidatePrefix(input) == Rejected(MustStartWithSlash)
  {
    if |input| > 0 {
      assert input[..1] == [input[0]];
      assert input[|input| - 1..] == [input[|input| - 1]];
    }
  }

  /** The default answer is accepted. */
  lemma DefaultPrefixAccepted()
    ensures ValidatePrefix("/admin/contact") == Accepted("/admin/contact")
  {
    PrefixAcceptedIff("/admin/contact");
  }

  // ---------------------------------------------------------------------
  // Email verification and mailer answers

  const DefaultTokenTtl: string := "24 hours"

  datatype VerificationAnswers = VerificationAnswers(enabled: bool, tokenTtl: string)

  /** askEmailVerification(): the confirmation is asked only in "both" mode,
      the TTL only once verification is enabled; a null answer keeps 24 hours. */
  function AskEmailVerification(storageMode: string, confirmAnswer: bool, ttlAnswer: Option<string>): (a: VerificationAnswers)
    ensures a.enabled <==> storageMode == "both" && confirmAnswer
    ensures !a.enabled ==> a.tokenTtl == DefaultTokenTtl
    ensures a.enabled ==> a.tokenTtl == ttlAnswer.GetOr(DefaultTokenTtl)
  {
    var enabled := if storageMode == "both" then confirmAnswer else false;
    var ttl := if enabled then ttlAnswer.GetOr(DefaultTokenTtl) else DefaultTokenTtl;
    VerificationAnswers(enabled, ttl)
  }

  /** The array the wizard writes for email verification. */
  function VerificationConfig(a: VerificationAnswers): Fields {
    [("enabled", VBool(a.enabled)), ("token_ttl", VStr(a.tokenTtl))]
  }

  /** askMailerConfiguration(): with verification enabled the sender always
      receives a copy and is not asked; otherwise the answer decides. */
  function AskMailerConfiguration(verificationConfig: Fields, fromEmail: Value, fromName: Value,
                                  subjectPrefix: Value, confirmAnswer: bool): (m: Fields)
    ensures Keys(m) == ["from_email", "from_name", "subject_prefix", "send_copy_to_sender"]
    ensures Lookup(m, "from_email") == Some(fromEmail)
    ensures Lookup(m, "from_name") == Some(fromName)
    ensures Lookup(m, "subject_prefix") == Some(subjectPrefix)
    ensures Truthy(Coalesce(Lookup(verificationConfig, "enabled"), VBool(false))) ==>
      Lookup(m, "send_copy_to_sender") == Some(VBool(true))
    ensures !Truthy(Coalesce(Lookup(verificationConfig, "enabled"), VBool(false))) ==>
      Lookup(m, "send_copy_to_sender") == Some(VBool(confirmAnswer))
  {
    var enabled := Coalesce(Lookup(verificationConfig, "enabled"), VBool(false));
    var sendCopy := if Truthy(enabled) then true else confirmAnswer;
    var m := [("from_email", fromEmail), ("from_name", fromName),
              ("subject_prefix", subjectPrefix), ("send_copy_to_sender", VBool(sendCopy))];
    assert UniqueKeys(m);
    LookupUnique(m, 0);
    LookupUnique(m, 1);
    LookupUnique(m, 2);
    LookupUnique(m, 3);
    m
  }

  /** Verification chosen in the wizard forces the copy to the sender, whatever was answered. */
  lemma VerificationForcesCopy(storageMode: string, confirmVerification: bool, ttl: Option<string>,
                               fromEmail: Value, fromName: Value, subjectPrefix: Value, confirmCopy: bool)
    ensures var a := AskEmailVerification(storageMode, confirmVerification, ttl);
      var m := AskMailerConfiguration(VerificationConfig(a), fromEmail, fromName, subjectPrefix, confirmCopy);
      Lookup(m, "send_copy_to_sender") == Some(VBool(a.enabled || confirmCopy))
  {
    var a := AskEmailVerification(storageMode, confirmVerification, ttl);
    LookupUnique(VerificationConfig(a), 0);
  }
}
