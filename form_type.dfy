/** The contact form type: it turns the configured fields into form fields
    with Symfony options and validation constraints, then appends the hidden
    honeypot and timing fields. */
module FormType {
  import opened Php
  import opened PhpNumeric

  /** The form types a field's `type` tag can select. */
  datatype FieldType = TextType | EmailType | TextareaType | TelephoneType | UrlType | NumberType | ChoiceType

  /** The validation constraints a constraint name can select. */
  datatype ConstraintKind = NotBlank | EmailRule | Length | Range | Regex | UrlRule | ChoiceRule

  /** A constraint instance: its class and the options it was created with. */
  datatype Constraint = Constraint(kind: ConstraintKind, options: Value)

  /** A form option's value: configuration data, or the list of constraint objects. */
  datatype Setting = Plain(v: Value) | ConstraintList(cs: seq<Constraint>)

  type Options = seq<(string, Setting)>

  const TranslationDomain: string := "contact_us"
  const HoneypotField: string := "email_confirm"
  const TimingField: string := "_form_token_time"
  const CsrfFieldName: string := "_token"
  const CsrfTokenId: string := "contact_form"
  const BlockPrefix: string := "contact"

  /** The type map: the form type of each known tag. */
  function TypeOfTag(tag: string): Option<FieldType>
  {
    if tag == "text" then Some(TextType)
    else if tag == "email" then Some(EmailType)
    else if tag == "textarea" then Some(TextareaType)
    else if tag == "tel" then Some(TelephoneType)
    else if tag == "url" then Some(UrlType)
    else if tag == "number" then Some(NumberType)
    else if tag == "choice" then Some(ChoiceType)
    else None
  }

  /** The constraint map: the constraint of each known name. */
  function ConstraintOfName(name: string): Option<ConstraintKind>
  {
    if name == "NotBlank" then Some(NotBlank)
    else if name == "Email" then Some(EmailRule)
    else if name == "Length" then Some(Length)
    else if name == "Range" then Some(Range)
    else if name == "Regex" then Some(Regex)
    else if name == "Url" then Some(UrlRule)
    else if name == "Choice" then Some(ChoiceRule)
    else None
  }

  /** Exactly the seven tags and the seven names are known; distinct tags
      select distinct types, and distinct names distinct constraints. */
  lemma MapsExact(a: string, b: string)
    ensures TypeOfTag(a).Some? <==> a in {"text", "email", "textarea", "tel", "url", "number", "choice"}
    ensures ConstraintOfName(a).Some? <==> a in {"NotBlank", "Email", "Length", "Range", "Regex", "Url", "Choice"}
    ensures TypeOfTag(a).Some? && TypeOfTag(a) == TypeOfTag(b) ==> a == b
    ensures ConstraintOfName(a).Some? && ConstraintOfName(a) == ConstraintOfName(b) ==> a == b
  {
  }

  /** `TYPE_MAP[$config['type']] ?? TextType`: a missing, unknown or
      non-string tag gives a text field. */
  function FieldTypeOf(config: Fields): (t: FieldType)
    ensures Get(config, "type").VStr? && TypeOfTag(Get(config, "type").s).Some? ==>
      t == TypeOfTag(Get(config, "type").s).value
    ensures !(Get(config, "type").VStr? && TypeOfTag(Get(config, "type").s).Some?) ==> t == TextType
  {
    match Get(config, "type")
    case VStr(tag) => TypeOfTag(tag).GetOr(TextType)
    case _ => TextType
  }

  // ---------------------------------------------------------------------
  // Constraints

  /** Whether constraint c is the one built from entry `name => options`. */
  predicate FromEntry(c: Constraint, e: (string, Value)) {
    ConstraintOfName(e.0) == Some(c.kind) && c.options == Coalesce(Some(e.1), VArr([]))
  }

  /** The constraints one `name => options` entry yields: one for a known name, none otherwise. */
  function EntryConstraint(e: (string, Value)): (cs: seq<Constraint>)
    ensures forall c :: c in cs <==> FromEntry(c, e)
    ensures |cs| <= 1
  {
    match ConstraintOfName(e.0)
    case Some(k) => [Constraint(k, Coalesce(Some(e.1), VArr([])))]
    case None => []
  }

  /** The constraints of one configured constraint map, in order. */
  function MapConstraints(entries: Fields): seq<Constraint>
    decreases |entries|
  {
    if |entries| == 0 then []
    else MapConstraints(entries[..|entries| - 1]) + EntryConstraint(entries[|entries| - 1])
  }

  /** The entries of the array items of the constraint list, in order; any
      other item contributes nothing. */
  function ArrayEntries(items: Fields): Fields
    decreases |items|
  {
    if |items| == 0 then []
    else ArrayEntries(items[..|items| - 1]) + ItemEntries(items[|items| - 1].1)
  }

  function ItemEntries(item: Value): Fields {
    match item
    case VArr(entries) => entries
    case _ => []
  }

  /** buildConstraints: the constraints of every array item's entries, in order. */
  function ConstraintsOf(items: Fields): seq<Constraint> {
    MapConstraints(ArrayEntries(items))
  }

  lemma ConcatAssoc<T>(x: seq<T>, y: seq<T>, z: seq<T>)
    ensures (x + y) + z == x + (y + z)
  {
  }

  /** A constraint map yields exactly the constraints of its known names. */
  lemma {:induction false} MapConstraintsMembers(entries: Fields, c: Constraint)
    ensures c in MapConstraints(entries) <==> exists j :: 0 <= j < |entries| && FromEntry(c, entries[j])
    decreases |entries|
  {
    if |entries| > 0 {
      var n := |entries| - 1;
      var init := entries[..n];
      MapConstraintsMembers(init, c);
      assert forall j :: 0 <= j < n ==> init[j] == entries[j];
      if c in MapConstraints(entries) {
        if c in EntryConstraint(entries[n]) {
          assert FromEntry(c, entries[n]);
        } else {
          assert c in MapConstraints(init);
          var j :| 0 <= j < n && FromEntry(c, init[j]);
          assert FromEntry(c, entries[j]);
        }
      }
      if exists j :: 0 <= j < |entries| && FromEntry(c, entries[j]) {
        var j :| 0 <= j < |entries| && FromEntry(c, entries[j]);
        if j < n {
          assert FromEntry(c, init[j]);
        } else {
          assert c in EntryConstraint(entries[n]);
        }
      }
    }
  }

  lemma {:induction false} MapConstraintsConcat(x: Fields, y: Fields)
    ensures MapConstraints(x + y) == MapConstraints(x) + MapConstraints(y)
    decreases |y|
  {
    if |y| == 0 {
      assert x + y == x;
    } else {
      var n := |y| - 1;
      assert (x + y)[..|x + y| - 1] == x + y[..n];
      assert (x + y)[|x + y| - 1] == y[n];
      MapConstraintsConcat(x, y[..n]);
      ConcatAssoc(MapConstraints(x), MapConstraints(y[..n]), EntryConstraint(y[n]));
    }
  }

  /** An entry is collected exactly when it belongs to an array item. */
  lemma {:induction false} ArrayEntriesMembers(items: Fields, e: (string, Value))
    ensures e in ArrayEntries(items) <==>
      exists i :: 0 <= i < |items| && items[i].1.VArr? && e in items[i].1.entries
    decreases |items|
  {
    if |items| > 0 {
      var n := |items| - 1;
      var init := items[..n];
      ArrayEntriesMembers(init, e);
      assert forall i :: 0 <= i < n ==> init[i] == items[i];
      if e in ArrayEntries(items) && e !in ItemEntries(items[n].1) {
        var i :| 0 <= i < n && init[i].1.VArr? && e in init[i].1.entries;
        assert items[i].1.VArr? && e in items[i].1.entries;
      }
      if exists i :: 0 <= i < |items| && items[i].1.VArr? && e in items[i].1.entries {
        var i :| 0 <= i < |items| && items[i].1.VArr? && e in items[i].1.entries;
        if i < n {
          assert init[i].1.VArr? && e in init[i].1.entries;
        }
      }
    }
  }

  /** Unknown names and non-array items are dropped: a constraint is built
      exactly when some array item has an entry with a known name and those options. */
  lemma ConstraintOrigin(items: Fields, c: Constraint)
    ensures c in ConstraintsOf(items) <==>
      exists i, e :: 0 <= i < |items| && items[i].1.VArr? && e in items[i].1.entries && FromEntry(c, e)
  {
    var all := ArrayEntries(items);
    MapConstraintsMembers(all, c);
    if c in ConstraintsOf(items) {
      var j :| 0 <= j < |all| && FromEntry(c, all[j]);
      ArrayEntriesMembers(items, all[j]);
    }
    if exists i, e :: 0 <= i < |items| && items[i].1.VArr? && e in items[i].1.entries && FromEntry(c, e) {
      var i, e :| 0 <= i < |items| && items[i].1.VArr? && e in items[i].1.entries && FromEntry(c, e);
      ArrayEntriesMembers(items, e);
      var j :| 0 <= j < |all| && all[j] == e;
    }
  }

  /** Order is kept: the constraints of a concatenation are those of its parts, in turn. */
  lemma {:induction false} ConstraintsConcat(a: Fields, b: Fields)
    ensures ConstraintsOf(a + b) == ConstraintsOf(a) + ConstraintsOf(b)
    decreases |b|
  {
    if |b| == 0 {
      assert a + b == a;
    } else {
      var n := |b| - 1;
      assert (a + b)[..|a + b| - 1] == a + b[..n];
      assert (a + b)[|a + b| - 1] == b[n];
      ConstraintsConcat(a, b[..n]);
      MapConstraintsConcat(ArrayEntries(a + b[..n]), ItemEntries(b[n].1));
      MapConstraintsConcat(ArrayEntries(b[..n]), ItemEntries(b[n].1));
      ConcatAssoc(ConstraintsOf(a), ConstraintsOf(b[..n]), MapConstraints(ItemEntries(b[n].1)));
    }
  }

  // ---------------------------------------------------------------------
  // Field options

  /** `$config['options']['attr'] ?? []`. */
  function AttrOf(config: Fields): Value {
    match Get(config, "options")
    case VArr(o) => Coalesce(Lookup(o, "attr"), VArr([]))
    case _ => VArr([])
  }

  /** The base options every field gets. */
  function BaseOptions(config: Fields): (base: Options)
    ensures Keys(base) == ["required", "label", "translation_domain", "attr"]
    ensures Lookup(base, "required") == Some(Plain(Coalesce(Lookup(config, "required"), VBool(false))))
    ensures Lookup(base, "label") == Some(Plain(Coalesce(Lookup(config, "label"), VNull)))
    ensures Lookup(base, "translation_domain") == Some(Plain(VStr(TranslationDomain)))
    ensures Lookup(base, "attr") == Some(Plain(AttrOf(config)))
  {
    var b := [("required", Plain(Coalesce(Lookup(config, "required"), VBool(false)))),
              ("label", Plain(Coalesce(Lookup(config, "label"), VNull))),
              ("translation_domain", Plain(VStr(TranslationDomain))),
              ("attr", Plain(AttrOf(config)))];
    assert UniqueKeys(b);
    LookupUnique(b, 0);
    LookupUnique(b, 1);
    LookupUnique(b, 2);
    LookupUnique(b, 3);
    b
  }

  /** The copy loop: every option except 'attr' overwrites or extends the options. */
  function CopyOptions(options: Options, entries: Fields): Options
    decreases |entries|
  {
    if |entries| == 0 then options
    else
      var copied := CopyOptions(options, entries[..|entries| - 1]);
      var e := entries[|entries| - 1];
      if e.0 != "attr" then Put(copied, e.0, Plain(e.1)) else copied
  }

  /** The base options with config.options copied over them. */
  function CopiedOptions(config: Fields): Options {
    match Get(config, "options")
    case VArr(o) => CopyOptions(BaseOptions(config), o)
    case _ => BaseOptions(config)
  }

  /** The options of a field's configuration. */
  function FieldOptions(config: Fields): Options {
    var copied := CopiedOptions(config);
    match Get(config, "constraints")
    case VArr(items) => Put(copied, "constraints", ConstraintList(ConstraintsOf(items)))
    case _ => copied
  }

  /** The two steps of FieldOptions. */
  lemma FieldOptionsSteps(config: Fields)
    ensures Get(config, "constraints").VArr? ==>
      FieldOptions(config) == Put(CopiedOptions(config), "constraints", ConstraintList(ConstraintsOf(Get(config, "constraints").entries)))
    ensures !Get(config, "constraints").VArr? ==> FieldOptions(config) == CopiedOptions(config)
  {
  }

  /** Copying keeps the keys already there, in place. */
  lemma {:induction false} CopyKeepsKeys(options: Options, entries: Fields)
    ensures |CopyOptions(options, entries)| >= |options|
    ensures forall i :: 0 <= i < |options| ==> CopyOptions(options, entries)[i].0 == options[i].0
    decreases |entries|
  {
    if |entries| > 0 {
      CopyKeepsKeys(options, entries[..|entries| - 1]);
    }
  }

  /** After copying, an option key holds the copied value, unless it is 'attr'
      or absent from the copied entries, in which case it is what it was. */
  lemma {:induction false} CopyOptionsLookup(options: Options, entries: Fields, k: string)
    requires UniqueKeys(entries)
    ensures k != "attr" ==> forall i :: 0 <= i < |entries| && entries[i].0 == k ==>
      Lookup(CopyOptions(options, entries), k) == Some(Plain(entries[i].1))
    ensures k == "attr" || !HasKey(entries, k) ==> Lookup(CopyOptions(options, entries), k) == Lookup(options, k)
    decreases |entries|
  {
    if |entries| > 0 {
      var n := |entries| - 1;
      var init := entries[..n];
      assert forall i :: 0 <= i < n ==> init[i] == entries[i];
      assert UniqueKeys(init);
      CopyOptionsLookup(options, init, k);
      var e := entries[n];
      if e.0 == k {
        forall i | 0 <= i < |entries| && entries[i].0 == k ensures i == n {
        }
      } else {
        assert HasKey(entries, k) ==> HasKey(init, k) by {
          if HasKey(entries, k) {
            var i :| 0 <= i < |entries| && entries[i].0 == k;
            assert init[i].0 == k;
          }
        }
        assert HasKey(init, k) ==> HasKey(entries, k) by {
          if HasKey(init, k) {
            var i :| 0 <= i < n && init[i].0 == k;
            assert entries[i].0 == k;
          }
        }
      }
    }
  }

  /** What each option of a field holds:
      - 'constraints' holds the built constraints when config.constraints is an array;
      - an option configured under config.options (other than 'attr') holds the configured value;
      - any other key holds its base value, or is absent. */
  lemma FieldOptionsLookup(config: Fields, k: string)
    requires Get(config, "options").VArr? ==> UniqueKeys(Get(config, "options").entries)
    ensures var r := FieldOptions(config);
      && (Get(config, "constraints").VArr? ==>
            Lookup(r, "constraints") == Some(ConstraintList(ConstraintsOf(Get(config, "constraints").entries))))
      && (k != "constraints" || !Get(config, "constraints").VArr? ==>
            && (Get(config, "options").VArr? && k != "attr" ==>
                  forall i :: 0 <= i < |Get(config, "options").entries| && Get(config, "options").entries[i].0 == k ==>
                    Lookup(r, k) == Some(Plain(Get(config, "options").entries[i].1)))
            && (!Get(config, "options").VArr? || k == "attr" || !HasKey(Get(config, "options").entries, k) ==>
                  Lookup(r, k) == Lookup(BaseOptions(config), k)))
  {
    var base := BaseOptions(config);
    match Get(config, "options")
    case VArr(o) => CopyOptionsLookup(base, o, k);
    case _ =>
  }

  /** The constraints option is present exactly when config.constraints is
      an array, or config.options itself carries a 'constraints' entry. */
  lemma ConstraintsOptionPresent(config: Fields)
    requires Get(config, "options").VArr? ==> UniqueKeys(Get(config, "options").entries)
    ensures HasKey(FieldOptions(config), "constraints") <==>
      Get(config, "constraints").VArr? ||
      (Get(config, "options").VArr? && HasKey(Get(config, "options").entries, "constraints"))
  {
    FieldOptionsLookup(config, "constraints");
    if !Get(config, "constraints").VArr? {
      var options := Get(config, "options");
      if options.VArr? && HasKey(options.entries, "constraints") {
        var o := options.entries;
        var i :| 0 <= i < |o| && o[i].0 == "constraints";
        assert Lookup(FieldOptions(config), "constraints") == Some(Plain(o[i].1));
      } else {
        BaseLacksConstraints(config);
      }
    }
  }

  /** No base option is named 'constraints'. */
  lemma BaseLacksConstraints(config: Fields)
    ensures Lookup(BaseOptions(config), "constraints") == None
  {
    var base := BaseOptions(config);
    if HasKey(base, "constraints") {
      var i :| 0 <= i < |base| && base[i].0 == "constraints";
      assert Keys(base)[i] == "constraints";
      NotABaseKey(i);
    }
  }

  lemma NotABaseKey(i: int)
    requires 0 <= i < 4
    ensures ["required", "label", "translation_domain", "attr"][i] != "constraints"
  {
    var ks := ["required", "label", "translation_domain", "attr"];
    assert ks[i][0] != 'c';
  }

  /** The four base options stay first, in order. */
  lemma BaseKeysFirst(config: Fields)
    ensures |FieldOptions(config)| >= 4
    ensures Keys(FieldOptions(config))[..4] == ["required", "label", "translation_domain", "attr"]
  {
    CopiedKeysFirst(config);
    ConstrainedKeepsKeys(config);
    var r := FieldOptions(config);
    var copied := CopiedOptions(config);
    assert Keys(r)[..4] == Keys(r)[..|copied|][..4];
  }

  /** Copying config.options keeps the base keys first. */
  lemma CopiedKeysFirst(config: Fields)
    ensures |CopiedOptions(config)| >= 4
    ensures Keys(CopiedOptions(config))[..4] == ["required", "label", "translation_domain", "attr"]
  {
    var base := BaseOptions(config);
    match Get(config, "options") {
      case VArr(o) => CopyKeepsKeys(base, o);
      case _ =>
    }
    KeysPrefix(base, CopiedOptions(config));
  }

  /** Setting 'constraints' keeps the copied keys in place. */
  lemma ConstrainedKeepsKeys(config: Fields)
    ensures |FieldOptions(config)| >= |CopiedOptions(config)|
    ensures Keys(FieldOptions(config))[..|CopiedOptions(config)|] == Keys(CopiedOptions(config))
  {
    match Get(config, "constraints") {
      case VArr(items) =>
        PutKeysPrefix(CopiedOptions(config), "constraints", ConstraintList(ConstraintsOf(items)));
      case _ =>
    }
  }

  /** An options array whose keys start as another's starts with that one's keys. */
  lemma KeysPrefix(a: Options, b: Options)
    requires |b| >= |a| && forall i :: 0 <= i < |a| ==> b[i].0 == a[i].0
    ensures Keys(b)[..|a|] == Keys(a)
  {
    assert forall i :: 0 <= i < |a| ==> Keys(b)[i] == Keys(a)[i];
  }

  // ---------------------------------------------------------------------
  // The form

  /** A form child: its type and options. */
  datatype Child = Child(fieldType: FieldType, options: Options)

  /** The builder's children in order, keyed by name. */
  class FormBuilder {
    var children: seq<(string, Child)>

    constructor()
      ensures children == []
    {
      children := [];
    }

    /** `add()`: a new name is appended; an existing name is replaced in place. */
    method Add(name: string, fieldType: FieldType, options: Options)
      modifies this
      ensures children == Put(old(children), name, Child(fieldType, options))
    {
      children := Put(children, name, Child(fieldType, options));
    }
  }

  /** The honeypot field: unmapped, optional, hidden from people. */
  function HoneypotChild(): (c: Child)
    ensures c.fieldType == TextType
    ensures Lookup(c.options, "mapped") == Some(Plain(VBool(false)))
    ensures Lookup(c.options, "required") == Some(Plain(VBool(false)))
  {
    var o := [("mapped", Plain(VBool(false))),
              ("required", Plain(VBool(false))),
              ("attr", Plain(VArr([("class", VStr("contact-honeypot")), ("tabindex", VStr("-1")),
                                   ("autocomplete", VStr("off")), ("aria-hidden", VStr("true"))])))];
    assert UniqueKeys(o);
    LookupUnique(o, 0);
    LookupUnique(o, 1);
    Child(TextType, o)
  }

  /** The timing field: unmapped, optional, pre-filled with `(string) now`. */
  function TimingChild(now: int): (c: Child)
    ensures c.fieldType == TextType
    ensures Lookup(c.options, "mapped") == Some(Plain(VBool(false)))
    ensures Lookup(c.options, "required") == Some(Plain(VBool(false)))
    ensures Lookup(c.options, "data") == Some(Plain(VStr(IntToDecimal(now))))
  {
    var o := [("mapped", Plain(VBool(false))),
              ("required", Plain(VBool(false))),
              ("attr", Plain(VArr([("class", VStr("contact-timing-token"))]))),
              ("data", Plain(VStr(IntToDecimal(now))))];
    assert UniqueKeys(o);
    LookupUnique(o, 0);
    LookupUnique(o, 1);
    LookupUnique(o, 3);
    Child(TextType, o)
  }

  /** The child a field's configuration describes. */
  function ChildOf(config: Fields): Child {
    Child(FieldTypeOf(config), FieldOptions(config))
  }

  /** The configured fields as form children, in config order. */
  function Configured(fields: seq<(string, Fields)>): (cs: seq<(string, Child)>)
    ensures |cs| == |fields|
    ensures forall i :: 0 <= i < |fields| ==> cs[i] == (fields[i].0, ChildOf(fields[i].1))
  {
    seq(|fields|, i requires 0 <= i < |fields| => (fields[i].0, ChildOf(fields[i].1)))
  }

  /** The children buildForm leaves in the builder. */
  function FormChildren(children: seq<(string, Child)>, fields: seq<(string, Fields)>, now: int): seq<(string, Child)> {
    Put(Put(PutAll(children, Configured(fields)), HoneypotField, HoneypotChild()), TimingField, TimingChild(now))
  }

  /** buildForm's form: from an empty builder with distinct names, none of
      them a hidden field's, the configured fields in order, each with the type
      and options of its config, then the honeypot and timing fields. */
  lemma FormLayout(fields: seq<(string, Fields)>, now: int)
    requires forall i, j :: 0 <= i < j < |fields| ==> fields[i].0 != fields[j].0
    requires forall i :: 0 <= i < |fields| ==> fields[i].0 != HoneypotField && fields[i].0 != TimingField
    ensures var r := FormChildren([], fields, now);
      && |r| == |fields| + 2
      && (forall i :: 0 <= i < |fields| ==> r[i] == (fields[i].0, ChildOf(fields[i].1)))
      && r[|fields|] == (HoneypotField, HoneypotChild())
      && r[|fields| + 1] == (TimingField, TimingChild(now))
  {
    var c := Configured(fields);
    assert UniqueKeys(c);
    PutAllFresh(c);
    PutTwoFreshAppends(c, HoneypotField, HoneypotChild(), TimingField, TimingChild(now));
  }

  /** Whatever was configured, the form ends up with the honeypot and
      timing fields: they are written last, so they replace a configured
      field of the same name. */
  lemma HiddenFieldsAlwaysPresent(children: seq<(string, Child)>, fields: seq<(string, Fields)>, now: int)
    ensures Lookup(FormChildren(children, fields, now), HoneypotField) == Some(HoneypotChild())
    ensures Lookup(FormChildren(children, fields, now), TimingField) == Some(TimingChild(now))
  {
  }

  /** The timing field's data is a numeric string that the timing check
      casts back to the render time. */
  lemma TimingDataReadsBack(now: int)
    ensures var data := Lookup(TimingChild(now).options, "data").value.v;
      IsNumeric(data) && IntCast(data) == now
  {
    IntCastOfDecimal(now);
  }

  /** The form type over the configured fields. */
  class ContactFormType {
    const fieldsConfig: seq<(string, Fields)>

    constructor(fieldsConfig: seq<(string, Fields)>)
      ensures this.fieldsConfig == fieldsConfig
    {
      this.fieldsConfig := fieldsConfig;
    }

    /** buildConstraints: the outer loop over the items of the constraint list. */
    static method BuildConstraints(items: Fields) returns (cs: seq<Constraint>)
      ensures cs == ConstraintsOf(items)
    {
      cs := [];
      var i := 0;
      while i < |items|
        invariant 0 <= i <= |items|
        invariant cs == MapConstraints(ArrayEntries(items[..i]))
      {
        assert items[..i + 1][..i] == items[..i];
        ghost var done := ArrayEntries(items[..i]);
        match items[i].1 {
          case VArr(entries) =>
            cs := AddMapConstraints(cs, done, entries);
            assert ArrayEntries(items[..i + 1]) == done + entries;
          case _ =>
            assert ArrayEntries(items[..i + 1]) == done + [];
            assert done + [] == done;
        }
        i := i + 1;
      }
      assert items[..|items|] == items;
    }

    /** buildConstraints' inner loop over one constraint map's `name => options` entries. */
    static method AddMapConstraints(cs0: seq<Constraint>, ghost done: Fields, entries: Fields) returns (cs: seq<Constraint>)
      requires cs0 == MapConstraints(done)
      ensures cs == MapConstraints(done + entries)
    {
      cs := cs0;
      var j := 0;
      assert done + entries[..0] == done;
      while j < |entries|
        invariant 0 <= j <= |entries|
        invariant cs == MapConstraints(done + entries[..j])
      {
        ghost var next := done + entries[..j + 1];
        assert next[..|next| - 1] == done + entries[..j];
        assert next[|next| - 1] == entries[j];
        assert MapConstraints(next) == cs + EntryConstraint(entries[j]);
        var name := entries[j].0;
        match ConstraintOfName(name) {
          case Some(k) => cs := cs + [Constraint(k, Coalesce(Some(entries[j].1), VArr([])))];
          case None =>
        }
        j := j + 1;
      }
      assert entries[..|entries|] == entries;
    }

    /** buildFieldOptions: the base options, the copy loop, then the constraints. */
    static method BuildFieldOptions(config: Fields) returns (options: Options)
      ensures options == FieldOptions(config)
    {
      options := BaseOptions(config);
      match Get(config, "options") {
        case VArr(o) => options := CopyEntries(options, o);
        case _ =>
      }
      assert options == CopiedOptions(config);
      FieldOptionsSteps(config);
      match Get(config, "constraints") {
        case VArr(items) =>
          var cs := BuildConstraints(items);
          options := Put(options, "constraints", ConstraintList(cs));
        case _ =>
      }
    }

    /** buildFieldOptions' copy loop over config.options. */
    static method CopyEntries(base: Options, o: Fields) returns (options: Options)
      ensures options == CopyOptions(base, o)
    {
      options := base;
      var i := 0;
      while i < |o|
        invariant 0 <= i <= |o|
        invariant options == CopyOptions(base, o[..i])
      {
        assert o[..i + 1][..i] == o[..i];
        if o[i].0 != "attr" {
          options := Put(options, o[i].0, Plain(o[i].1));
        }
        i := i + 1;
      }
      assert o[..|o|] == o;
    }

    /** buildForm: each configured field, then the honeypot and timing fields. */
    method BuildForm(builder: FormBuilder, now: int)
      modifies builder
      ensures builder.children == FormChildren(old(builder.children), fieldsConfig, now)
    {
      AddConfiguredFields(builder);
      assert Child(TextType, HoneypotChild().options) == HoneypotChild();
      assert Child(TextType, TimingChild(now).options) == TimingChild(now);
      builder.Add(HoneypotField, TextType, HoneypotChild().options);
      builder.Add(TimingField, TextType, TimingChild(now).options);
    }

    /** buildForm's loop: one child per configured field, in config order. */
    method AddConfiguredFields(builder: FormBuilder)
      modifies builder
      ensures builder.children == PutAll(old(builder.children), Configured(fieldsConfig))
    {
      ghost var start := builder.children;
      ghost var configured := Configured(fieldsConfig);
      var i := 0;
      while i < |fieldsConfig|
        invariant 0 <= i <= |fieldsConfig|
        invariant builder.children == PutAll(start, configured[..i])
      {
        ghost var next := configured[..i + 1];
        assert next[..|next| - 1] == configured[..i];
        assert next[|next| - 1] == configured[i] == (fieldsConfig[i].0, ChildOf(fieldsConfig[i].1));
        var name := fieldsConfig[i].0;
        var config := fieldsConfig[i].1;
        var options := BuildFieldOptions(config);
        builder.Add(name, FieldTypeOf(config), options);
        i := i + 1;
      }
      assert configured[..|fieldsConfig|] == configured;
    }

    /** configureOptions: CSRF protection on, with the field name and token id. */
    function DefaultOptions(): (d: Options)
      ensures Lookup(d, "csrf_field_name") == Some(Plain(VStr(CsrfFieldName)))
      ensures Lookup(d, "csrf_protection") == Some(Plain(VBool(true)))
      ensures Lookup(d, "csrf_token_id") == Some(Plain(VStr(CsrfTokenId)))
    {
      var d := [("csrf_protection", Plain(VBool(true))),
                ("csrf_field_name", Plain(VStr(CsrfFieldName))),
                ("csrf_token_id", Plain(VStr(CsrfTokenId)))];
      assert UniqueKeys(d);
      LookupUnique(d, 0);
      LookupUnique(d, 1);
      LookupUnique(d, 2);
      d
    }

    /** The form's block prefix. */
    function GetBlockPrefix(): (prefix: string)
      ensures prefix == "contact"
    {
      BlockPrefix
    }
  }
}
