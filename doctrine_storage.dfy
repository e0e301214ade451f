/** Storage through Doctrine. The entity manager and its database are
    modelled as an in-memory table of rows with an identity generator and
    the unique index on the bundle entity's verification_token column. A
    storage instance maps messages either to the bundle's own entity or to
    an application entity class described by the methods it declares. */
module DoctrineStorage {
  import opened Php
  import opened Message
  import opened Entity

  // ---------------------------------------------------------------------
  // Entity classes

  /** The entity class of a storage: the bundle's ContactMessageEntity, or
      an application class known by the lower-cased names of its methods. */
  datatype EntityClass = BundleEntity | CustomEntity(methods: set<string>)

  /** method_exists() for a computed name: PHP method names are
      case-insensitive, so the class's names are held lower-cased. The
      fixed names below are written lower-cased for the same reason. */
  predicate MethodExists(methods: set<string>, name: string) {
    LowerStr(name) in methods
  }

  /** ucwords($key, '_'): upper-case the first character and every
      character that follows an underscore. */
  function UcwordsUnderscore(s: string): (r: string)
    ensures |r| == |s|
    ensures forall i :: 0 <= i < |s| ==>
      r[i] == (if i == 0 || s[i - 1] == '_' then Upper(s[i]) else s[i])
  {
    seq(|s|, i requires 0 <= i < |s| => if i == 0 || s[i - 1] == '_' then Upper(s[i]) else s[i])
  }

  /** str_replace('_', '', $s) */
  function RemoveUnderscores(s: string): (r: string)
    ensures forall i :: 0 <= i < |r| ==> r[i] != '_'
    ensures |r| <= |s|
  {
    if |s| == 0 then ""
    else if s[0] == '_' then RemoveUnderscores(s[1..])
    else [s[0]] + RemoveUnderscores(s[1..])
  }

  /** The setter the custom mapping calls for a data key. */
  function SetterName(key: string): (r: string)
    ensures |r| >= 3 && r[..3] == "set"
  {
    "set" + RemoveUnderscores(UcwordsUnderscore(key))
  }

  /** The property a setter writes: the lower-cased part after "set". */
  function SetterProperty(setter: string): string
    requires |setter| >= 3
  {
    LowerStr(setter[3..])
  }

  lemma LowerOfUpper(c: char)
    ensures Lower(Upper(c)) == Lower(c)
  {
  }

  /** Lower-casing ignores the case pattern of a character sequence. */
  lemma {:induction false} LowerRemoveCommutes(s: string, t: string)
    requires |s| == |t|
    requires forall i :: 0 <= i < |s| ==> Lower(s[i]) == Lower(t[i])
    ensures LowerStr(RemoveUnderscores(s)) == LowerStr(RemoveUnderscores(t))
  {
    if |s| > 0 {
      assert (s[0] == '_') == (t[0] == '_') by {
        assert Lower(s[0]) == Lower(t[0]);
      }
      LowerRemoveCommutes(s[1..], t[1..]);
      if s[0] != '_' {
        assert LowerStr([s[0]] + RemoveUnderscores(s[1..])) ==
          [Lower(s[0])] + LowerStr(RemoveUnderscores(s[1..]));
        assert LowerStr([t[0]] + RemoveUnderscores(t[1..])) ==
          [Lower(t[0])] + LowerStr(RemoveUnderscores(t[1..]));
      }
    }
  }

  /** Which setter the mapping looks for, up to case: "set" followed by the
      key without underscores. So "first_name", "firstName" and "FirstName"
      all reach setFirstName(). */
  lemma SetterNameLower(key: string)
    ensures LowerStr(SetterName(key)) == "set" + LowerStr(RemoveUnderscores(key))
    ensures SetterProperty(SetterName(key)) == LowerStr(RemoveUnderscores(key))
  {
    var u := UcwordsUnderscore(key);
    forall i | 0 <= i < |key| ensures Lower(u[i]) == Lower(key[i]) {
      LowerOfUpper(key[i]);
    }
    LowerRemoveCommutes(u, key);
    var r := SetterName(key);
    assert r == "set" + RemoveUnderscores(u);
    assert r[3..] == RemoveUnderscores(u);
    LowerConcat("set", RemoveUnderscores(u));
    assert LowerStr("set") == "set";
  }

  // ---------------------------------------------------------------------
  // Rows and the database

  /** A stored row: a bundle entity, or a custom entity's properties keyed
      by the lower-cased property name its setters write. */
  datatype Row = BundleRow(e: EntityState) | CustomRow(id: int, props: map<string, Value>)

  function RowId(row: Row): int {
    match row
    case BundleRow(e) => e.id.GetOr(0)
    case CustomRow(id, _) => id
  }

  /** The unique verification token of a bundle row. */
  function BundleToken(row: Row): Option<string> {
    if row.BundleRow? then row.e.verificationToken else None
  }

  function WithId(row: Row, id: int): (r: Row)
    ensures RowId(r) == id && r.BundleRow? == row.BundleRow?
  {
    match row
    case BundleRow(e) => BundleRow(e.(id := Some(id)))
    case CustomRow(_, p) => CustomRow(id, p)
  }

  /** The database: its rows in insertion order, the next generated id and
      whether the connection works. */
  datatype Db = Db(rows: seq<Row>, nextId: int, online: bool)

  /** What the database guarantees: generated ids are positive, increase in
      row order and stay below the next id, and no two bundle rows share a
      verification token. */
  ghost predicate Valid(db: Db) {
    && db.nextId >= 1
    && (forall i :: 0 <= i < |db.rows| && db.rows[i].BundleRow? ==> db.rows[i].e.id.Some?)
    && (forall i :: 0 <= i < |db.rows| ==> 1 <= RowId(db.rows[i]) < db.nextId)
    && (forall i, j :: 0 <= i < j < |db.rows| ==> RowId(db.rows[i]) < RowId(db.rows[j]))
    && (forall i, j :: 0 <= i < j < |db.rows| && BundleToken(db.rows[i]).Some? ==>
          BundleToken(db.rows[i]) != BundleToken(db.rows[j]))
  }

  /** A property read: the stored value, if the property was written. */
  function Prop(props: map<string, Value>, property: string): Option<Value> {
    if property in props then Some(props[property]) else None
  }

  /** The first row satisfying p. */
  function FirstIndex(rows: seq<Row>, p: Row -> bool): (r: Option<nat>)
    ensures r.Some? ==> r.value < |rows| && p(rows[r.value])
    ensures r.Some? ==> forall j :: 0 <= j < r.value ==> !p(rows[j])
    ensures r.None? ==> forall j :: 0 <= j < |rows| ==> !p(rows[j])
  {
    if |rows| == 0 then None
    else if p(rows[0]) then Some(0)
    else
      match FirstIndex(rows[1..], p)
      case None => None
      case Some(k) => Some(k + 1)
  }

  /** `find($id)` on the repository of a class. */
  function FindRowById(rows: seq<Row>, bundle: bool, id: int): Option<nat> {
    FirstIndex(rows, (r: Row) => r.BundleRow? == bundle && RowId(r) == id)
  }

  /** `findOneBy(['verificationToken' => $token])` on the repository of a class. */
  function FindRowByToken(rows: seq<Row>, bundle: bool, token: string): Option<nat> {
    FirstIndex(rows, (r: Row) =>
      if bundle then BundleToken(r) == Some(token)
      else r.CustomRow? && Prop(r.props, "verificationtoken") == Some(VStr(token)))
  }

  /** Whether a bundle row other than row k holds the token. */
  predicate TokenHeldElsewhere(rows: seq<Row>, token: string, k: int) {
    exists i :: 0 <= i < |rows| && i != k && BundleToken(rows[i]) == Some(token)
  }

  datatype StorageError = Unavailable | ConnectionLost | DuplicateToken

  /** The result of a flush: the new database and the row's id, or an error
      that leaves the database unchanged. */
  datatype Write = Written(db: Db, id: int) | Rejected(error: StorageError)

  /** persist() and flush() of a new entity: an INSERT with a generated id,
      refused when the connection is down or the unique index is violated. */
  function Insert(db: Db, row: Row): (w: Write)
    ensures w.Written? ==> w.id == db.nextId && w.db.online == db.online
  {
    if !db.online then Rejected(ConnectionLost)
    else if BundleToken(row).Some? && TokenHeldElsewhere(db.rows, BundleToken(row).value, -1) then
      Rejected(DuplicateToken)
    else Written(db.(rows := db.rows + [WithId(row, db.nextId)], nextId := db.nextId + 1), db.nextId)
  }

  /** flush() of a change to the managed bundle entity in row k: an UPDATE.
      Only row k changes; it takes the entity's columns under its own id,
      and the id counter stays. It is refused when the connection is down,
      or when another row holds the entity's token. */
  function Update(db: Db, k: nat, e: EntityState): (w: Write)
    requires k < |db.rows|
    ensures !db.online ==> w == Rejected(ConnectionLost)
    ensures w.Rejected? && db.online ==>
      w.error == DuplicateToken && e.verificationToken.Some? && TokenHeldElsewhere(db.rows, e.verificationToken.value, k)
    ensures w.Written? ==>
      && w.id == RowId(db.rows[k]) && w.db.nextId == db.nextId && w.db.online
      && |w.db.rows| == |db.rows| && w.db.rows[k] == BundleRow(e.(id := Some(w.id)))
      && (forall i :: 0 <= i < |db.rows| && i != k ==> w.db.rows[i] == db.rows[i])
  {
    if !db.online then Rejected(ConnectionLost)
    else if e.verificationToken.Some? && TokenHeldElsewhere(db.rows, e.verificationToken.value, k) then
      Rejected(DuplicateToken)
    else
      var id := RowId(db.rows[k]);
      Written(db.(rows := db.rows[k := BundleRow(e.(id := Some(id)))]), id)
  }

  /** Saving a bundle entity by identity: an UPDATE of the stored row with
      the entity's id when there is one, an INSERT otherwise. */
  function Upsert(db: Db, e: EntityState): (w: Write)
    ensures e.id.None? || FindRowById(db.rows, true, e.id.value).None? ==> w == Insert(db, BundleRow(e))
    ensures e.id.Some? && FindRowById(db.rows, true, e.id.value).Some? && w.Written? ==>
      && w.id == e.id.value && |w.db.rows| == |db.rows| && w.db.nextId == db.nextId
      && w.db.rows[FindRowById(db.rows, true, e.id.value).value] == BundleRow(e)
  {
    if e.id.Some? then
      match FindRowById(db.rows, true, e.id.value)
      case Some(k) => Update(db, k, e)
      case None => Insert(db, BundleRow(e))
    else Insert(db, BundleRow(e))
  }

  lemma {:induction false} InsertKeepsValid(db: Db, row: Row)
    requires Valid(db) && Insert(db, row).Written?
    ensures Valid(Insert(db, row).db)
  {
    var w := Insert(db, row);
    var rows := w.db.rows;
    assert rows == db.rows + [WithId(row, db.nextId)];
    forall i, j | 0 <= i < j < |rows| && BundleToken(rows[i]).Some?
      ensures BundleToken(rows[i]) != BundleToken(rows[j])
    {
      if j == |db.rows| {
        assert rows[i] == db.rows[i];
        assert BundleToken(rows[j]) == BundleToken(row);
        if BundleToken(row).Some? {
          assert !TokenHeldElsewhere(db.rows, BundleToken(row).value, -1);
          assert BundleToken(db.rows[i]) != BundleToken(row);
        }
      }
    }
  }

  lemma {:induction false} UpdateKeepsValid(db: Db, k: nat, e: EntityState)
    requires Valid(db) && k < |db.rows| && Update(db, k, e).Written?
    ensures Valid(Update(db, k, e).db)
    ensures |Update(db, k, e).db.rows| == |db.rows|
    ensures forall i :: 0 <= i < |db.rows| ==> RowId(Update(db, k, e).db.rows[i]) == RowId(db.rows[i])
  {
    var rows := Update(db, k, e).db.rows;
    forall i | 0 <= i < |db.rows| ensures RowId(rows[i]) == RowId(db.rows[i]) {
    }
    forall i, j | 0 <= i < j < |rows| && BundleToken(rows[i]).Some?
      ensures BundleToken(rows[i]) != BundleToken(rows[j])
    {
      if i == k {
        assert !TokenHeldElsewhere(db.rows, e.verificationToken.value, k);
        assert BundleToken(rows[j]) == BundleToken(db.rows[j]);
      } else if j == k {
        assert BundleToken(rows[i]) == BundleToken(db.rows[i]);
        if e.verificationToken.Some? {
          assert !TokenHeldElsewhere(db.rows, e.verificationToken.value, k);
        }
      }
    }
  }

  lemma {:induction false} UpsertKeepsValid(db: Db, e: EntityState)
    requires Valid(db) && Upsert(db, e).Written?
    ensures Valid(Upsert(db, e).db)
  {
    if e.id.Some? && FindRowById(db.rows, true, e.id.value).Some? {
      UpdateKeepsValid(db, FindRowById(db.rows, true, e.id.value).value, e);
    } else {
      InsertKeepsValid(db, BundleRow(e));
    }
  }

  /** In a valid database a generated id names at most one row. */
  lemma {:induction false} IdsIdentifyRows(db: Db, i: int, j: int)
    requires Valid(db) && 0 <= i < |db.rows| && 0 <= j < |db.rows|
    requires RowId(db.rows[i]) == RowId(db.rows[j])
    ensures i == j
  {
  }

  // ---------------------------------------------------------------------
  // Mapping messages to rows and rows to messages

  /** A nullable string as a PHP value. */
  function OptValue(o: Option<string>): Value {
    match o
    case Some(s) => VStr(s)
    case None => VNull
  }

  /** A PHP value read back as a nullable string. */
  function ValueOpt(v: Value): Option<string> {
    if v.VStr? then Some(v.s) else None
  }

  /** The properties the per-key setters write, in data order. */
  function SetterProps(data: Fields, methods: set<string>): map<string, Value>
    decreases |data|
  {
    if |data| == 0 then map[]
    else
      var props := SetterProps(data[..|data| - 1], methods);
      var setter := SetterName(data[|data| - 1].0);
      if MethodExists(methods, setter) then props[SetterProperty(setter) := data[|data| - 1].1]
      else props
  }

  /** Whether the setter of data key k exists and writes property p. */
  predicate Writes(k: string, methods: set<string>, p: string) {
    MethodExists(methods, SetterName(k)) && SetterProperty(SetterName(k)) == p
  }

  /** What appending one key does to the properties. */
  lemma SetterPropsStep(data: Fields, methods: set<string>, p: string)
    requires |data| > 0
    ensures var init := SetterProps(data[..|data| - 1], methods);
      var k := data[|data| - 1].0;
      && (p in SetterProps(data, methods) <==> Writes(k, methods, p) || p in init)
      && (Writes(k, methods, p) ==> SetterProps(data, methods)[p] == data[|data| - 1].1)
      && (!Writes(k, methods, p) && p in init ==> SetterProps(data, methods)[p] == init[p])
  {
  }

  /** Key i is the last whose setter writes p. */
  predicate LastWriter(data: Fields, methods: set<string>, p: string, i: int) {
    && 0 <= i < |data| && Writes(data[i].0, methods, p)
    && forall j :: i < j < |data| ==> !Writes(data[j].0, methods, p)
  }

  lemma LastWriterExtends(data: Fields, methods: set<string>, p: string, i: int)
    requires |data| > 0 && !Writes(data[|data| - 1].0, methods, p)
    requires LastWriter(data[..|data| - 1], methods, p, i)
    ensures LastWriter(data, methods, p, i)
  {
    var init := data[..|data| - 1];
    assert init[i] == data[i];
    forall j | i < j < |data| ensures !Writes(data[j].0, methods, p) {
      if j < |init| {
        assert init[j] == data[j];
      }
    }
  }

  lemma NoWriterExtends(data: Fields, init: Fields, methods: set<string>, p: string)
    requires |data| > 0 && init == data[..|data| - 1] && !Writes(data[|data| - 1].0, methods, p)
    requires forall i :: 0 <= i < |init| ==> !Writes(init[i].0, methods, p)
    ensures forall i :: 0 <= i < |data| ==> !Writes(data[i].0, methods, p)
  {
    forall i | 0 <= i < |init| ensures !Writes(data[i].0, methods, p) {
      assert init[i] == data[i];
    }
  }

  /** A property is set exactly when some key's setter writes it, and it
      holds the value of the last such key. */
  lemma {:induction false} SetterPropsLookup(data: Fields, methods: set<string>, p: string)
    ensures p in SetterProps(data, methods) <==> exists i :: 0 <= i < |data| && Writes(data[i].0, methods, p)
    ensures p in SetterProps(data, methods) ==> exists i ::
      LastWriter(data, methods, p, i) && SetterProps(data, methods)[p] == data[i].1
    decreases |data|
  {
    if |data| > 0 {
      var n := |data| - 1;
      var init := data[..n];
      SetterPropsLookup(init, methods, p);
      SetterPropsStep(data, methods, p);
      var props := SetterProps(data, methods);
      if Writes(data[n].0, methods, p) {
        assert LastWriter(data, methods, p, n) && props[p] == data[n].1;
      } else if p in SetterProps(init, methods) {
        var i :| LastWriter(init, methods, p, i) && SetterProps(init, methods)[p] == init[i].1;
        LastWriterExtends(data, methods, p, i);
        assert init[i] == data[i];
      } else {
        NoWriterExtends(data, init, methods, p);
      }
    }
  }

  /** The properties of the custom entity that save() builds. */
  function CustomProps(m: MessageState, methods: set<string>): map<string, Value> {
    var base := if "setdata" in methods then map["data" := VArr(m.data)]
                else SetterProps(m.data, methods);
    var withIp := if "setipaddress" in methods then base["ipaddress" := OptValue(m.ipAddress)]
                  else base;
    if "setuseragent" in methods then withIp["useragent" := OptValue(m.userAgent)]
    else withIp
  }

  /** The new row save() persists for a message. */
  function NewRow(cls: EntityClass, m: MessageState, now: int): Row {
    match cls
    case BundleEntity => BundleRow(ModelToEntity(m, now))
    case CustomEntity(methods) => CustomRow(0, CustomProps(m, methods))
  }

  /** Whether save() writes the generated id back into the message. */
  predicate WritesBackId(cls: EntityClass) {
    cls.BundleEntity? || "getid" in cls.methods
  }

  /** `$entity->getX() ?? ''` when the getter exists, '' otherwise. */
  function GetterOrBlank(props: map<string, Value>, methods: set<string>, getter: string, property: string): Value {
    if getter in methods then Coalesce(Prop(props, property), VStr("")) else VStr("")
  }

  /** The data findById() reads from a custom entity. */
  function CustomData(props: map<string, Value>, methods: set<string>): Fields {
    if "getdata" in methods then
      (match Prop(props, "data") case Some(VArr(entries)) => entries case _ => [])
    else
      [("name", GetterOrBlank(props, methods, "gettitle", "title")),
       ("email", GetterOrBlank(props, methods, "getemail", "email")),
       ("subject", GetterOrBlank(props, methods, "getsubtitle", "subtitle")),
       ("message", GetterOrBlank(props, methods, "getbody", "body")),
       ("phone", GetterOrBlank(props, methods, "getphone", "phone"))]
  }

  function PropString(props: map<string, Value>, property: string): Option<string> {
    match Prop(props, property)
    case Some(v) => ValueOpt(v)
    case None => None
  }

  /** The model findById() builds at time now from a custom row. */
  function CustomModel(id: int, props: map<string, Value>, methods: set<string>, now: int): MessageState {
    MessageState(
      if "getid" in methods then Some(id) else None,
      Some(now),
      CustomData(props, methods),
      if "getipaddress" in methods then PropString(props, "ipaddress") else None,
      if "getuseragent" in methods then PropString(props, "useragent") else None,
      true, None, None)
  }

  /** The model a row reads back as. */
  function RowModel(row: Row, cls: EntityClass, now: int): MessageState {
    match row
    case BundleRow(e) => EntityToModel(e)
    case CustomRow(id, props) => CustomModel(id, props, if cls.CustomEntity? then cls.methods else {}, now)
  }

  function FindByIdSpec(db: Db, cls: EntityClass, id: int, now: int): Option<MessageState> {
    match FindRowById(db.rows, cls.BundleEntity?, id)
    case Some(k) => Some(RowModel(db.rows[k], cls, now))
    case None => None
  }

  function FindByTokenSpec(db: Db, cls: EntityClass, token: string, now: int): Option<MessageState> {
    match FindRowByToken(db.rows, cls.BundleEntity?, token)
    case None => None
    case Some(k) =>
      if cls.BundleEntity? then Some(RowModel(db.rows[k], cls, now))
      else if "getid" in cls.methods then FindByIdSpec(db, cls, RowId(db.rows[k]), now)
      else None
  }

  // ---------------------------------------------------------------------
  // Properties of the mapping

  /** A bundle message saved into a valid database is found again by the id
      written back into it, with every field as saved. */
  lemma {:induction false} SavedBundleFoundById(db: Db, m: MessageState, now: int)
    requires Valid(db)
    requires Insert(db, NewRow(BundleEntity, m, now)).Written?
    ensures var w := Insert(db, NewRow(BundleEntity, m, now));
      FindByIdSpec(w.db, BundleEntity, w.id, now) ==
        Some(EntityToModel(ModelToEntity(m, now).(id := Some(w.id))))
  {
    var w := Insert(db, NewRow(BundleEntity, m, now));
    var rows := w.db.rows;
    var p := (r: Row) => r.BundleRow? == true && RowId(r) == w.id;
    assert rows == db.rows + [WithId(NewRow(BundleEntity, m, now), db.nextId)];
    assert p(rows[|db.rows|]);
    forall j | 0 <= j < |db.rows| ensures !p(rows[j]) {
      assert rows[j] == db.rows[j];
    }
    var k := FindRowById(rows, true, w.id);
    assert k == Some(|db.rows|);
  }

  /** A bundle message saved with a token is found again by that token. */
  lemma {:induction false} SavedBundleFoundByToken(db: Db, m: MessageState, now: int)
    requires Valid(db) && m.verificationToken.Some?
    requires Insert(db, NewRow(BundleEntity, m, now)).Written?
    ensures var w := Insert(db, NewRow(BundleEntity, m, now));
      FindByTokenSpec(w.db, BundleEntity, m.verificationToken.value, now) ==
        Some(EntityToModel(ModelToEntity(m, now).(id := Some(w.id))))
  {
    var w := Insert(db, NewRow(BundleEntity, m, now));
    var t := m.verificationToken.value;
    var rows := w.db.rows;
    assert rows == db.rows + [WithId(NewRow(BundleEntity, m, now), db.nextId)];
    assert BundleToken(rows[|db.rows|]) == Some(t);
    assert !TokenHeldElsewhere(db.rows, t, -1);
    forall j | 0 <= j < |db.rows| ensures BundleToken(rows[j]) != Some(t) {
      assert rows[j] == db.rows[j];
    }
    var k := FindRowByToken(rows, true, t);
    assert k == Some(|db.rows|);
  }

  /** A bundle message inserted with a token is found by it, and its
      verified copy then saves by identity into the same row. */
  lemma InsertedThenResaved(db: Db, m: MessageState, now: int, later: int)
    requires Valid(db) && m.verificationToken.Some?
    requires Insert(db, NewRow(BundleEntity, m, now)).Written?
    ensures var w := Insert(db, NewRow(BundleEntity, m, now));
      var saved := EntityToModel(ModelToEntity(m, now).(id := Some(w.id)));
      var v := saved.(verified := true, verifiedAt := Some(later));
      && FindByTokenSpec(w.db, BundleEntity, m.verificationToken.value, later) == Some(saved)
      && saved.id == Some(w.id)
      && Upsert(w.db, ModelToEntity(v, later)).Written? && Upsert(w.db, ModelToEntity(v, later)).id == w.id
  {
    var w := Insert(db, NewRow(BundleEntity, m, now));
    var e := ModelToEntity(m, now).(id := Some(w.id));
    SavedBundleFoundByToken(db, m, now);
    SavedBundleFoundByToken(db, m, later);
    InsertKeepsValid(db, NewRow(BundleEntity, m, now));
    var k := |db.rows|;
    assert w.db.rows[k] == BundleRow(e);
    ResaveByIdentityUpdates(w.db, k, later, later);
  }

  /** With setData(), getData() and getId() a custom entity keeps the
      message's data and writes back and reads its id. */
  lemma CustomDataRoundTrip(id: int, m: MessageState, methods: set<string>, now: int)
    requires "setdata" in methods && "getdata" in methods
    requires "getid" in methods
    ensures CustomModel(id, CustomProps(m, methods), methods, now).data == m.data
    ensures CustomModel(id, CustomProps(m, methods), methods, now).id == Some(id)
  {
  }

  // ---------------------------------------------------------------------
  // The entity manager and the storage

  class EntityManager {
    var db: Db

    constructor (online: bool)
      ensures db == Db([], 1, online)
    {
      db := Db([], 1, online);
    }

    /** persist($entity); flush() for a new entity. */
    method PersistAndFlush(row: Row) returns (w: Write)
      modifies this
      ensures w == Insert(old(db), row)
      ensures db == (if w.Written? then w.db else old(db))
    {
      w := Insert(db, row);
      if w.Written? {
        db := w.db;
      }
    }

    /** flush() of a managed bundle entity, new or already stored. */
    method MergeAndFlush(e: EntityState) returns (w: Write)
      modifies this
      ensures w == Upsert(old(db), e)
      ensures db == (if w.Written? then w.db else old(db))
    {
      w := Upsert(db, e);
      if w.Written? {
        db := w.db;
      }
    }
  }

  datatype Outcome = Saved | Failed(error: StorageError)

  class DoctrineStorage {
    const em: EntityManager?
    const entityClass: EntityClass

    /** The entity class defaults to the bundle's entity. */
    constructor (em: EntityManager?, entityClass: Option<EntityClass>)
      ensures this.em == em && this.entityClass == entityClass.GetOr(BundleEntity)
    {
      this.em := em;
      this.entityClass := entityClass.GetOr(BundleEntity);
    }

    /** isAvailable(): an entity manager is present. */
    predicate IsAvailable()
      ensures IsAvailable() <==> em != null
    {
      em != null
    }

    /** The entity the custom path builds, one setter call at a time. */
    static method BuildCustomProps(m: ContactMessage, methods: set<string>) returns (props: map<string, Value>)
      ensures props == CustomProps(m.State(), methods)
    {
      props := map[];
      if "setdata" in methods {
        props := props["data" := VArr(m.data)];
      } else {
        var data := m.data;
        var i := 0;
        while i < |data|
          invariant 0 <= i <= |data|
          invariant props == SetterProps(data[..i], methods)
        {
          var setter := SetterName(data[i].0);
          if MethodExists(methods, setter) {
            props := props[SetterProperty(setter) := data[i].1];
          }
          assert data[..i + 1][..i] == data[..i];
          i := i + 1;
        }
        assert data[..|data|] == data;
      }
      if "setipaddress" in methods {
        props := props["ipaddress" := OptValue(m.ipAddress)];
      }
      if "setuseragent" in methods {
        props := props["useragent" := OptValue(m.userAgent)];
      }
    }

    /** save($message) as written: the message becomes a new entity, which
        is always inserted; on success the generated id is written back. */
    method Save(message: ContactMessage, now: int) returns (r: Outcome)
      modifies message, em
      ensures em == null ==> r == Failed(Unavailable) && unchanged(message)
      ensures em != null ==>
        var w := Insert(old(em.db), NewRow(entityClass, old(message.State()), now));
        && em.db == (if w.Written? then w.db else old(em.db))
        && r == (if w.Written? then Saved else Failed(w.error))
        && message.State() == (if w.Written? && WritesBackId(entityClass)
                               then old(message.State()).(id := Some(w.id)) else old(message.State()))
    {
      if !IsAvailable() {
        return Failed(Unavailable);
      }
      var row: Row;
      if entityClass.BundleEntity? {
        var entity := FromModel(message, now);
        row := BundleRow(entity.State());
      } else {
        var props := BuildCustomProps(message, entityClass.methods);
        row := CustomRow(0, props);
      }
      var w := em.PersistAndFlush(row);
      if w.Rejected? {
        return Failed(w.error);
      }
      if WritesBackId(entityClass) {
        message.SetId(Some(w.id));
      }
      r := Saved;
    }

    /** save($message) by identity: a bundle message that already has a
        stored id updates its row instead of inserting a copy. */
    method SaveOrUpdate(message: ContactMessage, now: int) returns (r: Outcome)
      modifies message, em
      ensures em == null ==> r == Failed(Unavailable) && unchanged(message)
      ensures em != null && entityClass.BundleEntity? ==>
        var w := Upsert(old(em.db), ModelToEntity(old(message.State()), now));
        && em.db == (if w.Written? then w.db else old(em.db))
        && r == (if w.Written? then Saved else Failed(w.error))
        && message.State() == (if w.Written? then old(message.State()).(id := Some(w.id))
                               else old(message.State()))
      ensures em != null && entityClass.CustomEntity? ==>
        var w := Insert(old(em.db), NewRow(entityClass, old(message.State()), now));
        && em.db == (if w.Written? then w.db else old(em.db))
        && r == (if w.Written? then Saved else Failed(w.error))
        && message.State() == (if w.Written? && WritesBackId(entityClass)
                               then old(message.State()).(id := Some(w.id)) else old(message.State()))
    {
      if !IsAvailable() {
        return Failed(Unavailable);
      }
      if entityClass.CustomEntity? {
        r := Save(message, now);
        return;
      }
      var entity := FromModel(message, now);
      var w := em.MergeAndFlush(entity.State());
      if w.Rejected? {
        return Failed(w.error);
      }
      message.SetId(Some(w.id));
      r := Saved;
    }

    /** findById($id): the model of the stored row with that id, or null. */
    method FindById(id: int, now: int) returns (m: ContactMessage?)
      ensures em == null ==> m == null
      ensures em != null ==> (m == null <==> FindByIdSpec(em.db, entityClass, id, now).None?)
      ensures m != null ==> fresh(m) && m.State() == FindByIdSpec(em.db, entityClass, id, now).value
    {
      if !IsAvailable() {
        return null;
      }
      var k := FindRowById(em.db.rows, entityClass.BundleEntity?, id);
      if k.None? {
        return null;
      }
      var row := em.db.rows[k.value];
      if row.BundleRow? {
        var entity := new ContactMessageEntity.Hydrate(row.e);
        m := entity.ToModel();
      } else {
        m := new ContactMessage(now);
        m.SetData(CustomData(row.props, entityClass.methods));
        if "getipaddress" in entityClass.methods {
          m.SetIpAddress(PropString(row.props, "ipaddress"));
        }
        if "getuseragent" in entityClass.methods {
          m.SetUserAgent(PropString(row.props, "useragent"));
        }
        if "getid" in entityClass.methods {
          m.SetId(Some(row.id));
        }
      }
    }

    /** findByVerificationToken($token): the model of the row holding it. */
    method FindByVerificationToken(token: string, now: int) returns (m: ContactMessage?)
      ensures em == null ==> m == null
      ensures em != null ==> (m == null <==> FindByTokenSpec(em.db, entityClass, token, now).None?)
      ensures m != null ==> fresh(m) && m.State() == FindByTokenSpec(em.db, entityClass, token, now).value
    {
      if !IsAvailable() {
        return null;
      }
      var k := FindRowByToken(em.db.rows, entityClass.BundleEntity?, token);
      if k.None? {
        return null;
      }
      var row := em.db.rows[k.value];
      if row.BundleRow? {
        var entity := new ContactMessageEntity.Hydrate(row.e);
        m := entity.ToModel();
      } else if "getid" in entityClass.methods {
        m := FindById(RowId(row), now);
      } else {
        m := null;
      }
    }
  }

  // ---------------------------------------------------------------------
  // Saving a message that was read back from storage

  /** The as-written save inserts a fresh copy of a message that was read
      back from a bundle row holding a token, so the unique index refuses
      it: marking a message as verified can never be stored. */
  lemma ResaveOfStoredMessageRejected(db: Db, k: nat, now: int, verifiedAt: int)
    requires Valid(db) && db.online && k < |db.rows|
    requires db.rows[k].BundleRow? && db.rows[k].e.verificationToken.Some?
    ensures var m := EntityToModel(db.rows[k].e).(verified := true, verifiedAt := Some(verifiedAt));
      Insert(db, NewRow(BundleEntity, m, now)) == Rejected(DuplicateToken)
  {
    var m := EntityToModel(db.rows[k].e).(verified := true, verifiedAt := Some(verifiedAt));
    var row := NewRow(BundleEntity, m, now);
    assert BundleToken(row) == BundleToken(db.rows[k]);
    assert TokenHeldElsewhere(db.rows, BundleToken(row).value, -1);
  }

  /** Saving by identity updates that row in place: the row count, the ids
      and the token stay, the database stays valid, and the row now reads
      back as the verified message. */
  lemma {:induction false} ResaveByIdentityUpdates(db: Db, k: nat, now: int, verifiedAt: int)
    requires Valid(db) && db.online && k < |db.rows|
    requires db.rows[k].BundleRow?
    ensures var m := EntityToModel(db.rows[k].e).(verified := true, verifiedAt := Some(verifiedAt));
      var w := Upsert(db, ModelToEntity(m, now));
      && w.Written? && w.id == RowId(db.rows[k])
      && Valid(w.db) && |w.db.rows| == |db.rows|
      && FindByIdSpec(w.db, BundleEntity, w.id, now) == Some(m)
  {
    var e := db.rows[k].e;
    var m := EntityToModel(e).(verified := true, verifiedAt := Some(verifiedAt));
    var e2 := ModelToEntity(m, now);
    assert e2.id == e.id && e2.verificationToken == e.verificationToken;
    var id := e.id.value;
    var p := (r: Row) => r.BundleRow? == true && RowId(r) == id;
    assert p(db.rows[k]);
    var f := FindRowById(db.rows, true, id);
    assert f.Some?;
    IdsIdentifyRows(db, f.value, k);
    if e2.verificationToken.Some? {
      assert !TokenHeldElsewhere(db.rows, e2.verificationToken.value, k) by {
        assert BundleToken(db.rows[k]) == e2.verificationToken;
      }
    }
    var w := Upsert(db, e2);
    assert w == Update(db, k, e2);
    UpdateKeepsValid(db, k, e2);
    var rows := w.db.rows;
    assert rows[k] == BundleRow(e2.(id := Some(id)));
    var g := FindRowById(rows, true, id);
    assert g.Some? by {
      assert p(rows[k]);
    }
    assert RowId(rows[g.value]) == RowId(db.rows[g.value]);
    IdsIdentifyRows(db, g.value, k);
    assert e2.(id := Some(id)) == e2;
    assert EntityToModel(e2) == m;
  }
}
