/** The submission pipeline: the spam checks, the message built from the
    form, the veto of the listeners, and the email-verification or standard
    branch; and the verification of a message by its token. The clock, the
    random bytes and the request are parameters. */
module SubmissionService {
  import opened Php
  import opened PhpNumeric
  import opened Message
  import FormType
  import SetupHelpers
  import Honeypot
  import Timing
  import RateLimiter
  import SubmittedEvent
  import NullStorage
  import opened Entity
  import opened DoctrineStorage
  import Mailer
  import opened Dispatcher

  // ---------------------------------------------------------------------
  // Token lifetime

  /** A unit the interval pattern accepts, once lower-cased. */
  predicate IsUnit(u: string) {
    u == "minute" || u == "minutes" || u == "hour" || u == "hours" || u == "day" || u == "days"
  }

  function UnitMinutes(u: string): nat {
    if u == "minute" || u == "minutes" then 1
    else if u == "hour" || u == "hours" then 60
    else 1440
  }

  /** `match ($unit)`: 60, 3600 or 86400 seconds. */
  function UnitSeconds(u: string): nat {
    60 * UnitMinutes(u)
  }

  /** `(\d+)\s*(hour|hours|minute|minutes|day|days)` matched case-insensitively
      against the whole of s: the number and the lower-cased unit. */
  function MatchWhole(s: string): (m: Option<(nat, string)>)
    ensures m.Some? ==> IsUnit(m.value.1)
  {
    var k := DigitRun(s, 0);
    if k == 0 then None
    else
      var w := WhitespaceRun(s, k);
      var unit := LowerStr(s[k + w..]);
      assert forall i :: 0 <= i < k ==> IsDigit(s[..k][i]);
      if IsUnit(unit) then Some((DigitsValue(s[..k]), unit)) else None
  }

  /** The anchored pattern: `$` also matches before a final newline. */
  function MatchInterval(s: string): (m: Option<(nat, string)>)
    ensures m.Some? ==> IsUnit(m.value.1)
  {
    match MatchWhole(s)
    case Some(m) => Some(m)
    case None => if |s| > 0 && s[|s| - 1] == '\n' then MatchWhole(s[..|s| - 1]) else None
  }

  const DefaultTtlSeconds: nat := 86400

  /** The lifetime in minutes: the number times the unit, or a day. */
  function IntervalMinutes(interval: string): nat {
    match MatchInterval(interval)
    case Some((n, unit)) => NatProduct(n, UnitMinutes(unit)); n * UnitMinutes(unit)
    case None => 1440
  }

  lemma NatProduct(a: nat, b: nat)
    ensures a * b >= 0
  {
  }

  /** parseInterval(): the seconds an interval string names, 24 hours for
      anything the pattern does not match. It is never negative and always
      a whole number of minutes. */
  function ParseInterval(interval: string): (seconds: nat)
    ensures seconds % 60 == 0
    ensures MatchInterval(interval).None? ==> seconds == DefaultTtlSeconds
  {
    60 * IntervalMinutes(interval)
  }

  /** The number times the unit's length in seconds. */
  lemma ParseIntervalMatched(interval: string)
    requires MatchInterval(interval).Some?
    ensures ParseInterval(interval)
         == MatchInterval(interval).value.0 * UnitSeconds(MatchInterval(interval).value.1)
  {
    Rescale(MatchInterval(interval).value.0, UnitMinutes(MatchInterval(interval).value.1));
  }

  lemma Rescale(n: nat, m: nat)
    ensures 60 * (n * m) == n * (60 * m)
  {
  }

  /** A character whose lower case is a letter is neither a digit nor
      whitespace. */
  lemma LetterInitial(c: char)
    requires 'a' <= Lower(c) <= 'z'
    ensures !IsDigit(c) && !IsWhitespace(c)
  {
  }

  lemma UnitInitial(u: string)
    requires IsUnit(u)
    ensures |u| > 0 && 'a' <= u[0] <= 'z'
  {
  }

  /** A decimal number, any whitespace and a unit in any letter case name
      that many units. */
  lemma ParseIntervalOf(n: nat, sep: string, unit: string)
    requires forall i :: 0 <= i < |sep| ==> IsWhitespace(sep[i])
    requires IsUnit(LowerStr(unit))
    ensures ParseInterval(NatToDecimal(n) + sep + unit) == n * UnitSeconds(LowerStr(unit))
  {
    var s := NatToDecimal(n) + sep + unit;
    UnitInitial(LowerStr(unit));
    LetterInitial(unit[0]);
    SplitRuns(n, sep, unit);
    DigitsValueOfDecimal(n);
    assert MatchWhole(s) == Some((n, LowerStr(unit)));
    ParseIntervalMatched(s);
  }

  /** A decimal number, whitespace and a word that is no unit: a day. */
  lemma ParseIntervalNotUnit(n: nat, sep: string, word: string)
    requires forall i :: 0 <= i < |sep| ==> IsWhitespace(sep[i])
    requires |word| > 0 && 'a' <= Lower(word[0]) <= 'z' && word[|word| - 1] != '\n'
    requires !IsUnit(LowerStr(word))
    ensures ParseInterval(NatToDecimal(n) + sep + word) == DefaultTtlSeconds
  {
    var s := NatToDecimal(n) + sep + word;
    LetterInitial(word[0]);
    SplitRuns(n, sep, word);
    assert MatchWhole(s).None?;
    assert s[|s| - 1] == word[|word| - 1];
  }

  /** How MatchWhole reads a number, whitespace and a word that starts with
      neither a digit nor whitespace. */
  lemma SplitRuns(n: nat, sep: string, word: string)
    requires forall i :: 0 <= i < |sep| ==> IsWhitespace(sep[i])
    requires |word| > 0 && !IsDigit(word[0]) && !IsWhitespace(word[0])
    ensures var d := NatToDecimal(n); var s := d + sep + word;
      && DigitRun(s, 0) == |d| && WhitespaceRun(s, |d|) == |sep|
      && s[..|d|] == d && s[|d| + |sep|..] == word
  {
    var d := NatToDecimal(n);
    var s := d + sep + word;
    assert forall i :: 0 <= i < |d| ==> s[i] == d[i];
    assert forall i :: 0 <= i < |sep| ==> s[|d| + i] == sep[i];
    assert s[|d| + |sep|] == word[0];
    assert !IsDigit(s[|d|]) && !IsWhitespace(s[|d| + |sep|]);
    assert |sep| > 0 ==> IsWhitespace(s[|d|]);
    var k := DigitRun(s, 0);
    assert k == |d|;
    var w := WhitespaceRun(s, k);
    assert w == |sep|;
    assert s[..k] == d;
    assert s[k + w..] == word;
  }

  lemma UnitFinal(u: string)
    requires IsUnit(u)
    ensures |u| > 0 && 'a' <= u[|u| - 1] <= 'z'
  {
  }

  /** No unit ends in a line break, in any letter case. */
  lemma NoUnitEndsInNewline(x: string)
    requires |x| > 0 && x[|x| - 1] == '\n'
    ensures !IsUnit(LowerStr(x))
  {
    var u := LowerStr(x);
    assert u[|u| - 1] == '\n';
    if IsUnit(u) {
      UnitFinal(u);
    }
  }

  /** A value whose last character is a line break never matches whole. */
  lemma NoWholeMatchWithNewline(t: string)
    requires |t| > 0 && t[|t| - 1] == '\n'
    ensures MatchWhole(t).None?
  {
    var k := DigitRun(t, 0);
    if k > 0 {
      var w := WhitespaceRun(t, k);
      if k + w < |t| {
        assert t[k + w..][|t| - k - w - 1] == '\n';
        NoUnitEndsInNewline(t[k + w..]);
      } else {
        assert !IsUnit(LowerStr(t[k + w..]));
      }
    }
  }

  /** One more line break at the end changes nothing. */
  lemma TrailingNewlineAllowed(s: string)
    requires MatchWhole(s).Some?
    ensures ParseInterval(s + "\n") == ParseInterval(s)
  {
    var t := s + "\n";
    NoWholeMatchWithNewline(t);
    assert t[..|t| - 1] == s;
  }

  /** The default lifetime. */
  lemma DefaultTtlIsOneDay()
    ensures ParseInterval(SetupHelpers.DefaultTokenTtl) == DefaultTtlSeconds
  {
    DayLiterals();
    ParseIntervalOf(24, " ", "hours");
  }

  lemma DayLiterals()
    ensures NatToDecimal(24) + " " + "hours" == SetupHelpers.DefaultTokenTtl
    ensures IsWhitespace(' ') && LowerStr("hours") == "hours" && UnitSeconds("hours") == 3600
  {
  }

  /** The lifetimes the parser's documentation names. */
  lemma DocumentedIntervals()
    ensures ParseInterval("1 hour") == 3600
    ensures ParseInterval("30 minutes") == 1800
  {
    HourLiterals();
    ParseIntervalOf(1, " ", "hour");
    MinuteLiterals();
    ParseIntervalOf(30, " ", "minutes");
  }

  lemma HourLiterals()
    ensures NatToDecimal(1) + " " + "hour" == "1 hour"
    ensures IsWhitespace(' ') && LowerStr("hour") == "hour" && UnitSeconds("hour") == 3600
  {
  }

  lemma MinuteLiterals()
    ensures NatToDecimal(30) + " " + "minutes" == "30 minutes"
    ensures IsWhitespace(' ') && LowerStr("minutes") == "minutes" && UnitSeconds("minutes") == 60
  {
  }

  /** Without leading digits, or with anything after the unit, the
      lifetime is 24 hours. */
  lemma ParseIntervalFallsBack()
    ensures ParseInterval("") == 86400
    ensures ParseInterval("forever") == 86400
    ensures ParseInterval("-1 hours") == 86400
    ensures ParseInterval("3 weeks") == 86400
  {
    NoLeadingDigit("");
    NoLeadingDigit("forever");
    NoLeadingDigit("-1 hours");
    WeeksLiterals();
    ParseIntervalNotUnit(3, " ", "weeks");
  }

  /** Without a leading digit nothing matches. */
  lemma NoLeadingDigit(s: string)
    requires |s| == 0 || (!IsDigit(s[0]) && s[|s| - 1] != '\n')
    ensures ParseInterval(s) == DefaultTtlSeconds
  {
  }

  lemma WeeksLiterals()
    ensures NatToDecimal(3) + " " + "weeks" == "3 weeks"
    ensures IsWhitespace(' ') && LowerStr("weeks") == "weeks" && !IsUnit("weeks")
  {
  }

  // ---------------------------------------------------------------------
  // Verification token and expiry

  /** bin2hex(random_bytes(32)): 64 lower-case hex digits, which is what
      the verification route requires of its token, and different random
      bytes give different tokens. */
  function NewToken(random: seq<bv8>): (token: string)
    requires |random| == 32
    ensures |token| == 64 && forall i :: 0 <= i < |token| ==> IsLowerHex(token[i])
    ensures Hex2Bin(token) == random
  {
    Bin2HexRoundTrip(random);
    Bin2Hex(random)
  }

  /** The verification route's requirement `[a-f0-9]{64}`. */
  predicate RouteToken(s: string) {
    |s| == 64 && forall i :: 0 <= i < |s| ==> IsLowerHex(s[i])
  }

  lemma TokensDiffer(r1: seq<bv8>, r2: seq<bv8>)
    requires |r1| == 32 && |r2| == 32 && r1 != r2
    ensures NewToken(r1) != NewToken(r2) && RouteToken(NewToken(r1))
  {
    assert Hex2Bin(NewToken(r1)) != Hex2Bin(NewToken(r2));
  }

  /** `$createdAt?->modify('+ttl seconds') < now`: a message without a
      creation time never expires. */
  predicate Expired(createdAt: Option<int>, ttlSeconds: int, now: int) {
    createdAt.Some? && createdAt.value + ttlSeconds < now
  }

  /** isEmailVerificationEnabled(): verification needs the database to keep
      the pending message and the mail to reach the sender. */
  predicate VerificationActive(enabled: bool, storageMode: string) {
    enabled && storageMode == "both"
  }

  /** The setup wizard writes a configuration the service acts on exactly
      when it asked for, and got, a confirmation in "both" mode. */
  lemma WizardEnablesVerification(storageMode: string, confirm: bool, ttl: Option<string>)
    ensures var a := SetupHelpers.AskEmailVerification(storageMode, confirm, ttl);
      VerificationActive(a.enabled, storageMode) <==> storageMode == "both" && confirm
  {
  }

  // ---------------------------------------------------------------------
  // The message data

  /** The children createMessageFromForm leaves out: the honeypot, the
      timing token and the CSRF token. */
  predicate Excluded(name: string) {
    name == "email_confirm" || name == "_form_token_time" || name == "_token"
  }

  /** The names are the form's own protection fields. */
  lemma ExcludedAreProtectionFields(name: string)
    ensures Excluded(name) <==>
      name == FormType.HoneypotField || name == FormType.TimingField || name == FormType.CsrfFieldName
  {
  }

  function KeptWrite(child: (string, Value)): Option<(string, Value)> {
    if Excluded(child.0) then None else Some(child)
  }

  function FormWrites(form: Fields): (ws: seq<Option<(string, Value)>>)
    ensures |ws| == |form| && forall i :: 0 <= i < |form| ==> ws[i] == KeptWrite(form[i])
  {
    seq(|form|, i requires 0 <= i < |form| => KeptWrite(form[i]))
  }

  /** `$data[$name] = $field->getData()` for every kept child, in order. */
  function FormData(form: Fields): Fields {
    PutSome([], FormWrites(form))
  }

  /** The kept children in their order. */
  function Kept(form: Fields): Fields {
    if |form| == 0 then []
    else Kept(form[..|form| - 1]) + (if Excluded(form[|form| - 1].0) then [] else [form[|form| - 1]])
  }

  lemma {:induction false} KeptKeys(form: Fields, k: string)
    ensures HasKey(Kept(form), k) ==> HasKey(form, k) && !Excluded(k)
  {
    if |form| > 0 {
      var init := form[..|form| - 1];
      KeptKeys(init, k);
      if HasKey(Kept(form), k) {
        var i :| 0 <= i < |Kept(form)| && Kept(form)[i].0 == k;
        if i < |Kept(init)| {
          assert Kept(init)[i].0 == k;
          var j :| 0 <= j < |init| && init[j].0 == k;
          assert form[j].0 == k;
        } else {
          assert form[|form| - 1].0 == k;
        }
      }
    }
  }

  /** With the distinct names a form has, the data is exactly the kept
      children, values unchanged and in the form's order. */
  lemma {:induction false} FormDataIsKept(form: Fields)
    requires UniqueKeys(form)
    ensures FormData(form) == Kept(form)
  {
    if |form| > 0 {
      var n := |form| - 1;
      var init := form[..n];
      assert UniqueKeys(init) by {
        forall i, j | 0 <= i < j < |init| ensures init[i].0 != init[j].0 {
          assert init[i] == form[i] && init[j] == form[j];
        }
      }
      FormDataIsKept(init);
      assert FormWrites(form)[..n] == FormWrites(init);
      var k := form[n].0;
      if !Excluded(k) {
        KeptKeys(init, k);
        assert !HasKey(init, k);
        PutFreshAppends(Kept(init), k, form[n].1);
      }
    }
  }

  /** No protection field reaches the data; every other child does, with
      its value when the names are distinct. */
  lemma FormDataLookup(form: Fields, k: string)
    ensures Excluded(k) ==> !HasKey(FormData(form), k)
    ensures !Excluded(k) ==> (HasKey(FormData(form), k) <==> HasKey(form, k))
    ensures UniqueKeys(form) && !Excluded(k) ==> Lookup(FormData(form), k) == Lookup(form, k)
  {
    var ws := FormWrites(form);
    var none: Fields := [];
    PutSomeLookup(none, ws, k);
    assert !HasKey(none, k);
    if !Excluded(k) && HasKey(form, k) {
      var i :| 0 <= i < |form| && form[i].0 == k;
      assert WritesAt(ws, i, k);
    }
    if !Excluded(k) {
      forall i | WritesAt(ws, i, k) ensures HasKey(form, k) {
        assert form[i].0 == k;
      }
    }
    if UniqueKeys(form) && !Excluded(k) && HasKey(form, k) {
      var i :| 0 <= i < |form| && form[i].0 == k;
      assert LastWrite(ws, i, k);
      var v := Lookup(form, k).value;
      var j :| 0 <= j < |form| && form[j] == (k, v);
      assert j == i;
    }
  }

  // ---------------------------------------------------------------------
  // The storage behind the StorageInterface

  /** The configured storage: the null storage, or Doctrine. For Doctrine,
      `byIdentity` chooses the save: false is save() as written, which
      always inserts a new row; true is the corrected save, which updates
      the stored row of a bundle message that already has an id. */
  datatype Storage = NullBacked | DoctrineBacked(doctrine: DoctrineStorage, byIdentity: bool)

  /** The objects a save may change. */
  function StorageFrame(s: Storage): set<object> {
    if s.DoctrineBacked? && s.doctrine.em != null then {s.doctrine.em} else {}
  }

  /** The stored rows, when there is a database. */
  function Snapshot(s: Storage): Option<Db>
    reads StorageFrame(s)
  {
    if s.DoctrineBacked? && s.doctrine.em != null then Some(s.doctrine.em.db) else None
  }

  /** What a save leaves: its outcome, the rows and the message. */
  datatype Saving = Saving(outcome: Outcome, db: Option<Db>, state: MessageState)

  /** save(): the null storage keeps nothing and succeeds; Doctrine inserts
      a new row, or, with the corrected save, writes a bundle message by
      identity. Only the id of the message can change, and a failed save
      changes nothing. */
  function SaveSpec(s: Storage, db: Option<Db>, m: MessageState, now: int): (sv: Saving)
    ensures sv.state == m.(id := sv.state.id)
    ensures sv.outcome.Failed? ==> sv.db == db && sv.state == m
    ensures s.NullBacked? ==> sv == Saving(Saved, db, m)
    ensures s.DoctrineBacked? && db.None? ==> sv.outcome == Failed(Unavailable)
    ensures s.DoctrineBacked? && db.Some? && !(s.byIdentity && s.doctrine.entityClass.BundleEntity?) ==>
      var w := Insert(db.value, NewRow(s.doctrine.entityClass, m, now));
      sv.outcome == (if w.Written? then Saved else Failed(w.error)) && sv.db == (if w.Written? then Some(w.db) else db)
  {
    match s
    case NullBacked => Saving(Saved, db, m)
    case DoctrineBacked(d, byIdentity) =>
      if db.None? then Saving(Failed(Unavailable), db, m)
      else
        var w := if byIdentity && d.entityClass.BundleEntity? then Upsert(db.value, ModelToEntity(m, now))
                 else Insert(db.value, NewRow(d.entityClass, m, now));
        if w.Rejected? then Saving(Failed(w.error), db, m)
        else Saving(Saved, Some(w.db), if WritesBackId(d.entityClass) then m.(id := Some(w.id)) else m)
  }

  method SaveMessage(s: Storage, message: ContactMessage, now: int) returns (r: Outcome)
    modifies message, StorageFrame(s)
    ensures var sv := SaveSpec(s, old(Snapshot(s)), old(message.State()), now);
      r == sv.outcome && Snapshot(s) == sv.db && message.State() == sv.state
  {
    match s
    case NullBacked =>
      NullStorage.Save(message);
      r := Saved;
    case DoctrineBacked(d, byIdentity) =>
      if byIdentity {
        r := d.SaveOrUpdate(message, now);
      } else {
        r := d.Save(message, now);
      }
  }

  /** findByVerificationToken(): the null storage finds nothing. */
  function FindSpec(s: Storage, db: Option<Db>, token: string, now: int): (found: Option<MessageState>)
    ensures s.NullBacked? || db.None? ==> found.None?
  {
    match s
    case NullBacked => NullStorage.FindByVerificationToken(token)
    case DoctrineBacked(d, _) => if db.None? then None else FindByTokenSpec(db.value, d.entityClass, token, now)
  }

  method FindByToken(s: Storage, token: string, now: int) returns (m: ContactMessage?)
    ensures (m == null) == FindSpec(s, Snapshot(s), token, now).None?
    ensures m != null ==> fresh(m) && m.State() == FindSpec(s, Snapshot(s), token, now).value
  {
    match s
    case NullBacked =>
      m := null;
    case DoctrineBacked(d, _) =>
      m := d.FindByVerificationToken(token, now);
  }

  // ---------------------------------------------------------------------
  // The service

  /** Why a submission or a verification was refused: the exception the
      service throws, or the failure of a collaborator it lets through. */
  datatype Refusal =
    | HoneypotFailed
    | SubmittedTooQuickly
    | RateLimitExceeded(retryAfter: Option<int>)
    | PreventedByListener
    | InvalidToken
    | AlreadyVerified
    | TokenExpired
    | StorageFailed(error: StorageError)
    | MailFailed

  /** The message returned, or the refusal thrown. */
  datatype Result = Accepted(message: MessageState) | Refused(reason: Refusal)

  /** The rate limiter's token store. */
  datatype LimiterView = LimiterView(quota: nat, intervalSeconds: nat, windows: map<string, RateLimiter.Window>)

  /** What the service's collaborators hold: the limiter's windows, the
      stored rows, the transport and its mails, the verification mails
      asked for, and the events dispatched. */
  datatype World = World(
    limiter: Option<LimiterView>,
    db: Option<Db>,
    online: bool,
    delivered: seq<Mailer.Email>,
    verificationMails: seq<(MessageState, string)>,
    dispatched: seq<(string, Event)>)

  /** in_array($this->storageMode, ['database', 'both'], true) */
  predicate StoresInDatabase(mode: string) {
    mode == "database" || mode == "both"
  }

  /** in_array($this->storageMode, ['email', 'both'], true) */
  predicate MailsAdmin(mode: string) {
    mode == "email" || mode == "both"
  }

  /** The message createMessageFromForm builds: created now, the kept form
      data, the client's address and user agent. */
  function Built(form: Fields, request: RateLimiter.Request, userAgent: Option<string>, now: int): (m: MessageState)
    ensures m.id.None? && m.createdAt == Some(now) && m.verified && m.verificationToken.None?
    ensures m.data == FormData(form) && m.ipAddress == request.clientIp && m.userAgent == userAgent
  {
    MessageState(None, Some(now), FormData(form), request.clientIp, userAgent, true, None, None)
  }

  class ContactSubmissionService {
    const storage: Storage
    const mailer: Mailer.ContactMailer
    const honeypot: Honeypot.HoneypotValidator
    const timing: Timing.TimingValidator
    const rateLimiter: RateLimiter.ContactRateLimiter
    const dispatcher: EventDispatcher
    const storageMode: string
    const verificationEnabled: bool
    const tokenTtl: string

    /** The storage mode defaults to "email"; verification to disabled
        with a 24-hour lifetime. */
    constructor (storage: Storage, mailer: Mailer.ContactMailer, honeypot: Honeypot.HoneypotValidator,
                 timing: Timing.TimingValidator, rateLimiter: RateLimiter.ContactRateLimiter,
                 dispatcher: EventDispatcher, storageMode: Option<string>, verification: Option<(bool, string)>)
      ensures this.storage == storage && this.mailer == mailer && this.honeypot == honeypot
      ensures this.timing == timing && this.rateLimiter == rateLimiter && this.dispatcher == dispatcher
      ensures this.storageMode == storageMode.GetOr("email")
      ensures (verificationEnabled, tokenTtl) == verification.GetOr((false, SetupHelpers.DefaultTokenTtl))
    {
      this.storage := storage;
      this.mailer := mailer;
      this.honeypot := honeypot;
      this.timing := timing;
      this.rateLimiter := rateLimiter;
      this.dispatcher := dispatcher;
      this.storageMode := storageMode.GetOr("email");
      var v := verification.GetOr((false, SetupHelpers.DefaultTokenTtl));
      verificationEnabled := v.0;
      tokenTtl := v.1;
    }

    function Observed(): World
      reads rateLimiter, rateLimiter.store, StorageFrame(storage), mailer, mailer.transport, dispatcher
    {
      var store := rateLimiter.store;
      World(if store == null then None else Some(LimiterView(store.quota, store.intervalSeconds, store.windows)),
            Snapshot(storage), mailer.transport.online, mailer.transport.delivered,
            mailer.verificationRequests, dispatcher.dispatched)
    }

    /** Verification is on when it is configured and the storage mode both
        keeps the message in the database and mails. */
    function IsEmailVerificationEnabled(): (enabled: bool)
      ensures enabled <==> verificationEnabled && StoresInDatabase(storageMode) && MailsAdmin(storageMode)
    {
      VerificationActive(verificationEnabled, storageMode)
    }

    // -------------------------------------------------------------------
    // The specification of the pipeline, on the collaborators' state

    /** The three spam checks in order; the rate limiter consumes a token
        only for a submission the first two let through. */
    function Gate(w: World, form: Fields, request: RateLimiter.Request, now: int): (g: (Option<Refusal>, World))
      ensures g.1 == w.(limiter := g.1.limiter)
      ensures g.0 == Some(HoneypotFailed) <==> !honeypot.Validate(form)
      ensures g.0 == Some(SubmittedTooQuickly) <==> honeypot.Validate(form) && !timing.Validate(form, now)
      ensures g.0.Some? ==> g.0.value == HoneypotFailed || g.0.value == SubmittedTooQuickly || g.0.value.RateLimitExceeded?
      ensures g.0.Some? ==> g.1 == w
      ensures w.limiter.None? ==> g.1 == w && (g.0.None? <==> honeypot.Validate(form) && timing.Validate(form, now))
    {
      if !honeypot.Validate(form) then (Some(HoneypotFailed), w)
      else if !timing.Validate(form, now) then (Some(SubmittedTooQuickly), w)
      else if w.limiter.None? then (None, w)
      else
        var l := w.limiter.value;
        var id := RateLimiter.Identifier(Some(request), rateLimiter.md5);
        var reserved := RateLimiter.Reserve(l.windows, l.quota, l.intervalSeconds, id, 1, now);
        var w' := w.(limiter := Some(l.(windows := reserved.1)));
        if reserved.0.accepted then (None, w')
        else
          var cw := RateLimiter.CurrentWindow(reserved.1, l.intervalSeconds, id, now);
          (Some(RateLimitExceeded(Some(if cw.used < l.quota then now else cw.end))), w')
    }

    /** save(), then the persisted event when the save succeeded. */
    function Persist(w: World, m: MessageState, now: int): (p: (Option<Refusal>, MessageState, World))
      ensures p.1 == m.(id := p.1.id)
      ensures p.0.Some? ==> p.0.value.StorageFailed? && p.1 == m && p.2 == w
      ensures p.0.None? ==> p.2 == w.(db := p.2.db, dispatched := w.dispatched + [(PersistedName, Persisted(p.1))])
    {
      var sv := SaveSpec(storage, w.db, m, now);
      if sv.outcome.Failed? then (Some(StorageFailed(sv.outcome.error)), m, w)
      else (None, sv.state, w.(db := sv.db, dispatched := w.dispatched + [(PersistedName, Persisted(sv.state))]))
    }

    /** send(), then the email-sent event with the recipients it returned. */
    function Notify(w: World, m: MessageState): (n: (Option<Refusal>, World))
      ensures n.0.Some? <==> !w.online
      ensures n.0.Some? ==> n.0.value == MailFailed && n.1 == w
      ensures n.0.None? ==>
        && n.1 == w.(delivered := n.1.delivered, dispatched := n.1.dispatched)
        && n.1.delivered == w.delivered + [mailer.Notification(m.data)]
        && n.1.dispatched == w.dispatched + [(EmailSentName, EmailSent(m, mailer.recipients))]
    {
      if !w.online then (Some(MailFailed), w)
      else (None, w.(delivered := w.delivered + [mailer.Notification(m.data)],
                     dispatched := w.dispatched + [(EmailSentName, EmailSent(m, mailer.recipients))]))
    }

    /** The verification branch: the message is stored unverified with its
        token and only the sender is mailed. */
    function VerificationFlow(w: World, m: MessageState, token: string, now: int): (r: (Result, World))
      ensures r.0.Refused? ==> r.0.reason.StorageFailed?
    {
      var (refusal, saved, w1) := Persist(w, m.(verificationToken := Some(token), verified := false), now);
      if refusal.Some? then (Refused(refusal.value), w1)
      else (Accepted(saved), w1.(verificationMails := w1.verificationMails + [(saved, token)]))
    }

    /** The standard branch: stored as verified in the database modes,
        mailed to the admin in the mail modes. */
    function StandardFlow(w: World, m: MessageState, now: int): (r: (Result, World))
      ensures r.0.Refused? ==> r.0.reason.StorageFailed? || r.0.reason == MailFailed
    {
      var (refusal, stored, w1) := if StoresInDatabase(storageMode) then Persist(w, m.(verified := true), now) else (None, m, w);
      if refusal.Some? then (Refused(refusal.value), w1)
      else
        var (refusal2, w2) := if MailsAdmin(storageMode) then Notify(w1, stored) else (None, w1);
        if refusal2.Some? then (Refused(refusal2.value), w2) else (Accepted(stored), w2)
    }

    /** process(): the checks, the message, the listeners' veto, and one of
        the two branches. */
    function ProcessSpec(w: World, form: Fields, request: RateLimiter.Request, userAgent: Option<string>,
                         now: int, random: seq<bv8>): (p: (Result, World))
      requires |random| == 32
      ensures p.0.Accepted? ==>
        var m := p.0.message;
        && m.data == FormData(form) && m.createdAt == Some(now)
        && m.ipAddress == request.clientIp && m.userAgent == userAgent
        && m.verified == !IsEmailVerificationEnabled()
        && m.verificationToken == (if IsEmailVerificationEnabled() then Some(NewToken(random)) else None)
      ensures p.1.verificationMails == w.verificationMails +
        (if p.0.Accepted? && IsEmailVerificationEnabled() then [(p.0.message, NewToken(random))] else [])
    {
      var (refusal, w1) := Gate(w, form, request, now);
      if refusal.Some? then (Refused(refusal.value), w1)
      else
        var m := Built(form, request, userAgent, now);
        var w2 := w1.(dispatched := w1.dispatched + [(SubmittedEvent.Name, Submitted(m))]);
        if dispatcher.vetoes(m) then (Refused(PreventedByListener), w2)
        else if IsEmailVerificationEnabled() then VerificationFlow(w2, m, NewToken(random), now)
        else StandardFlow(w2, m, now)
    }

    /** verifyMessage(): the lookup, the two refusals of a found message,
        the save of the verified message, the admin mail and the two
        events. */
    function VerifySpec(w: World, token: string, now: int): (v: (Result, World))
      ensures v.0.Accepted? ==> v.0.message.verified && v.0.message.verifiedAt == Some(now)
      ensures v.0.Refused? ==> v.0.reason in {InvalidToken, AlreadyVerified, TokenExpired, MailFailed} || v.0.reason.StorageFailed?
      ensures v.0.Refused? && v.0.reason != MailFailed ==> v.1 == w
      ensures v.1.limiter == w.limiter && v.1.verificationMails == w.verificationMails
    {
      var found := FindSpec(storage, w.db, token, now);
      if found.None? then (Refused(InvalidToken), w)
      else if found.value.verified then (Refused(AlreadyVerified), w)
      else if Expired(found.value.createdAt, ParseInterval(tokenTtl), now) then (Refused(TokenExpired), w)
      else Confirm(w, found.value, now)
    }

    /** The end of verifyMessage(): the message marked verified now and
        saved, then the admin mail, the email-sent and the verified event. */
    function Confirm(w: World, m: MessageState, now: int): (r: (Result, World))
      ensures r.0.Refused? ==> r.0.reason.StorageFailed? || r.0.reason == MailFailed
    {
      var sv := SaveSpec(storage, w.db, m.(verified := true, verifiedAt := Some(now)), now);
      if sv.outcome.Failed? then (Refused(StorageFailed(sv.outcome.error)), w)
      else
        var (refusal, w1) := Notify(w.(db := sv.db), sv.state);
        if refusal.Some? then (Refused(refusal.value), w1)
        else (Accepted(sv.state), w1.(dispatched := w1.dispatched + [(VerifiedName, Verified(sv.state))]))
    }
  
    // -------------------------------------------------------------------
    // The pipeline

    /** The spam checks of process(), in order. */
    method CheckGates(form: Fields, request: RateLimiter.Request, now: int) returns (refusal: Option<Refusal>)
      modifies rateLimiter.store
      ensures (refusal, Observed()) == Gate(old(Observed()), form, request, now)
    {
      if !honeypot.Validate(form) {
        return Some(HoneypotFailed);
      }
      if !timing.Validate(form, now) {
        return Some(SubmittedTooQuickly);
      }
      var allowed := rateLimiter.IsAllowed(Some(request), now);
      if !allowed {
        var retryAfter := rateLimiter.GetRetryAfter(Some(request), now);
        return Some(RateLimitExceeded(retryAfter));
      }
      return None;
    }

    /** createMessageFromForm(): a new message holding every child of the
        form but the protection fields, and the request's client data. */
    method CreateMessageFromForm(form: Fields, request: RateLimiter.Request, userAgent: Option<string>, now: int)
      returns (message: ContactMessage)
      ensures fresh(message) && message.State() == Built(form, request, userAgent, now)
    {
      message := new ContactMessage(now);
      var data: Fields := [];
      var i := 0;
      while i < |form|
        invariant 0 <= i <= |form|
        invariant data == FormData(form[..i])
      {
        assert FormWrites(form[..i + 1])[..i] == FormWrites(form[..i]);
        if !Excluded(form[i].0) {
          data := Put(data, form[i].0, form[i].1);
        }
        i := i + 1;
      }
      assert form[..|form|] == form;
      message.SetData(data);
      message.SetIpAddress(request.clientIp);
      message.SetUserAgent(userAgent);
    }

    /** save($message), then the persisted event. */
    method PersistMessage(message: ContactMessage, now: int) returns (refusal: Option<Refusal>)
      modifies message, StorageFrame(storage), dispatcher
      ensures (refusal, message.State(), Observed()) == Persist(old(Observed()), old(message.State()), now)
    {
      var outcome := SaveMessage(storage, message, now);
      if outcome.Failed? {
        return Some(StorageFailed(outcome.error));
      }
      dispatcher.Dispatch(PersistedName, Persisted(message.State()));
      return None;
    }

    /** $this->mailer->send($message), then the email-sent event. */
    method NotifyAdmin(message: ContactMessage) returns (refusal: Option<Refusal>)
      modifies mailer.transport, dispatcher
      ensures (refusal, Observed()) == Notify(old(Observed()), message.State())
    {
      var delivery := mailer.Send(message);
      if delivery.TransportFailed? {
        assert mailer.transport.delivered == old(mailer.transport.delivered);
        return Some(MailFailed);
      }
      dispatcher.Dispatch(EmailSentName, EmailSent(message.State(), delivery.recipients));
      return None;
    }

    /** The email-verification branch of process(). */
    method VerificationBranch(message: ContactMessage, random: seq<bv8>, now: int) returns (r: Result)
      requires |random| == 32
      modifies message, StorageFrame(storage), mailer, dispatcher
      ensures (r, Observed()) == VerificationFlow(old(Observed()), old(message.State()), NewToken(random), now)
      ensures r.Accepted? ==> message.State() == r.message
    {
      var token := NewToken(random);
      message.SetVerificationToken(Some(token));
      message.SetVerified(false);
      var refusal := PersistMessage(message, now);
      if refusal.Some? {
        return Refused(refusal.value);
      }
      mailer.SendVerificationEmail(message, token);
      return Accepted(message.State());
    }

    /** The standard branch of process(). */
    method StandardBranch(message: ContactMessage, now: int) returns (r: Result)
      modifies message, StorageFrame(storage), mailer.transport, dispatcher
      ensures (r, Observed()) == StandardFlow(old(Observed()), old(message.State()), now)
      ensures r.Accepted? ==> message.State() == r.message
    {
      if StoresInDatabase(storageMode) {
        message.SetVerified(true);
        var refusal := PersistMessage(message, now);
        if refusal.Some? {
          return Refused(refusal.value);
        }
      }
      if MailsAdmin(storageMode) {
        var refusal := NotifyAdmin(message);
        if refusal.Some? {
          return Refused(refusal.value);
        }
      }
      return Accepted(message.State());
    }

    /** process($form, $request): the accepted message, or the refusal
        thrown, with the collaborators left as the specification says. */
    method Process(form: Fields, request: RateLimiter.Request, userAgent: Option<string>, now: int, random: seq<bv8>)
      returns (r: Result, message: ContactMessage?)
      requires |random| == 32
      modifies rateLimiter.store, StorageFrame(storage), mailer, mailer.transport, dispatcher
      ensures (r, Observed()) == ProcessSpec(old(Observed()), form, request, userAgent, now, random)
      ensures (message != null) == r.Accepted?
      ensures message != null ==> fresh(message) && message.State() == r.message
    {
      var refusal := CheckGates(form, request, now);
      if refusal.Some? {
        return Refused(refusal.value), null;
      }
      var m := CreateMessageFromForm(form, request, userAgent, now);
      var event := new SubmittedEvent.ContactSubmittedEvent(m);
      dispatcher.DispatchSubmitted(event);
      if !event.ShouldProcess() {
        return Refused(PreventedByListener), null;
      }
      if IsEmailVerificationEnabled() {
        r := VerificationBranch(m, random, now);
      } else {
        r := StandardBranch(m, now);
      }
      message := if r.Accepted? then m else null;
    }

    /** verifyMessage($token): the verified message, or the refusal thrown. */
    method VerifyMessage(token: string, now: int) returns (r: Result, message: ContactMessage?)
      modifies StorageFrame(storage), mailer.transport, dispatcher
      ensures (r, Observed()) == VerifySpec(old(Observed()), token, now)
      ensures (message != null) == r.Accepted?
      ensures message != null ==> fresh(message) && message.State() == r.message
    {
      var found := FindByToken(storage, token, now);
      if found == null {
        return Refused(InvalidToken), null;
      }
      if found.verified {
        return Refused(AlreadyVerified), null;
      }
      var ttl := ParseInterval(tokenTtl);
      if Expired(found.createdAt, ttl, now) {
        return Refused(TokenExpired), null;
      }
      r := ConfirmMessage(found, now);
      message := if r.Accepted? then found else null;
    }

    /** The verified message saved and announced. */
    method ConfirmMessage(message: ContactMessage, now: int) returns (r: Result)
      modifies message, StorageFrame(storage), mailer.transport, dispatcher
      ensures (r, Observed()) == Confirm(old(Observed()), old(message.State()), now)
      ensures r.Accepted? ==> message.State() == r.message
    {
      message.SetVerified(true);
      message.SetVerifiedAt(Some(now));
      var outcome := SaveMessage(storage, message, now);
      if outcome.Failed? {
        return Refused(StorageFailed(outcome.error));
      }
      var refusal := NotifyAdmin(message);
      if refusal.Some? {
        return Refused(refusal.value);
      }
      dispatcher.Dispatch(VerifiedName, Verified(message.State()));
      return Accepted(message.State());
    }
  
    // -------------------------------------------------------------------
    // Properties of the pipeline

    /** The submission gets past the three spam checks. */
    predicate Passes(w: World, form: Fields, request: RateLimiter.Request, now: int) {
      Gate(w, form, request, now).0.None?
    }

    /** The limiter refuses the token for the request's identity. */
    predicate RateLimited(w: World, request: RateLimiter.Request, now: int) {
      && w.limiter.Some?
      && var l := w.limiter.value;
        !RateLimiter.Reserve(l.windows, l.quota, l.intervalSeconds,
                             RateLimiter.Identifier(Some(request), rateLimiter.md5), 1, now).0.accepted
    }

    /** The checks run honeypot, timing, rate limit, then the listeners'
        veto; each refusal is reported by the first check that fails, and a
        refused submission has saved nothing, mailed nothing and
        dispatched no event but the submitted one for a veto. */
    lemma ChecksInOrder(w: World, form: Fields, request: RateLimiter.Request, userAgent: Option<string>,
                        now: int, random: seq<bv8>)
      requires |random| == 32
      ensures var (r, w') := ProcessSpec(w, form, request, userAgent, now, random);
        && (r == Refused(HoneypotFailed) <==> !honeypot.Validate(form))
        && (r == Refused(SubmittedTooQuickly) <==> honeypot.Validate(form) && !timing.Validate(form, now))
        && (r.Refused? && r.reason.RateLimitExceeded? <==>
              honeypot.Validate(form) && timing.Validate(form, now) && RateLimited(w, request, now))
        && (r == Refused(PreventedByListener) <==>
              Passes(w, form, request, now) && dispatcher.vetoes(Built(form, request, userAgent, now)))
        && (!Passes(w, form, request, now) ==> w' == w)
        && (r.Refused? && r.reason.RateLimitExceeded? ==>
              var l := w.limiter.value;
              var id := RateLimiter.Identifier(Some(request), rateLimiter.md5);
              r.reason.retryAfter == Some(RateLimiter.CurrentWindow(l.windows, l.intervalSeconds, id, now).end))
        && (r == Refused(PreventedByListener) ==>
              && w'.db == w.db && w'.delivered == w.delivered && w'.verificationMails == w.verificationMails
              && w'.dispatched == w.dispatched + [(SubmittedEvent.Name, Submitted(Built(form, request, userAgent, now)))])
    {
      if honeypot.Validate(form) && timing.Validate(form, now) && w.limiter.Some? {
        var l := w.limiter.value;
        var id := RateLimiter.Identifier(Some(request), rateLimiter.md5);
        var reserved := RateLimiter.Reserve(l.windows, l.quota, l.intervalSeconds, id, 1, now);
        if !reserved.0.accepted {
          assert reserved.1 == l.windows;
          assert Gate(w, form, request, now).1 == w;
        }
      }
    }

    /** The verification branch: the token is 64 hex digits; the message is
        saved once, unverified and holding the token; the persisted event
        follows; the sender's verification mail carries the same token; no
        admin mail is sent. A failed save stops the branch. */
    lemma VerificationBranchOutcome(w: World, form: Fields, request: RateLimiter.Request,
                                    userAgent: Option<string>, now: int, random: seq<bv8>)
      requires |random| == 32 && Passes(w, form, request, now)
      requires !dispatcher.vetoes(Built(form, request, userAgent, now)) && IsEmailVerificationEnabled()
      ensures var (r, w') := ProcessSpec(w, form, request, userAgent, now, random);
        var m := Built(form, request, userAgent, now);
        var token := NewToken(random);
        var sv := SaveSpec(storage, w.db, m.(verificationToken := Some(token), verified := false), now);
        var submitted := (SubmittedEvent.Name, Submitted(m));
        && RouteToken(token)
        && (r.Accepted? <==> sv.outcome.Saved?)
        && w'.delivered == w.delivered
        && (r.Accepted? ==>
              && r.message == sv.state && !r.message.verified && r.message.verificationToken == Some(token)
              && r.message.data == FormData(form)
              && w'.db == sv.db
              && w'.verificationMails == w.verificationMails + [(r.message, token)]
              && w'.dispatched == w.dispatched + [submitted, (PersistedName, Persisted(r.message))])
        && (r.Refused? ==>
              && r.reason == StorageFailed(sv.outcome.error)
              && w'.db == w.db && w'.verificationMails == w.verificationMails
              && w'.dispatched == w.dispatched + [submitted])
    {
      var m := Built(form, request, userAgent, now);
      var w1 := Gate(w, form, request, now).1;
      var w2 := w1.(dispatched := w1.dispatched + [(SubmittedEvent.Name, Submitted(m))]);
      assert ProcessSpec(w, form, request, userAgent, now, random) == VerificationFlow(w2, m, NewToken(random), now);
      assert w2 == w.(limiter := w1.limiter, dispatched := w.dispatched + [(SubmittedEvent.Name, Submitted(m))]);
      VerificationFlowOutcome(w2, m, NewToken(random), now);
    }

    /** The verification branch on any state. */
    lemma VerificationFlowOutcome(w: World, m: MessageState, token: string, now: int)
      ensures var (r, w') := VerificationFlow(w, m, token, now);
        var sv := SaveSpec(storage, w.db, m.(verificationToken := Some(token), verified := false), now);
        && (r.Accepted? <==> sv.outcome.Saved?)
        && w'.delivered == w.delivered && w'.limiter == w.limiter
        && (r.Accepted? ==>
              && r.message == sv.state
              && w'.db == sv.db
              && w'.verificationMails == w.verificationMails + [(r.message, token)]
              && w'.dispatched == w.dispatched + [(PersistedName, Persisted(r.message))])
        && (r.Refused? ==>
              && r.reason == StorageFailed(sv.outcome.error)
              && w' == w)
    {
    }

    /** The standard branch on any state, for a message not awaiting
        verification. */
    lemma StandardFlowOutcome(w: World, m: MessageState, now: int)
      requires m.verified
      ensures var (r, w') := StandardFlow(w, m, now);
        var sv := SaveSpec(storage, w.db, m, now);
        var stores, mails := StoresInDatabase(storageMode), MailsAdmin(storageMode);
        && w'.verificationMails == w.verificationMails && w'.limiter == w.limiter
        && (!stores ==> w'.db == w.db)
        && (!mails ==> w'.delivered == w.delivered)
        && (r.Accepted? <==> (stores ==> sv.outcome.Saved?) && (mails ==> w.online))
        && (r.Accepted? ==>
              && r.message == m.(id := r.message.id)
              && (stores ==> w'.db == sv.db)
              && w'.delivered == w.delivered + (if mails then [mailer.Notification(r.message.data)] else [])
              && w'.dispatched == w.dispatched
                   + (if stores then [(PersistedName, Persisted(r.message))] else [])
                   + (if mails then [(EmailSentName, EmailSent(r.message, mailer.recipients))] else []))
    {
      assert m.(verified := true) == m;
      var stores, mails := StoresInDatabase(storageMode), MailsAdmin(storageMode);
      var (refusal, stored, w1) := if stores then Persist(w, m, now) else (None, m, w);
      if refusal.None? && mails && w.online {
        var w2 := Notify(w1, stored).1;
        assert w2.dispatched == w1.dispatched + [(EmailSentName, EmailSent(stored, mailer.recipients))];
      }
    }

    /** The standard branch: saved, as verified, exactly in the database
        modes; the admin mailed exactly in the mail modes, and the
        email-sent event carries the recipients send() returned; no
        verification mail. */
    lemma StandardBranchOutcome(w: World, form: Fields, request: RateLimiter.Request,
                                userAgent: Option<string>, now: int, random: seq<bv8>)
      requires |random| == 32 && Passes(w, form, request, now)
      requires !dispatcher.vetoes(Built(form, request, userAgent, now)) && !IsEmailVerificationEnabled()
      ensures var (r, w') := ProcessSpec(w, form, request, userAgent, now, random);
        var m := Built(form, request, userAgent, now);
        var sv := SaveSpec(storage, w.db, m, now);
        var stores, mails := StoresInDatabase(storageMode), MailsAdmin(storageMode);
        && w'.verificationMails == w.verificationMails
        && (!stores ==> w'.db == w.db)
        && (!mails ==> w'.delivered == w.delivered)
        && (r.Accepted? <==> (stores ==> sv.outcome.Saved?) && (mails ==> w.online))
        && (r.Accepted? ==>
              && r.message == m.(id := r.message.id) && r.message.verified && r.message.data == FormData(form)
              && (stores ==> w'.db == sv.db)
              && w'.delivered == w.delivered + (if mails then [mailer.Notification(r.message.data)] else [])
              && w'.dispatched == w.dispatched + [(SubmittedEvent.Name, Submitted(m))]
                   + (if stores then [(PersistedName, Persisted(r.message))] else [])
                   + (if mails then [(EmailSentName, EmailSent(r.message, mailer.recipients))] else []))
    {
      var m := Built(form, request, userAgent, now);
      var w1 := Gate(w, form, request, now).1;
      var w2 := w1.(dispatched := w1.dispatched + [(SubmittedEvent.Name, Submitted(m))]);
      assert ProcessSpec(w, form, request, userAgent, now, random) == StandardFlow(w2, m, now);
      assert w2 == w.(limiter := w1.limiter, dispatched := w.dispatched + [(SubmittedEvent.Name, Submitted(m))]);
      StandardFlowOutcome(w2, m, now);
    }

    /** verifyMessage(): an unknown token, an already verified message and
        an expired one are three distinct refusals that change nothing;
        expiry is strict, so a message is still accepted at the very second
        its lifetime ends, and one without a creation time never expires.
        A verified message is saved with verified set and the time, its
        token kept; then the admin is mailed, then the email-sent and the
        verified events follow. */
    lemma VerifyOutcome(w: World, token: string, now: int)
      ensures var (r, w') := VerifySpec(w, token, now);
        var found := FindSpec(storage, w.db, token, now);
        && (r == Refused(InvalidToken) <==> found.None?)
        && (r == Refused(AlreadyVerified) <==> found.Some? && found.value.verified)
        && (r == Refused(TokenExpired) <==>
              && found.Some? && !found.value.verified && found.value.createdAt.Some?
              && found.value.createdAt.value + ParseInterval(tokenTtl) < now)
        && (r == Refused(InvalidToken) || r == Refused(AlreadyVerified) || r == Refused(TokenExpired) ==> w' == w)
        && w'.verificationMails == w.verificationMails && w'.limiter == w.limiter
        && (r.Accepted? ==>
              && r.message == found.value.(verified := true, verifiedAt := Some(now), id := r.message.id)
              && w'.delivered == w.delivered + [mailer.Notification(r.message.data)]
              && w'.dispatched == w.dispatched + [(EmailSentName, EmailSent(r.message, mailer.recipients)),
                                                  (VerifiedName, Verified(r.message))])
        && (found.Some? && !found.value.verified && !Expired(found.value.createdAt, ParseInterval(tokenTtl), now) ==>
              var sv := SaveSpec(storage, w.db, found.value.(verified := true, verifiedAt := Some(now)), now);
              && (r.Accepted? <==> sv.outcome.Saved? && w.online)
              && (sv.outcome.Failed? ==> r == Refused(StorageFailed(sv.outcome.error)) && w' == w)
              && (r.Accepted? ==> r.message == sv.state && w'.db == sv.db))
    {
    }
  
    /** With the bundle entity stored by Doctrine and the corrected save, a
        message the verification branch accepted is found again by its token, as it was
        saved; verifying it before its lifetime has passed, with the
        transport up, is accepted and yields the same message, verified at
        that time. */
    lemma {:induction false} SubmitThenVerify(w: World, form: Fields, request: RateLimiter.Request,
                                              userAgent: Option<string>, now: int, random: seq<bv8>, later: int)
      requires |random| == 32 && Passes(w, form, request, now)
      requires !dispatcher.vetoes(Built(form, request, userAgent, now)) && IsEmailVerificationEnabled()
      requires storage.DoctrineBacked? && storage.byIdentity && storage.doctrine.entityClass.BundleEntity?
      requires w.db.Some? && Valid(w.db.value)
      requires ProcessSpec(w, form, request, userAgent, now, random).0.Accepted?
      ensures var (r, w1) := ProcessSpec(w, form, request, userAgent, now, random);
        var token := NewToken(random);
        && FindSpec(storage, w1.db, token, later) == Some(r.message)
        && (!Expired(Some(now), ParseInterval(tokenTtl), later) && w.online ==>
              VerifySpec(w1, token, later).0 == Accepted(r.message.(verified := true, verifiedAt := Some(later))))
    {
      var (r, w1) := ProcessSpec(w, form, request, userAgent, now, random);
      var token := NewToken(random);
      var m1 := Built(form, request, userAgent, now).(verificationToken := Some(token), verified := false);
      SubmitStoresByInsert(w, form, request, userAgent, now, random);
      InsertedThenResaved(w.db.value, m1, now, later);
      if !Expired(Some(now), ParseInterval(tokenTtl), later) && w.online {
        assert VerifySpec(w1, token, later) == Confirm(w1, r.message, later);
        ConfirmAfterResave(w1, r.message, later);
      }
    }

    /** The save of the verification branch is the insert of a new row. */
    lemma SubmitStoresByInsert(w: World, form: Fields, request: RateLimiter.Request,
                               userAgent: Option<string>, now: int, random: seq<bv8>)
      requires |random| == 32 && Passes(w, form, request, now)
      requires !dispatcher.vetoes(Built(form, request, userAgent, now)) && IsEmailVerificationEnabled()
      requires storage.DoctrineBacked? && storage.doctrine.entityClass.BundleEntity?
      requires w.db.Some?
      requires ProcessSpec(w, form, request, userAgent, now, random).0.Accepted?
      ensures var (r, w1) := ProcessSpec(w, form, request, userAgent, now, random);
        var m1 := Built(form, request, userAgent, now).(verificationToken := Some(NewToken(random)), verified := false);
        var ins := Insert(w.db.value, NewRow(BundleEntity, m1, now));
        && ins.Written? && w1.db == Some(ins.db) && w1.online == w.online
        && r.message == EntityToModel(ModelToEntity(m1, now).(id := Some(ins.id)))
        && !r.message.verified && r.message.createdAt == Some(now)
    {
      var (r, w1) := ProcessSpec(w, form, request, userAgent, now, random);
      var m1 := Built(form, request, userAgent, now).(verificationToken := Some(NewToken(random)), verified := false);
      VerificationBranchOutcome(w, form, request, userAgent, now, random);
      var e := ModelToEntity(m1, now);
      assert e.id.None?;
      var ins := Insert(w.db.value, NewRow(BundleEntity, m1, now));
      assert Upsert(w.db.value, e) == ins;
      assert EntityToModel(e.(id := Some(ins.id))) == m1.(id := Some(ins.id));
    }

    /** Confirm() of a message whose verified copy saves by identity, with
        the corrected save and the transport up: accepted, as that verified
        copy. */
    lemma ConfirmAfterResave(w: World, m: MessageState, now: int)
      requires storage.DoctrineBacked? && storage.byIdentity && storage.doctrine.entityClass.BundleEntity?
      requires w.db.Some? && w.online && m.id.Some?
      requires var up := Upsert(w.db.value, ModelToEntity(m.(verified := true, verifiedAt := Some(now)), now));
        up.Written? && up.id == m.id.value
      ensures Confirm(w, m, now).0 == Accepted(m.(verified := true, verifiedAt := Some(now)))
    {
      var v := m.(verified := true, verifiedAt := Some(now));
      var sv := SaveSpec(storage, w.db, v, now);
      assert sv.outcome == Saved && sv.state == v;
    }

    /** With save() as written, the same verification can never be stored:
        the insert of the verified copy collides with the pending row's
        token, so verifyMessage() within the lifetime is refused by the
        storage and changes nothing. */
    lemma {:induction false} SubmitThenVerifyAsWritten(w: World, form: Fields, request: RateLimiter.Request,
                                                       userAgent: Option<string>, now: int, random: seq<bv8>, later: int)
      requires |random| == 32 && Passes(w, form, request, now)
      requires !dispatcher.vetoes(Built(form, request, userAgent, now)) && IsEmailVerificationEnabled()
      requires storage.DoctrineBacked? && !storage.byIdentity && storage.doctrine.entityClass.BundleEntity?
      requires w.db.Some? && Valid(w.db.value)
      requires ProcessSpec(w, form, request, userAgent, now, random).0.Accepted?
      ensures var (r, w1) := ProcessSpec(w, form, request, userAgent, now, random);
        var verified := r.message.(verified := true, verifiedAt := Some(later));
        && Insert(w1.db.value, NewRow(BundleEntity, verified, later)) == Rejected(DuplicateToken)
        && (!Expired(Some(now), ParseInterval(tokenTtl), later) ==>
              VerifySpec(w1, NewToken(random), later) == (Refused(StorageFailed(DuplicateToken)), w1))
    {
      var (r, w1) := ProcessSpec(w, form, request, userAgent, now, random);
      var m1 := Built(form, request, userAgent, now).(verificationToken := Some(NewToken(random)), verified := false);
      var db := w.db.value;
      VerificationBranchOutcome(w, form, request, userAgent, now, random);
      var e := ModelToEntity(m1, now);
      var ins := Insert(db, NewRow(BundleEntity, m1, now));
      assert Upsert(db, e) == ins && ins.Written?;
      var db1 := ins.db;
      InsertKeepsValid(db, NewRow(BundleEntity, m1, now));
      var k := |db.rows|;
      assert db1.rows[k] == BundleRow(e.(id := Some(ins.id)));
      assert EntityToModel(db1.rows[k].e) == r.message;
      ResaveOfStoredMessageRejected(db1, k, later, later);
      InsertedThenResaved(db, m1, now, later);
      if !Expired(Some(now), ParseInterval(tokenTtl), later) {
        assert VerifySpec(w1, NewToken(random), later) == Confirm(w1, r.message, later);
      }
    }
  }
}
