/** The bundle's Doctrine entity for contact messages and its conversion to
    and from the message model. */
module Entity {
  import opened Php
  import opened Message

  /** A snapshot of an entity's columns; createdAt is never null here. */
  datatype EntityState = EntityState(
    id: Option<int>,
    createdAt: int,
    data: Fields,
    ipAddress: Option<string>,
    userAgent: Option<string>,
    verified: bool,
    verificationToken: Option<string>,
    verifiedAt: Option<int>)

  /** PHP truthiness of a nullable id: null and 0 are falsy. */
  predicate TruthyId(id: Option<int>) {
    id.Some? && id.value != 0
  }

  /** The model toModel() produces: every column copied unchanged. */
  function EntityToModel(e: EntityState): (m: MessageState)
    ensures m.id == e.id && m.createdAt == Some(e.createdAt) && m.data == e.data
    ensures m.ipAddress == e.ipAddress && m.userAgent == e.userAgent
    ensures m.verified == e.verified && m.verificationToken == e.verificationToken
    ensures m.verifiedAt == e.verifiedAt
  {
    MessageState(e.id, Some(e.createdAt), e.data, e.ipAddress, e.userAgent,
                 e.verified, e.verificationToken, e.verifiedAt)
  }

  /** The entity fromModel() produces at time now: the id only when truthy,
      the model's createdAt or now, every other field unchanged. */
  function ModelToEntity(m: MessageState, now: int): (e: EntityState)
    ensures e.id == (if TruthyId(m.id) then m.id else None)
    ensures e.createdAt == m.createdAt.GetOr(now)
    ensures e.data == m.data && e.ipAddress == m.ipAddress && e.userAgent == m.userAgent
    ensures e.verified == m.verified && e.verificationToken == m.verificationToken
    ensures e.verifiedAt == m.verifiedAt
  {
    EntityState(if TruthyId(m.id) then m.id else None, m.createdAt.GetOr(now), m.data,
                m.ipAddress, m.userAgent, m.verified, m.verificationToken, m.verifiedAt)
  }

  /** fromModel then toModel returns the model, except that a null
      createdAt becomes now and a falsy id becomes null. */
  lemma ModelRoundTrip(m: MessageState, now: int)
    ensures EntityToModel(ModelToEntity(m, now)) ==
      m.(id := if TruthyId(m.id) then m.id else None, createdAt := Some(m.createdAt.GetOr(now)))
    ensures m.createdAt.Some? && (m.id.None? || TruthyId(m.id)) ==> EntityToModel(ModelToEntity(m, now)) == m
  {
  }

  /** toModel then fromModel returns the entity when its id is not 0. */
  lemma EntityRoundTrip(e: EntityState, now: int)
    requires e.id != Some(0)
    ensures ModelToEntity(EntityToModel(e), now) == e
  {
  }

  class ContactMessageEntity {
    var id: Option<int>
    var createdAt: int
    var data: Fields
    var ipAddress: Option<string>
    var userAgent: Option<string>
    var verified: bool
    var verificationToken: Option<string>
    var verifiedAt: Option<int>

    function State(): EntityState
      reads this
    {
      EntityState(id, createdAt, data, ipAddress, userAgent, verified, verificationToken, verifiedAt)
    }

    /** A new entity: no id, created now, empty data, unverified, no token. */
    constructor (now: int)
      ensures State() == EntityState(None, now, [], None, None, false, None, None)
    {
      id, createdAt, data := None, now, [];
      ipAddress, userAgent := None, None;
      verified, verificationToken, verifiedAt := false, None, None;
    }

    /** An entity loaded from a stored row. */
    constructor Hydrate(s: EntityState)
      ensures State() == s
    {
      id, createdAt, data := s.id, s.createdAt, s.data;
      ipAddress, userAgent := s.ipAddress, s.userAgent;
      verified, verificationToken, verifiedAt := s.verified, s.verificationToken, s.verifiedAt;
    }

    function GetId(): Option<int> reads this { id }
    function GetCreatedAt(): int reads this { createdAt }
    function GetData(): Fields reads this { data }
    function GetIpAddress(): Option<string> reads this { ipAddress }
    function GetUserAgent(): Option<string> reads this { userAgent }
    function IsVerified(): bool reads this { verified }
    function GetVerificationToken(): Option<string> reads this { verificationToken }
    function GetVerifiedAt(): Option<int> reads this { verifiedAt }

    /** The identity map writing a generated id into a persisted entity. */
    method AssignId(x: int)
      modifies this
      ensures State() == old(State()).(id := Some(x))
    {
      id := Some(x);
    }

    method SetCreatedAt(x: int) returns (self: ContactMessageEntity)
      modifies this
      ensures self == this && State() == old(State()).(createdAt := x) && GetCreatedAt() == x
    {
      createdAt := x;
      self := this;
    }

    method SetData(x: Fields) returns (self: ContactMessageEntity)
      modifies this
      ensures self == this && State() == old(State()).(data := x) && GetData() == x
    {
      data := x;
      self := this;
    }

    method SetIpAddress(x: Option<string>) returns (self: ContactMessageEntity)
      modifies this
      ensures self == this && State() == old(State()).(ipAddress := x) && GetIpAddress() == x
    {
      ipAddress := x;
      self := this;
    }

    method SetUserAgent(x: Option<string>) returns (self: ContactMessageEntity)
      modifies this
      ensures self == this && State() == old(State()).(userAgent := x) && GetUserAgent() == x
    {
      userAgent := x;
      self := this;
    }

    method SetVerified(x: bool) returns (self: ContactMessageEntity)
      modifies this
      ensures self == this && State() == old(State()).(verified := x) && IsVerified() == x
    {
      verified := x;
      self := this;
    }

    method SetVerificationToken(x: Option<string>) returns (self: ContactMessageEntity)
      modifies this
      ensures self == this && State() == old(State()).(verificationToken := x)
      ensures GetVerificationToken() == x
    {
      verificationToken := x;
      self := this;
    }

    method SetVerifiedAt(x: Option<int>) returns (self: ContactMessageEntity)
      modifies this
      ensures self == this && State() == old(State()).(verifiedAt := x) && GetVerifiedAt() == x
    {
      verifiedAt := x;
      self := this;
    }

    /** toModel(): a new model holding this entity's fields. */
    method ToModel() returns (m: ContactMessage)
      ensures fresh(m) && m.State() == EntityToModel(State())
    {
      m := new ContactMessage(createdAt);
      m.SetId(id);
      m.SetCreatedAt(Some(createdAt));
      m.SetData(data);
      m.SetIpAddress(ipAddress);
      m.SetUserAgent(userAgent);
      m.SetVerified(verified);
      m.SetVerificationToken(verificationToken);
      m.SetVerifiedAt(verifiedAt);
    }
  }

  /** fromModel($model) at time now: a new entity built by setter calls. */
  method FromModel(model: ContactMessage, now: int) returns (e: ContactMessageEntity)
    ensures fresh(e) && e.State() == ModelToEntity(model.State(), now)
  {
    e := new ContactMessageEntity(now);
    if TruthyId(model.id) {
      e.id := model.id;
    }
    var _ := e.SetCreatedAt(model.createdAt.GetOr(now));
    var _ := e.SetData(model.data);
    var _ := e.SetIpAddress(model.ipAddress);
    var _ := e.SetUserAgent(model.userAgent);
    var _ := e.SetVerified(model.verified);
    var _ := e.SetVerificationToken(model.verificationToken);
    var _ := e.SetVerifiedAt(model.verifiedAt);
  }
}
