/** The contact message model that the pipeline builds, stores and mails.
    Its fields are those its setters are called with; times are Unix seconds. */
module Message {
  import opened Php

  /** A snapshot of a message's fields. */
  datatype MessageState = MessageState(
    id: Option<int>,
    createdAt: Option<int>,
    data: Fields,
    ipAddress: Option<string>,
    userAgent: Option<string>,
    verified: bool,
    verificationToken: Option<string>,
    verifiedAt: Option<int>)

  class ContactMessage {
    var id: Option<int>
    var createdAt: Option<int>
    var data: Fields
    var ipAddress: Option<string>
    var userAgent: Option<string>
    var verified: bool
    var verificationToken: Option<string>
    var verifiedAt: Option<int>

    function State(): MessageState
      reads this
    {
      MessageState(id, createdAt, data, ipAddress, userAgent, verified, verificationToken, verifiedAt)
    }

    /** A new message: created now, no id, no data, not awaiting verification. */
    constructor (now: int)
      ensures State() == MessageState(None, Some(now), [], None, None, true, None, None)
    {
      id, createdAt, data := None, Some(now), [];
      ipAddress, userAgent := None, None;
      verified, verificationToken, verifiedAt := true, None, None;
    }

    method SetId(x: Option<int>)
      modifies this
      ensures State() == old(State()).(id := x)
    {
      id := x;
    }

    method SetCreatedAt(x: Option<int>)
      modifies this
      ensures State() == old(State()).(createdAt := x)
    {
      createdAt := x;
    }

    method SetData(x: Fields)
      modifies this
      ensures State() == old(State()).(data := x)
    {
      data := x;
    }

    method SetIpAddress(x: Option<string>)
      modifies this
      ensures State() == old(State()).(ipAddress := x)
    {
      ipAddress := x;
    }

    method SetUserAgent(x: Option<string>)
      modifies this
      ensures State() == old(State()).(userAgent := x)
    {
      userAgent := x;
    }

    method SetVerified(x: bool)
      modifies this
      ensures State() == old(State()).(verified := x)
    {
      verified := x;
    }

    method SetVerificationToken(x: Option<string>)
      modifies this
      ensures State() == old(State()).(verificationToken := x)
    {
      verificationToken := x;
    }

    method SetVerifiedAt(x: Option<int>)
      modifies this
      ensures State() == old(State()).(verifiedAt := x)
    {
      verifiedAt := x;
    }
  }

  /** Builds a message object holding the given snapshot. */
  method FromState(s: MessageState, now: int) returns (m: ContactMessage)
    ensures fresh(m) && m.State() == s
  {
    m := new ContactMessage(now);
    m.SetId(s.id);
    m.SetCreatedAt(s.createdAt);
    m.SetData(s.data);
    m.SetIpAddress(s.ipAddress);
    m.SetUserAgent(s.userAgent);
    m.SetVerified(s.verified);
    m.SetVerificationToken(s.verificationToken);
    m.SetVerifiedAt(s.verifiedAt);
  }
}
