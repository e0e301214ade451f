/** The admin notification mailer. The mail transport is a collaborator
    that records what it is handed and can fail; the verification mail,
    which the pipeline asks the mailer for, is recorded as a request. */
module Mailer {
  import opened Php
  import opened Message

  const DefaultSubjectPrefix: string := "[Contact Form]"
  const DefaultFromName: string := "Contact Form"
  const FallbackFromEmail: string := "noreply@example.com"

  /** A mail address with its display name. */
  datatype Address = Address(email: Value, name: Value)

  /** The notification mail handed to the transport. */
  datatype Email = Email(from: Address, subject: string, to: seq<string>, replyTo: Option<Address>, data: Fields)

  /** buildSubject(): the prefix, then the subject, else "from" the name,
      else "New message"; a field counts only when it is non-empty. */
  function BuildSubject(prefix: string, data: Fields): (subject: string)
    ensures Truthy(Get(data, "subject")) ==> subject == prefix + " " + ToStr(Get(data, "subject"))
    ensures Empty(Get(data, "subject")) && Truthy(Get(data, "name")) ==>
      subject == prefix + " from " + ToStr(Get(data, "name"))
    ensures Empty(Get(data, "subject")) && Empty(Get(data, "name")) ==> subject == prefix + " New message"
  {
    if !Empty(Get(data, "subject")) then prefix + " " + ToStr(Get(data, "subject"))
    else if !Empty(Get(data, "name")) then prefix + " from " + ToStr(Get(data, "name"))
    else prefix + " New message"
  }

  /** Every subject is the prefix followed by a space and more text. */
  lemma SubjectExtendsPrefix(prefix: string, data: Fields)
    ensures var subject := BuildSubject(prefix, data);
      |subject| > |prefix| + 1 && StartsWith(subject, prefix + " ")
  {
    var subject := BuildSubject(prefix, data);
    var tail := subject[|prefix| + 1..];
    assert subject == prefix + " " + tail;
    assert (prefix + " " + tail)[..|prefix| + 1] == prefix + " ";
    if Truthy(Get(data, "subject")) {
      var v := Get(data, "subject");
      assert ToStr(v) != "" by {
        match v
        case VBool(b) =>
        case VInt(i) =>
        case VStr(t) =>
        case VArr(_) =>
      }
    }
  }

  /** The sender: the configured address, else the submitted email, else
      the fallback address; a null at either level passes to the next. */
  function FromEmail(fromEmail: Option<string>, data: Fields): (v: Value)
    ensures fromEmail.Some? ==> v == VStr(fromEmail.value)
    ensures fromEmail.None? && Get(data, "email") != VNull ==> v == Get(data, "email")
    ensures fromEmail.None? && Get(data, "email") == VNull ==> v == VStr(FallbackFromEmail)
  {
    match fromEmail
    case Some(e) => VStr(e)
    case None => Coalesce(Lookup(data, "email"), VStr(FallbackFromEmail))
  }

  /** The reply-to address: set exactly when the submitted email is
      non-empty, named by the submitted name or ''. */
  function ReplyTo(data: Fields): (r: Option<Address>)
    ensures r.Some? <==> Truthy(Get(data, "email"))
    ensures r.Some? ==> r.value.email == Get(data, "email")
    ensures r.Some? ==> r.value.name == Coalesce(Lookup(data, "name"), VStr(""))
  {
    if !Empty(Get(data, "email")) then Some(Address(Get(data, "email"), Coalesce(Lookup(data, "name"), VStr(""))))
    else None
  }

  /** The mail transport (MailerInterface): delivers one mail per call
      while its connection works, and fails otherwise. */
  class MailTransport {
    var delivered: seq<Email>
    var online: bool

    constructor (online: bool)
      ensures delivered == [] && this.online == online
    {
      delivered := [];
      this.online := online;
    }

    method Send(email: Email) returns (ok: bool)
      modifies this
      ensures ok == old(online) && online == old(online)
      ensures delivered == old(delivered) + (if ok then [email] else [])
    {
      ok := online;
      if ok {
        delivered := delivered + [email];
      }
    }
  }

  /** What a send() call produces: the recipients, or a transport failure. */
  datatype Delivery = Sent(recipients: seq<string>) | TransportFailed

  class ContactMailer {
    const transport: MailTransport
    const recipients: seq<string>
    const subjectPrefix: string
    const fromEmail: Option<string>
    const fromName: string
    /** The verification mails asked for: the message and its token. */
    var verificationRequests: seq<(MessageState, string)>

    /** Unset optional arguments take the defaults. */
    constructor (transport: MailTransport, recipients: seq<string>, subjectPrefix: Option<string>,
                 fromEmail: Option<string>, fromName: Option<string>)
      ensures this.transport == transport && this.recipients == recipients
      ensures this.subjectPrefix == subjectPrefix.GetOr(DefaultSubjectPrefix)
      ensures this.fromEmail == fromEmail && this.fromName == fromName.GetOr(DefaultFromName)
      ensures verificationRequests == []
    {
      this.transport := transport;
      this.recipients := recipients;
      this.subjectPrefix := subjectPrefix.GetOr(DefaultSubjectPrefix);
      this.fromEmail := fromEmail;
      this.fromName := fromName.GetOr(DefaultFromName);
      verificationRequests := [];
    }

    /** The notification for a message's data. */
    function Notification(data: Fields): (e: Email)
      ensures e.from == Address(FromEmail(fromEmail, data), VStr(fromName))
      ensures e.subject == BuildSubject(subjectPrefix, data)
      ensures e.to == recipients && e.replyTo == ReplyTo(data) && e.data == data
    {
      Email(Address(FromEmail(fromEmail, data), VStr(fromName)), BuildSubject(subjectPrefix, data),
            recipients, ReplyTo(data), data)
    }

    /** send($message): builds the notification, adds every recipient in
        order, hands exactly one mail to the transport and returns the
        configured recipients. */
    method Send(message: ContactMessage) returns (r: Delivery)
      modifies transport
      ensures r == (if old(transport.online) then Sent(recipients) else TransportFailed)
      ensures transport.online == old(transport.online)
      ensures transport.delivered ==
        old(transport.delivered) + (if r.Sent? then [Notification(message.data)] else [])
    {
      var data := message.data;
      var email := Email(Address(FromEmail(fromEmail, data), VStr(fromName)),
                         BuildSubject(subjectPrefix, data), [], None, data);
      var i := 0;
      while i < |recipients|
        invariant 0 <= i <= |recipients|
        invariant email.to == recipients[..i]
        invariant email.from == Notification(data).from && email.subject == Notification(data).subject
        invariant email.replyTo == None && email.data == data
      {
        email := email.(to := email.to + [recipients[i]]);
        assert recipients[..i + 1] == recipients[..i] + [recipients[i]];
        i := i + 1;
      }
      assert recipients[..|recipients|] == recipients;
      if !Empty(Get(data, "email")) {
        email := email.(replyTo := Some(Address(Get(data, "email"), Coalesce(Lookup(data, "name"), VStr("")))));
      }
      var ok := transport.Send(email);
      r := if ok then Sent(recipients) else TransportFailed;
    }

    /** sendVerificationEmail($message, $token): the request is recorded. */
    method SendVerificationEmail(message: ContactMessage, token: string)
      modifies this
      ensures verificationRequests == old(verificationRequests) + [(message.State(), token)]
    {
      verificationRequests := verificationRequests + [(message.State(), token)];
    }
  }
}
