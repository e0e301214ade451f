/** The storage used in email-only mode: it keeps nothing. */
module NullStorage {
  import opened Php
  import opened Message

  /** save(): no effect; the method may modify nothing. */
  method Save(message: ContactMessage)
    ensures unchanged(message)
  {
  }

  function FindById(id: int): (r: Option<MessageState>)
    ensures r == None
  {
    None
  }

  function FindByVerificationToken(token: string): (r: Option<MessageState>)
    ensures r == None
  {
    None
  }

  function IsAvailable(): (available: bool)
    ensures !available
  {
    false
  }
}
