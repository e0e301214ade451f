/** The vetoable event dispatched before a submission is processed. */
module SubmittedEvent {
  import opened Message

  const Name: string := "contact_us.submitted"

  class ContactSubmittedEvent {
    const message: ContactMessage
    var shouldProcess: bool

    /** The event as the pipeline creates it: processing allowed. */
    constructor (message: ContactMessage)
      ensures this.message == message && shouldProcess
    {
      this.message := message;
      shouldProcess := true;
    }

    /** The event with an explicit initial flag. */
    constructor WithFlag(message: ContactMessage, shouldProcess: bool)
      ensures this.message == message && this.shouldProcess == shouldProcess
    {
      this.message := message;
      this.shouldProcess := shouldProcess;
    }

    function GetMessage(): (m: ContactMessage)
      ensures m == message
    {
      message
    }

    function ShouldProcess(): bool
      reads this
    {
      shouldProcess
    }

    /** The listener's veto. Nothing sets the flag back: no member assigns
        true to it after construction. */
    method PreventProcessing()
      modifies this
      ensures !ShouldProcess()
      ensures unchanged(message)
    {
      shouldProcess := false;
    }
  }

  /** Vetoing twice leaves the event as vetoing once does. */
  method PreventTwice(e: ContactSubmittedEvent)
    modifies e
    ensures !e.ShouldProcess() && unchanged(e.GetMessage())
  {
    e.PreventProcessing();
    var once := e.ShouldProcess();
    e.PreventProcessing();
    assert e.ShouldProcess() == once;
  }
}
