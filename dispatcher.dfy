/** The events the pipeline dispatches and the dispatcher that delivers
    them. Listeners are application code: what they do to a submitted event
    is a parameter, the veto decision for each message. */
module Dispatcher {
  import opened Message
  import SubmittedEvent

  const PersistedName: string := "contact_us.persisted"
  const EmailSentName: string := "contact_us.email_sent"
  const VerifiedName: string := "contact_us.verified"

  /** An event as its listeners see it: the message's fields at the time of
      dispatch, and for a sent mail the recipients send() returned. */
  datatype Event =
    | Submitted(m: MessageState)
    | Persisted(m: MessageState)
    | EmailSent(m: MessageState, recipients: seq<string>)
    | Verified(m: MessageState)

  class EventDispatcher {
    /** Whether a listener calls preventProcessing() on a submitted message. */
    const vetoes: MessageState -> bool
    /** Every dispatch, in order, with the event's name. */
    var dispatched: seq<(string, Event)>

    constructor (vetoes: MessageState -> bool)
      ensures this.vetoes == vetoes && dispatched == []
    {
      this.vetoes := vetoes;
      dispatched := [];
    }

    /** dispatch($event, ContactSubmittedEvent::NAME): the listeners may veto. */
    method DispatchSubmitted(event: SubmittedEvent.ContactSubmittedEvent)
      modifies this, event
      ensures dispatched == old(dispatched) + [(SubmittedEvent.Name, Submitted(event.message.State()))]
      ensures event.ShouldProcess() == (old(event.ShouldProcess()) && !vetoes(event.message.State()))
    {
      dispatched := dispatched + [(SubmittedEvent.Name, Submitted(event.message.State()))];
      if vetoes(event.message.State()) {
        event.PreventProcessing();
      }
    }

    /** dispatch($event, $name) for an event nobody can veto. */
    method Dispatch(name: string, event: Event)
      modifies this
      ensures dispatched == old(dispatched) + [(name, event)]
    {
      dispatched := dispatched + [(name, event)];
    }
  }
}
