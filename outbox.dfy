/**
  The event dispatcher a domain service is given. In the services it writes
  the event into the transactional outbox; here the outbox is the sequence of
  events dispatched so far, which only ever grows at its end.
 */
module Outbox {
  import opened Base

  class EventDispatcher<E> {
    /** Every event dispatched so far, oldest first. */
    var events: seq<E>

    constructor ()
      ensures events == []
    {
      events := [];
    }

    /**
      Dispatch(event) error. A failure of the outbox write is an input: when
      it is present the event is not recorded and the failure is returned.
     */
    method Dispatch(event: E, fault: Option<string>) returns (err: Option<string>)
      modifies this
      ensures err == fault
      ensures events == if fault.None? then old(events) + [event] else old(events)
    {
      err := fault;
      if fault.None? {
        events := events + [event];
      }
    }
  }
}
