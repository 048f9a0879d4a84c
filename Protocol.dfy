/** The protocol object as the handlers use it: an outbox that `send` appends
    to. Writing to the modem, dispatching replies and removing finished
    handlers belong to the dispatch loop, which is not part of this model. */
module Protocol {
  import opened Message
  import opened Db

  /** The handler a message is sent with: a handler object re-installing
      itself, or a database download handler (DeviceDbGet) built over `db`
      and the dump message `dumpMsg`, whose completion callback is
      DeviceRefresh.DownloadDone(db, onDoneDelta, success). */
  datatype HandlerRef = Handler(obj: object) | DbGet(db: DeviceDb, onDoneDelta: byte, dumpMsg: Msg)

  datatype Queued = Queued(msg: Msg, handler: HandlerRef)

  /** The at most one message sent with handler `self` itself. */
  function SelfSends(sent: Option<Msg>, self: object): seq<Queued> {
    if sent.Some? then [Queued(sent.value, Handler(self))] else []
  }

  class Protocol {
    /** Every (message, handler) pair passed to send, oldest first. */
    var sent: seq<Queued>

    constructor ()
      ensures sent == []
    {
      sent := [];
    }

    method Send(msg: Msg, handler: HandlerRef)
      modifies this
      ensures sent == old(sent) + [Queued(msg, handler)]
    {
      sent := sent + [Queued(msg, handler)];
    }
  }
}
