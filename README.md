# Insteon message handlers

A model of three message handlers from insteon-mqtt, a bridge between the
Insteon powerline/RF home-automation protocol and MQTT. The protocol's
dispatch loop offers each message read from the modem to its active
handlers. A handler answers UNKNOWN (not mine), CONTINUE (mine, more to
come) or FINISHED (mine, remove me). On the way it may change its own
fields, send follow-up messages, and call into the device, the device's
all-link database mirror, or a completion callback.

- `StandardCmd` pairs one outbound standard command with the modem's echo
  and the device's reply, and hands the reply to a callback. Its fields never
  change after construction, so it is a value (`StandardCmd.StandardCmd`).
  `StandardCmd.Receive` returns the verdict together with the message passed
  to the callback, if any.
- `DeviceRefresh` sends a status probe and resends it, a bounded number of
  times, when it times out. On the device's reply it updates the device's
  state. When the reported delta (database version) is stale, or a download
  is forced, it also clears the database mirror and requests a full dump.
- `DeviceDbModify` writes one or more all-link database records (command
  0x2f) one after another. Each write is committed to the mirror only after
  the device ACKs it. The first failure stops the chain, and the callback
  runs once for the whole chain.

Each handler's reaction to one message is a pure function:
`StandardCmd.Receive`, `DeviceRefresh.Expire`, `DeviceRefresh.Receive` and
`DeviceDbModify.Receive`. Their contracts state the behaviour case by case.
The two stateful handlers are also classes, as in the source. Their methods
follow the Python branch by branch, and each method is proved to set the
fields that the step function yields and to make exactly the calls it yields.

The collaborators are small recording classes (module `Db`,
module `Protocol`):

- `DeviceDb` and `Device` log every `add_entry`, `clear`, `set_delta` and
  `handle_refresh` call.
- `Protocol` is an outbox that `send` appends `(message, handler)` pairs to.
- The `DeviceDbModify` completion callback `on_done` is the handler's own
  call log, `doneCalls`.

Properties over whole message sequences use `Feed` functions. `Feed` offers
messages one by one, following the handler contract. A FINISHED verdict
removes the handler, unless the handler has just sent a message with itself
as handler, which installs it again. `ExpireFeed` works the same way for
expiry checks.

Three points of the code are kept exactly as written:

- `DeviceRefresh` matches its echo on the address alone; the command byte is
  not compared.
- An echo NAK in `DeviceDbModify` leaves the queue of pending writes as it
  is. Nothing flushes it; it is simply never used again.
- The `DeviceDbModify` constructor's documentation says `on_done` runs once
  per queued call. The code runs it once per chain, and so does the model.

## Model

| member | source | states |
|---|---|---|
| StandardCmd.Receive | insteon_mqtt/handler/StandardCmd.py:46-93 | CONTINUE exactly for an OutStandard echo matching address and cmd1, ACK or NAK; FINISHED exactly for an InpStandard with matching from-address and cmd1; the callback receives that reply and nothing else; every other message is UNKNOWN |
| StandardCmd.NewClaimsOwnExchange | insteon_mqtt/handler/StandardCmd.py:29-43 | a handler built from an outbound message claims that message's echo (any ACK value) and the reply from its destination with the same cmd1, so the address and command are the ones captured from the message |
| StandardCmd.NoReplyKeepsWaiting | insteon_mqtt/handler/StandardCmd.py:62-93 | messages that are not the expected reply never finish the handler or reach the callback; each is CONTINUE if it is the echo and UNKNOWN otherwise |
| StandardCmd.HandledAtFirstReply | insteon_mqtt/handler/StandardCmd.py:77-93 | after any number of non-matching messages, the first matching reply goes to the callback, exactly once, and finishes the handler; nothing before it finishes the handler |
| DeviceDbModify.Receive | insteon_mqtt/handler/DeviceDbModify.py:72-133 | a matching echo ACK continues with no effect; an echo NAK, direct NAK or other reply type calls on_done(False, None) and finishes with no add_entry or send; a direct ACK commits the current entry exactly once, then either sends the queue head with the handler itself and makes its entry current, or calls on_done(True, first entry); every matching reply finishes; anything else is UNKNOWN with no change; the first entry never changes |
| DeviceDbModify.FeedCallsBackOnce | insteon_mqtt/handler/DeviceDbModify.py:94-131 | over any message sequence on_done runs at most once, and exactly once when the handler has been removed; a success carries the first entry and a failure no entry |
| DeviceDbModify.FeedAppliesInOrder | insteon_mqtt/handler/DeviceDbModify.py:104-120 | committed entries are always a prefix of the submitted chain, in FIFO submission order; follow-up sends follow queue order; success is reported exactly when the whole chain is committed; the first entry never changes |
| DeviceDbModify.ChainOfAcks | insteon_mqtt/handler/DeviceDbModify.py:87-120 | for a chain of N writes answered by c direct ACKs (echo ACKs in any number): the first min(c, N) entries are committed in order; min(c, N-1) follow-ups are sent; the success callback with the first entry fires once exactly when c reaches N |
| DeviceDbModify.TwoWriteChain | insteon_mqtt/handler/DeviceDbModify.py:104-120 | E1 then E2: the first direct ACK commits E1 and sends the second write, with no callback; the second commits E2 and reports success with E1 |
| DeviceDbModify.TwoWriteScenario | insteon_mqtt/handler/DeviceDbModify.py:26-133 | the same chain on the handler object, built with the constructor and add_update: the mirror receives add_entry(E1), add_entry(E2); the only send is the second write, with the returned handler object itself as its handler; the callback runs once with E1; the verdicts are CONTINUE, FINISHED, CONTINUE, FINISHED |
| DeviceDbModify.DeviceDbModify.constructor | insteon_mqtt/handler/DeviceDbModify.py:26-54 | the current and original entries are the given entry; the queue is empty |
| DeviceDbModify.DeviceDbModify.AddUpdate | insteon_mqtt/handler/DeviceDbModify.py:57-69 | appends (msg, entry) to the end of the queue and changes nothing else |
| DeviceDbModify.DeviceDbModify.MsgReceived | insteon_mqtt/handler/DeviceDbModify.py:72-133 | verdict, new fields, add_entry calls on the mirror, sends and on_done calls are exactly those of `DeviceDbModify.Receive`; the mirror's delta is untouched |
| DeviceRefresh.Expire | insteon_mqtt/handler/DeviceRefresh.py:51-80 | before the base time-out it returns false and changes nothing; after it it always returns true, and resends its own probe and counts the try if and only if send_count < num_retry; it preserves send_count <= max(1, num_retry) |
| DeviceRefresh.Receive | insteon_mqtt/handler/DeviceRefresh.py:83-145 | an OutStandard echo to the address (command not compared) is CONTINUE on ACK and FINISHED on NAK, with no effects; a reply from the address sets send_count to num_retry, passes the reply to handle_refresh once and finishes; on the reply, clear and exactly one dump request (to the address, 0x2f, 0x00, 14 zero bytes, tied to the reply's cmd1) happen if and only if force or the delta is not current; anything else is UNKNOWN with no effects |
| DeviceRefresh.RetriesBounded | insteon_mqtt/handler/DeviceRefresh.py:61-80 | with no reply, k time-outs resend the probe min(k, num_retry - send_count) times (never below zero), every resend being the stored probe; the handler is removed at the first time-out once the tries are used up |
| DeviceRefresh.DefaultRetriesTwice | insteon_mqtt/handler/DeviceRefresh.py:29-80 | a new handler with the default of 3 tries resends exactly twice and is removed at its third time-out |
| DeviceRefresh.NoRetryAfterReply | insteon_mqtt/handler/DeviceRefresh.py:105-107 | after the reply no sequence of time-outs resends the probe |
| DeviceRefresh.DownloadDone | insteon_mqtt/handler/DeviceRefresh.py:126-130 | the download's completion callback calls set_delta with the captured cmd1 if and only if success, leaving the mirror current at that delta |
| DeviceRefresh.ResyncThenCurrent | insteon_mqtt/handler/DeviceRefresh.py:111-139 | a reply that finds the mirror stale clears it and sends exactly one dump request, with a download handler over that mirror built from the same dump message and carrying the reply's cmd1; after a successful download a second refresh with the same delta neither clears nor sends; handle_refresh runs once per reply |
| DeviceRefresh.DeviceRefresh.constructor | insteon_mqtt/handler/DeviceRefresh.py:29-48 | the address is the device's, send_count starts at 1, num_retry defaults to 3, and the other fields are the arguments |
| DeviceRefresh.DeviceRefresh.IsExpired | insteon_mqtt/handler/DeviceRefresh.py:51-80 | verdict, new send_count and resends, each sent with the handler itself, are exactly those of `DeviceRefresh.Expire` |
| DeviceRefresh.DeviceRefresh.MsgReceived | insteon_mqtt/handler/DeviceRefresh.py:83-145 | verdict, new send_count, handle_refresh calls, the clear call and the dump request are exactly those of `DeviceRefresh.Receive` given the mirror's is_current(cmd1); the dump is sent with a download handler over the device's mirror, built from that same dump message and carrying the reply's cmd1 for its callback |

## Left out

- Logging calls: they have no effect on behaviour.
- The base handler's time-out (`Base.is_expired`, which reads the clock) is
  not part of this model. Its verdict is the `baseExpired` input of
  `DeviceRefresh.Expire` and `DeviceRefresh.DeviceRefresh.IsExpired`.
- The database download handler `DeviceDbGet` is not part of this model. The
  `DbGet` handler reference records that it is built over the device's mirror
  and from the dump request it is sent with (`dumpMsg`), and the delta its
  callback sets. Its completion callback is the separate
  `DeviceRefresh.DownloadDone(db, onDoneDelta, success)`; the reference does
  not hold that callback itself, since a datatype field cannot hold a method.
- The message classes are not part of this model. Their kinds are disjoint
  constructors of `Msg`, so an `isinstance` test accepts exactly one kind.
  The model assumes that the extended message classes are not subclasses of
  the standard ones: an extended echo or an extended input never matches the
  `OutStandard` / `InpStandard` tests of `StandardCmd` and `DeviceRefresh`.
  Inbound extended messages are `Other`.
- Message framing, flag encoding and hop counts: messages are datatype
  constructors carrying the decoded fields the handlers read.
- The protocol's dispatch loop, its queue and its handler-removal policy.
  `Protocol` is only an outbox. The `Feed` functions apply just the removal
  rule from the handler contract, to state properties over message sequences.
- What `handle_refresh`, `add_entry` and `clear` do to the device and the
  mirror. Each call is only recorded. `is_current` compares with the delta
  last set by `set_delta`.
- The callbacks' message strings: only the success flag and the entry are
  modelled.
- DeviceDbModify.DeviceDbModify.MsgReceived: does not state the relative
  order of calls across the mirror, the outbox and the callback, because each
  collaborator keeps its own call log.
- DeviceRefresh.DeviceRefresh.MsgReceived: does not state the relative order
  of the handle_refresh, clear and send calls, for the same reason.
