/** Handler for all-link database writes (command 0x2f) to a device. One
    write is in flight at a time; follow-up writes wait in a FIFO queue and
    each is sent only after the previous one was ACKed by the device. The
    first failure stops the chain. The database mirror is updated after each
    confirmed write, and the completion callback runs once for the whole
    chain, carrying the first entry submitted.

    `Receive` is the handler's reaction to one message as a value; the class
    `DeviceDbModify` is the handler object, whose `MsgReceived` is proved to
    do what `Receive` says. */
module DeviceDbModify {
  import opened Message
  import opened Db
  import opened Protocol

  /** One call of the completion callback on_done(success, message, entry);
      the message text is not modelled. */
  datatype DoneCall = DoneCall(success: bool, entry: Option<DbEntry>)

  /** A queued follow-up write: the message to send and the entry the
      database holds once the device confirms it. */
  datatype Update = Update(msg: Msg, entry: DbEntry)

  /** The handler's fields: the entry of the write in flight, the first entry
      ever submitted, and the writes still to send. */
  datatype ModifyState = ModifyState(entry: DbEntry, origEntry: DbEntry, next: seq<Update>)

  /** The reaction to one message: the verdict, the new fields, and the at
      most one add_entry, send (with the handler itself) and on_done call. */
  datatype Step = Step(result: Result, state: ModifyState, added: Option<DbEntry>,
                       sent: Option<Msg>, done: Option<DoneCall>)

  /** The modem's echo of a database write to the device at `dbAddr`. */
  predicate IsEcho(dbAddr: Addr, m: Msg) {
    m.OutExtended? && m.toAddr == dbAddr && m.cmd1 == DB_CMD
  }

  /** The device's reply to a database write. */
  predicate IsReply(dbAddr: Addr, m: Msg) {
    m.InpStandard? && m.fromAddr == dbAddr && m.cmd1 == DB_CMD
  }

  /** The entries the chain commits if every write is confirmed, in order. */
  function Pending(s: ModifyState): seq<DbEntry> {
    [s.entry] + Entries(s.next)
  }

  function Entries(us: seq<Update>): (es: seq<DbEntry>)
    ensures |es| == |us|
  {
    if us == [] then [] else [us[0].entry] + Entries(us[1..])
  }

  function Msgs(us: seq<Update>): (ms: seq<Msg>)
    ensures |ms| == |us|
  {
    if us == [] then [] else [us[0].msg] + Msgs(us[1..])
  }

  /** msg_received. */
  function Receive(dbAddr: Addr, s: ModifyState, m: Msg): (r: Step)
    // The first entry is never replaced.
    ensures r.state.origEntry == s.origEntry
    // Claimed exactly when it is this write's echo or reply; an echo ACK is
    // the only message that keeps the handler waiting.
    ensures r.result == Unknown <==> !IsEcho(dbAddr, m) && !IsReply(dbAddr, m)
    ensures r.result == Continue <==> IsEcho(dbAddr, m) && Acked(m)
    ensures r.result != Finished ==> r == Step(r.result, s, None, None, None)
    // Only a direct ACK commits, and what it commits is the entry in flight.
    ensures r.added == (if IsReply(dbAddr, m) && m.flag == DirectAck then Some(s.entry) else None)
    // A commit sends the head of the queue, which becomes the entry in flight.
    ensures r.sent.Some? <==> r.added.Some? && s.next != []
    ensures r.sent.Some? ==> r.sent.value == s.next[0].msg &&
                             r.state == ModifyState(s.next[0].entry, s.origEntry, s.next[1..])
    ensures r.sent.None? ==> r.state == s
    // on_done runs exactly when the chain ends: with the first entry after
    // the last commit, with no entry on any failure.
    ensures r.done.Some? <==> r.result == Finished && r.sent.None?
    ensures r.done.Some? ==>
              r.done.value == (if r.added.Some? then DoneCall(true, Some(s.origEntry)) else DoneCall(false, None))
  {
    if m.OutExtended? then
      if m.toAddr == dbAddr && m.cmd1 == DB_CMD then
        if Acked(m) then Step(Continue, s, None, None, None)
        else Step(Finished, s, None, None, Some(DoneCall(false, None)))
      else Step(Unknown, s, None, None, None)
    else if m.InpStandard? then
      if m.fromAddr == dbAddr && m.cmd1 == DB_CMD then
        if m.flag == DirectAck then
          if s.next != [] then
            Step(Finished, ModifyState(s.next[0].entry, s.origEntry, s.next[1..]),
                 Some(s.entry), Some(s.next[0].msg), None)
          else
            Step(Finished, s, Some(s.entry), None, Some(DoneCall(true, Some(s.origEntry))))
        else if m.flag == DirectNak then
          Step(Finished, s, None, None, Some(DoneCall(false, None)))
        else  // an unexpected reply type fails like a NAK
          Step(Finished, s, None, None, Some(DoneCall(false, None)))
      else Step(Unknown, s, None, None, None)
    else Step(Unknown, s, None, None, None)
  }

  /** What a sequence of messages offered to the handler leads to: its final
      fields, whether it is still installed, and every add_entry, send and
      on_done call, in order. */
  datatype Trace = Trace(state: ModifyState, active: bool, added: seq<DbEntry>,
                         sent: seq<Msg>, done: seq<DoneCall>)

  /** Offers `msgs` in order. A FINISHED verdict removes the handler unless it
      has just sent the next write with itself as handler, which installs it
      again. */
  function Feed(dbAddr: Addr, s: ModifyState, msgs: seq<Msg>): Trace
    decreases |msgs|
  {
    if msgs == [] then Trace(s, true, [], [], [])
    else
      var r := Receive(dbAddr, s, msgs[0]);
      if r.result == Finished && r.sent.None? then
        Trace(r.state, false, ToSeq(r.added), [], ToSeq(r.done))
      else
        var t := Feed(dbAddr, r.state, msgs[1..]);
        Trace(t.state, t.active, ToSeq(r.added) + t.added, ToSeq(r.sent) + t.sent,
              ToSeq(r.done) + t.done)
  }

  /** Whatever messages arrive, on_done runs at most once, and exactly once
      when the handler is gone; a success carries the first entry and a
      failure no entry. */
  lemma {:induction false} FeedCallsBackOnce(dbAddr: Addr, s: ModifyState, msgs: seq<Msg>)
    ensures |Feed(dbAddr, s, msgs).done| <= 1
    ensures Feed(dbAddr, s, msgs).done == [] <==> Feed(dbAddr, s, msgs).active
    ensures forall c :: c in Feed(dbAddr, s, msgs).done ==>
              c == DoneCall(true, Some(s.origEntry)) || c == DoneCall(false, None)
    decreases |msgs|
  {
    if msgs != [] {
      var r := Receive(dbAddr, s, msgs[0]);
      if !(r.result == Finished && r.sent.None?) {
        FeedCallsBackOnce(dbAddr, r.state, msgs[1..]);
      }
    }
  }

  /** Writes are committed head-first, in the order they were queued, and
      each follow-up message is sent in queue order. The chain reports success
      exactly when every entry has been committed; until then the entries
      committed and the ones still pending make up the whole chain. */
  lemma {:induction false} FeedAppliesInOrder(dbAddr: Addr, s: ModifyState, msgs: seq<Msg>)
    ensures var t := Feed(dbAddr, s, msgs);
            && t.state.origEntry == s.origEntry
            && t.sent + Msgs(t.state.next) == Msgs(s.next)
            && t.added <= Pending(s)
            && (t.added == Pending(s) <==> t.done == [DoneCall(true, Some(s.origEntry))])
            && (t.added != Pending(s) ==> t.added + Pending(t.state) == Pending(s))
    decreases |msgs|
  {
    if msgs != [] {
      var r := Receive(dbAddr, s, msgs[0]);
      var t := Feed(dbAddr, s, msgs);
      if r.result == Finished && r.sent.None? {
        if r.added.Some? {
          assert Pending(s) == [s.entry];
        }
      } else if r.sent.Some? {
        var t' := Feed(dbAddr, r.state, msgs[1..]);
        FeedAppliesInOrder(dbAddr, r.state, msgs[1..]);
        assert Pending(s) == [s.entry] + Pending(r.state);
        assert Msgs(s.next) == [s.next[0].msg] + Msgs(r.state.next);
        assert t.added == [s.entry] + t'.added;
        assert t.sent == [s.next[0].msg] + t'.sent;
        if t'.added != Pending(r.state) {
          assert t.added + Pending(t.state) == [s.entry] + (t'.added + Pending(t'.state));
        }
      } else {
        FeedAppliesInOrder(dbAddr, r.state, msgs[1..]);
      }
    }
  }

  /** The messages of a chain that goes well: echo ACKs and direct-ACK replies. */
  predicate IsAck(dbAddr: Addr, m: Msg) {
    (IsEcho(dbAddr, m) && Acked(m)) || (IsReply(dbAddr, m) && m.flag == DirectAck)
  }

  function CountReplies(dbAddr: Addr, msgs: seq<Msg>): nat {
    if msgs == [] then 0
    else (if IsReply(dbAddr, msgs[0]) then 1 else 0) + CountReplies(dbAddr, msgs[1..])
  }

  /** Taking one more than k from x followed by xs keeps x in front. */
  lemma PrefixOfCons<T>(x: T, xs: seq<T>, k: int)
    requires k >= 0
    ensures ([x] + xs)[..Min(k + 1, |xs| + 1)] == [x] + xs[..Min(k, |xs|)]
  {
    assert ([x] + xs)[1..] == xs;
  }

  /** A chain of N writes answered by c direct ACKs (echo ACKs in between in
      any number) has committed its first min(c, N) entries in submission
      order and sent as many follow-ups as the commits called for; the
      callback has run, once and with the first entry, exactly when c reached
      N. */
  lemma {:induction false} ChainOfAcks(dbAddr: Addr, s: ModifyState, msgs: seq<Msg>)
    requires forall i :: 0 <= i < |msgs| ==> IsAck(dbAddr, msgs[i])
    ensures var t := Feed(dbAddr, s, msgs);
            var c := CountReplies(dbAddr, msgs);
            var n := |Pending(s)|;
            && t.added == Pending(s)[..Min(c, n)]
            && t.sent == Msgs(s.next)[..Min(c, n - 1)]
            && t.done == (if c >= n then [DoneCall(true, Some(s.origEntry))] else [])
            && (t.active <==> c < n)
    decreases |msgs|
  {
    if msgs != [] {
      var r := Receive(dbAddr, s, msgs[0]);
      var rest := msgs[1..];
      forall i | 0 <= i < |rest| ensures IsAck(dbAddr, rest[i]) {
        assert rest[i] == msgs[i + 1];
      }
      var t := Feed(dbAddr, s, msgs);
      var c := CountReplies(dbAddr, msgs);
      if IsReply(dbAddr, msgs[0]) {
        if s.next == [] {
          assert Pending(s) == [s.entry];
        } else {
          ChainOfAcks(dbAddr, r.state, rest);
          var t' := Feed(dbAddr, r.state, rest);
          var c' := CountReplies(dbAddr, rest);
          assert c == c' + 1;
          assert t == Trace(t'.state, t'.active, [s.entry] + t'.added, [s.next[0].msg] + t'.sent, t'.done);
          PrefixOfCons(s.entry, Pending(r.state), c');
          PrefixOfCons(s.next[0].msg, Msgs(r.state.next), c');
        }
      } else {
        ChainOfAcks(dbAddr, r.state, rest);
      }
    }
  }

  /** Two writes E1 then E2: the first direct ACK commits E1 and sends the
      second write with no callback yet; the second commits E2 and reports
      success with E1. */
  lemma TwoWriteChain(dbAddr: Addr, e1: DbEntry, e2: DbEntry, msg2: Msg, echo: Msg, ack: Msg)
    requires IsEcho(dbAddr, echo) && Acked(echo)
    requires IsReply(dbAddr, ack) && ack.flag == DirectAck
    ensures var s := ModifyState(e1, e1, [Update(msg2, e2)]);
            var first := Feed(dbAddr, s, [echo, ack]);
            var both := Feed(dbAddr, s, [echo, ack, echo, ack]);
            && first.active && first.added == [e1] && first.sent == [msg2] && first.done == []
            && !both.active && both.added == [e1, e2] && both.sent == [msg2]
            && both.done == [DoneCall(true, Some(e1))]
  {
    var s := ModifyState(e1, e1, [Update(msg2, e2)]);
    assert [echo, ack][1..] == [ack] && [ack][1..] == [];
    assert CountReplies(dbAddr, [ack]) == 1;
    assert CountReplies(dbAddr, [echo, ack]) == 1;
    ChainOfAcks(dbAddr, s, [echo, ack]);
    assert [echo, ack, echo, ack][1..] == [ack, echo, ack] && [ack, echo, ack][1..] == [echo, ack];
    assert CountReplies(dbAddr, [ack, echo, ack]) == 2;
    assert CountReplies(dbAddr, [echo, ack, echo, ack]) == 2;
    ChainOfAcks(dbAddr, s, [echo, ack, echo, ack]);
  }

  function AddCalls(added: Option<DbEntry>): seq<DbCall> {
    if added.Some? then [DbCall.AddEntry(added.value)] else []
  }

  class DeviceDbModify {
    const db: DeviceDb
    var entry: DbEntry
    const origEntry: DbEntry
    var next: seq<Update>
    /** Every call made to the on_done callback, oldest first. */
    var doneCalls: seq<DoneCall>

    function State(): ModifyState
      reads this
    {
      ModifyState(entry, origEntry, next)
    }

    constructor (db: DeviceDb, entry: DbEntry)
      ensures this.db == db && State() == ModifyState(entry, entry, []) && doneCalls == []
    {
      this.db := db;
      this.entry := entry;
      origEntry := entry;
      next := [];
      doneCalls := [];
    }

    /** add_update: queue a write to send once the ones before it succeed. */
    method AddUpdate(msg: Msg, entry: DbEntry)
      modifies this
      ensures next == old(next) + [Update(msg, entry)]
      ensures this.entry == old(this.entry) && doneCalls == old(doneCalls)
    {
      next := next + [Update(msg, entry)];
    }

    /** msg_received: a database write commits on the device's direct ACK,
        which also sends the next queued write with this handler. */
    method MsgReceived(protocol: Protocol, msg: Msg) returns (res: Result)
      modifies this, db, protocol
      ensures var r := Receive(db.addr, old(State()), msg);
              && res == r.result && State() == r.state
              && db.calls == old(db.calls) + AddCalls(r.added) && db.delta == old(db.delta)
              && protocol.sent == old(protocol.sent) + SelfSends(r.sent, this)
              && doneCalls == old(doneCalls) + ToSeq(r.done)
    {
      if msg.OutExtended? {
        if msg.toAddr == db.addr && msg.cmd1 == DB_CMD {
          if msg.isAck == Some(true) {
            return Continue;
          } else {
            doneCalls := doneCalls + [DoneCall(false, None)];
            return Finished;
          }
        }
      } else if msg.InpStandard? {
        if msg.fromAddr == db.addr && msg.cmd1 == DB_CMD {
          if msg.flag == DirectAck {
            db.AddEntry(entry);
            if next != [] {
              var head := next[0];
              next := next[1..];
              entry := head.entry;
              protocol.Send(head.msg, Handler(this));
            } else {
              doneCalls := doneCalls + [DoneCall(true, Some(origEntry))];
            }
          } else if msg.flag == DirectNak {
            doneCalls := doneCalls + [DoneCall(false, None)];
          } else {
            doneCalls := doneCalls + [DoneCall(false, None)];
          }
          return Finished;
        }
      }
      return Unknown;
    }
  }

  /** The two-write chain on the handler object: after the first direct ACK
      E1 is in the mirror and the second write is on its way with the same
      handler, the callback not yet run; after the second both entries are
      in, in order, and the callback has run once with E1. */
  method TwoWriteScenario(addr: Addr, e1: DbEntry, e2: DbEntry, msg2: Msg, echo: Msg, ack: Msg)
    returns (h: DeviceDbModify, calls: seq<DbCall>, sent: seq<Queued>, done: seq<DoneCall>,
             results: seq<Result>)
    requires IsEcho(addr, echo) && Acked(echo)
    requires IsReply(addr, ack) && ack.flag == DirectAck
    ensures calls == [DbCall.AddEntry(e1), DbCall.AddEntry(e2)]
    ensures sent == [Queued(msg2, Handler(h))]
    ensures done == [DoneCall(true, Some(e1))]
    ensures results == [Continue, Finished, Continue, Finished]
  {
    var db := new DeviceDb(addr);
    var protocol := new Protocol();
    h := new DeviceDbModify(db, e1);
    h.AddUpdate(msg2, e2);
    var r1 := h.MsgReceived(protocol, echo);
    var r2 := h.MsgReceived(protocol, ack);
    assert db.calls == [DbCall.AddEntry(e1)] && h.doneCalls == [];
    assert protocol.sent == [Queued(msg2, Handler(h))];
    var r3 := h.MsgReceived(protocol, echo);
    var r4 := h.MsgReceived(protocol, ack);
    calls, sent, done, results := db.calls, protocol.sent, h.doneCalls, [r1, r2, r3, r4];
  }
}
