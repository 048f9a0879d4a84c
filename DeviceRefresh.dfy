/** Handler for a device refresh (status probe). A probe that times out is
    resent a bounded number of times. The device's reply updates the device's
    state and, when the reported database delta is stale or a download is
    forced, clears the database mirror and requests a full dump, whose
    completion records the new delta.

    `Expire` and `Receive` are the handler's reactions as values; the class
    `DeviceRefresh` is the handler object, whose methods are proved to do
    what they say. */
module DeviceRefresh {
  import opened Message
  import opened Db
  import opened Protocol

  /** The handler's fields; only `sendCount` ever changes. */
  datatype Refresh = Refresh(addr: Addr, msg: Msg, force: bool, numRetry: int, sendCount: int)

  /** The constructor: the probe has been sent once. */
  function New(addr: Addr, msg: Msg, force: bool, numRetry: int := 3): Refresh {
    Refresh(addr, msg, force, numRetry, 1)
  }

  /** The probe is never sent more often than the retry limit allows (once
      when the limit is below one). */
  predicate RetryBound(s: Refresh) {
    s.sendCount <= Max(1, s.numRetry)
  }

  datatype ExpireStep = ExpireStep(expired: bool, state: Refresh, resent: Option<Msg>)

  /** is_expired, given the base handler's time-out verdict. */
  function Expire(s: Refresh, baseExpired: bool): (r: ExpireStep)
    // Before the time-out nothing happens.
    ensures !baseExpired ==> r == ExpireStep(false, s, None)
    // After it the handler always reports expiry, and resends its own probe
    // exactly when tries remain, counting the try.
    ensures baseExpired ==> r.expired
    ensures r.resent.Some? <==> baseExpired && s.sendCount < s.numRetry
    ensures r.resent.Some? ==> r.resent.value == s.msg &&
                               r.state == Refresh(s.addr, s.msg, s.force, s.numRetry, s.sendCount + 1)
    ensures r.resent.None? ==> r.state == s
    ensures RetryBound(s) ==> RetryBound(r.state)
  {
    if !baseExpired then ExpireStep(false, s, None)
    else if s.sendCount < s.numRetry then
      ExpireStep(true, Refresh(s.addr, s.msg, s.force, s.numRetry, s.sendCount + 1), Some(s.msg))
    else ExpireStep(true, s, None)
  }

  /** A database download to request: the dump message, and the delta the
      download's completion callback records on success. */
  datatype Download = Download(msg: Msg, delta: byte)

  /** The reaction to one message: the verdict, the new fields, the message
      passed to device.handle_refresh, whether db.clear() is called, and the
      download sent. */
  datatype RefreshStep = RefreshStep(result: Result, state: Refresh, refreshed: Option<Msg>,
                                     cleared: bool, download: Option<Download>)

  /** The modem's echo of a message to the device; the command is not compared. */
  predicate IsEcho(s: Refresh, m: Msg) {
    m.OutStandard? && m.toAddr == s.addr
  }

  /** The device's reply: any standard message from it. */
  predicate IsReply(s: Refresh, m: Msg) {
    m.InpStandard? && m.fromAddr == s.addr
  }

  /** The request for every record of the device's all-link database: an
      extended direct message with command 0x2f, 0x00 and fourteen zero bytes. */
  function DumpRequest(addr: Addr): Msg {
    OutExtended(addr, DB_CMD, 0x00, seq(14, _ => 0), None)
  }

  /** msg_received; `current` is the mirror's db.is_current(m.cmd1). */
  function Receive(s: Refresh, current: bool, m: Msg): (r: RefreshStep)
    ensures r.result == Unknown <==> !IsEcho(s, m) && !IsReply(s, m)
    ensures r.result == Continue <==> IsEcho(s, m) && Acked(m)
    // Only the reply has effects: it ends the handler, stops the retries and
    // updates the device.
    ensures !IsReply(s, m) ==> r == RefreshStep(r.result, s, None, false, None)
    ensures IsReply(s, m) ==> && r.result == Finished
                              && r.state == Refresh(s.addr, s.msg, s.force, s.numRetry, s.numRetry)
                              && r.refreshed == Some(m)
    // A stale or forced database is cleared and downloaded again; the
    // download is tied to the delta of this reply.
    ensures r.cleared <==> IsReply(s, m) && (s.force || !current)
    ensures r.download == (if r.cleared then Some(Download(DumpRequest(s.addr), m.cmd1)) else None)
    ensures RetryBound(s) ==> RetryBound(r.state)
  {
    if m.OutStandard? && m.toAddr == s.addr then
      if Acked(m) then RefreshStep(Continue, s, None, false, None)
      else RefreshStep(Finished, s, None, false, None)
    else if m.InpStandard? && m.fromAddr == s.addr then
      var s' := Refresh(s.addr, s.msg, s.force, s.numRetry, s.numRetry);
      if !s.force && current then RefreshStep(Finished, s', Some(m), false, None)
      else RefreshStep(Finished, s', Some(m), true, Some(Download(DumpRequest(s.addr), m.cmd1)))
    else RefreshStep(Unknown, s, None, false, None)
  }

  /** What a sequence of expiry checks with no reply leads to: the final
      fields, whether the handler is still installed, and the resent probes. */
  datatype ExpireTrace = ExpireTrace(state: Refresh, active: bool, resent: seq<Msg>)

  /** Runs the checks in order. An expiry removes the handler unless it has
      just resent its probe with itself as handler. */
  function ExpireFeed(s: Refresh, checks: seq<bool>): ExpireTrace
    decreases |checks|
  {
    if checks == [] then ExpireTrace(s, true, [])
    else
      var r := Expire(s, checks[0]);
      if r.expired && r.resent.None? then ExpireTrace(r.state, false, [])
      else
        var t := ExpireFeed(r.state, checks[1..]);
        ExpireTrace(t.state, t.active, ToSeq(r.resent) + t.resent)
  }

  function CountExpired(checks: seq<bool>): nat {
    if checks == [] then 0 else (if checks[0] then 1 else 0) + CountExpired(checks[1..])
  }

  /** With no reply, the probe is resent once per time-out until the tries
      are used up, min(k, numRetry - sendCount) times for k time-outs, and
      the handler is removed at the first time-out after that. */
  lemma {:induction false} RetriesBounded(s: Refresh, checks: seq<bool>)
    ensures var t := ExpireFeed(s, checks);
            var cap := Max(0, s.numRetry - s.sendCount);
            && |t.resent| == Min(CountExpired(checks), cap)
            && (forall i :: 0 <= i < |t.resent| ==> t.resent[i] == s.msg)
            && t.state == Refresh(s.addr, s.msg, s.force, s.numRetry, s.sendCount + |t.resent|)
            && (t.active <==> CountExpired(checks) <= cap)
    decreases |checks|
  {
    if checks != [] {
      var r := Expire(s, checks[0]);
      if !(r.expired && r.resent.None?) {
        RetriesBounded(r.state, checks[1..]);
      }
    }
  }

  /** A new handler with the default limit of three tries resends its probe
      twice and is removed at the third time-out. */
  lemma DefaultRetriesTwice(addr: Addr, msg: Msg, force: bool, checks: seq<bool>)
    requires CountExpired(checks) >= 3
    ensures ExpireFeed(New(addr, msg, force), checks).resent == [msg, msg]
    ensures !ExpireFeed(New(addr, msg, force), checks).active
  {
    RetriesBounded(New(addr, msg, force), checks);
  }

  /** Once the reply has arrived, no later time-out resends the probe. */
  lemma {:induction false} NoRetryAfterReply(s: Refresh, current: bool, m: Msg, checks: seq<bool>)
    requires IsReply(s, m)
    ensures ExpireFeed(Receive(s, current, m).state, checks).resent == []
  {
    RetriesBounded(Receive(s, current, m).state, checks);
  }

  function DownloadSends(download: Option<Download>, db: DeviceDb): seq<Queued> {
    if download.Some? then [Queued(download.value.msg, DbGet(db, download.value.delta, download.value.msg))] else []
  }

  /** The completion callback of the download: on success the mirror records
      the delta captured from the reply, so it is current at that delta. */
  method DownloadDone(db: DeviceDb, delta: byte, success: bool)
    modifies db
    ensures db.calls == old(db.calls) + (if success then [DbCall.SetDelta(delta)] else [])
    ensures success ==> db.IsCurrent(delta)
    ensures !success ==> db.delta == old(db.delta)
  {
    if success {
      db.SetDelta(delta);
    }
  }

  class DeviceRefresh {
    const device: Device
    const addr: Addr
    const msg: Msg
    const force: bool
    var sendCount: int
    const numRetry: int

    function State(): Refresh
      reads this
    {
      Refresh(addr, msg, force, numRetry, sendCount)
    }

    constructor (device: Device, msg: Msg, force: bool, numRetry: int := 3)
      ensures this.device == device && State() == New(device.addr, msg, force, numRetry)
      ensures RetryBound(State())
    {
      this.device := device;
      addr := device.addr;
      this.msg := msg;
      this.force := force;
      sendCount := 1;
      this.numRetry := numRetry;
    }

    /** is_expired: resends the probe with this handler while tries remain. */
    method IsExpired(protocol: Protocol, baseExpired: bool) returns (expired: bool)
      modifies this, protocol
      ensures var r := Expire(old(State()), baseExpired);
              && expired == r.expired && State() == r.state
              && protocol.sent == old(protocol.sent) + SelfSends(r.resent, this)
    {
      if !baseExpired {
        return false;
      }
      if sendCount < numRetry {
        sendCount := sendCount + 1;
        protocol.Send(msg, Handler(this));
      }
      return true;
    }

    /** msg_received: the device's reply refreshes the device and, unless the
        database is current and no download is forced, starts a download. */
    method MsgReceived(protocol: Protocol, m: Msg) returns (res: Result)
      modifies this, device, device.db, protocol
      ensures var current := m.InpStandard? && old(device.db.IsCurrent(m.cmd1));
              var r := Receive(old(State()), current, m);
              && res == r.result && State() == r.state
              && device.refreshes == old(device.refreshes) + ToSeq(r.refreshed)
              && device.db.calls == old(device.db.calls) + (if r.cleared then [DbCall.Clear] else [])
              && device.db.delta == old(device.db.delta)
              && protocol.sent == old(protocol.sent) + DownloadSends(r.download, device.db)
    {
      if m.OutStandard? && m.toAddr == addr {
        if m.isAck == Some(true) {
          return Continue;
        } else {
          return Finished;
        }
      } else if m.InpStandard? && m.fromAddr == addr {
        sendCount := numRetry;
        device.HandleRefresh(m);
        if !force && device.db.IsCurrent(m.cmd1) {
          // the database is current at this delta
        } else {
          device.db.Clear();
          var dbMsg := DumpRequest(addr);
          protocol.Send(dbMsg, DbGet(device.db, m.cmd1, dbMsg));
        }
        return Finished;
      }
      return Unknown;
    }
  }

  /** A refresh whose reply finds the (empty) mirror stale clears it and
      requests a dump; once that download succeeds, a second refresh answered
      with the same delta finds the mirror current and does nothing more. */
  method ResyncThenCurrent(addr: Addr, probe: Msg, reply: Msg)
    returns (db: DeviceDb, calls: seq<DbCall>, sent: seq<Queued>, refreshes: seq<Msg>,
             results: seq<Result>)
    requires reply.InpStandard? && reply.fromAddr == addr
    ensures calls == [DbCall.Clear, DbCall.SetDelta(reply.cmd1)]
    ensures sent == [Queued(DumpRequest(addr), DbGet(db, reply.cmd1, DumpRequest(addr)))]
    ensures refreshes == [reply, reply]
    ensures results == [Finished, Finished]
  {
    db := new DeviceDb(addr);
    var device := new Device(db);
    var protocol := new Protocol();
    var first := new DeviceRefresh(device, probe, false);
    var r1 := first.MsgReceived(protocol, reply);
    assert protocol.sent == [Queued(DumpRequest(addr), DbGet(db, reply.cmd1, DumpRequest(addr)))];
    DownloadDone(db, reply.cmd1, true);
    var second := new DeviceRefresh(device, probe, false);
    var r2 := second.MsgReceived(protocol, reply);
    calls, sent, refreshes, results := db.calls, protocol.sent, device.refreshes, [r1, r2];
  }
}
