/** Handler for one outbound standard command: it claims the modem's echo of
    the command and then the device's reply, which it hands to a callback.
    The handler's fields are fixed at construction, so it is a value here,
    and calling the callback is part of what `Receive` returns. */
module StandardCmd {
  import opened Message

  /** The address and command byte the replies must carry. */
  datatype StandardCmd = StandardCmd(addr: Addr, cmd: byte)

  /** What the handler does with one message: its verdict, and the message
      passed to the callback, if any. */
  datatype Reaction = Reaction(result: Result, callback: Option<Msg>)

  /** The constructor: the expected address and command are those of the
      message being sent. */
  function New(msg: Msg): StandardCmd
    requires msg.OutStandard? || msg.OutExtended?
  {
    StandardCmd(msg.toAddr, msg.cmd1)
  }

  /** The modem's echo of the command this handler was built for. */
  predicate IsEcho(h: StandardCmd, m: Msg) {
    m.OutStandard? && m.toAddr == h.addr && m.cmd1 == h.cmd
  }

  /** The device's reply to that command. */
  predicate IsReply(h: StandardCmd, m: Msg) {
    m.InpStandard? && m.fromAddr == h.addr && m.cmd1 == h.cmd
  }

  /** msg_received. An echo is claimed whether the modem ACKed or NAKed it:
      the outcome is left to the device's reply, which goes to the callback
      unexamined and ends the handler. */
  function Receive(h: StandardCmd, m: Msg): (r: Reaction)
    ensures r.result == Continue <==> IsEcho(h, m)
    ensures r.result == Finished <==> IsReply(h, m)
    ensures r.callback.Some? <==> r.result == Finished
    ensures r.callback.Some? ==> r.callback.value == m
  {
    match m
    case OutStandard(toAddr, cmd1, _, _) =>
      if toAddr == h.addr && cmd1 == h.cmd then Reaction(Continue, None)
      else Reaction(Unknown, None)
    case InpStandard(fromAddr, _, _, cmd1, _) =>
      if fromAddr == h.addr && cmd1 == h.cmd then Reaction(Finished, Some(m))
      else Reaction(Unknown, None)
    case _ => Reaction(Unknown, None)
  }

  /** A handler built for `msg` claims the echo of `msg`, ACK or NAK, and
      the reply from `msg`'s destination carrying the same command. */
  lemma NewClaimsOwnExchange(msg: Msg, echoAck: Option<bool>, flag: FlagType, toAddr: Addr, cmd2: byte)
    requires msg.OutStandard?
    ensures Receive(New(msg), OutStandard(msg.toAddr, msg.cmd1, msg.cmd2, echoAck)) == Reaction(Continue, None)
    ensures var reply := InpStandard(msg.toAddr, toAddr, flag, msg.cmd1, cmd2);
            Receive(New(msg), reply) == Reaction(Finished, Some(reply))
  {
  }

  /** What a sequence of messages offered to one handler leads to. */
  datatype Outcome = Outcome(active: bool, callbacks: seq<Msg>, results: seq<Result>)

  /** Offers `msgs` in order, as long as the handler has not finished. */
  function Feed(h: StandardCmd, msgs: seq<Msg>): Outcome
    decreases |msgs|
  {
    if msgs == [] then Outcome(true, [], [])
    else
      var r := Receive(h, msgs[0]);
      if r.result == Finished then Outcome(false, ToSeq(r.callback), [Finished])
      else
        var o := Feed(h, msgs[1..]);
        Outcome(o.active, ToSeq(r.callback) + o.callbacks, [r.result] + o.results)
  }

  /** Messages that are not this handler's reply leave it waiting, whatever
      they are: nothing reaches the callback and nothing is finished. */
  lemma {:induction false} NoReplyKeepsWaiting(h: StandardCmd, msgs: seq<Msg>)
    requires forall i :: 0 <= i < |msgs| ==> !IsReply(h, msgs[i])
    ensures Feed(h, msgs).active && Feed(h, msgs).callbacks == []
    ensures |Feed(h, msgs).results| == |msgs|
    ensures forall i :: 0 <= i < |msgs| ==>
              Feed(h, msgs).results[i] == (if IsEcho(h, msgs[i]) then Continue else Unknown)
  {
    if msgs != [] {
      NoReplyKeepsWaiting(h, msgs[1..]);
      var o := Feed(h, msgs[1..]);
      assert Feed(h, msgs).results == [Receive(h, msgs[0]).result] + o.results;
      forall i | 1 <= i < |msgs|
        ensures Feed(h, msgs).results[i] == (if IsEcho(h, msgs[i]) then Continue else Unknown)
      {
        assert msgs[1..][i - 1] == msgs[i];
      }
    }
  }

  /** The first reply that matches is the one handed to the callback, exactly
      once, however many unrelated messages came before it; the handler then
      finishes and sees nothing after it. */
  lemma {:induction false} HandledAtFirstReply(h: StandardCmd, msgs: seq<Msg>, j: nat)
    requires j < |msgs| && IsReply(h, msgs[j])
    requires forall i :: 0 <= i < j ==> !IsReply(h, msgs[i])
    ensures !Feed(h, msgs).active
    ensures Feed(h, msgs).callbacks == [msgs[j]]
    ensures |Feed(h, msgs).results| == j + 1 && Feed(h, msgs).results[j] == Finished
    ensures forall i :: 0 <= i < j ==> Feed(h, msgs).results[i] != Finished
  {
    if j > 0 {
      forall i | 0 <= i < j - 1 ensures !IsReply(h, msgs[1..][i]) {
        assert msgs[1..][i] == msgs[i + 1];
      }
      HandledAtFirstReply(h, msgs[1..], j - 1);
      assert msgs[1..][j - 1] == msgs[j];
      var o := Feed(h, msgs[1..]);
      assert Feed(h, msgs).results == [Receive(h, msgs[0]).result] + o.results;
    }
  }
}
