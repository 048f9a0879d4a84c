/** Insteon messages as the handlers see them, and the verdict a handler gives
    on each message offered to it. Byte framing and flag encoding are not part
    of this model: every message kind is one constructor carrying the decoded
    fields the handlers read. */
module Message {

  newtype byte = x: int | 0 <= x < 256

  /** A three-byte Insteon device address. */
  datatype Addr = Addr(hi: byte, mid: byte, lo: byte)

  /** The message type held in the flags byte of a standard or extended message. */
  datatype FlagType =
    | Broadcast
    | Direct
    | DirectAck
    | DirectNak
    | AllLinkBroadcast
    | AllLinkCleanup
    | CleanupAck
    | CleanupNak

  /** `isAck` is None on a message built locally for sending and becomes
      Some(ack) on the echo the modem reflects back; only Some(true) is an
      ACK, as in the Python truth test of the attribute. */
  datatype Msg =
    | OutStandard(toAddr: Addr, cmd1: byte, cmd2: byte, isAck: Option<bool>)
    | OutExtended(toAddr: Addr, cmd1: byte, cmd2: byte, data: seq<byte>, isAck: Option<bool>)
    | InpStandard(fromAddr: Addr, toAddr: Addr, flag: FlagType, cmd1: byte, cmd2: byte)
    | Other  // any other message class (extended inputs, modem replies, ...)

  datatype Option<T> = None | Some(value: T)

  /** The at most one element an Option holds, as a sequence. */
  function ToSeq<T>(o: Option<T>): seq<T> {
    if o.Some? then [o.value] else []
  }

  function Max(a: int, b: int): int { if a >= b then a else b }

  function Min(a: int, b: int): int { if a <= b then a else b }

  /** UNKNOWN: not mine; CONTINUE: mine, more expected; FINISHED: mine, remove me. */
  datatype Result = Unknown | Continue | Finished

  predicate Acked(m: Msg)
    requires m.OutStandard? || m.OutExtended?
  {
    m.isAck == Some(true)
  }

  /** All-link database command byte, used both to write a record and to
      request a full dump. */
  const DB_CMD: byte := 0x2f
}
