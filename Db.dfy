/** The device-side collaborators the handlers call into: the local mirror of
    a device's all-link database and the device itself. Storage and
    persistence are not modelled; each object records the calls made on it,
    in order, so that the handlers' contracts can say exactly which calls
    they make. */
module Db {
  import opened Message

  /** One all-link database record: a new record, an update of an existing
      one, or a deletion (`inUse` false). The handlers only pass it along. */
  datatype DbEntry = DbEntry(memLoc: int, addr: Addr, group: byte, inUse: bool,
                             isController: bool, data: seq<byte>)

  /** A call made on the database mirror. */
  datatype DbCall = AddEntry(entry: DbEntry) | Clear | SetDelta(delta: byte)

  class DeviceDb {
    /** Address of the device whose database this mirrors. */
    const addr: Addr
    /** The delta (database version byte) last recorded by SetDelta. */
    var delta: Option<byte>
    /** Every mutating call made on the mirror, oldest first. */
    var calls: seq<DbCall>

    constructor (addr: Addr)
      ensures this.addr == addr && delta == None && calls == []
    {
      this.addr := addr;
      delta := None;
      calls := [];
    }

    /** The mirror is current when the device reports the delta it recorded. */
    predicate IsCurrent(d: byte)
      reads this
    {
      delta == Some(d)
    }

    method AddEntry(entry: DbEntry)
      modifies this
      ensures calls == old(calls) + [DbCall.AddEntry(entry)] && delta == old(delta)
    {
      calls := calls + [DbCall.AddEntry(entry)];
    }

    method Clear()
      modifies this
      ensures calls == old(calls) + [DbCall.Clear] && delta == old(delta)
    {
      calls := calls + [DbCall.Clear];
    }

    method SetDelta(d: byte)
      modifies this
      ensures calls == old(calls) + [DbCall.SetDelta(d)] && delta == Some(d)
      ensures IsCurrent(d)
    {
      calls := calls + [DbCall.SetDelta(d)];
      delta := Some(d);
    }
  }

  class Device {
    const addr: Addr
    const db: DeviceDb
    /** Every message passed to handle_refresh, oldest first. */
    var refreshes: seq<Msg>

    constructor (db: DeviceDb)
      ensures addr == db.addr && this.db == db && refreshes == []
    {
      addr := db.addr;
      this.db := db;
      refreshes := [];
    }

    method HandleRefresh(msg: Msg)
      modifies this
      ensures refreshes == old(refreshes) + [msg]
    {
      refreshes := refreshes + [msg];
    }
  }
}
