/**
 * The Pure Data "modbus" object: an instance bound to one slave address and
 * one register window, which writes a list to the registers, reads them on a
 * bang, and opens (or reuses) a serial line by tty name. Every libmodbus call
 * is an oracle: its outcome is a parameter of the method that issues it, and
 * the call itself is recorded in a Trace.
 */
module ModbusPd {
  import opened Wrappers
  import opened Registers
  import opened Host

  /** The baud rate every instance opens its line with. */
  const DefaultBaud: int := 115200

  const NotOpen: string := "Modbus port not open"
  const UsingRecent: string := "Modbus port not open, using most recent TTY"
  const WriteMultiFailed: string := "Unable to write multiple registers"
  const WriteSingleFailed: string := "Unable to write single register"
  const ReadFailed: string := "Unimplemented register"
  const AlreadyOpen: string := "TTY already open"
  const Opening: string := "Opening modbus TTY "
  const InitFailed: string := "Error initialising modbus library"
  const ConnectFailed: string := "Unable to open serial port:"
  const NoIdString: string := "Unable to retrieve ID string"
  const NoVersion: string := "Unable to retrieve version number"
  const NotImplemented: string := "Not implemented"

  /**
   * What libmodbus answers to the calls that open issues: the context
   * modbus_new_rtu returns (None for NULL), whether modbus_connect succeeds,
   * whether modbus_report_slave_id succeeds, and the registers the version
   * read returns (None when it fails).
   */
  datatype OpenReplies = OpenReplies(
    created: Option<LinkId>,
    connected: bool,
    slaveId: bool,
    version: Option<seq<Word>>)

  /** The calls of the identity queries: the version read is issued only after the ID query succeeds. */
  function IdentifyOps(link: LinkId, slave: Byte, versionReg: Word, slaveIdOk: bool): (ops: seq<BusOp>)
    ensures |ops| == (if slaveIdOk then 3 else 2)
    ensures ops[0] == SetSlave(link, slave) && ops[1] == ReportSlaveId(link)
    ensures forall i :: 0 <= i < |ops| ==> !ops[i].NewRtu? && ops[i].link == link
  {
    [SetSlave(link, slave), ReportSlaveId(link)]
      + (if slaveIdOk then [ReadRegisters(link, versionReg, VersionRegs)] else [])
  }

  /** The console lines of the identity queries: one error at the first failure, or the two identity posts. */
  function IdentifyLog(slaveIdOk: bool, version: Option<seq<Word>>): (log: seq<Message>)
    requires version.Some? ==> |version.value| == VersionRegs
    ensures log != []
    ensures log[|log| - 1].Error? <==> !(slaveIdOk && version.Some?)
    ensures forall i :: 0 <= i < |log| && log[i].Error? ==> i == |log| - 1
  {
    if !slaveIdOk then [Error(NoIdString)]
    else if version.None? then [Error(NoVersion)]
    else [SlaveIdPost, VersionPost(FirmwareVersion(version.value[0], version.value[1]))]
  }

  /**
   * The identity queries stop at the first failure, and a firmware version
   * is reported exactly when both succeed, decoded from the two registers.
   */
  lemma IdentifyStopsAtFirstFailure(link: LinkId, slave: Byte, versionReg: Word,
                                    slaveIdOk: bool, version: Option<seq<Word>>, v: nat)
    requires version.Some? ==> |version.value| == VersionRegs
    ensures ReadRegisters(link, versionReg, VersionRegs) in IdentifyOps(link, slave, versionReg, slaveIdOk)
        <==> slaveIdOk
    ensures VersionPost(v) in IdentifyLog(slaveIdOk, version)
        <==> slaveIdOk && version.Some? && v == FirmwareVersion(version.value[0], version.value[1])
    ensures |IdentifyLog(slaveIdOk, version)| == 1 <==> !(slaveIdOk && version.Some?)
  {
  }

  /** One instance of the modbus object (t_modbus_class). */
  class ModbusObject {
    /** The tty last opened by this instance. */
    var tty: Option<string>
    /** The libmodbus context this instance uses (None for NULL). */
    var ctx: Option<LinkId>

    const baud: int
    const address: Byte
    const first: Word
    const last: Word
    const numRegs: int

    /** The configuration fixed at construction. */
    ghost predicate Valid()
    {
      baud == DefaultBaud && numRegs == NumRegs(first, last)
    }

    /**
     * Creation: no tty and no context yet; the address is kept modulo 256
     * and the register count is derived from the window.
     */
    constructor (address: Word, first: Word, last: Word)
      ensures Valid()
      ensures tty == None && ctx == None
      ensures this.address == ToByte(address) && this.first == first && this.last == last
    {
      tty := None;
      ctx := None;
      baud := DefaultBaud;
      this.address := ToByte(address);
      this.first := first;
      this.last := last;
      numRegs := NumRegs(first, last);
    }

    /**
     * Link selection before a transaction: keep the instance's own context,
     * else adopt the most recent tty's context with a notice, else report
     * that no port is open.
     */
    method SelectLink(reg: Registry, tr: Trace) returns (link: Option<LinkId>)
      requires reg.Valid()
      modifies this`ctx, tr
      ensures link == ctx
      ensures ctx == if old(ctx).Some? then old(ctx) else reg.Recent()
      ensures tr.ops == old(tr.ops)
      ensures tr.log == old(tr.log)
        + if old(ctx).Some? then [] else if reg.recent.Some? then [Post(UsingRecent)] else [Error(NotOpen)]
    {
      if ctx.None? {
        if reg.recent.None? {
          tr.Emit(Error(NotOpen));
          return ctx;
        }
        tr.Emit(Post(UsingRecent));
        ctx := Some(reg.links[reg.recent.value]);
      }
      link := ctx;
    }

    /**
     * Write the buffer: a nonzero last register selects the multiple-register
     * write of the whole window (even when first == last), a zero last
     * register the single-register write of the first value. A failed write
     * only reports an error.
     */
    method Send(reg: Registry, tr: Trace, regData: seq<Word>, writeOk: bool)
      requires Valid() && reg.Valid()
      requires |regData| == numRegs
      modifies this`ctx, tr
      ensures ctx == if old(ctx).Some? then old(ctx) else reg.Recent()
      ensures ctx.None? ==> tr.ops == old(tr.ops) && tr.log == old(tr.log) + [Error(NotOpen)]
      ensures ctx.Some? && last != 0 ==>
        tr.ops == old(tr.ops) + [SetSlave(ctx.value, address), WriteRegisters(ctx.value, first, numRegs, regData)]
      ensures ctx.Some? && last == 0 ==>
        tr.ops == old(tr.ops) + [SetSlave(ctx.value, address), WriteRegister(ctx.value, first, regData[0])]
      ensures ctx.Some? ==>
                tr.log == old(tr.log)
                  + (if old(ctx).Some? then [] else [Post(UsingRecent)])
                  + (if writeOk then [] else if last != 0 then [Error(WriteMultiFailed)] else [Error(WriteSingleFailed)])
    {
      var link := SelectLink(reg, tr);
      if link.None? {
        return;
      }
      tr.Issue(SetSlave(link.value, address));
      if last != 0 {
        tr.Issue(WriteRegisters(link.value, first, numRegs, regData));
        if !writeOk {
          tr.Emit(Error(WriteMultiFailed));
        }
        return;
      }
      tr.Issue(WriteRegister(link.value, first, regData[0]));
      if !writeOk {
        tr.Emit(Error(WriteSingleFailed));
      }
    }

    /**
     * A list arrives: fill one value per register from the atoms (repeating
     * the last atom, ignoring extras) and send the buffer.
     */
    method List(reg: Registry, tr: Trace, atoms: seq<Word>, writeOk: bool)
      requires Valid() && reg.Valid()
      requires numRegs >= 0
      requires numRegs > 0 ==> |atoms| >= 1
      modifies this`ctx, tr
      ensures ctx == if old(ctx).Some? then old(ctx) else reg.Recent()
      ensures ctx.None? ==> tr.ops == old(tr.ops) && tr.log == old(tr.log) + [Error(NotOpen)]
      ensures ctx.Some? && last != 0 ==>
                tr.ops == old(tr.ops)
                  + [SetSlave(ctx.value, address), WriteRegisters(ctx.value, first, numRegs, Filled(atoms, numRegs))]
      ensures ctx.Some? && last == 0 ==>
                tr.ops == old(tr.ops) + [SetSlave(ctx.value, address), WriteRegister(ctx.value, first, atoms[0])]
      ensures ctx.Some? ==>
                tr.log == old(tr.log)
                  + (if old(ctx).Some? then [] else [Post(UsingRecent)])
                  + (if writeOk then [] else if last != 0 then [Error(WriteMultiFailed)] else [Error(WriteSingleFailed)])
    {
      var regData := FillRegisters(atoms, numRegs);
      Send(reg, tr, regData, writeOk);
    }

    /**
     * A bang arrives: read the whole window with read-holding-registers (in
     * single-register mode too) and output the values in register order;
     * output nothing when the read fails.
     */
    method Bang(reg: Registry, tr: Trace, reply: Option<seq<Word>>) returns (out: Option<seq<Word>>)
      requires Valid() && reg.Valid()
      requires numRegs >= 1
      requires reply.Some? ==> |reply.value| == numRegs
      modifies this`ctx, tr
      ensures ctx == if old(ctx).Some? then old(ctx) else reg.Recent()
      ensures ctx.None? ==> out.None? && tr.ops == old(tr.ops) && tr.log == old(tr.log) + [Error(NotOpen)]
      ensures ctx.Some? ==>
        tr.ops == old(tr.ops) + [SetSlave(ctx.value, address), ReadRegisters(ctx.value, first, numRegs)]
      ensures ctx.Some? ==> out == reply
      ensures ctx.Some? ==>
                tr.log == old(tr.log)
                  + (if old(ctx).Some? then [] else [Post(UsingRecent)])
                  + (if reply.None? then [Error(ReadFailed)] else [])
      ensures out.Some? ==> |out.value| == numRegs
    {
      var link := SelectLink(reg, tr);
      if link.None? {
        return None;
      }
      tr.Issue(SetSlave(link.value, address));
      tr.Issue(ReadRegisters(link.value, first, numRegs));
      if reply.None? {
        tr.Emit(Error(ReadFailed));
        return None;
      }
      var val := reply.value;
      var outv: seq<Word> := [];
      var i := 0;
      while i < numRegs
        invariant 0 <= i <= numRegs
        invariant outv == val[..i]
      {
        outv := outv + [val[i]];
        i := i + 1;
      }
      assert val[..i] == val;
      out := Some(outv);
    }

    /**
     * The identity queries on an attached context: report-slave-id, then the
     * version registers; stop at the first failure.
     */
    method Identify(tr: Trace, link: LinkId, versionReg: Word, replies: OpenReplies)
      requires replies.version.Some? ==> |replies.version.value| == VersionRegs
      modifies tr
      ensures tr.ops == old(tr.ops) + IdentifyOps(link, address, versionReg, replies.slaveId)
      ensures tr.log == old(tr.log) + IdentifyLog(replies.slaveId, replies.version)
    {
      tr.Issue(SetSlave(link, address));
      tr.Issue(ReportSlaveId(link));
      if !replies.slaveId {
        tr.Emit(Error(NoIdString));
        return;
      }
      tr.Issue(ReadRegisters(link, versionReg, VersionRegs));
      if replies.version.None? {
        tr.Emit(Error(NoVersion));
        return;
      }
      var version := replies.version.value;
      tr.Emit(SlaveIdPost);
      tr.Emit(VersionPost(FirmwareVersion(version[0], version[1])));
    }

    /**
     * Open tty s: reuse its context when it is already open; otherwise create
     * and connect a new context, and register it (making s the most recent
     * tty) only when both succeed. Then query the slave's identity. The
     * version registers start at versionReg (MB_VERSION).
     */
    method Open(reg: Registry, tr: Trace, s: string, replies: OpenReplies, versionReg: Word)
      requires reg.Valid()
      requires replies.version.Some? ==> |replies.version.value| == VersionRegs
      modifies this`tty, this`ctx, reg, tr
      ensures reg.Valid()
      ensures tty == Some(s)
      // Already open: reuse, registry untouched.
      ensures s in old(reg.links) ==>
        && ctx == Some(old(reg.links)[s])
        && reg.links == old(reg.links) && reg.recent == old(reg.recent)
        && tr.ops == old(tr.ops) + IdentifyOps(ctx.value, address, versionReg, replies.slaveId)
        && tr.log == old(tr.log) + [Post(AlreadyOpen)] + IdentifyLog(replies.slaveId, replies.version)
      // Not open: the context is whatever modbus_new_rtu returned.
      ensures s !in old(reg.links) ==> ctx == replies.created
      ensures s !in old(reg.links) && replies.created.None? ==>
        && reg.links == old(reg.links) && reg.recent == old(reg.recent)
        && tr.ops == old(tr.ops) + [NewRtu(s, baud, 'N', 8, 1)]
        && tr.log == old(tr.log) + [Post(Opening + s), Error(InitFailed)]
      ensures s !in old(reg.links) && replies.created.Some? && !replies.connected ==>
        && reg.links == old(reg.links) && reg.recent == old(reg.recent)
        && tr.ops == old(tr.ops) + [NewRtu(s, baud, 'N', 8, 1), Connect(replies.created.value)]
        && tr.log == old(tr.log) + [Post(Opening + s), Error(ConnectFailed)]
      ensures s !in old(reg.links) && replies.created.Some? && replies.connected ==>
        && reg.links == old(reg.links)[s := replies.created.value] && reg.recent == Some(s)
        && tr.ops == old(tr.ops) + [NewRtu(s, baud, 'N', 8, 1), Connect(replies.created.value)]
             + IdentifyOps(replies.created.value, address, versionReg, replies.slaveId)
        && tr.log == old(tr.log) + [Post(Opening + s)] + IdentifyLog(replies.slaveId, replies.version)
    {
      tty := Some(s);
      if s in reg.links {
        tr.Emit(Post(AlreadyOpen));
        ctx := Some(reg.links[s]);
      } else {
        tr.Emit(Post(Opening + s));
        tr.Issue(NewRtu(s, baud, 'N', 8, 1));
        ctx := replies.created;
        if ctx.None? {
          tr.Emit(Error(InitFailed));
          return;
        }
        tr.Issue(Connect(ctx.value));
        if !replies.connected {
          tr.Emit(Error(ConnectFailed));
          return;
        }
        reg.Register(s, ctx.value);
      }
      Identify(tr, ctx.value, versionReg, replies);
    }

    /** Changing the baud rate is rejected: an error is reported and nothing changes. */
    method Baud(tr: Trace, f: int)
      modifies tr
      ensures tr.log == old(tr.log) + [Error(NotImplemented)]
      ensures tr.ops == old(tr.ops)
    {
      tr.Emit(Error(NotImplemented));
    }
  }

  /**
   * Two lines opened in turn, A then B, and a third instance that never
   * opened one: its list write falls back to B, the most recent, with a
   * notice, and the single value 7 is repeated into registers 10 to 12.
   */
  method MostRecentFallback(a: string, b: string, la: LinkId, lb: LinkId)
    returns (used: Option<LinkId>, lastOp: BusOp, notice: Message)
    requires a != b
    ensures used == Some(lb)
    ensures lastOp == WriteRegisters(lb, 10, 3, [7, 7, 7])
    ensures notice == Post(UsingRecent)
  {
    var reg := new Registry();
    var tr := new Trace();
    var x := new ModbusObject(1, 10, 12);
    x.Open(reg, tr, a, OpenReplies(Some(la), true, false, None), 0);
    var y := new ModbusObject(1, 10, 12);
    y.Open(reg, tr, b, OpenReplies(Some(lb), true, false, None), 0);
    var z := new ModbusObject(2, 10, 12);
    var before := |tr.log|;
    z.List(reg, tr, [7], true);
    FilledSingleAtom();
    used := z.ctx;
    lastOp := tr.ops[|tr.ops| - 1];
    notice := tr.log[before];
  }
}
