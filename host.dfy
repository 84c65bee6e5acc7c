/**
 * What the modbus object talks to: the libmodbus contexts it drives, the
 * process-wide table of open serial lines, and the Pure Data console.
 */
module Host {
  import opened Wrappers
  import opened Registers

  /** A libmodbus context (a modbus_t pointer), known only by its identity. */
  datatype LinkId = LinkId(handle: nat)

  /** One call into libmodbus, in the order the object issues them. */
  datatype BusOp =
    | NewRtu(device: string, baud: int, parity: char, dataBits: nat, stopBits: nat)
    | Connect(link: LinkId)
    | SetSlave(link: LinkId, slave: Byte)
    | WriteRegisters(link: LinkId, first: Word, count: int, values: seq<Word>)
    | WriteRegister(link: LinkId, reg: Word, value: Word)
    | ReadRegisters(link: LinkId, first: Word, count: int)
    | ReportSlaveId(link: LinkId)

  /** One line on the Pure Data console: pd_error, post, and the two identity posts. */
  datatype Message =
    | Error(text: string)
    | Post(text: string)
    | SlaveIdPost
    | VersionPost(version: nat)

  /** The record of libmodbus calls issued and console lines written. */
  class Trace {
    var ops: seq<BusOp>
    var log: seq<Message>

    constructor ()
      ensures ops == [] && log == []
    {
      ops := [];
      log := [];
    }

    /** Issue one libmodbus call. */
    method Issue(op: BusOp)
      modifies this
      ensures ops == old(ops) + [op] && log == old(log)
    {
      ops := ops + [op];
    }

    /** Write one console line. */
    method Emit(m: Message)
      modifies this
      ensures log == old(log) + [m] && ops == old(ops)
    {
      log := log + [m];
    }
  }

  /**
   * The open serial lines: each tty symbol's bound context (its s_thing) and
   * the most recently opened tty (recent_tty). Empty at process start; entries
   * are never removed.
   */
  class Registry {
    var links: map<string, LinkId>
    var recent: Option<string>

    /** The most recent tty is always one whose line is open. */
    ghost predicate Valid()
      reads this
    {
      recent.Some? ==> recent.value in links
    }

    constructor ()
      ensures Valid() && links == map[] && recent == None
    {
      links := map[];
      recent := None;
    }

    /** The context of the most recently opened tty, if any. */
    function Recent(): (r: Option<LinkId>)
      reads this
      requires Valid()
      ensures r.Some? <==> recent.Some?
      ensures r.Some? ==> r.value in links.Values
    {
      if recent.Some? then Some(links[recent.value]) else None
    }

    /** Bind a newly connected context to its tty and make it the most recent. */
    method Register(tty: string, link: LinkId)
      modifies this
      ensures Valid()
      ensures links == old(links)[tty := link] && recent == Some(tty)
    {
      links := links[tty := link];
      recent := Some(tty);
    }
  }
}
