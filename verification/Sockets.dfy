/** What the operating system does behind a descriptor, as scripts of results chosen by an adversary. */
module Sockets {
  import opened Tpkt

  datatype Errno = EINTR | EAGAIN | EBADF | EPIPE | EIO | EOther

  /** One result of `select` on the single descriptor to be written. */
  datatype PollResult = PollReady(isSet: bool) | PollTimeout | PollFailed(errno: Errno)

  /** One result of `send` or `recv`. `Moved(k)` moves k bytes, or as many as were asked for or remain. */
  datatype IoResult = Moved(count: nat) | Failed(errno: Errno)

  function Min(a: nat, b: nat): nat {
    if a < b then a else b
  }

  /** A connection: its number in the order of opening, every byte that ever arrives on it, the part not yet
      read, the bytes written, and two records kept for the specification, the frames accepted and the frames
      delivered so far. */
  datatype Conn = Conn(id: nat, arrived: seq<Byte>, inbound: seq<Byte>, outbound: seq<Byte>,
                       got: seq<seq<Byte>>, sent: seq<seq<Byte>>)

  function Opened(id: nat, arrived: seq<Byte>): Conn {
    Conn(id, arrived, arrived, [], [], [])
  }

  /** The open connections by descriptor, the closed ones in closing order, and how many were ever opened. */
  datatype Net = Net(conns: map<int, Conn>, closed: seq<Conn>, count: nat) {

    function Open(fd: int, arrived: seq<Byte>): Net {
      Net(conns[fd := Opened(count, arrived)], closed, count + 1)
    }

    /** `c` is one of its connections, still open or already closed. */
    predicate Has(c: Conn, isOpen: bool) {
      if isOpen then exists fd :: fd in conns && conns[fd] == c else c in closed
    }

    /** `close`; closing a descriptor that is not open does nothing. */
    function Close(fd: int): Net {
      if fd in conns then Net(conns - {fd}, closed + [conns[fd]], count) else this
    }
  }
}
