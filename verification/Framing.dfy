/** The loops of `TcpSend` and `TcpRecv`, which the host and the VM client share line for line. */
module Framing {
  import opened Tpkt
  import opened Sockets

  const TCP_SND_RETRY := 3

  // ---------------------------------------------------------------- sending

  /** The bytes sent for the first `nbytes` bytes of `buf`: the header replaces the first four. */
  function Frame(o: ByteOrder, buf: seq<Byte>, nbytes: nat): (f: seq<Byte>)
    requires nbytes <= |buf| && TPKT_HEADER_SIZE <= |buf|
    ensures |f| == nbytes
  {
    (Header(o, nbytes) + buf[TPKT_HEADER_SIZE..])[..nbytes]
  }

  datatype PollVerdict = Ready | GaveUp | Dead

  /** The loop at `s_again`. A script that runs out stands for an error outside the listed ones. */
  function PollPhase(polls: seq<PollResult>, retry: int): PollVerdict {
    if polls == [] then GaveUp
    else
      match polls[0]
      case PollFailed(e) =>
        if e == EINTR then PollPhase(polls[1..], retry)
        else if e in {EBADF, EPIPE, EIO} then Dead
        else GaveUp
      case PollTimeout => if retry - 1 != 0 then PollPhase(polls[1..], retry - 1) else GaveUp
      case PollReady(isSet) => if isSet then Ready else GaveUp
  }

  /** The same call is made again. */
  predicate Retried(r: IoResult) {
    r == Failed(EINTR) || r == Failed(EAGAIN)
  }

  /** How many of `left` bytes the loop at `p_again` gets onto the stream. */
  function Pushed(left: nat, sends: seq<IoResult>): (k: nat)
    ensures k <= left
    decreases |sends|
  {
    if left == 0 || sends == [] then 0
    else if Retried(sends[0]) then Pushed(left, sends[1..])
    else if sends[0].Failed? || sends[0].count == 0 then 0
    else
      var n := Min(sends[0].count, left);
      n + Pushed(left - n, sends[1..])
  }

  /** Delivered: all bytes are on the stream. Refused: -1 before the first `send`, connection kept.
      Broken: the tail that disconnects runs. */
  datatype Verdict = Delivered | Refused | Broken

  function SendFrame(o: ByteOrder, c: Conn, buf: seq<Byte>, nbytes: nat,
                     polls: seq<PollResult>, sends: seq<IoResult>): (r: (Conn, Verdict))
    requires 0 < nbytes <= |buf| && TPKT_HEADER_SIZE <= |buf|
  {
    match PollPhase(polls, TCP_SND_RETRY)
    case GaveUp => (c, Refused)
    case Dead => (c, Broken)
    case Ready =>
      var f := Frame(o, buf, nbytes);
      var k := Pushed(nbytes, sends);
      if k == nbytes then (c.(outbound := c.outbound + f, sent := c.sent + [f]), Delivered)
      else (c.(outbound := c.outbound + f[..k]), Broken)
  }

  /** The loop at `s_again`. */
  method AwaitWritable(polls: seq<PollResult>) returns (v: PollVerdict)
    ensures v == PollPhase(polls, TCP_SND_RETRY)
  {
    var retry, p := TCP_SND_RETRY, 0;
    while p < |polls|
      invariant 0 <= p <= |polls|
      invariant PollPhase(polls, TCP_SND_RETRY) == PollPhase(polls[p..], retry)
    {
      var result := polls[p];
      p := p + 1;
      match result {
        case PollFailed(e) =>
          if e == EINTR {
            continue;
          }
          return if e == EBADF || e == EPIPE || e == EIO then Dead else GaveUp;
        case PollTimeout =>
          retry := retry - 1;
          if retry != 0 {
            continue;
          }
          return GaveUp;
        case PollReady(isSet) =>
          return if isSet then Ready else GaveUp;
      }
    }
    v := GaveUp;
  }

  /** The loop at `p_again`, over the bytes of a frame whose header is in place. */
  method Push(c: Conn, frame: seq<Byte>, sends: seq<IoResult>)
    returns (c': Conn, tnSend: nat, nSend: int, pOk: int)
    ensures tnSend == Pushed(|frame|, sends)
    ensures c' == c.(outbound := c.outbound + frame[..tnSend])
    ensures tnSend > 0 ==> pOk == 1
    ensures tnSend == |frame| > 0 ==> nSend > 0
  {
    c', tnSend, nSend, pOk := c, 0, 0, 0;
    var q := 0;
    while tnSend < |frame|
      invariant tnSend <= |frame| && 0 <= q <= |sends|
      invariant Pushed(|frame|, sends) == tnSend + Pushed(|frame| - tnSend, sends[q..])
      invariant tnSend > 0 ==> pOk == 1
      invariant tnSend == |frame| > 0 ==> nSend > 0
      invariant c' == c.(outbound := c.outbound + frame[..tnSend])
      decreases |sends| - q
    {
      if q == |sends| {
        nSend := -1;
        break;
      }
      var result := sends[q];
      q := q + 1;
      if result.Failed? {
        nSend := -1;
        if result.errno == EINTR || result.errno == EAGAIN {
          continue;
        }
        break;
      } else if result.count == 0 {
        nSend := 0;
        break;
      }
      nSend := Min(result.count, |frame| - tnSend);
      assert frame[..tnSend] + frame[tnSend..tnSend + nSend] == frame[..tnSend + nSend];
      c' := c'.(outbound := c'.outbound + frame[tnSend..tnSend + nSend]);
      tnSend := tnSend + nSend;
      pOk := 1;
    }
  }

  /** The body of `TcpSend` between the argument check and the result. */
  method Transmit(o: ByteOrder, c: Conn, buf: array<Byte>, nbytes: nat,
                  polls: seq<PollResult>, sends: seq<IoResult>)
    returns (c': Conn, totalLen: int, verdict: Verdict)
    requires 0 < nbytes <= buf.Length && TPKT_HEADER_SIZE <= buf.Length
    modifies buf
    ensures (c', verdict) == SendFrame(o, c, old(buf[..]), nbytes, polls, sends)
    ensures totalLen == if verdict == Delivered then nbytes else -1
    ensures buf[..] == Header(o, nbytes) + old(buf[..])[TPKT_HEADER_SIZE..]
  {
    totalLen, c' := -1, c;
    var pktLen := NetworkOrder(o, nbytes % 0x1_0000);
    HeaderByShifts(o, nbytes);
    buf[0], buf[1], buf[2], buf[3] := TCP_VERSION, 0, pktLen / 256, pktLen % 256;
    assert buf[..] == Header(o, nbytes) + old(buf[..])[TPKT_HEADER_SIZE..];
    var v := AwaitWritable(polls);
    if v == GaveUp {
      return c', totalLen, Refused;
    }
    var pOk := 0;
    if v == Ready {
      var tnSend, nSend;
      c', tnSend, nSend, pOk := Push(c, buf[..nbytes], sends);
      if tnSend != nbytes || nSend <= 0 {
        pOk := if tnSend != nbytes then -2 else nSend;
      }
      if pOk == 1 {
        totalLen := tnSend;
        assert buf[..nbytes][..tnSend] == buf[..nbytes];
        c' := c'.(sent := c'.sent + [buf[..nbytes]]);
        return c', totalLen, Delivered;
      }
    }
    verdict := Broken;
  }

  // -------------------------------------------------------------- receiving

  /** The loop at `h_again` or `b_again`, asking for `want` bytes of a stream that still holds `avail`: how
      many it takes, the result of the last call (`last` if none was made), and the script left over. */
  datatype Fill = Fill(taken: nat, n: int, rest: seq<IoResult>)

  function FillFrom(want: nat, avail: nat, chunks: seq<IoResult>, last: int): (r: Fill)
    ensures r.taken <= want && r.taken <= avail
    ensures r.taken < want ==> r.n <= 0
    ensures r.taken == want ==> r.n > 0 || (want == 0 && r.n == last)
    decreases |chunks|
  {
    if want == 0 then Fill(0, last, chunks)
    else if chunks == [] then Fill(0, -1, [])
    else if Retried(chunks[0]) then FillFrom(want, avail, chunks[1..], -1)
    else if chunks[0].Failed? then Fill(0, -1, chunks[1..])
    else
      var n := Min(Min(chunks[0].count, want), avail);
      if n == 0 then Fill(0, 0, chunks[1..])
      else
        var r := FillFrom(want - n, avail - n, chunks[1..], n);
        Fill(n + r.taken, r.n, r.rest)
  }

  /** The same with an accumulator, as the loop has it: `taken` bytes are in. */
  function FillOn(taken: nat, want: nat, avail: nat, chunks: seq<IoResult>, last: int): Fill
    decreases |chunks|
  {
    if want == 0 then Fill(taken, last, chunks)
    else if chunks == [] then Fill(taken, -1, [])
    else if Retried(chunks[0]) then FillOn(taken, want, avail, chunks[1..], -1)
    else if chunks[0].Failed? then Fill(taken, -1, chunks[1..])
    else
      var n := Min(Min(chunks[0].count, want), avail);
      if n == 0 then Fill(taken, 0, chunks[1..]) else FillOn(taken + n, want - n, avail - n, chunks[1..], n)
  }

  lemma {:induction false} FillOnIsFill(taken: nat, want: nat, avail: nat, chunks: seq<IoResult>, last: int)
    ensures var r := FillFrom(want, avail, chunks, last);
            FillOn(taken, want, avail, chunks, last) == Fill(taken + r.taken, r.n, r.rest)
    decreases |chunks|
  {
    if want > 0 && chunks != [] {
      if Retried(chunks[0]) {
        FillOnIsFill(taken, want, avail, chunks[1..], -1);
      } else if chunks[0].Moved? {
        var n := Min(Min(chunks[0].count, want), avail);
        FillOnIsFill(taken + n, want - n, avail - n, chunks[1..], n);
      }
    }
  }

  /** What `TcpRecv` takes from the stream and the value it returns. */
  datatype Receipt = Receipt(consumed: nat, n: int)

  function RecvFrame(o: ByteOrder, inbound: seq<Byte>, chunks: seq<IoResult>): (r: Receipt)
    ensures r.consumed <= |inbound|
  {
    var h := FillFrom(TPKT_HEADER_SIZE, |inbound|, chunks, 0);
    if h.taken < TPKT_HEADER_SIZE then Receipt(h.taken, h.n)
    else RecvBody(Declared(o, inbound), |inbound|, h.rest)
  }

  /** The second half of `TcpRecv`, once the header is in and declares `len`. */
  function RecvBody(len: Word, avail: nat, chunks: seq<IoResult>): (r: Receipt)
    requires avail >= TPKT_HEADER_SIZE
    ensures TPKT_HEADER_SIZE <= r.consumed <= avail
    ensures r.n > 0 <==> r.consumed == len > TPKT_HEADER_SIZE
  {
    if len <= TPKT_HEADER_SIZE then Receipt(TPKT_HEADER_SIZE, 0)
    else
      var b := FillFrom(len - TPKT_HEADER_SIZE, avail - TPKT_HEADER_SIZE, chunks, 0);
      Receipt(TPKT_HEADER_SIZE + b.taken, b.n)
  }

  /** The connection after a receive; a positive result is recorded as an accepted frame. */
  function AfterRecv(c: Conn, r: Receipt): Conn
    requires r.consumed <= |c.inbound|
  {
    c.(inbound := c.inbound[r.consumed..],
       got := if r.n > 0 then c.got + [c.inbound[..r.consumed]] else c.got)
  }

  /** The caller's buffer after a receive: what followed the header is stored from offset four on. */
  function Stored(buf: seq<Byte>, inbound: seq<Byte>, r: Receipt): seq<Byte>
    requires r.consumed <= |inbound| && r.consumed <= |buf|
  {
    if r.consumed <= TPKT_HEADER_SIZE then buf
    else buf[..TPKT_HEADER_SIZE] + inbound[TPKT_HEADER_SIZE..r.consumed] + buf[r.consumed..]
  }

  /** `got` stored into `was` at offset `at`. */
  function Laid(was: seq<Byte>, at: nat, got: seq<Byte>): (now: seq<Byte>)
    requires at + |got| <= |was|
    ensures |now| == |was|
  {
    was[..at] + got + was[at + |got|..]
  }

  lemma LaidByBytes(now: seq<Byte>, was: seq<Byte>, at: nat, got: seq<Byte>)
    requires |now| == |was| && at + |got| <= |was|
    requires forall k :: 0 <= k < |now| ==> now[k] == if at <= k < at + |got| then got[k - at] else was[k]
    ensures now == Laid(was, at, got)
  {
  }

  /** One call of `recv` in such a loop, with `tnRecv` bytes in the buffer; `more` says that the loop goes on. */
  method RecvCall(inbound: seq<Byte>, dst: array<Byte>, at: nat, tnRecv: nat, want: nat, chunks: seq<IoResult>,
                  ghost last: int)
    returns (n: int, rest: seq<IoResult>, more: bool)
    requires at <= tnRecv < want <= dst.Length && tnRecv - at <= |inbound|
    modifies dst
    ensures n <= want - tnRecv && n <= |inbound| - (tnRecv - at) && (more ==> |rest| < |chunks|)
    ensures var got, end := tnRecv - at, if n > 0 then tnRecv + n else tnRecv;
            FillOn(got, want - tnRecv, |inbound| - got, chunks, last)
            == if more then FillOn(end - at, want - end, |inbound| - (end - at), rest, n) else Fill(got, n, rest)
    ensures !more ==> n <= 0
    ensures forall k :: 0 <= k < dst.Length ==>
      dst[k] == if tnRecv <= k < tnRecv + n then inbound[k - at] else old(dst[k])
  {
    if chunks == [] {
      return -1, [], false;
    }
    rest := chunks[1..];
    if chunks[0].Failed? {
      return -1, rest, chunks[0].errno == EINTR || chunks[0].errno == EAGAIN;
    }
    n := Min(Min(chunks[0].count, want - tnRecv), |inbound| - (tnRecv - at));
    more := n != 0;
    forall k | tnRecv <= k < tnRecv + n {
      dst[k] := inbound[k - at];
    }
  }

  /** One of the two receive loops: into `dst` from offset `at` until `want` bytes are in. */
  method Fetch(inbound: seq<Byte>, dst: array<Byte>, at: nat, want: nat, chunks: seq<IoResult>)
    returns (tnRecv: nat, nRecv: int, okFlag: int, rest: seq<IoResult>)
    requires at <= want <= dst.Length
    modifies dst
    ensures var r := FillFrom(want - at, |inbound|, chunks, 0);
            tnRecv == at + r.taken && nRecv == r.n && rest == r.rest && (okFlag == if r.taken == 0 then 0 else 1)
    ensures dst[..] == Laid(old(dst[..]), at, inbound[..tnRecv - at])
  {
    tnRecv, nRecv, okFlag, rest := at, 0, 0, chunks;
    FillOnIsFill(0, want - at, |inbound|, chunks, 0);
    ghost var all := FillOn(0, want - at, |inbound|, chunks, 0);
    var more := true;
    while tnRecv < want && more
      invariant at <= tnRecv <= want && tnRecv - at <= |inbound|
      invariant all == if more then FillOn(tnRecv - at, want - tnRecv, |inbound| - (tnRecv - at), rest, nRecv)
                       else Fill(tnRecv - at, nRecv, rest)
      invariant forall k :: 0 <= k < dst.Length ==>
        dst[k] == if at <= k < tnRecv then inbound[k - at] else old(dst[k])
      invariant okFlag == if tnRecv == at then 0 else 1
      decreases more, |rest|
    {
      nRecv, rest, more := RecvCall(inbound, dst, at, tnRecv, want, rest, nRecv);
      if nRecv > 0 {
        tnRecv := tnRecv + nRecv;
        okFlag := 1;
      }
    }
    LaidByBytes(dst[..], old(dst[..]), at, inbound[..tnRecv - at]);
  }

  /** The body of `TcpRecv`; a buffer must hold the largest length a header can declare. The header goes
      to a buffer of its own, so the first four bytes of the caller's stay as they were. */
  method Receive(o: ByteOrder, c: Conn, rBuf: array<Byte>, chunks: seq<IoResult>)
    returns (c': Conn, nRecv: int, ok: bool)
    requires rBuf.Length >= 0xFFFF
    modifies rBuf
    ensures var r := RecvFrame(o, c.inbound, chunks);
            && r.consumed <= rBuf.Length
            && c' == AfterRecv(c, r) && nRecv == r.n && ok == (r.n > 0)
            && rBuf[..] == Stored(old(rBuf[..]), c.inbound, r)
  {
    var tpktHeader := new Byte[TPKT_HEADER_SIZE](_ => 0);
    var tnRecv, hOk, rest;
    tnRecv, nRecv, hOk, rest := Fetch(c.inbound, tpktHeader, 0, TPKT_HEADER_SIZE, chunks);
    if tnRecv != TPKT_HEADER_SIZE || nRecv <= 0 {
      hOk := if tnRecv != TPKT_HEADER_SIZE then -2 else nRecv;
      c', ok := c.(inbound := c.inbound[tnRecv..]), false;
    } else {
      var hi: int, lo: int := tpktHeader[2], tpktHeader[3];
      assert tpktHeader[..] == c.inbound[..TPKT_HEADER_SIZE];
      assert hi == c.inbound[2] && lo == c.inbound[3];
      DeclaredByShifts(o, c.inbound);
      c', nRecv, ok := ReceiveBody(NetworkOrder(o, hi * 256 + lo), c, rBuf, rest);
    }
  }

  method ReceiveBody(dataSize: Word, c: Conn, rBuf: array<Byte>, chunks: seq<IoResult>)
    returns (c': Conn, nRecv: int, ok: bool)
    requires rBuf.Length >= 0xFFFF && |c.inbound| >= TPKT_HEADER_SIZE
    modifies rBuf
    ensures var r := RecvBody(dataSize, |c.inbound|, chunks);
            && r.consumed <= rBuf.Length
            && c' == AfterRecv(c, r) && nRecv == r.n && ok == (r.n > 0)
            && rBuf[..] == Stored(old(rBuf[..]), c.inbound, r)
  {
    var tnRecv, bOk, rest := TPKT_HEADER_SIZE, 0, chunks;
    nRecv := 0;
    if TPKT_HEADER_SIZE < dataSize {
      tnRecv, nRecv, bOk, rest := Fetch(c.inbound[TPKT_HEADER_SIZE..], rBuf, TPKT_HEADER_SIZE, dataSize, rest);
      assert c.inbound[TPKT_HEADER_SIZE..][..tnRecv - TPKT_HEADER_SIZE] == c.inbound[TPKT_HEADER_SIZE..tnRecv];
      assert rBuf[..] == Stored(old(rBuf[..]), c.inbound, Receipt(tnRecv, nRecv));
    }
    if tnRecv != dataSize || nRecv <= 0 {
      bOk := if tnRecv != dataSize then -2 else nRecv;
    }
    ok := bOk == 1;
    c' := AfterRecv(c, Receipt(tnRecv, if ok then nRecv else 0));
  }
}
