/** The two processes together: what either accepts is what the other delivered. */
module EndToEnd {
  import opened Tpkt
  import opened Sockets
  import opened Framing
  import opened Scripts
  import opened Alignment
  import opened ClientState
  import HostRuns
  import ClientRuns

  /** Whatever runs two machines of the same byte order go through, if the client's messages have 5 to 65535
      bytes and the bytes that arrive on a connection of the host are the first ones the client wrote to a
      connection of its own, then the host's accepted frames are the first frames the client delivered. */
  lemma HostGetsWhatClientSent(o: ByteOrder, utm: bool,
                               listenFD: int, hostEvents: seq<HostRuns.Event>,
                               beginning: ClientRuns.Beginning, clientEvents: seq<ClientRuns.Event>,
                               a: Conn, aOpen: bool, b: Conn, bOpen: bool)
    requires listenFD > 0 && beginning.timer <= MAX_TMR_NUM && ClientRuns.SendsInRange(clientEvents)
    requires ClientRuns.Run(o, utm, beginning, clientEvents).net.Has(a, aOpen)
    requires HostRuns.Run(o, listenFD, hostEvents).net.Has(b, bOpen)
    requires b.arrived <= a.outbound
    ensures b.got <= a.sent
  {
    ClientRuns.RunConn(o, utm, beginning, clientEvents, a, aOpen);
    HostRuns.RunConn(o, listenFD, hostEvents, b, bOpen);
    AcceptedAreSent(o, a, b, aOpen, bOpen);
  }

  /** And the other way round. */
  lemma ClientGetsWhatHostSent(o: ByteOrder, utm: bool,
                               listenFD: int, hostEvents: seq<HostRuns.Event>,
                               beginning: ClientRuns.Beginning, clientEvents: seq<ClientRuns.Event>,
                               a: Conn, aOpen: bool, b: Conn, bOpen: bool)
    requires listenFD > 0 && beginning.timer <= MAX_TMR_NUM && HostRuns.SendsInRange(hostEvents)
    requires HostRuns.Run(o, listenFD, hostEvents).net.Has(a, aOpen)
    requires ClientRuns.Run(o, utm, beginning, clientEvents).net.Has(b, bOpen)
    requires b.arrived <= a.outbound
    ensures b.got <= a.sent
  {
    HostRuns.RunConn(o, listenFD, hostEvents, a, aOpen);
    ClientRuns.RunConn(o, utm, beginning, clientEvents, b, bOpen);
    AcceptedAreSent(o, a, b, aOpen, bOpen);
  }

  // ------------------------------------------------------ messages there and back

  predicate AllSendable(msgs: seq<seq<Byte>>) {
    forall k :: 0 <= k < |msgs| ==> Sendable(|msgs[k]|)
  }

  /** Messages sent one after the other on one connection, until a send does not succeed. */
  function SendAll(o: ByteOrder, c: Conn, msgs: seq<seq<Byte>>,
                   polls: seq<seq<PollResult>>, sends: seq<seq<IoResult>>): Conn
    requires |polls| == |msgs| == |sends| && AllSendable(msgs)
    decreases |msgs|
  {
    if msgs == [] then c
    else
      var m := msgs[0];
      var (c', v) := SendFrame(o, c, m, |m|, polls[0], sends[0]);
      if v == Delivered then SendAll(o, c', msgs[1..], polls[1..], sends[1..]) else c'
  }

  function Frames(o: ByteOrder, msgs: seq<seq<Byte>>): (fs: seq<seq<Byte>>)
    requires AllSendable(msgs)
    ensures |fs| == |msgs|
    ensures forall k :: 0 <= k < |msgs| ==>
      |fs[k]| == |msgs[k]| && IsFrame(o, fs[k]) && fs[k][TPKT_HEADER_SIZE..] == msgs[k][TPKT_HEADER_SIZE..]
  {
    if msgs == [] then []
    else
      var m := msgs[0];
      FrameIsFrame(o, m, |m|);
      [Frame(o, m, |m|)] + Frames(o, msgs[1..])
  }

  /** After interruptions and fewer timeouts than there are tries a poll finds the link writable, and then no
      `send` fails but to be tried again until `n` bytes are out. */
  ghost predicate GoesOut(n: nat, polls: seq<PollResult>, sends: seq<IoResult>) {
    (exists k :: 0 <= k < |polls| && WritableAt(polls, k)) && Steady(sends) && n <= Total(sends)
  }

  predicate WritableAt(polls: seq<PollResult>, k: nat)
    requires k < |polls|
  {
    Skipped(polls[..k]) && Uninterrupted(polls[..k]) < TCP_SND_RETRY && polls[k] == PollReady(true)
  }

  lemma Delivers(o: ByteOrder, c: Conn, m: seq<Byte>, polls: seq<PollResult>, sends: seq<IoResult>)
    requires Sendable(|m|) && GoesOut(|m|, polls, sends)
    ensures var f := Frame(o, m, |m|);
            SendFrame(o, c, m, |m|, polls, sends) == (c.(outbound := c.outbound + f, sent := c.sent + [f]), Delivered)
  {
    var k :| 0 <= k < |polls| && WritableAt(polls, k);
    assert polls == polls[..k] + [polls[k]] + polls[k + 1..] && sends == sends + [];
    SendExactly(o, c, m, |m|, polls[..k], polls[k], polls[k + 1..], sends, []);
  }

  lemma {:induction false} SendAllWrites(o: ByteOrder, c: Conn, msgs: seq<seq<Byte>>,
                                         polls: seq<seq<PollResult>>, sends: seq<seq<IoResult>>)
    requires |polls| == |msgs| == |sends| && AllSendable(msgs)
    requires forall k :: 0 <= k < |msgs| ==> GoesOut(|msgs[k]|, polls[k], sends[k])
    ensures SendAll(o, c, msgs, polls, sends).outbound == c.outbound + Flatten(Frames(o, msgs))
    decreases |msgs|
  {
    if msgs == [] {
      assert c.outbound + [] == c.outbound;
    } else {
      var m := msgs[0];
      assert GoesOut(|m|, polls[0], sends[0]);
      var f, rest := Frame(o, m, |m|), Flatten(Frames(o, msgs[1..]));
      var c' := c.(outbound := c.outbound + f, sent := c.sent + [f]);
      Delivers(o, c, m, polls[0], sends[0]);
      SendAllWrites(o, c', msgs[1..], polls[1..], sends[1..]);
      assert (c.outbound + f) + rest == c.outbound + (f + rest);
    }
  }

  /** The round trip of messages: any sequence of messages of 5 to 65535 bytes, sent in any partial and
      interrupted transfers, arrives as a stream that, however it is chunked and interrupted in turn, is
      received message by message, each as long as it was and with the same bytes behind the header. */
  lemma MessagesRoundTrip(o: ByteOrder, a: Conn, msgs: seq<seq<Byte>>,
                          polls: seq<seq<PollResult>>, sends: seq<seq<IoResult>>,
                          b: Conn, rest: seq<Byte>, scripts: seq<seq<IoResult>>)
    requires |polls| == |msgs| == |sends| == |scripts| && AllSendable(msgs)
    requires forall k :: 0 <= k < |msgs| ==>
      GoesOut(|msgs[k]|, polls[k], sends[k]) && Passes(scripts[k], |msgs[k]|)
    requires a.outbound + b.inbound == SendAll(o, a, msgs, polls, sends).outbound + rest
    ensures var b' := ReadAll(o, b, scripts);
            && b'.inbound == rest && |b'.got| == |b.got| + |msgs| && b.got <= b'.got
            && forall k :: 0 <= k < |msgs| ==>
                 var f := b'.got[|b.got| + k];
                 |f| == |msgs[k]| && f[TPKT_HEADER_SIZE..] == msgs[k][TPKT_HEADER_SIZE..]
  {
    var frames := Frames(o, msgs);
    SendAllWrites(o, a, msgs, polls, sends);
    assert b.inbound == (a.outbound + b.inbound)[|a.outbound|..];
    assert Flatten(frames) + rest == (a.outbound + Flatten(frames) + rest)[|a.outbound|..];
    RoundTrip(o, b, frames, rest, scripts);
  }

  /** And one message in the caller's own terms: what stands in the receiver's buffer is the message behind
      its header, between bytes that did not change. */
  lemma MessageArrives(o: ByteOrder, c: Conn, buf: seq<Byte>, nbytes: nat, polls: seq<PollResult>, sends: seq<IoResult>,
                       inbound: seq<Byte>, rest: seq<Byte>, chunks: seq<IoResult>, rBuf: seq<Byte>)
    requires Sendable(nbytes) && nbytes <= |buf| && |rBuf| >= 0xFFFF && Passes(chunks, nbytes)
    requires var (c', v) := SendFrame(o, c, buf, nbytes, polls, sends);
             v == Delivered && c.outbound + inbound == c'.outbound + rest
    ensures var r := RecvFrame(o, inbound, chunks);
            && r.n > 0 && r.consumed == nbytes
            && Stored(rBuf, inbound, r) == rBuf[..TPKT_HEADER_SIZE] + buf[TPKT_HEADER_SIZE..nbytes] + rBuf[nbytes..]
  {
    var f := Frame(o, buf, nbytes);
    FrameIsFrame(o, buf, nbytes);
    assert inbound == (c.outbound + inbound)[|c.outbound|..];
    assert f + rest == (c.outbound + f + rest)[|c.outbound|..];
    FrameReadBackIff(o, f, rest, chunks);
    assert inbound[TPKT_HEADER_SIZE..nbytes] == f[TPKT_HEADER_SIZE..];
  }
}
