/** What the framing protocol promises: no script of results can make a reader lose the frame boundaries. */
module Alignment {
  import opened Tpkt
  import opened Sockets
  import opened Framing
  import opened Scripts

  // -------------------------------------------------------- frames as a code

  function Flatten(frames: seq<seq<Byte>>): seq<Byte> {
    if frames == [] then [] else frames[0] + Flatten(frames[1..])
  }

  /** `f` is what a sender puts on the stream for some message of |f| bytes. */
  ghost predicate IsFrame(o: ByteOrder, f: seq<Byte>) {
    f != [] && var k := Min(|f|, TPKT_HEADER_SIZE); f[..k] == Header(o, |f|)[..k]
  }

  /** `f` is what a receiver accepts as one frame. */
  ghost predicate IsAccepted(o: ByteOrder, f: seq<Byte>) {
    |f| > TPKT_HEADER_SIZE && Declared(o, f) == |f|
  }

  /** The lengths whose header says the truth and is not taken for a disconnect. */
  predicate Sendable(nbytes: int) {
    TPKT_HEADER_SIZE < nbytes <= 0xFFFF
  }

  lemma {:induction false} FlattenAppend(frames: seq<seq<Byte>>, f: seq<Byte>)
    ensures Flatten(frames + [f]) == Flatten(frames) + f
  {
    if frames == [] {
      assert Flatten([f]) == f + Flatten([]);
    } else {
      assert (frames + [f])[1..] == frames[1..] + [f];
      FlattenAppend(frames[1..], f);
    }
  }

  lemma FrameIsFrame(o: ByteOrder, buf: seq<Byte>, nbytes: nat)
    requires 0 < nbytes <= |buf| && TPKT_HEADER_SIZE <= |buf|
    ensures var f := Frame(o, buf, nbytes); IsFrame(o, f) && f[Min(nbytes, 4)..] == buf[Min(nbytes, 4)..nbytes]
  {
  }

  lemma SameHead(o: ByteOrder, a: seq<Byte>, b: seq<Byte>)
    requires |a| >= TPKT_HEADER_SIZE && |b| >= TPKT_HEADER_SIZE
    requires a[..TPKT_HEADER_SIZE] == b[..TPKT_HEADER_SIZE]
    ensures Declared(o, a) == Declared(o, b)
  {
    assert a[..TPKT_HEADER_SIZE][2] == a[2] && a[..TPKT_HEADER_SIZE][3] == a[3];
    assert b[..TPKT_HEADER_SIZE][2] == b[2] && b[..TPKT_HEADER_SIZE][3] == b[3];
  }

  /** A frame's first four bytes fix its length for every receiver with the sender's byte order. */
  lemma FrameDeclares(o: ByteOrder, f: seq<Byte>, stream: seq<Byte>)
    requires IsFrame(o, f) && |f| >= TPKT_HEADER_SIZE && |stream| >= TPKT_HEADER_SIZE
    requires stream[..TPKT_HEADER_SIZE] == f[..TPKT_HEADER_SIZE]
    ensures Declared(o, stream) == |f| % 0x1_0000
  {
    var h := Header(o, |f|);
    assert h[..TPKT_HEADER_SIZE] == h;
    SameHead(o, stream, h);
    LengthRoundTrip(o, o, |f|);
  }

  // ----------------------------------------------------------- sending proofs

  /** A send writes whole frame or proper prefix, and keeps the connection only in the two aligned cases. */
  lemma SendOutcome(o: ByteOrder, c: Conn, buf: seq<Byte>, nbytes: nat, polls: seq<PollResult>, sends: seq<IoResult>)
    requires 0 < nbytes <= |buf| && TPKT_HEADER_SIZE <= |buf|
    ensures var (c', v) := SendFrame(o, c, buf, nbytes, polls, sends);
            var f := Frame(o, buf, nbytes);
            && c.outbound <= c'.outbound <= c.outbound + f
            && (v == Delivered <==> c'.outbound == c.outbound + f)
            && (v == Refused ==> c' == c)
  {
    var f := Frame(o, buf, nbytes);
    var k := Pushed(nbytes, sends);
    assert f[..nbytes] == f;
    assert (c.outbound + f[..k]) <= c.outbound + f;
  }

  // --------------------------------------------------------- receiving proofs

  /** Chunking does not matter: a positive result means, whatever the script, that exactly the declared
      number of bytes, more than four, was taken from the head of the stream; every other result is a loss. */
  lemma ReceiptMeaning(o: ByteOrder, inbound: seq<Byte>, chunks: seq<IoResult>)
    ensures var r := RecvFrame(o, inbound, chunks);
            r.n > 0 <==> r.consumed > TPKT_HEADER_SIZE && r.consumed == Declared(o, inbound)
  {
  }

  /** The script has moves for the header and then for the rest of a frame of `len` bytes. */
  ghost predicate Enough(script: seq<IoResult>, len: nat) {
    exists j :: 0 <= j <= |script| && EnoughAt(script, j, len)
  }

  predicate EnoughAt(script: seq<IoResult>, j: nat, len: nat)
    requires j <= |script|
  {
    TPKT_HEADER_SIZE <= Total(script[..j]) && len <= TPKT_HEADER_SIZE + Total(script[j..])
  }

  /** Where the script of a steady receive of a header divides. */
  lemma HeaderPart(avail: nat, chunks: seq<IoResult>) returns (p: seq<IoResult>, q: seq<IoResult>)
    requires Steady(chunks) && avail > TPKT_HEADER_SIZE
    ensures chunks == p + q && Reads(TPKT_HEADER_SIZE, avail, p, q) && Steady(q)
    ensures q == [] ==> Total(chunks) < TPKT_HEADER_SIZE
    ensures q != [] ==> q[0].Moved? && q[0].count > 0 && Total(p) + q[0].count >= TPKT_HEADER_SIZE
  {
    p, q := FillSplits(TPKT_HEADER_SIZE, avail, chunks);
    SteadyParts(p, q);
    assert q == [] ==> chunks == p;
  }

  lemma BodyPart(want: nat, avail: nat, chunks: seq<IoResult>) returns (p: seq<IoResult>, q: seq<IoResult>)
    requires Steady(chunks) && 0 < want <= avail
    ensures chunks == p + q && Reads(want, avail, p, q)
    ensures q == [] <==> Total(chunks) < want
    ensures q != [] ==> q[0].Moved? && q[0].count > 0
  {
    p, q := FillSplits(want, avail, chunks);
    SteadyParts(p, q);
    TotalConcat(p, q);
  }

  lemma SteadyParts(p: seq<IoResult>, q: seq<IoResult>)
    requires Steady(p + q)
    ensures Steady(p) && Steady(q)
  {
    forall k | 0 <= k < |p|
      ensures p[k] == (p + q)[k]
    {
    }
    forall k | 0 <= k < |q|
      ensures q[k] == (p + q)[|p| + k]
    {
    }
  }

  lemma EnoughBehind(p: seq<IoResult>, q: seq<IoResult>, len: nat)
    requires Total(p) < TPKT_HEADER_SIZE && q != [] && q[0].Moved? && Total(p) + q[0].count >= TPKT_HEADER_SIZE
    ensures Enough(p + q, len) <==> len <= TPKT_HEADER_SIZE + Total(q[1..])
  {
    var s, n := p + q, |p| + 1;
    assert s[..|p|] == p && s[..n] == p + [q[0]] && s[n..] == q[1..];
    TotalConcat(p, [q[0]]);
    assert len <= TPKT_HEADER_SIZE + Total(q[1..]) ==> EnoughAt(s, n, len);
    forall j | 0 <= j <= |s| && EnoughAt(s, j, len)
      ensures Total(s[j..]) <= Total(q[1..])
    {
      if j < n {
        TotalGrows(s, j, |p|);
      } else {
        TotalGrows(s, n, j);
      }
    }
  }

  /** If the frame at the head of the stream is all there, a script without failures other than the two accepts
      it exactly if it has moves enough. */
  lemma ReceiveCompletes(o: ByteOrder, inbound: seq<Byte>, chunks: seq<IoResult>)
    requires |inbound| >= TPKT_HEADER_SIZE && TPKT_HEADER_SIZE < Declared(o, inbound) <= |inbound|
    requires Steady(chunks)
    ensures RecvFrame(o, inbound, chunks).n > 0 <==> Enough(chunks, Declared(o, inbound))
  {
    var len := Declared(o, inbound);
    var p, q := HeaderPart(|inbound|, chunks);
    if q == [] {
      RecvExactly(o, inbound, p, q, [], []);
      assert forall j :: 0 <= j <= |chunks| ==> !EnoughAt(chunks, j, len) by {
        forall j | 0 <= j <= |chunks|
          ensures Total(chunks[..j]) <= Total(chunks)
        {
          TotalGrows(chunks, j, |chunks|);
          assert chunks[..|chunks|] == chunks;
        }
      }
    } else {
      EnoughBehind(p, q, len);
      SteadyParts(q[..1], q[1..]);
      assert q == q[..1] + q[1..];
      var p2, q2 := BodyPart(len - TPKT_HEADER_SIZE, |inbound| - TPKT_HEADER_SIZE, q[1..]);
      RecvExactly(o, inbound, p, q, p2, q2);
    }
  }

  /** What a receive leaves in the caller's buffer. */
  lemma StoredBytes(buf: seq<Byte>, inbound: seq<Byte>, r: Receipt)
    requires r.consumed <= |inbound| && r.consumed <= |buf|
    ensures var buf' := Stored(buf, inbound, r);
            && |buf'| == |buf|
            && (r.consumed > TPKT_HEADER_SIZE ==>
                  buf'[TPKT_HEADER_SIZE..r.consumed] == inbound[TPKT_HEADER_SIZE..r.consumed])
            && forall k :: 0 <= k < |buf| && (k < TPKT_HEADER_SIZE || r.consumed <= k) ==> buf'[k] == buf[k]
  {
  }

  lemma HeadOfStream(o: ByteOrder, f: seq<Byte>, rest: seq<Byte>)
    requires IsFrame(o, f) && |f| >= TPKT_HEADER_SIZE
    ensures Declared(o, f + rest) == |f| % 0x1_0000
  {
    assert (f + rest)[..TPKT_HEADER_SIZE] == f[..TPKT_HEADER_SIZE];
    FrameDeclares(o, f, f + rest);
  }

  /** One frame on the stream, with anything behind it, is read back whole, and nothing more is read, if the
      script has moves enough, for the lengths 5 to 65535 and for no other: a header of length four or less reads
      as a disconnect, and longer messages are cut at the truncated length. */
  lemma FrameReadBackIff(o: ByteOrder, f: seq<Byte>, rest: seq<Byte>, chunks: seq<IoResult>)
    requires IsFrame(o, f) && Steady(chunks)
    ensures var r := RecvFrame(o, f + rest, chunks);
            Sendable(|f|) && Enough(chunks, |f|) <==> r.n > 0 && r.consumed == |f|
  {
    ReceiptMeaning(o, f + rest, chunks);
    if |f| >= TPKT_HEADER_SIZE {
      HeadOfStream(o, f, rest);
    }
    if Sendable(|f|) {
      ReceiveCompletes(o, f + rest, chunks);
    }
  }

  /** Receives on one connection, one script each, until one fails. */
  function ReadAll(o: ByteOrder, c: Conn, scripts: seq<seq<IoResult>>): Conn
    decreases |scripts|
  {
    if scripts == [] then c
    else
      var r := RecvFrame(o, c.inbound, scripts[0]);
      if r.n > 0 then ReadAll(o, AfterRecv(c, r), scripts[1..]) else AfterRecv(c, r)
  }

  /** A script that lets a frame of `len` bytes through. */
  ghost predicate Passes(script: seq<IoResult>, len: nat) {
    Steady(script) && Enough(script, len)
  }

  lemma ReadOne(o: ByteOrder, c: Conn, f: seq<Byte>, rest: seq<Byte>, scripts: seq<seq<IoResult>>)
    requires IsFrame(o, f) && Sendable(|f|) && c.inbound == f + rest && scripts != [] && Passes(scripts[0], |f|)
    ensures ReadAll(o, c, scripts) == ReadAll(o, c.(inbound := rest, got := c.got + [f]), scripts[1..])
  {
    FrameReadBackIff(o, f, rest, scripts[0]);
    assert (f + rest)[|f|..] == rest && (f + rest)[..|f|] == f;
  }

  /** `c'` is `c` after all of `frames` has been read from the head of its stream. */
  ghost predicate HasRead(c: Conn, frames: seq<seq<Byte>>, rest: seq<Byte>, c': Conn) {
    c' == c.(inbound := rest, got := c'.got) && c'.got == c.got + frames
  }

  lemma HasReadOneMore(c: Conn, c1: Conn, frames: seq<seq<Byte>>, middle: seq<Byte>, rest: seq<Byte>, c': Conn)
    requires frames != [] && HasRead(c, frames[..1], middle, c1) && HasRead(c1, frames[1..], rest, c')
    ensures HasRead(c, frames, rest, c')
  {
    assert frames == frames[..1] + frames[1..];
  }

  /** The round trip: frames written one after the other are read back one by one, in order and whole,
      however each end's transfers were split or interrupted. */
  lemma {:induction false} RoundTrip(o: ByteOrder, c: Conn, frames: seq<seq<Byte>>, rest: seq<Byte>,
                                     scripts: seq<seq<IoResult>>)
    requires c.inbound == Flatten(frames) + rest && |scripts| == |frames|
    requires forall k :: 0 <= k < |frames| ==>
      IsFrame(o, frames[k]) && Sendable(|frames[k]|) && Passes(scripts[k], |frames[k]|)
    ensures HasRead(c, frames, rest, ReadAll(o, c, scripts))
    decreases |scripts|
  {
    if frames == [] {
      assert c.inbound == rest && c.got == c.got + frames;
    } else {
      var c1 := RoundTripHead(o, c, frames, rest, scripts);
      RoundTrip(o, c1, frames[1..], rest, scripts[1..]);
      HasReadOneMore(c, c1, frames, c1.inbound, rest, ReadAll(o, c1, scripts[1..]));
    }
  }

  lemma RoundTripHead(o: ByteOrder, c: Conn, frames: seq<seq<Byte>>, rest: seq<Byte>, scripts: seq<seq<IoResult>>)
    returns (c1: Conn)
    requires frames != [] && scripts != [] && c.inbound == Flatten(frames) + rest
    requires IsFrame(o, frames[0]) && Sendable(|frames[0]|) && Passes(scripts[0], |frames[0]|)
    ensures c1.inbound == Flatten(frames[1..]) + rest && HasRead(c, frames[..1], c1.inbound, c1)
    ensures ReadAll(o, c, scripts) == ReadAll(o, c1, scripts[1..])
  {
    var behind := Flatten(frames[1..]) + rest;
    assert c.inbound == frames[0] + behind;
    c1 := c.(inbound := behind, got := c.got + [frames[0]]);
    ReadOne(o, c, frames[0], behind, scripts);
  }

  // ------------------------------------------------ invariant of a connection

  /** What holds of the bytes on every connection in every run. */
  ghost predicate Aligned(o: ByteOrder, c: Conn, open: bool) {
    && (forall f :: f in c.sent ==> IsFrame(o, f))
    && (forall f :: f in c.got ==> IsAccepted(o, f))
    && (if open then c.outbound == Flatten(c.sent) && c.arrived == Flatten(c.got) + c.inbound
        else exists f :: Torn(o, c, f) && Flatten(c.got) <= c.arrived)
  }

  /** The bytes written are whole frames and then a proper, possibly empty, prefix of the frame `f`. */
  ghost predicate Torn(o: ByteOrder, c: Conn, f: seq<Byte>) {
    IsFrame(o, f) && Flatten(c.sent) <= c.outbound && c.outbound[|Flatten(c.sent)|..] < f
  }

  /** Every open connection is at a frame boundary in both directions; closed ones end in at most one torn frame. */
  ghost predicate Framed(o: ByteOrder, net: Net) {
    && (forall fd :: fd in net.conns ==> Aligned(o, net.conns[fd], true))
    && (forall c :: c in net.closed ==> Aligned(o, c, false))
  }

  lemma FramedConn(o: ByteOrder, net: Net, c: Conn, isOpen: bool)
    requires Framed(o, net) && net.Has(c, isOpen)
    ensures Aligned(o, c, isOpen)
  {
    if isOpen {
      var fd :| fd in net.conns && net.conns[fd] == c;
    }
  }

  lemma OpenedAligned(o: ByteOrder, id: nat, arrived: seq<Byte>)
    ensures Aligned(o, Opened(id, arrived), true)
  {
  }

  lemma ClosedAligned(o: ByteOrder, c: Conn)
    requires Aligned(o, c, true)
    ensures Aligned(o, c, false)
  {
    var f := Header(o, TPKT_HEADER_SIZE);
    assert IsFrame(o, f) && Torn(o, c, f);
  }

  /** A send keeps an open connection aligned, and where it leaves a frame cut short the tail closes it. */
  lemma SendKeepsAligned(o: ByteOrder, c: Conn, buf: seq<Byte>, nbytes: nat,
                         polls: seq<PollResult>, sends: seq<IoResult>)
    requires 0 < nbytes <= |buf| && TPKT_HEADER_SIZE <= |buf| && Aligned(o, c, true)
    ensures var (c', v) := SendFrame(o, c, buf, nbytes, polls, sends); Aligned(o, c', v != Broken)
  {
    var (c', v) := SendFrame(o, c, buf, nbytes, polls, sends);
    var f := Frame(o, buf, nbytes);
    FrameIsFrame(o, buf, nbytes);
    SendOutcome(o, c, buf, nbytes, polls, sends);
    FlattenAppend(c.sent, f);
    if v == Broken {
      assert Torn(o, c', f) by {
        assert c'.outbound[|c.outbound|..] <= f;
      }
    }
  }

  lemma ReceiveKeepsAligned(o: ByteOrder, c: Conn, chunks: seq<IoResult>)
    requires Aligned(o, c, true)
    ensures var r := RecvFrame(o, c.inbound, chunks); Aligned(o, AfterRecv(c, r), r.n > 0)
  {
    var r := RecvFrame(o, c.inbound, chunks);
    var k := r.consumed;
    ReceiptMeaning(o, c.inbound, chunks);
    if r.n > 0 {
      var f := c.inbound[..k];
      assert f[..TPKT_HEADER_SIZE] == c.inbound[..TPKT_HEADER_SIZE];
      SameHead(o, f, c.inbound);
      FlattenAppend(c.got, f);
      Regroup(Flatten(c.got), c.inbound, k);
    } else {
      ClosedAligned(o, c);
      var f :| Torn(o, c, f);
      assert Torn(o, AfterRecv(c, r), f);
    }
  }

  lemma Regroup(read: seq<Byte>, inbound: seq<Byte>, k: nat)
    requires k <= |inbound|
    ensures read + inbound == (read + inbound[..k]) + inbound[k..]
  {
  }

  // --------------------------------------------------------- messages in range

  /** Only messages of 5 to 65535 bytes were sent on `c`, the one cut short at its end included. */
  ghost predicate InRange(o: ByteOrder, c: Conn, open: bool) {
    (forall f :: f in c.sent ==> Sendable(|f|)) && (open || exists f :: Torn(o, c, f) && Sendable(|f|))
  }

  ghost predicate NetInRange(o: ByteOrder, net: Net) {
    && (forall fd :: fd in net.conns ==> InRange(o, net.conns[fd], true))
    && (forall c :: c in net.closed ==> InRange(o, c, false))
  }

  lemma ClosedInRange(o: ByteOrder, c: Conn)
    requires Aligned(o, c, true) && InRange(o, c, true)
    ensures InRange(o, c, false)
  {
    var f := Header(o, TPKT_HEADER_SIZE + 1) + [0];
    assert f[..TPKT_HEADER_SIZE] == Header(o, |f|);
    assert Torn(o, c, f) && Sendable(|f|);
  }

  lemma KeptInRange(o: ByteOrder, net: Net, fd: int, c: Conn)
    requires NetInRange(o, net) && InRange(o, c, true)
    ensures NetInRange(o, Net(net.conns[fd := c], net.closed, net.count))
  {
  }

  lemma DroppedInRange(o: ByteOrder, net: Net, fd: int, c: Conn)
    requires NetInRange(o, net) && InRange(o, c, false)
    ensures NetInRange(o, Net(net.conns[fd := c], net.closed, net.count).Close(fd))
  {
  }

  lemma SendKeepsInRange(o: ByteOrder, c: Conn, buf: seq<Byte>, nbytes: nat,
                         polls: seq<PollResult>, sends: seq<IoResult>)
    requires Sendable(nbytes) && nbytes <= |buf| && Aligned(o, c, true) && InRange(o, c, true)
    ensures var (c', v) := SendFrame(o, c, buf, nbytes, polls, sends); InRange(o, c', v != Broken)
  {
    var (c', v) := SendFrame(o, c, buf, nbytes, polls, sends);
    var f := Frame(o, buf, nbytes);
    FrameIsFrame(o, buf, nbytes);
    SendOutcome(o, c, buf, nbytes, polls, sends);
    if v == Broken {
      assert c'.outbound[|c.outbound|..] <= f;
      assert Torn(o, c', f);
    }
  }

  lemma ReceiveKeepsInRange(o: ByteOrder, c: Conn, chunks: seq<IoResult>)
    requires Aligned(o, c, true) && InRange(o, c, true)
    ensures var r := RecvFrame(o, c.inbound, chunks); InRange(o, AfterRecv(c, r), r.n > 0)
  {
    var r := RecvFrame(o, c.inbound, chunks);
    if r.n <= 0 {
      ClosedInRange(o, c);
      var f :| Torn(o, c, f) && Sendable(|f|);
      assert Torn(o, AfterRecv(c, r), f);
    }
  }

  /** The frames one end accepts are, in order and byte for byte, the first frames the other end delivered,
      whatever either end's operating system did, as long as the messages have lengths 5 to 65535. */
  lemma AcceptedAreSent(o: ByteOrder, a: Conn, b: Conn, aOpen: bool, bOpen: bool)
    requires Aligned(o, a, aOpen) && Aligned(o, b, bOpen)
    requires b.arrived <= a.outbound && InRange(o, a, aOpen)
    ensures b.got <= a.sent
  {
    var tail := a.outbound[|Flatten(a.sent)|..];
    var f: seq<Byte>;
    if aOpen {
      var n := TPKT_HEADER_SIZE + 1;
      f := Header(o, n) + [0];
      assert tail == [];
      assert IsFrame(o, f);
    } else {
      f :| Torn(o, a, f) && Sendable(|f|);
    }
    assert Flatten(b.got) <= b.arrived;
    assert a.outbound == Flatten(a.sent) + tail;
    UniqueParse(o, b.got, a.sent, tail, f);
  }

  lemma HeadsAgree(o: ByteOrder, g: seq<Byte>, f: seq<Byte>)
    requires IsAccepted(o, g) && IsFrame(o, f) && Sendable(|f|)
    requires g <= f || g[..TPKT_HEADER_SIZE] == f[..TPKT_HEADER_SIZE]
    ensures |g| == |f|
  {
    assert g[..TPKT_HEADER_SIZE] == f[..TPKT_HEADER_SIZE];
    FrameDeclares(o, f, g);
  }

  lemma CancelHead(g: seq<Byte>, a: seq<Byte>, b: seq<Byte>)
    requires g + a <= g + b
    ensures a <= b
  {
    assert (g + a)[|g|..] == a && (g + b)[|g|..] == b;
  }

  lemma Associates(a: seq<Byte>, b: seq<Byte>, c: seq<Byte>)
    ensures (a + b) + c == a + (b + c)
  {
  }

  /** No accepted frame starts in a torn one. */
  lemma NoneInTorn(o: ByteOrder, g: seq<Byte>, tail: seq<Byte>, f: seq<Byte>)
    requires IsAccepted(o, g) && IsFrame(o, f) && Sendable(|f|) && tail < f
    ensures !(g <= tail)
  {
    if g <= f {
      HeadsAgree(o, g, f);
    }
  }

  /** Of two streams that agree, one starting with an accepted frame and one with a sent one, both start with
      the same frame. */
  lemma HeadsEqual(o: ByteOrder, g: seq<Byte>, a: seq<Byte>, f: seq<Byte>, b: seq<Byte>)
    requires IsAccepted(o, g) && IsFrame(o, f) && Sendable(|f|) && g + a <= f + b
    ensures g == f && a <= b
  {
    assert (g + a)[..TPKT_HEADER_SIZE] == g[..TPKT_HEADER_SIZE];
    assert (f + b)[..TPKT_HEADER_SIZE] == f[..TPKT_HEADER_SIZE];
    HeadsAgree(o, g, f);
    assert g == (g + a)[..|g|] == (f + b)[..|f|] == f;
    CancelHead(g, a, b);
  }

  /** Accepted frames at the head of a stream of sent frames are those frames: the code is uniquely
      decodable and no proper prefix of a frame reads as a frame. */
  lemma {:induction false} UniqueParse(o: ByteOrder, got: seq<seq<Byte>>, sent: seq<seq<Byte>>,
                                       tail: seq<Byte>, f: seq<Byte>)
    requires forall g :: g in got ==> IsAccepted(o, g)
    requires forall g :: g in sent ==> IsFrame(o, g) && Sendable(|g|)
    requires IsFrame(o, f) && Sendable(|f|) && tail < f
    requires Flatten(got) <= Flatten(sent) + tail
    ensures got <= sent
  {
    if got != [] {
      var g := got[0];
      assert g in got && g <= Flatten(got);
      if sent == [] {
        NoneInTorn(o, g, tail, f);
      } else {
        assert sent[0] in sent;
        Associates(sent[0], Flatten(sent[1..]), tail);
        HeadsEqual(o, g, Flatten(got[1..]), sent[0], Flatten(sent[1..]) + tail);
        UniqueParse(o, got[1..], sent[1..], tail, f);
      }
    }
  }
}
