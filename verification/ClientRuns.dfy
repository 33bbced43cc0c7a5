/** The VM client's reconnect machine over every run: when it is connected, waiting, stuck, or leaking, and how
    many timers it has running. */
module ClientRuns {
  import opened Tpkt
  import opened Sockets
  import opened Framing
  import opened Scripts
  import opened Alignment
  import opened ClientState

  /** The first three run the disconnect tail if they fail. `Expire`, `ForgetTimer` and `Reconnect` are the timer
      task: the test of an expiry message, and `TcpReconnect` before and after it locks. `ExpiryLost` is the timer
      library failing to queue an expiry message. The last three are the shortcut of `SendProcStateReq`, whose
      test and whose end are outside the lock. The test may see the -1 that another thread, inside the lock, has
      stored for a moment, so it may find no link at any time. `timer` is what `timer_start` returns, `newFD`
      what `TcpOpen` returns. */
  datatype Event =
    | Send(buf: seq<Byte>, nbytes: int, polls: seq<PollResult>, sends: seq<IoResult>, timer: int)
    | Recv(chunks: seq<IoResult>, timer: int)
    | Heartbeat(timer: int)
    | Expire(id: int)
    | ForgetTimer
    | Reconnect(newFD: int, arrived: seq<Byte>, timer: int)
    | ExpiryLost(id: int)
    | FindNoLink
    | OpenAtOnce(newFD: int, arrived: seq<Byte>)
    | Enlist

  predicate Shortcut(e: Event) {
    e.FindNoLink? || e.OpenAtOnce? || e.Enlist?
  }

  /** The premises: `timer_start` returns a failure or an id in range, `TcpOpen` a failure or a descriptor not in
      use, and an expiry message is that of an outstanding timer or ignored. */
  predicate Allowed(s: State, e: Event) {
    && s.Sized()
    && (e.Send? || e.Recv? || e.Heartbeat? || e.Reconnect? ==> e.timer <= MAX_TMR_NUM)
    && (e.Send? ==> e.nbytes <= |e.buf| && TPKT_HEADER_SIZE <= |e.buf|)
    && (e.Expire? ==> s.task == Idle && IsTimer(e.id) && (e.id in s.pending || !s.tmrsync[e.id].used))
    && (e.ForgetTimer? ==> s.task == Unmarked)
    && (e.Reconnect? ==> s.task == Forgot && e.newFD !in s.net.conns)
    && (e.OpenAtOnce? ==> s.seen > 0 && e.newFD !in s.net.Close(s.listenFD).conns)
    && (e.Enlist? ==> s.opening > 0)
  }

  /** The types' side of a step: the link's descriptor is open and the timer id in range. */
  predicate Callable(s: State, e: Event) {
    && Allowed(s, e) && s.tmrId <= MAX_TMR_NUM
    && (s.listenFD > 0 ==> s.listenFD in s.net.conns)
  }

  /** Sends, receives and heartbeats without a link are skipped by their callers. */
  function Step(o: ByteOrder, utm: bool, s: State, e: Event): State
    requires Callable(s, e)
  {
    match e
    case Send(buf, nbytes, polls, sends, timer) => Sent(o, utm, s, buf, nbytes, polls, sends, timer).0
    case Recv(chunks, timer) => if s.listenFD > 0 then Received(o, utm, s, chunks, timer).0 else s
    case Heartbeat(timer) => Disconnected(utm, s, timer)
    case Expire(id) => Expired(s, id)
    case ForgetTimer => ForgotTimer(s)
    case Reconnect(newFD, arrived, timer) => Reconnected(s, newFD, arrived, timer)
    case ExpiryLost(id) => s.(pending := s.pending - {id})
    case FindNoLink => FoundNoLink(s)
    case OpenAtOnce(newFD, arrived) => OpenedAtOnce(s, newFD, arrived)
    case Enlist => Enlisted(s)
  }

  /** The step runs the disconnect tail. */
  predicate Disconnects(o: ByteOrder, s: State, e: Event)
    requires Callable(s, e)
  {
    s.listenFD > 0 &&
    match e
    case Send(buf, nbytes, polls, sends, _) =>
      nbytes > 0 && SendFrame(o, s.net.conns[s.listenFD], buf, nbytes, polls, sends).1 == Broken
    case Recv(chunks, _) => RecvFrame(o, s.net.conns[s.listenFD].inbound, chunks).n <= 0
    case Heartbeat(_) => true
    case _ => false
  }

  /** The message of an expiry is acted upon. */
  predicate Acts(s: State, e: Event)
    requires Callable(s, e)
  {
    e.Expire? && s.tmrsync[e.id].used
  }

  /** A step opens a link. */
  predicate Opens(e: Event) {
    (e.Reconnect? || e.OpenAtOnce?) && e.newFD > 0
  }

  // -------------------------------------------------------------- invariant

  /** Every outstanding timer is marked, as one for the reconnect. */
  ghost predicate Timers(s: State) {
    && s.Sized() && s.tmrId <= MAX_TMR_NUM && !s.tmrsync[0].used
    && (forall id :: id in s.pending ==> IsTimer(id) && s.tmrsync[id] == TmrSync(true, 0x0100, 0, 0))
  }

  /** The link's descriptor is open, and watched unless a shortcut is about to; what is watched is open and in
      range. */
  ghost predicate Watch(s: State) {
    && (s.listenFD > 0 ==> s.listenFD in s.net.conns && (s.listenFD in s.allset || s.opening > 0))
    && s.allset <= s.net.conns.Keys
    && (forall fd :: fd in s.net.conns ==> 0 < fd)
    && (forall fd :: fd in s.allset ==> fd <= s.maxFD)
  }

  ghost predicate Safe(o: ByteOrder, s: State) {
    Timers(s) && Watch(s) && Framed(o, s.net)
  }

  lemma RestartedTimers(s: State, r: int)
    requires Timers(s) && r <= MAX_TMR_NUM
    ensures Timers(Restarted(s, r))
  {
  }

  lemma DisconnectedSafe(o: ByteOrder, utm: bool, s: State, c: Conn, r: int)
    requires Safe(o, s) && s.listenFD > 0 && Aligned(o, c, false) && r <= MAX_TMR_NUM
    ensures Safe(o, Disconnected(utm, SetConn(s, c), r))
  {
    var s1 := SetConn(s, c);
    var s' := Disconnected(utm, s1, r);
    assert s'.net == Net(s.net.conns - {s.listenFD}, s.net.closed + [c], s.net.count) by {
      assert s.net.conns[s.listenFD := c] - {s.listenFD} == s.net.conns - {s.listenFD};
    }
    assert Framed(o, s'.net) && Watch(s');
    RestartedTimers(s1.(allset := if utm then {} else s1.allset - {s1.listenFD},
                        net := s1.net.Close(s1.listenFD), listenFD := -1), r);
  }

  lemma KeptSafe(o: ByteOrder, s: State, c: Conn)
    requires Safe(o, s) && s.listenFD > 0 && Aligned(o, c, true)
    ensures Safe(o, SetConn(s, c))
  {
  }

  lemma WatchingSafe(o: ByteOrder, s: State, fd: int, arrived: seq<Byte>)
    requires Timers(s) && Framed(o, s.net) && s.allset <= s.net.conns.Keys && fd > 0 && fd !in s.net.conns
    requires forall x :: x in s.net.conns ==> 0 < x
    requires forall x :: x in s.allset ==> x <= s.maxFD
    ensures Safe(o, Watching(s, fd, arrived))
  {
    OpenedAligned(o, s.net.count, arrived);
  }

  lemma ReconnectedSafe(o: ByteOrder, s: State, newFD: int, arrived: seq<Byte>, r: int)
    requires Safe(o, s) && r <= MAX_TMR_NUM && newFD !in s.net.conns
    ensures Safe(o, Reconnected(s, newFD, arrived, r))
  {
    var s1 := s.(task := Idle);
    if newFD <= 0 {
      RestartedTimers(s1.(listenFD := -1), r);
    } else {
      WatchingSafe(o, s1, newFD, arrived);
    }
  }

  lemma ClosedFramed(o: ByteOrder, net: Net, fd: int)
    requires Framed(o, net)
    ensures Framed(o, net.Close(fd))
  {
    if fd in net.conns {
      ClosedAligned(o, net.conns[fd]);
    }
  }

  lemma OpenedAtOnceSafe(o: ByteOrder, s: State, newFD: int, arrived: seq<Byte>)
    requires Safe(o, s) && s.seen > 0 && newFD !in s.net.Close(s.listenFD).conns
    ensures Safe(o, OpenedAtOnce(s, newFD, arrived))
  {
    ClosedFramed(o, s.net, s.listenFD);
    OpenedAligned(o, s.net.Close(s.listenFD).count, arrived);
  }

  lemma SendSafe(o: ByteOrder, utm: bool, s: State, e: Event)
    requires Safe(o, s) && e.Send? && Allowed(s, e)
    ensures Callable(s, e) && Safe(o, Step(o, utm, s, e))
  {
    if s.listenFD > 0 && e.nbytes > 0 {
      var (c, v) := SendFrame(o, s.net.conns[s.listenFD], e.buf, e.nbytes, e.polls, e.sends);
      SendKeepsAligned(o, s.net.conns[s.listenFD], e.buf, e.nbytes, e.polls, e.sends);
      if v == Broken {
        DisconnectedSafe(o, utm, s, c, e.timer);
      } else {
        KeptSafe(o, s, c);
      }
    }
  }

  lemma RecvSafe(o: ByteOrder, utm: bool, s: State, e: Event)
    requires Safe(o, s) && e.Recv? && Allowed(s, e)
    ensures Callable(s, e) && Safe(o, Step(o, utm, s, e))
  {
    if s.listenFD > 0 {
      var r := RecvFrame(o, s.net.conns[s.listenFD].inbound, e.chunks);
      ReceiveKeepsAligned(o, s.net.conns[s.listenFD], e.chunks);
      var c := AfterRecv(s.net.conns[s.listenFD], r);
      if r.n > 0 {
        KeptSafe(o, s, c);
      } else {
        DisconnectedSafe(o, utm, s, c, e.timer);
      }
    }
  }

  lemma HeartbeatSafe(o: ByteOrder, utm: bool, s: State, timer: int)
    requires Safe(o, s) && timer <= MAX_TMR_NUM
    ensures Safe(o, Disconnected(utm, s, timer))
  {
    if s.listenFD > 0 {
      var c := s.net.conns[s.listenFD];
      ClosedAligned(o, c);
      DisconnectedSafe(o, utm, s, c, timer);
      assert s.net.conns[s.listenFD := c] == s.net.conns;
      assert SetConn(s, c) == s;
    }
  }

  lemma StepSafe(o: ByteOrder, utm: bool, s: State, e: Event)
    requires Safe(o, s) && Allowed(s, e)
    ensures Callable(s, e) && Safe(o, Step(o, utm, s, e))
  {
    match e
    case Send(_, _, _, _, _) => SendSafe(o, utm, s, e);
    case Recv(_, _) => RecvSafe(o, utm, s, e);
    case Heartbeat(timer) => HeartbeatSafe(o, utm, s, timer);
    case Expire(_) =>
    case ForgetTimer =>
    case Reconnect(newFD, arrived, timer) => ReconnectedSafe(o, s, newFD, arrived, timer);
    case ExpiryLost(_) =>
    case FindNoLink =>
    case OpenAtOnce(newFD, arrived) => OpenedAtOnceSafe(o, s, newFD, arrived);
    case Enlist =>
  }

  /** How the receive task begins: with what `TcpOpen` and, if need be, `timer_start` returned. */
  datatype Beginning = Beginning(newFD: int, arrived: seq<Byte>, timer: int)

  lemma BegunSafe(o: ByteOrder, b: Beginning)
    requires b.timer <= MAX_TMR_NUM
    ensures Safe(o, Begun(b.newFD, b.arrived, b.timer))
  {
    if b.newFD <= 0 {
      RestartedTimers(Initial().(listenFD := b.newFD), b.timer);
    } else {
      WatchingSafe(o, Initial(), b.newFD, b.arrived);
    }
  }

  /** The state after any sequence of events; one that the premises exclude does not happen. */
  function Run(o: ByteOrder, utm: bool, b: Beginning, events: seq<Event>): State
    requires b.timer <= MAX_TMR_NUM
  {
    if events == [] then Begun(b.newFD, b.arrived, b.timer)
    else
      var s, e := Run(o, utm, b, events[..|events| - 1]), events[|events| - 1];
      if Callable(s, e) then Step(o, utm, s, e) else s
  }

  /** In every run, shortcuts and lost expiries included, outstanding timers are marked, the watch set is sound and
      every connection is at a frame boundary; and every step that the premises allow finds what it needs. */
  lemma {:induction false} RunSafe(o: ByteOrder, utm: bool, b: Beginning, events: seq<Event>)
    requires b.timer <= MAX_TMR_NUM
    ensures Safe(o, Run(o, utm, b, events))
    ensures forall e :: Allowed(Run(o, utm, b, events), e) ==> Callable(Run(o, utm, b, events), e)
  {
    if events == [] {
      BegunSafe(o, b);
    } else {
      var before, e := events[..|events| - 1], events[|events| - 1];
      RunSafe(o, utm, b, before);
      if Allowed(Run(o, utm, b, before), e) {
        StepSafe(o, utm, Run(o, utm, b, before), e);
      }
    }
  }

  /** Every message sent in the run has 5 to 65535 bytes. */
  predicate SendsInRange(events: seq<Event>) {
    forall e :: e in events && e.Send? ==> Sendable(e.nbytes)
  }

  lemma SendInRange(o: ByteOrder, utm: bool, s: State, e: Event)
    requires Callable(s, e) && e.Send? && Sendable(e.nbytes) && s.listenFD > 0
    requires NetInRange(o, s.net) && Aligned(o, s.net.conns[s.listenFD], true)
    ensures NetInRange(o, Step(o, utm, s, e).net)
  {
    var fd := s.listenFD;
    var (c, v) := SendFrame(o, s.net.conns[fd], e.buf, e.nbytes, e.polls, e.sends);
    SendKeepsInRange(o, s.net.conns[fd], e.buf, e.nbytes, e.polls, e.sends);
    var net := Net(s.net.conns[fd := c], s.net.closed, s.net.count);
    assert Step(o, utm, s, e).net == if v == Broken then net.Close(fd) else net;
    if v == Broken {
      DroppedInRange(o, s.net, fd, c);
    } else {
      KeptInRange(o, s.net, fd, c);
    }
  }

  lemma RecvInRange(o: ByteOrder, utm: bool, s: State, e: Event)
    requires Callable(s, e) && e.Recv? && s.listenFD > 0
    requires NetInRange(o, s.net) && Aligned(o, s.net.conns[s.listenFD], true)
    ensures NetInRange(o, Step(o, utm, s, e).net)
  {
    var fd := s.listenFD;
    var r := RecvFrame(o, s.net.conns[fd].inbound, e.chunks);
    var c := AfterRecv(s.net.conns[fd], r);
    ReceiveKeepsInRange(o, s.net.conns[fd], e.chunks);
    var net := Net(s.net.conns[fd := c], s.net.closed, s.net.count);
    assert Step(o, utm, s, e).net == if r.n > 0 then net else net.Close(fd);
    if r.n > 0 {
      KeptInRange(o, s.net, fd, c);
    } else {
      DroppedInRange(o, s.net, fd, c);
    }
  }

  lemma StepInRange(o: ByteOrder, utm: bool, s: State, e: Event)
    requires Safe(o, s) && Callable(s, e) && NetInRange(o, s.net) && (e.Send? ==> Sendable(e.nbytes))
    ensures NetInRange(o, Step(o, utm, s, e).net)
  {
    assert s.listenFD <= 0 ==> s.listenFD !in s.net.conns;
    match e
    case Send(_, _, _, _, _) => if s.listenFD > 0 { SendInRange(o, utm, s, e); }
    case Recv(_, _) => if s.listenFD > 0 { RecvInRange(o, utm, s, e); }
    case Heartbeat(_) =>
      CloseInRange(o, s.net, s.listenFD);
      assert Step(o, utm, s, e).net == s.net.Close(s.listenFD);
    case OpenAtOnce(newFD, arrived) =>
      CloseInRange(o, s.net, s.listenFD);
      KeptInRange(o, s.net.Close(s.listenFD), newFD, Opened(s.net.Close(s.listenFD).count, arrived));
    case _ =>
  }

  lemma CloseInRange(o: ByteOrder, net: Net, fd: int)
    requires Framed(o, net) && NetInRange(o, net)
    ensures NetInRange(o, net.Close(fd))
  {
    if fd in net.conns {
      ClosedInRange(o, net.conns[fd]);
      DroppedInRange(o, net, fd, net.conns[fd]);
      assert net.conns[fd := net.conns[fd]] == net.conns;
    }
  }

  lemma {:induction false} RunInRange(o: ByteOrder, utm: bool, b: Beginning, events: seq<Event>)
    requires b.timer <= MAX_TMR_NUM && SendsInRange(events)
    ensures NetInRange(o, Run(o, utm, b, events).net)
  {
    if events != [] {
      var before, e := events[..|events| - 1], events[|events| - 1];
      assert e in events;
      RunInRange(o, utm, b, before);
      RunSafe(o, utm, b, before);
      if Callable(Run(o, utm, b, before), e) {
        StepInRange(o, utm, Run(o, utm, b, before), e);
      }
    }
  }

  /** What a run guarantees of each of its connections. */
  lemma RunConn(o: ByteOrder, utm: bool, b: Beginning, events: seq<Event>, c: Conn, isOpen: bool)
    requires b.timer <= MAX_TMR_NUM && Run(o, utm, b, events).net.Has(c, isOpen)
    ensures Aligned(o, c, isOpen) && (SendsInRange(events) ==> InRange(o, c, isOpen))
  {
    var net := Run(o, utm, b, events).net;
    RunSafe(o, utm, b, events);
    FramedConn(o, net, c, isOpen);
    if SendsInRange(events) {
      RunInRange(o, utm, b, events);
      if isOpen {
        var fd :| fd in net.conns && net.conns[fd] == c;
      }
    }
  }

  // ------------------------------------------------- what the callers are told

  /** The link is gone, its connection closed as `c`; timers aside nothing else differs, but for the watch set. */
  ghost predicate LinkLost(utm: bool, s: State, s': State, c: Conn) {
    && s'.listenFD == -1 && s'.net == Net(s.net.conns - {s.listenFD}, s.net.closed + [c], s.net.count)
    && s'.allset == (if utm then {} else s.allset - {s.listenFD})
    && s'.maxFD == s.maxFD && s'.seen == s.seen && s'.opening == s.opening && s'.task == s.task
  }

  /** The link's connection has moved on to `c`; nothing else differs. */
  ghost predicate MovedOn(s: State, s': State, c: Conn) {
    s' == s.(net := Net(s.net.conns[s.listenFD := c], s.net.closed, s.net.count))
  }

  lemma SendCases(o: ByteOrder, utm: bool, s: State, e: Event)
    requires Callable(s, e) && e.Send?
    ensures var (s', n) := Sent(o, utm, s, e.buf, e.nbytes, e.polls, e.sends, e.timer);
            if s.listenFD <= 0 || e.nbytes <= 0 then s' == s && n == -1
            else
              var c := s.net.conns[s.listenFD];
              var (c', v) := SendFrame(o, c, e.buf, e.nbytes, e.polls, e.sends);
              && (v == Delivered ==> n == e.nbytes && MovedOn(s, s', c'))
              && (v == Refused ==> n == -1 && MovedOn(s, s', c') && (c' == c ==> s' == s))
              && (v == Broken ==> n == -1 && LinkLost(utm, s, s', c'))
  {
    if s.listenFD > 0 && e.nbytes > 0 {
      var c := s.net.conns[s.listenFD];
      var (c', v) := SendFrame(o, c, e.buf, e.nbytes, e.polls, e.sends);
      assert s.net.conns[s.listenFD := c] == s.net.conns;
      TailLoses(utm, s, c', e.timer);
    }
  }

  lemma TailLoses(utm: bool, s: State, c: Conn, r: int)
    requires s.Sized() && s.tmrId <= MAX_TMR_NUM && r <= MAX_TMR_NUM && s.listenFD > 0
    ensures LinkLost(utm, s, Disconnected(utm, SetConn(s, c), r), c)
  {
    assert s.net.conns[s.listenFD := c] - {s.listenFD} == s.net.conns - {s.listenFD};
  }

  /** `TcpSend` returns the length or -1. The length means that exactly the frame went onto the stream; -1 that
      nothing changed, or that the link is gone and its connection closed short of the frame. */
  lemma SendResult(o: ByteOrder, utm: bool, s: State, e: Event)
    requires Safe(o, s) && e.Send? && Allowed(s, e)
    ensures var (s', n) := Sent(o, utm, s, e.buf, e.nbytes, e.polls, e.sends, e.timer);
            if s.listenFD <= 0 || e.nbytes <= 0 then s' == s && n == -1
            else
              var full := s.net.conns[s.listenFD].outbound + Frame(o, e.buf, e.nbytes);
              && n in {e.nbytes, -1}
              && (n == e.nbytes <==>
                    s'.listenFD == s.listenFD && s.listenFD in s'.net.conns
                    && s'.net.conns[s.listenFD].outbound == full)
              && (n == -1 ==> s' == s
                              || (s'.net.closed != []
                                  && var c := s'.net.closed[|s'.net.closed| - 1];
                                  c.outbound < full && LinkLost(utm, s, s', c)))
  {
    SendCases(o, utm, s, e);
    if s.listenFD > 0 && e.nbytes > 0 {
      SendOutcome(o, s.net.conns[s.listenFD], e.buf, e.nbytes, e.polls, e.sends);
    }
  }

  /** The same told from the script: the poll that decides, behind `skipped`, and the part `p` of the results of
      `send` that the loop goes through. */
  lemma SendByScript(o: ByteOrder, utm: bool, s: State, buf: seq<Byte>, nbytes: nat,
                     skipped: seq<PollResult>, x: PollResult, later: seq<PollResult>,
                     p: seq<IoResult>, q: seq<IoResult>, timer: int)
    requires Safe(o, s) && s.listenFD > 0 && timer <= MAX_TMR_NUM && 0 < nbytes <= |buf| && TPKT_HEADER_SIZE <= |buf|
    requires Skipped(skipped) && Uninterrupted(skipped) < TCP_SND_RETRY && Sends(nbytes, p, q)
    ensures var (s', n) := Sent(o, utm, s, buf, nbytes, skipped + [x] + later, p + q, timer);
            var c, f, moved := s.net.conns[s.listenFD], Frame(o, buf, nbytes), Total(p);
            && (LetsSend(x) && nbytes <= moved ==>
                  n == nbytes && MovedOn(s, s', c.(outbound := c.outbound + f, sent := c.sent + [f])))
            && (LetsSend(x) && moved < nbytes ==>
                  n == -1 && LinkLost(utm, s, s', c.(outbound := c.outbound + f[..moved])))
            && (FindsDead(x) ==> n == -1 && LinkLost(utm, s, s', c))
            && (GivesUp(skipped, x) ==> n == -1 && s' == s)
  {
    var e := Send(buf, nbytes, skipped + [x] + later, p + q, timer);
    SendCases(o, utm, s, e);
    SendExactly(o, s.net.conns[s.listenFD], buf, nbytes, skipped, x, later, p, q);
  }

  lemma RecvCases(o: ByteOrder, utm: bool, s: State, chunks: seq<IoResult>, timer: int)
    requires Callable(s, Recv(chunks, timer)) && s.listenFD > 0
    ensures var (s', r) := Received(o, utm, s, chunks, timer);
            var c := s.net.conns[s.listenFD];
            && r == RecvFrame(o, c.inbound, chunks)
            && if r.n > 0 then MovedOn(s, s', c.(inbound := c.inbound[r.consumed..],
                                                 got := c.got + [c.inbound[..r.consumed]]))
               else LinkLost(utm, s, s', c.(inbound := c.inbound[r.consumed..]))
  {
    var c := s.net.conns[s.listenFD];
    TailLoses(utm, s, AfterRecv(c, RecvFrame(o, c.inbound, chunks)), timer);
  }

  /** `TcpRecv` returns a positive value exactly when a whole frame was stored and the link kept; otherwise the
      link is gone. The first four bytes of the buffer and everything from the last byte taken on stay. */
  lemma ReceiveResult(o: ByteOrder, utm: bool, s: State, chunks: seq<IoResult>, timer: int, buf: seq<Byte>)
    requires Safe(o, s) && Allowed(s, Recv(chunks, timer)) && s.listenFD > 0 && |buf| >= 0xFFFF
    ensures var (s', r) := Received(o, utm, s, chunks, timer);
            var c := s.net.conns[s.listenFD];
            && r.consumed <= |c.inbound| && r.consumed <= |buf|
            && var buf' := Stored(buf, c.inbound, r);
            && (r.n > 0 <==> r.consumed > TPKT_HEADER_SIZE && r.consumed == Declared(o, c.inbound))
            && (r.n > 0 <==> s'.listenFD > 0)
            && (if r.n > 0 then MovedOn(s, s', c.(inbound := c.inbound[r.consumed..],
                                                  got := c.got + [c.inbound[..r.consumed]]))
                else LinkLost(utm, s, s', c.(inbound := c.inbound[r.consumed..])))
            && |buf'| == |buf|
            && (r.consumed > TPKT_HEADER_SIZE ==>
                  buf'[TPKT_HEADER_SIZE..r.consumed] == c.inbound[TPKT_HEADER_SIZE..r.consumed])
            && (forall k :: 0 <= k < |buf| && (k < TPKT_HEADER_SIZE || r.consumed <= k) ==> buf'[k] == buf[k])
  {
    var inbound := s.net.conns[s.listenFD].inbound;
    ReceiptMeaning(o, inbound, chunks);
    RecvCases(o, utm, s, chunks, timer);
    StoredBytes(buf, inbound, RecvFrame(o, inbound, chunks));
  }

  /** The same told from the parts of the script that the two receive loops go through. */
  lemma RecvByScript(o: ByteOrder, utm: bool, s: State, p: seq<IoResult>, q: seq<IoResult>,
                     p2: seq<IoResult>, q2: seq<IoResult>, timer: int)
    requires Callable(s, Recv(p + q, timer)) && s.listenFD > 0
    requires Divides(o, s.net.conns[s.listenFD].inbound, p, q, p2, q2)
    ensures var c := s.net.conns[s.listenFD];
            var (s', r) := Received(o, utm, s, p + q, timer);
            && r == Told(o, c.inbound, p, q, p2, q2) && r.consumed <= |c.inbound|
            && if r.n > 0 then MovedOn(s, s', c.(inbound := c.inbound[r.consumed..],
                                                 got := c.got + [c.inbound[..r.consumed]]))
               else LinkLost(utm, s, s', c.(inbound := c.inbound[r.consumed..]))
  {
    RecvCases(o, utm, s, p + q, timer);
    RecvExactly(o, s.net.conns[s.listenFD].inbound, p, q, p2, q2);
  }

  // ------------------------------------------------------ what is watched

  /** The descriptor that a step begins to watch, or 0. */
  function Joins(s: State, e: Event): int {
    if e.Reconnect? && e.newFD > 0 then e.newFD
    else if e.Enlist? && s.listenFD > 0 then s.listenFD
    else 0
  }

  /** What each step does to the link and the open descriptors: a reconnect opens beside what is there, the
      shortcut in place of the link, and only the tail and the shortcut close. */
  lemma LinkAfter(o: ByteOrder, utm: bool, s: State, e: Event)
    requires Watch(s) && Callable(s, e)
    ensures var s' := Step(o, utm, s, e);
            && s'.listenFD == (if e.Reconnect? then (if e.newFD > 0 then e.newFD else -1)
                               else if e.OpenAtOnce? then e.newFD
                               else if Disconnects(o, s, e) then -1 else s.listenFD)
            && s'.net.conns.Keys == (if Disconnects(o, s, e) || e.OpenAtOnce? then s.net.conns.Keys - {s.listenFD}
                                     else s.net.conns.Keys)
                                    + (if Opens(e) then {e.newFD} else {})
  {
    assert s.listenFD <= 0 ==> s.listenFD !in s.net.conns;
  }

  /** And to the watch set and its maximum: what is watched is only ever cleared by the tail and the shortcut, and
      a link that the shortcut opens is watched one step later. */
  lemma WatchAfter(o: ByteOrder, utm: bool, s: State, e: Event)
    requires Callable(s, e) && s.maxFD >= 0
    ensures var s', fd := Step(o, utm, s, e), Joins(s, e);
            && s'.allset == (if e.OpenAtOnce? then {}
                             else if Disconnects(o, s, e) then (if utm then {} else s.allset - {s.listenFD})
                             else if fd > 0 then s.allset + {fd} else s.allset)
            && s'.maxFD == (if s.maxFD < fd then fd else s.maxFD)
  {
    if e.Send? {
      SendCases(o, utm, s, e);
    } else if e.Recv? && s.listenFD > 0 {
      RecvCases(o, utm, s, e.chunks, e.timer);
    }
  }

  /** How many threads are about to lock or to watch in the shortcut. */
  lemma ShortcutAfter(o: ByteOrder, utm: bool, s: State, e: Event)
    requires Callable(s, e)
    ensures var s' := Step(o, utm, s, e);
            && s'.seen == (if e.FindNoLink? then s.seen + 1 else if e.OpenAtOnce? then s.seen - 1 else s.seen)
            && s'.opening
               == (if e.OpenAtOnce? then s.opening + 1 else if e.Enlist? then s.opening - 1 else s.opening)
  {
  }

  // ------------------------------------------------- which timers are marked

  function Marks(s: State): set<int>
    requires s.Sized()
  {
    set id | 1 <= id <= MAX_TMR_NUM && s.tmrsync[id].used
  }

  /** The marked timers that the program no longer remembers: it will not stop them. */
  function Strays(s: State): set<int>
    requires s.Sized()
  {
    Marks(s) - {s.tmrId}
  }

  /** The step stops the remembered timer, if there is one, and starts another. */
  predicate Restarts(o: ByteOrder, s: State, e: Event)
    requires Callable(s, e)
  {
    Disconnects(o, s, e) || (e.Reconnect? && e.newFD <= 0)
  }

  lemma RestartedMarks(s: State, r: int)
    requires s.Sized() && !s.tmrsync[0].used && s.tmrId <= MAX_TMR_NUM && r <= MAX_TMR_NUM
    ensures Marks(Restarted(s, r)) == (Marks(s) - {s.tmrId}) + if r > 0 then {r} else {}
  {
  }

  lemma TailMarks(utm: bool, s: State, c: Conn, r: int)
    requires Timers(s) && s.listenFD > 0 && r <= MAX_TMR_NUM
    ensures Marks(Disconnected(utm, SetConn(s, c), r)) == (Marks(s) - {s.tmrId}) + if r > 0 then {r} else {}
  {
    var s1 := SetConn(s, c);
    RestartedMarks(s1.(allset := if utm then {} else s1.allset - {s1.listenFD},
                       net := s1.net.Close(s1.listenFD), listenFD := -1), r);
  }

  lemma MarksAfter(o: ByteOrder, utm: bool, s: State, e: Event)
    requires Timers(s) && Callable(s, e)
    ensures Step(o, utm, s, e).Sized()
    ensures Marks(Step(o, utm, s, e)) ==
              if e.Expire? then Marks(s) - {e.id}
              else if Restarts(o, s, e) then (Marks(s) - {s.tmrId}) + (if e.timer > 0 then {e.timer} else {})
              else Marks(s)
  {
    match e
    case Send(buf, nbytes, polls, sends, timer) =>
      if Disconnects(o, s, e) {
        TailMarks(utm, s, SendFrame(o, s.net.conns[s.listenFD], buf, nbytes, polls, sends).0, timer);
      }
    case Recv(chunks, timer) =>
      if Disconnects(o, s, e) {
        var c := s.net.conns[s.listenFD];
        TailMarks(utm, s, AfterRecv(c, RecvFrame(o, c.inbound, chunks)), timer);
      }
    case Heartbeat(timer) =>
      if Disconnects(o, s, e) {
        TailMarks(utm, s, s.net.conns[s.listenFD], timer);
        assert s.net.conns[s.listenFD := s.net.conns[s.listenFD]] == s.net.conns;
        assert SetConn(s, s.net.conns[s.listenFD]) == s;
      }
    case Reconnect(newFD, _, timer) =>
      if newFD <= 0 {
        RestartedMarks(s.(task := Idle, listenFD := -1), timer);
      }
    case _ =>
  }

  /** What a step does to the remembered timer and to the timer task. */
  lemma TmrIdAfter(o: ByteOrder, utm: bool, s: State, e: Event)
    requires Callable(s, e)
    ensures Step(o, utm, s, e).tmrId == if e.ForgetTimer? then 0 else if Restarts(o, s, e) then e.timer else s.tmrId
    ensures Step(o, utm, s, e).task ==
              if e.ForgetTimer? then Forgot else if Acts(s, e) then Unmarked else if e.Reconnect? then Idle else s.task
  {
  }

  /** A timer is left behind just where `TcpReconnect` clears `tmrId` although that timer is marked; it is so
      until its own expiry, or until its id is handed out anew. */
  lemma StraysExactly(o: ByteOrder, utm: bool, s: State, e: Event)
    requires Timers(s) && Callable(s, e)
    ensures Step(o, utm, s, e).Sized()
    ensures Strays(Step(o, utm, s, e)) ==
              if e.ForgetTimer? then Marks(s)
              else if e.Expire? then Strays(s) - {e.id}
              else if Restarts(o, s, e) then Strays(s) - {e.timer}
              else Strays(s)
  {
    MarksAfter(o, utm, s, e);
    TmrIdAfter(o, utm, s, e);
    assert 0 !in Marks(s);
  }

  /** Event `k` of the run happens. */
  predicate Happens(o: ByteOrder, utm: bool, b: Beginning, events: seq<Event>, k: nat)
    requires b.timer <= MAX_TMR_NUM && k < |events|
  {
    Callable(Run(o, utm, b, events[..k]), events[k])
  }

  lemma RunStep(o: ByteOrder, utm: bool, b: Beginning, events: seq<Event>, k: nat)
    requires b.timer <= MAX_TMR_NUM && k < |events|
    ensures Run(o, utm, b, events[..k + 1])
            == if Happens(o, utm, b, events, k) then Step(o, utm, Run(o, utm, b, events[..k]), events[k])
               else Run(o, utm, b, events[..k])
  {
    assert events[..k + 1][..k] == events[..k];
  }

  /** At most one timer, the remembered one, is ever marked. */
  ghost predicate NoneLeft(o: ByteOrder, utm: bool, b: Beginning, events: seq<Event>)
    requires b.timer <= MAX_TMR_NUM
  {
    forall k :: 0 <= k <= |events| ==>
      var s := Run(o, utm, b, events[..k]); s.Sized() && Strays(s) == {}
  }

  /** The remembered timer is marked: one has been started since the expiry that is being handled. */
  predicate Remarked(s: State) {
    s.Sized() && IsTimer(s.tmrId) && s.tmrsync[s.tmrId].used
  }

  /** No `TcpReconnect` in the run clears `tmrId` when it is that of a marked timer. */
  ghost predicate ForgetsExpired(o: ByteOrder, utm: bool, b: Beginning, events: seq<Event>)
    requires b.timer <= MAX_TMR_NUM
  {
    forall k :: 0 <= k < |events| && Happens(o, utm, b, events, k) && events[k].ForgetTimer? ==>
      !Remarked(Run(o, utm, b, events[..k]))
  }

  lemma NoStraysNext(o: ByteOrder, utm: bool, b: Beginning, events: seq<Event>, k: nat)
    requires b.timer <= MAX_TMR_NUM && k < |events|
    requires Run(o, utm, b, events[..k]).Sized() && Strays(Run(o, utm, b, events[..k])) == {}
    ensures Run(o, utm, b, events[..k + 1]).Sized()
    ensures Strays(Run(o, utm, b, events[..k + 1])) == {} <==>
              !(Happens(o, utm, b, events, k) && events[k].ForgetTimer? && Remarked(Run(o, utm, b, events[..k])))
  {
    RunStep(o, utm, b, events, k);
    RunSafe(o, utm, b, events[..k]);
    if Happens(o, utm, b, events, k) {
      StraysExactly(o, utm, Run(o, utm, b, events[..k]), events[k]);
      OneMark(Run(o, utm, b, events[..k]));
    }
  }

  lemma OneMark(s: State)
    requires s.Sized() && Strays(s) == {}
    ensures Marks(s) == {} <==> !Remarked(s)
  {
    assert Remarked(s) ==> s.tmrId in Marks(s);
    assert Marks(s) <= Strays(s) + {s.tmrId};
  }

  /** Over whole runs: no timer is ever left behind exactly if no reconnect clears the id of a marked one. */
  lemma NoneLeftExactly(o: ByteOrder, utm: bool, b: Beginning, events: seq<Event>)
    requires b.timer <= MAX_TMR_NUM
    ensures NoneLeft(o, utm, b, events) <==> ForgetsExpired(o, utm, b, events)
  {
    if NoneLeft(o, utm, b, events) {
      forall k | 0 <= k < |events| && Happens(o, utm, b, events, k) && events[k].ForgetTimer?
        ensures !Remarked(Run(o, utm, b, events[..k]))
      {
        NoStraysNext(o, utm, b, events, k);
      }
    } else if ForgetsExpired(o, utm, b, events) {
      forall k | 0 <= k <= |events|
        ensures Run(o, utm, b, events[..k]).Sized() && Strays(Run(o, utm, b, events[..k])) == {}
      {
        NoStraysUpTo(o, utm, b, events, k);
      }
    }
  }

  lemma {:induction false} NoStraysUpTo(o: ByteOrder, utm: bool, b: Beginning, events: seq<Event>, k: nat)
    requires b.timer <= MAX_TMR_NUM && k <= |events| && ForgetsExpired(o, utm, b, events)
    ensures Run(o, utm, b, events[..k]).Sized() && Strays(Run(o, utm, b, events[..k])) == {}
  {
    if k == 0 {
      assert events[..0] == [];
      RestartedMarks(Initial().(listenFD := b.newFD), b.timer);
      assert Marks(Initial()) == {};
    } else {
      NoStraysUpTo(o, utm, b, events, k - 1);
      NoStraysNext(o, utm, b, events, k - 1);
    }
  }

  // ------------------------------------------ the two halves of `Expire`

  function MarkTakenBack(s: State, id: int): State
    requires s.Sized() && IsTimer(id)
  {
    s.(tmrsync := s.tmrsync[id := s.tmrsync[id].(used := false)])
  }

  /** The source tests the mark of an expiry and only then takes it back, both without the lock. A step of
      another thread in between might as well have come after both, unless it starts a timer with that id. */
  lemma EarlyUnmark(o: ByteOrder, utm: bool, s: State, id: int, e: Event)
    requires Callable(s, e) && IsTimer(id) && !(e.Expire? || e.ForgetTimer? || e.Reconnect?)
    requires Restarts(o, s, e) ==> e.timer != id
    ensures Callable(MarkTakenBack(s, id), e) && Step(o, utm, s, e).Sized()
    ensures Step(o, utm, MarkTakenBack(s, id), e) == MarkTakenBack(Step(o, utm, s, e), id)
  {
    var s1 := MarkTakenBack(s, id);
    match e
    case Send(buf, nbytes, polls, sends, timer) =>
      if Disconnects(o, s, e) {
        TailUnmarked(utm, s, SendFrame(o, s.net.conns[s.listenFD], buf, nbytes, polls, sends).0, timer, id);
      }
    case Recv(chunks, timer) =>
      if Disconnects(o, s, e) {
        var c := s.net.conns[s.listenFD];
        TailUnmarked(utm, s, AfterRecv(c, RecvFrame(o, c.inbound, chunks)), timer, id);
      }
    case Heartbeat(timer) =>
      if Disconnects(o, s, e) {
        var c := s.net.conns[s.listenFD];
        TailUnmarked(utm, s, c, timer, id);
        assert s.net.conns[s.listenFD := c] == s.net.conns;
        assert SetConn(s, c) == s && SetConn(s1, c) == s1;
      }
    case _ =>
  }

  lemma TailUnmarked(utm: bool, s: State, c: Conn, r: int, id: int)
    requires s.Sized() && s.tmrId <= MAX_TMR_NUM && s.listenFD > 0 && r <= MAX_TMR_NUM && IsTimer(id) && r != id
    ensures Disconnected(utm, SetConn(s, c), r).Sized()
    ensures Disconnected(utm, SetConn(MarkTakenBack(s, id), c), r)
            == MarkTakenBack(Disconnected(utm, SetConn(s, c), r), id)
  {
    var a := Disconnected(utm, SetConn(MarkTakenBack(s, id), c), r);
    var b := MarkTakenBack(Disconnected(utm, SetConn(s, c), r), id);
    assert a.tmrsync == b.tmrsync;
  }

  // ------------------------------------------------ when the stop is reached

  /** Since `TcpReconnect` cleared `tmrId`, a disconnect tail has run, and the last one started a timer. */
  ghost predicate StartedSince(o: ByteOrder, utm: bool, b: Beginning, events: seq<Event>)
    requires b.timer <= MAX_TMR_NUM
  {
    events != [] &&
    var before, e := events[..|events| - 1], events[|events| - 1];
    var s := Run(o, utm, b, before);
    if !Callable(s, e) then StartedSince(o, utm, b, before)
    else if Restarts(o, s, e) then e.timer > 0
    else !e.ForgetTimer? && StartedSince(o, utm, b, before)
  }

  /** `TcpReconnect` finds a timer to stop, before it starts another, exactly if a tail came between its first
      line and its lock and started one. */
  lemma {:induction false} StopReached(o: ByteOrder, utm: bool, b: Beginning, events: seq<Event>)
    requires b.timer <= MAX_TMR_NUM
    ensures Run(o, utm, b, events).task == Forgot ==>
              (Run(o, utm, b, events).tmrId > 0 <==> StartedSince(o, utm, b, events))
  {
    if events != [] {
      var before, e := events[..|events| - 1], events[|events| - 1];
      StopReached(o, utm, b, before);
      if Callable(Run(o, utm, b, before), e) {
        TmrIdAfter(o, utm, Run(o, utm, b, before), e);
      }
    }
  }

  // -------------------------------------------------- connected or waiting

  /** Neither a link, nor a timer that would open one, nor a reconnect under way. */
  predicate Stuck(s: State) {
    s.listenFD <= 0 && s.pending == {} && s.task == Idle
  }

  /** The link is open and a timer that would open another is outstanding too. */
  predicate Armed(s: State) {
    s.listenFD > 0 && s.pending != {}
  }

  /** The link is open and a reconnect that would open another is under way. */
  predicate Crossed(s: State) {
    s.listenFD > 0 && s.task != Idle
  }

  /** Connected, watching exactly the link, with no timer and no reconnect; or not connected, watching nothing,
      and either with at most one timer, the one remembered, or with a reconnect under way. */
  ghost predicate Settled(s: State) {
    if s.listenFD > 0 then
      s.net.conns.Keys == s.allset == {s.listenFD} && s.pending == {} && s.tmrId <= 0 && s.task == Idle
    else
      && s.net.conns.Keys == s.allset == {} && s.pending <= {s.tmrId}
      && (s.task != Idle ==> s.pending == {}) && (s.task == Forgot ==> s.tmrId <= 0)
  }

  lemma TailSettles(utm: bool, s: State, c: Conn, r: int)
    requires Timers(s) && Settled(s) && s.listenFD > 0 && r <= MAX_TMR_NUM
    ensures var s1 := SetConn(s, c);
            && Settled(s1) && Settled(Disconnected(utm, s1, r))
            && Disconnected(true, s1, r) == Disconnected(false, s1, r)
  {
    var s1 := SetConn(s, c);
    assert s1.net.conns.Keys == s.net.conns.Keys;
    assert s1.allset - {s1.listenFD} == {};
    assert s1.net.conns - {s1.listenFD} == map[];
  }

  /** Every step but the shortcut keeps the alternative, and the two builds of the tail agree on it. */
  lemma StepSettled(o: ByteOrder, utm: bool, s: State, e: Event)
    requires Timers(s) && Settled(s) && Callable(s, e) && !Shortcut(e)
    ensures Settled(Step(o, utm, s, e))
    ensures Step(o, true, s, e) == Step(o, false, s, e)
  {
    if s.listenFD > 0 {
      match e
      case Send(buf, nbytes, polls, sends, timer) =>
        if nbytes > 0 {
          TailSettles(utm, s, SendFrame(o, s.net.conns[s.listenFD], buf, nbytes, polls, sends).0, timer);
        }
      case Recv(chunks, timer) =>
        var c := s.net.conns[s.listenFD];
        TailSettles(utm, s, AfterRecv(c, RecvFrame(o, c.inbound, chunks)), timer);
      case Heartbeat(timer) =>
        var c := s.net.conns[s.listenFD];
        TailSettles(utm, s, c, timer);
        assert s.net.conns[s.listenFD := c] == s.net.conns;
        assert SetConn(s, c) == s;
      case _ =>
    }
  }

  /** In every run without the shortcut the client is connected with no timer, or not connected with at most
      one or with a reconnect under way; what it watches is exactly the link; and the two builds behave alike. */
  lemma {:induction false} RunSettled(o: ByteOrder, utm: bool, b: Beginning, events: seq<Event>)
    requires b.timer <= MAX_TMR_NUM && forall k :: 0 <= k < |events| ==> !Shortcut(events[k])
    ensures Settled(Run(o, utm, b, events))
    ensures Run(o, true, b, events) == Run(o, false, b, events)
  {
    if events != [] {
      var before, e := events[..|events| - 1], events[|events| - 1];
      RunSettled(o, utm, b, before);
      RunSafe(o, utm, b, before);
      var s := Run(o, utm, b, before);
      if Callable(s, e) {
        StepSettled(o, utm, s, e);
      }
    }
  }

  /** So in such runs neither the disconnect tail nor a reconnect ever finds a timer to stop, and a reconnect
      never finds a live link. */
  lemma NothingToStop(o: ByteOrder, utm: bool, b: Beginning, events: seq<Event>, e: Event)
    requires b.timer <= MAX_TMR_NUM && forall k :: 0 <= k < |events| ==> !Shortcut(events[k])
    requires Allowed(Run(o, utm, b, events), e)
    ensures var s := Run(o, utm, b, events);
            && Callable(s, e)
            && (Disconnects(o, s, e) || e.Reconnect? ==> s.tmrId <= 0)
            && (e.Reconnect? ==> s.listenFD <= 0)
  {
    RunSettled(o, utm, b, events);
    RunSafe(o, utm, b, events);
  }

  // ------------------------------------------------------------------ stuck

  /** The outstanding timers that a restart leaves running. */
  function Others(s: State): set<int> {
    if s.tmrId > 0 then s.pending - {s.tmrId} else s.pending
  }

  /** The steps that leave the client with none of the three: with no other timer outstanding, the tail or a
      failed reconnect whose `timer_start` fails; the loss of the expiry it waits for; and a shortcut that closes
      a link which came up after its test and then fails to open one. */
  predicate Strands(o: ByteOrder, s: State, e: Event)
    requires Callable(s, e)
  {
    || (Disconnects(o, s, e) && e.timer <= 0 && Others(s) == {} && s.task == Idle)
    || (e.Reconnect? && e.newFD <= 0 && e.timer <= 0 && Others(s) == {})
    || (e.ExpiryLost? && s.listenFD <= 0 && s.pending == {e.id} && s.task == Idle)
    || (e.OpenAtOnce? && e.newFD <= 0 && s.listenFD > 0 && s.pending == {} && s.task == Idle)
  }

  /** The only step that gets a stuck client going. */
  predicate Rescues(e: Event) {
    e.OpenAtOnce? && e.newFD > 0
  }

  lemma RestartedPending(s: State, r: int)
    requires s.Sized() && s.tmrId <= MAX_TMR_NUM && r <= MAX_TMR_NUM
    ensures Restarted(s, r).pending == Others(s) + if r > 0 then {r} else {}
  {
  }

  lemma TailPending(utm: bool, s: State, c: Conn, r: int)
    requires s.Sized() && s.tmrId <= MAX_TMR_NUM && s.listenFD > 0 && r <= MAX_TMR_NUM
    ensures var s' := Disconnected(utm, SetConn(s, c), r);
            && s'.pending == Others(s) + (if r > 0 then {r} else {})
            && s'.listenFD == -1 && s'.task == s.task
  {
    var s1 := SetConn(s, c);
    RestartedPending(s1.(allset := if utm then {} else s1.allset - {s1.listenFD},
                         net := s1.net.Close(s1.listenFD), listenFD := -1), r);
  }

  /** What a step does to the link, the outstanding timers and the timer task. */
  lemma Situation(o: ByteOrder, utm: bool, s: State, e: Event)
    requires Timers(s) && Callable(s, e)
    ensures var s' := Step(o, utm, s, e);
            && s'.pending == (if Restarts(o, s, e) then Others(s) + (if e.timer > 0 then {e.timer} else {})
                              else if e.Expire? || e.ExpiryLost? then s.pending - {e.id} else s.pending)
            && (s'.listenFD > 0 <==>
                  if e.Reconnect? || e.OpenAtOnce? then e.newFD > 0 else s.listenFD > 0 && !Disconnects(o, s, e))
  {
    match e
    case Send(buf, nbytes, polls, sends, timer) =>
      if Disconnects(o, s, e) {
        TailPending(utm, s, SendFrame(o, s.net.conns[s.listenFD], buf, nbytes, polls, sends).0, timer);
      }
    case Recv(chunks, timer) =>
      if Disconnects(o, s, e) {
        var c := s.net.conns[s.listenFD];
        TailPending(utm, s, AfterRecv(c, RecvFrame(o, c.inbound, chunks)), timer);
      }
    case Heartbeat(timer) =>
      if Disconnects(o, s, e) {
        TailPending(utm, s, s.net.conns[s.listenFD], timer);
        assert s.net.conns[s.listenFD := s.net.conns[s.listenFD]] == s.net.conns;
        assert SetConn(s, s.net.conns[s.listenFD]) == s;
      }
    case Reconnect(newFD, _, timer) =>
      if newFD <= 0 {
        RestartedPending(s.(task := Idle, listenFD := -1), timer);
      }
    case _ =>
  }

  /** The exact stuck set, step by step: a client is stuck after a step if it was and the step is not the
      shortcut with a successful open, or if the step strands it; not otherwise. */
  lemma StuckExactly(o: ByteOrder, utm: bool, s: State, e: Event)
    requires Timers(s) && Callable(s, e)
    ensures Stuck(Step(o, utm, s, e)) <==> (Stuck(s) && !Rescues(e)) || Strands(o, s, e)
  {
    Situation(o, utm, s, e);
    TmrIdAfter(o, utm, s, e);
    if Restarts(o, s, e) {
      assert e.timer > 0 ==> e.timer in Step(o, utm, s, e).pending;
      assert e.timer <= 0 ==> Step(o, utm, s, e).pending == Others(s);
    } else if e.Expire? {
      assert !Acts(s, e) ==> s.pending - {e.id} == s.pending;
    } else if e.ExpiryLost? {
      assert s.pending == {} ==> s.pending - {e.id} == {};
    }
  }

  /** Some step of the run stranded the client, or it began so, and no later step rescued it. */
  ghost predicate Stranded(o: ByteOrder, utm: bool, b: Beginning, events: seq<Event>)
    requires b.timer <= MAX_TMR_NUM
  {
    if events == [] then b.newFD <= 0 && b.timer <= 0
    else
      var before, e := events[..|events| - 1], events[|events| - 1];
      var s := Run(o, utm, b, before);
      if Callable(s, e) then (Stranded(o, utm, b, before) && !Rescues(e)) || Strands(o, s, e)
      else Stranded(o, utm, b, before)
  }

  /** Over whole runs: stuck exactly when stranded and not rescued since. Without the shortcut nothing rescues. */
  lemma {:induction false} StuckRuns(o: ByteOrder, utm: bool, b: Beginning, events: seq<Event>)
    requires b.timer <= MAX_TMR_NUM
    ensures Stuck(Run(o, utm, b, events)) <==> Stranded(o, utm, b, events)
  {
    if events == [] {
      assert b.timer > 0 ==> b.timer in {b.timer};
    } else {
      var before, e := events[..|events| - 1], events[|events| - 1];
      StuckRuns(o, utm, b, before);
      RunSafe(o, utm, b, before);
      if Callable(Run(o, utm, b, before), e) {
        StuckExactly(o, utm, Run(o, utm, b, before), e);
      }
    }
  }

  /** A run with no shortcut, no lost expiry and no failing `timer_start`. */
  predicate Healthy(b: Beginning, events: seq<Event>) {
    && (b.newFD > 0 || b.timer > 0)
    && forall k :: 0 <= k < |events| ==>
         var e := events[k];
         !Shortcut(e) && !e.ExpiryLost? && (e.Send? || e.Recv? || e.Heartbeat? || e.Reconnect? ==> e.timer > 0)
  }

  /** In every healthy run the client is in just one of three situations: connected, with no timer outstanding and
      no reconnect under way; not connected, with one timer outstanding, the one it remembers; or not connected,
      with a reconnect under way and no timer. */
  lemma {:induction false} HealthyRuns(o: ByteOrder, utm: bool, b: Beginning, events: seq<Event>)
    requires b.timer <= MAX_TMR_NUM && Healthy(b, events)
    ensures var s := Run(o, utm, b, events);
            || (s.listenFD > 0 && s.pending == {} && s.task == Idle)
            || (s.listenFD <= 0 && s.pending == {s.tmrId} && s.task == Idle)
            || (s.listenFD <= 0 && s.pending == {} && s.task != Idle)
  {
    RunSettled(o, utm, b, events);
    StuckRuns(o, utm, b, events);
    NeverStranded(o, utm, b, events);
  }

  lemma {:induction false} NeverStranded(o: ByteOrder, utm: bool, b: Beginning, events: seq<Event>)
    requires b.timer <= MAX_TMR_NUM && Healthy(b, events)
    ensures !Stranded(o, utm, b, events)
  {
    if events != [] {
      NeverStranded(o, utm, b, events[..|events| - 1]);
    }
  }

  // ---------------------------------------------------------------- leaking

  /** Open descriptors that the program no longer remembers. */
  function Orphans(s: State): set<int> {
    s.net.conns.Keys - {s.listenFD}
  }

  /** `TcpReconnect` stores into `ListenFD` over a live descriptor. */
  predicate Overwrites(s: State, e: Event) {
    e.Reconnect? && s.listenFD > 0
  }

  /** How a client comes to be armed and stays so: by opening a link, in a reconnect or a shortcut, beside an
      outstanding timer; until the link goes, or the last such timer is acted upon or lost. */
  lemma ArmedExactly(o: ByteOrder, utm: bool, s: State, e: Event)
    requires Timers(s) && Callable(s, e)
    ensures Armed(Step(o, utm, s, e)) <==>
      || (Opens(e) && s.pending != {})
      || (Armed(s) && !e.OpenAtOnce? && !e.Reconnect? && !Disconnects(o, s, e)
          && !((e.Expire? || e.ExpiryLost?) && s.pending <= {e.id}))
  {
    Situation(o, utm, s, e);
    if e.Expire? || e.ExpiryLost? {
      assert s.pending - {e.id} == {} <==> s.pending <= {e.id};
    }
  }

  /** How a reconnect comes to be under way beside a live link: an expiry is acted upon while the link is up, or
      the shortcut opens one while the timer task is on its way to the lock; until the link goes or is overwritten. */
  lemma CrossedExactly(o: ByteOrder, utm: bool, s: State, e: Event)
    requires Timers(s) && Callable(s, e)
    ensures Crossed(Step(o, utm, s, e)) <==>
      || (Acts(s, e) && s.listenFD > 0)
      || (e.OpenAtOnce? && e.newFD > 0 && s.task != Idle)
      || (Crossed(s) && !e.OpenAtOnce? && !e.Reconnect? && !Disconnects(o, s, e))
  {
    Situation(o, utm, s, e);
    TmrIdAfter(o, utm, s, e);
  }

  /** In the run, a reconnect came to be under way beside a live link, and neither has ended since. */
  ghost predicate CrossedSince(o: ByteOrder, utm: bool, b: Beginning, events: seq<Event>)
    requires b.timer <= MAX_TMR_NUM
  {
    events != [] &&
    var before, e := events[..|events| - 1], events[|events| - 1];
    var s := Run(o, utm, b, before);
    if !Callable(s, e) then CrossedSince(o, utm, b, before)
    else
      || (Acts(s, e) && s.listenFD > 0)
      || (e.OpenAtOnce? && e.newFD > 0 && s.task != Idle)
      || (CrossedSince(o, utm, b, before) && !e.OpenAtOnce? && !e.Reconnect? && !Disconnects(o, s, e))
  }

  lemma {:induction false} CrossedRuns(o: ByteOrder, utm: bool, b: Beginning, events: seq<Event>)
    requires b.timer <= MAX_TMR_NUM
    ensures Crossed(Run(o, utm, b, events)) <==> CrossedSince(o, utm, b, events)
  {
    if events != [] {
      var before, e := events[..|events| - 1], events[|events| - 1];
      CrossedRuns(o, utm, b, before);
      RunSafe(o, utm, b, before);
      if Callable(Run(o, utm, b, before), e) {
        CrossedExactly(o, utm, Run(o, utm, b, before), e);
      }
    }
  }

  /** Over whole runs: a reconnect that locks loses a live link exactly if it is crossed with one. */
  lemma OverwritesCrossed(o: ByteOrder, utm: bool, b: Beginning, events: seq<Event>, e: Event)
    requires b.timer <= MAX_TMR_NUM && e.Reconnect? && Allowed(Run(o, utm, b, events), e)
    ensures Overwrites(Run(o, utm, b, events), e) <==> CrossedSince(o, utm, b, events)
  {
    CrossedRuns(o, utm, b, events);
  }

  /** Orphans are never closed, and arise only where a reconnect loses a live link. */
  lemma OrphansExactly(o: ByteOrder, utm: bool, s: State, e: Event)
    requires Timers(s) && Watch(s) && Callable(s, e)
    ensures Orphans(Step(o, utm, s, e)) == Orphans(s) + if Overwrites(s, e) then {s.listenFD} else {}
  {
    assert s.listenFD <= 0 ==> s.listenFD !in s.net.conns;
    match e
    case Send(buf, nbytes, polls, sends, timer) =>
      if s.listenFD > 0 && nbytes > 0 {
        TailOrphans(utm, s, SendFrame(o, s.net.conns[s.listenFD], buf, nbytes, polls, sends).0, timer);
      }
    case Recv(chunks, timer) =>
      if s.listenFD > 0 {
        var c := s.net.conns[s.listenFD];
        TailOrphans(utm, s, AfterRecv(c, RecvFrame(o, c.inbound, chunks)), timer);
      }
    case Heartbeat(timer) =>
      if s.listenFD > 0 {
        TailOrphans(utm, s, s.net.conns[s.listenFD], timer);
        assert SetConn(s, s.net.conns[s.listenFD]) == s;
      }
    case Reconnect(newFD, _, timer) =>
      assert newFD <= 0 ==> newFD !in s.net.conns && -1 !in s.net.conns;
    case OpenAtOnce(newFD, _) =>
      assert newFD <= 0 ==> newFD !in s.net.conns;
    case _ =>
  }

  lemma TailOrphans(utm: bool, s: State, c: Conn, r: int)
    requires Timers(s) && Watch(s) && s.listenFD > 0 && r <= MAX_TMR_NUM
    ensures Orphans(SetConn(s, c)) == Orphans(s) == Orphans(Disconnected(utm, SetConn(s, c), r))
  {
    assert s.net.conns[s.listenFD := c].Keys == s.net.conns.Keys;
    assert -1 !in s.net.conns;
  }

  /** Some step of the run lost a live link. */
  ghost predicate Lost(o: ByteOrder, utm: bool, b: Beginning, events: seq<Event>)
    requires b.timer <= MAX_TMR_NUM
  {
    events != [] &&
    var before, e := events[..|events| - 1], events[|events| - 1];
    var s := Run(o, utm, b, before);
    Lost(o, utm, b, before) || (Callable(s, e) && Overwrites(s, e))
  }

  /** Over whole runs: a descriptor has leaked exactly if some reconnect overwrote a live link. */
  lemma {:induction false} LeakRuns(o: ByteOrder, utm: bool, b: Beginning, events: seq<Event>)
    requires b.timer <= MAX_TMR_NUM
    ensures Orphans(Run(o, utm, b, events)) != {} <==> Lost(o, utm, b, events)
  {
    if events == [] {
      assert Orphans(Begun(b.newFD, b.arrived, b.timer)) == {};
    } else {
      var before, e := events[..|events| - 1], events[|events| - 1];
      LeakRuns(o, utm, b, before);
      RunSafe(o, utm, b, before);
      if Callable(Run(o, utm, b, before), e) {
        OrphansExactly(o, utm, Run(o, utm, b, before), e);
      }
    }
  }

  /** The shortcut as a whole keeps the alternative exactly if its open fails, or no timer is remembered and no
      reconnect under way. */
  lemma ShortcutSettledIff(o: ByteOrder, utm: bool, s: State, newFD: int, arrived: seq<Byte>)
    requires Safe(o, s) && Settled(s) && s.seen > 0 && newFD !in s.net.Close(s.listenFD).conns
    ensures var e := OpenAtOnce(newFD, arrived);
            && Callable(s, e)
            && var s1 := Step(o, utm, s, e);
            Callable(s1, Enlist)
            && (Settled(Step(o, utm, s1, Enlist)) <==> newFD <= 0 || (s.tmrId <= 0 && s.task == Idle))
  {
    assert s.net.Close(s.listenFD).conns.Keys == {};
    OpenedAtOnceSafe(o, s, newFD, arrived);
  }

  // -------------------------------------------------------------- witnesses

  /** A longer run, and what its last step has done. */
  lemma RunOn(o: ByteOrder, utm: bool, b: Beginning, events: seq<Event>, e: Event) returns (longer: seq<Event>)
    requires b.timer <= MAX_TMR_NUM && Allowed(Run(o, utm, b, events), e)
    ensures var s := Run(o, utm, b, events);
            && longer == events + [e] && Callable(s, e) && Timers(s)
            && var s' := Run(o, utm, b, longer);
            && s' == Step(o, utm, s, e) && s'.Sized()
            && s'.pending == (if Restarts(o, s, e) then Others(s) + (if e.timer > 0 then {e.timer} else {})
                              else if e.Expire? || e.ExpiryLost? then s.pending - {e.id} else s.pending)
            && s'.tmrId == (if e.ForgetTimer? then 0 else if Restarts(o, s, e) then e.timer else s.tmrId)
            && s'.task == (if e.ForgetTimer? then Forgot else if Acts(s, e) then Unmarked
                           else if e.Reconnect? then Idle else s.task)
            && Marks(s') == (if e.Expire? then Marks(s) - {e.id}
                             else if Restarts(o, s, e) then
                               (Marks(s) - {s.tmrId}) + (if e.timer > 0 then {e.timer} else {})
                             else Marks(s))
  {
    longer := events + [e];
    assert longer[..|longer| - 1] == events;
    RunSafe(o, utm, b, events);
    Situation(o, utm, Run(o, utm, b, events), e);
    TmrIdAfter(o, utm, Run(o, utm, b, events), e);
    MarksAfter(o, utm, Run(o, utm, b, events), e);
  }

  const NO_HOST := Beginning(-1, [], 1)

  /** The first open has failed, timer 1 runs, and the state report has found no link. */
  lemma NoLinkYet(o: ByteOrder, utm: bool) returns (events: seq<Event>)
    ensures events == [FindNoLink]
    ensures var s := Run(o, utm, NO_HOST, events);
            && s.Sized() && Marks(s) == s.pending == {1} && s.tmrId == 1 && s.task == Idle
            && s.listenFD == -1 && s.allset == {} && s.net.conns == map[] && s.seen == 1 && s.opening == 0
  {
    assert Marks(Initial()) == {};
    RestartedMarks(Initial().(listenFD := -1), 1);
    events := RunOn(o, utm, NO_HOST, [], FindNoLink);
  }

  /** The report has opened link 5 beside timer 1. */
  lemma OpenedBeside(o: ByteOrder, utm: bool) returns (events: seq<Event>)
    ensures events == [FindNoLink, OpenAtOnce(5, []), Enlist]
    ensures var s := Run(o, utm, NO_HOST, events);
            && s.Sized() && Marks(s) == s.pending == {1} && s.tmrId == 1 && s.task == Idle
            && s.listenFD == 5 && s.allset == {5} && s.net.conns.Keys == {5}
  {
    events := NoLinkYet(o, utm);
    events := RunOn(o, utm, NO_HOST, events, OpenAtOnce(5, []));
    events := RunOn(o, utm, NO_HOST, events, Enlist);
  }

  /** Timer 1 has expired while the link is up, and the timer task is about to call `TcpReconnect`. */
  lemma UnmarkedBeside(o: ByteOrder, utm: bool) returns (events: seq<Event>)
    ensures events == [FindNoLink, OpenAtOnce(5, []), Enlist, Expire(1)]
    ensures var s := Run(o, utm, NO_HOST, events);
            && s.Sized() && Marks(s) == s.pending == {} && s.tmrId == 1 && s.task == Unmarked
            && s.listenFD == 5 && s.allset == {5} && s.net.conns.Keys == {5}
  {
    events := OpenedBeside(o, utm);
    assert 1 in Marks(Run(o, utm, NO_HOST, events));
    events := RunOn(o, utm, NO_HOST, events, Expire(1));
  }

  /** Timer 1 has expired and been forgotten while the link is up. */
  lemma ForgottenBeside(o: ByteOrder, utm: bool) returns (events: seq<Event>)
    ensures events == [FindNoLink, OpenAtOnce(5, []), Enlist, Expire(1), ForgetTimer]
    ensures var s := Run(o, utm, NO_HOST, events);
            && s.Sized() && Marks(s) == s.pending == {} && s.tmrId == 0 && s.task == Forgot
            && s.listenFD == 5 && s.allset == {5} && s.net.conns.Keys == {5}
  {
    events := UnmarkedBeside(o, utm);
    events := RunOn(o, utm, NO_HOST, events, ForgetTimer);
  }

  /** Timer 1 has expired and been forgotten while there is no link. */
  lemma ForgottenAlone(o: ByteOrder, utm: bool) returns (events: seq<Event>)
    ensures events == [FindNoLink, Expire(1), ForgetTimer]
    ensures var s := Run(o, utm, NO_HOST, events);
            && s.Sized() && s.pending == {} && s.tmrId == 0 && s.task == Forgot
            && s.listenFD == -1 && s.net.conns == map[] && s.seen == 1
  {
    events := NoLinkYet(o, utm);
    assert 1 in Marks(Run(o, utm, NO_HOST, events));
    events := RunOn(o, utm, NO_HOST, events, Expire(1));
    events := RunOn(o, utm, NO_HOST, events, ForgetTimer);
  }

  /** A run that strands although no `timer_start` fails and no expiry is lost: the first open fails and starts
      timer 1; the state report finds no link; the timer fires and opens descriptor 6; the report closes it and
      fails to open another. */
  lemma StrandWitness(o: ByteOrder, utm: bool)
    ensures Stuck(Run(o, utm, NO_HOST, [FindNoLink, Expire(1), ForgetTimer, Reconnect(6, [], 2), OpenAtOnce(-1, [])]))
  {
    var events := ForgottenAlone(o, utm);
    events := RunOn(o, utm, NO_HOST, events, Reconnect(6, [], 2));
    events := RunOn(o, utm, NO_HOST, events, OpenAtOnce(-1, []));
    assert events == [FindNoLink, Expire(1), ForgetTimer, Reconnect(6, [], 2), OpenAtOnce(-1, [])];
  }

  /** A run that leaks: before timer 1 fires the state report opens descriptor 5; the timer then fires and opens
      descriptor 6 over it. A later heartbeat failure leaves the dead descriptor watched in the default build
      and not in the `__UTM__` build. */
  lemma LeakWitness(o: ByteOrder, utm: bool)
    ensures var events := [FindNoLink, OpenAtOnce(5, []), Enlist, Expire(1), ForgetTimer, Reconnect(6, [], 0)];
            && Orphans(Run(o, utm, NO_HOST, events)) == {5}
            && Run(o, utm, NO_HOST, events + [Heartbeat(2)]).allset == if utm then {} else {5}
  {
    var events := ForgottenBeside(o, utm);
    events := RunOn(o, utm, NO_HOST, events, Reconnect(6, [], 0));
    var longer := RunOn(o, utm, NO_HOST, events, Heartbeat(2));
    assert events == [FindNoLink, OpenAtOnce(5, []), Enlist, Expire(1), ForgetTimer, Reconnect(6, [], 0)];
  }

  /** A run in which `TcpReconnect` finds a timer to stop: a heartbeat fails after the reconnect has cleared
      `tmrId` and before it locks. If the open then succeeds instead, the reconnect arms the client. */
  lemma StopWitness(o: ByteOrder, utm: bool)
    ensures var events := [FindNoLink, OpenAtOnce(5, []), Enlist, Expire(1), ForgetTimer, Heartbeat(2)];
            && Run(o, utm, NO_HOST, events).task == Forgot && Run(o, utm, NO_HOST, events).tmrId == 2
            && Armed(Run(o, utm, NO_HOST, events + [Reconnect(6, [], 0)]))
  {
    var events := ForgottenBeside(o, utm);
    events := RunOn(o, utm, NO_HOST, events, Heartbeat(2));
    assert events == [FindNoLink, OpenAtOnce(5, []), Enlist, Expire(1), ForgetTimer, Heartbeat(2)];
    assert Run(o, utm, NO_HOST, events).net.conns.Keys == {};
    var longer := RunOn(o, utm, NO_HOST, events, Reconnect(6, [], 0));
    assert 2 in Run(o, utm, NO_HOST, longer).pending;
  }

  /** The heartbeat has failed between the test of the expiry and the first line of `TcpReconnect`. */
  lemma ForgottenMarked(o: ByteOrder, utm: bool) returns (events: seq<Event>)
    ensures events == [FindNoLink, OpenAtOnce(5, []), Enlist, Expire(1), Heartbeat(2), ForgetTimer]
    ensures var s := Run(o, utm, NO_HOST, events);
            && s.Sized() && Marks(s) == s.pending == {2} && s.tmrId == 0 && s.task == Forgot
            && s.listenFD == -1 && s.net.conns.Keys == {}
  {
    events := UnmarkedBeside(o, utm);
    events := RunOn(o, utm, NO_HOST, events, Heartbeat(2));
    assert Run(o, utm, NO_HOST, events).net.conns.Keys == {};
    events := RunOn(o, utm, NO_HOST, events, ForgetTimer);
  }

  /** A run with two timers outstanding, one of them forgotten: after that the reconnect opens a link, and the
      heartbeat fails once more. */
  lemma TwoTimersWitness(o: ByteOrder, utm: bool)
    ensures var events := [FindNoLink, OpenAtOnce(5, []), Enlist, Expire(1), Heartbeat(2), ForgetTimer,
                           Reconnect(6, [], 0), Heartbeat(3)];
            var s := Run(o, utm, NO_HOST, events);
            s.Sized() && Marks(s) == s.pending == {2, 3} && Strays(s) == {2}
  {
    var events := ForgottenMarked(o, utm);
    events := RunOn(o, utm, NO_HOST, events, Reconnect(6, [], 0));
    events := RunOn(o, utm, NO_HOST, events, Heartbeat(3));
    assert events == [FindNoLink, OpenAtOnce(5, []), Enlist, Expire(1), Heartbeat(2), ForgetTimer,
                      Reconnect(6, [], 0), Heartbeat(3)];
  }
}
