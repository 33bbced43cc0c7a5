/** Safety of the host's tables over every run of accepts, sends, receives and reports. */
module HostRuns {
  import opened Tpkt
  import opened Sockets
  import opened Framing
  import opened Scripts
  import opened Alignment
  import opened HostState

  /** One call of the receive task or the FIFO task, with the results the operating system gives it, or one
      of the two locked parts of a state report, or what the hang check does. `addr` is what the receive task
      finds at bytes 12 to 15 of its buffer, used if the frame is the first of its connection: the frame's own,
      or, behind a frame of less than 16 bytes, what an earlier message left there. `LateReset` is the reset of
      an entry that was free when it was compared, made after a report has filled it (`ScanInRuns`). */
  datatype Event =
    | Accept(fd: int, port: Word, arrived: seq<Byte>)
    | Send(i: nat, buf: seq<Byte>, nbytes: int, polls: seq<PollResult>, sends: seq<IoResult>)
    | Recv(i: nat, chunks: seq<IoResult>, addr: nat)
    | CopyOut(report: StateInfo)
    | CopyBack
    | Hang(i: nat, beyond: seq<StateInfo>)
    | LateReset(j: nat)

  /** The premises: `accept` returns a positive descriptor that is not in use, for a peer with a nonzero
      port; a sent buffer holds the header and the message; the one FIFO task handles reports one by one. */
  predicate Allowed(listenFD: int, s: State, e: Event) {
    match e
    case Accept(fd, port, _) => fd > 0 && fd != listenFD && fd !in s.net.conns && port != 0
    case Send(i, buf, nbytes, _, _) => i < MAX_LISTENQ && nbytes <= |buf| && TPKT_HEADER_SIZE <= |buf|
    case Recv(i, _, _) => i < MAX_LISTENQ
    case CopyOut(_) => s.copy == NoCopy
    case CopyBack => s.copy.Copy?
    case Hang(i, beyond) => i < MAX_SYSTEM_NUM && |beyond| == MAX_SYSTEM_NUM - i - 1
    case LateReset(j) => j < MAX_SYSTEM_NUM
  }

  predicate Occupied(s: State, i: int) {
    0 <= i < |s.alist| && s.alist[i].port != 0
  }

  /** The descriptors in the table's occupied slots. */
  function Held(s: State): set<int> {
    set i | 0 <= i < |s.alist| && s.alist[i].port != 0 :: s.alist[i].acceptFD
  }

  /** The tables agree with each other and with the open connections. */
  ghost predicate Tables(listenFD: int, s: State) {
    && s.Sized() && 0 < listenFD <= s.maxFD
    && (forall i :: 0 <= i < MAX_LISTENQ ==> SlotAgrees(listenFD, s, i))
    && (forall i, j :: Occupied(s, i) && Occupied(s, j) && i != j ==> s.alist[i].acceptFD != s.alist[j].acceptFD)
    && s.net.conns.Keys == Held(s)
    && s.allset == Held(s) + {listenFD}
    && (forall fd :: fd in s.allset ==> fd <= s.maxFD)
  }

  /** An occupied slot holds an open connection and its `vmc_system` entry is numbered and, once it is registered,
      has the slot's port and address; a free one is blank. */
  ghost predicate SlotAgrees(listenFD: int, s: State, i: int)
    requires s.Sized() && 0 <= i < MAX_LISTENQ
  {
    var slot, sys := s.alist[i], s.vmcSystem[i];
    if slot.port != 0 then
      && slot.acceptFD > 0 && slot.acceptFD != listenFD && slot.acceptFD in s.net.conns
      && sys.systemidx == i + 1 && (sys.systemport == 0 ==> sys.systemaddr == 0)
      && (sys.systemport != 0 ==> sys.systemport == slot.port && sys.systemaddr == slot.systemaddr)
    else slot.acceptFD == -1 && sys == NO_SYSTEM
  }

  ghost predicate Safe(o: ByteOrder, listenFD: int, s: State) {
    Tables(listenFD, s) && Framed(o, s.net)
  }

  /** What a step needs to be defined; for a call that takes a slot, that its descriptor, if any, is open. */
  predicate Callable(s: State, e: Event) {
    && s.Sized()
    && (e.Send? || e.Recv? ==>
          e.i < MAX_LISTENQ && (s.alist[e.i].acceptFD > 0 ==> s.alist[e.i].acceptFD in s.net.conns))
    && (e.Send? ==> e.nbytes <= |e.buf| && TPKT_HEADER_SIZE <= |e.buf|)
    && (e.CopyBack? ==> s.copy.Copy?)
    && (e.Hang? ==> e.i < MAX_SYSTEM_NUM && |e.beyond| == MAX_SYSTEM_NUM - e.i - 1)
    && (e.LateReset? ==> e.j < MAX_SYSTEM_NUM)
  }

  /** A send or receive on a slot that holds no connection is skipped by the caller. */
  function Step(o: ByteOrder, s: State, e: Event): State
    requires Callable(s, e)
  {
    match e
    case Accept(fd, port, arrived) =>
      var i := FirstFree(s.alist);
      var s1 := Accepted(s, fd, port, arrived);
      if i < MAX_LISTENQ then Watched(s1, i) else s1
    case Send(i, buf, nbytes, polls, sends) =>
      Sent(o, s, i, buf, nbytes, polls, sends).0
    case Recv(i, chunks, addr) =>
      if s.alist[i].acceptFD <= 0 then s
      else
        var (s1, r) := Received(o, s, i, chunks);
        if r.n > 0 then Registered(s1, i, addr) else s1
    case CopyOut(report) => CopiedOut(s, report)
    case CopyBack => CopiedBack(s)
    case Hang(i, beyond) => Hung(s, i, beyond)
    case LateReset(j) => ResetAt(s, j)
  }

  // ------------------------------------------------------------ step lemmas

  lemma TakeHolds(s: State, i: nat, fd: int, port: Word)
    requires s.Sized() && i < MAX_LISTENQ && s.alist[i].port == 0 && port != 0
    ensures Held(Taken(s, i, fd, port)) == Held(s) + {fd}
  {
    var s' := Taken(s, i, fd, port);
    assert s'.alist[i].acceptFD == fd;
    forall x | x in Held(s)
      ensures x in Held(s')
    {
      var j :| 0 <= j < |s.alist| && s.alist[j].port != 0 && s.alist[j].acceptFD == x;
      assert s'.alist[j] == s.alist[j];
    }
  }

  lemma FreeHolds(listenFD: int, s: State, i: nat)
    requires Tables(listenFD, s) && i < MAX_LISTENQ && s.alist[i].port != 0
    ensures Held(Freed(s, i)) == Held(s) - {s.alist[i].acceptFD}
  {
    var s', fd := Freed(s, i), s.alist[i].acceptFD;
    forall x | x in Held(s) && x != fd
      ensures x in Held(s')
    {
      var j :| 0 <= j < |s.alist| && s.alist[j].port != 0 && s.alist[j].acceptFD == x;
      assert s'.alist[j] == s.alist[j];
    }
    forall x | x in Held(s')
      ensures x in Held(s) && x != fd
    {
      var j :| 0 <= j < |s'.alist| && s'.alist[j].port != 0 && s'.alist[j].acceptFD == x;
      assert s'.alist[j] == s.alist[j] && Occupied(s, i) && Occupied(s, j);
    }
  }

  lemma TakenTables(listenFD: int, s: State, i: nat, fd: int, port: Word, net: Net)
    requires Tables(listenFD, s) && i < MAX_LISTENQ && s.alist[i].port == 0
    requires fd > 0 && fd != listenFD && fd !in s.net.conns && port != 0
    requires net.conns.Keys == s.net.conns.Keys + {fd}
    ensures Tables(listenFD, Watched(Taken(s, i, fd, port).(net := net), i))
  {
    TakeHolds(s, i, fd, port);
    var t := Taken(s, i, fd, port);
    var s' := Watched(t.(net := net), i);
    assert SlotAgrees(listenFD, s, i);
    assert Held(s') == Held(t);
    TakenSlots(listenFD, s, s', i, fd);
    TakenApart(listenFD, s, s', i, fd);
  }

  lemma TakenSlots(listenFD: int, s: State, s': State, i: nat, fd: int)
    requires Tables(listenFD, s) && s'.Sized() && i < MAX_LISTENQ && fd > 0 && fd != listenFD
    requires s'.alist[i].acceptFD == fd && s'.alist[i].port != 0 && s.alist[i].port == 0
    requires s'.vmcSystem[i] == VmcSystem(i + 1, 0, 0) && s'.net.conns.Keys == s.net.conns.Keys + {fd}
    requires forall j :: 0 <= j < MAX_LISTENQ && j != i ==>
      s'.alist[j] == s.alist[j] && s'.vmcSystem[j] == s.vmcSystem[j]
    ensures forall j :: 0 <= j < MAX_LISTENQ ==> SlotAgrees(listenFD, s', j)
  {
    forall j | 0 <= j < MAX_LISTENQ
      ensures SlotAgrees(listenFD, s', j)
    {
      assert SlotAgrees(listenFD, s, j);
    }
  }

  lemma TakenApart(listenFD: int, s: State, s': State, i: nat, fd: int)
    requires Tables(listenFD, s) && i < MAX_LISTENQ && fd !in s.net.conns
    requires |s'.alist| == MAX_LISTENQ && s'.alist[i].acceptFD == fd
    requires forall j :: 0 <= j < MAX_LISTENQ && j != i ==> s'.alist[j] == s.alist[j]
    ensures forall j, k :: Occupied(s', j) && Occupied(s', k) && j != k ==> s'.alist[j].acceptFD != s'.alist[k].acceptFD
  {
    forall j, k | Occupied(s', j) && Occupied(s', k) && j != k
      ensures s'.alist[j].acceptFD != s'.alist[k].acceptFD
    {
      assert SlotAgrees(listenFD, s, j) && SlotAgrees(listenFD, s, k);
      assert j != i ==> Occupied(s, j);
      assert k != i ==> Occupied(s, k);
    }
  }

  lemma OpenFramed(o: ByteOrder, net: Net, fd: int, arrived: seq<Byte>)
    requires Framed(o, net)
    ensures Framed(o, net.Open(fd, arrived))
  {
    OpenedAligned(o, net.count, arrived);
  }

  lemma TakenSafe(o: ByteOrder, listenFD: int, s: State, i: nat, fd: int, port: Word, arrived: seq<Byte>)
    requires Safe(o, listenFD, s) && Allowed(listenFD, s, Accept(fd, port, arrived))
    requires i < MAX_LISTENQ && s.alist[i].port == 0
    ensures Safe(o, listenFD, Watched(Taken(s, i, fd, port).(net := s.net.Open(fd, arrived)), i))
  {
    OpenFramed(o, s.net, fd, arrived);
    TakenTables(listenFD, s, i, fd, port, s.net.Open(fd, arrived));
  }

  /** With a full table the new connection is closed at once. */
  lemma TurnedAway(o: ByteOrder, listenFD: int, s: State, fd: int, arrived: seq<Byte>)
    requires Safe(o, listenFD, s) && fd !in s.net.conns
    ensures var net := Net(s.net.conns, s.net.closed + [Opened(s.net.count, arrived)], s.net.count + 1);
            s.net.Open(fd, arrived).Close(fd) == net && Safe(o, listenFD, s.(net := net))
  {
    var c := Opened(s.net.count, arrived);
    OpenedAligned(o, c.id, arrived);
    ClosedAligned(o, c);
    assert s.net.conns[fd := c] - {fd} == s.net.conns;
    NetSafe(o, listenFD, s, Net(s.net.conns, s.net.closed + [c], s.net.count + 1));
  }

  ghost predicate LeastFree(s: State, i: int) {
    0 <= i < MAX_LISTENQ && !Occupied(s, i) && forall j :: 0 <= j < i ==> Occupied(s, j)
  }

  /** Slot `i` has the new connection; nothing else differs. */
  ghost predicate LetIn(s: State, s': State, i: int, fd: int, port: Word, arrived: seq<Byte>)
    requires s.Sized() && 0 <= i < MAX_LISTENQ
  {
    s' == State(s.alist[i := Slot(fd, i + 1, s.alist[i].systemaddr, port)],
                s.vmcSystem[i := VmcSystem(i + 1, 0, 0)], s.stateinfo,
                s.allset + {fd}, if s.maxFD < fd then fd else s.maxFD,
                Net(s.net.conns[fd := Conn(s.net.count, arrived, arrived, [], [], [])], s.net.closed, s.net.count + 1),
                s.copy)
  }

  /** Accept: the least free slot gets the connection, or with a full table the new descriptor is closed. */
  lemma AcceptSafe(o: ByteOrder, listenFD: int, s: State, fd: int, port: Word, arrived: seq<Byte>)
    requires Safe(o, listenFD, s) && Allowed(listenFD, s, Accept(fd, port, arrived))
    ensures var s' := Step(o, s, Accept(fd, port, arrived));
            && Safe(o, listenFD, s')
            && (forall i :: LeastFree(s, i) ==> LetIn(s, s', i, fd, port, arrived))
            && ((forall i :: 0 <= i < MAX_LISTENQ ==> Occupied(s, i)) ==>
                  s' == s.(net := Net(s.net.conns, s.net.closed + [Opened(s.net.count, arrived)], s.net.count + 1)))
  {
    var i := FirstFree(s.alist);
    if i < MAX_LISTENQ {
      assert LeastFree(s, i);
      TakenSafe(o, listenFD, s, i, fd, port, arrived);
      LeastIsLetIn(o, listenFD, s, i, fd, port, arrived);
      OneLeastFree(s, i);
      assert !Occupied(s, i);
    } else {
      TurnedAway(o, listenFD, s, fd, arrived);
      assert forall j :: !LeastFree(s, j);
    }
  }

  lemma LeastIsLetIn(o: ByteOrder, listenFD: int, s: State, i: nat, fd: int, port: Word, arrived: seq<Byte>)
    requires Tables(listenFD, s) && Allowed(listenFD, s, Accept(fd, port, arrived))
    requires i == FirstFree(s.alist) < MAX_LISTENQ
    ensures LetIn(s, Step(o, s, Accept(fd, port, arrived)), i, fd, port, arrived)
  {
    assert SlotAgrees(listenFD, s, i);
  }

  lemma OneLeastFree(s: State, i: int)
    requires LeastFree(s, i)
    ensures forall j :: LeastFree(s, j) ==> j == i
  {
    forall j | LeastFree(s, j)
      ensures j == i
    {
      assert i < j ==> Occupied(s, i);
      assert j < i ==> Occupied(s, j);
    }
  }

  lemma NetSafe(o: ByteOrder, listenFD: int, s: State, net: Net)
    requires Tables(listenFD, s) && net.conns.Keys == s.net.conns.Keys && Framed(o, net)
    ensures Safe(o, listenFD, s.(net := net))
  {
    var s' := s.(net := net);
    assert Held(s') == Held(s);
    forall j | 0 <= j < MAX_LISTENQ
      ensures SlotAgrees(listenFD, s', j)
    {
      assert SlotAgrees(listenFD, s, j);
    }
  }

  lemma FreedTables(listenFD: int, s: State, i: nat)
    requires Tables(listenFD, s) && i < MAX_LISTENQ && s.alist[i].port != 0
    ensures Tables(listenFD, Freed(s, i))
  {
    FreeHolds(listenFD, s, i);
    var s' := Freed(s, i);
    assert SlotAgrees(listenFD, s, i);
    assert s'.allset == Held(s') + {listenFD};
    forall j | 0 <= j < MAX_LISTENQ
      ensures SlotAgrees(listenFD, s', j)
    {
      assert SlotAgrees(listenFD, s, i) && SlotAgrees(listenFD, s, j);
      assert j != i && Occupied(s, j) ==> Occupied(s, i);
    }
    forall j, k | Occupied(s', j) && Occupied(s', k) && j != k
      ensures s'.alist[j].acceptFD != s'.alist[k].acceptFD
    {
      assert Occupied(s, j) && Occupied(s, k);
    }
    assert s'.net.conns.Keys == s.net.conns.Keys - {s.alist[i].acceptFD};
  }

  /** Freeing slot `i` when its connection has become `c`, which may end in a torn frame. */
  lemma FreedSafe(o: ByteOrder, listenFD: int, s: State, i: nat, c: Conn)
    requires Safe(o, listenFD, s) && i < MAX_LISTENQ && s.alist[i].port != 0 && Aligned(o, c, false)
    requires s.alist[i].acceptFD in s.net.conns
    ensures Safe(o, listenFD, Freed(SetConn(s, s.alist[i].acceptFD, c), i))
  {
    var fd := s.alist[i].acceptFD;
    var net := Net(s.net.conns - {fd}, s.net.closed + [c], s.net.count);
    FreedTables(listenFD, s, i);
    NetSafe(o, listenFD, Freed(s, i), net);
    assert s.net.conns[fd := c] - {fd} == s.net.conns - {fd};
    assert Freed(SetConn(s, fd, c), i) == Freed(s, i).(net := net);
  }

  /** The three ways a send leaves the host. */
  lemma SendSteps(o: ByteOrder, s: State, e: Event)
    requires Callable(s, e) && e.Send?
    ensures var fd := s.alist[e.i].acceptFD;
            if fd <= 0 || e.nbytes <= 0 then Step(o, s, e) == s
            else
              var (c, v) := SendFrame(o, s.net.conns[fd], e.buf, e.nbytes, e.polls, e.sends);
              Step(o, s, e) == if v == Broken then Freed(SetConn(s, fd, c), e.i) else SetConn(s, fd, c)
  {
  }

  lemma SendSafe(o: ByteOrder, listenFD: int, s: State, e: Event)
    requires Safe(o, listenFD, s) && e.Send? && Allowed(listenFD, s, e)
    ensures Callable(s, e) && Safe(o, listenFD, Step(o, s, e))
  {
    var fd := s.alist[e.i].acceptFD;
    assert SlotAgrees(listenFD, s, e.i);
    SendSteps(o, s, e);
    if fd > 0 && e.nbytes > 0 {
      SentSafe(o, listenFD, s, e);
    }
  }

  lemma SentSafe(o: ByteOrder, listenFD: int, s: State, e: Event)
    requires Safe(o, listenFD, s) && Callable(s, e) && e.Send? && e.nbytes > 0
    requires s.alist[e.i].acceptFD > 0 && Occupied(s, e.i)
    ensures var fd := s.alist[e.i].acceptFD;
            var (c, v) := SendFrame(o, s.net.conns[fd], e.buf, e.nbytes, e.polls, e.sends);
            Safe(o, listenFD, if v == Broken then Freed(SetConn(s, fd, c), e.i) else SetConn(s, fd, c))
  {
    var fd := s.alist[e.i].acceptFD;
    var (c, v) := SendFrame(o, s.net.conns[fd], e.buf, e.nbytes, e.polls, e.sends);
    SendKeepsAligned(o, s.net.conns[fd], e.buf, e.nbytes, e.polls, e.sends);
    if v == Broken {
      FreedSafe(o, listenFD, s, e.i, c);
    } else {
      NetSafe(o, listenFD, s, SetConn(s, fd, c).net);
    }
  }

  lemma RegisteredSafe(o: ByteOrder, listenFD: int, s: State, i: nat, addr: nat)
    requires Safe(o, listenFD, s) && i < MAX_LISTENQ && s.alist[i].port != 0
    ensures Safe(o, listenFD, Registered(s, i, addr))
  {
    var s' := Registered(s, i, addr);
    forall j | 0 <= j < MAX_LISTENQ
      ensures SlotAgrees(listenFD, s', j)
      ensures s'.alist[j].acceptFD == s.alist[j].acceptFD && s'.alist[j].port == s.alist[j].port
    {
      assert SlotAgrees(listenFD, s, j);
    }
    assert Held(s') == Held(s);
    assert forall j :: Occupied(s', j) <==> Occupied(s, j);
  }

  lemma LossSafe(o: ByteOrder, listenFD: int, s: State, i: nat, chunks: seq<IoResult>)
    requires Safe(o, listenFD, s) && i < MAX_LISTENQ && Occupied(s, i) && s.alist[i].acceptFD in s.net.conns
    requires s.alist[i].acceptFD > 0 && Received(o, s, i, chunks).1.n <= 0
    ensures Safe(o, listenFD, Received(o, s, i, chunks).0)
  {
    var fd := s.alist[i].acceptFD;
    var c := AfterRecv(s.net.conns[fd], RecvFrame(o, s.net.conns[fd].inbound, chunks));
    ReceiveKeepsAligned(o, s.net.conns[fd], chunks);
    FreedSafe(o, listenFD, s, i, c);
    var s1 := Freed(SetConn(s, fd, c), i);
    var info := ResetFirst(s.stateinfo, s.vmcSystem[i].systemaddr);
    InfoIrrelevant(o, listenFD, s1, info, s1.copy);
    assert Received(o, s, i, chunks).0 == s1.(stateinfo := info);
  }

  lemma GainSafe(o: ByteOrder, listenFD: int, s: State, i: nat, chunks: seq<IoResult>)
    requires Safe(o, listenFD, s) && i < MAX_LISTENQ && s.alist[i].acceptFD in s.net.conns
    requires Received(o, s, i, chunks).1.n > 0
    ensures Safe(o, listenFD, Received(o, s, i, chunks).0)
  {
    var fd := s.alist[i].acceptFD;
    var net := SetConn(s, fd, AfterRecv(s.net.conns[fd], RecvFrame(o, s.net.conns[fd].inbound, chunks))).net;
    ReceiveKeepsAligned(o, s.net.conns[fd], chunks);
    NetSafe(o, listenFD, s, net);
    assert Received(o, s, i, chunks).0 == s.(net := net);
  }

  lemma RecvSafe(o: ByteOrder, listenFD: int, s: State, e: Event)
    requires Safe(o, listenFD, s) && e.Recv? && Allowed(listenFD, s, e)
    ensures Callable(s, e) && Safe(o, listenFD, Step(o, s, e))
  {
    var fd := s.alist[e.i].acceptFD;
    assert SlotAgrees(listenFD, s, e.i);
    if fd > 0 {
      var (s1, r) := Received(o, s, e.i, e.chunks);
      if r.n > 0 {
        GainSafe(o, listenFD, s, e.i, e.chunks);
        RegisteredSafe(o, listenFD, s1, e.i, e.addr);
        assert Step(o, s, e) == Registered(s1, e.i, e.addr);
      } else {
        LossSafe(o, listenFD, s, e.i, e.chunks);
        assert Step(o, s, e) == s1;
      }
    } else {
      assert Step(o, s, e) == s;
    }
  }

  /** The state entries and the FIFO task's copy of them are no part of the invariant. */
  lemma InfoIrrelevant(o: ByteOrder, listenFD: int, s: State, info: seq<StateInfo>, copy: Copy)
    requires Safe(o, listenFD, s) && |info| == MAX_SYSTEM_NUM && (copy.Copy? ==> |copy.table| == MAX_SYSTEM_NUM)
    ensures Safe(o, listenFD, s.(stateinfo := info, copy := copy))
  {
    var s' := s.(stateinfo := info, copy := copy);
    assert Held(s') == Held(s);
    forall j | 0 <= j < MAX_LISTENQ
      ensures SlotAgrees(listenFD, s', j)
    {
      assert SlotAgrees(listenFD, s, j);
    }
  }

  lemma StepSafe(o: ByteOrder, listenFD: int, s: State, e: Event)
    requires Safe(o, listenFD, s) && Allowed(listenFD, s, e)
    ensures Callable(s, e) && Safe(o, listenFD, Step(o, s, e))
  {
    match e
    case Accept(fd, port, arrived) => AcceptSafe(o, listenFD, s, fd, port, arrived);
    case Send(_, _, _, _, _) => SendSafe(o, listenFD, s, e);
    case Recv(_, _, _) => RecvSafe(o, listenFD, s, e);
    case _ => InfoIrrelevant(o, listenFD, s, Step(o, s, e).stateinfo, Step(o, s, e).copy);
  }

  // ---------------------------------------------------------------- all runs

  lemma StartSafe(o: ByteOrder, listenFD: int)
    requires listenFD > 0
    ensures Safe(o, listenFD, Start(listenFD))
  {
    assert Held(Start(listenFD)) == {};
  }

  /** The state after any sequence of events; one that the premises exclude does not happen. */
  function Run(o: ByteOrder, listenFD: int, events: seq<Event>): State {
    if events == [] then Start(listenFD)
    else
      var s, e := Run(o, listenFD, events[..|events| - 1]), events[|events| - 1];
      if Callable(s, e) && Allowed(listenFD, s, e) then Step(o, s, e) else s
  }

  /** In every run the tables agree and every connection is at a frame boundary, so no call the premises allow
      is made on a descriptor that is not open. */
  lemma {:induction false} RunSafe(o: ByteOrder, listenFD: int, events: seq<Event>)
    requires listenFD > 0
    ensures Safe(o, listenFD, Run(o, listenFD, events))
    ensures forall e :: Allowed(listenFD, Run(o, listenFD, events), e) ==> Callable(Run(o, listenFD, events), e)
  {
    if events == [] {
      StartSafe(o, listenFD);
    } else {
      var s, e := Run(o, listenFD, events[..|events| - 1]), events[|events| - 1];
      RunSafe(o, listenFD, events[..|events| - 1]);
      if Allowed(listenFD, s, e) {
        StepSafe(o, listenFD, s, e);
      }
    }
    CallableIn(listenFD, Run(o, listenFD, events));
  }

  lemma CallableIn(listenFD: int, s: State)
    requires Tables(listenFD, s)
    ensures forall e :: Allowed(listenFD, s, e) ==> Callable(s, e)
  {
    forall e | Allowed(listenFD, s, e)
      ensures Callable(s, e)
    {
      if e.Send? || e.Recv? {
        assert SlotAgrees(listenFD, s, e.i);
      }
    }
  }

  /** Every message sent in the run has 5 to 65535 bytes. */
  predicate SendsInRange(events: seq<Event>) {
    forall e :: e in events && e.Send? ==> Sendable(e.nbytes)
  }

  lemma SendInRange(o: ByteOrder, s: State, e: Event)
    requires Callable(s, e) && e.Send? && Sendable(e.nbytes) && s.alist[e.i].acceptFD > 0
    requires NetInRange(o, s.net) && Aligned(o, s.net.conns[s.alist[e.i].acceptFD], true)
    ensures NetInRange(o, Step(o, s, e).net)
  {
    var fd := s.alist[e.i].acceptFD;
    var (c, v) := SendFrame(o, s.net.conns[fd], e.buf, e.nbytes, e.polls, e.sends);
    SendKeepsInRange(o, s.net.conns[fd], e.buf, e.nbytes, e.polls, e.sends);
    var net := Net(s.net.conns[fd := c], s.net.closed, s.net.count);
    assert Step(o, s, e).net == if v == Broken then net.Close(fd) else net;
    if v == Broken {
      DroppedInRange(o, s.net, fd, c);
    } else {
      KeptInRange(o, s.net, fd, c);
    }
  }

  lemma RecvInRange(o: ByteOrder, s: State, e: Event)
    requires Callable(s, e) && e.Recv? && s.alist[e.i].acceptFD > 0
    requires NetInRange(o, s.net) && Aligned(o, s.net.conns[s.alist[e.i].acceptFD], true)
    ensures NetInRange(o, Step(o, s, e).net)
  {
    var fd := s.alist[e.i].acceptFD;
    var r := RecvFrame(o, s.net.conns[fd].inbound, e.chunks);
    var c := AfterRecv(s.net.conns[fd], r);
    ReceiveKeepsInRange(o, s.net.conns[fd], e.chunks);
    var net := Net(s.net.conns[fd := c], s.net.closed, s.net.count);
    assert Step(o, s, e).net == if r.n > 0 then net else net.Close(fd);
    if r.n > 0 {
      KeptInRange(o, s.net, fd, c);
    } else {
      DroppedInRange(o, s.net, fd, c);
    }
  }

  lemma StepInRange(o: ByteOrder, s: State, e: Event)
    requires Framed(o, s.net) && Callable(s, e) && NetInRange(o, s.net) && (e.Send? ==> Sendable(e.nbytes))
    ensures NetInRange(o, Step(o, s, e).net)
  {
    match e
    case Accept(_, _, _) => AcceptInRange(o, s, e);
    case Send(i, _, _, _, _) => if s.alist[i].acceptFD > 0 { SendInRange(o, s, e); }
    case Recv(i, _, _) => if s.alist[i].acceptFD > 0 { RecvInRange(o, s, e); }
    case _ => assert Step(o, s, e).net == s.net;
  }

  lemma AcceptInRange(o: ByteOrder, s: State, e: Event)
    requires Callable(s, e) && NetInRange(o, s.net) && e.Accept?
    ensures NetInRange(o, Step(o, s, e).net)
  {
    var c := Opened(s.net.count, e.arrived);
    OpenedAligned(o, c.id, e.arrived);
    ClosedInRange(o, c);
    if FirstFree(s.alist) < MAX_LISTENQ {
      KeptInRange(o, s.net, e.fd, c);
      assert Step(o, s, e).net == s.net.Open(e.fd, e.arrived);
    } else {
      DroppedInRange(o, s.net, e.fd, c);
      assert Step(o, s, e).net == s.net.Open(e.fd, e.arrived).Close(e.fd);
    }
  }

  lemma {:induction false} RunInRange(o: ByteOrder, listenFD: int, events: seq<Event>)
    requires listenFD > 0 && SendsInRange(events)
    ensures NetInRange(o, Run(o, listenFD, events).net)
  {
    if events != [] {
      var before, e := events[..|events| - 1], events[|events| - 1];
      assert e in events;
      RunInRange(o, listenFD, before);
      RunSafe(o, listenFD, before);
      if Callable(Run(o, listenFD, before), e) {
        StepInRange(o, Run(o, listenFD, before), e);
      }
    }
  }

  /** What a run guarantees of each of its connections. */
  lemma RunConn(o: ByteOrder, listenFD: int, events: seq<Event>, c: Conn, isOpen: bool)
    requires listenFD > 0 && Run(o, listenFD, events).net.Has(c, isOpen)
    ensures Aligned(o, c, isOpen) && (SendsInRange(events) ==> InRange(o, c, isOpen))
  {
    var net := Run(o, listenFD, events).net;
    RunSafe(o, listenFD, events);
    FramedConn(o, net, c, isOpen);
    if SendsInRange(events) {
      RunInRange(o, listenFD, events);
      if isOpen {
        var fd :| fd in net.conns && net.conns[fd] == c;
      }
    }
  }

  // ------------------------------------------------- what the callers are told

  /** Slot `i` is free and its connection closed as `c`; but for a state entry nothing else differs. */
  ghost predicate Dropped(s: State, s': State, i: nat, c: Conn)
    requires s.Sized() && i < MAX_LISTENQ
  {
    var slot := s.alist[i];
    s' == State(s.alist[i := Slot(-1, slot.systemidx, slot.systemaddr, 0)],
                s.vmcSystem[i := VmcSystem(0, 0, 0)], s'.stateinfo,
                s.allset - {slot.acceptFD}, s.maxFD,
                Net(s.net.conns - {slot.acceptFD}, s.net.closed + [c], s.net.count), s.copy)
  }

  /** The connection of slot `i` has moved on to `c`; nothing else differs. */
  ghost predicate MovedOn(s: State, s': State, i: nat, c: Conn)
    requires s.Sized() && i < MAX_LISTENQ
  {
    s' == s.(net := Net(s.net.conns[s.alist[i].acceptFD := c], s.net.closed, s.net.count))
  }

  /** `TcpSend` returns the length or -1. The length means that exactly the frame went onto the stream; -1
      means that nothing changed, or that the slot was freed and its connection closed short of the frame. */
  lemma SendResult(o: ByteOrder, listenFD: int, s: State, e: Event)
    requires Safe(o, listenFD, s) && e.Send? && Allowed(listenFD, s, e)
    ensures Callable(s, e)
    ensures e.nbytes <= 0 || !Occupied(s, e.i) ==>
              Sent(o, s, e.i, e.buf, e.nbytes, e.polls, e.sends) == (s, -1)
    ensures e.nbytes > 0 && Occupied(s, e.i) ==>
              var (s', n) := Sent(o, s, e.i, e.buf, e.nbytes, e.polls, e.sends);
              var fd := s.alist[e.i].acceptFD;
              && fd in s.net.conns
              && var full := s.net.conns[fd].outbound + Frame(o, e.buf, e.nbytes);
              && n in {e.nbytes, -1}
              && (n == e.nbytes <==> fd in s'.net.conns && s'.net.conns[fd].outbound == full)
              && (n == -1 ==> s' == s
                              || (s'.net.closed != [] && s'.stateinfo == s.stateinfo
                                  && var c := s'.net.closed[|s'.net.closed| - 1];
                                  c.outbound < full && Dropped(s, s', e.i, c)))
  {
    assert SlotAgrees(listenFD, s, e.i);
    if e.nbytes > 0 && Occupied(s, e.i) {
      SendCases(o, listenFD, s, e);
      var c := s.net.conns[s.alist[e.i].acceptFD];
      SendOutcome(o, c, e.buf, e.nbytes, e.polls, e.sends);
    }
  }

  lemma SendCases(o: ByteOrder, listenFD: int, s: State, e: Event)
    requires Tables(listenFD, s) && e.Send? && Callable(s, e) && e.nbytes > 0 && Occupied(s, e.i)
    ensures s.alist[e.i].acceptFD in s.net.conns
    ensures var (s', n) := Sent(o, s, e.i, e.buf, e.nbytes, e.polls, e.sends);
            var c := s.net.conns[s.alist[e.i].acceptFD];
            var (c', v) := SendFrame(o, c, e.buf, e.nbytes, e.polls, e.sends);
            && (v == Delivered ==> n == e.nbytes && MovedOn(s, s', e.i, c'))
            && (v == Refused ==> n == -1 && MovedOn(s, s', e.i, c') && (c' == c ==> s' == s))
            && (v == Broken ==> n == -1 && Dropped(s, s', e.i, c') && s'.stateinfo == s.stateinfo)
  {
    assert SlotAgrees(listenFD, s, e.i);
    var fd := s.alist[e.i].acceptFD;
    var c := s.net.conns[fd];
    var (c', v) := SendFrame(o, c, e.buf, e.nbytes, e.polls, e.sends);
    assert s.net.conns[fd := c] == s.net.conns;
    assert s.net.conns[fd := c'] - {fd} == s.net.conns - {fd};
  }

  /** The same told from the script: the poll that decides, behind `skipped`, and the part `p` of the results of
      `send` that the loop goes through. */
  lemma SendByScript(o: ByteOrder, listenFD: int, s: State, i: nat, buf: seq<Byte>, nbytes: nat,
                     skipped: seq<PollResult>, x: PollResult, later: seq<PollResult>,
                     p: seq<IoResult>, q: seq<IoResult>)
    requires Tables(listenFD, s) && Occupied(s, i) && 0 < nbytes <= |buf| && TPKT_HEADER_SIZE <= |buf|
    requires Skipped(skipped) && Uninterrupted(skipped) < TCP_SND_RETRY && Sends(nbytes, p, q)
    ensures s.alist[i].acceptFD in s.net.conns && i < MAX_LISTENQ
    ensures var (s', n) := Sent(o, s, i, buf, nbytes, skipped + [x] + later, p + q);
            var c, f, moved := s.net.conns[s.alist[i].acceptFD], Frame(o, buf, nbytes), Total(p);
            && (LetsSend(x) && nbytes <= moved ==>
                  n == nbytes && MovedOn(s, s', i, c.(outbound := c.outbound + f, sent := c.sent + [f])))
            && (LetsSend(x) && moved < nbytes ==>
                  n == -1 && Dropped(s, s', i, c.(outbound := c.outbound + f[..moved])) && s'.stateinfo == s.stateinfo)
            && (FindsDead(x) ==> n == -1 && Dropped(s, s', i, c) && s'.stateinfo == s.stateinfo)
            && (GivesUp(skipped, x) ==> n == -1 && s' == s)
  {
    assert SlotAgrees(listenFD, s, i);
    var e := Send(i, buf, nbytes, skipped + [x] + later, p + q);
    SendCases(o, listenFD, s, e);
    SendExactly(o, s.net.conns[s.alist[i].acceptFD], buf, nbytes, skipped, x, later, p, q);
  }

  /** The first entry with the address, if there is one, is back at the base state. */
  ghost predicate FirstReset(info: seq<StateInfo>, info': seq<StateInfo>, addr: nat) {
    || (info' == info && forall k :: 0 <= k < |info| ==> info[k].vmIp != addr)
    || exists j :: 0 <= j < |info| && ResetAtFirst(info, info', addr, j)
  }

  ghost predicate ResetAtFirst(info: seq<StateInfo>, info': seq<StateInfo>, addr: nat, j: nat)
    requires j < |info|
  {
    && info[j].vmIp == addr && (forall k :: 0 <= k < j ==> info[k].vmIp != addr)
    && info' == info[j := StateInfo(0, 0, 0, seq(MAX_VM_PROC_NUM, _ => Process("-", 0)))]
  }

  lemma FirstIsReset(info: seq<StateInfo>, addr: nat)
    ensures FirstReset(info, ResetFirst(info, addr), addr)
  {
    var j := FirstWithIp(info, addr);
    if j < |info| {
      assert BASE_STATE.pstate == seq(MAX_VM_PROC_NUM, _ => Process("-", 0));
      assert ResetAtFirst(info, ResetFirst(info, addr), addr, j);
    }
  }

  /** `TcpRecv` returns a positive value exactly when a whole frame was stored and the slot kept; otherwise
      the slot is freed and the connection closed. The first four bytes of the buffer and everything from
      the last byte taken on stay as they were. */
  lemma ReceiveResult(o: ByteOrder, listenFD: int, s: State, i: nat, chunks: seq<IoResult>, buf: seq<Byte>)
    requires Safe(o, listenFD, s) && Occupied(s, i) && |buf| >= 0xFFFF
    ensures var fd := s.alist[i].acceptFD;
            && fd in s.net.conns && i < MAX_LISTENQ
            && var (s', r) := Received(o, s, i, chunks);
            var c := s.net.conns[fd];
            && r.consumed <= |buf|
            && var buf' := Stored(buf, c.inbound, r);
            && r.consumed <= |c.inbound|
            && (r.n > 0 <==> r.consumed > TPKT_HEADER_SIZE && r.consumed == Declared(o, c.inbound))
            && (r.n > 0 ==> MovedOn(s, s', i, c.(inbound := c.inbound[r.consumed..],
                                                 got := c.got + [c.inbound[..r.consumed]])))
            && (r.n <= 0 ==> Dropped(s, s', i, c.(inbound := c.inbound[r.consumed..]))
                             && FirstReset(s.stateinfo, s'.stateinfo, s.vmcSystem[i].systemaddr))
            && |buf'| == |buf|
            && (r.consumed > TPKT_HEADER_SIZE ==>
                  buf'[TPKT_HEADER_SIZE..r.consumed] == c.inbound[TPKT_HEADER_SIZE..r.consumed])
            && (forall k :: 0 <= k < |buf| && (k < TPKT_HEADER_SIZE || r.consumed <= k) ==> buf'[k] == buf[k])
  {
    assert SlotAgrees(listenFD, s, i);
    var inbound := s.net.conns[s.alist[i].acceptFD].inbound;
    ReceiptMeaning(o, inbound, chunks);
    ReceiveCases(o, listenFD, s, i, chunks);
    StoredBytes(buf, inbound, RecvFrame(o, inbound, chunks));
  }

  lemma ReceiveCases(o: ByteOrder, listenFD: int, s: State, i: nat, chunks: seq<IoResult>)
    requires Tables(listenFD, s) && Occupied(s, i)
    ensures s.alist[i].acceptFD in s.net.conns && i < MAX_LISTENQ
    ensures var (s', r) := Received(o, s, i, chunks);
            var c := s.net.conns[s.alist[i].acceptFD];
            && r == RecvFrame(o, c.inbound, chunks)
            && (r.n > 0 ==> MovedOn(s, s', i, c.(inbound := c.inbound[r.consumed..],
                                                 got := c.got + [c.inbound[..r.consumed]])))
            && (r.n <= 0 ==> Dropped(s, s', i, c.(inbound := c.inbound[r.consumed..]))
                             && FirstReset(s.stateinfo, s'.stateinfo, s.vmcSystem[i].systemaddr))
  {
    assert SlotAgrees(listenFD, s, i);
    var fd := s.alist[i].acceptFD;
    var c := s.net.conns[fd];
    var c' := AfterRecv(c, RecvFrame(o, c.inbound, chunks));
    FirstIsReset(s.stateinfo, s.vmcSystem[i].systemaddr);
    assert s.net.conns[fd := c'] - {fd} == s.net.conns - {fd};
  }

  /** The same told from the parts of the script that the two receive loops go through. */
  lemma RecvByScript(o: ByteOrder, listenFD: int, s: State, i: nat, p: seq<IoResult>, q: seq<IoResult>,
                     p2: seq<IoResult>, q2: seq<IoResult>)
    requires Tables(listenFD, s) && Occupied(s, i)
    requires s.alist[i].acceptFD in s.net.conns ==>
               Divides(o, s.net.conns[s.alist[i].acceptFD].inbound, p, q, p2, q2)
    ensures s.alist[i].acceptFD in s.net.conns && i < MAX_LISTENQ
    ensures var c := s.net.conns[s.alist[i].acceptFD];
            var (s', r) := Received(o, s, i, p + q);
            && r == Told(o, c.inbound, p, q, p2, q2) && r.consumed <= |c.inbound|
            && if r.n > 0 then MovedOn(s, s', i, c.(inbound := c.inbound[r.consumed..],
                                                    got := c.got + [c.inbound[..r.consumed]]))
               else Dropped(s, s', i, c.(inbound := c.inbound[r.consumed..]))
                    && FirstReset(s.stateinfo, s'.stateinfo, s.vmcSystem[i].systemaddr)
  {
    ReceiveCases(o, listenFD, s, i, p + q);
    RecvExactly(o, s.net.conns[s.alist[i].acceptFD].inbound, p, q, p2, q2);
  }

  // ---------------------------------------------- whose answer goes to whom

  /** Every connection has a number below that of the next one. */
  ghost predicate Numbered(net: Net) {
    forall fd :: fd in net.conns ==> net.conns[fd].id < net.count
  }

  ghost predicate Connected(s: State, i: int) {
    Occupied(s, i) && s.alist[i].acceptFD in s.net.conns
  }

  function IdAt(s: State, i: int): nat
    requires Connected(s, i)
  {
    s.net.conns[s.alist[i].acceptFD].id
  }

  /** From `s` to `s'` slot `i` keeps its connection, or is freed, or gets one with a new number. */
  ghost predicate Fate(s: State, s': State, i: int) {
    && Numbered(s'.net) && s.net.count <= s'.net.count
    && (Occupied(s', i) ==>
          && Connected(s', i)
          && if Occupied(s, i) then Connected(s, i) && IdAt(s', i) == IdAt(s, i) else s.net.count <= IdAt(s', i))
  }

  lemma ConnectedIn(listenFD: int, s: State, i: int)
    requires Tables(listenFD, s) && Occupied(s, i)
    ensures Connected(s, i)
  {
    assert SlotAgrees(listenFD, s, i);
  }

  /** Slot `j` keeps its connection, which has moved on to `c`. */
  lemma KeptFate(listenFD: int, s: State, s': State, j: int, c: Conn, i: int)
    requires Tables(listenFD, s) && Numbered(s.net) && Connected(s, j) && c.id == IdAt(s, j)
    requires s'.net == SetConn(s, s.alist[j].acceptFD, c).net && |s'.alist| == |s.alist|
    requires forall k :: 0 <= k < |s.alist| ==>
      s'.alist[k].acceptFD == s.alist[k].acceptFD && s'.alist[k].port == s.alist[k].port
    ensures Fate(s, s', i)
  {
    if Occupied(s, i) {
      ConnectedIn(listenFD, s, i);
    }
  }

  /** Slot `j` is freed. */
  lemma FreedFate(listenFD: int, s: State, s': State, j: int, i: int)
    requires Tables(listenFD, s) && Numbered(s.net) && Connected(s, j) && |s'.alist| == |s.alist|
    requires s'.net.conns == s.net.conns - {s.alist[j].acceptFD} && s'.net.count == s.net.count
    requires s'.alist[j].port == 0 && forall k :: 0 <= k < |s.alist| && k != j ==> s'.alist[k] == s.alist[k]
    ensures Fate(s, s', i)
  {
    if Occupied(s', i) {
      assert Occupied(s, i) && Occupied(s, j);
      ConnectedIn(listenFD, s, i);
    }
  }

  lemma AcceptFate(o: ByteOrder, listenFD: int, s: State, e: Event, i: int)
    requires Tables(listenFD, s) && Numbered(s.net) && e.Accept? && Allowed(listenFD, s, e)
    ensures Fate(s, Step(o, s, e), i)
  {
    var s', j := Step(o, s, e), FirstFree(s.alist);
    if j < MAX_LISTENQ {
      assert s'.net == s.net.Open(e.fd, e.arrived);
      assert s'.alist[j].acceptFD == e.fd && forall k :: 0 <= k < |s.alist| && k != j ==> s'.alist[k] == s.alist[k];
    } else {
      assert s'.net.conns == s.net.conns && s'.alist == s.alist && s'.net.count == s.net.count + 1;
    }
    if Occupied(s, i) {
      ConnectedIn(listenFD, s, i);
    }
  }

  lemma SendFate(o: ByteOrder, listenFD: int, s: State, e: Event, i: int)
    requires Tables(listenFD, s) && Numbered(s.net) && e.Send? && Callable(s, e)
    ensures Fate(s, Step(o, s, e), i)
  {
    var fd, s' := s.alist[e.i].acceptFD, Step(o, s, e);
    assert SlotAgrees(listenFD, s, e.i);
    SendSteps(o, s, e);
    if fd > 0 && e.nbytes > 0 {
      var (c, v) := SendFrame(o, s.net.conns[fd], e.buf, e.nbytes, e.polls, e.sends);
      if v == Broken {
        assert s.net.conns[fd := c] - {fd} == s.net.conns - {fd};
        FreedFate(listenFD, s, s', e.i, i);
      } else {
        KeptFate(listenFD, s, s', e.i, c, i);
      }
    } else if Occupied(s, i) {
      ConnectedIn(listenFD, s, i);
    }
  }

  lemma RecvFate(o: ByteOrder, listenFD: int, s: State, e: Event, i: int)
    requires Tables(listenFD, s) && Numbered(s.net) && e.Recv? && Callable(s, e)
    ensures Fate(s, Step(o, s, e), i)
  {
    var fd, s' := s.alist[e.i].acceptFD, Step(o, s, e);
    assert SlotAgrees(listenFD, s, e.i);
    if fd > 0 {
      var r := RecvFrame(o, s.net.conns[fd].inbound, e.chunks);
      var c := AfterRecv(s.net.conns[fd], r);
      if r.n > 0 {
        KeptFate(listenFD, s, s', e.i, c, i);
      } else {
        assert s.net.conns[fd := c] - {fd} == s.net.conns - {fd};
        assert s'.net == SetConn(s, fd, c).net.Close(fd);
        FreedFate(listenFD, s, s', e.i, i);
      }
    } else if Occupied(s, i) {
      ConnectedIn(listenFD, s, i);
    }
  }

  lemma StepFate(o: ByteOrder, listenFD: int, s: State, e: Event, i: int)
    requires Tables(listenFD, s) && Numbered(s.net) && Callable(s, e) && Allowed(listenFD, s, e)
    ensures Fate(s, Step(o, s, e), i)
  {
    match e
    case Accept(_, _, _) => AcceptFate(o, listenFD, s, e, i);
    case Send(_, _, _, _, _) => SendFate(o, listenFD, s, e, i);
    case Recv(_, _, _) => RecvFate(o, listenFD, s, e, i);
    case _ =>
      assert Step(o, s, e).net == s.net && Step(o, s, e).alist == s.alist;
      if Occupied(s, i) {
        ConnectedIn(listenFD, s, i);
      }
  }

  lemma {:induction false} RunNumbered(o: ByteOrder, listenFD: int, events: seq<Event>)
    requires listenFD > 0
    ensures Numbered(Run(o, listenFD, events).net)
  {
    if events != [] {
      var before, e := events[..|events| - 1], events[|events| - 1];
      RunNumbered(o, listenFD, before);
      RunSafe(o, listenFD, before);
      var s := Run(o, listenFD, before);
      if Callable(s, e) && Allowed(listenFD, s, e) {
        StepFate(o, listenFD, s, e, 0);
      }
    }
  }

  lemma RunConnected(o: ByteOrder, listenFD: int, events: seq<Event>, i: int)
    requires listenFD > 0 && Occupied(Run(o, listenFD, events), i)
    ensures var s := Run(o, listenFD, events); Connected(s, i) && IdAt(s, i) < s.net.count
  {
    RunSafe(o, listenFD, events);
    RunNumbered(o, listenFD, events);
    ConnectedIn(listenFD, Run(o, listenFD, events), i);
  }

  lemma RunFate(o: ByteOrder, listenFD: int, events: seq<Event>, i: int)
    requires listenFD > 0 && events != []
    ensures Fate(Run(o, listenFD, events[..|events| - 1]), Run(o, listenFD, events), i)
  {
    var before, e := events[..|events| - 1], events[|events| - 1];
    var s := Run(o, listenFD, before);
    RunSafe(o, listenFD, before);
    RunNumbered(o, listenFD, before);
    if Callable(s, e) && Allowed(listenFD, s, e) {
      StepFate(o, listenFD, s, e, i);
    } else if Occupied(s, i) {
      ConnectedIn(listenFD, s, i);
    }
  }

  /** A connection that is gone from a slot does not come back to it. */
  lemma FateFollows(s: State, t: State, s': State, i: int)
    requires Connected(s, i) && IdAt(s, i) < s.net.count <= t.net.count && (Occupied(t, i) ==> Connected(t, i))
    requires Fate(t, s', i)
    ensures s.net.count <= s'.net.count && (Occupied(s', i) ==> Connected(s', i))
    ensures Occupied(s', i) && IdAt(s', i) == IdAt(s, i)
            <==> Occupied(s', i) && Occupied(t, i) && IdAt(t, i) == IdAt(s, i)
  {
  }

  /** Slot `i` is occupied after the first `k` events and after each further one. */
  ghost predicate NeverFreed(o: ByteOrder, listenFD: int, events: seq<Event>, k: nat, i: int)
    requires k <= |events|
  {
    && Occupied(Run(o, listenFD, events), i)
    && (k < |events| ==> NeverFreed(o, listenFD, events[..|events| - 1], k, i))
  }

  /** A slot still has the connection it had after `k` events exactly if it was never freed since. */
  lemma {:induction false} SameConnection(o: ByteOrder, listenFD: int, events: seq<Event>, k: nat, i: int)
    requires listenFD > 0 && k <= |events| && Occupied(Run(o, listenFD, events[..k]), i)
    ensures var s, s' := Run(o, listenFD, events[..k]), Run(o, listenFD, events);
            && s.net.count <= s'.net.count && Connected(s, i) && (Occupied(s', i) ==> Connected(s', i))
            && (Occupied(s', i) && IdAt(s', i) == IdAt(s, i) <==> NeverFreed(o, listenFD, events, k, i))
    decreases |events|
  {
    RunConnected(o, listenFD, events[..k], i);
    if k == |events| {
      assert events[..k] == events;
    } else {
      var before := events[..|events| - 1];
      assert before[..k] == events[..k];
      SameConnection(o, listenFD, before, k, i);
      RunFate(o, listenFD, events, i);
      FateFollows(Run(o, listenFD, events[..k]), Run(o, listenFD, before), Run(o, listenFD, events), i);
    }
  }

  // ----------------------------------------------------- whose slot it is

  /** What a step does to the name of a slot that is occupied after it. */
  lemma NameStep(o: ByteOrder, listenFD: int, s: State, e: Event, i: nat)
    requires Safe(o, listenFD, s) && Callable(s, e) && Allowed(listenFD, s, e) && Occupied(Step(o, s, e), i)
    ensures i < MAX_LISTENQ && |Step(o, s, e).vmcSystem| == MAX_SYSTEM_NUM
    ensures Occupied(s, i) ==> Step(o, s, e).alist[i].port == s.alist[i].port
    ensures Step(o, s, e).vmcSystem[i] ==
              if !Occupied(s, i) then VmcSystem(i + 1, 0, 0)
              else if e.Recv? && e.i == i && s.vmcSystem[i].systemport == 0 then
                VmcSystem(i + 1, e.addr, s.alist[i].port)
              else s.vmcSystem[i]
  {
    match e
    case Accept(fd, port, arrived) => AcceptName(o, listenFD, s, e, i);
    case Send(_, _, _, _, _) => SendName(o, listenFD, s, e, i);
    case Recv(_, _, _) => RecvName(o, listenFD, s, e, i);
    case _ =>
  }

  lemma AcceptName(o: ByteOrder, listenFD: int, s: State, e: Event, i: nat)
    requires Safe(o, listenFD, s) && e.Accept? && Allowed(listenFD, s, e) && Occupied(Step(o, s, e), i)
    ensures i < MAX_LISTENQ && |Step(o, s, e).vmcSystem| == MAX_SYSTEM_NUM
    ensures Occupied(s, i) ==> Step(o, s, e).alist[i].port == s.alist[i].port
    ensures Step(o, s, e).vmcSystem[i] == if Occupied(s, i) then s.vmcSystem[i] else VmcSystem(i + 1, 0, 0)
  {
    AcceptSafe(o, listenFD, s, e.fd, e.port, e.arrived);
    var j := FirstFree(s.alist);
    if j < MAX_LISTENQ {
      assert LeastFree(s, j);
    }
  }

  lemma SendName(o: ByteOrder, listenFD: int, s: State, e: Event, i: nat)
    requires Safe(o, listenFD, s) && e.Send? && Allowed(listenFD, s, e) && Callable(s, e) && Occupied(Step(o, s, e), i)
    ensures i < MAX_LISTENQ && |Step(o, s, e).vmcSystem| == MAX_SYSTEM_NUM && Occupied(s, i)
    ensures Step(o, s, e).alist[i].port == s.alist[i].port && Step(o, s, e).vmcSystem[i] == s.vmcSystem[i]
  {
    SendSteps(o, s, e);
    assert SlotAgrees(listenFD, s, e.i);
  }

  lemma RecvName(o: ByteOrder, listenFD: int, s: State, e: Event, i: nat)
    requires Safe(o, listenFD, s) && e.Recv? && Callable(s, e) && Occupied(Step(o, s, e), i)
    ensures i < MAX_LISTENQ && |Step(o, s, e).vmcSystem| == MAX_SYSTEM_NUM && Occupied(s, i)
    ensures Step(o, s, e).alist[i].port == s.alist[i].port
    ensures Step(o, s, e).vmcSystem[i] ==
              if e.i == i && s.vmcSystem[i].systemport == 0 then VmcSystem(i + 1, e.addr, s.alist[i].port)
              else s.vmcSystem[i]
  {
    assert SlotAgrees(listenFD, s, e.i);
  }

  /** The address that came with the first frame of the connection that slot `i` has after the run, or -1: the
      one of the first receive, since the slot was last free, that did not free it. */
  ghost function FirstName(o: ByteOrder, listenFD: int, events: seq<Event>, i: nat): int {
    if events == [] || !Occupied(Run(o, listenFD, events), i) then -1
    else
      var before, e := events[..|events| - 1], events[|events| - 1];
      var s, name := Run(o, listenFD, before), FirstName(o, listenFD, before, i);
      if name == -1 && Callable(s, e) && Allowed(listenFD, s, e) && e.Recv? && e.i == i then e.addr else name
  }

  ghost predicate NamedAs(s: State, i: nat, name: int) {
    && s.Sized() && i < MAX_LISTENQ
    && s.vmcSystem[i] == if name < 0 then VmcSystem(i + 1, 0, 0) else VmcSystem(i + 1, name, s.alist[i].port)
  }

  lemma NameNext(o: ByteOrder, listenFD: int, s: State, e: Event, i: nat, name: int)
    requires Safe(o, listenFD, s) && Callable(s, e) && Allowed(listenFD, s, e) && Occupied(Step(o, s, e), i)
    requires if Occupied(s, i) then NamedAs(s, i, name) && name >= -1 else name == -1
    ensures Step(o, s, e).Sized() ==>
              NamedAs(Step(o, s, e), i, if name == -1 && e.Recv? && e.i == i then e.addr else name)
  {
    NameStep(o, listenFD, s, e, i);
    if !Occupied(s, i) && e.Recv? && e.i == i {
      RecvName(o, listenFD, s, e, i);
    }
  }

  /** Over every run: the entry of an occupied slot has the number of the slot and, from the first frame of its
      connection on and no matter what comes later, that frame's address and the connection's port. */
  lemma {:induction false} NamedByFirstFrame(o: ByteOrder, listenFD: int, events: seq<Event>, i: nat)
    requires listenFD > 0
    ensures var s, name := Run(o, listenFD, events), FirstName(o, listenFD, events, i);
            if Occupied(s, i) then NamedAs(s, i, name) && name >= -1 else name == -1
  {
    if events != [] {
      var before, e := events[..|events| - 1], events[|events| - 1];
      var s := Run(o, listenFD, before);
      NamedByFirstFrame(o, listenFD, before, i);
      RunSafe(o, listenFD, before);
      RunSafe(o, listenFD, events);
      if Callable(s, e) && Allowed(listenFD, s, e) && Occupied(Step(o, s, e), i) {
        NameNext(o, listenFD, s, e, i, FirstName(o, listenFD, before, i));
      }
    }
  }
}
