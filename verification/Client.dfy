/** The VM client's link in the source's own form: global variables updated in place. */
module ClientSockets {
  import opened Tpkt
  import opened Sockets
  import opened Framing
  import opened ClientState

  class Client {
    const order: ByteOrder
    const utm: bool
    var listenFD: int
    var tmrId: int
    var allset: set<int>
    var maxFD: int
    const tmrsync: array<TmrSync>
    var pending: set<int>
    var net: Net

    /** Where the threads are: two points of `SendProcStateReq`, and the timer task. */
    ghost var seen: nat
    ghost var opening: nat
    ghost var task: Task

    ghost predicate Valid()
      reads this
    {
      tmrsync.Length == MAX_TMR_NUM + 1 && tmrId <= MAX_TMR_NUM
    }

    /** The values of all the variables. */
    ghost function View(): (s: State)
      requires Valid()
      reads this, tmrsync
      ensures s.Sized()
    {
      State(listenFD, tmrId, allset, maxFD, tmrsync[..], pending, net, seen, opening, task)
    }

    constructor (order: ByteOrder, utm: bool)
      ensures Valid() && View() == Initial() && fresh(tmrsync) && this.order == order && this.utm == utm
    {
      this.order, this.utm := order, utm;
      tmrsync := new TmrSync[MAX_TMR_NUM + 1](_ => UNUSED);
      listenFD, tmrId, allset, maxFD, pending, net := -1, 0, {}, 0, {}, Net(map[], [], 0);
      seen, opening, task := 0, 0, Idle;
      new;
      assert tmrsync[..] == NoTimers();
    }

    method CompareMaxfd(compareFD: int) returns (m: int)
      modifies this`maxFD
      ensures m == maxFD == if compareFD > 0 && old(maxFD) < compareFD then compareFD else old(maxFD)
    {
      if compareFD > 0 {
        if maxFD < compareFD {
          maxFD := compareFD;
        }
      }
      m := maxFD;
    }

    /** `started` is what `timer_start` returned. */
    method TcptmrStart(started: int) returns (timerId: int)
      requires Valid() && started <= MAX_TMR_NUM
      modifies this`pending, tmrsync
      ensures timerId == started && View() == TimerStarted(old(View()), started).(tmrId := old(tmrId))
    {
      timerId := started;
      if 0 >= timerId {
      } else {
        tmrsync[timerId] := RECONNECT;
        pending := pending + {timerId};
      }
    }

    /** The library's `timer_stop` fails for a timer it no longer runs; the entry is unmarked either way. */
    method TcptmrStop(timerId: int) returns (r: int)
      requires Valid() && IsTimer(timerId)
      modifies this`pending, tmrsync
      ensures View() == TimerStopped(old(View()), timerId)
      ensures r == if timerId in old(pending) then 0 else -1
    {
      r := if timerId in pending then 0 else -1;
      pending := pending - {timerId};
      tmrsync[timerId] := UNUSED;
    }

    /** The tail of `TcpSend` and `TcpRecv` in client mode, and of a missed heartbeat. */
    method Disconnect(started: int)
      requires Valid() && started <= MAX_TMR_NUM
      modifies this, tmrsync
      ensures Valid() && View() == Disconnected(utm, old(View()), started)
    {
      if listenFD > 0 {
        if utm {
          allset := {};
        } else {
          allset := allset - {listenFD};
        }
        net := net.Close(listenFD);
        listenFD := -1;
        if tmrId > 0 {
          var _ := TcptmrStop(tmrId);
        }
        var id := TcptmrStart(started);
        tmrId := id;
      }
    }

    method TcpSend(fd: int, sndMsg: array<Byte>, nbytes: int,
                   polls: seq<PollResult>, sends: seq<IoResult>, started: int)
      returns (totalLen: int)
      requires Valid() && started <= MAX_TMR_NUM && fd == listenFD && (fd > 0 ==> fd in net.conns)
      requires nbytes <= sndMsg.Length && TPKT_HEADER_SIZE <= sndMsg.Length
      modifies this, tmrsync, sndMsg
      ensures Valid()
      ensures (View(), totalLen) == Sent(order, utm, old(View()), old(sndMsg[..]), nbytes, polls, sends, started)
    {
      if fd <= 0 || nbytes <= 0 {
        return -1;
      }
      var c, verdict;
      c, totalLen, verdict := Transmit(order, net.conns[fd], sndMsg, nbytes, polls, sends);
      net := Net(net.conns[fd := c], net.closed, net.count);
      if verdict == Broken {
        Disconnect(started);
      }
    }

    method TcpRecv(fd: int, rBuf: array<Byte>, chunks: seq<IoResult>, started: int) returns (nRecv: int)
      requires Valid() && started <= MAX_TMR_NUM && fd == listenFD && fd in net.conns && rBuf.Length >= 0xFFFF
      modifies this, tmrsync, rBuf
      ensures var (s, r) := Received(order, utm, old(View()), chunks, started);
              && Valid() && View() == s && nRecv == r.n && r.consumed <= rBuf.Length
              && rBuf[..] == Stored(old(rBuf[..]), old(net.conns[fd].inbound), r)
    {
      var c, ok;
      c, nRecv, ok := Receive(order, net.conns[fd], rBuf, chunks);
      net := Net(net.conns[fd := c], net.closed, net.count);
      if !ok {
        Disconnect(started);
      }
    }

    /** The first line of `TcpReconnect`, outside the lock. */
    method ForgetTimer()
      requires Valid()
      modifies this`tmrId, this`task
      ensures Valid() && View() == ForgotTimer(old(View()))
    {
      tmrId := 0;
      task := Forgot;
    }

    /** The rest of it, under the lock; `newFD` is what `TcpOpen` returned. */
    method TcpReconnect(newFD: int, arrived: seq<Byte>, started: int)
      requires Valid() && started <= MAX_TMR_NUM
      modifies this, tmrsync
      ensures Valid() && View() == Reconnected(old(View()), newFD, arrived, started)
    {
      task := Idle;
      listenFD := newFD;
      if listenFD <= 0 {
        listenFD := -1;
        if tmrId > 0 {
          var _ := TcptmrStop(tmrId);
        }
        var id := TcptmrStart(started);
        tmrId := id;
      } else {
        Open(arrived);
      }
    }

    /** A descriptor just opened is watched. */
    method Open(arrived: seq<Byte>)
      requires Valid() && listenFD > 0
      modifies this`allset, this`maxFD, this`net
      ensures View() == Watching(old(View()), listenFD, arrived)
    {
      net := net.Open(listenFD, arrived);
      allset := allset + {listenFD};
      var _ := CompareMaxfd(listenFD);
    }

    /** The timer task's reaction to an expiry message, up to the call of `TcpReconnect`. */
    method OnExpiry(id: int) returns (reconnect: bool)
      requires Valid() && IsTimer(id)
      modifies this`pending, this`task, tmrsync
      ensures Valid() && View() == Expired(old(View()), id) && reconnect == old(tmrsync[id].used)
    {
      pending := pending - {id};
      reconnect := tmrsync[id].used;
      if reconnect {
        tmrsync[id] := tmrsync[id].(used := false);
        task := Unmarked;
      }
    }

    /** The receive task before its loop. */
    method Begin(newFD: int, arrived: seq<Byte>, started: int)
      requires Valid() && View() == Initial() && started <= MAX_TMR_NUM
      modifies this, tmrsync
      ensures Valid() && View() == Begun(newFD, arrived, started)
    {
      listenFD := newFD;
      if listenFD <= 0 {
        if tmrId > 0 {
          // The source stops the timer here, but none has been started yet.
          assert false;
        }
        var id := TcptmrStart(started);
        tmrId := id;
      } else {
        Open(arrived);
      }
    }

    /** The test in `SendProcStateReq`, made without the lock. */
    method FindNoLink() returns (none: bool)
      requires Valid()
      modifies this`seen
      ensures Valid() && (none <==> listenFD <= 0)
      ensures View() == if none then FoundNoLink(old(View())) else old(View())
    {
      none := listenFD <= 0;
      if none {
        seen := seen + 1;
      }
    }

    /** What it does under the lock once the test has found no link. */
    method OpenAtOnce(newFD: int, arrived: seq<Byte>)
      requires Valid() && seen > 0
      modifies this
      ensures Valid() && View() == OpenedAtOnce(old(View()), newFD, arrived)
    {
      var closed := net.Close(listenFD);
      if !utm {
        allset := allset - {listenFD};
      }
      listenFD := -1;
      allset := {};
      listenFD := newFD;
      net := if newFD > 0 then closed.Open(newFD, arrived) else closed;
      seen, opening := seen - 1, opening + 1;
    }

    /** And after the lock. */
    method Enlist()
      requires Valid() && opening > 0
      modifies this`allset, this`maxFD, this`opening
      ensures Valid() && View() == Enlisted(old(View()))
    {
      opening := opening - 1;
      if listenFD > 0 {
        allset := allset + {listenFD};
        var _ := CompareMaxfd(listenFD);
      }
    }
  }
}
