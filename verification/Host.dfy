/** The host's connection handling in the source's own form: global tables updated in place. */
module HostSockets {
  import opened Tpkt
  import opened Sockets
  import opened Framing
  import opened HostState

  class Host {
    const order: ByteOrder
    const alist: array<Slot>
    const vmcSystem: array<VmcSystem>
    const stateinfo: array<StateInfo>
    var allset: set<int>
    var maxFD: int
    var net: Net

    /** Local to the FIFO task. */
    var copy: Copy

    ghost predicate Valid()
      reads this`copy
    {
      && alist.Length == MAX_LISTENQ && vmcSystem.Length == MAX_SYSTEM_NUM && stateinfo.Length == MAX_SYSTEM_NUM
      && (copy.Copy? ==> |copy.table| == MAX_SYSTEM_NUM)
    }

    /** The values of all the tables. */
    ghost function View(): (s: State)
      requires Valid()
      reads this, alist, vmcSystem, stateinfo
      ensures s.Sized()
    {
      State(alist[..], vmcSystem[..], stateinfo[..], allset, maxFD, net, copy)
    }

    constructor (order: ByteOrder, listenFD: int)
      ensures Valid() && View() == Start(listenFD) && this.order == order
      ensures fresh(alist) && fresh(vmcSystem) && fresh(stateinfo)
    {
      this.order := order;
      alist := new Slot[MAX_LISTENQ](_ => Slot(-1, 0, 0, 0));
      vmcSystem := new VmcSystem[MAX_SYSTEM_NUM](_ => NO_SYSTEM);
      stateinfo := new StateInfo[MAX_SYSTEM_NUM](_ => BASE_STATE);
      allset, maxFD, net, copy := {listenFD}, listenFD, Net(map[], [], 0), NoCopy;
      new;
      assert alist[..] == Start(listenFD).alist;
      assert vmcSystem[..] == Start(listenFD).vmcSystem;
      assert stateinfo[..] == Start(listenFD).stateinfo;
    }

    method CompareMaxfd(compareFD: int) returns (m: int)
      modifies this`maxFD
      ensures m == maxFD == if compareFD > 0 && old(maxFD) < compareFD then compareFD else old(maxFD)
    {
      if compareFD > 0 {
        if maxFD < compareFD {
          maxFD := compareFD;
        }
      }
      m := maxFD;
    }

    /** `accepted` is what `accept` returned; the peer's bytes and port come with it. */
    method TcpAccept(listenFd: int, accepted: int, port: Word, arrived: seq<Byte>) returns (i: int)
      requires Valid()
      modifies this`net, alist, vmcSystem
      ensures View() == if listenFd <= 0 || accepted < 0 then old(View())
                        else Accepted(old(View()), accepted, port, arrived)
      ensures i == if listenFd <= 0 || accepted < 0 then -1 else FirstFree(old(alist[..]))
    {
      if listenFd <= 0 {
        return -1;
      }
      if accepted < 0 {
        return -1;
      }
      net := net.Open(accepted, arrived);
      i := 0;
      while i < MAX_LISTENQ
        invariant 0 <= i <= MAX_LISTENQ
        invariant forall j :: 0 <= j < i ==> alist[j].port != 0
        invariant alist[..] == old(alist[..]) && vmcSystem[..] == old(vmcSystem[..])
      {
        if alist[i].port == 0 {
          alist[i] := alist[i].(systemidx := i + 1, port := port, acceptFD := accepted);
          vmcSystem[i] := vmcSystem[i].(systemidx := i + 1);
          break;
        }
        i := i + 1;
      }
      if i == MAX_LISTENQ {
        net := net.Close(accepted);
      }
    }

    /** The receive task after an accept. */
    method Watch(i: nat)
      requires Valid() && i < MAX_LISTENQ
      modifies this`allset, this`maxFD
      ensures View() == Watched(old(View()), i)
    {
      if alist[i].acceptFD > 0 {
        allset := allset + {alist[i].acceptFD};
        var _ := CompareMaxfd(alist[i].acceptFD);
      }
    }

    method TcpSend(i: nat, fd: int, sndMsg: array<Byte>, nbytes: int, polls: seq<PollResult>, sends: seq<IoResult>)
      returns (totalLen: int)
      requires Valid() && i < MAX_LISTENQ
      requires fd == alist[i].acceptFD && (fd > 0 ==> fd in net.conns)
      requires nbytes <= sndMsg.Length && TPKT_HEADER_SIZE <= sndMsg.Length
      modifies this`allset, this`net, alist, vmcSystem, sndMsg
      ensures (View(), totalLen) == Sent(order, old(View()), i, old(sndMsg[..]), nbytes, polls, sends)
    {
      if fd <= 0 || nbytes <= 0 {
        return -1;
      }
      var c, verdict;
      c, totalLen, verdict := Transmit(order, net.conns[fd], sndMsg, nbytes, polls, sends);
      net := net.(conns := net.conns[fd := c]);
      if verdict == Broken {
        if alist[i].acceptFD > 0 {
          Free(i);
        }
      }
    }

    method Free(i: nat)
      requires Valid() && i < MAX_LISTENQ
      modifies this`allset, this`net, alist, vmcSystem
      ensures View() == Freed(old(View()), i)
    {
      allset := allset - {alist[i].acceptFD};
      net := net.Close(alist[i].acceptFD);
      alist[i] := alist[i].(port := 0, acceptFD := -1);
      vmcSystem[i] := NO_SYSTEM;
    }

    method TcpRecv(i: nat, fd: int, rBuf: array<Byte>, chunks: seq<IoResult>) returns (nRecv: int)
      requires Valid() && i < MAX_LISTENQ && fd == alist[i].acceptFD && fd in net.conns
      requires rBuf.Length >= 0xFFFF
      modifies this`allset, this`net, alist, vmcSystem, stateinfo, rBuf
      ensures var (s, r) := Received(order, old(View()), i, chunks);
              && View() == s && nRecv == r.n && r.consumed <= rBuf.Length
              && rBuf[..] == Stored(old(rBuf[..]), old(net.conns[fd].inbound), r)
    {
      var c, ok;
      c, nRecv, ok := Receive(order, net.conns[fd], rBuf, chunks);
      net := net.(conns := net.conns[fd := c]);
      if !ok {
        if alist[i].acceptFD > 0 {
          ResetState(vmcSystem[i].systemaddr);
          Free(i);
        }
      }
    }

    /** The loop over `stateinfo` in the tail of `TcpRecv`. */
    method ResetState(addr: nat)
      requires Valid()
      modifies stateinfo
      ensures stateinfo[..] == ResetFirst(old(stateinfo[..]), addr)
    {
      var j := 0;
      while j < MAX_SYSTEM_NUM
        invariant 0 <= j <= MAX_SYSTEM_NUM
        invariant forall k :: 0 <= k < j ==> stateinfo[k].vmIp != addr
        invariant stateinfo[..] == old(stateinfo[..])
      {
        if stateinfo[j].vmIp == addr {
          stateinfo[j] := BASE_STATE;
          break;
        }
        j := j + 1;
      }
    }

    /** The receive task after a frame was received. */
    method Register(i: nat, addr: nat)
      requires Valid() && i < MAX_LISTENQ
      modifies alist, vmcSystem
      ensures View() == Registered(old(View()), i, addr)
    {
      if vmcSystem[i].systemport == 0 {
        alist[i] := alist[i].(systemaddr := addr);
        vmcSystem[i] := vmcSystem[i].(systemaddr := addr, systemport := alist[i].port);
      }
    }

    /** `SetVmProcessStateInfo` up to the end of its first locked part. */
    method CopyOut(report: StateInfo)
      requires Valid() && copy == NoCopy
      modifies this`copy
      ensures Valid() && View() == CopiedOut(old(View()), report)
    {
      copy := Copy(stateinfo[..], report);
    }

    /** And from there to the end. */
    method CopyBack() returns (j: int)
      requires Valid() && copy.Copy?
      modifies this`copy, stateinfo
      ensures Valid() && View() == CopiedBack(old(View()))
      ensures j == -1 <==>
        forall k :: 0 <= k < MAX_SYSTEM_NUM ==> old(copy).table[k].vmIp !in {0, old(copy).report.vmIp}
    {
      var vmstate, r := copy.table, copy.report;
      copy := NoCopy;
      j := 0;
      while j < MAX_SYSTEM_NUM && vmstate[j].vmIp != r.vmIp
        invariant 0 <= j <= MAX_SYSTEM_NUM
        invariant forall k :: 0 <= k < j ==> vmstate[k].vmIp != r.vmIp
      {
        j := j + 1;
      }
      if j == MAX_SYSTEM_NUM {
        j := 0;
        while j < MAX_SYSTEM_NUM && vmstate[j].vmIp != 0
          invariant 0 <= j <= MAX_SYSTEM_NUM
          invariant forall k :: 0 <= k < j ==> vmstate[k].vmIp != 0
        {
          j := j + 1;
        }
      }
      if j == MAX_SYSTEM_NUM {
        return -1;
      }
      vmstate := vmstate[j := r];
      forall k | 0 <= k < MAX_SYSTEM_NUM {
        stateinfo[k] := vmstate[k];
      }
    }

    /** `CheckTcpStatus` for the machine at `addr`, entry `i` of its own list, once its counter has run out. */
    method CheckHung(i: nat, addr: nat, beyond: seq<StateInfo>)
      requires Valid() && i < MAX_SYSTEM_NUM && |beyond| == MAX_SYSTEM_NUM - i - 1
      modifies stateinfo
      ensures View() == if FirstWithIp(old(stateinfo[..]), addr) < MAX_SYSTEM_NUM then Hung(old(View()), i, beyond)
                        else old(View())
    {
      var v := 0;
      while v < MAX_SYSTEM_NUM
        invariant 0 <= v <= MAX_SYSTEM_NUM
        invariant forall k :: 0 <= k < v ==> stateinfo[k].vmIp != addr
        invariant stateinfo[..] == old(stateinfo[..])
      {
        if stateinfo[v].vmIp == addr {
          stateinfo[i] := HungEntry(i);
          if i > 0 {
            forall k | i < k < MAX_SYSTEM_NUM {
              stateinfo[k] := beyond[k - i - 1];
            }
          }
          assert stateinfo[..] == Hung(old(View()), i, beyond).stateinfo;
          break;
        }
        v := v + 1;
      }
    }
  }
}
