/** The tables of the host process, and what each operation of `host_sock.c` does to them. */
module HostState {
  import opened Tpkt
  import opened Sockets
  import opened Framing

  const MAX_SYSTEM_NUM := 128
  const MAX_LISTENQ := MAX_SYSTEM_NUM * 1
  const MAX_VM_PROC_NUM := 12

  /** An entry of `alist`. */
  datatype Slot = Slot(acceptFD: int, systemidx: nat, systemaddr: nat, port: nat)

  /** An entry of `hostConf.vmc_system`. */
  datatype VmcSystem = VmcSystem(systemidx: nat, systemaddr: nat, systemport: nat)

  datatype Process = Process(name: string, state: nat)

  /** An entry of `stateinfo`: what a VM last reported. */
  datatype StateInfo = StateInfo(vmIp: nat, vmType: nat, pcount: nat, pstate: seq<Process>)

  const NO_SYSTEM := VmcSystem(0, 0, 0)
  const BASE_STATE := StateInfo(0, 0, 0, BasePState())

  const BASE_PROCESS := Process("-", 0)
  const ZERO_PROCESS := Process("", 0)

  /** `basePState`: every process has the name "-". */
  function BasePState(): seq<Process> {
    seq(MAX_VM_PROC_NUM, _ => BASE_PROCESS)
  }

  /** What the FIFO task has between the two locked halves of `SetVmProcessStateInfo`: its copy of the table,
      and the report that is to go into it. */
  datatype Copy = NoCopy | Copy(table: seq<StateInfo>, report: StateInfo)

  datatype State = State(
    alist: seq<Slot>, vmcSystem: seq<VmcSystem>, stateinfo: seq<StateInfo>,
    allset: set<int>, maxFD: int, net: Net, copy: Copy)
  {
    predicate Sized() {
      && |alist| == MAX_LISTENQ && |vmcSystem| == MAX_SYSTEM_NUM && |stateinfo| == MAX_SYSTEM_NUM
      && (copy.Copy? ==> |copy.table| == MAX_SYSTEM_NUM)
    }
  }

  /** After `InitVariable`, with the listening descriptor open and watched. */
  function Start(listenFD: int): State {
    State(seq(MAX_LISTENQ, _ => Slot(-1, 0, 0, 0)), seq(MAX_SYSTEM_NUM, _ => NO_SYSTEM),
          seq(MAX_SYSTEM_NUM, _ => BASE_STATE), {listenFD}, listenFD, Net(map[], [], 0), NoCopy)
  }

  /** The least slot with port 0, or the length of the table. */
  function FirstFree(alist: seq<Slot>): (i: nat)
    ensures i <= |alist| && (i < |alist| ==> alist[i].port == 0)
    ensures forall j :: 0 <= j < i ==> alist[j].port != 0
  {
    if alist == [] || alist[0].port == 0 then 0 else 1 + FirstFree(alist[1..])
  }

  /** The least entry for the address, or the length of the table. */
  function FirstWithIp(info: seq<StateInfo>, ip: nat): (i: nat)
    ensures i <= |info| && (i < |info| ==> info[i].vmIp == ip)
    ensures forall j :: 0 <= j < i ==> info[j].vmIp != ip
  {
    if info == [] || info[0].vmIp == ip then 0 else 1 + FirstWithIp(info[1..], ip)
  }

  /** `TcpAccept` once `accept` has returned the descriptor `fd` for a peer at `port`. */
  function Accepted(s: State, fd: int, port: Word, arrived: seq<Byte>): State
    requires s.Sized()
  {
    var i := FirstFree(s.alist);
    if i < MAX_LISTENQ then Taken(s, i, fd, port).(net := s.net.Open(fd, arrived))
    else s.(net := s.net.Open(fd, arrived).Close(fd))
  }

  /** The table entries of slot `i` once a connection has it. */
  function Taken(s: State, i: nat, fd: int, port: Word): State
    requires s.Sized() && i < MAX_LISTENQ
  {
    var slot, sys := s.alist[i], s.vmcSystem[i];
    s.(alist := s.alist[i := Slot(fd, i + 1, slot.systemaddr, port)],
       vmcSystem := s.vmcSystem[i := VmcSystem(i + 1, sys.systemaddr, sys.systemport)])
  }

  /** What the receive task does with the slot `TcpAccept` returned. */
  function Watched(s: State, i: nat): State
    requires s.Sized() && i < MAX_LISTENQ
  {
    var fd := s.alist[i].acceptFD;
    if fd > 0 then s.(allset := s.allset + {fd}, maxFD := if s.maxFD < fd then fd else s.maxFD) else s
  }

  /** The part the two disconnect tails share: the descriptor is closed, the slot freed. */
  function Freed(s: State, i: nat): State
    requires s.Sized() && i < MAX_LISTENQ
  {
    var slot := s.alist[i];
    s.(allset := s.allset - {slot.acceptFD}, net := s.net.Close(slot.acceptFD),
       alist := s.alist[i := Slot(-1, slot.systemidx, slot.systemaddr, 0)],
       vmcSystem := s.vmcSystem[i := NO_SYSTEM])
  }

  /** The tail of `TcpSend`. */
  function SendTail(s: State, i: nat): State
    requires s.Sized() && i < MAX_LISTENQ
  {
    if s.alist[i].acceptFD > 0 then Freed(s, i) else s
  }

  /** The loop over `stateinfo`: the first entry with the address goes back to the base state. */
  function ResetFirst(info: seq<StateInfo>, addr: nat): seq<StateInfo> {
    var j := FirstWithIp(info, addr);
    if j < |info| then info[j := BASE_STATE] else info
  }

  /** The tail of `TcpRecv`, which also resets the state entry with the slot's address. */
  function RecvTail(s: State, i: nat): State
    requires s.Sized() && i < MAX_LISTENQ
  {
    if s.alist[i].acceptFD > 0 then
      Freed(s, i).(stateinfo := ResetFirst(s.stateinfo, s.vmcSystem[i].systemaddr))
    else s
  }

  function SetConn(s: State, fd: int, c: Conn): State {
    s.(net := Net(s.net.conns[fd := c], s.net.closed, s.net.count))
  }

  /** `TcpSend` on a slot with its own descriptor: the new state and the value returned. */
  function Sent(o: ByteOrder, s: State, i: nat, buf: seq<Byte>, nbytes: int,
                polls: seq<PollResult>, sends: seq<IoResult>): (State, int)
    requires s.Sized() && i < MAX_LISTENQ && nbytes <= |buf| && TPKT_HEADER_SIZE <= |buf|
    requires s.alist[i].acceptFD > 0 ==> s.alist[i].acceptFD in s.net.conns
  {
    var fd := s.alist[i].acceptFD;
    if fd <= 0 || nbytes <= 0 then (s, -1)
    else
      var (c, v) := SendFrame(o, s.net.conns[fd], buf, nbytes, polls, sends);
      var s1 := SetConn(s, fd, c);
      match v
      case Delivered => (s1, nbytes)
      case Refused => (s1, -1)
      case Broken => (SendTail(s1, i), -1)
  }

  /** `TcpRecv` on an occupied slot with its own descriptor. */
  function Received(o: ByteOrder, s: State, i: nat, chunks: seq<IoResult>): (State, Receipt)
    requires s.Sized() && i < MAX_LISTENQ && s.alist[i].acceptFD in s.net.conns
  {
    var fd := s.alist[i].acceptFD;
    var r := RecvFrame(o, s.net.conns[fd].inbound, chunks);
    var s1 := SetConn(s, fd, AfterRecv(s.net.conns[fd], r));
    (if r.n > 0 then s1 else RecvTail(s1, i), r)
  }

  /** What the receive task does with the first frame of a slot: the VM's address is noted. */
  function Registered(s: State, i: nat, addr: nat): State
    requires s.Sized() && i < MAX_LISTENQ
  {
    var slot, sys := s.alist[i], s.vmcSystem[i];
    if sys.systemport != 0 then s
    else
      s.(alist := s.alist[i := Slot(slot.acceptFD, slot.systemidx, addr, slot.port)],
         vmcSystem := s.vmcSystem[i := VmcSystem(sys.systemidx, addr, slot.port)])
  }

  /** The first half of `SetVmProcessStateInfo`: the table is copied under its lock. */
  function CopiedOut(s: State, report: StateInfo): State {
    s.(copy := Copy(s.stateinfo, report))
  }

  /** The entry of a copy that a report goes into: that of its VM, or else the first free one. */
  function PlaceFor(table: seq<StateInfo>, ip: nat): (k: nat)
    ensures k <= |table| && (k < |table| ==> table[k].vmIp in {ip, 0})
    ensures k == |table| ==> forall j :: 0 <= j < |table| ==> table[j].vmIp !in {ip, 0}
  {
    var j := FirstWithIp(table, ip);
    if j < |table| then j else FirstWithIp(table, 0)
  }

  /** The second half: the whole copy goes back, with the report in it, unless there was no place for it. */
  function CopiedBack(s: State): State
    requires s.copy.Copy?
  {
    var table, report := s.copy.table, s.copy.report;
    var k := PlaceFor(table, report.vmIp);
    s.(stateinfo := if k < |table| then table[k := report] else s.stateinfo, copy := NoCopy)
  }

  /** An entry after `CheckTcpStatus` has cleared it and copied `basePState` to where it takes entry `i` of the
      process list to be. */
  function HungEntry(i: nat): StateInfo {
    StateInfo(0, 0, 0, seq(MAX_VM_PROC_NUM, k => if k < i then ZERO_PROCESS else BASE_PROCESS))
  }

  /** `CheckTcpStatus` clears entry `i`. The copy is as long as the whole list, so for i > 0 it runs over the
      end of the entry; `beyond` is what the entries behind it are then. */
  function Hung(s: State, i: nat, beyond: seq<StateInfo>): State
    requires s.Sized() && i < MAX_SYSTEM_NUM && |beyond| == MAX_SYSTEM_NUM - i - 1
  {
    s.(stateinfo := s.stateinfo[..i] + [HungEntry(i)] + if i == 0 then s.stateinfo[1..] else beyond)
  }

  /** One entry goes back to the base state. */
  function ResetAt(s: State, j: nat): State
    requires s.Sized() && j < MAX_SYSTEM_NUM
  {
    s.(stateinfo := s.stateinfo[j := BASE_STATE])
  }
}
