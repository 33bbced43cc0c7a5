/** The state of the VM client's link to the host, and what each operation of `vmct_sock.c` and its callers does. */
module ClientState {
  import opened Tpkt
  import opened Sockets
  import opened Framing

  const MAX_TMR_NUM := 1024
  const TMR_TCP_RECONNECT_MSG := 0x0100

  /** An entry of `tmrsync`. */
  datatype TmrSync = TmrSync(used: bool, primId: int, argc1: int, argc2: int)

  const UNUSED := TmrSync(false, 0, 0, 0)
  const RECONNECT := TmrSync(true, TMR_TCP_RECONNECT_MSG, 0, 0)

  /** Where the timer task is: waiting for a message; past the test of an expiry, whose mark it has taken back;
      past the store of 0 into `tmrId`, about to lock. */
  datatype Task = Idle | Unmarked | Forgot

  /** `pending` belongs to the timer library: the timers whose expiry is still to be delivered. The last three
      are where threads are: how many inside `SendProcStateReq` have found no link and are about to lock, how
      many have opened one and are about to watch it, and the timer task. */
  datatype State = State(
    listenFD: int, tmrId: int, allset: set<int>, maxFD: int,
    tmrsync: seq<TmrSync>, pending: set<int>, net: Net,
    seen: nat, opening: nat, task: Task)
  {
    predicate Sized() {
      |tmrsync| == MAX_TMR_NUM + 1
    }
  }

  function Initial(): State {
    State(-1, 0, {}, 0, NoTimers(), {}, Net(map[], [], 0), 0, 0, Idle)
  }

  function NoTimers(): seq<TmrSync> {
    seq(MAX_TMR_NUM + 1, _ => UNUSED)
  }

  predicate IsTimer(id: int) {
    1 <= id <= MAX_TMR_NUM
  }

  /** `tmrId = TcptmrStart(...)`, when `timer_start` returned `r`. */
  function TimerStarted(s: State, r: int): State
    requires s.Sized() && r <= MAX_TMR_NUM
  {
    if r <= 0 then s.(tmrId := r)
    else s.(tmrId := r, tmrsync := s.tmrsync[r := RECONNECT], pending := s.pending + {r})
  }

  /** `TcptmrStop`; a timer that has expired unseen is only unmarked, so its message will be ignored. */
  function TimerStopped(s: State, id: int): State
    requires s.Sized() && IsTimer(id)
  {
    s.(tmrsync := s.tmrsync[id := UNUSED], pending := s.pending - {id})
  }

  /** The remembered timer, if there is one, is stopped and another one started. */
  function Restarted(s: State, r: int): State
    requires s.Sized() && s.tmrId <= MAX_TMR_NUM && r <= MAX_TMR_NUM
  {
    TimerStarted(if s.tmrId > 0 then TimerStopped(s, s.tmrId) else s, r)
  }

  /** The tail shared by a failed send, a failed receive and a missed heartbeat. The `__UTM__` build clears the
      whole watch set, the default build the one descriptor. */
  function Disconnected(utm: bool, s: State, r: int): State
    requires s.Sized() && s.tmrId <= MAX_TMR_NUM && r <= MAX_TMR_NUM
  {
    if s.listenFD <= 0 then s
    else
      Restarted(s.(allset := if utm then {} else s.allset - {s.listenFD},
                   net := s.net.Close(s.listenFD), listenFD := -1), r)
  }

  function Watching(s: State, fd: int, arrived: seq<Byte>): State {
    s.(listenFD := fd, allset := s.allset + {fd}, maxFD := if s.maxFD < fd then fd else s.maxFD,
       net := s.net.Open(fd, arrived))
  }

  /** The timer task when the expiry message of timer `id` arrives: it tests the mark and takes it back. */
  function Expired(s: State, id: int): State
    requires s.Sized() && IsTimer(id)
  {
    var s1 := s.(pending := s.pending - {id});
    if !s.tmrsync[id].used then s1
    else s1.(tmrsync := s.tmrsync[id := s.tmrsync[id].(used := false)], task := Unmarked)
  }

  /** The first line of `TcpReconnect`, before it locks. */
  function ForgotTimer(s: State): State {
    s.(tmrId := 0, task := Forgot)
  }

  /** The rest of `TcpReconnect`, when `TcpOpen` returned `newFD`. */
  function Reconnected(s: State, newFD: int, arrived: seq<Byte>, r: int): State
    requires s.Sized() && s.tmrId <= MAX_TMR_NUM && r <= MAX_TMR_NUM
  {
    var s1 := s.(task := Idle);
    if newFD <= 0 then Restarted(s1.(listenFD := -1), r) else Watching(s1, newFD, arrived)
  }

  /** The receive task before its loop. */
  function Begun(newFD: int, arrived: seq<Byte>, r: int): State
    requires r <= MAX_TMR_NUM
  {
    var s := Initial();
    if newFD <= 0 then TimerStarted(s.(listenFD := newFD), r) else Watching(s, newFD, arrived)
  }

  /** `SendProcStateReq` has looked for a link, without the lock, and found none. */
  function FoundNoLink(s: State): State {
    s.(seen := s.seen + 1)
  }

  /** Having found none it takes the lock, closes whatever link there is by now and opens one at once. The
      reconnect timer is left alone. */
  function OpenedAtOnce(s: State, newFD: int, arrived: seq<Byte>): State
    requires s.seen > 0
  {
    var closed := s.net.Close(s.listenFD);
    s.(net := if newFD > 0 then closed.Open(newFD, arrived) else closed,
       listenFD := newFD, allset := {}, seen := s.seen - 1, opening := s.opening + 1)
  }

  /** And without the lock again it watches the link, if there is one. */
  function Enlisted(s: State): State
    requires s.opening > 0
  {
    var s1 := s.(opening := s.opening - 1);
    if s.listenFD <= 0 then s1
    else s1.(allset := s.allset + {s.listenFD}, maxFD := if s.maxFD < s.listenFD then s.listenFD else s.maxFD)
  }

  function SetConn(s: State, c: Conn): State {
    s.(net := Net(s.net.conns[s.listenFD := c], s.net.closed, s.net.count))
  }

  /** `TcpSend` in client mode on the link's own descriptor: the new state and the value returned. */
  function Sent(o: ByteOrder, utm: bool, s: State, buf: seq<Byte>, nbytes: int,
                polls: seq<PollResult>, sends: seq<IoResult>, r: int): (State, int)
    requires s.Sized() && s.tmrId <= MAX_TMR_NUM && r <= MAX_TMR_NUM && nbytes <= |buf| && TPKT_HEADER_SIZE <= |buf|
    requires s.listenFD > 0 ==> s.listenFD in s.net.conns
  {
    if s.listenFD <= 0 || nbytes <= 0 then (s, -1)
    else
      var (c, v) := SendFrame(o, s.net.conns[s.listenFD], buf, nbytes, polls, sends);
      match v
      case Delivered => (SetConn(s, c), nbytes)
      case Refused => (SetConn(s, c), -1)
      case Broken => (Disconnected(utm, SetConn(s, c), r), -1)
  }

  /** `TcpRecv` in client mode on the link's own open descriptor. */
  function Received(o: ByteOrder, utm: bool, s: State, chunks: seq<IoResult>, r: int): (State, Receipt)
    requires s.Sized() && s.tmrId <= MAX_TMR_NUM && r <= MAX_TMR_NUM && s.listenFD in s.net.conns
  {
    var receipt := RecvFrame(o, s.net.conns[s.listenFD].inbound, chunks);
    var s1 := SetConn(s, AfterRecv(s.net.conns[s.listenFD], receipt));
    (if receipt.n > 0 then s1 else Disconnected(utm, s1, r), receipt)
  }
}
