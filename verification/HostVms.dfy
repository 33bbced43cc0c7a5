/** The per-VM states the host keeps: whose they are, and which steps can leave one behind. */
module HostVms {
  import opened Tpkt
  import opened Sockets
  import opened Framing
  import opened HostState
  import opened HostRuns

  /** Nonzero addresses are unique and entries without one hold the base state. */
  ghost predicate Distinct(info: seq<StateInfo>) {
    && (forall i, j :: 0 <= i < j < |info| && info[i].vmIp != 0 ==> info[i].vmIp != info[j].vmIp)
    && (forall i :: 0 <= i < |info| && info[i].vmIp == 0 ==> info[i] == BASE_STATE)
  }

  /** Some occupied slot belongs to the VM at `ip`. */
  ghost predicate Live(s: State, ip: nat) {
    exists i :: Occupied(s, i) && i < |s.vmcSystem| && s.vmcSystem[i].systemaddr == ip
  }

  predicate ListedIn(table: seq<StateInfo>, ip: nat) {
    exists j :: 0 <= j < |table| && table[j].vmIp == ip
  }

  predicate Listed(s: State, ip: nat) {
    ListedIn(s.stateinfo, ip)
  }

  /** Every state kept belongs to a VM that is connected. */
  ghost predicate NoneStale(s: State) {
    forall ip :: ip != 0 && Listed(s, ip) ==> Live(s, ip)
  }

  // ----------------------------------------------------- the state entries

  /** Resetting an address restores the base state of that VM's entry and of no other. */
  lemma ResetExactly(info: seq<StateInfo>, addr: nat)
    requires Distinct(info)
    ensures var info' := ResetFirst(info, addr);
            && |info'| == |info| && Distinct(info')
            && forall j :: 0 <= j < |info| ==>
                 info'[j] == if addr != 0 && info[j].vmIp == addr then BASE_STATE else info[j]
  {
  }

  /** The copy-back's report replaces the entry of its own VM in the copy, or takes one free entry of it, or
      finds it full. In the last case nothing goes back; otherwise all of the copy does. */
  lemma CopyBackExactly(s: State)
    requires s.Sized() && s.copy.Copy? && Distinct(s.copy.table) && s.copy.report.vmIp != 0
    ensures var table, r, info := s.copy.table, s.copy.report, CopiedBack(s).stateinfo;
            && |info| == MAX_SYSTEM_NUM
            && (ListedIn(table, r.vmIp) ==> forall j :: 0 <= j < |info| ==>
                  info[j] == if table[j].vmIp == r.vmIp then r else table[j])
            && (!ListedIn(table, r.vmIp) && ListedIn(table, 0) ==>
                  exists k :: 0 <= k < |info| && table[k].vmIp == 0 && info == table[k := r])
            && (!ListedIn(table, r.vmIp) && !ListedIn(table, 0) ==> info == s.stateinfo)
  {
    var table, r := s.copy.table, s.copy.report;
    var j := FirstWithIp(table, r.vmIp);
    if ListedIn(table, r.vmIp) {
      var k :| 0 <= k < |table| && table[k].vmIp == r.vmIp;
      assert j < MAX_SYSTEM_NUM && j == k;
    } else if ListedIn(table, 0) {
      var k :| 0 <= k < |table| && table[k].vmIp == 0;
      assert j == MAX_SYSTEM_NUM && FirstWithIp(table, 0) <= k;
    }
  }

  /** A broken send frees the slot but, unlike a failed receive, leaves every state entry as it was. */
  lemma EntriesKept(o: ByteOrder, s: State, e: Event)
    requires Callable(s, e) && (e.Accept? || e.Send?)
    ensures Step(o, s, e).stateinfo == s.stateinfo && Step(o, s, e).copy == s.copy
  {
  }

  lemma RecvEntries(o: ByteOrder, s: State, e: Event)
    requires Callable(s, e) && e.Recv?
    ensures Step(o, s, e).copy == s.copy
    ensures Step(o, s, e).stateinfo in {s.stateinfo, ResetFirst(s.stateinfo, s.vmcSystem[e.i].systemaddr)}
  {
  }

  /** The check leaves the entries before `i` and frees entry `i`, but gives only its processes from `i` on the
      name of the base state, the others having none; behind the entry something changes only if i > 0. */
  ghost predicate HungAt(s: State, s': State, i: nat)
    requires s.Sized() && i < MAX_SYSTEM_NUM
  {
    && s' == s.(stateinfo := s'.stateinfo) && |s'.stateinfo| == MAX_SYSTEM_NUM
    && s'.stateinfo[..i] == s.stateinfo[..i]
    && s'.stateinfo[i].vmIp == 0 && s'.stateinfo[i].vmType == 0 && s'.stateinfo[i].pcount == 0
    && |s'.stateinfo[i].pstate| == MAX_VM_PROC_NUM
    && (forall k :: 0 <= k < MAX_VM_PROC_NUM ==>
          s'.stateinfo[i].pstate[k] == Process(if k < i then "" else "-", 0))
    && (i == 0 ==> s'.stateinfo[1..] == s.stateinfo[1..])
  }

  /** The hang check restores the base state of the machine at `ip`, and changes nothing else, exactly if that
      machine has entry 0 of the states and is first in the check's own list too. */
  lemma HangExactly(s: State, i: nat, beyond: seq<StateInfo>, ip: nat)
    requires s.Sized() && Distinct(s.stateinfo) && ip != 0 && Listed(s, ip)
    requires i < MAX_SYSTEM_NUM && |beyond| == MAX_SYSTEM_NUM - i - 1
    ensures Hung(s, i, beyond).stateinfo == ResetFirst(s.stateinfo, ip) <==> i == 0 && s.stateinfo[0].vmIp == ip
    ensures HungAt(s, Hung(s, i, beyond), i)
  {
    var info, reset := s.stateinfo, ResetFirst(s.stateinfo, ip);
    HungEntryIsBase(i);
    assert Hung(s, i, beyond).stateinfo[i] == HungEntry(i);
    ResetExactly(info, ip);
    var j :| 0 <= j < |info| && info[j].vmIp == ip;
    if i == 0 {
      assert Hung(s, i, beyond).stateinfo == info[0 := BASE_STATE];
      assert reset[j] == BASE_STATE;
      if j == 0 {
        assert reset == info[0 := BASE_STATE];
      } else {
        assert info[0 := BASE_STATE][j] == info[j];
      }
    } else {
      assert reset[i] in {BASE_STATE, info[i]};
    }
  }

  lemma HungEntryIsBase(i: nat)
    ensures HungEntry(i).vmIp == 0 && (HungEntry(i) == BASE_STATE <==> i == 0)
  {
    if i == 0 {
      assert HungEntry(i).pstate == BasePState();
    } else {
      assert HungEntry(i).pstate[0] == ZERO_PROCESS && BasePState()[0] == BASE_PROCESS;
    }
  }

  // --------------------------------------------- unique and blank, in every run

  /** The table and the FIFO task's copy of it. */
  ghost predicate Clean(s: State) {
    Distinct(s.stateinfo) && (s.copy.Copy? ==> Distinct(s.copy.table))
  }

  /** The guard: the hang check clears entry 0, and a report has a nonzero address (or, with address 0, is the
      base state or finds no free entry). */
  predicate Contained(s: State, e: Event)
    requires Callable(s, e)
  {
    && (e.Hang? ==> e.i == 0)
    && (e.CopyBack? ==>
          s.copy.report.vmIp != 0 || s.copy.report == BASE_STATE || FirstWithIp(s.copy.table, 0) == MAX_SYSTEM_NUM)
  }

  lemma CopyBackClean(s: State)
    requires s.Sized() && s.copy.Copy? && Clean(s)
    ensures var table, r := s.copy.table, s.copy.report;
            Clean(CopiedBack(s)) <==> r.vmIp != 0 || r == BASE_STATE || FirstWithIp(table, 0) == MAX_SYSTEM_NUM
  {
    var table, r, s' := s.copy.table, s.copy.report, CopiedBack(s);
    var k := PlaceFor(table, r.vmIp);
    if k < MAX_SYSTEM_NUM && r.vmIp == 0 && r != BASE_STATE {
      assert s'.stateinfo[k].vmIp == 0 && s'.stateinfo[k] != BASE_STATE;
    }
  }

  lemma HangClean(s: State, i: nat, beyond: seq<StateInfo>)
    requires s.Sized() && i < MAX_SYSTEM_NUM && |beyond| == MAX_SYSTEM_NUM - i - 1 && Clean(s)
    ensures Clean(Hung(s, i, beyond)) <==> i == 0
  {
    HungEntryIsBase(i);
    var info := Hung(s, i, beyond).stateinfo;
    assert info[i] == HungEntry(i);
    if i == 0 {
      assert info == s.stateinfo[0 := BASE_STATE];
    }
  }

  /** Just the steps outside the guard give a VM a second entry or leave a free one without the base state. */
  lemma StepClean(o: ByteOrder, s: State, e: Event)
    requires Callable(s, e) && Clean(s)
    ensures Clean(Step(o, s, e)) <==> Contained(s, e)
  {
    match e
    case Accept(_, _, _) => EntriesKept(o, s, e);
    case Send(_, _, _, _, _) => EntriesKept(o, s, e);
    case Recv(i, _, _) =>
      RecvEntries(o, s, e);
      ResetExactly(s.stateinfo, s.vmcSystem[i].systemaddr);
    case CopyOut(_) =>
    case CopyBack => CopyBackClean(s);
    case Hang(i, beyond) => HangClean(s, i, beyond);
    case LateReset(_) =>
  }

  /** Event `k` of the run happens. */
  predicate Happens(o: ByteOrder, listenFD: int, events: seq<Event>, k: nat)
    requires k < |events|
  {
    var s := Run(o, listenFD, events[..k]);
    Callable(s, events[k]) && Allowed(listenFD, s, events[k])
  }

  ghost predicate ContainedRun(o: ByteOrder, listenFD: int, events: seq<Event>) {
    forall k :: 0 <= k < |events| && Happens(o, listenFD, events, k) ==>
      Contained(Run(o, listenFD, events[..k]), events[k])
  }

  ghost predicate CleanThroughout(o: ByteOrder, listenFD: int, events: seq<Event>) {
    forall k :: 0 <= k <= |events| ==> Clean(Run(o, listenFD, events[..k]))
  }

  lemma RunStep(o: ByteOrder, listenFD: int, events: seq<Event>, k: nat)
    requires k < |events|
    ensures Run(o, listenFD, events[..k + 1])
            == if Happens(o, listenFD, events, k) then Step(o, Run(o, listenFD, events[..k]), events[k])
               else Run(o, listenFD, events[..k])
  {
    assert events[..k + 1][..k] == events[..k];
  }

  /** No VM ever has two entries, and free entries always hold the base state, exactly in the runs whose steps
      stay inside the guard. */
  lemma CleanExactly(o: ByteOrder, listenFD: int, events: seq<Event>)
    ensures CleanThroughout(o, listenFD, events) <==> ContainedRun(o, listenFD, events)
  {
    if CleanThroughout(o, listenFD, events) {
      forall k | 0 <= k < |events| && Happens(o, listenFD, events, k)
        ensures Contained(Run(o, listenFD, events[..k]), events[k])
      {
        CleanNext(o, listenFD, events, k);
      }
    } else if ContainedRun(o, listenFD, events) {
      forall k | 0 <= k <= |events|
        ensures Clean(Run(o, listenFD, events[..k]))
      {
        CleanUpTo(o, listenFD, events, k);
      }
    }
  }

  lemma CleanNext(o: ByteOrder, listenFD: int, events: seq<Event>, k: nat)
    requires k < |events| && Clean(Run(o, listenFD, events[..k]))
    ensures Happens(o, listenFD, events, k) ==>
              (Clean(Run(o, listenFD, events[..k + 1])) <==> Contained(Run(o, listenFD, events[..k]), events[k]))
    ensures !Happens(o, listenFD, events, k) ==> Clean(Run(o, listenFD, events[..k + 1]))
  {
    RunStep(o, listenFD, events, k);
    if Happens(o, listenFD, events, k) {
      StepClean(o, Run(o, listenFD, events[..k]), events[k]);
    }
  }

  lemma {:induction false} CleanUpTo(o: ByteOrder, listenFD: int, events: seq<Event>, k: nat)
    requires ContainedRun(o, listenFD, events) && k <= |events|
    ensures Clean(Run(o, listenFD, events[..k]))
  {
    if k > 0 {
      CleanUpTo(o, listenFD, events, k - 1);
      CleanNext(o, listenFD, events, k - 1);
    }
  }

  // ---------------------------------------------------------- stale entries

  /** Another occupied slot than `i` belongs to the same VM. */
  ghost predicate Doubled(s: State, i: nat)
    requires s.Sized() && i < MAX_LISTENQ
  {
    exists j :: j != i && Occupied(s, j) && s.vmcSystem[j].systemaddr == s.vmcSystem[i].systemaddr
  }

  /** Losing slot `i` without a reset leaves nothing behind: its machine is unnamed, has no state, or has
      another connection. */
  ghost predicate Sheltered(s: State, i: nat)
    requires s.Sized() && i < MAX_LISTENQ
  {
    s.vmcSystem[i].systemaddr == 0 || !Listed(s, s.vmcSystem[i].systemaddr) || Doubled(s, i)
  }

  ghost predicate AllLive(s: State, table: seq<StateInfo>) {
    forall ip :: ip != 0 && ListedIn(table, ip) ==> Live(s, ip)
  }

  /** The guard under which a step keeps `NoneStale`. A broken send must not be the end of the only connection
      of a machine with a state, nor a failed receive that of one with two. When a copy goes back, all machines
      in it and the one that reports must be connected by then, or the copy must be full. What the hang check's
      overrun brings in must name connected machines only. */
  ghost predicate Tidy(o: ByteOrder, s: State, e: Event)
    requires Callable(s, e)
  {
    match e
    case Send(i, buf, nbytes, polls, sends) =>
      s.alist[i].acceptFD <= 0 || nbytes <= 0
      || SendFrame(o, s.net.conns[s.alist[i].acceptFD], buf, nbytes, polls, sends).1 != Broken
      || Sheltered(s, i)
    case Recv(i, chunks, _) =>
      s.alist[i].acceptFD <= 0 || Received(o, s, i, chunks).1.n > 0 || Resettable(s, i)
    case CopyBack =>
      var table, r := s.copy.table, s.copy.report;
      PlaceFor(table, r.vmIp) == MAX_SYSTEM_NUM || ((r.vmIp == 0 || Live(s, r.vmIp)) && AllLive(s, table))
    case Hang(i, beyond) => i == 0 || AllLive(s, beyond)
    case _ => true
  }

  /** Freeing a slot takes life only from its own VM, and only if no other slot is that VM's. */
  lemma LiveAfterFree(listenFD: int, s: State, i: nat, ip: nat)
    requires Tables(listenFD, s) && i < MAX_LISTENQ && Occupied(s, i)
    ensures Live(Freed(s, i), ip) <==> Live(s, ip) && (ip != s.vmcSystem[i].systemaddr || Doubled(s, i))
  {
    var s' := Freed(s, i);
    assert forall j :: Occupied(s', j) <==> Occupied(s, j) && j != i;
    assert forall j :: Occupied(s', j) ==> s'.vmcSystem[j] == s.vmcSystem[j];
    if Live(s, ip) && ip != s.vmcSystem[i].systemaddr {
      var j :| Occupied(s, j) && j < |s.vmcSystem| && s.vmcSystem[j].systemaddr == ip;
      assert Occupied(s', j);
    }
    if Doubled(s, i) && ip == s.vmcSystem[i].systemaddr {
      var j :| j != i && Occupied(s, j) && s.vmcSystem[j].systemaddr == ip;
      assert Occupied(s', j);
    }
  }

  lemma LiveAfterAccept(listenFD: int, s: State, i: nat, fd: int, port: Word, ip: nat)
    requires Tables(listenFD, s) && i < MAX_LISTENQ && s.alist[i].port == 0
    requires Live(s, ip)
    ensures Live(Taken(s, i, fd, port), ip)
  {
    var j :| Occupied(s, j) && j < |s.vmcSystem| && s.vmcSystem[j].systemaddr == ip;
    assert Occupied(Taken(s, i, fd, port), j);
  }

  lemma LiveAfterRegister(listenFD: int, s: State, i: nat, addr: nat, ip: nat)
    requires Tables(listenFD, s) && i < MAX_LISTENQ && Occupied(s, i) && ip != 0 && Live(s, ip)
    ensures Live(Registered(s, i, addr), ip)
  {
    var j :| Occupied(s, j) && j < |s.vmcSystem| && s.vmcSystem[j].systemaddr == ip;
    assert SlotAgrees(listenFD, s, i);
    assert Occupied(Registered(s, i, addr), j);
  }

  /** Two states with the same tables have the same live VMs. */
  lemma LiveSame(s: State, s': State, ip: nat)
    requires s.Sized() && s'.Sized() && s.alist == s'.alist && s.vmcSystem == s'.vmcSystem
    ensures Live(s, ip) <==> Live(s', ip)
  {
    assert forall j :: Occupied(s, j) <==> Occupied(s', j);
  }

  lemma AcceptTidy(o: ByteOrder, listenFD: int, s: State, e: Event)
    requires Tables(listenFD, s) && Callable(s, e) && e.Accept? && Allowed(listenFD, s, e) && NoneStale(s)
    ensures NoneStale(Step(o, s, e))
  {
    var i, s' := FirstFree(s.alist), Step(o, s, e);
    forall ip | ip != 0 && Listed(s', ip)
      ensures Live(s', ip)
    {
      assert Listed(s, ip);
      if i < MAX_LISTENQ {
        LiveAfterAccept(listenFD, s, i, e.fd, e.port, ip);
        LiveSame(Taken(s, i, e.fd, e.port), s', ip);
      } else {
        LiveSame(s, s', ip);
      }
    }
  }

  /** Freeing a slot without resetting its entry is harmless exactly under the guard. */
  lemma FreeTidy(listenFD: int, s: State, i: nat)
    requires Tables(listenFD, s) && i < MAX_LISTENQ && Occupied(s, i) && NoneStale(s)
    ensures NoneStale(Freed(s, i)) <==> Sheltered(s, i)
  {
    var s', a := Freed(s, i), s.vmcSystem[i].systemaddr;
    forall ip
      ensures Live(s', ip) <==> Live(s, ip) && (ip != a || Doubled(s, i))
    {
      LiveAfterFree(listenFD, s, i, ip);
    }
    assert forall ip :: Listed(s', ip) <==> Listed(s, ip);
  }

  lemma SendTidy(o: ByteOrder, listenFD: int, s: State, e: Event)
    requires Tables(listenFD, s) && Callable(s, e) && e.Send? && NoneStale(s)
    ensures NoneStale(Step(o, s, e)) <==> Tidy(o, s, e)
  {
    assert SlotAgrees(listenFD, s, e.i);
    var fd := s.alist[e.i].acceptFD;
    if fd > 0 && e.nbytes > 0 {
      var (c, v) := SendFrame(o, s.net.conns[fd], e.buf, e.nbytes, e.polls, e.sends);
      var s1 := SetConn(s, fd, c);
      Unchanged(s, s1);
      if v == Broken {
        SetConnTables(listenFD, s, fd, c);
        FreeTidy(listenFD, s1, e.i);
        assert Doubled(s1, e.i) <==> Doubled(s, e.i);
        assert Step(o, s, e) == Freed(s1, e.i);
      } else {
        assert Step(o, s, e) == s1;
      }
    } else {
      assert Step(o, s, e) == s;
    }
  }

  lemma Unchanged(s: State, s1: State)
    requires s.Sized() && s1.Sized() && s1 == s.(net := s1.net)
    ensures NoneStale(s) <==> NoneStale(s1)
    ensures forall i :: 0 <= i < MAX_LISTENQ ==>
      (Doubled(s, i) <==> Doubled(s1, i)) && (Sheltered(s, i) <==> Sheltered(s1, i))
    ensures forall ip :: Listed(s, ip) <==> Listed(s1, ip)
    ensures forall j :: Occupied(s, j) <==> Occupied(s1, j)
  {
    forall ip
      ensures Live(s, ip) <==> Live(s1, ip)
    {
      LiveSame(s, s1, ip);
    }
    assert forall ip :: Listed(s, ip) <==> Listed(s1, ip);
  }

  lemma SetConnTables(listenFD: int, s: State, fd: int, c: Conn)
    requires Tables(listenFD, s) && fd in s.net.conns
    ensures Tables(listenFD, SetConn(s, fd, c))
  {
    var s' := SetConn(s, fd, c);
    assert Held(s') == Held(s);
    forall j | 0 <= j < MAX_LISTENQ
      ensures SlotAgrees(listenFD, s', j)
    {
      assert SlotAgrees(listenFD, s, j);
    }
  }

  /** Losing slot `i` with a reset leaves nothing behind: as for `Sheltered`, or the reset takes the machine's
      only entry. */
  ghost predicate Resettable(s: State, i: nat)
    requires s.Sized() && i < MAX_LISTENQ
  {
    var a := s.vmcSystem[i].systemaddr;
    a == 0 || Doubled(s, i) || !ListedIn(ResetFirst(s.stateinfo, a), a)
  }

  lemma ListedAfterReset(info: seq<StateInfo>, addr: nat, ip: nat)
    requires ip != addr && ip != 0
    ensures ListedIn(ResetFirst(info, addr), ip) <==> ListedIn(info, ip)
  {
    var info' := ResetFirst(info, addr);
    if ListedIn(info, ip) {
      var j :| 0 <= j < |info| && info[j].vmIp == ip;
      assert info'[j].vmIp == ip;
    }
    if ListedIn(info', ip) {
      var j :| 0 <= j < |info'| && info'[j].vmIp == ip;
      assert info[j].vmIp == ip;
    }
  }

  /** The receive tail leaves something stale just when its one reset is not enough. */
  lemma LossTidy(listenFD: int, s: State, i: nat)
    requires Tables(listenFD, s) && i < MAX_LISTENQ && Occupied(s, i) && NoneStale(s)
    ensures NoneStale(Freed(s, i).(stateinfo := ResetFirst(s.stateinfo, s.vmcSystem[i].systemaddr)))
            <==> Resettable(s, i)
  {
    var a := s.vmcSystem[i].systemaddr;
    var s' := Freed(s, i).(stateinfo := ResetFirst(s.stateinfo, a));
    forall ip
      ensures Live(s', ip) <==> Live(s, ip) && (ip != a || Doubled(s, i))
    {
      LiveAfterFree(listenFD, s, i, ip);
      LiveSame(Freed(s, i), s', ip);
    }
    forall ip | ip != a && ip != 0
      ensures Listed(s', ip) <==> Listed(s, ip)
    {
      ListedAfterReset(s.stateinfo, a, ip);
    }
    assert Live(s, a);
    assert Doubled(s, i) ==> Live(s', a);
  }

  /** It is enough wherever no machine has two entries. */
  lemma DistinctResets(s: State, i: nat)
    requires s.Sized() && i < MAX_LISTENQ && Distinct(s.stateinfo)
    ensures Resettable(s, i)
  {
    ResetExactly(s.stateinfo, s.vmcSystem[i].systemaddr);
  }

  lemma RecvTidy(o: ByteOrder, listenFD: int, s: State, e: Event)
    requires Tables(listenFD, s) && Callable(s, e) && e.Recv? && NoneStale(s)
    ensures NoneStale(Step(o, s, e)) <==> Tidy(o, s, e)
  {
    assert SlotAgrees(listenFD, s, e.i);
    var fd := s.alist[e.i].acceptFD;
    if fd > 0 {
      var r := RecvFrame(o, s.net.conns[fd].inbound, e.chunks);
      var s1 := SetConn(s, fd, AfterRecv(s.net.conns[fd], r));
      Unchanged(s, s1);
      SetConnTables(listenFD, s, fd, AfterRecv(s.net.conns[fd], r));
      if r.n > 0 {
        var s' := Registered(s1, e.i, e.addr);
        assert Step(o, s, e) == s';
        forall ip | ip != 0 && Listed(s', ip)
          ensures Live(s', ip)
        {
          assert Listed(s1, ip);
          LiveAfterRegister(listenFD, s1, e.i, e.addr, ip);
        }
      } else {
        LossTidy(listenFD, s1, e.i);
        assert Resettable(s1, e.i) <==> Resettable(s, e.i);
        assert Step(o, s, e) == Freed(s1, e.i).(stateinfo := ResetFirst(s1.stateinfo, s1.vmcSystem[e.i].systemaddr));
      }
    } else {
      assert Step(o, s, e) == s;
    }
  }

  lemma LiveOnlyByTables(s: State, s': State)
    requires s.Sized() && s'.Sized() && s.alist == s'.alist && s.vmcSystem == s'.vmcSystem
    ensures forall ip :: Live(s, ip) <==> Live(s', ip)
  {
    forall ip
      ensures Live(s, ip) <==> Live(s', ip)
    {
      LiveSame(s, s', ip);
    }
  }

  lemma ListedAfter(table: seq<StateInfo>, k: nat, r: StateInfo, ip: nat)
    requires k < |table| && table[k].vmIp in {r.vmIp, 0} && ip != 0
    ensures ListedIn(table[k := r], ip) <==> ListedIn(table, ip) || ip == r.vmIp
  {
    var table' := table[k := r];
    if ListedIn(table, ip) {
      var j :| 0 <= j < |table| && table[j].vmIp == ip;
      assert table'[j].vmIp == ip;
    }
    assert table'[k].vmIp == r.vmIp;
    if ListedIn(table', ip) && ip != r.vmIp {
      var j :| 0 <= j < |table'| && table'[j].vmIp == ip;
      assert table[j].vmIp == ip;
    }
  }

  lemma CopyBackTidy(o: ByteOrder, s: State)
    requires s.Sized() && s.copy.Copy? && NoneStale(s)
    ensures NoneStale(CopiedBack(s)) <==> Tidy(o, s, CopyBack)
  {
    var s', table, r := CopiedBack(s), s.copy.table, s.copy.report;
    var k := PlaceFor(table, r.vmIp);
    LiveOnlyByTables(s, s');
    if k < MAX_SYSTEM_NUM {
      forall ip | ip != 0
        ensures Listed(s', ip) <==> ListedIn(table, ip) || ip == r.vmIp
      {
        ListedAfter(table, k, r, ip);
      }
    }
  }

  lemma HangTidy(o: ByteOrder, s: State, i: nat, beyond: seq<StateInfo>)
    requires s.Sized() && i < MAX_SYSTEM_NUM && |beyond| == MAX_SYSTEM_NUM - i - 1 && NoneStale(s)
    ensures NoneStale(Hung(s, i, beyond)) <==> Tidy(o, s, Hang(i, beyond))
  {
    var s' := Hung(s, i, beyond);
    LiveOnlyByTables(s, s');
    forall j | 0 <= j < MAX_SYSTEM_NUM
      ensures s'.stateinfo[j] == if j < i then s.stateinfo[j] else if j == i then HungEntry(i)
                                 else if i == 0 then s.stateinfo[j] else beyond[j - i - 1]
    {
    }
    if i > 0 {
      forall ip | ip != 0 && ListedIn(beyond, ip)
        ensures Listed(s', ip)
      {
        var j :| 0 <= j < |beyond| && beyond[j].vmIp == ip;
        assert s'.stateinfo[j + i + 1].vmIp == ip;
      }
    }
    forall ip | ip != 0 && Listed(s', ip)
      ensures Listed(s, ip) || (i > 0 && ListedIn(beyond, ip))
    {
      var j :| 0 <= j < MAX_SYSTEM_NUM && s'.stateinfo[j].vmIp == ip;
      assert j > i && i > 0 ==> beyond[j - i - 1].vmIp == ip;
    }
  }

  lemma ResetTidy(s: State, j: nat)
    requires s.Sized() && j < MAX_SYSTEM_NUM && NoneStale(s)
    ensures NoneStale(ResetAt(s, j))
  {
    var s' := ResetAt(s, j);
    LiveOnlyByTables(s, s');
    assert forall ip :: ip != 0 && Listed(s', ip) ==> Listed(s, ip);
  }

  /** The exact account: of all steps that the premises allow, just those outside the guard leave behind a
      state whose VM is not connected. */
  lemma StaleExactly(o: ByteOrder, listenFD: int, s: State, e: Event)
    requires Tables(listenFD, s) && Callable(s, e) && Allowed(listenFD, s, e) && NoneStale(s)
    ensures NoneStale(Step(o, s, e)) <==> Tidy(o, s, e)
  {
    match e
    case Accept(_, _, _) => AcceptTidy(o, listenFD, s, e);
    case Send(_, _, _, _, _) => SendTidy(o, listenFD, s, e);
    case Recv(_, _, _) => RecvTidy(o, listenFD, s, e);
    case CopyOut(_) => LiveOnlyByTables(s, Step(o, s, e));
    case CopyBack => CopyBackTidy(o, s);
    case Hang(i, beyond) => HangTidy(o, s, i, beyond);
    case LateReset(j) => ResetTidy(s, j);
  }

  /** What a caller can tell before a send: whatever the operating system does, nothing stale will be left,
      exactly if the slot is sheltered. */
  lemma SendTidyAlways(o: ByteOrder, listenFD: int, s: State, i: nat, buf: seq<Byte>, nbytes: nat)
    requires Tables(listenFD, s) && NoneStale(s) && Occupied(s, i)
    requires 0 < nbytes <= |buf| && TPKT_HEADER_SIZE <= |buf|
    ensures i < MAX_LISTENQ && s.alist[i].acceptFD in s.net.conns
    ensures (forall polls, sends :: NoneStale(Step(o, s, Send(i, buf, nbytes, polls, sends)))) <==> Sheltered(s, i)
  {
    assert SlotAgrees(listenFD, s, i);
    if Sheltered(s, i) {
      forall polls, sends
        ensures NoneStale(Step(o, s, Send(i, buf, nbytes, polls, sends)))
      {
        StaleExactly(o, listenFD, s, Send(i, buf, nbytes, polls, sends));
      }
    } else {
      DeadSendLeavesStale(o, listenFD, s, i, buf, nbytes);
    }
  }

  /** Every step of the run that happens stays inside the guard. */
  ghost predicate TidyRun(o: ByteOrder, listenFD: int, events: seq<Event>) {
    forall k :: 0 <= k < |events| && Happens(o, listenFD, events, k) ==>
      Tidy(o, Run(o, listenFD, events[..k]), events[k])
  }

  ghost predicate NeverStale(o: ByteOrder, listenFD: int, events: seq<Event>) {
    forall k :: 0 <= k <= |events| ==> NoneStale(Run(o, listenFD, events[..k]))
  }

  /** Over whole runs: the host never keeps the state of a machine that is not connected exactly if each step
      of the run stays inside the guard. */
  lemma NeverStaleExactly(o: ByteOrder, listenFD: int, events: seq<Event>)
    requires listenFD > 0
    ensures NeverStale(o, listenFD, events) <==> TidyRun(o, listenFD, events)
  {
    if NeverStale(o, listenFD, events) {
      forall k | 0 <= k < |events| && Happens(o, listenFD, events, k)
        ensures Tidy(o, Run(o, listenFD, events[..k]), events[k])
      {
        StaleAt(o, listenFD, events, k);
      }
    } else if TidyRun(o, listenFD, events) {
      forall k | 0 <= k <= |events|
        ensures NoneStale(Run(o, listenFD, events[..k]))
      {
        TidyUpTo(o, listenFD, events, k);
      }
    }
  }

  lemma StaleAt(o: ByteOrder, listenFD: int, events: seq<Event>, k: nat)
    requires listenFD > 0 && k < |events|
    requires NoneStale(Run(o, listenFD, events[..k]))
    ensures Happens(o, listenFD, events, k) ==>
              (NoneStale(Run(o, listenFD, events[..k + 1])) <==> Tidy(o, Run(o, listenFD, events[..k]), events[k]))
    ensures !Happens(o, listenFD, events, k) ==> NoneStale(Run(o, listenFD, events[..k + 1]))
  {
    RunStep(o, listenFD, events, k);
    RunSafe(o, listenFD, events[..k]);
    if Happens(o, listenFD, events, k) {
      StaleExactly(o, listenFD, Run(o, listenFD, events[..k]), events[k]);
    }
  }

  lemma {:induction false} TidyUpTo(o: ByteOrder, listenFD: int, events: seq<Event>, k: nat)
    requires listenFD > 0 && TidyRun(o, listenFD, events) && k <= |events|
    ensures NoneStale(Run(o, listenFD, events[..k]))
  {
    if k > 0 {
      TidyUpTo(o, listenFD, events, k - 1);
      TidyAt(o, listenFD, events, k - 1);
    }
  }

  lemma TidyAt(o: ByteOrder, listenFD: int, events: seq<Event>, k: nat)
    requires listenFD > 0 && k < |events| && NoneStale(Run(o, listenFD, events[..k]))
    requires Happens(o, listenFD, events, k) ==> Tidy(o, Run(o, listenFD, events[..k]), events[k])
    ensures NoneStale(Run(o, listenFD, events[..k + 1]))
  {
    StaleAt(o, listenFD, events, k);
  }

  /** A dead poll on the only connection of a VM with a state leaves that state behind. */
  lemma DeadSendLeavesStale(o: ByteOrder, listenFD: int, s: State, i: nat, buf: seq<Byte>, nbytes: nat)
    requires Tables(listenFD, s) && NoneStale(s) && Occupied(s, i) && i < MAX_LISTENQ
    requires !Sheltered(s, i) && 0 < nbytes <= |buf| && TPKT_HEADER_SIZE <= |buf|
    ensures var e := Send(i, buf, nbytes, [PollFailed(EPIPE)], []);
            Allowed(listenFD, s, e) && Callable(s, e) && !NoneStale(Step(o, s, e))
  {
    assert SlotAgrees(listenFD, s, i);
    StaleExactly(o, listenFD, s, Send(i, buf, nbytes, [PollFailed(EPIPE)], []));
  }

  /** No broken send and no late report is needed: while the report of a connected machine is being handled,
      another one's only connection is lost and its state reset, and then the copy brings that state back. */
  lemma ResetUndone(o: ByteOrder, listenFD: int, s: State, report: StateInfo, i: nat, chunks: seq<IoResult>, addr: nat)
    requires Tables(listenFD, s) && Clean(s) && NoneStale(s) && s.copy == NoCopy
    requires Occupied(s, i) && i < MAX_LISTENQ && !Sheltered(s, i)
    requires PlaceFor(s.stateinfo, report.vmIp) < MAX_SYSTEM_NUM
    requires s.alist[i].acceptFD in s.net.conns && Received(o, s, i, chunks).1.n <= 0
    ensures var s1 := Step(o, s, CopyOut(report));
            var e := Recv(i, chunks, addr);
            && Callable(s1, e) && Allowed(listenFD, s1, e) && Tidy(o, s1, e)
            && var s2 := Step(o, s1, e);
            && NoneStale(s1) && NoneStale(s2) && !Listed(s2, s.vmcSystem[i].systemaddr)
            && Callable(s2, CopyBack) && !NoneStale(Step(o, s2, CopyBack))
  {
    var s1, a := Step(o, s, CopyOut(report)), s.vmcSystem[i].systemaddr;
    LiveOnlyByTables(s, s1);
    CopyTables(listenFD, s, s1.copy);
    assert SlotAgrees(listenFD, s, i);
    var s2 := Step(o, s1, Recv(i, chunks, addr));
    assert s2.copy == s1.copy && s2.stateinfo == ResetFirst(s.stateinfo, a);
    ResetExactly(s.stateinfo, a);
    DistinctResets(s1, i);
    StaleExactly(o, listenFD, s1, Recv(i, chunks, addr));
    GoneAfterLoss(o, listenFD, s1, i, chunks, addr);
    CopyBackTidy(o, s2);
  }

  lemma CopyTables(listenFD: int, s: State, copy: Copy)
    requires Tables(listenFD, s) && (copy.Copy? ==> |copy.table| == MAX_SYSTEM_NUM)
    ensures Tables(listenFD, s.(copy := copy))
  {
    var s' := s.(copy := copy);
    assert Held(s') == Held(s);
    forall j | 0 <= j < MAX_LISTENQ
      ensures SlotAgrees(listenFD, s', j)
    {
      assert SlotAgrees(listenFD, s, j);
    }
  }

  lemma GoneAfterLoss(o: ByteOrder, listenFD: int, s: State, i: nat, chunks: seq<IoResult>, addr: nat)
    requires Tables(listenFD, s) && Callable(s, Recv(i, chunks, addr)) && Occupied(s, i) && !Doubled(s, i)
    requires s.alist[i].acceptFD in s.net.conns && Received(o, s, i, chunks).1.n <= 0
    ensures !Live(Step(o, s, Recv(i, chunks, addr)), s.vmcSystem[i].systemaddr)
  {
    assert SlotAgrees(listenFD, s, i);
    var s' := Step(o, s, Recv(i, chunks, addr));
    LiveAfterFree(listenFD, s, i, s.vmcSystem[i].systemaddr);
    assert s'.alist == Freed(s, i).alist && s'.vmcSystem == Freed(s, i).vmcSystem;
    LiveSame(Freed(s, i), s', s.vmcSystem[i].systemaddr);
  }

  // ------------------------------------------------- the scan without the lock

  /** Every entry of the first table is in the second, unless it has been cleared there. */
  ghost predicate Upheld(before: seq<StateInfo>, after: seq<StateInfo>) {
    && |before| == |after|
    && forall j :: 0 <= j < |before| && before[j].vmIp != 0 ==> after[j].vmIp in {before[j].vmIp, 0}
  }

  /** The tail of `TcpRecv` compares entry by entry without the lock and takes it only to reset. What the table
      is in the end if it changes from `before` to `after` once `m` comparisons have been made. */
  function ScanAcross(before: seq<StateInfo>, after: seq<StateInfo>, addr: nat, m: nat): seq<StateInfo>
    requires |before| == |after| && m <= |before| && m <= FirstWithIp(before, addr) + 1
  {
    var j := FirstWithIp(before, addr);
    if j < m then after[j := BASE_STATE] else ScanFrom(after, addr, m)
  }

  function ScanFrom(table: seq<StateInfo>, addr: nat, m: nat): seq<StateInfo>
    requires m <= |table|
  {
    var k := m + FirstWithIp(table[m..], addr);
    if k < |table| then table[k := BASE_STATE] else table
  }

  /** A scan of `table` for `addr`, or none, ends in `last`. */
  predicate ScansLike(last: seq<StateInfo>, table: seq<StateInfo>, addr: nat) {
    last == table || last == ResetFirst(table, addr)
  }

  /** Such a scan ends as if all of it had come after the change, or none of it, except in one case: a lost
      connection without an address has matched a free entry, which a report has filled before the reset. */
  lemma ScanLinearizes(before: seq<StateInfo>, after: seq<StateInfo>, addr: nat, m: nat)
    requires Upheld(before, after) && Distinct(after) && m <= |before| && m <= FirstWithIp(before, addr) + 1
    ensures var j := FirstWithIp(before, addr);
            ScansLike(ScanAcross(before, after, addr, m), after, addr) <==> addr != 0 || j >= m || after[j].vmIp == 0
  {
    var j := FirstWithIp(before, addr);
    if j < m {
      assert before[j].vmIp == addr;
      MatchedBefore(after, addr, j);
    } else {
      MatchedBehind(after, addr, m);
    }
  }

  lemma MatchedBehind(after: seq<StateInfo>, addr: nat, m: nat)
    requires Distinct(after) && m <= |after|
    ensures ScansLike(ScanFrom(after, addr, m), after, addr)
  {
    var k := m + FirstWithIp(after[m..], addr);
    if k < |after| {
      assert after[m..][k - m] == after[k];
      MatchedBefore(after, addr, k);
    }
  }

  /** Resetting the entry that has matched, or has been cleared since, is what a scan of this table does. */
  lemma MatchedBefore(after: seq<StateInfo>, addr: nat, j: nat)
    requires Distinct(after) && j < |after| && (addr != 0 ==> after[j].vmIp in {addr, 0})
    ensures ScansLike(after[j := BASE_STATE], after, addr) <==> addr != 0 || after[j].vmIp == 0
  {
    if after[j].vmIp == 0 {
      assert after[j := BASE_STATE] == after;
    } else if addr != 0 {
      assert FirstWithIp(after, addr) == j;
    } else {
      assert after[j := BASE_STATE][j] != after[j];
      assert ResetFirst(after, 0) == after;
    }
  }

  /** Every address of `info` is in the same place of `table`. */
  ghost predicate Contains(table: seq<StateInfo>, info: seq<StateInfo>) {
    |info| == |table| && forall j :: 0 <= j < |info| && info[j].vmIp != 0 ==> table[j].vmIp == info[j].vmIp
  }

  /** In every run inside the guard, what goes back contains what is there. */
  ghost predicate CopyUpheld(s: State) {
    s.copy.Copy? ==> Contains(s.copy.table, s.stateinfo)
  }

  lemma UpheldReset(info: seq<StateInfo>, table: seq<StateInfo>, addr: nat)
    requires Contains(table, info)
    ensures Contains(table, ResetFirst(info, addr))
  {
  }

  lemma StepUpheld(o: ByteOrder, listenFD: int, s: State, e: Event)
    requires Callable(s, e) && Allowed(listenFD, s, e) && Contained(s, e) && CopyUpheld(s)
    ensures CopyUpheld(Step(o, s, e))
  {
    match e
    case Accept(_, _, _) => EntriesKept(o, s, e);
    case Send(_, _, _, _, _) => EntriesKept(o, s, e);
    case Recv(i, _, _) =>
      RecvEntries(o, s, e);
      if s.copy.Copy? {
        UpheldReset(s.stateinfo, s.copy.table, s.vmcSystem[i].systemaddr);
      }
    case CopyOut(_) =>
    case CopyBack =>
    case Hang(i, beyond) => assert Hung(s, i, beyond).stateinfo == s.stateinfo[0 := HungEntry(0)];
    case LateReset(_) =>
  }

  lemma {:induction false} UpheldUpTo(o: ByteOrder, listenFD: int, events: seq<Event>, k: nat)
    requires listenFD > 0 && ContainedRun(o, listenFD, events) && k <= |events|
    ensures CopyUpheld(Run(o, listenFD, events[..k]))
  {
    if k > 0 {
      UpheldUpTo(o, listenFD, events, k - 1);
      CleanUpTo(o, listenFD, events, k - 1);
      RunStep(o, listenFD, events, k - 1);
      if Happens(o, listenFD, events, k - 1) {
        StepUpheld(o, listenFD, Run(o, listenFD, events[..k - 1]), events[k - 1]);
      }
    }
  }

  /** A scan around a copy-back is one before it, one after it, or a `LateReset` behind it. */
  ghost predicate ScanAccounted(s: State, addr: nat, m: nat)
    requires s.Sized() && s.copy.Copy? && m <= MAX_SYSTEM_NUM && m <= FirstWithIp(s.stateinfo, addr) + 1
  {
    var after, j := CopiedBack(s), FirstWithIp(s.stateinfo, addr);
    var last := ScanAcross(s.stateinfo, after.stateinfo, addr, m);
    || ScansLike(last, after.stateinfo, addr)
    || (addr == 0 && j < m && last == ResetAt(after, j).stateinfo)
  }

  lemma ScanAround(s: State, addr: nat, m: nat)
    requires s.Sized() && s.copy.Copy? && m <= MAX_SYSTEM_NUM && m <= FirstWithIp(s.stateinfo, addr) + 1
    requires Distinct(CopiedBack(s).stateinfo) && CopyUpheld(s)
    ensures ScanAccounted(s, addr, m)
  {
    assert Upheld(s.stateinfo, CopiedBack(s).stateinfo);
    ScanLinearizes(s.stateinfo, CopiedBack(s).stateinfo, addr, m);
  }

  /** And so it is in every run inside the guard. */
  lemma ScanInRuns(o: ByteOrder, listenFD: int, events: seq<Event>, addr: nat, m: nat)
    requires listenFD > 0 && ContainedRun(o, listenFD, events)
    requires Callable(Run(o, listenFD, events), CopyBack) && Contained(Run(o, listenFD, events), CopyBack)
    requires m <= MAX_SYSTEM_NUM && m <= FirstWithIp(Run(o, listenFD, events).stateinfo, addr) + 1
    ensures ScanAccounted(Run(o, listenFD, events), addr, m)
  {
    assert events[..|events|] == events;
    CleanUpTo(o, listenFD, events, |events|);
    UpheldUpTo(o, listenFD, events, |events|);
    CopyBackClean(Run(o, listenFD, events));
    ScanAround(Run(o, listenFD, events), addr, m);
  }

  // --------------------------------------------------------------- a witness

  /** A run that leaves a state behind: one VM connects, sends a frame, its report is kept, and a send to it
      fails. */
  lemma StaleWitness(arrived: seq<Byte>, report: StateInfo, buf: seq<Byte>)
    requires arrived == [TCP_VERSION, 0, 0, 5, 1] && report.vmIp == 9 && |buf| == 12
    ensures !NoneStale(Run(BigEndian, 3,
              [Accept(4, 1000, arrived), Recv(0, [Moved(4), Moved(1)], 9), CopyOut(report), CopyBack,
               Send(0, buf, 12, [PollFailed(EPIPE)], [])]))
  {
    var es := [Accept(4, 1000, arrived), Recv(0, [Moved(4), Moved(1)], 9), CopyOut(report), CopyBack,
               Send(0, buf, 12, [PollFailed(EPIPE)], [])];
    var s2 := ConnectedVm(arrived, es);
    var s4 := ReportKept(es, s2, report);
    RunSafe(BigEndian, 3, es[..4]);
    DeadSendLeavesStale(BigEndian, 3, s4, 0, buf, 12);
    StaleAtEnd(es, s4);
  }

  lemma StaleAtEnd(es: seq<Event>, s4: State)
    requires |es| == 5 && s4 == Run(BigEndian, 3, es[..4]) && Allowed(3, s4, es[4]) && Callable(s4, es[4])
    requires !NoneStale(Step(BigEndian, s4, es[4]))
    ensures !NoneStale(Run(BigEndian, 3, es))
  {
    RunSnoc(BigEndian, 3, es, 4);
    assert es[..5] == es;
  }

  lemma ReportKept(es: seq<Event>, s2: State, report: StateInfo) returns (s4: State)
    requires |es| == 5 && es[2] == CopyOut(report) && es[3] == CopyBack && report.vmIp == 9
    requires s2 == Run(BigEndian, 3, es[..2]) && OneVm(s2)
    requires s2.stateinfo == Start(3).stateinfo && s2.copy == NoCopy
    ensures s4 == Run(BigEndian, 3, es[..4]) && OneVm(s4) && NoneStale(s4)
    ensures Distinct(s4.stateinfo) && !Sheltered(s4, 0)
  {
    var s3 := ReportCopied(es, s2, report);
    RunSnoc(BigEndian, 3, es, 3);
    s4 := CopiedBack(s3);
    ReportedVm(s2, report);
  }

  lemma ReportCopied(es: seq<Event>, s2: State, report: StateInfo) returns (s3: State)
    requires |es| == 5 && es[2] == CopyOut(report)
    requires s2 == Run(BigEndian, 3, es[..2]) && s2.copy == NoCopy
    ensures s3 == Run(BigEndian, 3, es[..3]) == CopiedOut(s2, report)
  {
    RunSnoc(BigEndian, 3, es, 2);
    s3 := CopiedOut(s2, report);
  }

  /** A state with one connection, in slot 0, that belongs to the VM at address 9. */
  ghost predicate OneVm(s: State) {
    s.Sized() && Occupied(s, 0) && s.vmcSystem[0].systemaddr == 9 && forall j :: Occupied(s, j) ==> j == 0
  }

  lemma ReportedVm(s: State, report: StateInfo)
    requires OneVm(s) && s.stateinfo == Start(3).stateinfo && report.vmIp == 9
    ensures var s' := CopiedBack(CopiedOut(s, report));
            OneVm(s') && NoneStale(s') && Distinct(s'.stateinfo) && !Sheltered(s', 0)
  {
    var s' := CopiedBack(CopiedOut(s, report));
    assert s.stateinfo[0].vmIp == 0;
    assert FirstWithIp(s.stateinfo, 0) == 0 && FirstWithIp(s.stateinfo, 9) == MAX_SYSTEM_NUM;
    assert s'.stateinfo[0].vmIp == 9;
    assert forall j :: Occupied(s', j) <==> Occupied(s, j);
  }

  lemma AcceptedVm(arrived: seq<Byte>, es: seq<Event>) returns (s1: State)
    requires |es| == 5 && es[0] == Accept(4, 1000, arrived)
    ensures s1 == Run(BigEndian, 3, es[..1])
    ensures s1.Sized() && s1.copy == NoCopy && s1.stateinfo == Start(3).stateinfo
    ensures s1.net.conns == map[4 := Opened(0, arrived)]
    ensures s1.alist[0] == Slot(4, 1, 0, 1000) && s1.vmcSystem[0] == VmcSystem(1, 0, 0)
    ensures forall j :: Occupied(s1, j) ==> j == 0
  {
    assert FirstFree(Start(3).alist) == 0;
    RunSnoc(BigEndian, 3, es, 0);
    s1 := Step(BigEndian, Start(3), es[0]);
  }

  lemma ConnectedVm(arrived: seq<Byte>, es: seq<Event>) returns (s2: State)
    requires arrived == [TCP_VERSION, 0, 0, 5, 1]
    requires |es| == 5 && es[0] == Accept(4, 1000, arrived) && es[1] == Recv(0, [Moved(4), Moved(1)], 9)
    ensures s2 == Run(BigEndian, 3, es[..2]) && OneVm(s2) && s2.stateinfo == Start(3).stateinfo && s2.copy == NoCopy
  {
    var s1 := AcceptedVm(arrived, es);
    FirstFrame(s1, arrived);
    RunSnoc(BigEndian, 3, es, 1);
    s2 := Step(BigEndian, s1, es[1]);
  }

  lemma FirstFrame(s: State, arrived: seq<Byte>)
    requires arrived == [TCP_VERSION, 0, 0, 5, 1] && s.Sized() && s.net.conns == map[4 := Opened(0, arrived)]
    requires s.alist[0] == Slot(4, 1, 0, 1000) && s.vmcSystem[0] == VmcSystem(1, 0, 0)
    requires forall j :: Occupied(s, j) ==> j == 0
    ensures var s' := Step(BigEndian, s, Recv(0, [Moved(4), Moved(1)], 9));
            OneVm(s') && s'.stateinfo == s.stateinfo && s'.copy == s.copy
  {
    ReceivesFive(arrived);
    var s' := Step(BigEndian, s, Recv(0, [Moved(4), Moved(1)], 9));
    assert s'.alist == s.alist[0 := Slot(4, 1, 9, 1000)];
    assert forall j :: Occupied(s', j) ==> Occupied(s, j);
  }

  lemma RunSnoc(o: ByteOrder, listenFD: int, es: seq<Event>, k: nat)
    requires listenFD > 0 && k < |es| && Allowed(listenFD, Run(o, listenFD, es[..k]), es[k])
    ensures Callable(Run(o, listenFD, es[..k]), es[k])
    ensures Run(o, listenFD, es[..k + 1]) == Step(o, Run(o, listenFD, es[..k]), es[k])
  {
    assert es[..k + 1][..k] == es[..k];
    RunSafe(o, listenFD, es[..k]);
  }

  lemma ReceivesFive(arrived: seq<Byte>)
    requires arrived == [TCP_VERSION, 0, 0, 5, 1]
    ensures RecvFrame(BigEndian, arrived, [Moved(4), Moved(1)]).n > 0
  {
    assert Declared(BigEndian, arrived) == 5;
    var chunks := [Moved(4), Moved(1)];
    assert chunks[1..] == [Moved(1)];
    assert FillFrom(4, 5, chunks, 0) == Fill(4, 4, [Moved(1)]) by {
      assert FillFrom(0, 1, chunks[1..], 4) == Fill(0, 4, chunks[1..]);
    }
    var rest: seq<IoResult> := [Moved(1)];
    assert FillFrom(1, 1, rest, 0) == Fill(1, 1, rest[1..]) by {
      assert FillFrom(0, 0, rest[1..], 1) == Fill(0, 1, rest[1..]);
    }
  }
}
