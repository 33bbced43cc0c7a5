/** What the queue does for its callers: a put that is not disturbed puts, and wakes a thread that waits; a get that
    is not disturbed gets the oldest block, at once or when woken. */
module FifoService {
  import opened FifoSystem

  /** The steps follow each other without another one in between and lead from `s` to `s'`. */
  ghost predicate Path(form: Form, s: Sys, steps: seq<Event>, s': Sys)
    decreases |steps|
  {
    if steps == [] then s' == s
    else
      var before, e := steps[..|steps| - 1], steps[|steps| - 1];
      exists m :: Path(form, s, before, m) && Followable(m, e) && s' == Step(form, m, e)
  }

  lemma PathLast(form: Form, s: Sys, steps: seq<Event>, s': Sys) returns (m: Sys)
    requires steps != [] && Path(form, s, steps, s')
    ensures Path(form, s, steps[..|steps| - 1], m) && Followable(m, steps[|steps| - 1])
    ensures s' == Step(form, m, steps[|steps| - 1])
  {
    m :| Path(form, s, steps[..|steps| - 1], m) && Followable(m, steps[|steps| - 1])
         && s' == Step(form, m, steps[|steps| - 1]);
  }

  datatype Call = Put | Get

  /** The step is one of thread `t` inside that call. */
  predicate PartOf(call: Call, t: Tid, e: Event) {
    && e.t == t
    && match call
       case Put => e.LockPut? || e.Link? || e.Signal? || e.SignalNobody? || e.UnlockPut?
       case Get => e.LockGet? || e.Check? || e.Timeout? || e.Wake? || e.Take? || e.UnlockGet? || e.Clear?
  }

  /** Thread `t`, undisturbed inside that call, gets from `s` to `s'`. */
  ghost predicate Leads(form: Form, s: Sys, call: Call, t: Tid, s': Sys) {
    exists steps :: Path(form, s, steps, s') && forall e :: e in steps ==> PartOf(call, t, e)
  }

  lemma LeadsNowhere(form: Form, s: Sys, call: Call, t: Tid)
    ensures Leads(form, s, call, t, s)
  {
    assert Path(form, s, [], s);
  }

  lemma LeadsOn(form: Form, s: Sys, call: Call, t: Tid, m: Sys, e: Event)
    requires Leads(form, s, call, t, m) && Followable(m, e) && PartOf(call, t, e)
    ensures Leads(form, s, call, t, Step(form, m, e))
  {
    var steps :| Path(form, s, steps, m) && forall e :: e in steps ==> PartOf(call, t, e);
    var longer := steps + [e];
    assert longer[..|longer| - 1] == steps;
    assert Path(form, s, longer, Step(form, m, e));
  }

  lemma RunOne(form: Form, threads: set<Tid>, events: seq<Event>, m: Sys, e: Event)
    requires m == Run(form, threads, events) && Followable(m, e)
    ensures Run(form, threads, events + [e]) == Step(form, m, e)
  {
    var longer := RunNext(form, threads, events, e);
  }

  lemma LastOf(events: seq<Event>, steps: seq<Event>)
    requires steps != []
    ensures (events + steps[..|steps| - 1]) + [steps[|steps| - 1]] == events + steps
  {
  }

  /** What is reached undisturbed from a run is reached by a run. */
  lemma {:induction false} RunFollows(form: Form, threads: set<Tid>, events: seq<Event>, s: Sys, steps: seq<Event>,
                                      s': Sys)
    requires s == Run(form, threads, events) && Path(form, s, steps, s')
    ensures Run(form, threads, events + steps) == s'
    decreases |steps|
  {
    if steps == [] {
      assert events + steps == events;
    } else {
      var before, e := steps[..|steps| - 1], steps[|steps| - 1];
      var m := PathLast(form, s, steps, s');
      RunFollows(form, threads, events, s, before, m);
      RunOne(form, threads, events + before, m, e);
      LastOf(events, steps);
    }
  }

  // -------------------------------------------------------------- single steps

  lemma LocksGet(form: Form, s: Sys, t: Tid, m: Sys) returns (n: Sys)
    requires Leads(form, s, Get, t, m) && t in m.pcs && m.pcs[t] == Idle && m.lock == Free
    ensures Leads(form, s, Get, t, n) && n == m.(lock := HeldBy(t), pcs := m.pcs[t := Checking])
  {
    LeadsOn(form, s, Get, t, m, LockGet(t));
    n := Step(form, m, LockGet(t));
  }

  lemma Checks(form: Form, s: Sys, t: Tid, m: Sys) returns (n: Sys)
    requires Leads(form, s, Get, t, m) && t in m.pcs && m.pcs[t] == Checking
    ensures Leads(form, s, Get, t, n)
    ensures n == if m.first == Null then m.(lock := Free, pcs := m.pcs[t := Waiting])
                 else m.(pcs := m.pcs[t := Taking])
  {
    LeadsOn(form, s, Get, t, m, Check(t));
    n := Step(form, m, Check(t));
  }

  lemma TimesOut(form: Form, s: Sys, t: Tid, m: Sys) returns (n: Sys)
    requires Leads(form, s, Get, t, m) && t in m.pcs && m.pcs[t] == Waiting && m.lock == Free
    ensures Leads(form, s, Get, t, n) && n == m.(pcs := m.pcs[t := Idle])
  {
    LeadsOn(form, s, Get, t, m, Timeout(t));
    n := Step(form, m, Timeout(t));
  }

  lemma WakesUp(form: Form, s: Sys, t: Tid, m: Sys) returns (n: Sys)
    requires Leads(form, s, Get, t, m) && t in m.pcs && m.pcs[t] == Signalled && m.lock == Free
    ensures Leads(form, s, Get, t, n)
    ensures n == m.(lock := HeldBy(t), pcs := m.pcs[t := if form == TestOnce then Taking else Checking])
  {
    LeadsOn(form, s, Get, t, m, Wake(t));
    n := Step(form, m, Wake(t));
  }

  /** A block is queued, and `p_first` points at it. */
  predicate HeadThere(s: Sys) {
    s.queue != [] && s.first == To(s.queue[0]) && s.queue[0] in s.info && s.queue[0] in s.next
  }

  lemma Takes(form: Form, s: Sys, t: Tid, m: Sys) returns (n: Sys)
    requires Leads(form, s, Get, t, m) && t in m.pcs && m.pcs[t] == Taking && HeadThere(m)
    ensures Leads(form, s, Get, t, n)
    ensures n.lock == m.lock && n.pcs == m.pcs[t := GetUnlocking(m.queue[0])] && n.queue == m.queue[1..]
    ensures n.out == m.out + [Taken(m.queue[0])] && n.info == m.info && n.put == m.put && n.released == m.released
  {
    LeadsOn(form, s, Get, t, m, Take(t));
    n := Step(form, m, Take(t));
  }

  lemma UnlocksGet(form: Form, s: Sys, t: Tid, m: Sys, b: Id) returns (n: Sys)
    requires Leads(form, s, Get, t, m) && t in m.pcs && m.pcs[t] == GetUnlocking(b)
    ensures Leads(form, s, Get, t, n) && n == m.(lock := Free, pcs := m.pcs[t := Clearing(b)])
  {
    LeadsOn(form, s, Get, t, m, UnlockGet(t));
    n := Step(form, m, UnlockGet(t));
  }

  lemma Clears(form: Form, s: Sys, t: Tid, m: Sys, b: Id) returns (n: Sys)
    requires Leads(form, s, Get, t, m) && t in m.pcs && m.pcs[t] == Clearing(b)
    ensures Leads(form, s, Get, t, n) && n == m.(next := m.next[b := Null], pcs := m.pcs[t := Holding(b)])
  {
    LeadsOn(form, s, Get, t, m, Clear(t));
    n := Step(form, m, Clear(t));
  }

  lemma LocksPut(form: Form, s: Sys, t: Tid, m: Sys, b: Id) returns (n: Sys)
    requires Leads(form, s, Put, t, m) && t in m.pcs && m.pcs[t] == Prepared(b) && m.lock == Free
    ensures Leads(form, s, Put, t, n) && n == m.(lock := HeldBy(t), pcs := m.pcs[t := Linking(b)])
  {
    LeadsOn(form, s, Put, t, m, LockPut(t));
    n := Step(form, m, LockPut(t));
  }

  lemma Links(form: Form, s: Sys, t: Tid, m: Sys, b: Id) returns (n: Sys)
    requires Leads(form, s, Put, t, m) && t in m.pcs && m.pcs[t] == Linking(b) && b in m.info
    ensures Leads(form, s, Put, t, n)
    ensures n.lock == m.lock && n.pcs == m.pcs[t := Signalling] && n.queue == m.queue + [b] && n.put == m.put + [b]
    ensures n.out == m.out && n.info == m.info && n.released == m.released
  {
    LeadsOn(form, s, Put, t, m, Link(t));
    n := Step(form, m, Link(t));
  }

  /** `w` waits, or nobody does. */
  predicate Wakes(s: Sys, w: Tid) {
    w in s.pcs && (s.pcs[w] == Waiting || forall x :: x in s.pcs ==> s.pcs[x] != Waiting)
  }

  /** The threads after a signal: `w`, if it waited, has been signalled. */
  function Woke(pcs: map<Tid, Pc>, w: Tid): map<Tid, Pc> {
    if w in pcs && pcs[w] == Waiting then pcs[w := Signalled] else pcs
  }

  lemma Signals(form: Form, s: Sys, t: Tid, m: Sys, w: Tid) returns (n: Sys)
    requires Leads(form, s, Put, t, m) && t in m.pcs && m.pcs[t] == Signalling && Wakes(m, w)
    ensures Leads(form, s, Put, t, n) && n == m.(pcs := Woke(m.pcs, w)[t := PutUnlocking])
  {
    if m.pcs[w] == Waiting {
      LeadsOn(form, s, Put, t, m, Signal(t, w));
      n := Step(form, m, Signal(t, w));
    } else {
      LeadsOn(form, s, Put, t, m, SignalNobody(t));
      n := Step(form, m, SignalNobody(t));
    }
  }

  lemma UnlocksPut(form: Form, s: Sys, t: Tid, m: Sys) returns (n: Sys)
    requires Leads(form, s, Put, t, m) && t in m.pcs && m.pcs[t] == PutUnlocking
    ensures Leads(form, s, Put, t, n) && n == m.(lock := Free, pcs := m.pcs[t := Idle])
  {
    LeadsOn(form, s, Put, t, m, UnlockPut(t));
    n := Step(form, m, UnlockPut(t));
  }

  // --------------------------------------------------------------- whole calls

  /** `s'` has served thread `t` with the oldest block of `s`: it is out of the queue and in the thread's hands,
      and the lock is free. */
  ghost predicate Served(s: Sys, t: Tid, s': Sys) {
    && s.queue != [] && s'.lock == Free && s'.pcs == s.pcs[t := Holding(s.queue[0])]
    && s'.queue == s.queue[1..] && s'.out == s.out + [Taken(s.queue[0])]
    && s'.info == s.info && s'.put == s.put && s'.released == s.released
  }

  lemma TakeServes(form: Form, s: Sys, t: Tid, m: Sys) returns (s': Sys)
    requires Leads(form, s, Get, t, m) && t in s.pcs && HeadThere(s)
    requires m == s.(lock := HeldBy(t), pcs := s.pcs[t := Taking])
    ensures Leads(form, s, Get, t, s') && Served(s, t, s')
  {
    var n := Takes(form, s, t, m);
    s' := Returns(form, s, t, n, s.queue[0]);
    PcTwice(s.pcs, t, Taking, GetUnlocking(s.queue[0]));
    PcTwice(s.pcs, t, GetUnlocking(s.queue[0]), Holding(s.queue[0]));
  }

  lemma Returns(form: Form, s: Sys, t: Tid, m: Sys, b: Id) returns (n: Sys)
    requires Leads(form, s, Get, t, m) && t in m.pcs && m.pcs[t] == GetUnlocking(b)
    ensures Leads(form, s, Get, t, n)
    ensures n == m.(lock := Free, next := m.next[b := Null], pcs := m.pcs[t := Holding(b)])
  {
    var k := UnlocksGet(form, s, t, m, b);
    n := Clears(form, s, t, k, b);
    PcTwice(m.pcs, t, Clearing(b), Holding(b));
  }

  lemma PcTwice(pcs: map<Tid, Pc>, t: Tid, a: Pc, b: Pc)
    ensures pcs[t := a][t := b] == pcs[t := b]
  {
  }

  lemma HeadFound(s: Sys)
    requires Represents(s)
    ensures s.first == Null <==> s.queue == []
    ensures s.queue != [] ==> HeadThere(s)
  {
  }

  /** A thread that calls `block_FifoGet` while blocks are queued, and is not disturbed, returns with the oldest. */
  lemma GetServes(form: Form, s: Sys, t: Tid) returns (s': Sys)
    requires Inv(s) && t in s.pcs && s.pcs[t] == Idle && s.lock == Free && s.queue != []
    ensures Leads(form, s, Get, t, s') && Served(s, t, s')
  {
    HeadFound(s);
    s' := GetFinds(form, s, t);
    s' := TakeServes(form, s, t, s');
  }

  lemma GetFinds(form: Form, s: Sys, t: Tid) returns (m: Sys)
    requires t in s.pcs && s.pcs[t] == Idle && s.lock == Free && s.first != Null
    ensures Leads(form, s, Get, t, m) && m == s.(lock := HeldBy(t), pcs := s.pcs[t := Taking])
  {
    LeadsNowhere(form, s, Get, t);
    m := LocksGet(form, s, t, s);
    m := Checks(form, s, t, m);
    PcTwice(s.pcs, t, Checking, Taking);
  }

  /** If nothing is queued it waits, and if that times out nothing has changed. */
  lemma GetTimesOut(form: Form, s: Sys, t: Tid)
    requires Inv(s) && t in s.pcs && s.pcs[t] == Idle && s.lock == Free && s.queue == []
    ensures Leads(form, s, Get, t, s.(pcs := s.pcs[t := Waiting]))
    ensures exists m ::
              m == s.(pcs := s.pcs[t := Waiting]) && Followable(m, Timeout(t)) && Step(form, m, Timeout(t)) == s
  {
    HeadFound(s);
    GetWaits(form, s, t);
    var m := s.(pcs := s.pcs[t := Waiting]);
    assert m.pcs[t := Idle] == s.pcs;
    assert Step(form, m, Timeout(t)) == s;
  }

  lemma GetWaits(form: Form, s: Sys, t: Tid)
    requires t in s.pcs && s.pcs[t] == Idle && s.lock == Free && s.first == Null
    ensures Leads(form, s, Get, t, s.(pcs := s.pcs[t := Waiting]))
  {
    LeadsNowhere(form, s, Get, t);
    var m := LocksGet(form, s, t, s);
    m := Checks(form, s, t, m);
    PcTwice(s.pcs, t, Checking, Waiting);
    assert m == s.(pcs := s.pcs[t := Waiting]);
  }

  /** A thread that has been signalled, and finds the queue as its signaller left it, returns with the oldest. */
  lemma WokenServes(form: Form, s: Sys, t: Tid) returns (s': Sys)
    requires Inv(s) && t in s.pcs && s.pcs[t] == Signalled && s.lock == Free && s.queue != []
    ensures Leads(form, s, Get, t, s') && Served(s, t, s')
  {
    HeadFound(s);
    s' := WokenFinds(form, s, t);
    s' := TakeServes(form, s, t, s');
  }

  lemma WokenFinds(form: Form, s: Sys, t: Tid) returns (m: Sys)
    requires t in s.pcs && s.pcs[t] == Signalled && s.lock == Free && s.first != Null
    ensures Leads(form, s, Get, t, m) && m == s.(lock := HeldBy(t), pcs := s.pcs[t := Taking])
  {
    LeadsNowhere(form, s, Get, t);
    m := WakesUp(form, s, t, s);
    if form == TestAgain {
      m := Checks(form, s, t, m);
      PcTwice(s.pcs, t, Checking, Taking);
    }
  }

  /** `s'` has the block `b` of thread `t` at the end of the queue; the thread is done, and `w`, if it waited, has
      been signalled. */
  ghost predicate Queueing(s: Sys, t: Tid, b: Id, w: Tid, s': Sys) {
    && s'.lock == Free && s'.pcs == Woke(s.pcs, w)[t := Idle]
    && s'.queue == s.queue + [b] && s'.put == s.put + [b] && s'.out == s.out
    && s'.info == s.info && s'.released == s.released
  }

  /** A thread that calls `block_FifoPut`, and is not disturbed, has queued its block; and if some thread waits,
      one that does has been signalled. */
  lemma PutServes(form: Form, s: Sys, t: Tid, b: Id, w: Tid) returns (s': Sys)
    requires Inv(s) && t in s.pcs && s.pcs[t] == Prepared(b) && s.lock == Free && Wakes(s, w)
    ensures Leads(form, s, Put, t, s') && Queueing(s, t, b, w, s')
  {
    assert b in s.place;
    var m := PutLinks(form, s, t, b);
    StillWakes(s, t, w, m);
    s' := Signals(form, s, t, m, w);
    s' := UnlocksPut(form, s, t, s');
  }

  lemma PutLinks(form: Form, s: Sys, t: Tid, b: Id) returns (m: Sys)
    requires b in s.info && t in s.pcs && s.pcs[t] == Prepared(b) && s.lock == Free
    ensures Leads(form, s, Put, t, m)
    ensures m.pcs == s.pcs[t := Signalling] && m.queue == s.queue + [b] && m.put == s.put + [b]
    ensures m.out == s.out && m.info == s.info && m.released == s.released
  {
    LeadsNowhere(form, s, Put, t);
    m := LocksPut(form, s, t, s, b);
    m := Links(form, s, t, m, b);
    PcTwice(s.pcs, t, Linking(b), Signalling);
  }

  lemma StillWakes(s: Sys, t: Tid, w: Tid, m: Sys)
    requires t in s.pcs && s.pcs[t] != Waiting && Wakes(s, w) && m.pcs == s.pcs[t := Signalling]
    ensures Wakes(m, w)
    ensures Woke(m.pcs, w)[t := PutUnlocking][t := Idle] == Woke(s.pcs, w)[t := Idle]
  {
  }
}
