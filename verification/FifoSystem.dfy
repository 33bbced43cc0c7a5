/** `host_fifo.c` under concurrency: any number of threads put, take and empty, in any interleaving of the
    steps between two lock operations, over the same pointers as the heap version. */
module FifoSystem {
  import opened Sequences
  import opened Tpkt

  type Tid = nat
  type Id = nat

  datatype Ptr = Null | To(id: Id)
  datatype Tail = AtFirst | AtNext(id: Id)
  datatype Lock = Free | HeldBy(t: Tid)
  datatype Info = Info(size: Word, alistIdx: int)
  datatype Departure = Taken(id: Id) | Dropped(id: Id)

  /** The compiled form of `block_FifoGet` tests for an empty queue once; the disabled one in a loop. */
  datatype Form = TestOnce | TestAgain

  /** Where a thread is. The block in a `Pc` is one that only this thread can reach. */
  datatype Pc =
    | Idle
    | Filling(b: Id)     // tcp_PutFifo: made, about to store the connection slot
    | Prepared(b: Id)    // filled in, about to lock
    | Linking(b: Id)     // block_FifoPut: lock held, before the stores
    | Signalling         // about to signal
    | PutUnlocking
    | Checking           // block_FifoGet: lock held, before the test
    | Waiting            // inside the timed wait
    | Signalled          // woken, still without the lock
    | Taking             // lock held, about to read p_first
    | GetUnlocking(b: Id)
    | Clearing(b: Id)    // unlocked, about to set p_next to NULL
    | Holding(b: Id)     // returned to the caller
    | Emptying           // block_FifoEmpty: lock held, before the loop
    | EmptyUnlocking
    | Crashed            // read through a null p_first

  /** Who is responsible for a block. */
  datatype Place = With(t: Tid) | Queued | Gone

  /** The lock, the threads and the memory, and below them what is recorded for the specification: the blocks
      ever allocated, where each is, how often each was released, the queue, and the blocks put and removed. */
  datatype Sys = Sys(
    lock: Lock, pcs: map<Tid, Pc>,
    first: Ptr, last: Tail, next: map<Id, Ptr>, depth: int, size: int,
    info: map<Id, Info>, place: map<Id, Place>, released: multiset<Id>,
    queue: seq<Id>, put: seq<Id>, out: seq<Departure>)

  function Start(threads: set<Tid>): Sys {
    Sys(Free, map t | t in threads :: Idle, Null, AtFirst, map[], 0, 0, map[], map[], multiset{}, [], [], [])
  }

  datatype Event =
    | New(t: Tid, id: Id, header: Info)
    | Store(t: Tid, idx: int)
    | LockPut(t: Tid)
    | Link(t: Tid)
    | Signal(t: Tid, waiter: Tid)
    | SignalNobody(t: Tid)
    | UnlockPut(t: Tid)
    | LockGet(t: Tid)
    | Check(t: Tid)
    | Timeout(t: Tid)
    | Wake(t: Tid)
    | Spurious(t: Tid)
    | Take(t: Tid)
    | UnlockGet(t: Tid)
    | Clear(t: Tid)
    | Release(t: Tid)
    | LockEmpty(t: Tid)
    | Empty(t: Tid)
    | UnlockEmpty(t: Tid)

  predicate Enabled(s: Sys, e: Event) {
    e.t in s.pcs &&
    var pc := s.pcs[e.t];
    match e
    case New(_, id, _) => pc == Idle && id !in s.info
    case Store(_, _) => pc.Filling?
    case LockPut(_) => pc.Prepared? && s.lock == Free
    case Link(_) => pc.Linking?
    case Signal(_, w) => pc == Signalling && w in s.pcs && s.pcs[w] == Waiting
    case SignalNobody(_) => pc == Signalling && forall w :: w in s.pcs ==> s.pcs[w] != Waiting
    case UnlockPut(_) => pc == PutUnlocking
    case LockGet(_) => pc == Idle && s.lock == Free
    case Check(_) => pc == Checking
    case Timeout(_) => pc == Waiting && s.lock == Free
    case Wake(_) => pc == Signalled && s.lock == Free
    case Spurious(_) => pc == Waiting && s.lock == Free
    case Take(_) => pc == Taking
    case UnlockGet(_) => pc.GetUnlocking?
    case Clear(_) => pc.Clearing?
    case Release(_) => pc.Holding?
    case LockEmpty(_) => pc == Idle && s.lock == Free
    case Empty(_) => pc == Emptying
    case UnlockEmpty(_) => pc == EmptyUnlocking
  }

  function At(s: Sys, t: Tid, pc: Pc): Sys {
    s.(pcs := s.pcs[t := pc])
  }

  /** One round of the loop in `block_FifoPut`, for a block with a null `p_next`. */
  function Linked(s: Sys, b: Id): Sys
    requires b in s.info
  {
    s.(first := if s.last == AtFirst then To(b) else s.first,
       next := if s.last == AtFirst then s.next else s.next[s.last.id := To(b)],
       last := AtNext(b), depth := s.depth + 1, size := s.size + s.info[b].size,
       place := s.place[b := Queued], queue := s.queue + [b], put := s.put + [b])
  }

  /** Lines 191 to 199: the first block is unlinked. */
  function Unlinked(s: Sys, t: Tid, b: Id): Sys
    requires b in s.info && b in s.next && s.queue != []
  {
    s.(first := s.next[b], last := if s.next[b] == Null then AtFirst else s.last,
       depth := s.depth - 1, size := s.size - s.info[b].size,
       place := s.place[b := With(t)], queue := s.queue[1..], out := s.out + [Taken(b)])
  }

  function Dropping(q: seq<Id>): seq<Departure> {
    seq(|q|, i requires 0 <= i < |q| => Dropped(q[i]))
  }

  function Emptied(s: Sys): Sys {
    s.(first := Null, last := AtFirst, depth := 0, size := 0,
       place := map b | b in s.place :: if s.place[b] == Queued then Gone else s.place[b],
       released := s.released + multiset(s.queue), queue := [], out := s.out + Dropping(s.queue))
  }

  function Made(s: Sys, t: Tid, id: Id, header: Info): Sys {
    s.(info := s.info[id := header], next := s.next[id := Null], place := s.place[id := With(t)])
  }

  function Labelled(s: Sys, b: Id, idx: int): Sys
    requires b in s.info
  {
    s.(info := s.info[b := Info(s.info[b].size, idx)])
  }

  function Cleared(s: Sys, b: Id): Sys {
    s.(next := s.next[b := Null])
  }

  function Given(s: Sys, b: Id): Sys {
    s.(released := s.released + multiset{b}, place := s.place[b := Gone])
  }

  function Locked(s: Sys, lock: Lock): Sys {
    s.(lock := lock)
  }

  /** What a step needs of the pointers it follows. */
  predicate Followable(s: Sys, e: Event) {
    && Enabled(s, e)
    && (e.Link? || e.Store? ==> s.pcs[e.t].b in s.info)
    && (e.Take? && s.first != Null ==> s.first.id in s.info && s.first.id in s.next && s.queue != [])
  }

  function Step(form: Form, s: Sys, e: Event): Sys
    requires Followable(s, e)
  {
    var t := e.t;
    match e
    case New(_, id, header) => At(Made(s, t, id, header), t, Filling(id))
    case Store(_, idx) => At(Labelled(s, s.pcs[t].b, idx), t, Prepared(s.pcs[t].b))
    case LockPut(_) => Locked(At(s, t, Linking(s.pcs[t].b)), HeldBy(t))
    case Link(_) => At(Linked(s, s.pcs[t].b), t, Signalling)
    case Signal(_, w) => At(At(s, w, Signalled), t, PutUnlocking)
    case SignalNobody(_) => At(s, t, PutUnlocking)
    case UnlockPut(_) => Locked(At(s, t, Idle), Free)
    case LockGet(_) => Locked(At(s, t, Checking), HeldBy(t))
    case Check(_) => if s.first == Null then Locked(At(s, t, Waiting), Free) else At(s, t, Taking)
    case Timeout(_) => At(s, t, Idle)
    case Wake(_) => Woken(form, s, t)
    case Spurious(_) => Woken(form, s, t)
    case Take(_) =>
      if s.first == Null then At(s, t, Crashed)
      else At(Unlinked(s, t, s.first.id), t, GetUnlocking(s.first.id))
    case UnlockGet(_) => Locked(At(s, t, Clearing(s.pcs[t].b)), Free)
    case Clear(_) => At(Cleared(s, s.pcs[t].b), t, Holding(s.pcs[t].b))
    case Release(_) => At(Given(s, s.pcs[t].b), t, Idle)
    case LockEmpty(_) => Locked(At(s, t, Emptying), HeldBy(t))
    case Empty(_) => At(Emptied(s), t, EmptyUnlocking)
    case UnlockEmpty(_) => Locked(At(s, t, Idle), Free)
  }

  /** The timed wait returns 0: the lock is taken again and, in the compiled form, the head is read unchecked. */
  function Woken(form: Form, s: Sys, t: Tid): Sys {
    Locked(At(s, t, if form == TestOnce then Taking else Checking), HeldBy(t))
  }

  // -------------------------------------------------------------- invariant

  predicate HoldsLock(pc: Pc) {
    pc.Linking? || pc == Signalling || pc == PutUnlocking || pc == Checking || pc == Taking
    || pc.GetUnlocking? || pc == Emptying || pc == EmptyUnlocking || pc == Crashed
  }

  predicate HasBlock(pc: Pc) {
    pc.Filling? || pc.Prepared? || pc.Linking? || pc.GetUnlocking? || pc.Clearing? || pc.Holding?
  }

  function SizeOf(info: map<Id, Info>, q: seq<Id>): nat
    requires forall b :: b in q ==> b in info
  {
    if q == [] then 0 else info[q[0]].size + SizeOf(info, q[1..])
  }

  function Successor(q: seq<Id>, i: int): Ptr {
    if 0 <= i + 1 < |q| then To(q[i + 1]) else Null
  }

  /** The pointers and counters describe the abstract queue. */
  ghost predicate Represents(s: Sys) {
    && s.info.Keys == s.next.Keys
    && (forall b :: b in s.queue ==> b in s.info)
    && s.first == Successor(s.queue, -1)
    && s.last == (if s.queue == [] then AtFirst else AtNext(s.queue[|s.queue| - 1]))
    && (forall i {:trigger s.next[s.queue[i]]} :: 0 <= i < |s.queue| ==> s.next[s.queue[i]] == Successor(s.queue, i))
    && s.depth == |s.queue| && s.size == SizeOf(s.info, s.queue)
  }

  /** Every block ever allocated is in exactly one place: with one thread, once in the queue, or released once. */
  ghost predicate Conserved(s: Sys) {
    && s.place.Keys == s.info.Keys && NoRepeats(s.queue)
    && (forall t :: t in s.pcs && HasBlock(s.pcs[t]) ==> s.pcs[t].b in s.place && s.place[s.pcs[t].b] == With(t))
    && (forall b :: b in s.place && s.place[b].With? ==>
          var t := s.place[b].t; t in s.pcs && HasBlock(s.pcs[t]) && s.pcs[t].b == b)
    && (forall b :: b in s.queue <==> b in s.place && s.place[b] == Queued)
    && (forall b :: s.released[b] == if b in s.place && s.place[b] == Gone then 1 else 0)
  }

  /** Just the thread that has the lock is inside a critical section. */
  ghost predicate Exclusive(s: Sys) {
    forall t :: t in s.pcs ==> (HoldsLock(s.pcs[t]) <==> s.lock == HeldBy(t))
  }

  function Ids(out: seq<Departure>): seq<Id> {
    seq(|out|, i requires 0 <= i < |out| => out[i].id)
  }

  /** Blocks leave in the order in which they were put. */
  ghost predicate InOrder(s: Sys) {
    s.put == Ids(s.out) + s.queue
  }

  /** A block on its way into the queue, or in its taker's hands, ends in null. */
  ghost predicate Terminated(s: Sys) {
    forall t :: t in s.pcs && (s.pcs[t].Filling? || s.pcs[t].Prepared? || s.pcs[t].Linking? || s.pcs[t].Holding?) ==>
      s.pcs[t].b in s.next && s.next[s.pcs[t].b] == Null
  }

  ghost predicate Inv(s: Sys) {
    Represents(s) && Conserved(s) && Exclusive(s) && InOrder(s) && Terminated(s)
  }

  // ------------------------------------------------------------ step lemmas

  lemma {:induction false} SizeOfAppend(info: map<Id, Info>, q: seq<Id>, b: Id)
    requires forall c :: c in q + [b] ==> c in info
    ensures (forall c :: c in q ==> c in info) && SizeOf(info, q + [b]) == SizeOf(info, q) + info[b].size
  {
    assert forall c :: c in q ==> c in q + [b];
    assert b in q + [b];
    if q == [] {
      assert [b][1..] == [];
    } else {
      assert (q + [b])[1..] == q[1..] + [b];
      SizeOfAppend(info, q[1..], b);
    }
  }

  lemma {:induction false} SizeOfGrown(info: map<Id, Info>, q: seq<Id>, id: Id, header: Info)
    requires id !in info && forall c :: c in q ==> c in info
    ensures SizeOf(info[id := header], q) == SizeOf(info, q)
  {
    if q != [] {
      SizeOfGrown(info, q[1..], id, header);
    }
  }

  lemma MovedExclusive(s: Sys, s': Sys, t: Tid, pc: Pc)
    requires Exclusive(s) && t in s.pcs && s'.pcs == s.pcs[t := pc]
    requires HoldsLock(pc) <==> s'.lock == HeldBy(t)
    requires s'.lock == s.lock || (s'.lock == Free && s.lock == HeldBy(t)) || (s'.lock == HeldBy(t) && s.lock == Free)
    ensures Exclusive(s')
  {
  }

  lemma MovedConserved(s: Sys, s': Sys, t: Tid, pc: Pc)
    requires Conserved(s) && t in s.pcs && s'.pcs == s.pcs[t := pc]
    requires s'.queue == s.queue && s'.released == s.released && s'.info == s.info && s'.place == s.place
    requires HasBlock(pc) == HasBlock(s.pcs[t]) && (HasBlock(pc) ==> pc.b == s.pcs[t].b)
    ensures Conserved(s')
  {
  }

  /** Steps that change only where a thread is and who has the lock. */
  lemma MoveKeeps(s: Sys, t: Tid, pc: Pc, lock: Lock)
    requires Inv(s) && t in s.pcs
    requires HasBlock(pc) == HasBlock(s.pcs[t]) && (HasBlock(pc) ==> pc.b == s.pcs[t].b)
    requires HoldsLock(pc) <==> lock == HeldBy(t)
    requires lock == s.lock || (lock == Free && s.lock == HeldBy(t)) || (lock == HeldBy(t) && s.lock == Free)
    requires !pc.Filling? && !pc.Holding? && (pc.Prepared? || pc.Linking? ==> s.pcs[t].Prepared? || s.pcs[t].Linking?)
    ensures Inv(Locked(At(s, t, pc), lock))
  {
    var s' := Locked(At(s, t, pc), lock);
    MovedExclusive(s, s', t, pc);
    MovedConserved(s, s', t, pc);
    assert Terminated(s');
  }

  lemma NewConserved(s: Sys, t: Tid, id: Id, header: Info)
    requires Conserved(s) && t in s.pcs && s.pcs[t] == Idle && id !in s.info
    ensures Conserved(At(Made(s, t, id, header), t, Filling(id)))
  {
  }

  lemma NewKeeps(s: Sys, t: Tid, id: Id, header: Info)
    requires Inv(s) && t in s.pcs && s.pcs[t] == Idle && id !in s.info && s.lock != HeldBy(t)
    ensures Inv(At(Made(s, t, id, header), t, Filling(id)))
  {
    var s' := At(Made(s, t, id, header), t, Filling(id));
    MadeRepresents(s, t, id, header);
    MovedExclusive(s, s', t, Filling(id));
    NewConserved(s, t, id, header);
    assert Represents(s') && Terminated(s');
  }

  lemma MadeRepresents(s: Sys, t: Tid, id: Id, header: Info)
    requires Represents(s) && id !in s.info
    ensures Represents(Made(s, t, id, header))
  {
    SizeOfGrown(s.info, s.queue, id, header);
  }

  lemma {:induction false} SizeOfSame(info: map<Id, Info>, info': map<Id, Info>, q: seq<Id>)
    requires forall b :: b in q ==> b in info && b in info' && info'[b].size == info[b].size
    ensures SizeOf(info', q) == SizeOf(info, q)
  {
    if q != [] {
      SizeOfSame(info, info', q[1..]);
    }
  }

  lemma LabelledRepresents(s: Sys, b: Id, idx: int)
    requires Represents(s) && b in s.info
    ensures Represents(Labelled(s, b, idx))
  {
    SizeOfSame(s.info, Labelled(s, b, idx).info, s.queue);
  }

  lemma LabelledConserved(s: Sys, t: Tid, b: Id, idx: int)
    requires Conserved(s) && t in s.pcs && s.pcs[t] == Filling(b) && b in s.info
    ensures Conserved(At(Labelled(s, b, idx), t, Prepared(b)))
  {
    assert Labelled(s, b, idx).info.Keys == s.info.Keys;
  }

  lemma StoreKeeps(s: Sys, t: Tid, b: Id, idx: int)
    requires Inv(s) && t in s.pcs && s.pcs[t] == Filling(b)
    ensures b in s.info && Inv(At(Labelled(s, b, idx), t, Prepared(b)))
  {
    assert b in s.place;
    var s' := At(Labelled(s, b, idx), t, Prepared(b));
    LabelledRepresents(s, b, idx);
    LabelledConserved(s, t, b, idx);
    MovedExclusive(s, s', t, Prepared(b));
    assert Represents(s') && Terminated(s');
  }

  lemma LinkRepresents(s: Sys, b: Id)
    requires Represents(s) && NoRepeats(s.queue) && b in s.info && b !in s.queue && s.next[b] == Null
    ensures Represents(Linked(s, b))
  {
    SizeOfAppend(s.info, s.queue, b);
    var s' := Linked(s, b);
    forall i | 0 <= i < |s'.queue|
      ensures s'.next[s'.queue[i]] == Successor(s'.queue, i)
    {
      if i < |s.queue| {
        assert s'.queue[i] == s.queue[i] && s.queue[i] in s.queue;
        if i < |s.queue| - 1 {
          assert s.next[s.queue[i]] == Successor(s.queue, i);
          assert s'.queue[i + 1] == s.queue[i + 1];
        }
      }
    }
  }

  /** A thread hands its block over to the queue. */
  lemma LinkConserved(s: Sys, t: Tid, b: Id)
    requires Conserved(s) && t in s.pcs && s.pcs[t] == Linking(b) && b in s.info && b !in s.queue
    ensures Conserved(At(Linked(s, b), t, Signalling))
  {
    var s' := At(Linked(s, b), t, Signalling);
    assert forall c :: c in s'.queue <==> c in s.queue || c == b;
    AppendNew(s.queue, b);
  }

  lemma LinkTerminated(s: Sys, t: Tid, b: Id)
    requires Represents(s) && Conserved(s) && Terminated(s) && t in s.pcs && s.pcs[t] == Linking(b) && b in s.info
    ensures Terminated(At(Linked(s, b), t, Signalling))
  {
    assert s.last.AtNext? ==> s.last.id in s.queue;
  }

  lemma OrderAfterPut(s: Sys, b: Id)
    requires InOrder(s)
    ensures s.put + [b] == Ids(s.out) + (s.queue + [b])
  {
  }

  lemma OrderAfterTake(s: Sys, b: Id)
    requires InOrder(s) && s.queue != [] && b == s.queue[0]
    ensures s.put == Ids(s.out + [Taken(b)]) + s.queue[1..]
  {
    assert Ids(s.out + [Taken(b)]) == Ids(s.out) + [b];
    assert s.queue == [b] + s.queue[1..];
  }

  lemma OrderAfterEmpty(s: Sys)
    requires InOrder(s)
    ensures s.put == Ids(s.out + Dropping(s.queue)) + []
  {
    assert Ids(s.out + Dropping(s.queue)) == Ids(s.out) + s.queue;
  }

  lemma LinkKeeps(s: Sys, t: Tid, b: Id)
    requires Inv(s) && t in s.pcs && s.pcs[t] == Linking(b)
    ensures b in s.info && Inv(At(Linked(s, b), t, Signalling))
  {
    assert b in s.place && s.place[b] == With(t);
    LinkRepresents(s, b);
    LinkConserved(s, t, b);
    var s' := At(Linked(s, b), t, Signalling);
    MovedExclusive(s, s', t, Signalling);
    OrderAfterPut(s, b);
    LinkTerminated(s, t, b);
    assert Represents(s');
  }

  lemma TakeRepresents(s: Sys, t: Tid, b: Id)
    requires Represents(s) && NoRepeats(s.queue) && s.first == To(b)
    ensures b in s.info && b in s.next && s.queue != [] && b == s.queue[0] && Represents(Unlinked(s, t, b))
  {
    assert s.queue[0] in s.queue && s.next[s.queue[0]] == Successor(s.queue, 0);
    var s' := Unlinked(s, t, b);
    forall i | 0 <= i < |s'.queue|
      ensures s'.next[s'.queue[i]] == Successor(s'.queue, i)
    {
      assert s'.queue[i] == s.queue[i + 1];
      assert s.next[s.queue[i + 1]] == Successor(s.queue, i + 1);
    }
  }

  lemma TakeConserved(s: Sys, t: Tid, b: Id)
    requires Conserved(s) && t in s.pcs && s.pcs[t] == Taking && s.queue != [] && b == s.queue[0]
    requires b in s.info && b in s.next
    ensures Conserved(At(Unlinked(s, t, b), t, GetUnlocking(b)))
  {
    TailOf(s.queue);
    assert b in s.queue;
  }

  lemma TakeKeeps(s: Sys, t: Tid, b: Id)
    requires Inv(s) && t in s.pcs && s.pcs[t] == Taking && s.first == To(b)
    ensures b in s.info && b in s.next && s.queue != [] && Inv(At(Unlinked(s, t, b), t, GetUnlocking(b)))
  {
    TakeRepresents(s, t, b);
    TakeConserved(s, t, b);
    var s' := At(Unlinked(s, t, b), t, GetUnlocking(b));
    MovedExclusive(s, s', t, GetUnlocking(b));
    OrderAfterTake(s, b);
    assert Represents(s') && Terminated(s');
  }

  /** The store after the unlock touches no queued block. */
  lemma ClearRepresents(s: Sys, b: Id)
    requires Represents(s) && b in s.info && b !in s.queue
    ensures Represents(Cleared(s, b))
  {
    var s' := Cleared(s, b);
    forall i | 0 <= i < |s'.queue|
      ensures s'.next[s'.queue[i]] == Successor(s'.queue, i)
    {
      assert s.queue[i] in s.queue && s.next[s.queue[i]] == Successor(s.queue, i);
    }
  }

  lemma ClearKeeps(s: Sys, t: Tid, b: Id)
    requires Inv(s) && t in s.pcs && s.pcs[t] == Clearing(b)
    ensures Inv(At(Cleared(s, b), t, Holding(b)))
  {
    var s' := At(Cleared(s, b), t, Holding(b));
    assert b in s.place && s.place[b] == With(t);
    ClearRepresents(s, b);
    MovedConserved(s, s', t, Holding(b));
    MovedExclusive(s, s', t, Holding(b));
    assert Represents(s') && Terminated(s');
  }

  lemma ReleaseConserved(s: Sys, t: Tid, b: Id)
    requires Conserved(s) && t in s.pcs && s.pcs[t] == Holding(b)
    ensures Conserved(At(Given(s, b), t, Idle))
  {
  }

  lemma ReleaseKeeps(s: Sys, t: Tid, b: Id)
    requires Inv(s) && t in s.pcs && s.pcs[t] == Holding(b)
    ensures Inv(At(Given(s, b), t, Idle))
  {
    var s' := At(Given(s, b), t, Idle);
    ReleaseConserved(s, t, b);
    MovedExclusive(s, s', t, Idle);
    assert Represents(s') && Terminated(s');
  }

  lemma {:induction false} CountsOnce(q: seq<Id>, b: Id)
    requires NoRepeats(q)
    ensures multiset(q)[b] == if b in q then 1 else 0
  {
    if q != [] {
      assert q == [q[0]] + q[1..];
      TailOf(q);
      CountsOnce(q[1..], b);
    }
  }

  /** `block_FifoEmpty` releases exactly the queued blocks, each once. */
  lemma EmptyConserved(s: Sys)
    requires Conserved(s)
    ensures Conserved(Emptied(s))
    ensures forall b :: Emptied(s).released[b] == s.released[b] + if b in s.queue then 1 else 0
  {
    forall b
      ensures Emptied(s).released[b] == s.released[b] + if b in s.queue then 1 else 0
    {
      CountsOnce(s.queue, b);
    }
  }

  lemma EmptyKeeps(s: Sys)
    requires Inv(s)
    ensures Inv(Emptied(s))
  {
    var s' := Emptied(s);
    EmptyConserved(s);
    OrderAfterEmpty(s);
    assert Represents(s') && Exclusive(s') && Terminated(s');
  }

  lemma SignalKeeps(s: Sys, t: Tid, w: Tid)
    requires Inv(s) && t in s.pcs && w in s.pcs && s.pcs[t] == Signalling && s.pcs[w] == Waiting
    ensures Inv(At(At(s, w, Signalled), t, PutUnlocking))
  {
    MoveKeeps(s, w, Signalled, s.lock);
    assert Locked(At(s, w, Signalled), s.lock) == At(s, w, Signalled);
    MoveKeeps(At(s, w, Signalled), t, PutUnlocking, s.lock);
  }

  /** The steps of `block_FifoPut` and of the thread that fills a block. */
  lemma PutStepKeeps(form: Form, s: Sys, e: Event)
    requires Inv(s) && Enabled(s, e) && IsPutStep(e)
    ensures Followable(s, e) && Inv(Step(form, s, e))
  {
    var t := e.t;
    match e
    case New(_, id, header) => NewKeeps(s, t, id, header);
    case Store(_, idx) => StoreKeeps(s, t, s.pcs[t].b, idx);
    case LockPut(_) => MoveKeeps(s, t, Linking(s.pcs[t].b), HeldBy(t));
    case Link(_) => LinkKeeps(s, t, s.pcs[t].b);
    case Signal(_, w) => SignalKeeps(s, t, w);
    case SignalNobody(_) => MoveKeeps(s, t, PutUnlocking, s.lock);
    case UnlockPut(_) => MoveKeeps(s, t, Idle, Free);
  }

  predicate IsPutStep(e: Event) {
    e.New? || e.Store? || e.LockPut? || e.Link? || e.Signal? || e.SignalNobody? || e.UnlockPut?
  }

  predicate IsEmptyStep(e: Event) {
    e.LockEmpty? || e.Empty? || e.UnlockEmpty?
  }

  /** The steps of `block_FifoEmpty`. */
  lemma EmptyStepKeeps(form: Form, s: Sys, e: Event)
    requires Inv(s) && Enabled(s, e) && IsEmptyStep(e)
    ensures Followable(s, e) && Inv(Step(form, s, e))
  {
    var t := e.t;
    match e
    case LockEmpty(_) => MoveKeeps(s, t, Emptying, HeldBy(t));
    case Empty(_) =>
      EmptyKeeps(s);
      MoveKeeps(Emptied(s), t, EmptyUnlocking, s.lock);
    case UnlockEmpty(_) => MoveKeeps(s, t, Idle, Free);
  }

  predicate IsWaitStep(e: Event) {
    e.LockGet? || e.Check? || e.Timeout? || e.Wake? || e.Spurious?
  }

  /** The steps of `block_FifoGet` up to the end of the wait. */
  lemma WaitStepKeeps(form: Form, s: Sys, e: Event)
    requires Inv(s) && Enabled(s, e) && IsWaitStep(e)
    ensures Followable(s, e) && Inv(Step(form, s, e))
  {
    var t := e.t;
    match e
    case LockGet(_) => MoveKeeps(s, t, Checking, HeldBy(t));
    case Check(_) => if s.first == Null { MoveKeeps(s, t, Waiting, Free); } else { MoveKeeps(s, t, Taking, s.lock); }
    case Timeout(_) => MoveKeeps(s, t, Idle, s.lock);
    case Wake(_) => WokenKeeps(form, s, t);
    case Spurious(_) => WokenKeeps(form, s, t);
  }

  lemma WokenKeeps(form: Form, s: Sys, t: Tid)
    requires Inv(s) && t in s.pcs && s.pcs[t] in {Waiting, Signalled} && s.lock == Free
    ensures Inv(Woken(form, s, t))
  {
    MoveKeeps(s, t, if form == TestOnce then Taking else Checking, HeldBy(t));
  }

  /** The rest of `block_FifoGet` and the release of what it returned. */
  lemma GetStepKeeps(form: Form, s: Sys, e: Event)
    requires Inv(s) && Enabled(s, e) && !IsPutStep(e) && !IsWaitStep(e) && !IsEmptyStep(e)
    ensures Followable(s, e) && Inv(Step(form, s, e))
  {
    var t := e.t;
    match e
    case Take(_) => if s.first == Null { MoveKeeps(s, t, Crashed, s.lock); } else { TakeKeeps(s, t, s.first.id); }
    case UnlockGet(_) => MoveKeeps(s, t, Clearing(s.pcs[t].b), Free);
    case Clear(_) => ClearKeeps(s, t, s.pcs[t].b);
    case Release(_) => ReleaseKeeps(s, t, s.pcs[t].b);
  }

  lemma StepKeeps(form: Form, s: Sys, e: Event)
    requires Inv(s) && Enabled(s, e)
    ensures Followable(s, e) && Inv(Step(form, s, e))
  {
    if IsPutStep(e) {
      PutStepKeeps(form, s, e);
    } else if IsWaitStep(e) {
      WaitStepKeeps(form, s, e);
    } else if IsEmptyStep(e) {
      EmptyStepKeeps(form, s, e);
    } else {
      GetStepKeeps(form, s, e);
    }
  }

  // ---------------------------------------------------------------- all runs

  lemma StartInv(threads: set<Tid>)
    ensures Inv(Start(threads))
  {
    var s := Start(threads);
    StartConserved(threads);
    assert forall t :: t in s.pcs ==> s.pcs[t] == Idle;
    assert Represents(s) && Exclusive(s) && Terminated(s) && InOrder(s);
  }

  lemma StartConserved(threads: set<Tid>)
    ensures Conserved(Start(threads))
  {
    assert forall t :: t in Start(threads).pcs ==> Start(threads).pcs[t] == Idle;
  }

  /** The state after any sequence of events; one that is not enabled does not happen. */
  function Run(form: Form, threads: set<Tid>, events: seq<Event>): Sys {
    if events == [] then Start(threads)
    else
      var s, e := Run(form, threads, events[..|events| - 1]), events[|events| - 1];
      if Followable(s, e) then Step(form, s, e) else s
  }

  /** The invariant holds after every run, and every step that is enabled finds the blocks it needs. */
  lemma {:induction false} RunSafe(form: Form, threads: set<Tid>, events: seq<Event>)
    ensures Inv(Run(form, threads, events))
    ensures forall e :: Enabled(Run(form, threads, events), e) ==> Followable(Run(form, threads, events), e)
  {
    if events == [] {
      StartInv(threads);
    } else {
      var s, e := Run(form, threads, events[..|events| - 1]), events[|events| - 1];
      RunSafe(form, threads, events[..|events| - 1]);
      if Enabled(s, e) {
        StepKeeps(form, s, e);
      }
    }
    FollowableIn(Run(form, threads, events));
  }

  lemma FollowableIn(s: Sys)
    requires Inv(s)
    ensures forall e :: Enabled(s, e) ==> Followable(s, e)
  {
    assert s.first.To? ==> s.first.id in s.queue;
  }

  /** Blocks of the messages of connection slot `idx`, in order. */
  function OfIdx(info: map<Id, Info>, ids: seq<Id>, idx: int): seq<Id> {
    if ids == [] then []
    else (if ids[0] in info && info[ids[0]].alistIdx == idx then [ids[0]] else []) + OfIdx(info, ids[1..], idx)
  }

  lemma {:induction false} OfIdxConcat(info: map<Id, Info>, a: seq<Id>, b: seq<Id>, idx: int)
    ensures OfIdx(info, a + b, idx) == OfIdx(info, a, idx) + OfIdx(info, b, idx)
  {
    if a == [] {
      assert a + b == b;
    } else {
      assert (a + b)[1..] == a[1..] + b;
      OfIdxConcat(info, a[1..], b, idx);
    }
  }

  /** In every run, the blocks removed and then those still queued are the blocks put, in lock order; so the
      messages of each connection leave in the order in which they came. */
  lemma ArrivalOrder(form: Form, threads: set<Tid>, events: seq<Event>, idx: int)
    ensures var s := Run(form, threads, events);
            && Ids(s.out) + s.queue == s.put
            && OfIdx(s.info, Ids(s.out), idx) + OfIdx(s.info, s.queue, idx) == OfIdx(s.info, s.put, idx)
  {
    var s := Run(form, threads, events);
    RunSafe(form, threads, events);
    OfIdxConcat(s.info, Ids(s.out), s.queue, idx);
  }

  /** In every run, each block allocated is with one thread, or once in the queue, or released just once. */
  lemma OnePlace(form: Form, threads: set<Tid>, events: seq<Event>, b: Id)
    ensures var s := Run(form, threads, events);
            b in s.info ==>
            var holders := set t | t in s.pcs && HasBlock(s.pcs[t]) && s.pcs[t].b == b;
            |holders| + multiset(s.queue)[b] + s.released[b] == 1
  {
    var s := Run(form, threads, events);
    RunSafe(form, threads, events);
    if b in s.info {
      CountsOnce(s.queue, b);
      var holders := set t | t in s.pcs && HasBlock(s.pcs[t]) && s.pcs[t].b == b;
      assert holders == match s.place[b] case With(t) => {t} case _ => {};
    }
  }

  lemma {:induction false} SizeOfBound(info: map<Id, Info>, q: seq<Id>)
    requires forall b :: b in q ==> b in info
    ensures SizeOf(info, q) <= 0xFFFF * |q|
  {
    if q != [] {
      SizeOfBound(info, q[1..]);
    }
  }

  /** In every run the counters are those of the queue, and so the sizes stay within 65535 bytes a block. */
  lemma Counters(form: Form, threads: set<Tid>, events: seq<Event>)
    ensures var s := Run(form, threads, events);
            && s.depth == |s.queue| && (forall b :: b in s.queue ==> b in s.info) && s.size == SizeOf(s.info, s.queue)
            && 0 <= s.size <= 0xFFFF * s.depth
  {
    RunSafe(form, threads, events);
    var s := Run(form, threads, events);
    SizeOfBound(s.info, s.queue);
  }

  // ---------------------------------------------------------- how far they go

  const MAX_FIFO_DEPTH := 10240
  const INT_MAX := 0x7FFF_FFFF
  const MAX_SIGNED_DEPTH := 32768

  lemma RunNext(form: Form, threads: set<Tid>, events: seq<Event>, e: Event) returns (longer: seq<Event>)
    requires Enabled(Run(form, threads, events), e)
    ensures Followable(Run(form, threads, events), e)
    ensures longer == events + [e] && Run(form, threads, longer) == Step(form, Run(form, threads, events), e)
  {
    longer := events + [e];
    assert longer[..|longer| - 1] == events;
    RunSafe(form, threads, events);
  }

  /** A thread makes the largest block there is and has the lock to put it. */
  lemma PutBegins(form: Form, threads: set<Tid>, events: seq<Event>, p: Tid, id: Id) returns (longer: seq<Event>)
    requires var s := Run(form, threads, events); p in s.pcs && s.pcs[p] == Idle && s.lock == Free && id !in s.info
    ensures var s, s' := Run(form, threads, events), Run(form, threads, longer);
            && s'.lock == HeldBy(p) && s'.pcs == s.pcs[p := Linking(id)] && s'.info == s.info[id := Info(0xFFFF, 0)]
            && s'.depth == s.depth && s'.size == s.size
  {
    longer := RunNext(form, threads, events, New(p, id, Info(0xFFFF, 0)));
    longer := RunNext(form, threads, longer, Store(p, 0));
    longer := RunNext(form, threads, longer, LockPut(p));
  }

  lemma PutEnds(form: Form, threads: set<Tid>, events: seq<Event>, p: Tid, id: Id) returns (longer: seq<Event>)
    requires var s := Run(form, threads, events);
             && p in s.pcs && s.pcs[p] == Linking(id) && id in s.info && s.info[id].size == 0xFFFF
             && forall t :: t in s.pcs ==> s.pcs[t] != Waiting
    ensures var s, s' := Run(form, threads, events), Run(form, threads, longer);
            && s'.lock == Free && s'.pcs == s.pcs[p := Idle] && s'.info == s.info
            && s'.depth == s.depth + 1 && s'.size == s.size + 0xFFFF
  {
    longer := PutLinks(form, threads, events, p, id);
    longer := RunNext(form, threads, longer, SignalNobody(p));
    longer := RunNext(form, threads, longer, UnlockPut(p));
    assert Run(form, threads, longer).pcs == Run(form, threads, events).pcs[p := Idle];
  }

  lemma PutLinks(form: Form, threads: set<Tid>, events: seq<Event>, p: Tid, id: Id) returns (longer: seq<Event>)
    requires var s := Run(form, threads, events);
             p in s.pcs && s.pcs[p] == Linking(id) && id in s.info && s.info[id].size == 0xFFFF
    ensures var s, s' := Run(form, threads, events), Run(form, threads, longer);
            && s'.lock == s.lock && s'.pcs == s.pcs[p := Signalling] && s'.info == s.info
            && s'.depth == s.depth + 1 && s'.size == s.size + 0xFFFF
  {
    longer := RunNext(form, threads, events, Link(p));
  }

  /** Nothing bounds the queue: one thread that only puts gets it to any depth, at the largest size. */
  lemma {:induction false} Fills(form: Form, threads: set<Tid>, p: Tid, n: nat) returns (events: seq<Event>)
    requires p in threads
    ensures var s := Run(form, threads, events);
            && s.depth == n && s.size == 0xFFFF * n
            && s.lock == Free && s.pcs == Start(threads).pcs && forall b :: b in s.info ==> b < n
  {
    if n == 0 {
      events := [];
    } else {
      events := Fills(form, threads, p, n - 1);
      events := PutBegins(form, threads, events, p, n - 1);
      events := PutEnds(form, threads, events, p, n - 1);
    }
  }

  /** `i_size` overflows an int in some run of a given depth exactly if that depth is above 32768; and
      `MAX_FIFO_DEPTH`, at which the code only warns, does not keep the depth from getting there. */
  lemma OverflowExactly(form: Form, threads: set<Tid>, p: Tid, depth: nat)
    requires p in threads
    ensures (exists events :: Run(form, threads, events).depth == depth && Run(form, threads, events).size > INT_MAX)
            <==> depth > MAX_SIGNED_DEPTH
    ensures exists events :: Run(form, threads, events).depth > MAX_FIFO_DEPTH + depth
  {
    var events := Fills(form, threads, p, depth);
    forall events' | Run(form, threads, events').depth == depth
      ensures Run(form, threads, events').size <= 0xFFFF * depth
    {
      Counters(form, threads, events');
    }
    var deeper := Fills(form, threads, p, MAX_FIFO_DEPTH + depth + 1);
    assert Run(form, threads, deeper).depth > MAX_FIFO_DEPTH + depth;
  }

  // ----------------------------------------------------------------- headers

  /** The block is made and its connection slot stored. */
  ghost predicate Filled(s: Sys, b: Id) {
    b in s.info && forall t :: t in s.pcs ==> s.pcs[t] != Filling(b)
  }

  function PcAfter(form: Form, s: Sys, e: Event): Pc
    requires Enabled(s, e)
  {
    var pc, first := s.pcs[e.t], s.first;
    match e
    case New(_, id, _) => Filling(id)
    case Store(_, _) => Prepared(pc.b)
    case LockPut(_) => Linking(pc.b)
    case Link(_) => Signalling
    case Signal(_, _) => PutUnlocking
    case SignalNobody(_) => PutUnlocking
    case UnlockPut(_) => Idle
    case LockGet(_) => Checking
    case Check(_) => if first == Null then Waiting else Taking
    case Timeout(_) => Idle
    case Wake(_) => if form == TestOnce then Taking else Checking
    case Spurious(_) => if form == TestOnce then Taking else Checking
    case Take(_) => if first == Null then Crashed else GetUnlocking(first.id)
    case UnlockGet(_) => Clearing(pc.b)
    case Clear(_) => Holding(pc.b)
    case Release(_) => Idle
    case LockEmpty(_) => Emptying
    case Empty(_) => EmptyUnlocking
    case UnlockEmpty(_) => Idle
  }

  /** What a step does to the threads, the headers, the blocks put and the blocks gone. */
  ghost predicate Moves(form: Form, s: Sys, e: Event, s': Sys)
    requires Followable(s, e)
  {
    MovesThreads(form, s, e, s') && MovesBlocks(s, e, s')
  }

  ghost predicate MovesThreads(form: Form, s: Sys, e: Event, s': Sys)
    requires Followable(s, e)
  {
    s'.pcs == (if e.Signal? then s.pcs[e.waiter := Signalled] else s.pcs)[e.t := PcAfter(form, s, e)]
  }

  ghost predicate MovesBlocks(s: Sys, e: Event, s': Sys)
    requires Followable(s, e)
  {
    && s'.info == (if e.New? then s.info[e.id := e.header]
                   else if e.Store? then s.info[s.pcs[e.t].b := Info(s.info[s.pcs[e.t].b].size, e.idx)] else s.info)
    && s'.put == (if e.Link? then s.put + [s.pcs[e.t].b] else s.put)
    && s'.out == s.out + (if e.Take? && s.first != Null then [Taken(s.first.id)]
                          else if e.Empty? then Dropping(s.queue) else [])
  }

  lemma StepMoves(form: Form, s: Sys, e: Event)
    requires Followable(s, e)
    ensures Moves(form, s, e, Step(form, s, e))
  {
    StepMovesThreads(form, s, e);
    if PutSide(e) {
      PutMovesBlocks(form, s, e);
    } else {
      GetMovesBlocks(form, s, e);
    }
  }

  lemma StepMovesThreads(form: Form, s: Sys, e: Event)
    requires Followable(s, e)
    ensures MovesThreads(form, s, e, Step(form, s, e))
  {
  }

  predicate PutSide(e: Event) {
    e.New? || e.Store? || e.LockPut? || e.Link? || e.Signal? || e.SignalNobody? || e.UnlockPut?
  }

  lemma PutMovesBlocks(form: Form, s: Sys, e: Event)
    requires Followable(s, e) && PutSide(e)
    ensures MovesBlocks(s, e, Step(form, s, e))
  {
  }

  lemma GetMovesBlocks(form: Form, s: Sys, e: Event)
    requires Followable(s, e) && !PutSide(e)
    ensures MovesBlocks(s, e, Step(form, s, e))
  {
  }

  lemma HeaderKeptByMove(form: Form, s: Sys, e: Event, s': Sys, b: Id)
    requires Followable(s, e) && Moves(form, s, e, s') && Filled(s, b)
    ensures Filled(s', b) && s'.info[b] == s.info[b]
  {
  }

  /** Once stored, a block's size and connection slot stay as they are, through the queue and beyond: no thread
      stores into it again. */
  lemma {:induction false} HeaderKept(form: Form, threads: set<Tid>, events: seq<Event>, k: nat, b: Id)
    requires k <= |events| && Filled(Run(form, threads, events[..k]), b)
    ensures Filled(Run(form, threads, events), b)
    ensures Run(form, threads, events).info[b] == Run(form, threads, events[..k]).info[b]
    decreases |events|
  {
    if k == |events| {
      assert events[..k] == events;
    } else {
      var before := events[..|events| - 1];
      assert before[..k] == events[..k];
      HeaderKept(form, threads, before, k, b);
      var s, e := Run(form, threads, before), events[|events| - 1];
      if Followable(s, e) {
        StepMoves(form, s, e);
        HeaderKeptByMove(form, s, e, Step(form, s, e), b);
      }
    }
  }

  // ------------------------------------------------------------------- races

  datatype Loc = First | Last | Depth | Size | NextOf(b: Id) | Body(b: Id)

  /** The memory the next step of thread `t` reads or writes. */
  function Touches(s: Sys, t: Tid): set<Loc>
    requires t in s.pcs
  {
    match s.pcs[t]
    case Filling(b) => {NextOf(b), Body(b)}
    case Linking(b) =>
      {First, Last, Depth, Size, NextOf(b), Body(b)} + (if s.last.AtNext? then {NextOf(s.last.id)} else {})
    case Signalling => {Depth}
    case Checking => {First}
    case Taking => {First, Last, Depth, Size} + (if s.first.To? then {NextOf(s.first.id), Body(s.first.id)} else {})
    case Clearing(b) => {NextOf(b)}
    case Holding(b) => {NextOf(b), Body(b)}
    case Emptying =>
      {First, Last, Depth, Size} + (set b | b in s.queue :: NextOf(b)) + (set b | b in s.queue :: Body(b))
    case _ => {}
  }

  /** What gives a thread the right to touch a location: the lock, for the queue and the blocks in it, or
      being the one the block is with. */
  ghost predicate MayTouch(s: Sys, t: Tid, l: Loc) {
    if l.NextOf? || l.Body? then
      && l.b in s.place
      && (s.place[l.b] == With(t) || (s.place[l.b] == Queued && s.lock == HeldBy(t)))
    else s.lock == HeldBy(t)
  }

  lemma TouchesByRight(s: Sys, t: Tid, l: Loc)
    requires Represents(s) && Conserved(s) && Exclusive(s) && t in s.pcs && l in Touches(s, t)
    ensures MayTouch(s, t, l)
  {
    assert s.first.To? ==> s.first.id in s.queue;
    assert s.last.AtNext? ==> s.last.id in s.queue;
  }

  /** In every state of every run, no two threads are about to touch the same memory. In particular the store
      of NULL into a removed block, made after the unlock, races with no put and no get. */
  lemma NoRace(form: Form, threads: set<Tid>, events: seq<Event>, t: Tid, u: Tid)
    requires var s := Run(form, threads, events); t in s.pcs && u in s.pcs && t != u
    ensures var s := Run(form, threads, events); Touches(s, t) !! Touches(s, u)
  {
    var s := Run(form, threads, events);
    RunSafe(form, threads, events);
    forall l | l in Touches(s, t) && l in Touches(s, u)
      ensures false
    {
      TouchesByRight(s, t, l);
      TouchesByRight(s, u, l);
    }
  }

  // ------------------------------------------------------------- empty heads

  /** Some thread has read through a null `p_first`, or is about to. */
  ghost predicate Doomed(s: Sys) {
    exists t :: DoomedAt(s, t)
  }

  /** The timed wait returns 0 although the queue is empty. */
  predicate EmptyWake(form: Form, s: Sys, e: Event) {
    form == TestOnce && (e.Wake? || e.Spurious?) && Enabled(s, e) && s.queue == []
  }

  ghost predicate DoomedAt(s: Sys, t: Tid) {
    t in s.pcs && (s.pcs[t] == Crashed || (s.pcs[t] == Taking && s.queue == []))
  }

  lemma DoomStays(form: Form, s: Sys, e: Event, t: Tid)
    requires Represents(s) && Exclusive(s) && Enabled(s, e) && Followable(s, e) && DoomedAt(s, t)
    ensures DoomedAt(Step(form, s, e), t)
  {
    assert s.lock == HeldBy(t);
    assert e.t in s.pcs && (HoldsLock(s.pcs[e.t]) ==> e.t == t);
    assert e.t == t ==> e.Take?;
    assert e.Take? || e.New? || e.Store? || e.Clear? || e.Release?;
  }

  /** Only the thread with the lock changes the queue. */
  lemma QueueGuarded(form: Form, s: Sys, e: Event, t: Tid)
    requires Represents(s) && Exclusive(s) && Enabled(s, e) && Followable(s, e) && s.lock == HeldBy(t) && e.t != t
    ensures Step(form, s, e).queue == s.queue
  {
    assert !HoldsLock(s.pcs[e.t]);
  }

  lemma DoomArises(form: Form, s: Sys, e: Event, t: Tid)
    requires Represents(s) && Exclusive(s) && Enabled(s, e) && Followable(s, e)
    requires !DoomedAt(s, t) && DoomedAt(Step(form, s, e), t)
    ensures EmptyWake(form, s, e)
  {
    if t != e.t && t in s.pcs && s.lock == HeldBy(t) {
      QueueGuarded(form, s, e, t);
    }
  }

  /** A step leads to a crash exactly if it returns from the wait with an empty queue; nothing averts one. */
  lemma DoomExactly(form: Form, s: Sys, e: Event)
    requires Inv(s) && Enabled(s, e)
    ensures Followable(s, e)
    ensures Doomed(Step(form, s, e)) <==> Doomed(s) || EmptyWake(form, s, e)
  {
    FollowableIn(s);
    var s' := Step(form, s, e);
    if Doomed(s) {
      var t :| DoomedAt(s, t);
      DoomStays(form, s, e, t);
    } else if EmptyWake(form, s, e) {
      assert DoomedAt(s', e.t);
    } else if Doomed(s') {
      var t :| DoomedAt(s', t);
      DoomArises(form, s, e, t);
    }
  }

  /** Some wait in the run returned 0 with an empty queue. */
  ghost predicate SomeEmptyWake(form: Form, threads: set<Tid>, events: seq<Event>) {
    events != [] &&
    var before, e := events[..|events| - 1], events[|events| - 1];
    SomeEmptyWake(form, threads, before) || EmptyWake(form, Run(form, threads, before), e)
  }

  /** A run crashes, or is about to, exactly if some wait in it returned 0 with an empty queue. */
  lemma {:induction false} CrashExactly(form: Form, threads: set<Tid>, events: seq<Event>)
    ensures Doomed(Run(form, threads, events)) <==> SomeEmptyWake(form, threads, events)
  {
    if events == [] {
      assert forall t :: !DoomedAt(Start(threads), t);
    } else {
      var before, e := events[..|events| - 1], events[|events| - 1];
      CrashExactly(form, threads, before);
      RunSafe(form, threads, before);
      if Enabled(Run(form, threads, before), e) {
        DoomExactly(form, Run(form, threads, before), e);
      }
    }
  }

  /** The disabled form, which tests again after each wait, never crashes, whatever the environment does. */
  lemma TestAgainNeverCrashes(threads: set<Tid>, events: seq<Event>)
    ensures !Doomed(Run(TestAgain, threads, events))
  {
    CrashExactly(TestAgain, threads, events);
    NoEmptyWakeAgain(threads, events);
  }

  lemma {:induction false} NoEmptyWakeAgain(threads: set<Tid>, events: seq<Event>)
    ensures !SomeEmptyWake(TestAgain, threads, events)
  {
    if events != [] {
      NoEmptyWakeAgain(threads, events[..|events| - 1]);
    }
  }

  /** What the compiled form relies on, and one way each of not having it: only `c` takes, nobody empties, and
      no wait returns 0 unsignalled. */
  datatype Lapse = NoLapse | WakesSpuriously | SomeoneEmpties | SecondConsumer

  predicate Obeys(lapse: Lapse, c: Tid, e: Event) {
    && (e.Spurious? ==> lapse == WakesSpuriously)
    && (IsEmptyStep(e) ==> lapse == SomeoneEmpties)
    && (e.LockGet? ==> e.t == c || lapse == SecondConsumer)
  }

  predicate Calm(c: Tid, e: Event) {
    Obeys(NoLapse, c, e)
  }

  /** Under the premises a signalled consumer finds the block it was signalled for. */
  ghost predicate CalmInv(s: Sys, c: Tid) {
    && (forall t :: t in s.pcs && (s.pcs[t] in {Checking, Waiting, Signalled, Taking}) ==> t == c)
    && (forall t :: t in s.pcs && (s.pcs[t] in {Signalling, Signalled, Taking}) ==> s.queue != [])
  }

  lemma CalmMove(s: Sys, s': Sys, c: Tid, t: Tid, pc: Pc)
    requires CalmInv(s, c) && t in s.pcs && s'.pcs == s.pcs[t := pc] && (s.queue != [] ==> s'.queue != [])
    requires pc in {Checking, Waiting, Signalled, Taking} ==> t == c
    requires pc in {Signalling, Signalled, Taking} ==> s'.queue != []
    ensures CalmInv(s', c)
  {
  }

  lemma CalmStep(form: Form, s: Sys, e: Event, c: Tid)
    requires Represents(s) && Exclusive(s) && Enabled(s, e) && Followable(s, e) && CalmInv(s, c) && Calm(c, e)
    ensures CalmInv(Step(form, s, e), c)
  {
    var s' := Step(form, s, e);
    match e
    case Take(_) => CalmTake(form, s, e, c);
    case Signal(t, w) =>
      CalmMove(s, At(s, w, Signalled), c, w, Signalled);
      CalmMove(At(s, w, Signalled), s', c, t, PutUnlocking);
    case LockEmpty(_) => assert false;
    case Empty(_) => assert false;
    case UnlockEmpty(_) => assert false;
    case Spurious(_) => assert false;
    case _ => CalmMove(s, s', c, e.t, s'.pcs[e.t]);
  }

  lemma CalmTake(form: Form, s: Sys, e: Event, c: Tid)
    requires Exclusive(s) && Enabled(s, e) && Followable(s, e) && CalmInv(s, c) && e.Take?
    ensures CalmInv(Step(form, s, e), c)
  {
    assert s.lock == HeldBy(e.t);
    assert forall t :: t in s.pcs && t != e.t ==> !HoldsLock(s.pcs[t]);
  }

  /** With one consumer, no emptying and no spurious wakeup, no run crashes. */
  lemma {:induction false} CalmNeverCrashes(form: Form, threads: set<Tid>, c: Tid, events: seq<Event>)
    requires forall k :: 0 <= k < |events| ==> Calm(c, events[k])
    ensures CalmInv(Run(form, threads, events), c) && !SomeEmptyWake(form, threads, events)
    ensures !Doomed(Run(form, threads, events))
  {
    CrashExactly(form, threads, events);
    if events != [] {
      var before, e := events[..|events| - 1], events[|events| - 1];
      CalmNeverCrashes(form, threads, c, before);
      var s := Run(form, threads, before);
      RunSafe(form, threads, before);
      if Enabled(s, e) {
        CalmStep(form, s, e, c);
      }
    }
  }

  // ------------------------------------------- no premise can be dropped

  /** `s` is the state after some run that lapses in no other way. */
  ghost predicate Reaches(threads: set<Tid>, lapse: Lapse, c: Tid, s: Sys) {
    exists events :: Run(TestOnce, threads, events) == s && AllObey(lapse, c, events)
  }

  predicate AllObey(lapse: Lapse, c: Tid, events: seq<Event>) {
    forall e :: e in events ==> Obeys(lapse, c, e)
  }

  lemma ReachesStart(threads: set<Tid>, lapse: Lapse, c: Tid)
    ensures Reaches(threads, lapse, c, Start(threads))
  {
    assert Run(TestOnce, threads, []) == Start(threads) && AllObey(lapse, c, []);
  }

  lemma ReachesNext(threads: set<Tid>, lapse: Lapse, c: Tid, s: Sys, e: Event)
    requires Reaches(threads, lapse, c, s) && Enabled(s, e) && Obeys(lapse, c, e)
    ensures Followable(s, e) && Reaches(threads, lapse, c, Step(TestOnce, s, e))
  {
    var events :| Run(TestOnce, threads, events) == s && AllObey(lapse, c, events);
    var longer := RunNext(TestOnce, threads, events, e);
    assert AllObey(lapse, c, longer);
  }

  /** A consumer waits on an empty queue. */
  lemma ReachesWaiting(threads: set<Tid>, lapse: Lapse, c: Tid) returns (s: Sys)
    requires c in threads
    ensures s == At(Start(threads), c, Waiting) && Reaches(threads, lapse, c, s)
  {
    ReachesStart(threads, lapse, c);
    s := Start(threads);
    ReachesNext(threads, lapse, c, s, LockGet(c));
    s := Step(TestOnce, s, LockGet(c));
    ReachesNext(threads, lapse, c, s, Check(c));
    s := Step(TestOnce, s, Check(c));
  }

  /** A consumer waits and a producer is about to link a block. */
  lemma ReachesLinking(threads: set<Tid>, lapse: Lapse, c: Tid, p: Tid) returns (s: Sys)
    requires c in threads && p in threads && c != p
    ensures Reaches(threads, lapse, c, s) && s.lock == HeldBy(p) && s.queue == [] && s.last == AtFirst
    ensures s.next == map[0 := Null] && s.info == map[0 := Info(1, 0)]
    ensures s.pcs == Start(threads).pcs[c := Waiting][p := Linking(0)]
  {
    s := ReachesWaiting(threads, lapse, c);
    var header := Info(1, 0);
    ReachesNext(threads, lapse, c, s, New(p, 0, header));
    s := Step(TestOnce, s, New(p, 0, header));
    ReachesNext(threads, lapse, c, s, Store(p, 0));
    s := Step(TestOnce, s, Store(p, 0));
    ReachesNext(threads, lapse, c, s, LockPut(p));
    s := Step(TestOnce, s, LockPut(p));
  }

  /** The producer has put the block and is about to signal. */
  lemma ReachesSignalling(threads: set<Tid>, lapse: Lapse, c: Tid, p: Tid) returns (s: Sys)
    requires c in threads && p in threads && c != p
    ensures Reaches(threads, lapse, c, s) && s.lock == HeldBy(p) && s.queue == [0] && s.first == To(0)
    ensures s.next == map[0 := Null] && s.info == map[0 := Info(1, 0)]
    ensures s.pcs == Start(threads).pcs[c := Waiting][p := Signalling]
  {
    s := ReachesLinking(threads, lapse, c, p);
    ReachesNext(threads, lapse, c, s, Link(p));
    s := Step(TestOnce, s, Link(p));
  }

  lemma ReachesUnlocking(threads: set<Tid>, lapse: Lapse, c: Tid, p: Tid) returns (s: Sys)
    requires c in threads && p in threads && c != p
    ensures Reaches(threads, lapse, c, s) && s.lock == HeldBy(p) && s.queue == [0] && s.first == To(0)
    ensures s.next == map[0 := Null] && s.info == map[0 := Info(1, 0)]
    ensures s.pcs == Start(threads).pcs[c := Signalled][p := PutUnlocking]
  {
    s := ReachesSignalling(threads, lapse, c, p);
    ReachesNext(threads, lapse, c, s, Signal(p, c));
    s := Step(TestOnce, s, Signal(p, c));
    assert s.pcs == Start(threads).pcs[c := Signalled][p := PutUnlocking];
  }

  /** The producer signals the consumer, and the lock is free again. */
  lemma ReachesSignalled(threads: set<Tid>, lapse: Lapse, c: Tid, p: Tid) returns (s: Sys)
    requires c in threads && p in threads && c != p
    ensures Reaches(threads, lapse, c, s) && s.lock == Free && s.queue == [0] && s.first == To(0)
    ensures s.next == map[0 := Null] && s.info == map[0 := Info(1, 0)]
    ensures s.pcs == Start(threads).pcs[c := Signalled][p := Idle]
  {
    s := ReachesUnlocking(threads, lapse, c, p);
    ReachesNext(threads, lapse, c, s, UnlockPut(p));
    s := Step(TestOnce, s, UnlockPut(p));
    assert s.pcs == Start(threads).pcs[c := Signalled][p := Idle];
  }

  /** A wakeup is spurious. */
  lemma ReachesSpurious(threads: set<Tid>, c: Tid) returns (s: Sys)
    requires c in threads
    ensures Reaches(threads, WakesSpuriously, c, s) && DoomedAt(s, c)
  {
    s := ReachesWaiting(threads, WakesSpuriously, c);
    ReachesNext(threads, WakesSpuriously, c, s, Spurious(c));
    s := Step(TestOnce, s, Spurious(c));
  }

  /** Another thread empties the queue before the signalled one has the lock. */
  lemma ReachesEmptied(threads: set<Tid>, c: Tid, p: Tid) returns (s: Sys)
    requires c in threads && p in threads && c != p
    ensures Reaches(threads, SomeoneEmpties, c, s) && DoomedAt(s, c)
  {
    s := ReachesSignalled(threads, SomeoneEmpties, c, p);
    ReachesNext(threads, SomeoneEmpties, c, s, LockEmpty(p));
    s := Step(TestOnce, s, LockEmpty(p));
    ReachesNext(threads, SomeoneEmpties, c, s, Empty(p));
    s := Step(TestOnce, s, Empty(p));
    assert s.pcs == Start(threads).pcs[c := Signalled][p := EmptyUnlocking];
    ReachesNext(threads, SomeoneEmpties, c, s, UnlockEmpty(p));
    s := Step(TestOnce, s, UnlockEmpty(p));
    ReachesNext(threads, SomeoneEmpties, c, s, Wake(c));
    s := Step(TestOnce, s, Wake(c));
  }

  /** A second consumer is about to take the block that the first was signalled for. */
  lemma ReachesTaking(threads: set<Tid>, c: Tid, p: Tid) returns (s: Sys)
    requires c in threads && p in threads && c != p
    ensures Reaches(threads, SecondConsumer, c, s) && s.lock == HeldBy(p) && s.queue == [0] && s.first == To(0)
    ensures s.next == map[0 := Null] && s.info == map[0 := Info(1, 0)]
    ensures s.pcs == Start(threads).pcs[c := Signalled][p := Taking]
  {
    s := ReachesSignalled(threads, SecondConsumer, c, p);
    ReachesNext(threads, SecondConsumer, c, s, LockGet(p));
    s := Step(TestOnce, s, LockGet(p));
    ReachesNext(threads, SecondConsumer, c, s, Check(p));
    s := Step(TestOnce, s, Check(p));
  }

  /** It takes the block before the first has the lock. */
  lemma ReachesOvertaken(threads: set<Tid>, c: Tid, p: Tid) returns (s: Sys)
    requires c in threads && p in threads && c != p
    ensures Reaches(threads, SecondConsumer, c, s) && DoomedAt(s, c)
  {
    s := ReachesTaking(threads, c, p);
    ReachesNext(threads, SecondConsumer, c, s, Take(p));
    s := Step(TestOnce, s, Take(p));
    ReachesNext(threads, SecondConsumer, c, s, UnlockGet(p));
    s := Step(TestOnce, s, UnlockGet(p));
    ReachesNext(threads, SecondConsumer, c, s, Wake(c));
    s := Step(TestOnce, s, Wake(c));
  }

  /** Each premise is needed: a crash is within reach as soon as any single one of them lapses, and only then. */
  lemma PremisesExact(threads: set<Tid>, lapse: Lapse, c: Tid, p: Tid)
    requires c in threads && p in threads && c != p
    ensures (exists s :: Reaches(threads, lapse, c, s) && Doomed(s)) <==> lapse != NoLapse
  {
    match lapse
    case WakesSpuriously => var s := ReachesSpurious(threads, c);
    case SomeoneEmpties => var s := ReachesEmptied(threads, c, p);
    case SecondConsumer => var s := ReachesOvertaken(threads, c, p);
    case NoLapse =>
      forall s | Reaches(threads, lapse, c, s)
        ensures !Doomed(s)
      {
        var events :| Run(TestOnce, threads, events) == s && AllObey(lapse, c, events);
        CalmNeverCrashes(TestOnce, threads, c, events);
      }
  }
}
