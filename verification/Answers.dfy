/** Requests and their answers: host and queue together. The receive task takes a frame from a connection, makes a
    block for it and stores the connection's slot in it; the FIFO task takes the block and answers by that slot. */
module Answers {
  import opened Tpkt
  import opened Sockets
  import opened Framing
  import opened HostState
  import H = HostRuns
  import F = FifoSystem
  import S = FifoService

  /** The machine, the form of `block_FifoGet`, the threads, and which of them are the two tasks. */
  datatype Setup = Setup(o: ByteOrder, listenFD: int, form: F.Form, threads: set<F.Tid>, receiver: F.Tid, sender: F.Tid)

  /** `Request` is a receive that yields a frame and the block made for it; `Answer` is `SendVmProcStateRsp` for
      the block that the FIFO task holds. */
  datatype Event =
    | Host(e: H.Event)
    | Queue(q: F.Event)
    | Request(recv: H.Event, b: F.Id, header: F.Info)
    | Answer(send: H.Event)

  /** What has happened in the host and in the queue; the requests by their blocks, in order, with the slot each
      came in on and how many host events there were by then; and the blocks that were answered, in order. */
  datatype Trace = Trace(host: seq<H.Event>, queue: seq<F.Event>,
                         asked: seq<F.Id>, slot: map<F.Id, nat>, at: map<F.Id, nat>, answered: seq<F.Id>)

  function HostOf(u: Setup, t: Trace): State {
    H.Run(u.o, u.listenFD, t.host)
  }

  function QueueOf(u: Setup, t: Trace): F.Sys {
    F.Run(u.form, u.threads, t.queue)
  }

  /** Only the FIFO task gets, blocks are made by requests only, and the slot stored is the request's. */
  predicate QueueStep(u: Setup, t: Trace, q: F.Event) {
    var s := QueueOf(u, t);
    && F.Enabled(s, q) && !q.New? && (q.LockGet? ==> q.t == u.sender)
    && (q.Store? ==> s.pcs[q.t].b in t.slot && q.idx == t.slot[s.pcs[q.t].b])
  }

  predicate RequestStep(u: Setup, t: Trace, recv: H.Event, b: F.Id, header: F.Info) {
    var h := HostOf(u, t);
    && recv.Recv? && H.Callable(h, recv) && H.Allowed(u.listenFD, h, recv) && h.alist[recv.i].acceptFD > 0
    && Received(u.o, h, recv.i, recv.chunks).1.n > 0
    && F.Enabled(QueueOf(u, t), F.New(u.receiver, b, header))
  }

  /** One answer for each block, by the slot that stands in it. */
  predicate AnswerStep(u: Setup, t: Trace, send: H.Event) {
    var h, s := HostOf(u, t), QueueOf(u, t);
    && send.Send? && H.Callable(h, send) && H.Allowed(u.listenFD, h, send)
    && u.sender in s.pcs && s.pcs[u.sender].Holding? && s.pcs[u.sender].b in s.info
    && send.i == s.info[s.pcs[u.sender].b].alistIdx && s.pcs[u.sender].b !in t.answered
  }

  function Requested(t: Trace, receiver: F.Tid, recv: H.Event, b: F.Id, header: F.Info): Trace
    requires recv.Recv?
  {
    Trace(t.host + [recv], t.queue + [F.New(receiver, b, header)],
          t.asked + [b], t.slot[b := recv.i], t.at[b := |t.host| + 1], t.answered)
  }

  function Next(u: Setup, t: Trace, e: Event): Trace {
    match e
    case Host(h) => t.(host := t.host + [h])
    case Queue(q) => if QueueStep(u, t, q) then t.(queue := t.queue + [q]) else t
    case Request(recv, b, header) =>
      if RequestStep(u, t, recv, b, header) then Requested(t, u.receiver, recv, b, header) else t
    case Answer(send) =>
      if AnswerStep(u, t, send) then
        t.(host := t.host + [send], answered := t.answered + [QueueOf(u, t).pcs[u.sender].b])
      else t
  }

  function Play(u: Setup, events: seq<Event>): Trace {
    if events == [] then Trace([], [], [], map[], map[], [])
    else Next(u, Play(u, events[..|events| - 1]), events[|events| - 1])
  }

  // -------------------------------------------------------------- invariant

  predicate Filing(pc: F.Pc) {
    pc.Filling? || pc.Prepared? || pc.Linking?
  }

  predicate Fetching(pc: F.Pc) {
    pc.Checking? || pc.Waiting? || pc.Signalled? || pc.Taking? || pc.GetUnlocking? || pc.Clearing? || pc.Holding?
  }

  ghost predicate Roles(u: Setup, s: F.Sys) {
    forall t :: t in s.pcs ==> (Filing(s.pcs[t]) ==> t == u.receiver) && (Fetching(s.pcs[t]) ==> t == u.sender)
  }

  /** The block that the receive task has made and not yet linked. */
  function InHand(u: Setup, s: F.Sys): seq<F.Id> {
    if u.receiver in s.pcs && Filing(s.pcs[u.receiver]) then [s.pcs[u.receiver].b] else []
  }

  ghost predicate CameIn(u: Setup, host: seq<H.Event>, at: nat, slot: nat) {
    at <= |host| && H.Occupied(H.Run(u.o, u.listenFD, host[..at]), slot)
  }

  ghost predicate Recorded(u: Setup, t: Trace, s: F.Sys, b: F.Id) {
    && b in t.slot && b in t.at && b in s.info && CameIn(u, t.host, t.at[b], t.slot[b])
    && (s.info[b].alistIdx == t.slot[b] || (u.receiver in s.pcs && s.pcs[u.receiver] == F.Filling(b)))
  }

  /** The request of `x` came before that of `y`. */
  predicate Earlier(t: Trace, x: F.Id, y: F.Id) {
    x in t.at && y in t.at && t.at[x] < t.at[y]
  }

  /** Requests are put in the order in which they came. */
  ghost predicate Asked(u: Setup, t: Trace, s: F.Sys) {
    && t.asked == s.put + InHand(u, s)
    && (forall b :: b in t.asked ==> Recorded(u, t, s, b))
    && (forall j, k :: 0 <= j < k < |t.asked| ==> Earlier(t, t.asked[j], t.asked[k]))
  }

  /** The answered requests have left the queue, and came before the one that the FIFO task has in hand. */
  ghost predicate Answered(u: Setup, t: Trace, s: F.Sys) {
    && (forall x :: x in t.answered ==> x in F.Ids(s.out) && x in t.at)
    && HandLast(u, t, s)
    && (forall j, k :: 0 <= j < k < |t.answered| ==> Earlier(t, t.answered[j], t.answered[k]))
  }

  ghost predicate HandLast(u: Setup, t: Trace, s: F.Sys) {
    u.sender in s.pcs && HasTaken(s.pcs[u.sender]) ==>
      var b := s.pcs[u.sender].b;
      b in F.Ids(s.out) && b in t.at && forall x :: x in t.answered ==> x == b || Earlier(t, x, b)
  }

  predicate HasTaken(pc: F.Pc) {
    pc.GetUnlocking? || pc.Clearing? || pc.Holding?
  }

  ghost predicate Sound(u: Setup, t: Trace) {
    Roles(u, QueueOf(u, t)) && Asked(u, t, QueueOf(u, t)) && Answered(u, t, QueueOf(u, t))
  }

  // ------------------------------------------------------------ step lemmas

  lemma QueueNext(u: Setup, t: Trace, q: F.Event)
    requires F.Enabled(QueueOf(u, t), q)
    ensures F.Followable(QueueOf(u, t), q)
    ensures F.Run(u.form, u.threads, t.queue + [q]) == F.Step(u.form, QueueOf(u, t), q)
  {
    var longer := F.RunNext(u.form, u.threads, t.queue, q);
  }

  lemma RolesKept(u: Setup, s: F.Sys, q: F.Event, s': F.Sys)
    requires F.Followable(s, q) && F.Moves(u.form, s, q, s') && Roles(u, s)
    requires (q.New? ==> q.t == u.receiver) && (q.LockGet? ==> q.t == u.sender)
    ensures Roles(u, s')
  {
  }

  /** What a step of the queue by itself does to the blocks put and in hand. */
  lemma FiledKept(u: Setup, s: F.Sys, q: F.Event, s': F.Sys)
    requires F.Followable(s, q) && F.Moves(u.form, s, q, s') && Roles(u, s) && !q.New?
    ensures s'.put + InHand(u, s') == s.put + InHand(u, s)
  {
    if q.Link? {
      assert InHand(u, s') == [] && InHand(u, s) == [s.pcs[q.t].b];
    } else {
      assert InHand(u, s') == InHand(u, s);
    }
  }

  /** And to the slots stored. */
  lemma SlotsKept(u: Setup, s: F.Sys, q: F.Event, s': F.Sys, b: F.Id)
    requires F.Followable(s, q) && F.Moves(u.form, s, q, s') && Roles(u, s) && !q.New? && b in s.info
    ensures b in s'.info
    ensures if q.Store? && s.pcs[q.t].b == b then s'.info[b].alistIdx == q.idx else s'.info[b] == s.info[b]
    ensures u.receiver in s.pcs && s.pcs[u.receiver] == F.Filling(b) ==>
              (q.Store? && s.pcs[q.t].b == b) || (u.receiver in s'.pcs && s'.pcs[u.receiver] == F.Filling(b))
  {
  }

  lemma QueueAsked(u: Setup, t: Trace, s: F.Sys, q: F.Event, s': F.Sys)
    requires F.Followable(s, q) && F.Moves(u.form, s, q, s') && Roles(u, s) && !q.New? && Asked(u, t, s)
    requires q.Store? ==> s.pcs[q.t].b in t.slot && q.idx == t.slot[s.pcs[q.t].b]
    ensures Asked(u, t, s')
  {
    FiledKept(u, s, q, s');
    forall b | b in t.asked
      ensures Recorded(u, t, s', b)
    {
      assert Recorded(u, t, s, b);
      SlotsKept(u, s, q, s', b);
    }
  }

  /** Blocks that have left stay so; what is taken is the first of the queue. */
  lemma OutKept(u: Setup, s: F.Sys, q: F.Event, s': F.Sys)
    requires F.Followable(s, q) && F.Moves(u.form, s, q, s') && F.Represents(s)
    ensures forall x :: x in F.Ids(s.out) ==> x in F.Ids(s'.out)
    ensures q.Take? && s.first != F.Null ==>
              s.queue != [] && s.queue[0] in F.Ids(s'.out) && s'.pcs[q.t] == F.GetUnlocking(s.queue[0])
  {
    assert |s.out| <= |s'.out| && s'.out[..|s.out|] == s.out;
    assert forall k :: 0 <= k < |s.out| ==> F.Ids(s'.out)[k] == F.Ids(s.out)[k];
    if q.Take? && s.first != F.Null {
      assert F.Ids(s'.out)[|s.out|] == s.queue[0];
    }
  }

  /** What the FIFO task has in hand comes from the queue. */
  lemma HandKept(u: Setup, s: F.Sys, q: F.Event, s': F.Sys)
    requires F.Followable(s, q) && F.Moves(u.form, s, q, s') && u.sender in s'.pcs && HasTaken(s'.pcs[u.sender])
    ensures u.sender in s.pcs
    ensures (HasTaken(s.pcs[u.sender]) && s'.pcs[u.sender].b == s.pcs[u.sender].b)
            || (q.Take? && q.t == u.sender && s.first != F.Null)
  {
  }

  lemma HandInTurn(u: Setup, t: Trace, s: F.Sys, q: F.Event, s': F.Sys)
    requires Asked(u, t, s) && Answered(u, t, s) && F.Followable(s, q) && F.Moves(u.form, s, q, s')
    requires F.Represents(s) && F.InOrder(s)
    ensures HandLast(u, t, s')
  {
    OutKept(u, s, q, s');
    if u.sender in s'.pcs && HasTaken(s'.pcs[u.sender]) {
      HandKept(u, s, q, s');
      if !(HasTaken(s.pcs[u.sender]) && s'.pcs[u.sender].b == s.pcs[u.sender].b) {
        NextInTurn(u, t, s);
      }
    }
  }

  lemma QueueAnswered(u: Setup, t: Trace, s: F.Sys, q: F.Event, s': F.Sys)
    requires Asked(u, t, s) && Answered(u, t, s) && F.Followable(s, q) && F.Moves(u.form, s, q, s')
    requires F.Represents(s) && F.InOrder(s)
    ensures Answered(u, t, s')
  {
    OutKept(u, s, q, s');
    HandInTurn(u, t, s, q, s');
  }

  /** The first of the queue came after all requests that have been answered. */
  lemma NextInTurn(u: Setup, t: Trace, s: F.Sys)
    requires Asked(u, t, s) && Answered(u, t, s) && F.InOrder(s) && s.queue != []
    ensures var b := s.queue[0]; b in t.at && forall x :: x in t.answered ==> Earlier(t, x, b)
  {
    var gone := F.Ids(s.out);
    assert t.asked == (gone + s.queue) + InHand(u, s);
    assert t.asked[|gone|] == s.queue[0];
    assert s.queue[0] in t.asked && Recorded(u, t, s, s.queue[0]);
    forall x | x in t.answered
      ensures Earlier(t, x, s.queue[0])
    {
      var k :| 0 <= k < |gone| && gone[k] == x;
      assert t.asked[k] == x;
    }
  }

  /** More happens in the host; what is recorded of the past stays. */
  lemma HostKept(u: Setup, t: Trace, s: F.Sys, h: H.Event)
    requires Asked(u, t, s)
    ensures Asked(u, t.(host := t.host + [h]), s)
  {
    var t' := t.(host := t.host + [h]);
    forall b | b in t'.asked
      ensures Recorded(u, t', s, b)
    {
      assert Recorded(u, t, s, b);
      CameInKept(u, t.host, h, t.at[b], t.slot[b]);
    }
  }

  lemma CameInKept(u: Setup, host: seq<H.Event>, h: H.Event, at: nat, slot: nat)
    requires CameIn(u, host, at, slot)
    ensures CameIn(u, host + [h], at, slot)
  {
    assert (host + [h])[..at] == host[..at];
  }

  /** After a receive that yields a frame the slot is still occupied. */
  lemma RequestOccupied(u: Setup, t: Trace, recv: H.Event, b: F.Id, header: F.Info)
    requires u.listenFD > 0 && RequestStep(u, t, recv, b, header)
    ensures CameIn(u, t.host + [recv], |t.host| + 1, recv.i)
  {
    var h := HostOf(u, t);
    H.RunSafe(u.o, u.listenFD, t.host);
    assert H.SlotAgrees(u.listenFD, h, recv.i);
    assert (t.host + [recv])[..|t.host + [recv]| - 1] == t.host;
    assert H.Run(u.o, u.listenFD, t.host + [recv]) == H.Step(u.o, h, recv);
    StillOccupied(u.o, h, recv);
    assert (t.host + [recv])[..|t.host| + 1] == t.host + [recv];
  }

  lemma StillOccupied(o: ByteOrder, h: State, recv: H.Event)
    requires H.Callable(h, recv) && recv.Recv? && h.alist[recv.i].acceptFD > 0 && H.Occupied(h, recv.i)
    requires Received(o, h, recv.i, recv.chunks).1.n > 0
    ensures H.Occupied(H.Step(o, h, recv), recv.i)
  {
  }

  lemma NewFiled(u: Setup, s: F.Sys, b: F.Id, header: F.Info, s': F.Sys)
    requires F.Followable(s, F.New(u.receiver, b, header)) && F.Moves(u.form, s, F.New(u.receiver, b, header), s')
    ensures s'.put == s.put && InHand(u, s) == [] && InHand(u, s') == [b] && s'.pcs[u.receiver] == F.Filling(b)
    ensures b !in s.info && s'.info == s.info[b := header] && s'.out == s.out
    ensures u.sender in s'.pcs && HasTaken(s'.pcs[u.sender]) ==>
              u.sender in s.pcs && HasTaken(s.pcs[u.sender]) && s'.pcs[u.sender] == s.pcs[u.sender]
  {
  }

  lemma RequestAsked(u: Setup, t: Trace, s: F.Sys, recv: H.Event, b: F.Id, header: F.Info, s': F.Sys)
    requires recv.Recv? && F.Followable(s, F.New(u.receiver, b, header)) && Asked(u, t, s)
    requires F.Moves(u.form, s, F.New(u.receiver, b, header), s')
    requires CameIn(u, t.host + [recv], |t.host| + 1, recv.i)
    ensures Asked(u, Requested(t, u.receiver, recv, b, header), s')
  {
    var t' := Requested(t, u.receiver, recv, b, header);
    NewFiled(u, s, b, header, s');
    assert b !in t.asked by {
      assert b in t.asked ==> Recorded(u, t, s, b);
    }
    forall x | x in t'.asked
      ensures Recorded(u, t', s', x)
    {
      if x != b {
        assert Recorded(u, t, s, x);
        CameInKept(u, t.host, recv, t.at[x], t.slot[x]);
      }
    }
    RequestLast(u, t, s, t', b);
  }

  lemma RequestLast(u: Setup, t: Trace, s: F.Sys, t': Trace, b: F.Id)
    requires Asked(u, t, s) && b !in t.asked && t'.asked == t.asked + [b] && t'.at == t.at[b := |t.host| + 1]
    ensures forall j, k :: 0 <= j < k < |t'.asked| ==> Earlier(t', t'.asked[j], t'.asked[k])
  {
    forall j, k | 0 <= j < k < |t'.asked|
      ensures Earlier(t', t'.asked[j], t'.asked[k])
    {
      assert t'.asked[j] == t.asked[j] && Recorded(u, t, s, t.asked[j]);
      if k < |t.asked| {
        assert t'.asked[k] == t.asked[k] && Earlier(t, t.asked[j], t.asked[k]);
      }
    }
  }

  lemma RequestAnswered(u: Setup, t: Trace, s: F.Sys, recv: H.Event, b: F.Id, header: F.Info, s': F.Sys)
    requires recv.Recv? && F.Followable(s, F.New(u.receiver, b, header)) && Asked(u, t, s) && Answered(u, t, s)
    requires F.Moves(u.form, s, F.New(u.receiver, b, header), s') && F.InOrder(s)
    ensures Answered(u, Requested(t, u.receiver, recv, b, header), s')
  {
    NewFiled(u, s, b, header, s');
    NoneIsNew(u, t, s, b);
  }

  lemma NoneIsNew(u: Setup, t: Trace, s: F.Sys, b: F.Id)
    requires Asked(u, t, s) && F.InOrder(s) && b !in s.info
    ensures forall x :: x in F.Ids(s.out) ==> x != b && x in t.at
  {
    forall x | x in F.Ids(s.out)
      ensures x != b && x in t.at
    {
      LeftWasAsked(u, t, s, x);
    }
  }

  lemma LeftWasAsked(u: Setup, t: Trace, s: F.Sys, x: F.Id)
    requires Asked(u, t, s) && F.InOrder(s) && x in F.Ids(s.out)
    ensures x in t.asked && Recorded(u, t, s, x)
  {
    var k :| 0 <= k < |F.Ids(s.out)| && F.Ids(s.out)[k] == x;
    assert t.asked == (F.Ids(s.out) + s.queue) + InHand(u, s);
    assert t.asked[k] == x;
  }

  lemma AnswerAnswered(u: Setup, t: Trace, s: F.Sys, send: H.Event)
    requires Answered(u, t, s) && u.sender in s.pcs && s.pcs[u.sender].Holding? && s.pcs[u.sender].b !in t.answered
    ensures Answered(u, t.(host := t.host + [send], answered := t.answered + [s.pcs[u.sender].b]), s)
  {
  }

  lemma AnswerAsked(u: Setup, t: Trace, s: F.Sys, send: H.Event, b: F.Id)
    requires Asked(u, t, s)
    ensures Asked(u, t.(host := t.host + [send], answered := t.answered + [b]), s)
  {
    HostKept(u, t, s, send);
    var t1, t2 := t.(host := t.host + [send]), t.(host := t.host + [send], answered := t.answered + [b]);
    assert forall x :: x in t2.asked ==> Recorded(u, t1, s, x) && Recorded(u, t2, s, x);
    assert forall x, y :: Earlier(t1, x, y) ==> Earlier(t2, x, y);
  }

  lemma QueueSound(u: Setup, t: Trace, q: F.Event)
    requires Sound(u, t) && QueueStep(u, t, q)
    ensures Sound(u, t.(queue := t.queue + [q]))
  {
    var s, t' := QueueOf(u, t), t.(queue := t.queue + [q]);
    QueueNext(u, t, q);
    var s' := F.Step(u.form, s, q);
    F.RunSafe(u.form, u.threads, t.queue);
    F.StepMoves(u.form, s, q);
    RolesKept(u, s, q, s');
    QueueAsked(u, t, s, q, s');
    QueueAnswered(u, t, s, q, s');
    OnlyQueue(u, t, t', s');
  }

  /** What is recorded of requests does not depend on the list of queue events. */
  lemma OnlyQueue(u: Setup, t: Trace, t': Trace, s: F.Sys)
    requires t' == t.(queue := t'.queue) && Asked(u, t, s) && Answered(u, t, s)
    ensures Asked(u, t', s) && Answered(u, t', s)
  {
    assert forall b :: b in t'.asked ==> Recorded(u, t, s, b) && Recorded(u, t', s, b);
    assert forall x, y :: Earlier(t, x, y) ==> Earlier(t', x, y);
  }

  lemma RequestSound(u: Setup, t: Trace, recv: H.Event, b: F.Id, header: F.Info)
    requires u.listenFD > 0 && Sound(u, t) && RequestStep(u, t, recv, b, header)
    ensures Sound(u, Requested(t, u.receiver, recv, b, header))
  {
    var s, made := QueueOf(u, t), F.New(u.receiver, b, header);
    QueueNext(u, t, made);
    var s' := F.Step(u.form, s, made);
    F.RunSafe(u.form, u.threads, t.queue);
    F.StepMoves(u.form, s, made);
    RolesKept(u, s, made, s');
    RequestOccupied(u, t, recv, b, header);
    RequestAsked(u, t, s, recv, b, header, s');
    RequestAnswered(u, t, s, recv, b, header, s');
  }

  lemma NextSound(u: Setup, t: Trace, e: Event)
    requires u.listenFD > 0 && Sound(u, t)
    ensures Sound(u, Next(u, t, e))
  {
    match e
    case Host(h) => HostKept(u, t, QueueOf(u, t), h);
    case Queue(q) => if QueueStep(u, t, q) { QueueSound(u, t, q); }
    case Request(recv, b, header) => if RequestStep(u, t, recv, b, header) { RequestSound(u, t, recv, b, header); }
    case Answer(send) =>
      if AnswerStep(u, t, send) {
        AnswerAnswered(u, t, QueueOf(u, t), send);
        AnswerAsked(u, t, QueueOf(u, t), send, QueueOf(u, t).pcs[u.sender].b);
      }
  }

  lemma {:induction false} PlaySound(u: Setup, events: seq<Event>)
    requires u.listenFD > 0
    ensures Sound(u, Play(u, events))
  {
    if events != [] {
      PlaySound(u, events[..|events| - 1]);
      NextSound(u, Play(u, events[..|events| - 1]), events[|events| - 1]);
    }
  }

  // ---------------------------------------------------------------- results

  /** With one receive task and one FIFO task, answers go out in the order in which the requests came in: on all
      connections together, and so on each of them. */
  lemma AnswersInOrder(u: Setup, events: seq<Event>, j: nat, k: nat)
    requires u.listenFD > 0 && j < k < |Play(u, events).answered|
    ensures Earlier(Play(u, events), Play(u, events).answered[j], Play(u, events).answered[k])
  {
    PlaySound(u, events);
  }

  /** The slot that an answer goes by is the one its request came in on, although it has been through the queue. */
  lemma SlotCarried(u: Setup, events: seq<Event>, send: H.Event)
    requires u.listenFD > 0 && AnswerStep(u, Play(u, events), send)
    ensures var t := Play(u, events);
            var b := QueueOf(u, t).pcs[u.sender].b;
            Recorded(u, t, QueueOf(u, t), b) && t.slot[b] == send.i
  {
    var t := Play(u, events);
    PlaySound(u, events);
    F.RunSafe(u.form, u.threads, t.queue);
    LeftWasAsked(u, t, QueueOf(u, t), QueueOf(u, t).pcs[u.sender].b);
  }

  /** If an answer is sent in full, its frame ends up on the connection that the request came from exactly if
      the slot was never freed since. */
  lemma AnswerReachesAsker(u: Setup, events: seq<Event>, send: H.Event)
    requires u.listenFD > 0 && AnswerStep(u, Play(u, events), send) && send.nbytes > 0
    ensures var t := Play(u, events);
            var h, b := HostOf(u, t), QueueOf(u, t).pcs[u.sender].b;
            && b in t.at && t.at[b] <= |t.host|
            && var asked := H.Run(u.o, u.listenFD, t.host[..t.at[b]]);
            var (h', n) := Sent(u.o, h, send.i, send.buf, send.nbytes, send.polls, send.sends);
            n == send.nbytes ==>
              && H.Connected(asked, send.i) && H.Connected(h, send.i) && H.Connected(h', send.i)
              && h'.net.conns[h'.alist[send.i].acceptFD].outbound
                 == h.net.conns[h.alist[send.i].acceptFD].outbound + Frame(u.o, send.buf, send.nbytes)
              && (H.IdAt(h', send.i) == H.IdAt(asked, send.i)
                  <==> H.NeverFreed(u.o, u.listenFD, t.host, t.at[b], send.i))
  {
    var t := Play(u, events);
    SlotCarried(u, events, send);
    H.SameConnection(u.o, u.listenFD, t.host, t.at[QueueOf(u, t).pcs[u.sender].b], send.i);
    H.RunSafe(u.o, u.listenFD, t.host);
    AnswerSent(u.o, u.listenFD, HostOf(u, t), send);
  }

  /** A send that succeeds leaves its frame on the slot's connection, which stays the same one. */
  lemma AnswerSent(o: ByteOrder, listenFD: int, s: State, e: H.Event)
    requires H.Tables(listenFD, s) && e.Send? && H.Callable(s, e) && e.nbytes > 0
    ensures var (s', n) := Sent(o, s, e.i, e.buf, e.nbytes, e.polls, e.sends);
            n == e.nbytes ==>
              && H.Connected(s, e.i) && H.Connected(s', e.i) && H.IdAt(s', e.i) == H.IdAt(s, e.i)
              && s'.net.conns[s'.alist[e.i].acceptFD].outbound
                 == s.net.conns[s.alist[e.i].acceptFD].outbound + Frame(o, e.buf, e.nbytes)
  {
    assert H.SlotAgrees(listenFD, s, e.i);
  }

  // ---------------------------------------------------------------- service

  /** More happens after `t`. */
  function PlayOn(u: Setup, t: Trace, more: seq<Event>): Trace {
    if more == [] then t else Next(u, PlayOn(u, t, more[..|more| - 1]), more[|more| - 1])
  }

  lemma {:induction false} PlayConcat(u: Setup, events: seq<Event>, more: seq<Event>)
    ensures Play(u, events + more) == PlayOn(u, Play(u, events), more)
  {
    if more == [] {
      assert events + more == events;
    } else {
      PlayConcat(u, events, more[..|more| - 1]);
      assert (events + more)[..|events + more| - 1] == events + more[..|more| - 1];
    }
  }

  /** `t'` may come after `t`. */
  ghost predicate Later(u: Setup, t: Trace, t': Trace) {
    exists more :: PlayOn(u, t, more) == t'
  }

  lemma LaterNext(u: Setup, t: Trace, m: Trace, e: Event)
    requires Later(u, t, m)
    ensures Later(u, t, Next(u, m, e))
  {
    var more :| PlayOn(u, t, more) == m;
    assert (more + [e])[..|more + [e]| - 1] == more;
    assert PlayOn(u, t, more + [e]) == Next(u, m, e);
  }

  lemma LaterNow(u: Setup, t: Trace)
    ensures Later(u, t, t)
  {
    assert PlayOn(u, t, []) == t;
  }

  /** One of the two tasks is inside its call of the queue. */
  predicate InCall(u: Setup, q: F.Event) {
    S.PartOf(S.Put, u.receiver, q) || S.PartOf(S.Get, u.sender, q)
  }

  /** The trace `m` with one more queue event. */
  lemma QueueOne(u: Setup, t: Trace, m: Trace, q: F.Event) returns (m': Trace)
    requires Later(u, t, m) && QueueStep(u, m, q)
    ensures F.Followable(QueueOf(u, m), q)
    ensures m' == m.(queue := m.queue + [q]) && Later(u, t, m') && QueueOf(u, m') == F.Step(u.form, QueueOf(u, m), q)
  {
    LaterNext(u, t, m, Queue(q));
    QueueNext(u, m, q);
    m' := m.(queue := m.queue + [q]);
  }

  /** `m'` comes after `t`, has nothing but queue events behind `m`, and has the queue in state `s`. */
  ghost predicate Follows(u: Setup, t: Trace, m: Trace, m': Trace, s: F.Sys) {
    Later(u, t, m') && m' == m.(queue := m'.queue) && QueueOf(u, m') == s
  }

  lemma FollowsOne(u: Setup, t: Trace, m: Trace, m1: Trace, s: F.Sys, q: F.Event, s': F.Sys) returns (m': Trace)
    requires Follows(u, t, m, m1, s) && F.Followable(s, q) && InCall(u, q) && s' == F.Step(u.form, s, q)
    ensures Follows(u, t, m, m', s')
  {
    m' := QueueOne(u, t, m1, q);
  }

  /** What one of the two tasks does undisturbed in the queue is a run of the whole. */
  lemma {:induction false} QueueFollows(u: Setup, t: Trace, m: Trace, steps: seq<F.Event>, s: F.Sys, s': F.Sys)
    returns (m': Trace)
    requires Follows(u, t, m, m, s) && S.Path(u.form, s, steps, s') && forall q :: q in steps ==> InCall(u, q)
    ensures Follows(u, t, m, m', s')
    decreases |steps|
  {
    if steps == [] {
      m' := m;
    } else {
      var n := S.PathLast(u.form, s, steps, s');
      m' := QueueFollows(u, t, m, steps[..|steps| - 1], s, n);
      m' := FollowsOne(u, t, m, m', n, steps[|steps| - 1], s');
    }
  }

  lemma CallFollows(u: Setup, t: Trace, m: Trace, call: S.Call, task: F.Tid, s: F.Sys, s': F.Sys)
    returns (m': Trace)
    requires Follows(u, t, m, m, s) && S.Leads(u.form, s, call, task, s')
    requires task == match call case Put => u.receiver case Get => u.sender
    ensures Follows(u, t, m, m', s')
  {
    var steps :| S.Path(u.form, s, steps, s') && forall e :: e in steps ==> S.PartOf(call, task, e);
    assert forall q :: q in steps ==> InCall(u, q);
    m' := QueueFollows(u, t, m, steps, s, s');
  }

  /** The two tasks are between calls, or the FIFO task waits, and nothing is queued. */
  predicate AtRest(u: Setup, s: F.Sys) {
    && s.lock == F.Free && s.queue == [] && u.sender != u.receiver && u.sender in s.pcs
    && (s.pcs[u.sender] == F.Idle || s.pcs[u.sender] == F.Waiting)
    && forall w :: w in s.pcs && s.pcs[w] == F.Waiting ==> w == u.sender
  }

  /** The request has been made after `t`, and nothing has been answered since. */
  ghost predicate Asks(t: Trace, m: Trace, i: nat, b: F.Id) {
    && |m.host| == |t.host| + 1 && m.host[..|t.host|] == t.host
    && m.answered == t.answered && b in m.slot && m.slot[b] == i
  }

  /** The block is made, and its slot stored. */
  lemma RequestFiled(u: Setup, t: Trace, s: F.Sys, recv: H.Event, b: F.Id, header: F.Info) returns (m: Trace)
    requires RequestStep(u, t, recv, b, header) && s == QueueOf(u, t)
    ensures Later(u, t, m) && Asks(t, m, recv.i, b) && u.receiver in s.pcs && b !in s.info
    ensures s.pcs[u.receiver] == F.Idle
    ensures var s' := QueueOf(u, m);
            && s'.pcs == s.pcs[u.receiver := F.Prepared(b)] && s'.lock == s.lock && s'.queue == s.queue
            && b in s'.info && s'.info[b] == F.Info(header.size, recv.i)
  {
    var m1, s1 := RequestMade(u, t, s, recv, b, header);
    m := RequestStored(u, t, m1, s1, recv.i, b);
    assert s.pcs[u.receiver := F.Filling(b)][u.receiver := F.Prepared(b)] == s.pcs[u.receiver := F.Prepared(b)];
  }

  lemma RequestStored(u: Setup, t: Trace, m: Trace, s: F.Sys, i: nat, b: F.Id) returns (m': Trace)
    requires Later(u, t, m) && s == QueueOf(u, m) && b in m.slot && m.slot[b] == i && b in s.info
    requires u.receiver in s.pcs && s.pcs[u.receiver] == F.Filling(b)
    ensures Later(u, t, m') && m' == m.(queue := m'.queue)
    ensures var s' := QueueOf(u, m');
            && s'.pcs == s.pcs[u.receiver := F.Prepared(b)] && s'.lock == s.lock && s'.queue == s.queue
            && s'.info == s.info[b := F.Info(s.info[b].size, i)]
  {
    m' := QueueOne(u, t, m, F.Store(u.receiver, i));
  }

  lemma RequestMade(u: Setup, t: Trace, s: F.Sys, recv: H.Event, b: F.Id, header: F.Info) returns (m: Trace, s': F.Sys)
    requires RequestStep(u, t, recv, b, header) && s == QueueOf(u, t)
    ensures Later(u, t, m) && Asks(t, m, recv.i, b) && u.receiver in s.pcs && b !in s.info
    ensures s.pcs[u.receiver] == F.Idle
    ensures s' == QueueOf(u, m) && s'.pcs == s.pcs[u.receiver := F.Filling(b)]
    ensures s'.lock == s.lock && s'.queue == s.queue && s'.info == s.info[b := header]
  {
    LaterNow(u, t);
    LaterNext(u, t, t, Request(recv, b, header));
    QueueNext(u, t, F.New(u.receiver, b, header));
    m := Requested(t, u.receiver, recv, b, header);
    s' := QueueOf(u, m);
  }

  /** The receive task queues the block; the FIFO task, if it waits, is woken. */
  lemma FiledQueued(u: Setup, t: Trace, m: Trace, s: F.Sys, b: F.Id) returns (m': Trace)
    requires Later(u, t, m) && AtRest(u, s) && u.receiver in s.pcs && s.pcs[u.receiver] == F.Idle
    requires var s' := QueueOf(u, m);
             s'.pcs == s.pcs[u.receiver := F.Prepared(b)] && s'.lock == F.Free && s'.queue == []
    ensures Later(u, t, m') && m' == m.(queue := m'.queue)
    ensures var s' := QueueOf(u, m');
            && s'.lock == F.Free && s'.queue == [b] && s'.info == QueueOf(u, m).info
            && u.sender in s'.pcs && (s'.pcs[u.sender] == F.Idle || s'.pcs[u.sender] == F.Signalled)
  {
    var s1 := QueueOf(u, m);
    F.RunSafe(u.form, u.threads, m.queue);
    var s2 := S.PutServes(u.form, s1, u.receiver, b, u.sender);
    m' := CallFollows(u, t, m, S.Put, u.receiver, s1, s2);
  }

  /** And takes it. */
  lemma QueuedTaken(u: Setup, t: Trace, m: Trace, b: F.Id) returns (m': Trace)
    requires Later(u, t, m)
    requires var s := QueueOf(u, m);
             && s.lock == F.Free && s.queue == [b] && u.sender in s.pcs
             && (s.pcs[u.sender] == F.Idle || s.pcs[u.sender] == F.Signalled)
    ensures Later(u, t, m') && m' == m.(queue := m'.queue)
    ensures var s' := QueueOf(u, m');
            s'.info == QueueOf(u, m).info && u.sender in s'.pcs && s'.pcs[u.sender] == F.Holding(b)
  {
    var s1 := QueueOf(u, m);
    F.RunSafe(u.form, u.threads, m.queue);
    var s2 := s1;
    if s1.pcs[u.sender] == F.Idle {
      s2 := S.GetServes(u.form, s1, u.sender);
    } else {
      s2 := S.WokenServes(u.form, s1, u.sender);
    }
    m' := CallFollows(u, t, m, S.Get, u.sender, s1, s2);
  }

  lemma NotAnswered(u: Setup, events: seq<Event>, b: F.Id)
    requires u.listenFD > 0 && b !in QueueOf(u, Play(u, events)).info
    ensures b !in Play(u, events).answered
  {
    var t := Play(u, events);
    PlaySound(u, events);
    F.RunSafe(u.form, u.threads, t.queue);
    NoneIsNew(u, t, QueueOf(u, t), b);
  }

  /** The FIFO task holds the block of the request, with the slot that it came in on. */
  ghost predicate InHands(u: Setup, m: Trace, b: F.Id, size: Word, i: nat) {
    var s := QueueOf(u, m);
    && u.sender in s.pcs && s.pcs[u.sender] == F.Holding(b)
    && b in s.info && s.info[b] == F.Info(size, i)
  }

  lemma RequestTaken(u: Setup, t: Trace, recv: H.Event, b: F.Id, header: F.Info) returns (m: Trace)
    requires RequestStep(u, t, recv, b, header) && AtRest(u, QueueOf(u, t))
    ensures Later(u, t, m) && Asks(t, m, recv.i, b) && InHands(u, m, b, header.size, recv.i)
    ensures b !in QueueOf(u, t).info
  {
    m := RequestFiled(u, t, QueueOf(u, t), recv, b, header);
    m := FiledQueued(u, t, m, QueueOf(u, t), b);
    m := QueuedTaken(u, t, m, b);
  }

  /** Then any answer by that slot is this request's. */
  lemma AnswerFollows(u: Setup, m: Trace, b: F.Id, size: Word, send: H.Event)
    requires send.Send? && InHands(u, m, b, size, send.i) && b !in m.answered
    requires H.Callable(HostOf(u, m), send) && H.Allowed(u.listenFD, HostOf(u, m), send)
    ensures AnswerStep(u, m, send) && Next(u, m, Answer(send)).answered == m.answered + [b]
  {
  }

  /** At each point of a run where the tasks are at rest a request can be served: there is a way on in which its
      block goes through the queue, whether the FIFO task waits for it or not, and is then in that task's hands.
      Any answer by the slot of the request may follow, and is this request's (`AnswerFollows`). */
  lemma RequestServed(u: Setup, events: seq<Event>, recv: H.Event, b: F.Id, header: F.Info) returns (m: Trace)
    requires u.listenFD > 0 && RequestStep(u, Play(u, events), recv, b, header)
    requires AtRest(u, QueueOf(u, Play(u, events)))
    ensures exists more :: Play(u, events + more) == m
    ensures var t := Play(u, events);
            Asks(t, m, recv.i, b) && InHands(u, m, b, header.size, recv.i) && b !in m.answered
  {
    m := RequestTaken(u, Play(u, events), recv, b, header);
    NotAnswered(u, events, b);
    LaterPlay(u, events, m);
  }

  lemma LaterPlay(u: Setup, events: seq<Event>, m: Trace)
    requires Later(u, Play(u, events), m)
    ensures exists more :: Play(u, events + more) == m
  {
    var more :| PlayOn(u, Play(u, events), more) == m;
    PlayConcat(u, events, more);
  }
}
