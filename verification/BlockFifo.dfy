/** The message queue of `host_fifo.c` on the heap: a linked list whose tail is a pointer to a pointer. */
module BlockFifo {
  import opened Sequences
  import opened Tpkt

  /** The parts of a received message that a block keeps. */
  datatype Message = Message(systemId: nat, msgType: Word, msgSize: Word)

  class Block {
    var next: Block?
    const header: Message
    const message: array<Byte>
    var alistIdx: int
    ghost var freed: bool

    /** The body of `block_New` once both allocations have succeeded. */
    constructor (header: Message)
      ensures next == null && this.header == header && !freed
      ensures fresh(message) && message.Length == header.msgSize
    {
      next, alistIdx, freed := null, 0, false;
      this.header := header;
      message := new Byte[header.msgSize](_ => 0);
    }

    /** `block_Release`: the message buffer and the block go together, and only once. */
    method Release()
      requires !freed
      modifies this`freed
      ensures freed
    {
      freed := true;
    }
  }

  /** `block_New`; the two flags say whether the allocations succeed. */
  method BlockNew(header: Message, blockOk: bool, messageOk: bool) returns (b: Block?)
    ensures b != null <==> blockOk && messageOk
    ensures b != null ==>
      && fresh(b) && fresh(b.message) && b.next == null && b.header == header
      && !b.freed && b.message.Length == header.msgSize
  {
    if !blockOk || !messageOk {
      return null;
    }
    b := new Block(header);
  }

  /** What `pp_last` points at: the queue's own `p_first`, or the `p_next` of a block. */
  datatype Last = AtFirst | AtNext(block: Block)

  function TotalSize(q: seq<Block>): nat {
    if q == [] then 0 else q[0].header.msgSize + TotalSize(q[1..])
  }

  function Successor(q: seq<Block>, i: int): Block? {
    if 0 <= i + 1 < |q| then q[i + 1] else null
  }

  /** `q` starts at `first`, holds no block twice and none released, and is linked up to its last block. */
  ghost predicate Linked(first: Block?, q: seq<Block>)
    reads q
  {
    && first == (if q == [] then null else q[0])
    && NoRepeats(q)
    && (forall i {:trigger q[i].freed} :: 0 <= i < |q| ==> !q[i].freed)
    && (forall i {:trigger q[i].next} :: 0 <= i < |q| - 1 ==> q[i].next == Successor(q, i))
  }

  /** A linked list that ends in null. */
  ghost predicate Chain(first: Block?, q: seq<Block>)
    reads q
  {
    Linked(first, q) && (q != [] ==> q[|q| - 1].next == null)
  }

  /** The part of a list from position `n` on is still linked as a list of its own. */
  ghost predicate Ahead(q: seq<Block>, n: nat)
    reads q
  {
    forall i {:trigger q[i].next} {:trigger q[i].freed} :: n <= i < |q| ==> !q[i].freed && q[i].next == Successor(q, i)
  }

  lemma ChainAhead(q: seq<Block>, chain: seq<Block>, block: Block)
    requires chain != [] && Chain(block, chain)
    ensures Ahead(q + chain, |q|) && Successor(q + chain, |q| - 1) == block
  {
    var all := q + chain;
    forall i | |q| <= i < |all|
      ensures !all[i].freed && all[i].next == Successor(all, i)
    {
      assert all[i] == chain[i - |q|];
      assert !chain[i - |q|].freed;
      assert i + 1 < |all| ==> all[i + 1] == chain[i + 1 - |q|];
    }
  }

  class Fifo {
    var depth: int
    var first: Block?
    var last: Last
    var size: int

    /** The blocks in the queue, oldest first. */
    ghost var queue: seq<Block>

    ghost predicate Valid()
      reads this, queue
    {
      Consistent() && Chain(first, queue)
    }

    /** `Valid`, except that the last block may point on. */
    ghost predicate Consistent()
      reads this, queue
    {
      && Linked(first, queue)
      && last == (if queue == [] then AtFirst else AtNext(queue[|queue| - 1]))
      && depth == |queue| && size == TotalSize(queue)
    }

    /** The connection slots of the queued messages, oldest first. */
    ghost function Slots(): seq<int>
      reads this, queue
    {
      seq(|queue|, i requires 0 <= i < |queue| reads this, queue => queue[i].alistIdx)
    }

    constructor ()
      ensures Valid() && queue == []
    {
      depth, size, first, last, queue := 0, 0, null, AtFirst, [];
    }

    /** The block, if any, whose `p_next` is what `pp_last` points at. */
    ghost function Tail(): set<Block>
      reads this
    {
      if last.AtNext? then {last.block} else {}
    }

    /** The stores of one round of the loop in `block_FifoPut`. */
    method Link(b: Block)
      requires Consistent() && b !in queue && !b.freed
      modifies this, Tail()`next
      ensures Consistent() && queue == old(queue) + [b] && size == old(size) + b.header.msgSize
    {
      Join(queue, [b]);
      if queue != [] {
        OnlyAt(queue, |queue| - 1);
      }
      match last {
        case AtFirst => first := b;
        case AtNext(l) => l.next := b;
      }
      last := AtNext(b);
      depth := depth + 1;
      size := size + b.header.msgSize;
      TotalSizeAppend(queue, b);
      queue := queue + [b];
    }

    /** One round of the loop in `block_FifoPut`. */
    method LinkNext(block: Block, ghost all: seq<Block>, ghost n: nat) returns (next: Block?)
      requires Consistent() && n < |all| && block == all[n] && queue == all[..n]
      requires NoRepeats(all) && Ahead(all, n)
      modifies this, all`next
      ensures Consistent() && queue == all[..n + 1] && size == old(size) + block.header.msgSize
      ensures Ahead(all, n + 1) && next == block.next
      ensures next == if n + 1 < |all| then all[n + 1] else null
    {
      OnlyAt(all, n);
      TakeNext(all, n);
      assert last.AtNext? ==> last.block == all[n - 1];
      if n > 0 {
        OnlyAt(all, n - 1);
      }
      Link(block);
      next := block.next;
    }

    /** The loop in `block_FifoPut`: of the list `all`, linked up to here, the blocks from `start` on join. */
    method LinkAll(block: Block, ghost all: seq<Block>, ghost start: nat) returns (added: int)
      requires Consistent() && start < |all| && block == all[start] && queue == all[..start]
      requires NoRepeats(all) && Ahead(all, start)
      modifies this, all`next
      ensures Consistent() && queue == all && all[|all| - 1].next == null
      ensures added == size - old(size)
    {
      added := 0;
      var p: Block? := block;
      ghost var n := start;
      while p != null
        invariant start <= n <= |all| && p == if n < |all| then all[n] else null
        invariant Consistent() && queue == all[..n] && Ahead(all, n)
        invariant n > start ==> all[n - 1].next == p
        invariant added == size - old(size)
        decreases |all| - n
      {
        added := added + p.header.msgSize;
        ghost var linked := p;
        p := LinkNext(p, all, n);
        n := n + 1;
        assert all[n - 1] == linked;
      }
      assert all[..n] == all;
    }

    /** `block_FifoPut` with a chain of one or more blocks, none of them in the queue. */
    method Put(block: Block, ghost chain: seq<Block>) returns (added: int)
      requires Valid() && chain != [] && Chain(block, chain)
      requires forall b :: b in chain ==> b !in queue
      modifies this, queue`next, chain`next
      ensures Valid() && queue == old(queue) + chain
      ensures added == TotalSize(chain)
    {
      ghost var start, all := |queue|, queue + chain;
      Join(queue, chain);
      ChainAhead(queue, chain, block);
      TotalSizeConcat(queue, chain);
      assert forall b :: b in all <==> b in queue || b in chain;
      added := LinkAll(block, all, start);
    }

    /** `block_FifoGet` when the wait for a block, if there is one, times out. */
    method Get() returns (b: Block?)
      requires Valid()
      modifies this, queue`next
      ensures Valid()
      ensures old(queue) == [] ==> b == null && queue == []
      ensures old(queue) != [] ==>
        && b == old(queue[0]) && queue == old(queue)[1..]
        && b.next == null && !b.freed && old(Slots()) == [b.alistIdx] + Slots()
    {
      if first == null {
        return null;
      }
      b := first;
      assert b == queue[0];
      TailOf(queue);
      first := b.next;
      depth := depth - 1;
      size := size - b.header.msgSize;
      if first == null {
        last := AtFirst;
      }
      queue := queue[1..];
      b.next := null;
    }

    /** `i_size` is never negative and at most 65535 bytes a block. */
    lemma CountersBounded()
      requires Valid()
      ensures 0 <= size <= 0xFFFF * depth
    {
      TotalSizeBound(queue);
    }

    /** `block_FifoEmpty`: exactly the queued blocks are released, each once. */
    method Empty()
      requires Valid()
      modifies this, queue`freed
      ensures Valid() && queue == []
      ensures forall b :: b in old(queue) ==> b.freed
    {
      var b := first;
      ghost var k := 0;
      while b != null
        invariant 0 <= k <= |queue| && queue == old(queue)
        invariant b == if k < |queue| then queue[k] else null
        invariant forall i :: 0 <= i < |queue| ==> queue[i].freed == (i < k)
        invariant forall i {:trigger queue[i].next} :: 0 <= i < |queue| ==> queue[i].next == Successor(queue, i)
        decreases |queue| - k
      {
        assert b == queue[k];
        OnlyAt(queue, k);
        var next := b.next;
        b.Release();
        b := next;
        k := k + 1;
      }
      depth, size, first, last, queue := 0, 0, null, AtFirst, [];
    }
  }

  /** `tcp_PutFifo` up to the put: the message is copied into a new block, if there is one. */
  method BlockFor(header: Message, alistIdx: int, message: seq<Byte>, blockOk: bool, messageOk: bool)
    returns (b: Block?)
    requires |message| >= header.msgSize
    ensures b != null <==> blockOk && messageOk
    ensures b != null ==>
      && fresh(b) && fresh(b.message) && b.next == null && !b.freed
      && b.header == header && b.alistIdx == alistIdx && b.message[..] == message[..header.msgSize]
  {
    b := BlockNew(header, blockOk, messageOk);
    if b != null {
      forall i | 0 <= i < header.msgSize {
        b.message[i] := message[i];
      }
      b.alistIdx := alistIdx;
    }
  }

  /** `tcp_PutFifo`: the new block joins the queue. */
  method TcpPutFifo(fifo: Fifo, header: Message, alistIdx: int, message: seq<Byte>, blockOk: bool, messageOk: bool)
    returns (r: int)
    requires fifo.Valid() && |message| >= header.msgSize
    modifies fifo, fifo.queue`next
    ensures fifo.Valid() && (r == 0 <==> blockOk && messageOk) && r in {0, -1}
    ensures r == -1 ==> fifo.queue == old(fifo.queue) && fifo.Slots() == old(fifo.Slots())
    ensures r == 0 ==>
      && |fifo.queue| == |old(fifo.queue)| + 1 && fifo.queue[..|old(fifo.queue)|] == old(fifo.queue)
      && var b := fifo.queue[|old(fifo.queue)|];
      fresh(b) && b.header == header && b.message[..] == message[..header.msgSize]
    ensures r == 0 ==> fifo.Slots() == old(fifo.Slots()) + [alistIdx]
  {
    ghost var was := fifo.queue;
    var b := BlockFor(header, alistIdx, message, blockOk, messageOk);
    if b == null {
      return -1;
    }
    var added := fifo.Put(b, [b]);
    if added < 0 {
      return -1;
    }
    assert fifo.queue == was + [b];
    assert fifo.Slots() == old(fifo.Slots()) + [alistIdx];
    r := 0;
  }

  lemma TakeNext(q: seq<Block>, n: nat)
    requires n < |q|
    ensures q[..n + 1] == q[..n] + [q[n]]
  {
  }

  lemma {:induction false} TotalSizeAppend(q: seq<Block>, b: Block)
    ensures TotalSize(q + [b]) == TotalSize(q) + b.header.msgSize
  {
    if q == [] {
      assert [b][1..] == [];
    } else {
      assert (q + [b])[1..] == q[1..] + [b];
      TotalSizeAppend(q[1..], b);
    }
  }

  lemma {:induction false} TotalSizeConcat(q: seq<Block>, r: seq<Block>)
    ensures TotalSize(q + r) == TotalSize(q) + TotalSize(r)
  {
    if q == [] {
      assert q + r == r;
    } else {
      assert (q + r)[1..] == q[1..] + r;
      TotalSizeConcat(q[1..], r);
    }
  }

  lemma {:induction false} TotalSizeBound(q: seq<Block>)
    ensures TotalSize(q) <= 0xFFFF * |q|
  {
    if q != [] {
      TotalSizeBound(q[1..]);
    }
  }
}
