/** The timer library's allocator of timer ids: a ring that two pointers and a wrap flag keep. What it amounts to
    is a queue of the free ids, so an id that comes back is the last to be handed out again. */
module TimerIds {
  import opened Sequences

  // -------------------------------------------------------- the queue it is

  /** The ids to hand out, next first, and those handed out and not cancelled. */
  datatype Ids = Ids(free: seq<int>, out: set<int>)

  /** The ids from 1 to `n` in order. */
  function FirstIds(n: nat): (s: seq<int>)
    ensures |s| == n && forall k :: 0 <= k < n ==> s[k] == k + 1
    ensures forall id :: id in s <==> 1 <= id <= n
  {
    if n == 0 then [] else FirstIds(n - 1) + [n]
  }

  function Assigned(s: Ids): (Ids, int) {
    if s.free == [] then (s, -1) else (Ids(s.free[1..], s.out + {s.free[0]}), s.free[0])
  }

  /** Only an id that is out comes back. */
  function Cancelled(s: Ids, id: int): Ids {
    if id in s.out then Ids(s.free + [id], s.out - {id}) else s
  }

  /** Each id from 1 to `n` is either out or free, and free only once. */
  ghost predicate Sound(n: nat, s: Ids) {
    && NoRepeats(s.free)
    && (forall id :: id in s.free <==> 1 <= id <= n && id !in s.out)
    && (forall id :: id in s.out ==> 1 <= id <= n)
  }

  lemma AssignedSound(n: nat, s: Ids)
    requires Sound(n, s)
    ensures var (s', id) := Assigned(s); Sound(n, s') && (id == -1 <==> s.free == []) && (id != -1 ==> id !in s.out)
  {
    if s.free != [] {
      TailOf(s.free);
      assert s.free[0] in s.free;
    }
  }

  lemma CancelledSound(n: nat, s: Ids, id: int)
    requires Sound(n, s)
    ensures Sound(n, Cancelled(s, id))
  {
    if id in s.out {
      AppendNew(s.free, id);
    }
  }

  // --------------------------------------------------------------- all runs

  datatype Op = Assign | Cancel(id: int)

  function Run(s: Ids, ops: seq<Op>): Ids
    decreases |ops|
  {
    if ops == [] then s
    else
      match ops[0]
      case Assign => Run(Assigned(s).0, ops[1..])
      case Cancel(id) => Run(Cancelled(s, id), ops[1..])
  }

  /** The ids that a run hands out, in order. */
  function Handed(s: Ids, ops: seq<Op>): seq<int>
    decreases |ops|
  {
    if ops == [] then []
    else
      match ops[0]
      case Assign => (if s.free == [] then [] else [Assigned(s).1]) + Handed(Assigned(s).0, ops[1..])
      case Cancel(id) => Handed(Cancelled(s, id), ops[1..])
  }

  /** The ids that come back in a run, in order. */
  function Returned(s: Ids, ops: seq<Op>): seq<int>
    decreases |ops|
  {
    if ops == [] then []
    else
      match ops[0]
      case Assign => Returned(Assigned(s).0, ops[1..])
      case Cancel(id) => (if id in s.out then [id] else []) + Returned(Cancelled(s, id), ops[1..])
  }

  lemma {:induction false} RunSound(n: nat, s: Ids, ops: seq<Op>)
    requires Sound(n, s)
    ensures Sound(n, Run(s, ops))
    decreases |ops|
  {
    if ops != [] {
      match ops[0]
      case Assign =>
        AssignedSound(n, s);
        RunSound(n, Assigned(s).0, ops[1..]);
      case Cancel(id) =>
        CancelledSound(n, s, id);
        RunSound(n, Cancelled(s, id), ops[1..]);
    }
  }

  /** First in, first out: what a run hands out, and then what is left, is what was free and then what came back. */
  lemma {:induction false} FirstInFirstOut(s: Ids, ops: seq<Op>)
    ensures Handed(s, ops) + Run(s, ops).free == s.free + Returned(s, ops)
    decreases |ops|
  {
    if ops != [] {
      match ops[0]
      case Assign =>
        var s1 := Assigned(s).0;
        FirstInFirstOut(s1, ops[1..]);
        if s.free != [] {
          var first := [s.free[0]];
          assert s.free == first + s1.free;
          assert (first + Handed(s1, ops[1..])) + Run(s, ops).free == first + (Handed(s1, ops[1..]) + Run(s, ops).free);
          assert (first + s1.free) + Returned(s, ops) == first + (s1.free + Returned(s, ops));
        }
      case Cancel(id) =>
        var s1 := Cancelled(s, id);
        FirstInFirstOut(s1, ops[1..]);
        if id in s.out {
          assert (s.free + [id]) + Returned(s1, ops[1..]) == s.free + ([id] + Returned(s1, ops[1..]));
        }
    }
  }

  /** In every run, an id that is cancelled is not handed out again before all those that were free by then. */
  lemma NotAgainBefore(n: nat, ops: seq<Op>, id: int, later: seq<Op>, p: nat)
    requires var s := Run(Ids(FirstIds(n), {}), ops); id in s.out && p < |Handed(Cancelled(s, id), later)|
    requires Handed(Cancelled(Run(Ids(FirstIds(n), {}), ops), id), later)[p] == id
    ensures var s := Run(Ids(FirstIds(n), {}), ops); s.free <= Handed(Cancelled(s, id), later)[..p]
  {
    var s := Run(Ids(FirstIds(n), {}), ops);
    var s1 := Cancelled(s, id);
    var handed, rest := Handed(s1, later), Run(s1, later).free;
    RunSound(n, Ids(FirstIds(n), {}), ops);
    FirstInFirstOut(s1, later);
    var all := handed + rest;
    assert all == (s.free + [id]) + Returned(s1, later);
    assert forall k :: 0 <= k < |s.free| ==> all[k] == s.free[k] && s.free[k] in s.free;
    assert all[p] == handed[p];
    assert all[..p] == handed[..p];
    assert all[..|s.free|] == s.free;
  }

  // --------------------------------------------------------- the ring itself

  /** An entry of `tid_list`. */
  datatype Tid = Tid(flag: bool, id: int)

  /** Position `p` of a ring with its pointers at `a` and `c` holds an id to hand out. */
  predicate IsFree(a: nat, c: nat, comeback: bool, p: nat) {
    if comeback then a <= p < c else a <= p || p < c
  }

  predicate Pointers(max: nat, a: nat, c: nat, comeback: bool) {
    a < max && c < max && if comeback then a <= c else c <= a
  }

  /** The ids in those positions, next first. */
  function FreeIn(ids: seq<int>, a: nat, c: nat, comeback: bool): seq<int>
    requires Pointers(|ids|, a, c, comeback)
  {
    if comeback then ids[a..c] else ids[a..] + ids[..c]
  }

  /** The assigning pointer moves on, and turns the ring over at its end. */
  lemma TakenFree(ids: seq<int>, a: nat, c: nat, comeback: bool)
    requires Pointers(|ids|, a, c, comeback) && IsFree(a, c, comeback, a)
    ensures var wraps := a + 1 == |ids|;
            && Pointers(|ids|, if wraps then 0 else a + 1, c, comeback || wraps)
            && FreeIn(ids, a, c, comeback) == [ids[a]] + FreeIn(ids, if wraps then 0 else a + 1, c, comeback || wraps)
  {
  }

  /** The cancelling pointer moves on, and turns the ring back at its end. */
  lemma GivenFree(ids: seq<int>, a: nat, c: nat, comeback: bool, id: int)
    requires Pointers(|ids|, a, c, comeback) && (comeback || c < a)
    ensures var wraps := c + 1 == |ids|;
            && Pointers(|ids|, a, if wraps then 0 else c + 1, comeback && !wraps)
            && FreeIn(ids[c := id], a, if wraps then 0 else c + 1, comeback && !wraps)
               == FreeIn(ids, a, c, comeback) + [id]
  {
    var ids' := ids[c := id];
    if comeback {
      assert ids'[a..c] == ids[a..c] && ids'[a..c + 1] == ids[a..c] + [id];
    } else {
      assert ids'[a..] == ids[a..] && ids'[..c + 1] == ids[..c] + [id];
    }
  }

  lemma HeadOf(was: seq<int>, id: int, now: seq<int>)
    requires was == [id] + now
    ensures was != [] && was[0] == id && was[1..] == now
  {
  }

  class Ring {
    const maxtnum: nat
    const tidList: array<Tid>
    var assignPtr: nat
    var cancelPtr: nat
    var comeback: bool
    var tremainder: int

    /** The ids handed out and not cancelled. */
    ghost var outstanding: set<int>

    ghost predicate Shaped()
      reads this
    {
      tidList.Length == maxtnum && Pointers(maxtnum, assignPtr, cancelPtr, comeback)
    }

    ghost function AllIds(): (s: seq<int>)
      reads tidList
      ensures |s| == tidList.Length
    {
      seq(tidList.Length, k requires 0 <= k < tidList.Length reads tidList => tidList[k].id)
    }

    ghost function View(): Ids
      requires Shaped()
      reads this, tidList
    {
      Ids(FreeIn(AllIds(), assignPtr, cancelPtr, comeback), outstanding)
    }

    /** The flags say which positions hold an id to hand out. */
    ghost predicate Flagged()
      requires Shaped()
      reads this, tidList
    {
      forall p :: 0 <= p < maxtnum ==> tidList[p].flag != IsFree(assignPtr, cancelPtr, comeback, p)
    }

    ghost predicate Valid()
      reads this, tidList
    {
      Shaped() && Flagged() && tremainder == |View().free| && Sound(maxtnum, View())
    }

    /** `func_init_tid` */
    constructor (max: nat)
      requires max > 0
      ensures Valid() && maxtnum == max && View() == Ids(FirstIds(max), {}) && fresh(tidList)
    {
      assignPtr, cancelPtr, comeback, maxtnum, tremainder, outstanding := 0, 0, false, max, max, {};
      tidList := new Tid[max](i => Tid(false, i + 1));
      new;
      assert AllIds() == FirstIds(max);
    }

    /** The branch of `func_assign_tid` that hands out an id. */
    method Take() returns (id: int)
      requires Shaped() && Flagged() && IsFree(assignPtr, cancelPtr, comeback, assignPtr)
      modifies this`tremainder, this`assignPtr, this`comeback, tidList
      ensures Shaped() && Flagged() && tremainder == old(tremainder) - 1
      ensures old(View().free) == [id] + View().free
    {
      TakenFree(AllIds(), assignPtr, cancelPtr, comeback);
      id := tidList[assignPtr].id;
      tidList[assignPtr] := Tid(true, id);
      tremainder := tremainder - 1;
      assignPtr := assignPtr + 1;
      if assignPtr >= maxtnum {
        assignPtr, comeback := 0, true;
      }
      assert AllIds() == old(AllIds());
    }

    /** An id is left exactly if the position to hand out from is not the one to return to. */
    lemma NextIsFree()
      requires Shaped()
      ensures View().free != [] <==> IsFree(assignPtr, cancelPtr, comeback, assignPtr)
    {
    }

    /** `func_assign_tid`: the id that has been free for longest, or -1 if all are out. */
    method Assign() returns (id: int)
      requires Valid()
      modifies this, tidList
      ensures Valid() && (View(), id) == Assigned(old(View()))
    {
      NextIsFree();
      if tremainder <= 0 {
        return -1;
      }
      if !comeback || assignPtr < cancelPtr {
        if !tidList[assignPtr].flag {
          ghost var was := View();
          AssignedSound(maxtnum, was);
          id := Take();
          HeadOf(was.free, id, View().free);
          outstanding := outstanding + {id};
          assert View() == Assigned(was).0;
          return;
        }
      }
      return -1;
    }

    /** The branches of `func_cancel_tid` that take an id back. */
    method Give(id: int)
      requires Shaped() && Flagged() && (comeback || cancelPtr < assignPtr) && tremainder < maxtnum
      modifies this`tremainder, this`cancelPtr, this`comeback, tidList
      ensures Shaped() && Flagged() && tremainder == old(tremainder) + 1
      ensures View().free == old(View().free) + [id]
    {
      GivenFree(AllIds(), assignPtr, cancelPtr, comeback, id);
      ghost var ids := AllIds()[cancelPtr := id];
      tidList[cancelPtr] := Tid(false, id);
      cancelPtr := cancelPtr + 1;
      tremainder := tremainder + 1;
      if tremainder > maxtnum {
        // The source caps the count here; it never gets there.
        assert false;
      }
      if cancelPtr >= maxtnum {
        cancelPtr, comeback := 0, false;
      }
      assert AllIds() == ids;
    }

    /** `func_cancel_tid`, called for ids that are out: the id goes behind all the free ones. */
    method Cancel(id: int) returns (r: int)
      requires Valid() && (1 <= id <= maxtnum ==> id in outstanding)
      modifies this, tidList
      ensures Valid() && View() == Cancelled(old(View()), id) && r == if id in old(outstanding) then 0 else -1
    {
      if id <= 0 || id > maxtnum {
        return -1;
      }
      SomeOutstanding(id);
      if comeback || cancelPtr < assignPtr {
        CancelledSound(maxtnum, View(), id);
        Give(id);
        outstanding := outstanding - {id};
        return 0;
      }
      return -1;
    }

    /** While some id is out there is room for it in the ring. */
    lemma SomeOutstanding(id: int)
      requires Valid() && id in outstanding
      ensures |View().free| < maxtnum && (comeback || cancelPtr < assignPtr)
    {
      LeavesOut(View().free, maxtnum, id);
    }
  }

  lemma {:induction false} CardinalityOf(s: seq<int>)
    requires NoRepeats(s)
    ensures |set x | x in s| == |s|
  {
    if s == [] {
      assert (set x | x in s) == {};
    } else {
      TailOf(s);
      CardinalityOf(s[1..]);
      assert (set x | x in s) == {s[0]} + set x | x in s[1..];
    }
  }

  function Range(n: nat): (r: set<int>)
    ensures |r| == n && forall x :: x in r <==> 1 <= x <= n
  {
    if n == 0 then {} else Range(n - 1) + {n}
  }

  /** Different ids from 1 to `n` that leave one out are fewer than `n`. */
  lemma LeavesOut(s: seq<int>, n: nat, id: int)
    requires NoRepeats(s) && 1 <= id <= n && forall x :: x in s ==> 1 <= x <= n && x != id
    ensures |s| < n
  {
    CardinalityOf(s);
    var a := set x | x in s;
    Subset(a, Range(n) - {id});
  }

  lemma Subset(a: set<int>, b: set<int>)
    requires a <= b
    ensures |a| <= |b|
  {
    assert b == a + (b - a);
  }
}
