/** What the loops of `TcpSend` and `TcpRecv` make of a script, told from the results in it: which ones they go on
    after, which one ends them, and what has been moved by then. */
module Scripts {
  import opened Tpkt
  import opened Sockets
  import opened Framing

  // ---------------------------------------------------------------- scripts

  /** Only bytes moved, and the two errors after which the same call is made again. */
  predicate Steady(s: seq<IoResult>) {
    forall k :: 0 <= k < |s| ==> (s[k].Moved? && s[k].count > 0) || s[k] == Failed(EINTR) || s[k] == Failed(EAGAIN)
  }

  /** A result that ends a loop: nothing moved, or any other error. */
  predicate Stops(r: IoResult) {
    r == Moved(0) || (r.Failed? && r.errno != EINTR && r.errno != EAGAIN)
  }

  /** The bytes that a script offers to move. */
  function Total(s: seq<IoResult>): nat {
    if s == [] then 0 else (if s[0].Moved? then s[0].count else 0) + Total(s[1..])
  }

  lemma {:induction false} TotalConcat(p: seq<IoResult>, q: seq<IoResult>)
    ensures Total(p + q) == Total(p) + Total(q)
  {
    if p == [] {
      assert p + q == q;
    } else {
      assert (p + q)[1..] == p[1..] + q;
      TotalConcat(p[1..], q);
    }
  }

  lemma TotalOfFirst(s: seq<IoResult>)
    requires s != []
    ensures Total(s[..1]) == (if s[0].Moved? then s[0].count else 0) && Total(s) == Total(s[..1]) + Total(s[1..])
  {
    assert s[..1][1..] == [];
  }

  lemma TotalGrows(s: seq<IoResult>, n: nat, j: nat)
    requires n <= j <= |s|
    ensures Total(s[..n]) <= Total(s[..j]) && Total(s[j..]) <= Total(s[n..])
  {
    var middle := s[n..j];
    assert s[..j] == s[..n] + middle;
    assert s[n..] == middle + s[j..];
    TotalConcat(s[..n], middle);
    TotalConcat(middle, s[j..]);
  }

  // ---------------------------------------------------------------- polling

  predicate Skipped(polls: seq<PollResult>) {
    forall k :: 0 <= k < |polls| ==> polls[k] in {PollFailed(EINTR), PollTimeout}
  }

  function Uninterrupted(p: seq<PollResult>): nat {
    if p == [] then 0 else (if p[0] == PollFailed(EINTR) then 0 else 1) + Uninterrupted(p[1..])
  }

  /** Once a script holds as many polls that were not interrupted as there are retries, nothing that
      comes after matters: no more than `retry` polls can time out, and the loop ends. */
  lemma {:induction false} PollsSettle(p: seq<PollResult>, q: seq<PollResult>, retry: int)
    requires 0 < retry <= Uninterrupted(p)
    ensures PollPhase(p + q, retry) == PollPhase(p, retry)
  {
    assert p != [];
    assert (p + q)[1..] == p[1..] + q;
    if p[0] == PollFailed(EINTR) {
      PollsSettle(p[1..], q, retry);
    } else if p[0].PollTimeout? && retry != 1 {
      PollsSettle(p[1..], q, retry - 1);
    }
  }

  /** Interrupted polls are free and each timeout costs one of the tries; the last one ends the loop. */
  lemma {:induction false} PollsCount(skipped: seq<PollResult>, rest: seq<PollResult>, retry: int)
    requires Skipped(skipped) && Uninterrupted(skipped) <= retry && retry > 0
    ensures var left := retry - Uninterrupted(skipped);
            PollPhase(skipped + rest, retry) == if left == 0 then GaveUp else PollPhase(rest, left)
  {
    if skipped == [] {
      assert skipped + rest == rest;
    } else {
      assert (skipped + rest)[1..] == skipped[1..] + rest;
      assert skipped[0] in {PollFailed(EINTR), PollTimeout};
      if skipped[0] == PollFailed(EINTR) {
        PollsCount(skipped[1..], rest, retry);
      } else if retry > 1 {
        PollsCount(skipped[1..], rest, retry - 1);
      }
    }
  }

  /** The poll `x` behind `skipped` is the one that decides: the descriptor can be written; */
  predicate LetsSend(x: PollResult) {
    x == PollReady(true)
  }

  /** or it is dead; */
  predicate FindsDead(x: PollResult) {
    x == PollFailed(EBADF) || x == PollFailed(EPIPE) || x == PollFailed(EIO)
  }

  /** or it is not in the set, or the poll fails otherwise, or times out for the last time. */
  predicate GivesUp(skipped: seq<PollResult>, x: PollResult) {
    || x == PollReady(false)
    || (x.PollFailed? && x.errno != EINTR && !FindsDead(x))
    || (x == PollTimeout && Uninterrupted(skipped) == TCP_SND_RETRY - 1)
  }

  /** The verdict behind interrupted polls and fewer timeouts than there are tries. */
  lemma PollDecides(skipped: seq<PollResult>, x: PollResult, later: seq<PollResult>)
    requires Skipped(skipped) && Uninterrupted(skipped) < TCP_SND_RETRY
    ensures var v := PollPhase(skipped + [x] + later, TCP_SND_RETRY);
            && (LetsSend(x) ==> v == Ready)
            && (FindsDead(x) ==> v == Dead)
            && (GivesUp(skipped, x) ==> v == GaveUp)
    ensures PollPhase(skipped, TCP_SND_RETRY) == GaveUp
  {
    PollsCount(skipped, [x] + later, TCP_SND_RETRY);
    assert skipped + [x] + later == skipped + ([x] + later);
    PollsCount(skipped, [], TCP_SND_RETRY);
    assert skipped + [] == skipped;
  }

  /** In each script some poll decides, or none is left. */
  lemma PollSplits(polls: seq<PollResult>) returns (skipped: seq<PollResult>)
    ensures skipped <= polls && Skipped(skipped) && Uninterrupted(skipped) < TCP_SND_RETRY
    ensures |skipped| < |polls| ==>
              var x := polls[|skipped|]; LetsSend(x) || FindsDead(x) || GivesUp(skipped, x)
  {
    skipped := SkippedPart(polls, TCP_SND_RETRY);
  }

  lemma {:induction false} SkippedPart(polls: seq<PollResult>, retry: nat) returns (skipped: seq<PollResult>)
    requires retry > 0
    ensures skipped <= polls && Skipped(skipped) && Uninterrupted(skipped) < retry
    ensures |skipped| < |polls| ==>
              var x := polls[|skipped|];
              x != PollFailed(EINTR) && (x == PollTimeout ==> Uninterrupted(skipped) == retry - 1)
  {
    if polls == [] || polls[0] !in {PollFailed(EINTR), PollTimeout} || (polls[0] == PollTimeout && retry == 1) {
      skipped := [];
    } else {
      var rest := SkippedPart(polls[1..], if polls[0] == PollTimeout then retry - 1 else retry);
      skipped := [polls[0]] + rest;
      assert skipped[1..] == rest;
    }
  }

  // ---------------------------------------------------------------- sending

  function Retries(s: seq<IoResult>): nat {
    if s == [] then 0 else (if s[0] == Failed(EINTR) || s[0] == Failed(EAGAIN) then 1 else 0) + Retries(s[1..])
  }

  /** The loop at `p_again` ends as soon as the script holds more results than retries plus bytes. */
  lemma {:induction false} SendsSettle(s: seq<IoResult>, t: seq<IoResult>, left: nat)
    requires |s| >= Retries(s) + left
    ensures Pushed(left, s + t) == Pushed(left, s)
    decreases |s|
  {
    if left != 0 {
      if s == [] {
        assert false;
      }
      assert (s + t)[1..] == s[1..] + t;
      if s[0] == Failed(EINTR) || s[0] == Failed(EAGAIN) {
        SendsSettle(s[1..], t, left);
      } else if s[0].Moved? && s[0].count != 0 {
        SendsSettle(s[1..], t, left - Min(s[0].count, left));
      }
    }
  }

  /** The part `p` of the script that the send loop goes through for `n` bytes: it has moved them all, or the
      script ends there, or what comes next stops the loop. */
  predicate Sends(n: nat, p: seq<IoResult>, q: seq<IoResult>) {
    Steady(p) && (n <= Total(p) || q == [] || Stops(q[0]))
  }

  /** The send loop writes what such a part moves, up to the whole frame, and no more, whatever comes after. */
  lemma {:induction false} PushedExactly(left: nat, p: seq<IoResult>, q: seq<IoResult>)
    requires Sends(left, p, q)
    ensures Pushed(left, p + q) == Min(left, Total(p))
    decreases |p|
  {
    if p == [] {
      assert p + q == q;
    } else if left != 0 {
      assert (p + q)[1..] == p[1..] + q;
      if p[0].Moved? {
        PushedExactly(left - Min(p[0].count, left), p[1..], q);
      } else {
        PushedExactly(left, p[1..], q);
      }
    }
  }

  /** Each script has such a part. */
  lemma {:induction false} SendSplits(s: seq<IoResult>) returns (p: seq<IoResult>, q: seq<IoResult>)
    ensures s == p + q && Steady(p) && (q == [] || Stops(q[0]))
  {
    if s == [] || Stops(s[0]) {
      p, q := [], s;
    } else {
      p, q := SendSplits(s[1..]);
      assert s == [s[0]] + p + q;
      p := [s[0]] + p;
    }
  }

  /** A whole send, told from the poll that decides and the part of the script that the loop goes through. */
  lemma SendExactly(o: ByteOrder, c: Conn, buf: seq<Byte>, nbytes: nat,
                    skipped: seq<PollResult>, x: PollResult, later: seq<PollResult>, p: seq<IoResult>, q: seq<IoResult>)
    requires 0 < nbytes <= |buf| && TPKT_HEADER_SIZE <= |buf|
    requires Skipped(skipped) && Uninterrupted(skipped) < TCP_SND_RETRY && Sends(nbytes, p, q)
    ensures var r := SendFrame(o, c, buf, nbytes, skipped + [x] + later, p + q);
            var f, moved := Frame(o, buf, nbytes), Total(p);
            && (LetsSend(x) && nbytes <= moved ==>
                  r == (c.(outbound := c.outbound + f, sent := c.sent + [f]), Delivered))
            && (LetsSend(x) && moved < nbytes ==> r == (c.(outbound := c.outbound + f[..moved]), Broken))
            && (FindsDead(x) ==> r == (c, Broken))
            && (GivesUp(skipped, x) ==> r == (c, Refused))
  {
    PollDecides(skipped, x, later);
    PushedExactly(nbytes, p, q);
  }

  // -------------------------------------------------------------- receiving

  /** The part `p` of the script that a receive loop goes through for `want` of the `avail` bytes there: it moves
      fewer than are wanted, all of them there, and then the script ends, or its next result stops the loop, or
      finds the end of the stream, or brings all that is missing. */
  predicate Reads(want: nat, avail: nat, p: seq<IoResult>, q: seq<IoResult>) {
    && Steady(p) && Total(p) < want && Total(p) <= avail
    && (q == [] || Stops(q[0])
        || (q[0].Moved? && (Total(p) == avail || (want <= avail && want <= Total(p) + q[0].count))))
  }

  /** What the loop does with it: all it asked for, with the size of the last chunk as result; or what was moved
      by then, with 0 at the end of the stream and -1 after an error. */
  function ReadOff(want: nat, avail: nat, p: seq<IoResult>, q: seq<IoResult>): Fill
    requires Total(p) < want
  {
    var moved := Total(p);
    if q == [] then Fill(moved, -1, [])
    else if q[0].Failed? then Fill(moved, -1, q[1..])
    else if moved == avail || q[0].count == 0 then Fill(moved, 0, q[1..])
    else Fill(want, want - moved, q[1..])
  }

  lemma FillTriesAgain(want: nat, avail: nat, chunks: seq<IoResult>, last: int, any: int)
    requires want > 0 && chunks != [] && (chunks[0] == Failed(EINTR) || chunks[0] == Failed(EAGAIN))
    ensures FillFrom(want, avail, chunks, last) == FillFrom(want, avail, chunks[1..], any)
  {
    FillAsksMore(want, avail, chunks[1..], -1, any);
  }

  lemma FillTakes(want: nat, avail: nat, chunks: seq<IoResult>, last: int, any: int)
    requires chunks != [] && chunks[0].Moved? && 0 < chunks[0].count < want && chunks[0].count <= avail
    ensures var n := chunks[0].count;
            var r := FillFrom(want - n, avail - n, chunks[1..], any);
            FillFrom(want, avail, chunks, last) == Fill(n + r.taken, r.n, r.rest)
  {
    FillAsksMore(want - chunks[0].count, avail - chunks[0].count, chunks[1..], chunks[0].count, any);
  }

  /** The loop takes `moved` bytes of what `s` offers and then is where `q` starts. */
  ghost predicate GoesPast(want: nat, avail: nat, moved: nat, s: seq<IoResult>, q: seq<IoResult>, last: int, any: int) {
    && moved < want && moved <= avail
    && var r := FillFrom(want - moved, avail - moved, q, any);
    FillFrom(want, avail, s, last) == Fill(moved + r.taken, r.n, r.rest)
  }

  lemma PastMove(want: nat, avail: nat, moved: nat, s: seq<IoResult>, q: seq<IoResult>, last: int, any: int)
    requires s != [] && s[0].Moved? && 0 < s[0].count <= moved < want && moved <= avail
    requires GoesPast(want - s[0].count, avail - s[0].count, moved - s[0].count, s[1..], q, any, any)
    ensures GoesPast(want, avail, moved, s, q, last, any)
  {
    FillTakes(want, avail, s, last, any);
  }

  lemma PastRetry(want: nat, avail: nat, moved: nat, s: seq<IoResult>, q: seq<IoResult>, last: int, any: int)
    requires s != [] && (s[0] == Failed(EINTR) || s[0] == Failed(EAGAIN))
    requires GoesPast(want, avail, moved, s[1..], q, any, any)
    ensures GoesPast(want, avail, moved, s, q, last, any)
  {
    FillTriesAgain(want, avail, s, last, any);
  }

  /** The loop passes over a part `p` that moves less than it wants. */
  lemma {:induction false} FillPasses(want: nat, avail: nat, p: seq<IoResult>, q: seq<IoResult>, last: int, any: int)
    requires Steady(p) && Total(p) < want && Total(p) <= avail
    ensures GoesPast(want, avail, Total(p), p + q, q, last, any)
    decreases |p|
  {
    if p == [] {
      FillAsksMore(want, avail, q, last, any);
      assert p + q == q;
    } else {
      assert (p + q)[1..] == p[1..] + q && (p + q)[0] == p[0];
      if p[0].Moved? {
        FillPasses(want - p[0].count, avail - p[0].count, p[1..], q, any, any);
        PastMove(want, avail, Total(p), p + q, q, last, any);
      } else {
        FillPasses(want, avail, p[1..], q, any, any);
        PastRetry(want, avail, Total(p), p + q, q, last, any);
      }
    }
  }

  /** While bytes are wanted, the result of the call before does not matter. */
  lemma FillAsksMore(want: nat, avail: nat, chunks: seq<IoResult>, last: int, any: int)
    requires want > 0
    ensures FillFrom(want, avail, chunks, last) == FillFrom(want, avail, chunks, any)
  {
  }

  lemma FillExactly(want: nat, avail: nat, p: seq<IoResult>, q: seq<IoResult>, last: int)
    requires Reads(want, avail, p, q)
    ensures FillFrom(want, avail, p + q, last) == ReadOff(want, avail, p, q)
  {
    FillPasses(want, avail, p, q, last, 0);
    if q != [] && q[0].Moved? && q[0].count > 0 && Total(p) < avail {
      assert FillFrom(0, avail - want, q[1..], want - Total(p)) == Fill(0, want - Total(p), q[1..]);
    }
  }

  /** A chunk of more than there is is one of what there is. */
  lemma FillCapped(want: nat, avail: nat, p: seq<IoResult>, k: nat, q: seq<IoResult>, last: int)
    requires Steady(p) && Total(p) < avail < want && avail <= Total(p) + k
    ensures FillFrom(want, avail, p + ([Moved(k)] + q), last)
            == FillFrom(want, avail, p + ([Moved(avail - Total(p))] + q), last)
  {
    var k' := avail - Total(p);
    CappedFirst(want - Total(p), k', k, q);
    FillPasses(want, avail, p, [Moved(k)] + q, last, 0);
    FillPasses(want, avail, p, [Moved(k')] + q, last, 0);
  }

  lemma CappedFirst(want: nat, avail: nat, k: nat, q: seq<IoResult>)
    requires 0 < avail < want && avail <= k
    ensures FillFrom(want, avail, [Moved(k)] + q, 0) == FillFrom(want, avail, [Moved(avail)] + q, 0)
  {
    assert ([Moved(k)] + q)[1..] == q == ([Moved(avail)] + q)[1..];
  }

  /** Where all the bytes wanted are there, each script has such a part. */
  lemma {:induction false} FillSplits(want: nat, avail: nat, s: seq<IoResult>)
    returns (p: seq<IoResult>, q: seq<IoResult>)
    requires 0 < want <= avail
    ensures s == p + q && Reads(want, avail, p, q)
    decreases |s|
  {
    if s == [] || Stops(s[0]) || (s[0].Moved? && want <= s[0].count) {
      p, q := [], s;
    } else {
      var n := if s[0].Moved? then s[0].count else 0;
      p, q := FillSplits(want - n, avail - n, s[1..]);
      assert s == [s[0]] + p + q && ([s[0]] + p)[1..] == p;
      p := [s[0]] + p;
    }
  }

  /** The parts of the script that the two loops of a receive go through. */
  predicate Divides(o: ByteOrder, inbound: seq<Byte>, p: seq<IoResult>, q: seq<IoResult>,
                    p2: seq<IoResult>, q2: seq<IoResult>)
  {
    && Reads(TPKT_HEADER_SIZE, |inbound|, p, q)
    && var h := ReadOff(TPKT_HEADER_SIZE, |inbound|, p, q);
    (TPKT_HEADER_SIZE <= h.taken && TPKT_HEADER_SIZE <= |inbound| && TPKT_HEADER_SIZE < Declared(o, inbound) ==>
       && h.rest == p2 + q2
       && Reads(Declared(o, inbound) - TPKT_HEADER_SIZE, |inbound| - TPKT_HEADER_SIZE, p2, q2))
  }

  /** What a whole receive does with them. */
  function Told(o: ByteOrder, inbound: seq<Byte>, p: seq<IoResult>, q: seq<IoResult>,
                p2: seq<IoResult>, q2: seq<IoResult>): Receipt
    requires Divides(o, inbound, p, q, p2, q2)
  {
    var h := ReadOff(TPKT_HEADER_SIZE, |inbound|, p, q);
    if h.taken < TPKT_HEADER_SIZE then Receipt(h.taken, h.n)
    else if Declared(o, inbound) <= TPKT_HEADER_SIZE then Receipt(TPKT_HEADER_SIZE, 0)
    else
      var b := ReadOff(Declared(o, inbound) - TPKT_HEADER_SIZE, |inbound| - TPKT_HEADER_SIZE, p2, q2);
      Receipt(TPKT_HEADER_SIZE + b.taken, b.n)
  }

  lemma RecvExactly(o: ByteOrder, inbound: seq<Byte>, p: seq<IoResult>, q: seq<IoResult>,
                    p2: seq<IoResult>, q2: seq<IoResult>)
    requires Divides(o, inbound, p, q, p2, q2)
    ensures RecvFrame(o, inbound, p + q) == Told(o, inbound, p, q, p2, q2)
  {
    FillExactly(TPKT_HEADER_SIZE, |inbound|, p, q, 0);
    if ReadOff(TPKT_HEADER_SIZE, |inbound|, p, q).taken == TPKT_HEADER_SIZE < Declared(o, inbound) {
      FillExactly(Declared(o, inbound) - TPKT_HEADER_SIZE, |inbound| - TPKT_HEADER_SIZE, p2, q2, 0);
    }
  }
}
