# Connections, framing, queue and timers of the bypass host and its VM client

A host process accepts TCP connections from virtual machines, keeps a table of them, reads framed messages and
hands them through a queue to a second thread. Each virtual machine runs a client that keeps one link to the host
and reopens it by timer. This project models that machinery and proves what it keeps over every run.

- **Framing** (`Tpkt`, `Sockets`, `Framing`, `Scripts`, `Alignment`). A message is preceded by a four-byte header in the shape of
  TPKT (section 6 of RFC 1006). `select`, `send` and `recv` are adversarial scripts: each call moves any number of
  bytes, times out, is interrupted or fails. The loops are methods, proved equal to recursive functions, and the
  promises are proved of those: what each of them makes of every script, result by result, that no script loses the
  frame boundaries, and that sent frames come back whole and in order.
- **Host** (`HostState`, `Host`, `HostRuns`, `HostVms`). `Host` has the source's tables as arrays, updated in place;
  its methods are proved against functions on the values of the tables. `HostRuns` has the invariant of every
  run and what callers are told, `HostVms` the states kept per virtual machine.
- **Queue** (`BlockFifo`, `FifoSystem`, `FifoService`). The first has the linked list on the heap with its pointer to a
  pointer. The second runs any number of threads over the same pointers, one step at a time, with lock and timed wait;
  the third says what a call gets done that is not disturbed.
- **Client** (`ClientState`, `Client`, `ClientRuns`). The link, its reconnect timer and the watch set, with every event
  that touches them, those made without the lock included: an expiry is three events, the test with its mark, the
  clearing of `tmrId` and the locked rest, and anything may come in between.
- **Timer ids** (`TimerIds`). The timer library's ring of ids, in place, and the queue it amounts to in every run.
- **Both ends** (`EndToEnd`, `Answers`). What either process accepts is what the other delivered, over all runs of
  both. And the host with its queue as one system: a receive makes a block, the block goes through the queue, and
  its answer goes out by the slot that stands in it.

Runs are sequences of events, and theorems about runs hold for every sequence: an event that the premises exclude
does not happen. The premises are those of the operating system and the callers. `accept` and `TcpOpen` return
descriptors not in use, and those `accept` returns are positive; a peer's port is not zero; an id that `timer_start`
returns is at most `MAX_TMR_NUM`, and is not handed out again while a message of its earlier life is still queued or
being dealt with (`NotAgainBefore` says how long the ring takes to get there); calls on one descriptor are serialised
and use the slot's or the link's own. One caller does not keep to the last: `SendProcStateReq` calls `TcpSend` without
the lock (src/VMCT/src/vmct_task.c:567 and 592), so the client's theorems are about runs in which those two calls, their
disconnect tails included, do not overlap with another call or locked part. A script that runs out stands for an
error that is not retried, so results hold for every number of interruptions that is not infinite.

## What came out

Where a property is false of the code, the exact condition is proved, and in several cases a run that gets there.

- The header's length is given to `htons` and then also written by shifts, so on a little-endian machine the low byte
  goes first. The length is most significant byte first, as RFC 1006 has it, exactly if the sender is big-endian or
  the two length bytes are equal (`WireOrder`); two machines understand each other exactly if they share a byte order
  or those bytes are equal (`LengthRoundTrip`). The version byte is 4; RFC 1006 asks for 3.
- A message is read back exactly if it has 5 to 65535 bytes. `TcpSend` does not check: four bytes or fewer
  read as a disconnect, and 65536 or more are cut at the truncated length (`FrameReadBackIff`).
- The host keeps the state of a machine that is no longer connected in three ways (`StaleExactly`, `NeverStaleExactly`).
  The tail of `TcpSend`, unlike that of `TcpRecv`, resets nothing: whatever the send then meets, nothing is left
  behind exactly if the machine has no state or another connection (`SendTidyAlways`). A report is stored by copying
  the whole table out and back, so one stored after its machine has gone stays, and a reset in between is undone
  (`ResetUndone`). And the hang check copies past its entry.
- The scan in the tail of `TcpRecv` takes the lock only to reset. Around a copy-back it ends as a scan before or after
  it would, with one exception: after the loss of a connection without an address the reset may hit the free entry
  that a report has just filled, and the report is lost (`ScanLinearizes`, `ScanInRuns`).
- `CheckTcpStatus` looks up the hung machine's entry and then clears the entry that has the machine's number in
  another list. It restores the right entry, and nothing else, exactly if that number is 0 and the entry is the first
  (`HangExactly`). Any other number leaves an entry that is free but not in the base state: unique addresses and
  blank free entries last exactly as long as the check clears entry 0 and no report carries address 0 (`CleanExactly`).
- Answers go out in the order in which the requests came in (`AnswersInOrder`). The answer to a request goes by slot
  number, read again after the queue. It reaches the connection that asked exactly if the slot was not freed in
  between (`AnswerReachesAsker`).
- `block_FifoGet` tests for an empty queue once. It reads through a null pointer exactly if a wait returns 0
  with an empty queue (`CrashExactly`). With one consumer, no spurious wakeup and nobody emptying the queue that never
  happens; without any single one of these it can (`PremisesExact`). The disabled loop needs none of them.
- `MAX_FIFO_DEPTH` bounds nothing, and some run of a given depth has a size that no int holds exactly if the depth is
  above 32768 (`OverflowExactly`).
- Without the shortcut of `SendProcStateReq` the client is connected with no timer, or unconnected with at most one, and
  the two builds of the disconnect tail, with and without `__UTM__`, agree (`RunSettled`). A failing `timer_start` or a
  lost expiry message leaves it stuck, with neither (`StuckRuns`).
- The shortcut tests for a link without the lock and then closes whatever link there is and opens one. If a reconnect
  came in between and the open fails, the client is stuck although nothing else failed (`StrandWitness`). And since it
  leaves the timer running, a reconnect can later overwrite a live descriptor, which is never closed
  (`OverwritesCrossed`, `LeakRuns`, `LeakWitness`).
- `TcpReconnect` clears `tmrId` before it locks. If the disconnect tail runs after the test of the expiry and before
  that line, the timer it started is forgotten, and two can run at once: no timer is ever left behind exactly if no
  such line clears the id of a marked timer (`NoneLeftExactly`, `TwoTimersWitness`). If the tail runs between that line
  and the lock, the reconnect has a timer to stop, or opens a link beside one (`StopReached`, `StopWitness`). Both need
  a live link while a reconnect is under way, hence the shortcut (`NothingToStop`).
- The `TcptmrStop` in `TcpRcvTask` and the cap on `tremainder` in `func_cancel_tid` are never reached.

## The callers and the timer library

The tables are also changed by the tasks in `host_task.c` and `vmct_task.c`, and timer ids come from `timer.c`. These
are the members about them:

- `HostSockets.Host.constructor`, src/HOST/src/host_task.c:120-154: the tables at the start, all slots free, the listening descriptor watched
- `HostSockets.Host.Watch`, src/HOST/src/host_task.c:189-204: the accepted descriptor joins the watch set and the maximum
- `HostSockets.Host.Register`, src/HOST/src/host_task.c:215-224: the first frame of a connection sets address and port, later ones change nothing
- `HostRuns.NamedByFirstFrame`, src/HOST/src/host_task.c:211-224: over every run, an occupied slot's entry has the address of the first frame since it was last free and its connection's port, whatever came later; none before that frame
- `HostSockets.Host.CopyOut`, src/HOST/src/host_task.c:919-933: the table is copied under its lock
- `HostSockets.Host.CopyBack`, src/HOST/src/host_task.c:936-981: the copy goes back with the report in it, or nothing does; -1 iff the copy has neither the machine's entry nor a free one; see `CopyBackExactly`
- `HostVms.CopyBackExactly`, src/HOST/src/host_task.c:936-979: the report replaces its machine's entry of the copy, or takes one free entry, or with a full copy changes nothing
- `HostSockets.Host.CheckHung`, src/HOST/src/host_task.c:791-800: all entries after the hang check, with arbitrary contents behind the one it clears; see `HangExactly`
- `HostVms.HangExactly`, src/HOST/src/host_task.c:791-800: the check restores the hung machine's entry and changes nothing else iff its number and its entry are 0; entries before the one it clears stay, and that one's first processes lose their names
- `ClientSockets.Client.OnExpiry`, src/VMCT/src/vmct_task.c:472-486: an expiry of an unmarked timer is ignored, any other takes the mark back and goes on to `TcpReconnect`
- `ClientRuns.EarlyUnmark`, src/VMCT/src/vmct_task.c:475-482: whatever another thread does between the test of the mark and its taking back might as well come after both, unless it starts a timer with that id
- `ClientSockets.Client.Begin`, src/VMCT/src/vmct_task.c:214-233: all variables before the receive loop
- `ClientSockets.Client.FindNoLink`, src/VMCT/src/vmct_task.c:566-570: the test of the state report, without the lock
- `ClientSockets.Client.OpenAtOnce`, src/VMCT/src/vmct_task.c:575-585: under the lock, whatever link there is by then is closed and one is opened; timer and mark stay
- `ClientSockets.Client.Enlist`, src/VMCT/src/vmct_task.c:587-590: after the lock, the link is watched
- `ClientRuns.ArmedExactly`, src/VMCT/src/vmct_task.c:574-590: a live link beside an outstanding timer arises exactly where the shortcut or a reconnect opens one beside it, and lasts until the next open, the tail, or the last such timer's expiry or loss
- `ClientRuns.ShortcutSettledIff`, src/VMCT/src/vmct_task.c:574-590: the whole shortcut keeps the alternative of link and timer iff its open fails, or no timer is remembered and no reconnect under way
- `ClientRuns.StrandWitness`, src/VMCT/src/vmct_task.c:566-585: a run that the shortcut strands although no timer fails and no expiry is lost
- `TimerIds.Ring.constructor`, src/CMLB/src/timer.c:198-220: all ids from 1 on are free, in order
- `TimerIds.Ring.Assign`, src/CMLB/src/timer.c:222-267: the ring hands out the head of the queue it stands for; -1 iff that is empty
- `TimerIds.Ring.Take`, src/CMLB/src/timer.c:231-242: the first free id and no other leaves the ring, wrap-around included
- `TimerIds.Ring.Give`, src/CMLB/src/timer.c:273-302: the id comes last in the ring; the cap on the count is never reached
- `TimerIds.Ring.Cancel`, src/CMLB/src/timer.c:269-308: an id that is out joins the queue's end; ids out of range are refused
- `TimerIds.Ring.SomeOutstanding`, src/CMLB/src/timer.c:272-290: while an id is out the ring has room for it
- `TimerIds.FirstInFirstOut`, src/CMLB/src/timer.c:222-308: over every run, the ids handed out and then those left are those free at first and then those returned
- `TimerIds.NotAgainBefore`, src/CMLB/src/timer.c:222-308: in every run, an id that is cancelled is not handed out again before all those that were free by then

## Model

| member | source | states |
|---|---|---|
| Tpkt.HeaderByShifts | src/HOST/src/host_sock.c:496-501 | the header as sent is truncation to a short, `htons`, shift and mask, for any length |
| Tpkt.DeclaredByShifts | src/HOST/src/host_sock.c:734-736 | the length as read is shift, sum and `ntohs` |
| Tpkt.LengthRoundTrip | src/HOST/src/host_sock.c:497-501 | the receiver gets the length modulo 65536 iff both ends share a byte order or the length bytes are equal |
| Tpkt.WireOrder | src/HOST/src/host_sock.c:497-501 | the length is most significant byte first iff the sender is big-endian or the bytes are equal |
| Framing.AwaitWritable | src/HOST/src/host_sock.c:516-552 | the poll loop meets the function of which `PollDecides` proves the verdict for every script |
| Framing.Push | src/HOST/src/host_sock.c:554-609 | bytes on the stream are a prefix of the frame, as long as the total counted; a finished frame ends in success; see `PushedExactly` for how many |
| Framing.Transmit | src/HOST/src/host_sock.c:477-615 | stream, result and outcome are those of the specification, and the caller's buffer keeps all but its first four bytes; see `SendExactly` |
| Framing.Fetch | src/HOST/src/host_sock.c:658-688 | a receive loop stores exactly the bytes taken, in place, and touches nothing else; see `FillExactly` for how many |
| Framing.RecvCall | src/HOST/src/host_sock.c:672-706 | one call: what it stores, whether the loop goes on, and what the loop still has to do; see `FillExactly` |
| Framing.Receive | src/HOST/src/host_sock.c:646-788 | stream, buffer and result after a receive; the header goes to a buffer of its own |
| Framing.ReceiveBody | src/HOST/src/host_sock.c:731-790 | the body's part: a declared length of four or less leaves the loop unentered and yields 0 |
| Framing.RecvBody | src/HOST/src/host_sock.c:731-790 | positive result iff exactly the declared length was taken and is above four; never more than what is there |
| Framing.FillFrom | src/HOST/src/host_sock.c:658-706 | a receive loop takes at most what is asked and there; falling short ends in a result of 0 or less, filling up in a positive one |
| Scripts.PollDecides | src/HOST/src/host_sock.c:516-552 | behind interrupted polls and fewer than `TCP_SND_RETRY` timeouts: a descriptor in the set is written to; `EBADF`, `EPIPE` and `EIO` count as dead; one not in the set, any other error and the last timeout give up |
| Scripts.PollSplits | src/HOST/src/host_sock.c:516-552 | in every script some poll is of that kind, or none is left |
| Scripts.PollsSettle | src/HOST/src/host_sock.c:516-545 | at most `TCP_SND_RETRY` polls are not interrupted: what would come after them changes nothing |
| Scripts.PollsCount | src/HOST/src/host_sock.c:522-545 | interruptions are free, each timeout costs one try, the last try gives up |
| Scripts.SendsSettle | src/HOST/src/host_sock.c:555-596 | the send loop ends within as many calls as retries and bytes |
| Scripts.PushedExactly | src/HOST/src/host_sock.c:555-596 | the bytes written are those that the results of `send` move, through `EINTR` and `EAGAIN`, up to the frame's end, the first other error, or a 0; nothing after that counts |
| Scripts.SendSplits | src/HOST/src/host_sock.c:555-596 | every script divides so |
| Scripts.SendExactly | src/HOST/src/host_sock.c:516-609 | a whole send: delivered iff writable and enough is moved; disconnect iff the poll finds the descriptor dead or less is moved, even nothing; refused, with nothing written, otherwise |
| Scripts.FillExactly | src/HOST/src/host_sock.c:658-706 | a receive loop takes what the results of `recv` move, through `EINTR` and `EAGAIN`; with all it wants it returns the size of the last chunk; any other error ends it with -1 and the stream's end with 0, and what comes after is left |
| Scripts.FillCapped | src/HOST/src/host_sock.c:672-688 | a chunk of more bytes than there are is one of those there are |
| Scripts.FillSplits | src/HOST/src/host_sock.c:658-706 | where the bytes wanted are there, every script divides so |
| Scripts.RecvExactly | src/HOST/src/host_sock.c:646-790 | a whole receive, header and body, with its result, for every script so divided |
| Alignment.SendOutcome | src/HOST/src/host_sock.c:516-615 | a send writes a prefix of the frame; all of it iff it succeeds; nothing if it returns before the first `send` |
| Alignment.FrameIsFrame | src/HOST/src/host_sock.c:496-501 | what is sent has a true header and the caller's bytes behind it |
| Alignment.FrameDeclares | src/HOST/src/host_sock.c:734-736 | the first four bytes of a frame fix its length for every receiver with the same byte order |
| Alignment.ReceiptMeaning | src/HOST/src/host_sock.c:658-857 | whatever the chunking, a positive result iff exactly the declared length, above four, was taken |
| Alignment.ReceiveCompletes | src/HOST/src/host_sock.c:658-788 | a frame that is all there is received, under a script of moves, `EINTR` and `EAGAIN`, iff the moves are enough for header and body |
| Alignment.FrameReadBackIff | src/HOST/src/host_sock.c:646-857 | one frame, with anything behind it, is read back whole and alone iff its length is 5 to 65535 and the script moves enough |
| Alignment.RoundTrip | src/HOST/src/host_sock.c:477-857 | any sequence of frames on a stream is read back frame by frame, in order, under any chunking and interruption |
| Alignment.SendKeepsAligned | src/HOST/src/host_sock.c:598-643 | a send keeps the stream at a frame boundary, or ends in one torn frame and disconnects |
| Alignment.ReceiveKeepsAligned | src/HOST/src/host_sock.c:790-857 | a receive keeps the reader at a frame boundary, or disconnects |
| Alignment.UniqueParse | src/HOST/src/host_sock.c:734-741 | accepted frames at the head of a stream of sent frames are those frames; no proper prefix of a frame reads as one |
| Alignment.AcceptedAreSent | src/HOST/src/host_sock.c:477-857 | the frames one end accepts are, byte for byte and in order, the first ones the other end delivered |
| HostState.FirstFree | src/HOST/src/host_sock.c:376-377 | the slot chosen is the least one with port 0 |
| HostState.FirstWithIp | src/HOST/src/host_sock.c:831-842 | the entry found is the first with the address |
| HostSockets.Host.CompareMaxfd | src/HOST/src/host_sock.c:140-149 | the maximum grows to a larger positive descriptor and never shrinks |
| HostSockets.Host.TcpAccept | src/HOST/src/host_sock.c:287-410 | all tables after an accept, and the index returned; see `AcceptSafe` |
| HostSockets.Host.TcpSend | src/HOST/src/host_sock.c:477-644 | all tables, the connection and the result of a send; see `SendResult` |
| HostSockets.Host.Free | src/HOST/src/host_sock.c:629-636 | the slot is freed in all tables and its descriptor closed |
| HostSockets.Host.TcpRecv | src/HOST/src/host_sock.c:646-858 | all tables, the connection, the buffer and the result of a receive; see `ReceiveResult` |
| HostSockets.Host.ResetState | src/HOST/src/host_sock.c:831-842 | the first state entry with the address is reset, no other; see `ResetExactly` |
| HostRuns.AcceptSafe | src/HOST/src/host_sock.c:375-410 | accept gives the least free slot the connection and watches it, or with a full table closes the new descriptor; nothing else differs |
| HostRuns.FreedTables | src/HOST/src/host_sock.c:628-637 | freeing a slot keeps the four tables in agreement |
| HostRuns.SendSafe | src/HOST/src/host_sock.c:477-644 | every send keeps tables and frame boundaries |
| HostRuns.RecvSafe | src/HOST/src/host_sock.c:646-858 | every receive and the registration after it keep them |
| HostRuns.RunSafe | src/HOST/src/host_sock.c:376-407 | in every run: occupied slots hold distinct open descriptors, the open connections are exactly those, numbers, ports, addresses and blanks agree, the watch set is they and the listener, all at most the maximum, every connection at a frame boundary or closed with at most one torn frame |
| HostRuns.RunConn | src/HOST/src/host_sock.c:598-641 | each connection of a run, open or closed, is aligned, and in range if all messages sent were |
| HostRuns.SendResult | src/HOST/src/host_sock.c:611-643 | the length iff the whole frame is on the open stream; -1 means nothing changed, or that slot is freed and its connection closed short of the frame, and nothing else differs |
| HostRuns.SendByScript | src/HOST/src/host_sock.c:516-643 | the new tables and the result told from the script: a dead poll or a loop that stops early, at no bytes too, frees the slot with exactly those bytes written |
| HostRuns.ReceiveResult | src/HOST/src/host_sock.c:790-857 | positive iff a whole frame above four bytes was stored and the slot kept; otherwise it is freed, the machine's first state entry reset, and nothing else differs; bytes 0 to 3 and those past the last taken are unchanged |
| HostRuns.RecvByScript | src/HOST/src/host_sock.c:658-857 | the new tables and the result told from the script: an error, the stream's end or its own end before the last byte frees the slot |
| HostRuns.SameConnection | src/HOST/src/host_sock.c:376-382 | over every run, a slot still has the connection it had at some point iff it was occupied ever since |
| HostVms.ResetExactly | src/HOST/src/host_sock.c:831-842 | a reset restores the base state of that machine's entry and of no other |
| HostVms.EntriesKept | src/HOST/src/host_sock.c:611-637 | an accept or a send, a broken one too, leaves every state entry as it was |
| HostVms.CleanExactly | src/HOST/src/host_sock.c:831-842 | throughout a run no machine has two entries and free entries hold the base state iff its hang checks clear entry 0 and its stored reports have nonzero addresses (or change nothing) |
| HostVms.LiveAfterFree | src/HOST/src/host_sock.c:828-846 | freeing a slot disconnects exactly its machine, unless another slot is also that machine's |
| HostVms.FreeTidy | src/HOST/src/host_sock.c:629-637 | freeing without a reset leaves nothing stale iff the machine is unnamed, unlisted or has a second connection |
| HostVms.LossTidy | src/HOST/src/host_sock.c:824-846 | a failed receive, whose tail resets one entry, leaves nothing stale iff the machine has no address, another connection, or none of its address left in the table after that reset |
| HostVms.DistinctResets | src/HOST/src/host_sock.c:831-842 | so it is wherever the addresses in the table are distinct |
| HostVms.StaleExactly | src/HOST/src/host_sock.c:628-637 | each step, copy-out and copy-back of a report being two, keeps every stored state that of a connected machine iff it is inside the stated guard, repeated addresses or not |
| HostVms.SendTidyAlways | src/HOST/src/host_sock.c:516-637 | before a send: under every outcome nothing stale is left iff the machine is unnamed, unlisted or has a second connection |
| HostVms.ResetUndone | src/HOST/src/host_sock.c:832-842 | from any sound state, a loss and its reset between copy-out and copy-back end with the lost machine's state restored |
| HostVms.ScanLinearizes | src/HOST/src/host_sock.c:832-842 | a scan around a change of the table ends as one after it or as none, iff it did not match a free entry that was filled before the reset |
| HostVms.ScanInRuns | src/HOST/src/host_sock.c:832-842 | so it is at every copy-back of every run inside the guard, the exception being the event `LateReset` |
| HostVms.NeverStaleExactly | src/HOST/src/host_sock.c:831-845 | over every run, hang checks and reports without an address included: never is a state kept whose machine is not connected iff every step stays inside the guard |
| HostVms.DeadSendLeavesStale | src/HOST/src/host_sock.c:520-637 | a dead poll on the only connection of a machine with a state leaves that state behind |
| HostVms.StaleWitness | src/HOST/src/host_sock.c:629-637 | a run of five events that leaves a state behind |
| BlockFifo.BlockNew | src/HOST/src/host_fifo.c:37-67 | a new block with its buffer, iff both allocations succeed |
| BlockFifo.Block.Release | src/HOST/src/host_fifo.c:70-76 | a block is released at most once |
| BlockFifo.Fifo.constructor | src/HOST/src/host_fifo.c:79-98 | an empty queue, the tail pointer at its head field |
| BlockFifo.Fifo.Link | src/HOST/src/host_fifo.c:143-148 | one block joins at the tail; list, tail pointer and counters agree |
| BlockFifo.Fifo.LinkNext | src/HOST/src/host_fifo.c:142-152 | one round of the loop over a chain: the rest of the chain stays as it was |
| BlockFifo.Fifo.Put | src/HOST/src/host_fifo.c:136-162 | a whole chain joins, in order; the result is the sum of its sizes |
| BlockFifo.Fifo.Get | src/HOST/src/host_fifo.c:165-206 | the oldest block leaves, with its link cleared, or nothing if there is none; the others keep their connection slots |
| BlockFifo.Fifo.Empty | src/HOST/src/host_fifo.c:109-121 | exactly the queued blocks are released, each once, and the queue is as new |
| BlockFifo.TcpPutFifo | src/HOST/src/host_fifo.c:225-247 | a fresh block with the message's bytes joins at the end and its slot the list of slots, or nothing changes |
| BlockFifo.Fifo.CountersBounded | src/HOST/src/host_fifo.c:143-195 | in every valid queue `i_size` is from 0 to 65535 bytes times `i_depth` |
| FifoSystem.LinkKeeps | src/HOST/src/host_fifo.c:142-152 | a put step keeps the whole invariant: pointers, counters, places, lock, order |
| FifoSystem.TakeKeeps | src/HOST/src/host_fifo.c:191-199 | so does taking the head |
| FifoSystem.ClearRepresents | src/HOST/src/host_fifo.c:201-203 | the store of NULL after the unlock disturbs no queued block |
| FifoSystem.EmptyConserved | src/HOST/src/host_fifo.c:101-122 | emptying releases exactly the queued blocks, each once |
| FifoSystem.RunSafe | src/HOST/src/host_fifo.c:136-206 | the invariant holds after every interleaving of any number of threads |
| FifoSystem.Counters | src/HOST/src/host_fifo.c:143-195 | in every run `i_depth` and `i_size` are the queue's length and total, so at most 65535 bytes a block |
| FifoSystem.Fills | src/HOST/src/host_fifo.c:136-162 | for every n, some run with a single producer has depth n and size 65535 n |
| FifoSystem.OverflowExactly | src/HOST/src/host_fifo.c:154-156 | some run of depth d has a size beyond an int iff d is above 32768, and depths above `MAX_FIFO_DEPTH` are reached |
| FifoSystem.StoreKeeps | src/HOST/src/host_fifo.c:240 | storing the connection slot into a block just made keeps the whole invariant |
| FifoSystem.HeaderKept | src/HOST/src/host_fifo.c:225-247 | over every run, a block keeps the size it was made with and the connection slot stored into it |
| FifoSystem.ArrivalOrder | src/HOST/src/host_fifo.c:140-203 | blocks removed, then those queued, are the blocks put in lock order, also for each connection by itself |
| FifoSystem.OnePlace | src/HOST/src/host_fifo.c:37-122 | each block ever allocated is with one thread, or queued once, or released once |
| FifoService.PutServes | src/HOST/src/host_fifo.c:136-162 | an undisturbed put ends with the block last in the queue, the lock free, and a waiting thread signalled if there is one |
| FifoService.GetServes | src/HOST/src/host_fifo.c:165-206 | an undisturbed get with blocks queued returns the oldest, out of the queue |
| FifoService.GetTimesOut | src/HOST/src/host_fifo.c:180-189 | with none queued it waits without the lock, and a timeout leaves everything as it was |
| FifoService.WokenServes | src/HOST/src/host_fifo.c:172-203 | a signalled thread that finds the queue as it was left returns the oldest block, in both forms |
| FifoSystem.NoRace | src/HOST/src/host_fifo.c:140-203 | no two threads are ever about to touch the same memory |
| FifoSystem.DoomExactly | src/HOST/src/host_fifo.c:180-193 | a step leads to a null read iff it returns 0 from the wait with an empty queue; nothing averts one |
| FifoSystem.CrashExactly | src/HOST/src/host_fifo.c:180-193 | a run reads through null, or is about to, iff some wait in it did so |
| FifoSystem.TestAgainNeverCrashes | src/HOST/src/host_fifo.c:172-178 | the disabled form never does, with no premise |
| FifoSystem.CalmNeverCrashes | src/HOST/src/host_fifo.c:158-193 | with one consumer, no emptying and no spurious wakeup, the compiled form never does |
| FifoSystem.PremisesExact | src/HOST/src/host_fifo.c:180-193 | with any single premise dropped a crash is within reach, and with none dropped it is not |
| ClientSockets.Client.constructor | src/VMCT/src/vmct_sock.c:29-33 | the globals at the start |
| ClientSockets.Client.CompareMaxfd | src/VMCT/src/vmct_sock.c:141-150 | the maximum grows to a larger positive descriptor and never shrinks |
| ClientSockets.Client.TcptmrStart | src/VMCT/src/vmct_sock.c:800-818 | a started timer is marked and outstanding; a failed start changes nothing |
| ClientSockets.Client.TcptmrStop | src/VMCT/src/vmct_sock.c:820-838 | the timer is neither marked nor outstanding; -1 iff the library no longer ran it |
| ClientSockets.Client.Disconnect | src/VMCT/src/vmct_sock.c:567-581 | all variables after the tail, in either build |
| ClientSockets.Client.TcpSend | src/VMCT/src/vmct_sock.c:436-604 | all variables and the result of a send in client mode |
| ClientSockets.Client.TcpRecv | src/VMCT/src/vmct_sock.c:607-774 | all variables, the buffer and the result of a receive in client mode |
| ClientSockets.Client.ForgetTimer | src/VMCT/src/vmct_sock.c:842 | before the lock, the remembered timer is forgotten and nothing else changes |
| ClientSockets.Client.TcpReconnect | src/VMCT/src/vmct_sock.c:844-869 | all variables after the locked part; a timer remembered by then is stopped; see `StopReached` |
| ClientSockets.Client.Open | src/VMCT/src/vmct_sock.c:861-862 | a new descriptor is watched |
| ClientRuns.RunSafe | src/VMCT/src/vmct_sock.c:567-581 | in every run, shortcuts and lost expiries included: every outstanding timer is marked, as one for the reconnect; the link is watched unless a shortcut is about to; what is watched is open and at most the maximum; every connection is at a frame boundary; every event that the premises allow finds what it needs |
| ClientRuns.RunConn | src/VMCT/src/vmct_sock.c:553-601 | each connection of a run, open or closed, is aligned, and in range if all messages sent were |
| ClientRuns.SendResult | src/VMCT/src/vmct_sock.c:553-604 | the length iff the whole frame is on the open link; -1 means nothing changed, or that the link is gone and its connection closed short of the frame |
| ClientRuns.SendByScript | src/VMCT/src/vmct_sock.c:436-604 | the new state and the result told from the script: a dead poll or a loop that stops early, at no bytes too, loses the link with exactly those bytes written |
| ClientRuns.ReceiveResult | src/VMCT/src/vmct_sock.c:607-774 | positive iff the whole declared frame above four bytes was taken iff the link stays; the buffer has its bytes from offset 4 on and is otherwise unchanged |
| ClientRuns.RecvByScript | src/VMCT/src/vmct_sock.c:607-774 | the new state and the result told from the script |
| ClientRuns.LinkAfter | src/VMCT/src/vmct_sock.c:840-869 | every event: the link and the open descriptors after it |
| ClientRuns.WatchAfter | src/VMCT/src/vmct_sock.c:567-578 | every event: the watch set and its maximum after it, in both builds |
| ClientRuns.RunSettled | src/VMCT/src/vmct_sock.c:567-581 | without the shortcut: connected, watching just the link, with no timer and no reconnect under way, or not connected, watching nothing, with at most the remembered timer or a reconnect under way; both builds agree on the whole state |
| ClientRuns.NothingToStop | src/VMCT/src/vmct_sock.c:576-578 | then neither the tail nor a reconnect ever has a timer to stop, and a reconnect never overwrites a live descriptor |
| ClientRuns.StraysExactly | src/VMCT/src/vmct_sock.c:840-842 | marked timers no longer remembered arise exactly where the store into `tmrId` finds its timer marked, and last until their expiry or a new start under their id |
| ClientRuns.NoneLeftExactly | src/VMCT/src/vmct_sock.c:840-842 | over whole runs: at most one timer is ever marked, the remembered one, iff no such store ever finds its timer marked |
| ClientRuns.TwoTimersWitness | src/VMCT/src/vmct_sock.c:567-581 | a run with two timers outstanding, one of them forgotten |
| ClientRuns.StopReached | src/VMCT/src/vmct_sock.c:842-854 | over whole runs: a reconnect finds a timer to stop iff a tail has come since it cleared `tmrId`, and the last one started a timer |
| ClientRuns.StopWitness | src/VMCT/src/vmct_sock.c:842-863 | a run that gets there; and if the open succeeds, the link is up beside that timer |
| ClientRuns.StuckExactly | src/VMCT/src/vmct_sock.c:567-580 | a step leaves the client with no link, no timer and no reconnect under way iff it strands it, or finds it so and does not rescue it; a shortcut that closes a link and fails to open one is among those that strand |
| ClientRuns.StuckRuns | src/VMCT/src/vmct_sock.c:800-856 | over whole runs, stuck iff, with nothing else outstanding or under way, some `timer_start` failed in a tail or failed reopening, the awaited expiry was lost, or a shortcut cut a fresh link and failed, with no shortcut's open since |
| ClientRuns.HealthyRuns | src/VMCT/src/vmct_sock.c:840-869 | if `timer_start` always succeeds, no expiry is lost and no shortcut taken: connected with no timer, or not connected with exactly the remembered one, or not connected with a reconnect under way |
| ClientRuns.CrossedExactly | src/VMCT/src/vmct_sock.c:840-845 | a reconnect is under way beside a live link iff its expiry was acted upon with the link up, or the shortcut opened one since, and the link has not gone since |
| ClientRuns.OverwritesCrossed | src/VMCT/src/vmct_sock.c:842-845 | over whole runs: a reconnect that locks overwrites a live link iff it has come to be so crossed |
| ClientRuns.OrphansExactly | src/VMCT/src/vmct_sock.c:845 | forgotten open descriptors are never closed, and arise exactly by such an overwriting |
| ClientRuns.LeakRuns | src/VMCT/src/vmct_sock.c:840-869 | over whole runs, a descriptor has leaked iff some reconnect, when it locked, overwrote a live one |
| ClientRuns.LeakWitness | src/VMCT/src/vmct_sock.c:840-869 | a run that leaks, after which the two builds of the tail differ |
| EndToEnd.SendAllWrites | src/HOST/src/host_sock.c:516-615 | messages whose link gets writable in time and whose sends move enough, through `EINTR` and `EAGAIN`, leave exactly their frames, in order, on the stream |
| EndToEnd.MessagesRoundTrip | src/HOST/src/host_sock.c:477-857 | any sequence of messages of 5 to 65535 bytes, however split and interrupted at both ends, is received message by message, same lengths, same bytes behind the header |
| EndToEnd.MessageArrives | src/HOST/src/host_sock.c:646-788 | the receiver's buffer then holds the message's bytes from offset 4 to its length, and is unchanged before and behind them |
| Answers.PlaySound | src/HOST/src/host_fifo.c:225-247 | in every run of host and queue as one system: requests are put in the order they came in, each block carries the slot of its request once stored, and the block in the FIFO task's hands is that of a later request than any other answered |
| Answers.SlotCarried | src/HOST/src/host_fifo.c:240 | in every such run, the slot an answer goes by is the one its request came in on |
| Answers.AnswersInOrder | src/HOST/src/host_fifo.c:225-247 | in every such run, answers go out in the order in which their requests came in |
| Answers.AnswerReachesAsker | src/HOST/src/host_fifo.c:225-247 | in every such run, an answer ends up on the connection that its request came from iff that slot was never freed in between |
| Answers.RequestServed | src/HOST/src/host_fifo.c:225-247 | from every point of a run where both tasks are at rest, a request can go through the queue into the FIFO task's hands, with its slot, so that an answer by it may follow |
| EndToEnd.HostGetsWhatClientSent | src/VMCT/src/vmct_sock.c:436-604 | over all runs of both processes, what the host accepts on a connection is, in order, the first frames the client delivered on it |
| EndToEnd.ClientGetsWhatHostSent | src/HOST/src/host_sock.c:477-644 | and the other way round |

## Left out

- Socket setup: `TcpOpen`, `connect_timeout` and `setNonblocking` appear only as the descriptor they return; a `TcpOpen` that fails after `socket` keeps its descriptor open, which the leak theorems do not count.
- Printing, logging, configuration, message contents, UDP, and everything around the databases: no protocol state in them.
- The client's server mode and its `alist`, which the source marks as not used.
- `block_FifoShow`: it returns a block that is still queued, so ownership is lost.
- The leading unlock in `block_FifoEmpty`, which is sound only if the caller has the lock or nobody does.
- `block_FifoRelease`: the queue itself is never freed.
- BlockFifo.Fifo.Get: covers the call that finds a block and the one that times out; waiting and being woken are in `FifoSystem`.
- FifoSystem.LinkKeeps: threads put single blocks, as `tcp_PutFifo` does; chains are put in `BlockFifo.Fifo.Put`.
- FifoSystem.NoRace: the threads are those of a correct client of the queue, which use a block only between creating and putting it or after getting it.
- HostSockets.Host.TcpAccept: the index -1 of a failed accept, which the receive task uses as an index, is not followed further; an event `Accept` is an accept that returned a descriptor.
- HostSockets.Host.Watch: is one step with the accept, but the source unlocks in between (src/HOST/src/host_task.c:181-191); an answer sent by slot number there can free the fresh slot before it is watched, after which the tables agree as here except that the maximum has not grown.
- HostSockets.Host.TcpRecv: the scan for the state entry is one step with the reset; `ScanLinearizes` and the event `LateReset` say what a report stored in between changes.
- HostSockets.Host.Register: the address is an input; in the source it is read from bytes 12 to 15 of a buffer that all connections share, so behind a first frame of less than 16 bytes it is one an earlier message left.
- HostSockets.Host.CopyBack: identifiers and names of the machine in an entry are not kept.
- HostSockets.Host.CheckHung: when the check runs (link counters, bypass modes) is left open, so it may come at any time; what its copy reads behind `basePState` is arbitrary. From entry 119 on the copy also runs past the end of `stateinfo` itself; other globals are taken not to change.
- ClientSockets.Client.Enlist: one step, though the source reads `ListenFD` three times.
- ClientSockets.Client.OnExpiry: the test of the mark and its taking back are one step; `EarlyUnmark` says when that makes no difference.
- ClientSockets.Client.FindNoLink: unlocked reads and stores of single variables are taken to be atomic.
- ClientSockets.Client.Begin: the receive task's start is taken to come before the other tasks' first steps.
- Answers.AnswerReachesAsker: one task receives and one takes blocks, as in the source; a block is answered at most once.
- ClientSockets.Client.Disconnect: the heartbeat's counters are not kept; a missed heartbeat may come at any time.
- TimerIds.Ring.Cancel: is for ids that are out, which is what the library's timer list gives it; the list itself, and an insertion into it that fails and so keeps an id, are not part of the model.
- `ThreadCleanUp`, thread cancellation and shutdown; fields that only these or printing use (`is_check`, link status, system names).
