# A verified model of tokio-kcp

KCP is a reliable transport over datagrams: a sliding window with selective acknowledgements (`ack`), cumulative ones
(`una`), fragmentation, congestion control, a round-trip estimator and timed retransmission, on wrapping 32-bit sequence
numbers and clocks. The repository wraps the C engine `kcp/ikcp.c` in an asynchronous session (`src/stream.rs`), which
adds a SYN and a FIN handshake, and a UDP listener (`src/udp.rs`, `src/conv.rs`). This project models all three and
proves what they are for.

## How it is built

The engine is written twice and the two are proved equal. `KcpControl.Kcp` is the control block as a class:
fields, four queues, the flat acknowledgement array, the output buffer, and the loops of the C code. `Endpoints`
says what each operation does as a function on values. Every function that touches a sequence number
takes the number system it runs on, `Bits32` (what the C code runs on) or `Unbounded` (what it stands for), so one
definition serves both layers:

| layer | files | results |
|---|---|---|
| numbers and bytes | `Serial`, `WireFormat`, `Packetization` | serial-number comparison, packet round trips |
| one endpoint, any input | `Invariants`, `Messages`, `Timers`, `Congestion`, `Lifetime` | invariants that survive every byte string |
| what each operation does | `Flushing`, `Incoming`, `Reading`, `Pace` | before and after on the fields: what is sent, resent, acknowledged, delivered, and when |
| the engine in place | `KcpControl` | each C function equals its specification |
| 32 bits against unbounded | `Wraparound` | every operation commutes with taking the low 32 bits |
| two endpoints and a network | `Network`, `Safety`, `Steps`, `EndToEnd`, `Closing` | exactly-once, in-order delivery and sound acknowledgements over all runs |
| progress | `Exchange` | a round trip without loss settles what was sent; a closed window opens again |
| sessions | `Marking`, `Sessions`, `Starting`, `SessionSafety`, `SessionTrace`, `Labels` | handshakes in order, recorded calls, one conv per session |
| what each turn of the loop does | `Branches`, `Fetching`, `Identity`, `Tuning` | every branch before and after; who the peer is; which settings apply |
| the data of the sessions | `Frames`, `Writes`, `LosingRun` | every frame read or written accounted for; when one is lost |
| two sessions | `Shutdown`, `Conversation` | graceful close; what is told is what was written; one ID on both sides |
| the session in place | `SessionTask` | methods and loops equal their specification |
| at every point | `Executions` | the guarantees together |
| listener | `Quarantine`, `Listening` | exact quarantine, numbers that rest, inverse tables, conserved permits |

`Endpoints` and `Sessions` follow the source branch by branch, so that the classes can be proved equal to them. What the
branches are for is said a second time, without naming them, in `Flushing`, `Incoming`, `Reading`, `Pace`, `Exchange`,
`Branches`, `Fetching`, `Identity` and `Tuning`: as relations between the fields before and after a call, and what is sent.

The network never forgets a packet: a schedule may deliver any packet ever sent, any number of times, at any later
moment, or never. `Network.Run32` runs a schedule on 32-bit endpoints and byte strings, `Network.RunU` on unbounded
ones. Safety is proved for `RunU` with no assumption on time. It carries over to `Run32` by `EndToEnd.Simulates`, under
the packet-lifetime assumption `Network.RunInTime`: no delivered number is half the number circle behind the
receiver's own counter, less two receive windows and the largest flight. Some such assumption is needed by any protocol
with wrapping numbers.

Two sessions project to such a schedule (`Shutdown.Schedule`), so the end-to-end results hold for their control blocks.
`Frames` and `Writes` account for every frame between the application and the control block, and together they give
what a user of the streams relies on: `Conversation.ToldIsWritten`. The close follows too: when a session sends its FIN,
the guard on `waitsnd` and acknowledgement soundness together say that the peer holds everything sent before.

## What turned out not to hold

- `ikcp_send` in stream mode may queue part of the data and then fail with -2: `Messages.FailedSend` says exactly when.
- The early exit of `ikcp_parse_una` is plain removal if and only if `una` does not tear the buffer across the number
  circle: `Invariants.ParseUnaIsRemoval`, with an example in `Invariants.ParseUnaTorn`.
- The congestion window relation needs `mss` > 688 when the MTU is changed after `initialize` has flushed
  (`Congestion.InitializeThenSetMtu`), and a `resend` that does not make `cwnd * mss` wrap (`Congestion.BackedKeeps`,
  `Congestion.WindowWraps`).
- The round-trip estimator is exact up to samples of 2^28 - 1 ms and wraps at 2^28: `Timers.EstimatorOverflows`.
- A session does not always tell its application everything it has read. What is dropped is exactly the frame that waits
  for room in the output channel when the loop ends: `Frames.EndedToldEverything`. For an established session that
  disconnects there are two ways to get there, and no other (`Frames.LeavingToldEverything`). A frame may wait already
  just before: `FinWaitPeer` looks at the unread data of KCP only (`LosingRun.FrameLost`; room in the channel does not
  rule it out, because the `select!` of `src/stream.rs:448-535` takes any branch that is ready, so the peer's FIN may come
  first). Or none waits, but KCP has a message to read at the end of the batch in which the session disconnects, and that
  is still fetched (`LosingRun.FrameLostToReset`).
- The frame that is swallowed after a FIN need not be the FIN's: the mark on any packet is enough, and the frame is not
  looked at (`LosingRun.DataSwallowed`). Between two sessions, in message mode, it is the FIN's if and only if everything
  the other session was given before has been read: `Conversation.SwallowedIsFin`.

## Conventions

`mtu` is at most 65507 (a UDP datagram) where a bound on packets matters, the receive window at most 2^30 or so
(`Invariants.ConfigInv`); the sessions set both before traffic, as `src/stream.rs:388-389` does. C `int` arithmetic that
overflows is modelled as two's complement. `long` is taken to have 64 bits. A clock is read once per event of the
session loop.

## Model

| member | source | states |
|---|---|---|
| Serial.TimeDiffExact | kcp/ikcp.c:136-139 | on the low 32 bits of any two counters the comparison is their true difference if and only if they are less than half the number circle apart |
| Serial.DiffChain | kcp/ikcp.c:136-139 | differences add up while the sum stays in half the circle |
| Serial.DiffAdvance | kcp/ikcp.c:136-139 | advancing a wrapping counter by n advances every comparison with it by n, as long as that stays in half the circle |
| WireFormat.HeadRoundTrip | kcp/ikcp.c:53-121 | a segment header decodes to the encoded fields, counters modulo 2^32, `wnd` modulo 2^16, and the payload follows it |
| WireFormat.ParseEncoded | kcp/ikcp.c:761-869 | the loop of `ikcp_input` on an encoded packet reads back its segments, in order and unchanged, up to the first foreign conv |
| WireFormat.Parse | kcp/ikcp.c:761-787 | for any byte string: the result code is one of 0, -1, -2, -3, and every segment let through has this conv, a known command and fields in range |
| Invariants.ShrinkKeeps | kcp/ikcp.c:560-569 | after removals, re-reading `snd_una` restores "it is the head of `snd_buf`, or `snd_nxt`" and never moves it back |
| Invariants.ParseAckIsRemoval | kcp/ikcp.c:571-591 | for any number at all, the guarded early-exit scan is removal of exactly the segments with that number |
| Invariants.ParseUnaIsRemoval | kcp/ikcp.c:593-607 | the early-exit scan is removal of everything before `una` if and only if `una` does not tear the buffer (not before its first and, around the circle, after its last segment) |
| Invariants.ParseUnaTorn | kcp/ikcp.c:593-607 | such a `una`: with segments 0 and 1 buffered, the scan keeps both and should remove one |
| Invariants.InputUnaKeeps | kcp/ikcp.c:788-797 | any `una` from the network keeps the sender invariant and moves `snd_una` only forward, at most to `snd_nxt` |
| Invariants.InputAckKeeps | kcp/ikcp.c:799-806 | the same for any acknowledged number |
| Invariants.PromoteKeeps | kcp/ikcp.c:1016-1042 | moving segments to `snd_buf` keeps it strictly increasing in [`snd_una`, `snd_nxt`) and the flight within min(`snd_wnd`, 65535) |
| Invariants.PromoteShape | kcp/ikcp.c:1021-1042 | what moves is a front of `snd_queue`, to the end of `snd_buf`, with consecutive numbers and untouched payload |
| Invariants.InsertOrder | kcp/ikcp.c:696-713 | insertion keeps `rcv_buf` strictly increasing, duplicate-free and inside the receive window |
| Invariants.InsertElements | kcp/ikcp.c:696-713 | insertion loses nothing, adds at most the new segment, and its number is in the buffer afterwards |
| Invariants.DrainShape | kcp/ikcp.c:720-732 | draining moves a front of `rcv_buf` to the end of `rcv_queue` and advances `rcv_nxt` by as many |
| Invariants.DrainKeeps | kcp/ikcp.c:720-732 | draining keeps the receiver invariant and ends fully drained: the head is not `rcv_nxt`, or the queue is full |
| Invariants.InputPushKeeps | kcp/ikcp.c:689-732 | any data segment from the network keeps the receiver invariant, drained again |
| Invariants.PopKeeps | kcp/ikcp.c:386-425 | taking a message off `rcv_queue` and draining keeps the receiver invariant |
| Invariants.FragmentCountFits | kcp/ikcp.c:507-509 | the number of fragments is the least that holds the data |
| Invariants.FragmentsShape | kcp/ikcp.c:514-534 | every fragment has at most `mss` bytes and carries the number of fragments after it (0 in stream mode) |
| Invariants.SendKeeps | kcp/ikcp.c:469-537 | whatever is sent, with whatever result, every queued fragment fits `mss` and one byte of `frg` |
| Invariants.RecvKeeps | kcp/ikcp.c:358-435 | receiving or peeking, with any buffer size, keeps the whole endpoint invariant |
| Invariants.InputBytesKeeps | kcp/ikcp.c:749-900 | for every byte string: the endpoint invariant survives `ikcp_input`, and `snd_una` moves forward only, at most to `snd_nxt` |
| Invariants.FlushKeeps | kcp/ikcp.c:931-1138 | a flush keeps the endpoint invariant |
| Invariants.UpdateKeeps | kcp/ikcp.c:1146-1171 | an update at any time keeps the endpoint invariant |
| Messages.SendAccepts | kcp/ikcp.c:508-512 | `ikcp_send` succeeds if and only if what does not fit the last queued segment fits 255 segments |
| Messages.MaxFrameAccepted | src/protocol.rs:354-356 | up to `max_frame_size(mtu)` bytes are accepted, in both modes, whatever is queued |
| Messages.FailedSend | kcp/ikcp.c:478-512 | a failing send leaves the queue unchanged if and only if there was no half-full stream segment to fill first; otherwise it has queued exactly the bytes that fitted |
| Messages.FailedSendTakesData | kcp/ikcp.c:478-512 | an input on which a failing send has queued 25 bytes |
| Messages.FragmentsNonEmpty | kcp/ikcp.c:514-534 | non-empty data makes only fragments with 1 to `mss` bytes |
| Messages.FragmentsData | kcp/ikcp.c:514-534 | the fragments, put together, are the data |
| Messages.MessageShape | kcp/ikcp.c:514-534 | a message is at least one fragment, numbered down to 0, and its fragments put together are it |
| Messages.Reassembly | kcp/ikcp.c:441-463 | if a queue holds a front of the fragments of some messages, `ikcp_peeksize` succeeds exactly when the first message is complete, and the merge loop then yields exactly it |
| Messages.PeekIsPayload | kcp/ikcp.c:386-411 | `ikcp_recv` copies exactly `ikcp_peeksize` bytes, on any queue |
| Messages.FullQueueReadable | kcp/ikcp.c:441-463 | no receive deadlock: a full `rcv_queue` always has a message to hand over, even one filled by garbage |
| Packetization.PacketsFit | kcp/ikcp.c:951-1114 | the packets of a flush are non-empty, at most `mtu` bytes each, and in order hold exactly its segments |
| Packetization.PacketRoundTrip | kcp/ikcp.c:951-1114 | the peer parses each of them to its end and reads, in order, exactly those segments |
| Lifetime.FlushRoundTrip | kcp/ikcp.c:931-1114 | for any valid endpoint whose numbered segments carry its conv: the peer reads from the packets of one flush the acknowledgements, then the probes, then the due segments, fields intact |
| Labels.RunLabels | src/stream.rs:616-642 | the SYN handshake changes the conv of a control block, but over every run of a session every numbered segment carries the current one: a new conv is kept only with nothing to send |
| Labels.SessionPackets | src/stream.rs:759-766 | so at every point of every run of a session, whatever it received, its next flush is read back by the peer as above |
| Wraparound.InputWrap | kcp/ikcp.c:749-900 | on a packet that is not too old, 32-bit input is the low 32 bits of unbounded input: every comparison decides alike |
| Wraparound.FlushWrap | kcp/ikcp.c:931-1138 | the same for a flush, and the segments sent are the same |
| Wraparound.RecvWrap | kcp/ikcp.c:358-435 | the same for receiving, and the data returned is the same |
| EndToEnd.Simulates | kcp/ikcp.c:136-139 | wrap-around refinement: over every schedule in which no packet outlives its numbers, the system of 32-bit endpoints and byte-string packets is, step for step, the unbounded one modulo 2^32 |
| Safety.PushGrows | kcp/ikcp.c:689-732 | after any data segment the receiver holds all it held; what it holds still matches what the sender numbered |
| Safety.AckLosesNothing | kcp/ikcp.c:799-806 | acknowledging a number the peer holds loses nothing |
| Safety.UnaLosesNothing | kcp/ikcp.c:593-607 | a `una` up to which the peer has received loses nothing |
| Steps.FlushHonest | kcp/ikcp.c:951-1114 | every segment a flush sends tells the truth: its data is what was numbered, what it acknowledges is held |
| Steps.SendSafe | kcp/ikcp.c:469-537 | accepted data, and nothing else, joins what is to be delivered |
| Steps.RecvSafe | kcp/ikcp.c:358-435 | what the application gets is the next message, or the next bytes of the stream |
| Steps.StepSafe | kcp/ikcp.c:749-900 | every action of either side keeps the system invariant |
| EndToEnd.RunSafe | kcp/ikcp.c:749-900 | the system invariant holds in every state of every run with loss, duplication and reordering |
| EndToEnd.ExactlyOnceInOrder | kcp/ikcp.c:358-435 | end-to-end safety of the 32-bit system: what either application got is a prefix of what the other one handed over, with the same message boundaries, or byte by byte in stream mode |
| EndToEnd.AckSoundness | kcp/ikcp.c:571-607 | every fragment ever numbered is still in the sender's `snd_buf`, or the peer has passed it, or holds it, with its data, in `rcv_buf` |
| EndToEnd.QuietMeansComplete | kcp/ikcp.c:1285-1288 | when `ikcp_waitsnd` is 0 and the peer has nothing to read, the peer's application has got everything |
| Closing.RunOnward | kcp/ikcp.c:720-732 | whatever one side holds at some point of a run it holds at every later point, and the sender's history only grows |
| Timers.UpdateAckExact | kcp/ikcp.c:543-558 | with samples up to R <= 2^28 - 1 the 32-bit estimator is the unbounded formula of section 2 of RFC 6298, both averages stay in [0, R], and the timeout in [`rx_minrto`, 60000] |
| Timers.EstimateBounded | kcp/ikcp.c:543-558 | the same over any sequence of samples |
| Timers.EstimatorOverflows | kcp/ikcp.c:543-558 | the bound is the best one: at 2^28 the average wraps and becomes 1 |
| Timers.TickTimer | kcp/ikcp.c:1048-1081 | one segment in the transmission loop: its timeout stays in [30, 60000 * 2^(x-1)] for x transmissions, and its timer is then in the future |
| Timers.FlushTimers | kcp/ikcp.c:1044-1104 | after a flush every segment has been sent, and each one sent at most 16 times has its timer strictly in the future, in wrapped time |
| Timers.CheckSound | kcp/ikcp.c:1183-1219 | `ikcp_check` never asks to wait longer than `interval`; at any earlier moment `ikcp_update` changes nothing but the clock; nothing is due before the time it returns |
| Congestion.GrowKeeps | kcp/ikcp.c:875-897 | growth computes the unbounded formula without overflow, keeps (`cwnd`-1)*`mss` < `incr` < (`cwnd`+1)*`mss`, never shrinks the window and never passes the remote one |
| Congestion.BackedKeeps | kcp/ikcp.c:1116-1137 | the window updates of a flush set the window they should and never leave it 0; they restore that relation if and only if a restart after a fast retransmission alone has its product `cwnd * mss` below 2^32 |
| Congestion.WindowWraps | kcp/ikcp.c:1044-1137 | an accepted `resend` and a valid control block with a segment skipped that often: the flush that retransmits it wraps the product and loses the relation |
| Congestion.InputCongestion | kcp/ikcp.c:749-900 | `ikcp_input` keeps the relation on any packet |
| Congestion.FlushCongestion | kcp/ikcp.c:931-1138 | `ikcp_flush` keeps it, and `cwnd` is at least 1 from the first flush on |
| Congestion.InitializeThenSetMtu | src/protocol.rs:80-109 | because `initialize` flushes with the default MTU, the relation holds for the configured `mss` if and only if `mss` > 688 |
| Lifetime.AlwaysSound | kcp/ikcp.c:749-900 | any calls and any byte strings as packets, in any order: all queues and retransmission timers stay within their invariants |
| Lifetime.WindowAlways | kcp/ikcp.c:931-1138 | and so does the congestion window, as long as no `resend` is asked for that could make its product wrap (millions, for an Ethernet MTU) |
| Lifetime.StartsSound | kcp/ikcp.c:234-296 | a new control block, with any MTU and windows set before its first flush, satisfies them all |
| Starting.ConfiguredStarts | src/stream.rs:388-389 | after `initialize` and `kcp_apply_config`, with any configuration, a session starts from a control block without traffic that satisfies them; the congestion window does if and only if `mss` > 688 and `resend` is as above |
| KcpControl.Kcp.constructor | kcp/ikcp.c:234-296 | a valid control block with the values of `ikcp_create` |
| KcpControl.Kcp.Send | kcp/ikcp.c:469-537 | result code and new queue of the specification function, for any data |
| KcpControl.Kcp.PeekSize | kcp/ikcp.c:441-463 | the size of the next message, or -1 |
| KcpControl.Kcp.MergeFragments | kcp/ikcp.c:386-406 | the loop yields the payload of exactly the first message and unlinks it unless peeking |
| KcpControl.Kcp.Recv | kcp/ikcp.c:358-435 | code, data and control block of the specification function |
| KcpControl.Kcp.Drain | kcp/ikcp.c:413-425 | in place: the front of `rcv_buf` that is next, while the queue has room |
| KcpControl.Kcp.UpdateAck | kcp/ikcp.c:543-558 | the estimator, in place |
| KcpControl.Kcp.ParseUna | kcp/ikcp.c:593-607 | the scan from the front, in place |
| KcpControl.Kcp.ParseAck | kcp/ikcp.c:571-591 | the scan that stops at the number or past it, in place |
| KcpControl.Kcp.ParseFastack | kcp/ikcp.c:609-635 | counts a skip for exactly the segments before the number |
| KcpControl.Kcp.AckPush | kcp/ikcp.c:637-671 | appends to the flat pair array, which doubles when full; earlier pairs stay |
| KcpControl.Kcp.FindPlace | kcp/ikcp.c:696-713 | the backward search finds the insertion point, or the duplicate |
| KcpControl.Kcp.ParseData | kcp/ikcp.c:683-745 | window check, insertion and draining, in place |
| KcpControl.Kcp.Input | kcp/ikcp.c:749-900 | code and control block of the specification function, for every byte string |
| KcpControl.Kcp.GrowWindow | kcp/ikcp.c:875-897 | the congestion window, in place |
| KcpControl.Kcp.EncodeSeg | kcp/ikcp.c:906-917 | writes the 24 header bytes at the cursor and nothing else before it |
| KcpControl.Kcp.Output | kcp/ikcp.c:204-213 | the buffer up to the cursor becomes one packet |
| KcpControl.Kcp.Append | kcp/ikcp.c:959-967 | closes the packet if the segment does not fit, then writes it; the cursor never passes `mtu` |
| KcpControl.Kcp.FlushAcks | kcp/ikcp.c:956-968 | one segment per pair of the array, which is then empty |
| KcpControl.Kcp.FlushProbes | kcp/ikcp.c:992-1012 | the probes that are asked for, after the acknowledgements |
| KcpControl.Kcp.MoveQueue | kcp/ikcp.c:1016-1042 | numbers segments while the window allows |
| KcpControl.Kcp.Transmit | kcp/ikcp.c:1048-1092 | decides whether one segment is due, and restamps it |
| KcpControl.Kcp.FlushData | kcp/ikcp.c:1044-1108 | the transmission loop: buffer, packets, counters and the dead-link state after it |
| KcpControl.Kcp.ShrinkWindow | kcp/ikcp.c:1116-1137 | the congestion window after losses, in place |
| KcpControl.Kcp.Flush | kcp/ikcp.c:931-1138 | control block of the specification function, and exactly its packets appended to the output |
| KcpControl.Kcp.Update | kcp/ikcp.c:1146-1171 | the clock, and a flush when it is due |
| KcpControl.Kcp.Check | kcp/ikcp.c:1183-1219 | the next time an update is needed |
| KcpControl.Kcp.SetStream | src/protocol.rs:240-242 | the mode, and nothing else |
| KcpControl.Kcp.SetMtu | kcp/ikcp.c:1223-1236 | the new MTU and segment size, and a buffer for three packets |
| KcpControl.Kcp.NoDelay | kcp/ikcp.c:1246-1269 | the settings, arguments out of range clipped, negative ones ignored |
| KcpControl.Kcp.WndSize | kcp/ikcp.c:1272-1282 | the windows; the receive window is at least 256 |
| KcpControl.Kcp.PopOutput | src/protocol.rs:266-268 | takes the oldest packet, if there is one |
| Flushing.FlushFlight | kcp/ikcp.c:1016-1042 | a flush numbers fragments, oldest first, until the flight is the smallest of the local, the remote and (unless switched off) the congestion window, and no further; with fragments left over it has reached it |
| Flushing.FlushSegments | kcp/ikcp.c:1044-1104 | each segment of `snd_buf` before and after a flush: a new one starts with the current timeout, an overdue one backs off by the rule of its `nodelay` mode, an overtaken one is resent at once with the same timeout, any other is untouched; what is numbered now are the next fragments, with the next numbers and the free window |
| Flushing.FlushSends | kcp/ikcp.c:1083-1104 | a flush sends exactly the segments that are new, overdue or overtaken, each once, in the order of their numbers, as they are in `snd_buf` then |
| Flushing.FlushAnswers | kcp/ikcp.c:951-1012 | first one acknowledgement for each received number, in order; then the question about a closed window if its time has come, and the answer if one is owed, both with the free window; and when to ask next |
| Flushing.FlushSlows | kcp/ikcp.c:1116-1137 | the congestion window after a flush: one segment after any timeout; after fast retransmissions only, half the flight and `resend`; else as it was, but never 0 |
| Flushing.FlushGivesUp | kcp/ikcp.c:1094-1099 | the link is given up exactly when a segment goes out for at least the `dead_link`-th time; every timeout is counted |
| Incoming.InputTells | kcp/ikcp.c:788-851 | after any packet the remote window is the one in its last segment, and there is something to tell exactly if there was or a segment asks |
| Incoming.InputMeasures | kcp/ikcp.c:799-803 | the estimator takes, in order, one sample from each acknowledgement whose time is not in the future, by the unbounded formula |
| Incoming.InputGrows | kcp/ikcp.c:875-897 | a well-formed packet that moves `snd_una` opens the congestion window by the unbounded formula, up to the remote window, if it was below that; no other packet changes it |
| Incoming.InputAcknowledges | kcp/ikcp.c:788-830 | after any packet: a segment acknowledged by number, or lying before the largest `una`, no longer waits; one that is neither still does, its skip counter one higher exactly if a well-formed packet acknowledges a later one |
| Incoming.InputReceives | kcp/ikcp.c:831-850 | after any packet: nothing received is lost, nothing but its data segments is added; every data segment in the window, or received before, will be acknowledged with its number and time; and one in the window is there |
| Pace.UpdateFlushes | kcp/ikcp.c:1146-1171 | an update is a flush at the new time if and only if it is the first, or the flush time has come, or is more than 10 s out of step; the next flush time is at most `interval` ahead and in step with the last one; otherwise only the current time changes |
| Pace.CheckExact | kcp/ikcp.c:1183-1219 | `ikcp_check` returns now if and only if a flush or a retransmission is due, and otherwise the least of `interval` and the times to the next flush and to each retransmission |
| Reading.RecvOutcome | kcp/ikcp.c:358-435 | the three error codes of `ikcp_recv` and exactly when; otherwise the segments up to the first that none follows, put together, taken off unless peeking, and what is next moves up while there is room |
| Messages.SendFills | kcp/ikcp.c:478-534 | no segment is queued behind one that is not full: in stream mode the last queued one is filled first, also by a send that fails; what was queued stays in front |
| Packetization.PacketsTight | kcp/ikcp.c:959-967 | a packet is closed only when the next segment does not fit |
| Exchange.RecvTells | kcp/ikcp.c:428-432 | a read that makes room in a full queue, and no other, gives something to tell |
| Exchange.TellReaches | kcp/ikcp.c:992-1012 | with something to tell, the next flush sends, and any of its datagrams sets the window at the peer to what is free here |
| Exchange.ClosedWindowReopens | kcp/ikcp.c:972-1012 | probing a closed window: once it is time to ask, a datagram of the next flush asks; the peer that gets it answers with its next flush, and any datagram of that sets the window |
| Exchange.RoundTripSettles | kcp/ikcp.c:749-900 | progress: in one round trip without loss, every data segment that goes out and lies in the peer's window gets there, is acknowledged, and no longer waits in `snd_buf` |
| Marking.FinMarkTransparent | src/stream.rs:783-801 | a packet KCP accepts is, once marked, rejected with -3 without effect, not taken for RESET, and restored by unmarking, so its second input has exactly its own effect |
| Marking.ResetIsForeign | src/stream.rs:785-790 | what starts like a RESET is never accepted by KCP, marked or not |
| Marking.ForeignIsIgnored | kcp/ikcp.c:782-788 | a packet whose first command is none of KCP's changes nothing, whatever follows |
| Marking.ReadPayloadData | src/protocol.rs:313-333 | the cursor loop finds what the recursive specification finds |
| Marking.PayloadOfPacket | src/protocol.rs:313-333 | on a packet of KCP's own making that is the first payload there is |
| Sessions.FinTurn | src/stream.rs:656-703 | the FIN loop, turn by turn: it stops only at a failing guard, and every turn raises the state |
| SessionSafety.FinTransitRises | src/stream.rs:656-703 | `fin_transit_state` never moves the handshake backwards |
| SessionSafety.FinTransitSettles | src/stream.rs:656-703 | it goes as far as it can: a second call changes nothing |
| SessionSafety.RunControl | src/stream.rs:407-536 | over every sequence of events the handshake only moves on, what the application was told is never taken back, and the connection is announced at most once and before any frame |
| SessionSafety.SleepsThroughNothing | src/stream.rs:430-446 | when the loop sleeps, then for 1 ms to a minute, and at no moment before it wakes would an update have done anything or a handshake been timed out |
| SessionSafety.DisconnectedIsFinal | src/stream.rs:418-420 | a disconnected session stays so and tells the application nothing more |
| SessionSafety.WaitingFrameIsLost | src/stream.rs:683-699 | one way to lose a frame: in `FinWaitPeer` with nothing unread, the peer's FIN disconnects while a frame waits, and the application is told nothing more |
| Frames.RunReads | src/stream.rs:477-530 | over every run: the first frame KCP hands over has the key and is the handshake's; the rest, in order, is what the application was told, then the frame that waits, less what was swallowed after a FIN |
| Frames.LeavingToldEverything | src/stream.rs:498-541 | when an established session disconnects, for whatever reason, its application gets everything ever read for it, at any later point, if and only if no frame was waiting just before and none is fetched at the end of the batch of packets in which it disconnected |
| Frames.EndedToldEverything | src/stream.rs:536-541 | the same at the end of the loop: told everything if and only if no frame waits there |
| Identity.SynStep | src/stream.rs:575-614 | a batch that ends in Syn: with the right first frame (the key, and an ID of the right length; for a client its own) and room in the channel the session is established under that ID and says so; without any frame it stays; after any other it is disconnected and has told nothing |
| Identity.RunIntroduced | src/stream.rs:575-614 | over every run: a session that has told its application anything was handed, as its first frame, the key and its own ID; a client keeps the ID it began with |
| Branches.BeginDoes | src/stream.rs:391-405 | a session begins in Syn with the connect timeout; exactly one under the SYN conv is the client, keeps its ID and sends it with the key |
| Branches.TopDoes | src/stream.rs:407-446 | the loop top: everything queued leaves, in order, payloads marked exactly in `FinSent`; the loop ends if and only if disconnected, the link given up or idle for the expiry time; else it disconnects if and only if a handshake is out of time; else it updates if and only if something is due |
| Branches.KcpFlushDoes | src/stream.rs:759-766 | a requested flush happens now, as the last thing, and nothing else is done to KCP |
| Branches.FromAppDoes | src/stream.rs:448-475 | frames are taken in order, at least one, until the send queue is full or there are no more; with none left and none to come the input is closed and the FIN handshake goes as far as it can |
| Branches.OneFrameAsks | src/stream.rs:705-719 | a single frame is flushed at once if and only if KCP took it and either `nodelay` is set or another segment is waiting |
| Branches.ToAppDoes | src/stream.rs:477-496 | the waiting frame is told first, then more, until nothing is left to read or the channel is full |
| Branches.NetDoneDoes | src/stream.rs:498-530 | at the end of a batch: the FIN handshake has gone as far as it can, a frame is fetched if there is one, a requested flush has happened |
| Branches.OtherDoes | src/stream.rs:616-642 | a packet under another conv: a client in Syn moves to that conv if and only if the packet is well-formed and settles its greeting; a server hears one under the SYN conv and keeps its own; nobody else hears it |
| Branches.ResetDoes | src/stream.rs:785-790 | a RESET disconnects at once |
| Branches.FinDoes | src/stream.rs:791-801 | a marked packet: the FIN is seen, the first one closes the input channel, the handshake goes on, and the packet counts as itself |
| Branches.BatchIsEvents | src/stream.rs:498-530 | a batch is its packets, all of them, one by one, and then what the end of a batch does |
| Branches.FinTransitExact | src/stream.rs:656-703 | how far the FIN handshake gets, exactly: the FIN is sent once no more input comes and everything before is acknowledged, flushed, and waited for until it is acknowledged too; the end is reached when the peer's FIN is seen and everything is read |
| Fetching.ReadDoes | src/stream.rs:744-757 | one read: nothing without a whole non-empty frame; else it leaves KCP and the caller gets it, unless it is the last there is after a FIN |
| Fetching.FinFrameUntold | src/stream.rs:477-496 | the FIN's own frame is never told: handing frames over stops before it |
| Fetching.FetchDoes | src/stream.rs:519-526 | at the end of a batch it is not fetched for the application either; any other frame is |
| Fetching.SynDoneDoes | src/stream.rs:498-530 | a batch in the SYN handshake: a server that connects has sent its greeting at once, a requested flush has happened, and a frame that is there is fetched |
| Tuning.RunTuned | src/stream.rs:391-405 | over every run: the MTU, the windows and the mode stay as they were given; retransmission is quick during the SYN handshake, and the timing is the configured one once the application was told anything |
| Tuning.ConfiguredRun | src/stream.rs:721-742 | from a new control block on, these are the values the configuration asks for, clipped or kept as `ikcp_nodelay` and `ikcp_wndsize` do |
| LosingRun.FrameLost | src/stream.rs:407-541 | a run of the loop, turn by turn from the start of a server session, in which the FIN arrives while a frame waits; the frame is never told |
| LosingRun.FrameLostToReset | src/stream.rs:498-541 | another, in which no frame waits when a RESET disconnects: data came in the same batch, and is read after it and never told |
| LosingRun.DataSwallowed | src/stream.rs:744-757 | a third, in which data is swallowed as if it were the FIN's frame: the mark on any packet is enough |
| Writes.RunSent | src/stream.rs:448-475 | over every run KCP was given the greeting, then the frames taken from the application, in order, each whole if it fits, then the FIN |
| Conversation.ToldIsWritten | tests/stream.rs:91-100 | two sessions on the network, over every run: what one application is told, with the frame that waits, is a front of what the other one's session took from its application (and its FIN), less what was swallowed; message by message, or byte by byte in stream mode |
| Conversation.WrittenArrives | tests/stream.rs:91-100 | with frames of acceptable size and none swallowed, it is a front of what the other application wrote |
| Conversation.EverythingArrives | tests/stream.rs:91-100 | a graceful close loses nothing: with the FIN seen and nothing unread, the other application has nothing left to send and KCP has handed over all it wrote; in message mode, if of these only the FIN's frame was swallowed, the application was told exactly that, but for a frame that waits |
| Conversation.SwallowedIsFin | src/stream.rs:744-757 | two sessions on the network, message mode, every run: a swallowed frame is the other side's FIN exactly when everything that session was given before had been read; otherwise it is the next frame of the other application |
| Conversation.IdsAgree | src/stream.rs:575-614 | two sessions on the network, over every run: one that has told its application anything has the same ID as the other; a client the one it was given |
| SessionTrace.FinTransitFin | src/stream.rs:664-677 | a FIN is sent only with the input closed and everything before it acknowledged |
| SessionTrace.StepTrace | src/stream.rs:407-536 | every event acts on KCP by recorded calls only; after the FIN no more data is sent; packets leave in order, marked or not |
| SessionTrace.RunTrace | src/stream.rs:407-536 | the same over every run |
| Shutdown.Projects | src/stream.rs:407-536 | the run of two sessions over the network is, on their control blocks, a run of the KCP system: the results above apply to it |
| Shutdown.GracefulClose | src/stream.rs:656-703 | whenever a session has sent its FIN, its input is closed and empty, and the peer's KCP holds, with its data, every frame handed over before the FIN; after it at most the FIN itself was sent |
| Shutdown.FinIsFromPeer | src/stream.rs:791-801 | a FIN is only ever seen after the peer has sent its own |
| Shutdown.FinMeansComplete | src/stream.rs:683-699 | the guard of the last transition is right: with the FIN seen and nothing unread, KCP has handed over everything the peer was given before its FIN |
| SessionTask.Task.constructor | src/stream.rs:136-147 | a new task around a control block |
| SessionTask.Task.Configure | src/stream.rs:721-742 | `initialize`, the mode, the MTU, the windows and the timing settings, on a new control block |
| SessionTask.Task.Begin | src/stream.rs:391-405 | the start of `run`: timeouts, settings, and the client's SYN |
| SessionTask.Task.Handle | src/stream.rs:407-536 | one event: as the specification steps; the handshake never goes back, what was told stays told, every frame read is accounted for, and a FIN is out only with the input closed and empty |
| SessionTask.Task.Run | src/stream.rs:388-536 | a session task from its start through any events is a run of the specification, so every result on runs is about it |
| SessionTask.Task.HandshakeSend | src/stream.rs:566-573 | one frame with key and ID, flushed at once |
| SessionTask.Task.FinTransit | src/stream.rs:656-703 | the loop computes the specification function, and ends |
| SessionTask.Task.SynHandshakeRecv | src/stream.rs:575-614 | checks key and ID, answers as the server, announces the connection |
| SessionTask.Task.SynHandshakeInput | src/stream.rs:616-642 | tries the packet under the other conv, and puts the conv back when it must |
| SessionTask.Task.KcpInput | src/stream.rs:768-807 | the branches of input: accepted, other conv, RESET, FIN, garbage |
| SessionTask.Task.KcpRecv | src/stream.rs:744-757 | the next frame; the last one after a FIN is swallowed |
| SessionTask.Task.KcpFlush | src/stream.rs:759-766 | flushes when asked, and remembers the time |
| SessionTask.Task.ProcessInput | src/stream.rs:705-719 | hands a frame to KCP and asks for a flush when it should |
| SessionTask.Task.DrainInput | src/stream.rs:448-463 | takes frames until the send queue is full or the channel empty; tells whether it is closed |
| SessionTask.Task.OnInput | src/stream.rs:448-475 | the first branch of the loop |
| SessionTask.Task.OnOutput | src/stream.rs:477-496 | the second branch: the waiting frame, then as many as fit |
| SessionTask.Task.OnPackets | src/stream.rs:498-530 | the third branch: a batch of packets, the handshakes, a frame, a flush |
| SessionTask.Task.KcpOutput | src/stream.rs:809-829 | everything queued goes out in order, packets with a payload marked in `FinSent` |
| SessionTask.Task.Top | src/stream.rs:407-446 | the top of the loop: leave, time out, update, or how long to sleep |
| Executions.Reliable | kcp/ikcp.c:136-139 | at every point of every execution without outlived packets: the 32-bit system is the unbounded one modulo 2^32, and in both directions delivery is exactly-once and in order, nothing numbered is lost, and a direction at rest has delivered everything |
| Executions.Dependable | src/stream.rs:407-536 | at every point of every execution of two sessions, in both directions: what is told is what was written; a session whose FIN is out has closed its input, and its peer holds every frame from before; with the FIN seen and nothing unread, all that was written was handed over |
| Executions.InTimeThroughout | kcp/ikcp.c:136-139 | that no packet is outlived at any point is the same as for the whole schedule |
| Quarantine.QuarantineExact | src/conv.rs:30-77 | over any sequence of calls, at any later time, a number is refused by `allocate` as cached if and only if it was put in less than `timeout` ago |
| Quarantine.RunHolds | src/conv.rs:41-77 | an entry is what was last put in under its number; what is missing was old when it was dropped |
| Quarantine.RunOrdered | src/conv.rs:41-77 | list order is time order, and no number occurs twice, over any sequence of calls |
| Quarantine.LastAddedMoves | src/conv.rs:41-62 | later calls, by any user of the shared cache, only move the time a number was last put in forward |
| Quarantine.ConvCache.Update | src/conv.rs:70-77 | popping old entries from the front is the filter on age |
| Quarantine.ConvCache.Add | src/conv.rs:41-48 | the list after one more call in the sense of these runs: old entries gone, a valid number moved to the back |
| Quarantine.ConvCache.Fill | src/conv.rs:50-62 | the same for many numbers |
| Quarantine.ConvCache.Dump | src/conv.rs:64-68 | exactly the numbers put in less than `timeout` ago, oldest first |
| Quarantine.ConvCache.Allocate | src/conv.rs:30-39 | a drawn number that is neither in use nor put in less than `timeout` ago; none only if every draw was |
| Listening.NumbersRest | src/udp.rs:315-352 | over the whole history of a listener: between two sessions under one number the first was killed, and at least the timeout passed before the second got it |
| Listening.KilledRests | src/udp.rs:378-381 | a number killed at some time is not given to a session before that time plus the timeout, whatever happens between |
| Listening.CallsKeep | src/udp.rs:378-381 | and that stays so when others use the shared cache |
| Listening.Listener.constructor | src/udp.rs:170-191 | empty tables and a full backlog, around any cache, also a filled one |
| Listening.Listener.GetSession | src/udp.rs:284-352 | which session a packet goes to, or none; a new one if and only if a SYN comes under an unknown ID of the right length while there is a permit, and some drawn number is neither live nor blocked by the cache, whoever put it there; the tables stay inverse, permits are conserved, and the history of births and deaths grows by that birth |
| Listening.Listener.Connect | src/udp.rs:253-262 | the session's permit is handed over, if it still has it, and never again |
| Listening.Listener.Disconnect | src/udp.rs:263-267 | both entries go, the number enters quarantine now, an unused permit returns, and the history grows by that death |
| Listening.Listener.Accept | src/udp.rs:64-69 | the oldest accepted stream, whose place becomes free |

## Left out

- KcpControl.Kcp: segments are values in sequences, not heap nodes in the intrusive lists of `kcp/ikcp.h`; fields of `IKCPCB` that change together are grouped in one record; aliasing of segments is not captured.
- KcpControl.Kcp.SetMtu: not with data queued or unacknowledged that is larger than the new `mss`; the code would then write packets beyond the new MTU.
- KcpControl.Kcp.WndSize: not to windows too small for what is in flight or has arrived, nor to a receive window of 2^30 or more.
- Congestion.GrowKeeps: for `mss` up to 65483 and a 16-bit remote window.
- Congestion.BackedKeeps: for `mss` up to 65483.
- Timers.FlushTimers: says nothing about the timer of a segment sent more than 16 times; its timeout may have doubled past half the number circle.
- EndToEnd.ExactlyOnceInOrder: safety only; that data arrives at all depends on the network.
- Shutdown.GracefulClose: safety only; the close handshake may end by a timeout or a RESET instead, and some exits depend on a repeated FIN.
- SessionTask.Task.HandshakeSend: the panic on a session key and ID too long for one KCP message is not modelled; the send then fails.
- SessionTask.Task.KcpRecv: `Conversation.SwallowedIsFin` says exactly when a swallowed frame is the FIN's; no run of two sessions in which it is not is given.
- SessionTask.Task.KcpOutput: an error of the transport drops the rest of the queue; the network of the model may lose any packet anyway.
- Quarantine.ConvCache.Allocate: randomness is a given sequence of draws; that a free number is drawn eventually is not claimed.
- Listening.Listener.GetSession: starting the session's task and sending the packet to it are not modelled.
- Memory allocation failure, logging, `ikcp_qprint`, `ikcp_release` and the foreign-function layer.
- Tokio channels, wakers, sockets and `src/transport`: events are atomic, channels are sequences.
- The cancellation token, and what follows the session loop (draining the input, the RESET packet, the disconnect message).
- `poll_read`, `poll_write` and the re-chunking of frames: simple cursors.
- `src/halfclose.rs`, and the layout of the RESET packet of `write_ack_head`; a RESET is any packet with bit 0x08 in its command byte.
