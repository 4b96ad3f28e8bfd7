/**
  What each turn of the session loop does, branch by branch, read off the session before and after it:
  what leaves for the network, when the loop ends or gives up, what is taken from the application and
  handed to it, and that a requested flush happens.
*/
module Branches {
  import opened Serial
  import opened WireFormat
  import opened Endpoints
  import opened Invariants
  import opened Network
  import opened Packetization
  import opened Lifetime
  import opened Marking
  import opened Timers
  import opened Pace
  import opened Sessions
  import opened SessionSafety
  import opened Frames
  import opened Labels

  /* ---------------------------------------------------------------- the loop top */

  /** Everything queued goes out, in order; in FinSent, what has a payload carries the mark, and nothing else does. */
  predicate AllOut(s: Session, fed: seq<bytes>) {
    && |fed| == |s.fed| + |s.queue| && s.fed <= fed
    && forall i | 0 <= i < |s.queue| ::
         var p := s.queue[i];
         fed[|s.fed| + i] == if s.hs == FinSent && |p| > 4 && PayloadData(p) != [] then Mark(p) else p
  }

  /** Over: disconnected, the link given up, or nothing heard for the expiry time. */
  predicate Expired(c: Settings, s: Session) {
    s.hs == Disconnected || s.node.e.dead
    || Max(0, TimeDiff(s.node.e.clock.current, s.lastIo)) >= Wrap(c.expire * 1000)
  }

  /** A handshake has run out of time. */
  predicate TimedOut(s: Session, now: Word) {
    s.hs != Connected && TimeDiff(s.hsEnd, now) <= 0
  }

  lemma TopDoes(c: Settings, s: Session, now: Word)
    requires !s.over && 1 <= s.node.e.cfg.interval <= 5000
    ensures var t := Step(c, s, LoopTop(now));
            && AllOut(s, t.fed) && (t.over <==> Expired(c, s))
            && t.hs == (if !Expired(c, s) && TimedOut(s, now) then Disconnected else s.hs)
            && (if Expired(c, s) || TimedOut(s, now) || !Busy(s.node.e, now) then
                  t.node == s.node && t.queue == [] && t.ops == s.ops
                else
                  t.node.e == Update(Bits32, s.node.e, now).e && t.ops == s.ops + [Do(DoUpdate(now))])
  {
    hide Act, TimeDiff, Wrap, Outgoing, Quiet, Busy, KcpOutput, AllOut, Top, Update;
    FedMarks(s);
    TopIs(c, s, now);
    ActUpdate(KcpOutput(s), now);
  }

  /** The branches of the loop top, once the queue is out. */
  lemma TopIs(c: Settings, s: Session, now: Word)
    requires 1 <= s.node.e.cfg.interval <= 5000
    ensures var (u, (t, next)) := (KcpOutput(s), Top(c, s, now));
            && u == s.(queue := [], fed := u.fed)
            && (next == Break <==> Expired(c, s))
            && t == (if Expired(c, s) then u
                     else if TimedOut(s, now) then u.(hs := Disconnected)
                     else if Busy(s.node.e, now) then Act(u, DoUpdate(now))
                     else u)
  {
    hide Act, TimeDiff, Wrap, Outgoing, Quiet, Busy, Check;
    CheckExact(s.node.e, now);
  }

  lemma FedMarks(s: Session)
    ensures AllOut(s, KcpOutput(s).fed) && KcpOutput(s).queue == []
  {
    hide PayloadData, Mark;
  }

  lemma ActUpdate(s: Session, now: Word)
    ensures var t := Act(s, DoUpdate(now));
            && t.node.e == Update(Bits32, s.node.e, now).e && t.ops == s.ops + [Do(DoUpdate(now))]
            && t.fed == s.fed && t.hs == s.hs && t.over == s.over && t.flush == s.flush && t.lastIo == s.lastIo
  {
    hide Packets, EncodePacket, Update;
  }

  /* ---------------------------------------------------------------- flushing when asked */

  /** A flush that was asked for has happened at `now`, as the last thing; none else has. */
  predicate FlushedIf(asked: bool, before: Session, t: Session, now: Word) {
    && !t.flush
    && (asked ==> |t.ops| >= 2 && t.ops[|t.ops| - 2..] == [Do(DoUpdate(now)), Do(DoFlush)]
                  && t.lastIo == t.node.e.clock.current == now)
    && (!asked ==> t.ops == before.ops && t.lastIo == before.lastIo && t.node == before.node)
  }

  lemma KcpFlushDoes(s: Session, now: Word)
    ensures FlushedIf(s.flush, s, KcpFlush(s, now), now)
    ensures WaitSnd(KcpFlush(s, now)) == WaitSnd(s)
  {
    hide Act, WaitSnd, Quiet;
    if s.flush {
      var s1 := s.(flush := false);
      var s2 := Act(s1, DoUpdate(now));
      ActUpdate(s1, now);
      ActFlush(s2);
      UpdateWaits(s1.node.e, now);
      FlushWaits(s2.node.e);
      WaitIs(s, KcpFlush(s, now));
      LastTwo(s.ops, DoUpdate(now), DoFlush);
    }
  }

  lemma LastTwo(ops: seq<Op>, a: Action, b: Action)
    ensures var more := ops + [Do(a)] + [Do(b)]; |more| >= 2 && more[|more| - 2..] == [Do(a), Do(b)]
  {
  }

  lemma WaitIs(s: Session, t: Session)
    requires |t.node.e.snd.buf| + |t.node.e.snd.queue| == |s.node.e.snd.buf| + |s.node.e.snd.queue|
    ensures WaitSnd(t) == WaitSnd(s)
  {
  }

  lemma ActFlush(s: Session)
    ensures var t := Act(s, DoFlush);
            && t.node.e == Flush(Bits32, s.node.e).e && t.ops == s.ops + [Do(DoFlush)] && t.flush == s.flush
  {
    hide Packets, EncodePacket, Flush;
  }

  lemma {:induction false} PromoteWaits(e: Endpoint, s: Snd, window: nat)
    ensures var r := Promote(Bits32, e, s, window); |r.buf| + |r.queue| == |s.buf| + |s.queue|
    decreases |s.queue|
  {
    hide Arith.Diff, Arith.Norm, Numbered;
    if s.queue != [] && Bits32.Diff(s.nxt, Bits32.Norm(s.una + window)) < 0 {
      PromoteWaits(e, PromoteOne(Bits32, e, s), window);
    }
  }

  lemma FlushWaits(e: Endpoint)
    ensures var r := Flush(Bits32, e).e;
            |r.snd.buf| + |r.snd.queue| == |e.snd.buf| + |e.snd.queue| && r.clock == e.clock
  {
    hide Promote, DueSegments, CountDue, Exhausted, Backed, ProbeTick;
    PromoteWaits(e, e.snd, Window(e));
  }

  lemma UpdateWaits(e: Endpoint, now: Word)
    ensures var r := Update(Bits32, e, now).e;
            |r.snd.buf| + |r.snd.queue| == |e.snd.buf| + |e.snd.queue| && r.clock.current == now
  {
    hide Flush;
    FlushWaits(e.(clock := Advance(e.clock, e.cfg.interval, now).0));
  }

  /* ---------------------------------------------------------------- frames to the application */

  /** Nothing whole and non-empty to read. */
  predicate NothingReadable(s: Session) {
    PeekSize(s.node.e.rcv.queue) <= 0
  }

  lemma NoneLeft(s: Session, fate: Fate)
    requires KcpRecv(s, fate).1.None?
    ensures NothingReadable(KcpRecv(s, fate).0)
  {
    hide Packets, EncodePacket;
    if LastOne(s) && PeekSize(s.node.e.rcv.queue) > 0 {
      OneMessage(s.node.e.rcv.queue);
    }
  }

  lemma OneMessage(queue: seq<Wire>)
    requires |queue| == 1 && PeekSize(queue) > 0
    ensures MessageSpan(queue) == 1 && queue[1..] == []
  {
  }

  lemma {:induction false} HandOverAll(s: Session, room: nat)
    requires s.frame.None?
    ensures var t := HandOver(s, room);
            && s.told <= t.told && |t.told| - |s.told| <= room
            && (t.frame.Some? ==> |t.told| - |s.told| == room) && (t.frame.None? ==> NothingReadable(t))
    decreases room
  {
    hide KcpRecv, NothingReadable;
    var (t, x) := KcpRecv(s, ForApplication);
    KcpRecvTells(s, ForApplication);
    if x.None? {
      NoneLeft(s, ForApplication);
    } else if room > 0 {
      HandOverAll(t.(told := t.told + [Frame(x.value)]), room - 1);
    }
  }

  lemma KcpRecvTells(s: Session, fate: Fate)
    ensures var t := KcpRecv(s, fate).0; t.told == s.told && t.frame == s.frame
  {
    hide RecvBytes;
  }

  /**
    With a frame waiting and room for it and `room` more: it is told first, and then more until nothing
    is left to read or the room is full, when the next one waits.
  */
  lemma ToAppDoes(c: Settings, s: Session, room: nat)
    requires !s.over && s.hs != Disconnected && s.frame.Some?
    ensures var t := Step(c, s, ToApp(room));
            var before := s.told + [Frame(s.frame.value)];
            && before <= t.told && |t.told| - |before| <= room
            && (t.frame.Some? ==> |t.told| - |before| == room) && (t.frame.None? ==> NothingReadable(t))
  {
    hide HandOver, NothingReadable;
    HandOverAll(s.(frame := None, told := s.told + [Frame(s.frame.value)]), room);
  }

  /* ---------------------------------------------------------------- frames from the application */

  /** No FIN transition is left to make. */
  predicate Waits(s: Session) {
    && s.hs != Connected
    && (s.hs == FinPending ==> !s.inputClosed || WaitSnd(s) > 0)
    && (s.hs == FinSent ==> WaitSnd(s) > 0)
    && (s.hs == FinWaitPeer ==> !s.finRecved || Unread(s) > 0)
  }

  /** What draining does with the frames in the channel. */
  ghost predicate Drained(s: Session, t: Session, closed: bool) {
    && |t.input| <= |s.input| && t.input == s.input[|s.input| - |t.input|..]
    && (Full(t) || t.input == []) && (closed <==> !Full(t) && t.input == [] && !s.open)
    && (s.input != [] && !Full(s) ==> |t.input| < |s.input|)
    && t.hs == s.hs && t.open == s.open && t.node.e.cfg.sndWnd == s.node.e.cfg.sndWnd
  }

  lemma DrainedMore(s: Session, v: Session, t: Session, closed: bool)
    requires s.input != [] && Drained(v, t, closed) && v.input == s.input[1..]
    requires v.hs == s.hs && v.open == s.open && v.node.e.cfg == s.node.e.cfg
    ensures Drained(s, t, closed)
  {
    hide Full;
  }

  lemma DrainStops(c: Settings, s: Session)
    requires Full(s) || s.input == []
    ensures var (t, closed) := DrainInput(c, s); t == s && Drained(s, t, closed)
  {
    hide Full;
    var (t, closed) := DrainInput(c, s);
    assert t == s && (closed <==> !Full(s) && !s.open);
  }

  /** The queue is full, or the channel dry. */
  lemma {:induction false} DrainsAll(c: Settings, s: Session)
    ensures var (t, closed) := DrainInput(c, s); Drained(s, t, closed)
    decreases |s.input|
  {
    hide ProcessInput, Full, Drained;
    if Full(s) || s.input == [] {
      DrainStops(c, s);
    } else {
      var u := s.(input := s.input[1..]);
      var v := ProcessInput(c, u, s.input[0]);
      ProcessKeeps(c, u, s.input[0]);
      DrainsAll(c, v);
      var (t, closed) := DrainInput(c, v);
      DrainedMore(s, v, t, closed);
      assert DrainInput(c, s) == DrainInput(c, v);
    }
  }

  lemma ProcessKeeps(c: Settings, s: Session, frame: bytes)
    ensures var t := ProcessInput(c, s, frame);
            && t.input == s.input && t.hs == s.hs && t.open == s.open && t.node.e.cfg == s.node.e.cfg
  {
    hide Packets, EncodePacket, Send, Put;
  }

  /**
    When the application has something to say: its frames are taken in order, at least one of them,
    until the send queue is full or there are no more; and if there are no more, and will be none, the
    input is closed and the FIN handshake begins.
  */
  lemma FromAppDoes(c: Settings, s: Session, now: Word)
    requires !s.over && s.hs != Disconnected && !s.inputClosed && !Full(s) && (s.input != [] || !s.open)
    ensures var t := Step(c, s, FromApp(now));
            && |t.input| <= |s.input| && t.input == s.input[|s.input| - |t.input|..]
            && (s.input != [] ==> |t.input| < |s.input|)
            && (t.input != [] ==> WaitSnd(t) >= s.node.e.cfg.sndWnd)
            && (t.inputClosed ==> t.input == [] && !s.open)
            && (t.inputClosed ==> Waits(t)) && (!t.inputClosed ==> t.hs == s.hs)
            && (t.input == [] && !s.open && WaitSnd(t) < s.node.e.cfg.sndWnd ==> t.inputClosed)
            && !t.flush && (t.inputClosed && s.hs == Connected ==> t.hsEnd == Wrap(now + c.shutdownTimeout * 1000))
  {
    hide DrainInput, FinTransit, KcpFlush, Full, WaitSnd, Waits, Wrap, Stuck;
    var (t, closed) := DrainInput(c, s);
    DrainsAll(c, s);
    DrainClosed(c, s);
    FullWaits(t);
    var u := t.(inputClosed := true);
    FinTransitKeeps(c, u, now);
    FinTransitWaits(c, u, now);
    FinTransitAsks(c, u, now);
    if s.hs == Connected {
      NotStuck(u);
    }
    KcpFlushEnd(if closed then FinTransit(c, u, now) else t, now);
    var v := if closed then FinTransit(c, u, now) else t;
    KcpFlushDoes(v, now);
    KcpFlushUnread(v, now);
    if closed {
      FlushKeepsWaits(v, now);
    }
  }

  lemma NotStuck(s: Session)
    requires s.hs == Connected
    ensures !Stuck(s)
  {
  }

  lemma KcpFlushEnd(s: Session, now: Word)
    ensures KcpFlush(s, now).hsEnd == s.hsEnd
  {
    hide Act;
  }

  lemma {:induction false} DrainClosed(c: Settings, s: Session)
    ensures DrainInput(c, s).0.inputClosed == s.inputClosed
    decreases |s.input|
  {
    hide KcpSend, Put, Full;
    if !Full(s) && s.input != [] {
      DrainClosed(c, ProcessInput(c, s.(input := s.input[1..]), s.input[0]));
    }
  }

  lemma FullWaits(s: Session)
    ensures Full(s) ==> WaitSnd(s) >= s.node.e.cfg.sndWnd
  {
  }

  lemma FinTransitWaits(c: Settings, s: Session, now: Word)
    ensures Waits(FinTransit(c, s, now))
  {
    hide FinTransit;
    FinTransitSettles(c, s, now, now);
    FinTransitKeeps(c, s, now);
  }

  lemma FlushKeepsWaits(s: Session, now: Word)
    requires Waits(s)
    ensures Waits(KcpFlush(s, now)) && KcpFlush(s, now).hs == s.hs
  {
    hide Act, WaitSnd;
    KcpFlushDoes(s, now);
    KcpFlushUnread(s, now);
  }

  lemma KcpFlushUnread(s: Session, now: Word)
    ensures var t := KcpFlush(s, now);
            && Unread(t) == Unread(s) && t.hs == s.hs && t.inputClosed == s.inputClosed && t.finRecved == s.finRecved
            && t.input == s.input && t.node.e.rcv.queue == s.node.e.rcv.queue
  {
    hide Act, Flush, Advance;
    var s1 := s.(flush := false);
    ActUpdate(s1, now);
    ActFlush(Act(s1, DoUpdate(now)));
    FlushUnread(s.node.e.(clock := Advance(s.node.e.clock, s.node.e.cfg.interval, now).0));
    FlushUnread(Update(Bits32, s.node.e, now).e);
  }

  lemma FlushUnread(e: Endpoint)
    ensures var r := Flush(Bits32, e).e; r.rcv.queue == e.rcv.queue && r.rcv.buf == e.rcv.buf
  {
  }

  /** A single frame: it asks for a flush if KCP took it and should not wait for more. */
  lemma OneFrameAsks(c: Settings, s: Session, frame: bytes, now: Word)
    requires !s.over && s.hs != Disconnected && !s.inputClosed && !Full(s) && s.input == [frame] && s.open
    ensures var asked := s.flush || ((frame == [] || Send(s.node.e.cfg, s.node.e.snd.queue, frame).code == 0)
                                     && (c.nodelay || |Queued(s, frame)| > 1));
            var t := Step(c, s, FromApp(now));
            && t.input == [] && (asked ==> t.lastIo == t.node.e.clock.current == now && !t.flush)
            && (!asked ==> t.lastIo == s.lastIo && t.node.e.snd.queue == Queued(s, frame) && !t.flush)
  {
    hide KcpFlush, Send, Packets, EncodePacket;
    var u := s.(input := []);
    assert s.input[1..] == [];
    var v := ProcessInput(c, u, frame);
    KcpSendQueues(u, frame);
    assert DrainInput(c, v) == (v, false);
    assert DrainInput(c, s) == (v, false);
    KcpFlushDoes(v, now);
    KcpFlushUnread(v, now);
  }

  /** The send queue after a frame. */
  function Queued(s: Session, frame: bytes): seq<Frag> {
    if frame == [] then s.node.e.snd.queue else Send(s.node.e.cfg, s.node.e.snd.queue, frame).queue
  }

  lemma KcpSendQueues(s: Session, frame: bytes)
    ensures var (t, ok) := KcpSend(s, frame);
            && t.node.e.snd.queue == Queued(s, frame) && t.flush == s.flush && t.lastIo == s.lastIo
            && ok == (frame == [] || Send(s.node.e.cfg, s.node.e.snd.queue, frame).code == 0)
            && t.input == s.input && t.open == s.open
  {
    hide Send, Packets, EncodePacket;
  }

  /* ---------------------------------------------------------------- the end of a batch */

  /**
    After a batch of packets of an established session: the FIN handshake has gone as far as it can,
    a frame is fetched if there is one and none waits, and a requested flush has happened.
  */
  lemma NetDoneDoes(c: Settings, s: Session, room: bool, now: Word)
    requires !s.over && s.hs != Syn
    ensures var t := Step(c, s, NetDone(room, now));
            && (s.hs == FinPending || s.hs == FinSent ==> Blocked(t))
            && (s.hs != FinPending && s.hs != FinSent ==> t.hs == s.hs)
            && (s.frame.Some? ==> t.frame == s.frame) && (t.frame.None? ==> NothingReadable(t)) && t.told == s.told
            && !t.flush && (s.flush ==> Fresh(t, now))
  {
    hide FinTransit, KcpRecv, KcpFlush, NothingReadable, Blocked, WaitSnd, Waits, Fresh, Quiet, Asks, Stuck;
    var t := if s.hs == FinPending || s.hs == FinSent then FinTransit(c, s, now) else s;
    Transited(c, s, now);
    var (u, x) := KcpRecv(t, ForApplication);
    var v := if t.frame.None? then u.(frame := x) else t;
    Fetched(t, now);
    FlushedLast(v, now);
    if Blocked(t) {
      BlockedSame(t, v);
      BlockedSame(v, KcpFlush(v, now));
    }
  }

  lemma Transited(c: Settings, s: Session, now: Word)
    ensures var t := FinTransit(c, s, now);
            Blocked(t) && t.frame == s.frame && t.told == s.told && (s.flush ==> t.flush || Fresh(t, now))
  {
    hide FinTransit, WaitSnd, Unread, Fresh;
    FinTransitWaits(c, s, now);
    FinTransitFrame(c, s, now);
    FinTransitAsks(c, s, now);
  }

  /** Fetching a frame if none waits. */
  lemma Fetched(t: Session, now: Word)
    ensures var (u, x) := KcpRecv(t, ForApplication);
            var v := if t.frame.None? then u.(frame := x) else t;
            && v.hs == t.hs && v.told == t.told && v.flush == t.flush && v.inputClosed == t.inputClosed
            && WaitSnd(v) == WaitSnd(t) && (t.frame.Some? ==> v.frame == t.frame)
            && (v.frame.None? ==> NothingReadable(v)) && (Fresh(t, now) ==> Fresh(v, now))
  {
    hide KcpRecv, NothingReadable, WaitSnd, Quiet;
    var (u, x) := KcpRecv(t, ForApplication);
    ReadKeeps(t);
    if x.None? {
      NoneLeft(t, ForApplication);
    }
    ReadableSame(u, u.(frame := x));
    WaitSame(u, u.(frame := x));
  }

  /** The flush at the end. */
  lemma FlushedLast(v: Session, now: Word)
    ensures var t := KcpFlush(v, now);
            && t.hs == v.hs && t.told == v.told && t.frame == v.frame && t.inputClosed == v.inputClosed
            && WaitSnd(t) == WaitSnd(v) && NothingReadable(t) == NothingReadable(v)
            && !t.flush && (v.flush || Fresh(v, now) ==> Fresh(t, now))
  {
    hide KcpFlush, NothingReadable, WaitSnd, Quiet;
    KcpFlushDoes(v, now);
    KcpFlushUnread(v, now);
    KcpFlushTells(v, now);
    ReadableSame(v, KcpFlush(v, now));
  }

  /** No FIN transition before the last is left to make. */
  predicate Blocked(s: Session) {
    && s.hs != Connected
    && (s.hs == FinPending ==> !s.inputClosed || WaitSnd(s) > 0)
    && (s.hs == FinSent ==> WaitSnd(s) > 0)
  }

  lemma WaitSame(s: Session, t: Session)
    requires t.node == s.node
    ensures WaitSnd(s) == WaitSnd(t)
  {
  }

  lemma BlockedSame(s: Session, t: Session)
    requires Waits(s) || Blocked(s)
    requires t.hs == s.hs && t.inputClosed == s.inputClosed && WaitSnd(t) == WaitSnd(s)
    ensures Blocked(t)
  {
    hide WaitSnd, Unread;
  }

  lemma ReadableSame(s: Session, t: Session)
    requires t.node.e.rcv.queue == s.node.e.rcv.queue
    ensures NothingReadable(s) == NothingReadable(t)
  {
  }

  lemma KcpFlushTells(s: Session, now: Word)
    ensures KcpFlush(s, now).told == s.told && KcpFlush(s, now).frame == s.frame
  {
    hide Act;
  }

  lemma ActRecv(s: Session, len: nat)
    ensures var t := Act(s, DoRecv(len));
            && t.node.e.snd == s.node.e.snd && t.node.e.clock == s.node.e.clock
            && t.flush == s.flush && t.lastIo == s.lastIo
  {
    hide Packets, EncodePacket, RecvQueue;
  }

  /** Reading lets no handshake guard pass but the last, which only packets try. */
  lemma ReadKeeps(s: Session)
    ensures var t := KcpRecv(s, ForApplication).0;
            && t.hs == s.hs && t.told == s.told && t.flush == s.flush && t.lastIo == s.lastIo
            && WaitSnd(t) == WaitSnd(s)
            && t.inputClosed == s.inputClosed && t.finRecved == s.finRecved && t.node.e.clock == s.node.e.clock
  {
    hide Act, PeekSize, Recv;
    var size := PeekSize(s.node.e.rcv.queue);
    if size > 0 {
      ActRecv(s, size);
    }
  }

  /** Sending a handshake frame flushes. */
  lemma HandshakeSendAsks(c: Settings, s: Session, now: Word)
    ensures var t := HandshakeSend(c, s, now); t.lastIo == t.node.e.clock.current == now && t.told == s.told && !t.flush
  {
    hide KcpSend, KcpFlush, Quiet;
    var u := KcpSend(s.(flush := true), c.key + s.id).0;
    KcpSendQueues(s.(flush := true), c.key + s.id);
    SendTells(s.(flush := true), c.key + s.id);
    KcpFlushDoes(u, now);
    KcpFlushTells(u, now);
  }

  lemma SendTells(s: Session, data: bytes)
    ensures KcpSend(s, data).0.told == s.told
  {
    hide Act;
  }

  /** Flushed at `now`, with nothing asked for since. */
  predicate Fresh(s: Session, now: Word) {
    s.lastIo == s.node.e.clock.current == now
  }

  /** A request is kept, or has been met at `now`; and the way into the FIN handshake starts its clock. */
  predicate Asks(c: Settings, s: Session, t: Session, now: Word) {
    && t.told == s.told && (s.flush ==> t.flush || Fresh(t, now)) && (Fresh(s, now) ==> Fresh(t, now))
    && (t.hsEnd == if s.hs == Connected then Wrap(now + c.shutdownTimeout * 1000) else s.hsEnd)
  }

  lemma FinSendAsks(c: Settings, s: Session, now: Word)
    ensures var t := FinSend(c, s, now); t.told == s.told && t.hsEnd == s.hsEnd && Fresh(t, now)
  {
    hide HandshakeSend, Put, Quiet;
    HandshakeSendAsks(c, Ready(c, s), now);
    HandshakeSendEnd(c, Ready(c, s), now);
  }

  lemma PassedAsks(c: Settings, s: Session, now: Word)
    requires !Stuck(s)
    ensures Asks(c, s, Passed(c, s, now), now) && Passed(c, s, now).hs != Connected
  {
    hide FinSend, Quiet, WaitSnd, Unread, Wrap, Fresh;
    if s.hs == FinPending {
      FinSendAsks(c, s, now);
    } else {
      FreshSame(s, Passed(c, s, now), now);
    }
  }

  lemma FreshSame(s: Session, t: Session, now: Word)
    requires t.lastIo == s.lastIo && t.node == s.node
    ensures Fresh(s, now) == Fresh(t, now)
  {
  }

  lemma {:induction false} FinTransitAsks(c: Settings, s: Session, now: Word)
    ensures Asks(c, s, FinTransit(c, s, now), now) || (Stuck(s) && FinTransit(c, s, now) == s)
    decreases 5 - Rank(s.hs)
  {
    hide FinTransit, Stuck, Passed, Wrap;
    FinTurn(c, s, now);
    if !Stuck(s) {
      PassedAsks(c, s, now);
      FinTransitAsks(c, Passed(c, s, now), now);
    }
  }

  lemma HandshakeSendEnd(c: Settings, s: Session, now: Word)
    ensures HandshakeSend(c, s, now).hsEnd == s.hsEnd
  {
    hide KcpSend, KcpFlush;
  }

  /** The FIN may leave: no more input, and nothing unacknowledged. */
  predicate MaySend(s: Session) {
    (s.hs == Connected || s.hs == FinPending) && s.inputClosed && WaitSnd(s) == 0
  }

  /** How far the handshake gets; `t` is the session then, and differs in KCP only if a FIN was sent. */
  function Farthest(s: Session, t: Session): Handshake {
    if s.hs == Syn || s.hs == Disconnected then Disconnected
    else if (s.hs == Connected || s.hs == FinPending) && !MaySend(s) then FinPending
    else if s.hs != FinWaitPeer && WaitSnd(t) > 0 then FinSent
    else if !s.finRecved || Unread(t) > 0 then FinWaitPeer
    else Disconnected
  }

  lemma LateTransit(c: Settings, s: Session, now: Word)
    requires s.hs == FinSent || s.hs == FinWaitPeer
    ensures FinTransit(c, s, now) == s.(hs := Farthest(s, s))
    decreases 5 - Rank(s.hs)
  {
    hide FinSend, WaitSnd, Unread, Wrap;
    if s.hs == FinSent && WaitSnd(s) == 0 {
      var t := s.(hs := FinWaitPeer);
      SameWaits(s, t);
      LateTransit(c, t, now);
      assert FinTransit(c, s, now) == FinTransit(c, t, now);
    } else {
      FinTurn(c, s, now);
      if s.hs == FinWaitPeer && !Stuck(s) {
        FinTurn(c, s.(hs := Disconnected), now);
      }
    }
  }

  lemma FinSendLate(c: Settings, s: Session, now: Word)
    ensures var t := FinSend(c, s, now); t.hs == FinSent && t.finRecved == s.finRecved
  {
    hide HandshakeSend, Put;
  }

  /**
    The FIN handshake goes exactly as far as it can: the FIN is sent once no more input comes and all
    before it is acknowledged, it is waited for until it is acknowledged too, and the end is reached
    when the peer's FIN has been seen and everything is read.
  */
  lemma FinTransitExact(c: Settings, s: Session, now: Word)
    ensures var t := FinTransit(c, s, now);
            && t.hs == Farthest(s, t)
            && (!MaySend(s) ==> t.node == s.node && t.finAt == s.finAt)
            && (MaySend(s) ==> t.finAt == Some(|s.ops|) && t.ledger.farewell == Put(s, c.key + s.id) && Fresh(t, now))
  {
    hide FinTransit, FinSend, WaitSnd, Unread, Wrap, Fresh, Put, Farthest;
    if s.hs == FinSent || s.hs == FinWaitPeer {
      LateTransit(c, s, now);
      FarthestSame(s, s.(hs := Farthest(s, s)));
    } else if s.hs == Connected {
      var p := Passed(c, s, now);
      FinTurn(c, s, now);
      NotStuck(s);
      SameWaits(s, p);
      PendingExact(c, p, now);
      PutSame(s, p, c.key + s.id);
      FarthestPending(s, p, FinTransit(c, s, now));
    } else if s.hs == FinPending {
      PendingExact(c, s, now);
    } else {
      FinTurn(c, s, now);
      FinTurn(c, s.(hs := Disconnected), now);
      SynGone(s, FinTransit(c, s, now));
    }
  }

  lemma PendingExact(c: Settings, s: Session, now: Word)
    requires s.hs == FinPending
    ensures var t := FinTransit(c, s, now);
            && t.hs == Farthest(s, t)
            && (!MaySend(s) ==> t == s)
            && (MaySend(s) ==> t.finAt == Some(|s.ops|) && t.ledger.farewell == Put(s, c.key + s.id) && Fresh(t, now))
  {
    hide FinTransit, FinSend, WaitSnd, Unread, Wrap, Fresh, Put;
    FinTurn(c, s, now);
    if MaySend(s) {
      var f := FinSend(c, s, now);
      FinSendLate(c, s, now);
      FinSendLedger(c, s, now);
      FinSendAsks(c, s, now);
      LateTransit(c, f, now);
      var t := FinTransit(c, s, now);
      SameWaits(f, t);
      FreshSame(f, t, now);
    }
  }

  lemma FinSendLedger(c: Settings, s: Session, now: Word)
    ensures var t := FinSend(c, s, now); t.finAt == Some(|s.ops|) && t.ledger.farewell == Put(s, c.key + s.id)
  {
    hide Put, Act;
    var t := Ready(c, s).(flush := true);
    var data := c.key + s.id;
    var u := KcpSend(t, data).0;
    ActLedger(t, DoSend(data));
    ActLedger(u.(flush := false), DoUpdate(now));
    ActLedger(Act(u.(flush := false), DoUpdate(now)), DoFlush);
  }

  lemma ActLedger(s: Session, act: Action)
    requires !act.Deliver?
    ensures Act(s, act).ledger == s.ledger
  {
    hide Local, Packets, EncodePacket;
  }

  lemma PutSame(s: Session, t: Session, data: bytes)
    requires s.node == t.node
    ensures Put(s, data) == Put(t, data)
  {
  }

  lemma FarthestSame(s: Session, t: Session)
    requires s.node == t.node
    ensures Farthest(s, t) == Farthest(s, s)
  {
  }

  lemma FarthestPending(s: Session, p: Session, t: Session)
    requires s.hs == Connected && p.hs == FinPending && p.node == s.node
    requires p.inputClosed == s.inputClosed && p.finRecved == s.finRecved
    ensures Farthest(s, t) == Farthest(p, t) && MaySend(s) == MaySend(p)
  {
    hide Unread;
    SameWaits(s, p);
  }

  lemma SynGone(s: Session, t: Session)
    requires s.hs == Syn || s.hs == Disconnected
    ensures Farthest(s, t) == Disconnected
  {
  }

  /* ---------------------------------------------------------------- a packet */

  /** A packet KCP takes is in KCP, and asks for a flush; nothing else changes. */
  lemma AcceptedDoes(c: Settings, s: Session, p: bytes, now: Word)
    requires !s.over && InputCode(s.node.e.cfg.conv, p) == 0
    ensures var t := Step(c, s, FromNet(p, now));
            t.node.e == Input(s.node.e, p) && t.flush && Quiet(s, t) && t.ops == s.ops + [Arrive(p)] && t.told == s.told
  {
    hide Input, InputCode;
  }

  /** A RESET disconnects, whatever the state, and does nothing to KCP. */
  lemma ResetDoes(c: Settings, s: Session, p: bytes, now: Word)
    requires !s.over && |p| >= OVERHEAD && Word32(p) == s.node.e.cfg.conv && HasBit(p[4], KCP_RESET)
    ensures var t := Step(c, s, FromNet(p, now)); t.hs == Disconnected && t.node == s.node && t.told == s.told
  {
    hide HasBit, Input, InputCode, Word32;
    ResetIsForeign(p);
    ForeignIsIgnored(s.node.e, p);
    NotOther(s.node.e.cfg.conv, p);
  }

  lemma NotOther(conv: Word, p: bytes)
    requires |p| >= OVERHEAD && Word32(p) == conv && Foreign(p)
    ensures InputCode(conv, p) != -1 && InputCode(conv, p) != 0
  {
  }

  /**
    The FIN mark on a packet KCP takes: the peer has closed, so the input channel is; an established
    session enters the FIN handshake; and the packet without its mark is then put into KCP.
  */
  lemma FinDoes(c: Settings, s: Session, p: bytes, now: Word)
    requires !s.over && InputCode(s.node.e.cfg.conv, p) == 0 && s.node.e.cfg.conv == Word32(p)
    ensures var t := Step(c, s, FromNet(Mark(p), now));
            && t.finRecved && (!s.finRecved ==> !t.open) && t.told == s.told && t.frame == s.frame
            && t.hs != Connected && t.hs != Syn
            && (s.hs == Connected ==> t.hsEnd == Wrap(now + c.shutdownTimeout * 1000))
            && (!(s.inputClosed && WaitSnd(s) == 0) ==> t.node.e == Input(s.node.e, p))
            && (s.hs == FinWaitPeer && Unread(s) == 0 ==> t.hs == Disconnected)
  {
    hide Input, InputCode, HasBit, Mark, Unmark, FinTransit, Word32, WaitSnd, Unread, Wrap;
    AcceptedIsCommand(s.node.e.cfg.conv, p);
    FinMarkTransparent(s.node.e, p);
    MarkSize(p);
    var m := Mark(p);
    var t := Hear(s, m);
    assert t.node == s.node;
    var u := if t.finRecved then t else t.(finRecved := true, open := false);
    FinTransitKeeps(c, u, now);
    FinTransitFrame(c, u, now);
    if !(s.inputClosed && WaitSnd(s) == 0) {
      SameWaits(s, u);
      FinTransitNode(c, u, now);
    }
    FinTransitAsks(c, u, now);
    FinTransitLast(c, u, now);
    FinTransitTold(c, u, now);
    SameWaits(s, u);
    var v := FinTransit(c, u, now);
    if u.hs == Connected {
      NotStuck(u);
    }
    assert Step(c, s, FromNet(m, now)) == Hear(v, Unmark(m));
    assert Input(v.node.e, Unmark(m)) == Input(v.node.e, p);
  }

  lemma SameWaits(s: Session, t: Session)
    requires s.node == t.node
    ensures WaitSnd(s) == WaitSnd(t) && Unread(s) == Unread(t)
  {
  }

  lemma MarkSize(p: bytes)
    requires |p| >= OVERHEAD
    ensures |Mark(p)| == |p| && Word32(Mark(p)) == Word32(p)
  {
    MarkKeeps(p);
  }

  lemma FinTransitTold(c: Settings, s: Session, now: Word)
    ensures FinTransit(c, s, now).told == s.told && FinTransit(c, s, now).finRecved == s.finRecved
    ensures FinTransit(c, s, now).open == s.open
  {
    hide FinTransit;
    FinTransitNoRead(c, s, now);
    FinTransitKeeps(c, s, now);
  }

  /** Only the FIN itself is sent. */
  lemma {:induction false} FinTransitNode(c: Settings, s: Session, now: Word)
    requires !(s.inputClosed && WaitSnd(s) == 0)
    ensures FinTransit(c, s, now).node == s.node
    decreases 5 - Rank(s.hs)
  {
    hide FinTransit, FinSend, WaitSnd, Unread, Wrap;
    FinTurn(c, s, now);
    if !Stuck(s) {
      SameWaits(s, Passed(c, s, now));
      FinTransitNode(c, Passed(c, s, now), now);
    }
  }

  lemma FinTransitLast(c: Settings, s: Session, now: Word)
    ensures s.hs == FinWaitPeer && s.finRecved && Unread(s) == 0 ==> FinTransit(c, s, now).hs == Disconnected
  {
    hide FinTransit, FinSend, WaitSnd, Unread, Wrap;
    FinTurn(c, s, now);
    FinTurn(c, s.(hs := Disconnected), now);
  }

  /* ---------------------------------------------------------------- packets of another conversation */

  /** A control block with another number, a packet, and the number set back. */
  function Tried(e: Endpoint, conv: Word, p: bytes, back: Word): Endpoint {
    var r := Input(e.(cfg := e.cfg.(conv := conv)), p);
    r.(cfg := r.cfg.(conv := back))
  }

  /**
    A packet under another number. A client in the SYN handshake tries it under that number, and keeps
    the number if KCP takes the packet and nothing is left to be acknowledged: its SYN was answered. A
    server takes it under the SYN number, for the time of the packet. Anything else is ignored.
  */
  lemma OtherDoes(c: Settings, s: Session, p: bytes, now: Word)
    requires !s.over && |p| >= OVERHEAD && Word32(p) != s.node.e.cfg.conv
    ensures var t, conv, mine := Step(c, s, FromNet(p, now)), Word32(p), s.node.e.cfg.conv;
            && Quiet(s, t) && t.flush == s.flush
            && t.node.e == (if s.client && s.hs == Syn && conv != SYN_CONV then
                              var r := Tried(s.node.e, conv, p, conv);
                              if InputCode(conv, p) == 0 && |r.snd.buf| + |r.snd.queue| == 0 then r
                              else r.(cfg := r.cfg.(conv := SYN_CONV))
                            else if !s.client && conv == SYN_CONV then Tried(s.node.e, SYN_CONV, p, mine)
                            else s.node.e)
  {
    hide Act, Input, InputCode, Word32, WaitSnd;
    OtherCode(s.node.e, p);
    var conv, mine := Word32(p), s.node.e.cfg.conv;
    var t := Hear(s, p);
    SetConvNode(t, conv);
    var u := Hear(Act(t, DoSetConv(conv)), p);
    SetConvNode(u, SYN_CONV);
    SetConvNode(u, mine);
    InputKeepsConv(s.node.e.(cfg := s.node.e.cfg.(conv := conv)), p);
    ConvQuiet(t, conv);
    ConvQuiet(u, SYN_CONV);
    ConvQuiet(u, mine);
    WaitOf(u);
  }

  lemma WaitOf(s: Session)
    ensures WaitSnd(s) == |s.node.e.snd.buf| + |s.node.e.snd.queue|
  {
  }

  lemma ConvQuiet(s: Session, conv: Word)
    ensures Quiet(s, Act(s, DoSetConv(conv))) && Act(s, DoSetConv(conv)).flush == s.flush
  {
  }

  lemma OtherCode(e: Endpoint, p: bytes)
    requires |p| >= OVERHEAD && Word32(p) != e.cfg.conv
    ensures InputCode(e.cfg.conv, p) == -1 && Input(e, p) == e
  {
  }

  lemma InputKeepsConv(e: Endpoint, p: bytes)
    ensures Input(e, p).cfg == e.cfg
  {
    hide Labelled, Nothing;
    InputLabels(e, p, 0);
  }

  /* ---------------------------------------------------------------- a batch */

  function Steps(c: Settings, s: Session, evs: seq<SEvent>): Session
    decreases |evs|
  {
    if evs == [] then s else Steps(c, Step(c, s, evs[0]), evs[1..])
  }

  function Events(ps: seq<bytes>, room: bool, now: Word): seq<SEvent>
    decreases |ps|
  {
    if ps == [] then [NetDone(room, now)] else [FromNet(ps[0], now)] + Events(ps[1..], room, now)
  }

  lemma {:induction false} FinTransitOver(c: Settings, s: Session, now: Word)
    ensures FinTransit(c, s, now).over == s.over
    decreases 5 - Rank(s.hs)
  {
    hide FinTransit, HandshakeSend, WaitSnd, Unread, Wrap, Put;
    FinTurn(c, s, now);
    if !Stuck(s) {
      FinTransitOver(c, Passed(c, s, now), now);
    }
  }

  lemma KcpInputOver(c: Settings, s: Session, p: bytes, now: Word)
    ensures KcpInput(c, s, p, now).over == s.over
  {
    hide Input, InputCode, Parse, FinTransit, Hear, SynHandshakeInput, Unmark, Act, Word32;
    var t := Hear(s, p);
    var u := if t.finRecved then t else t.(finRecved := true, open := false);
    FinTransitOver(c, u, now);
  }

  /** A batch is its packets, one by one and all of them, and then what the end of a batch does. */
  lemma {:induction false} BatchIsEvents(c: Settings, s: Session, ps: seq<bytes>, room: bool, now: Word)
    requires !s.over
    ensures OnPackets(c, s, ps, room, now) == Steps(c, s, Events(ps, room, now))
    decreases |ps|
  {
    hide KcpInput, AfterPackets;
    if ps != [] {
      KcpInputOver(c, s, ps[0], now);
      BatchIsEvents(c, KcpInput(c, s, ps[0], now), ps[1..], room, now);
      assert Events(ps, room, now)[1..] == Events(ps[1..], room, now);
    } else {
      assert [NetDone(room, now)][1..] == [];
    }
  }

  /* ---------------------------------------------------------------- the application */

  /** The application writes only to an announced session that still takes input, and can end that. */
  lemma ApplicationDoes(c: Settings, s: Session, frame: bytes)
    requires !s.over
    ensures var t := Step(c, s, Write(frame));
            && (s.open && s.told != [] ==>
                  t.input == s.input + [frame] && t.ledger.written == s.ledger.written + [frame])
            && (!s.open || s.told == [] ==> t == s)
            && t == s.(input := t.input, ledger := s.ledger.(written := t.ledger.written))
    ensures Step(c, s, Close) == s.(open := false)
  {
  }

  /* ---------------------------------------------------------------- the start */

  /** The start of a session: the connect timeout runs; a client has sent its key and ID under the SYN number. */
  lemma BeginDoes(c: Settings, e: Endpoint, id: bytes, now: Word)
    ensures var s := Begin(c, New(e), id, now);
            && s.hs == Syn && s.hsEnd == Wrap(now + c.connectTimeout * 1000) && s.told == []
            && (s.client <==> e.cfg.conv == SYN_CONV) && s.node.e.cfg.conv == e.cfg.conv
            && (s.client ==> s.id == id && s.lastIo == s.node.e.clock.current == now)
            && (!s.client ==> s.node.e == e.(cfg := NoDelay(e.cfg, 1, 100, 0, 0)) && s.lastIo == e.clock.current)
  {
    hide Act, Greet, Wrap, NoDelay;
    var m := New(e).(hsEnd := Wrap(now + c.connectTimeout * 1000));
    ActNoDelay(m);
    var t0 := Act(m, DoNoDelay(1, 100, 0, 0));
    var t := t0.(lastIo := t0.node.e.clock.current);
    var u := t.(client := true, id := id);
    SetConvNode(u, SYN_CONV);
    ConvQuiet(u, SYN_CONV);
    var v := Act(u, DoSetConv(SYN_CONV));
    GreetDoes(c, v, now);
  }

  lemma ActNoDelay(s: Session)
    ensures var t := Act(s, DoNoDelay(1, 100, 0, 0));
            t.node.e == s.node.e.(cfg := NoDelay(s.node.e.cfg, 1, 100, 0, 0)) && Quiet(s, t)
            && t.node.e.cfg.conv == s.node.e.cfg.conv
  {
    hide Packets, EncodePacket;
  }

  lemma GreetDoes(c: Settings, s: Session, now: Word)
    ensures var t := Greet(c, s, now);
            Fresh(t, now) && Quiet(s, t) && t.node.e.cfg.conv == s.node.e.cfg.conv
  {
    hide HandshakeSend, Put, Labelled;
    var u := s.(ledger := s.ledger.(greeting := Put(s, c.key + s.id)));
    HandshakeSendAsks(c, u, now);
    HandshakeSendLabels(c, u, now);
  }
}
