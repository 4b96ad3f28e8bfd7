/**
  One endpoint over its whole life, with no trust in the other side: any calls, and any byte
  strings at all as packets.
*/
module Lifetime {
  import opened Serial
  import opened WireFormat
  import opened Endpoints
  import opened Invariants
  import opened Timers
  import opened Congestion
  import opened Network
  import opened Packetization
  import opened Steps

  datatype Op = Do(act: Action) | Arrive(packet: bytes)

  function Apply(e: Endpoint, op: Op): Endpoint {
    match op
    case Do(act) => Local(Bits32, e, act).e
    case Arrive(packet) => Input(e, packet)
  }

  function Life(e: Endpoint, ops: seq<Op>): Endpoint {
    if ops == [] then e else Apply(Life(e, ops[..|ops| - 1]), ops[|ops| - 1])
  }

  /** `ikcp_nodelay` is not asked for a fast-resend threshold of millions. */
  predicate Modest(mss: pos, op: Op) {
    op.Do? && op.act.DoNoDelay? ==> Moderate(op.act.resend, mss)
  }

  lemma ApplyInv(e: Endpoint, op: Op)
    requires EndpointInv(Bits32, e)
    ensures EndpointInv(Bits32, Apply(e, op))
  {
    hide EndpointInv, Recv, Flush, Update, Input, Send;
    match op
    case Arrive(packet) => InputBytesKeeps(e, packet);
    case Do(act) =>
      match act {
        case DoSend(data) => SendKeeps(Bits32, e, data);
        case DoRecv(len) => RecvKeeps(Bits32, e, len);
        case DoFlush => FlushKeeps(Bits32, e);
        case DoUpdate(now) => UpdateKeeps(Bits32, e, now);
        case DoNoDelay(nodelay, interval, resend, nc) => SettingsKeep(e, NoDelay(e.cfg, nodelay, interval, resend, nc));
        case DoSetConv(conv) => SettingsKeep(e, e.cfg.(conv := conv));
        case Deliver(_) =>
      }
  }

  lemma ApplyTimers(e: Endpoint, op: Op)
    requires TimersOk(e)
    ensures TimersOk(Apply(e, op))
  {
    hide Send, RecvQueue, Flush, InputParsed, Parse, RtoOk;
    match op
    case Arrive(packet) =>
      if |packet| >= OVERHEAD {
        InputTimers(Bits32, e, Parse(e.cfg.conv, packet));
      }
    case Do(act) =>
      match act {
        case DoFlush => FlushTimers(Bits32, e);
        case DoUpdate(now) =>
          var (clock, due) := Advance(e.clock, e.cfg.interval, now);
          FlushTimers(Bits32, e.(clock := clock));
        case _ =>
      }
  }

  lemma ApplyCongestion(e: Endpoint, op: Op)
    requires EndpointInv(Bits32, e) && CongestionInv(e) && Modest(e.cfg.mss, op)
    ensures CongestionInv(Apply(e, op)) && Apply(e, op).cfg.mss == e.cfg.mss
  {
    hide EndpointInv, Send, RecvQueue, Flush, InputParsed, WindowOk, Moderate;
    match op
    case Arrive(packet) =>
      if |packet| >= OVERHEAD {
        InputCongestion(Bits32, e, Parse(e.cfg.conv, packet));
      }
    case Do(act) =>
      match act {
        case DoFlush => FlushCongestion(Bits32, e);
        case DoUpdate(now) =>
          var (clock, due) := Advance(e.clock, e.cfg.interval, now);
          ClockKeeps(e, clock);
          FlushCongestion(Bits32, e.(clock := clock));
        case _ =>
      }
  }

  lemma ClockKeeps(e: Endpoint, clock: Clock)
    requires EndpointInv(Bits32, e)
    ensures EndpointInv(Bits32, e.(clock := clock))
  {
    hide SndInv, RcvInv;
  }

  /**
    Whatever calls are made and whatever bytes arrive, in any order: the queues keep their order and
    extent, and every retransmission timeout stays in its bounds.
  */
  lemma {:induction false} AlwaysSound(e: Endpoint, ops: seq<Op>)
    requires EndpointInv(Bits32, e) && TimersOk(e)
    ensures EndpointInv(Bits32, Life(e, ops)) && TimersOk(Life(e, ops))
  {
    hide EndpointInv, TimersOk, Apply;
    if ops != [] {
      var init, last := ops[..|ops| - 1], ops[|ops| - 1];
      AlwaysSound(e, init);
      ApplyInv(Life(e, init), last);
      ApplyTimers(Life(e, init), last);
    }
  }

  /** And the congestion window keeps its shape, as long as no fast-resend threshold can make it wrap. */
  lemma {:induction false} WindowAlways(e: Endpoint, ops: seq<Op>)
    requires EndpointInv(Bits32, e) && CongestionInv(e) && forall op | op in ops :: Modest(e.cfg.mss, op)
    ensures EndpointInv(Bits32, Life(e, ops)) && CongestionInv(Life(e, ops)) && Life(e, ops).cfg.mss == e.cfg.mss
  {
    hide EndpointInv, CongestionInv, Apply, Modest;
    if ops != [] {
      var init, last := ops[..|ops| - 1], ops[|ops| - 1];
      assert ops == init + [last];
      WindowAlways(e, init);
      ApplyInv(Life(e, init), last);
      ApplyCongestion(Life(e, init), last);
    }
  }

  /** A new control block, with the MTU and the windows set before its first flush, starts sound. */
  lemma StartsSound(conv: Word, mtu: nat, sndWnd: Word, rcvWnd: Word, stream: bool)
    requires 50 <= mtu <= 65507 && WND_RCV <= rcvWnd && 2 * rcvWnd < TWO31 - 65536
    ensures var e := Created(conv);
            var e1 := e.(cfg := e.cfg.(mtu := mtu, mss := mtu - OVERHEAD, sndWnd := sndWnd, rcvWnd := rcvWnd,
                                      stream := stream));
            EndpointInv(Bits32, e1) && TimersOk(e1) && CongestionInv(e1)
  {
  }

  /* ---------------------------------------------------------------- what a flush puts on the wire */

  lemma {:induction false} PromotedConv(ar: Arith, e: Endpoint, s: Snd, window: nat)
    requires forall x | x in s.buf :: x.w.conv == e.cfg.conv
    ensures forall x | x in Promote(ar, e, s, window).buf :: x.w.conv == e.cfg.conv
    decreases |s.queue|
  {
    hide Arith.Diff, Arith.Norm, WndUnused;
    if s.queue != [] && ar.Diff(s.nxt, ar.Norm(s.una + window)) < 0 {
      PromotedConv(ar, e, PromoteOne(ar, e, s), window);
    }
  }

  lemma FlushSegment(e: Endpoint, w: Wire)
    requires EndpointInv(Bits32, e) && e.clock.updated && e.cfg.mtu <= 65507
    requires forall x | x in e.snd.buf :: x.w.conv == e.cfg.conv
    requires w in Flush(Bits32, e).segs
    ensures WellFormed(w) && Size(w) <= e.cfg.mtu && w.conv == e.cfg.conv
  {
    hide SndInv, RcvInv, Promote, Tick, TimeDiff;
    var buf := Promote(Bits32, e, e.snd, Window(e)).buf;
    PromotedOk(Bits32, e, Window(e));
    PromotedConv(Bits32, e, e.snd, Window(e));
    if w in DueSegments(e, buf) {
      var i := DueSegmentsFrom(e, buf, w);
      TickSame(e, buf[i]);
      assert buf[i] in buf;
    }
  }

  /**
    The peer reads from the packets of a flush, in order, the acknowledgements, the probes, and the
    segments that are due, with every field as sent (`wnd` modulo 2^16); no packet is over `mtu`.
  */
  ghost predicate ReadsBack(e: Endpoint) {
    var packets := EncodeAll(Packets(e.cfg.mtu, Flush(Bits32, e).segs));
    && (forall d | d in packets :: |d| <= e.cfg.mtu && Parse(e.cfg.conv, d).code == 0)
    && ParseAll(e.cfg.conv, packets) ==
       OnWireAll(Bits32, AckSegments(e) + ProbeSegments(e)
                         + DueSegments(e, Promote(Bits32, e, e.snd, Window(e)).buf))
  }

  /** Packetization, end to end, in whatever state an endpoint is whose segments carry its conv. */
  lemma FlushRoundTrip(e: Endpoint)
    requires EndpointInv(Bits32, e) && e.clock.updated && e.cfg.mtu <= 65507
    requires forall x | x in e.snd.buf :: x.w.conv == e.cfg.conv
    ensures ReadsBack(e)
  {
    hide EndpointInv, WellFormed, AckSegments, ProbeSegments, DueSegments, Promote, Packets;
    var ws := Flush(Bits32, e).segs;
    forall w | w in ws
      ensures WellFormed(w) && Size(w) <= e.cfg.mtu && w.conv == e.cfg.conv
    {
      FlushSegment(e, w);
    }
    PacketRoundTrip(e.cfg.conv, e.cfg.mtu, ws);
  }
}
