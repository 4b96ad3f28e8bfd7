/**
  The 32-bit endpoint simulates the unbounded one. `WrapEndpoint` keeps the low 32 bits of every
  sequence number; each operation commutes with it, provided that an incoming segment's numbers
  are within half the number circle of the receiver's own.
*/
module Wraparound {
  import opened Serial
  import opened WireFormat
  import opened Endpoints
  import opened Invariants

  function WrapWire(w: Wire): Wire {
    w.(sn := Wrap(w.sn), una := Wrap(w.una))
  }

  function WrapWires(ws: seq<Wire>): (r: seq<Wire>)
    ensures |r| == |ws|
  {
    seq(|ws|, i requires 0 <= i < |ws| => WrapWire(ws[i]))
  }

  function WrapSeg(s: SndSeg): SndSeg {
    s.(w := WrapWire(s.w))
  }

  function WrapSegs(buf: seq<SndSeg>): (r: seq<SndSeg>)
    ensures |r| == |buf|
  {
    seq(|buf|, i requires 0 <= i < |buf| => WrapSeg(buf[i]))
  }

  function WrapAcks(acks: seq<Ack>): (r: seq<Ack>)
    ensures |r| == |acks|
  {
    seq(|acks|, i requires 0 <= i < |acks| => Ack(Wrap(acks[i].sn), acks[i].ts))
  }

  function WrapSnd(s: Snd): Snd {
    Snd(Wrap(s.una), Wrap(s.nxt), s.queue, WrapSegs(s.buf))
  }

  function WrapRcv(r: Rcv): Rcv {
    Rcv(Wrap(r.nxt), WrapWires(r.queue), WrapWires(r.buf), WrapAcks(r.acks))
  }

  function WrapEndpoint(e: Endpoint): Endpoint {
    e.(snd := WrapSnd(e.snd), rcv := WrapRcv(e.rcv))
  }

  lemma WrapNext(x: nat, n: nat)
    ensures Wrap(Wrap(x) + n) == Wrap(x + n)
  {
  }

  predicate Near(a: int, b: int) {
    -TWO31 <= a - b < TWO31
  }

  lemma WrapDiff(a: int, b: int)
    requires Near(a, b)
    ensures TimeDiff(Wrap(a), Wrap(b)) == a - b
    ensures Wrap(a) == Wrap(b) <==> a == b
  {
    TimeDiffExact(a, b);
    DiffZero(Bits32, Wrap(a), Wrap(b));
  }

  /* ---------------------------------------------------------------- sender */

  lemma {:induction false} ParseUnaWrap(buf: seq<SndSeg>, una: nat)
    requires forall i | 0 <= i < |buf| :: Near(una, buf[i].w.sn)
    ensures ParseUna(Bits32, WrapSegs(buf), Wrap(una)) == WrapSegs(ParseUna(Unbounded, buf, una))
  {
    hide Wrap, TimeDiff;
    if buf != [] {
      WrapDiff(una, buf[0].w.sn);
      ParseUnaWrap(buf[1..], una);
      assert WrapSegs(buf)[1..] == WrapSegs(buf[1..]);
    }
  }

  lemma {:induction false} RemoveAckedWrap(buf: seq<SndSeg>, sn: nat)
    requires forall i | 0 <= i < |buf| :: Near(sn, buf[i].w.sn)
    ensures RemoveAcked(Bits32, WrapSegs(buf), Wrap(sn)) == WrapSegs(RemoveAcked(Unbounded, buf, sn))
  {
    hide Wrap, TimeDiff;
    if buf != [] {
      WrapDiff(sn, buf[0].w.sn);
      RemoveAckedWrap(buf[1..], sn);
      assert WrapSegs(buf)[1..] == WrapSegs(buf[1..]);
    }
  }

  lemma {:induction false} BumpFastackWrap(buf: seq<SndSeg>, sn: nat)
    requires forall i | 0 <= i < |buf| :: Near(sn, buf[i].w.sn)
    ensures BumpFastack(Bits32, WrapSegs(buf), Wrap(sn)) == WrapSegs(BumpFastack(Unbounded, buf, sn))
  {
    hide Wrap, TimeDiff;
    if buf != [] {
      WrapDiff(sn, buf[0].w.sn);
      BumpFastackWrap(buf[1..], sn);
      assert WrapSegs(buf)[1..] == WrapSegs(buf[1..]);
    }
  }

  /** The numbers an acknowledgement may carry when it is processed. */
  predicate Recent(s: Snd, x: nat) {
    s.nxt - TWO31 < x <= s.nxt
  }

  lemma RecentNear(s: Snd, limit: nat, x: nat)
    requires limit <= 65535 && SndInv(Unbounded, s, limit) && Recent(s, x)
    ensures Near(x, s.una) && Near(x, s.nxt)
    ensures forall i | 0 <= i < |s.buf| :: Near(x, s.buf[i].w.sn)
  {
  }

  lemma InputUnaWrap(s: Snd, limit: nat, una: nat)
    requires limit <= 65535 && SndInv(Unbounded, s, limit) && Recent(s, una)
    ensures InputUna(Bits32, WrapSnd(s), Wrap(una)) == WrapSnd(InputUna(Unbounded, s, una))
  {
    hide Wrap;
    RecentNear(s, limit, una);
    ParseUnaWrap(s.buf, una);
  }

  lemma InFlightWrap(s: Snd, limit: nat, sn: nat)
    requires limit <= 65535 && SndInv(Unbounded, s, limit) && Recent(s, sn)
    ensures InFlight(Bits32, WrapSnd(s), Wrap(sn)) == InFlight(Unbounded, s, sn)
  {
    hide Wrap, TimeDiff;
    RecentNear(s, limit, sn);
    WrapDiff(sn, s.una);
    WrapDiff(sn, s.nxt);
  }

  lemma InputAckWrap(s: Snd, limit: nat, sn: nat)
    requires limit <= 65535 && SndInv(Unbounded, s, limit) && Recent(s, sn)
    ensures InputAck(Bits32, WrapSnd(s), Wrap(sn)) == WrapSnd(InputAck(Unbounded, s, sn))
  {
    hide Wrap, InFlight;
    RecentNear(s, limit, sn);
    InFlightWrap(s, limit, sn);
    RemoveAckedWrap(s.buf, sn);
  }

  lemma ParseFastackWrap(s: Snd, limit: nat, sn: nat)
    requires limit <= 65535 && SndInv(Unbounded, s, limit) && Recent(s, sn)
    ensures ParseFastack(Bits32, WrapSnd(s), Wrap(sn)) == WrapSegs(ParseFastack(Unbounded, s, sn))
  {
    hide Wrap, InFlight;
    RecentNear(s, limit, sn);
    InFlightWrap(s, limit, sn);
    BumpFastackWrap(s.buf, sn);
  }

  /* ---------------------------------------------------------------- receiver */

  lemma {:induction false} InsertWrap(buf: seq<Wire>, w: Wire)
    requires forall i | 0 <= i < |buf| :: Near(w.sn, buf[i].sn)
    ensures Insert(Bits32, WrapWires(buf), WrapWire(w)) == WrapWires(Insert(Unbounded, buf, w))
  {
    hide Wrap, TimeDiff;
    if buf != [] {
      var n := |buf| - 1;
      WrapDiff(w.sn, buf[n].sn);
      InsertWrap(buf[..n], w);
      assert WrapWires(buf)[..n] == WrapWires(buf[..n]);
    }
  }

  lemma {:induction false} DrainWrap(wnd: nat, r: Rcv)
    requires wnd < TWO31 && RcvCore(Unbounded, r, wnd)
    ensures Drain(Bits32, wnd, WrapRcv(r)) == WrapRcv(Drain(Unbounded, wnd, r))
    decreases |r.buf|
  {
    hide Wrap;
    if r.buf != [] {
      assert Near(r.buf[0].sn, r.nxt);
      WrapDiff(r.buf[0].sn, r.nxt);
      if r.buf[0].sn == r.nxt && |r.queue| < wnd {
        var r1 := DrainOne(Unbounded, r);
        DrainOneKeeps(Unbounded, wnd, r);
        WrapNext(r.nxt, 1);
        assert WrapWires(r.queue) + [WrapWire(r.buf[0])] == WrapWires(r1.queue);
        assert WrapWires(r.buf)[1..] == WrapWires(r1.buf);
        assert WrapRcv(r1) == DrainOne(Bits32, WrapRcv(r));
        DrainWrap(wnd, r1);
      }
    }
  }

  /** The numbers a data segment may carry when it is processed. */
  predicate Arriving(r: Rcv, wnd: nat, sn: nat) {
    r.nxt + wnd - TWO31 <= sn < r.nxt + TWO31
  }

  lemma InputPushWrap(wnd: nat, r: Rcv, w: Wire)
    requires wnd < TWO31 && RcvInv(Unbounded, r, wnd) && Arriving(r, wnd, w.sn) && w.frg < 256
    ensures InputPush(Bits32, wnd, WrapRcv(r), WrapWire(w)) == WrapRcv(InputPush(Unbounded, wnd, r, w))
  {
    hide Wrap, TimeDiff, Insert, Drain;
    WrapNext(r.nxt, wnd);
    WrapDiff(w.sn, r.nxt + wnd);
    WrapDiff(w.sn, r.nxt);
    var r1 := r.(acks := r.acks + [Ack(w.sn, w.ts)]);
    assert WrapAcks(r.acks) + [Ack(Wrap(w.sn), w.ts)] == WrapAcks(r1.acks);
    if w.sn - (r.nxt + wnd) < 0 && w.sn - r.nxt >= 0 {
      InsertWrap(r.buf, w);
      InsertOrder(Unbounded, r.nxt, r.buf, wnd, w);
      var k := InsertElements(Unbounded, r.buf, w);
      var buf := Insert(Unbounded, r.buf, w);
      assert forall j | 0 <= j < |buf| :: buf[j] in buf;
      DrainWrap(wnd, r1.(buf := Insert(Unbounded, r.buf, w)));
    }
  }

  lemma {:induction false} QueueWrap(queue: seq<Wire>)
    ensures MessageSpan(WrapWires(queue)) == MessageSpan(queue)
    ensures Payload(WrapWires(queue)) == Payload(queue)
  {
    if queue != [] {
      QueueWrap(queue[1..]);
      assert WrapWires(queue)[1..] == WrapWires(queue[1..]);
    }
  }

  lemma PopWrap(wnd: nat, r: Rcv, n: nat)
    requires wnd < TWO31 && RcvInv(Unbounded, r, wnd) && n <= |r.queue|
    ensures Drain(Bits32, wnd, WrapRcv(r).(queue := WrapWires(r.queue)[n..]))
         == WrapRcv(Drain(Unbounded, wnd, r.(queue := r.queue[n..])))
  {
    hide Wrap, Drain;
    assert WrapWires(r.queue)[n..] == WrapWires(r.queue[n..]);
    DrainWrap(wnd, r.(queue := r.queue[n..]));
  }

  lemma RecvQueueWrap(wnd: nat, r: Rcv, len: int)
    requires wnd < TWO31 && RcvInv(Unbounded, r, wnd)
    ensures var q := RecvQueue(Unbounded, wnd, r, len);
            RecvQueue(Bits32, wnd, WrapRcv(r), len) == QueueResult(q.code, q.data, WrapRcv(q.rcv), q.recover)
  {
    hide Drain, RcvInv, WrapWires, MessageSpan, Payload;
    var span := MessageSpan(r.queue);
    QueueWrap(r.queue);
    QueueWrap(r.queue[..span]);
    TakeWrap(r.queue, span);
    PopWrap(wnd, r, 0);
    PopWrap(wnd, r, span);
    assert r.(queue := r.queue[0..]) == r;
    assert WrapRcv(r).(queue := WrapWires(r.queue)[0..]) == WrapRcv(r);
  }

  lemma TakeWrap(ws: seq<Wire>, n: nat)
    requires n <= |ws|
    ensures WrapWires(ws)[..n] == WrapWires(ws[..n])
    ensures ws != [] ==> WrapWires(ws)[0] == WrapWire(ws[0])
  {
  }

  lemma RecvWrap(e: Endpoint, len: int)
    requires EndpointInv(Unbounded, e)
    ensures var r := Recv(Unbounded, e, len);
            Recv(Bits32, WrapEndpoint(e), len) == RecvResult(r.code, r.data, WrapEndpoint(r.e))
  {
    hide RecvQueue, WrapRcv;
    RecvQueueWrap(e.cfg.rcvWnd, e.rcv, len);
  }

  /* ---------------------------------------------------------------- input */

  /** The packet-lifetime condition on one segment. */
  predicate Timely(e: Endpoint, w: Wire) {
    && Recent(e.snd, w.una)
    && (w.cmd == CMD_ACK ==> Recent(e.snd, w.sn))
    && (w.cmd == CMD_PUSH ==> Arriving(e.rcv, e.cfg.rcvWnd, w.sn))
  }

  lemma InputSegmentWrap(e: Endpoint, w: Wire)
    requires EndpointInv(Unbounded, e) && Timely(e, w) && w.frg < 256
    ensures InputSegment(Bits32, WrapEndpoint(e), WrapWire(w)) == WrapEndpoint(InputSegment(Unbounded, e, w))
  {
    hide Wrap, InputUna, InputAck, InputPush, UpdateAck, TimeDiff;
    var limit := FlightLimit(e.cfg);
    InputUnaWrap(e.snd, limit, w.una);
    UnaKeeps(Unbounded, e, w.una);
    var s1 := InputUna(Unbounded, e.snd, w.una);
    if w.cmd == CMD_ACK {
      InputAckWrap(s1, limit, w.sn);
    } else if w.cmd == CMD_PUSH {
      InputPushWrap(e.cfg.rcvWnd, e.rcv, w);
    }
  }

  predicate TimelyAll(e: Endpoint, ws: seq<Wire>)
    decreases |ws|
  {
    ws != [] ==> Timely(e, ws[0]) && TimelyAll(InputSegment(Unbounded, e, ws[0]), ws[1..])
  }

  function WrapMaxAck(m: MaxAck): MaxAck {
    if m.NoAck? then m else MaxAck(Wrap(m.sn))
  }

  lemma {:induction false} InputSegmentsWrap(e: Endpoint, m: MaxAck, ws: seq<Wire>)
    requires EndpointInv(Unbounded, e) && TimelyAll(e, ws)
    requires forall w | w in ws :: InRange(Unbounded, w)
    requires m.MaxAck? ==> Recent(e.snd, m.sn)
    ensures InputSegments(Bits32, WrapEndpoint(e), WrapWires(ws)) == WrapEndpoint(InputSegments(Unbounded, e, ws))
    ensures FoldMaxAck(Bits32, WrapMaxAck(m), WrapWires(ws)) == WrapMaxAck(FoldMaxAck(Unbounded, m, ws))
    ensures var m' := FoldMaxAck(Unbounded, m, ws); m'.MaxAck? ==> Recent(e.snd, m'.sn)
    decreases |ws|
  {
    hide Wrap, TimeDiff, WrapEndpoint, InputSegment, EndpointInv;
    if ws != [] {
      var w := ws[0];
      assert InRange(Unbounded, w);
      InputSegmentWrap(e, w);
      InputSegmentKeeps(Unbounded, e, w);
      var e1, m1 := InputSegment(Unbounded, e, w), UpdateMaxAck(Unbounded, m, w);
      assert InputSegments(Unbounded, e, [w]) == e1 by {
        assert [w][1..] == [];
        assert InputSegments(Unbounded, e1, []) == e1;
      }
      if w.cmd == CMD_ACK && m.MaxAck? {
        WrapDiff(w.sn, m.sn);
      }
      assert WrapWires(ws)[1..] == WrapWires(ws[1..]);
      InputSegmentsWrap(e1, m1, ws[1..]);
    }
  }

  /** `ikcp_input` commutes with wrapping. */
  lemma InputWrap(e: Endpoint, p: Parsed)
    requires EndpointInv(Unbounded, e) && TimelyAll(e, p.segs)
    requires forall w | w in p.segs :: InRange(Unbounded, w)
    ensures InputParsed(Bits32, WrapEndpoint(e), Parsed(WrapWires(p.segs), p.code))
         == WrapEndpoint(InputParsed(Unbounded, e, p))
  {
    hide Wrap, TimeDiff, InputSegments, FoldMaxAck, ParseFastack, Grow;
    var limit := FlightLimit(e.cfg);
    InputSegmentsWrap(e, NoAck, p.segs);
    InputSegmentsKeeps(Unbounded, e, p.segs);
    var e1 := InputSegments(Unbounded, e, p.segs);
    var m := FoldMaxAck(Unbounded, NoAck, p.segs);
    if m.MaxAck? {
      ParseFastackWrap(e1.snd, limit, m.sn);
    }
    WrapDiff(e1.snd.una, e.snd.una);
  }

  /* ---------------------------------------------------------------- flush */

  lemma {:induction false} PromoteWrap(e: Endpoint, s: Snd, window: nat, limit: nat)
    requires window <= limit <= 65535 && SndInv(Unbounded, s, limit)
    ensures Promote(Bits32, WrapEndpoint(e), WrapSnd(s), window) == WrapSnd(Promote(Unbounded, e, s, window))
    decreases |s.queue|
  {
    hide Wrap, TimeDiff;
    WrapNext(s.una, window);
    WrapDiff(s.nxt, s.una + window);
    if s.queue != [] && s.nxt - (s.una + window) < 0 {
      PromoteOneKeeps(Unbounded, e, s, window, limit);
      WrapNext(s.nxt, 1);
      var s1 := PromoteOne(Unbounded, e, s);
      assert WrapSeg(Numbered(e, s.nxt, s.queue[0])) == Numbered(WrapEndpoint(e), Wrap(s.nxt), s.queue[0]) by {
        NumberedWrap(e, s.nxt, s.queue[0]);
      }
      assert WrapSnd(s1) == PromoteOne(Bits32, WrapEndpoint(e), WrapSnd(s));
      PromoteWrap(e, s1, window, limit);
    }
  }

  lemma NumberedWrap(e: Endpoint, sn: nat, f: Frag)
    ensures WrapSeg(Numbered(e, sn, f)) == Numbered(WrapEndpoint(e), Wrap(sn), f)
  {
  }

  lemma TickWrap(e: Endpoint, s: SndSeg)
    ensures Tick(WrapEndpoint(e), WrapSeg(s)) == WrapSeg(Tick(e, s))
    ensures DueFor(WrapEndpoint(e), WrapSeg(s)) == DueFor(e, s)
  {
    hide Wrap, TimeDiff, Backoff;
  }

  lemma {:induction false} DueWrap(e: Endpoint, buf: seq<SndSeg>)
    ensures DueSegments(WrapEndpoint(e), WrapSegs(buf)) == WrapWires(DueSegments(e, buf))
    ensures forall due :: CountDue(WrapEndpoint(e), WrapSegs(buf), due) == CountDue(e, buf, due)
  {
    hide Wrap, Tick, DueFor, WrapEndpoint;
    if buf != [] {
      TickWrap(e, buf[0]);
      DueWrap(e, buf[1..]);
      assert WrapSegs(buf)[1..] == WrapSegs(buf[1..]);
    }
  }

  lemma TickAllWrap(e: Endpoint, buf: seq<SndSeg>)
    ensures TickAll(WrapEndpoint(e), WrapSegs(buf)) == WrapSegs(TickAll(e, buf))
    ensures Exhausted(WrapEndpoint(e), WrapSegs(buf)) == Exhausted(e, buf)
  {
    hide Wrap, Tick, DueFor;
    forall i | 0 <= i < |buf|
      ensures Tick(WrapEndpoint(e), WrapSegs(buf)[i]) == WrapSeg(Tick(e, buf[i]))
      ensures DueFor(WrapEndpoint(e), WrapSegs(buf)[i]) == DueFor(e, buf[i])
    {
      TickWrap(e, buf[i]);
    }
  }

  lemma ControlsWrap(e: Endpoint)
    ensures AckSegments(WrapEndpoint(e)) == WrapWires(AckSegments(e))
    ensures ProbeSegments(WrapEndpoint(e)) == WrapWires(ProbeSegments(e))
  {
    hide ProbeTick;
    assert Wrap(0) == 0;
  }

  /** `ikcp_flush` commutes with wrapping, and sends the same segments. */
  lemma FlushWrap(e: Endpoint)
    requires EndpointInv(Unbounded, e)
    ensures var r := Flush(Unbounded, e);
            Flush(Bits32, WrapEndpoint(e)) == Flushed(WrapEndpoint(r.e), WrapWires(r.segs))
  {
    hide Wrap, Promote, TickAll, DueSegments, CountDue, Exhausted, Backed, ProbeTick, AckSegments, ProbeSegments;
    var window := Window(e);
    var snd := Promote(Unbounded, e, e.snd, window);
    PromoteWrap(e, e.snd, window, FlightLimit(e.cfg));
    DueWrap(e, snd.buf);
    TickAllWrap(e, snd.buf);
    ControlsWrap(e);
    WrapMinus(snd.nxt, snd.una);
  }

  lemma WrapMinus(a: nat, b: nat)
    ensures Wrap(Wrap(a) - Wrap(b)) == Wrap(a - b)
  {
  }

  lemma UpdateWrap(e: Endpoint, now: Word)
    requires EndpointInv(Unbounded, e)
    ensures var r := Update(Unbounded, e, now);
            Update(Bits32, WrapEndpoint(e), now) == Flushed(WrapEndpoint(r.e), WrapWires(r.segs))
  {
    hide Flush, Advance, Wrap;
    var (clock, due) := Advance(e.clock, e.cfg.interval, now);
    FlushWrap(e.(clock := clock));
  }
}
