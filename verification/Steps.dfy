/** Every action of the unbounded system keeps its invariant. */
module Steps {
  import opened Serial
  import opened WireFormat
  import opened Endpoints
  import opened Invariants
  import opened Wraparound
  import opened Packetization
  import opened Messages
  import opened Network
  import opened Safety

  /* ---------------------------------------------------------------- input */

  /** An endpoint in the middle of a packet, against its peer. */
  ghost predicate Linked(e: Endpoint, log: seq<Frag>, y: Node<seq<Wire>>) {
    && EndpointInv(Unbounded, e) && EndpointInv(Unbounded, y.e)
    && SenderOk(log, e.snd) && NothingLost(e.snd, y.e.rcv) && ReceiverOk(log, y.e.rcv)
    && SenderOk(y.log, y.e.snd) && NothingLost(y.e.snd, e.rcv) && ReceiverOk(y.log, e.rcv) && AcksOk(e.rcv)
  }

  lemma InputSegmentSafe(e: Endpoint, log: seq<Frag>, y: Node<seq<Wire>>, w: Wire)
    requires Linked(e, log, y) && Honest(y.log, y.e.rcv, w) && InRange(Unbounded, w)
    ensures var e' := InputSegment(Unbounded, e, w);
            Linked(e', log, y) && Grows(e.rcv, e'.rcv) && Consumed(e'.rcv) == Consumed(e.rcv)
  {
    hide InputUna, InputAck, InputPush, UpdateAck, Matches, Held, NothingLost, EndpointInv;
    var e' := InputSegment(Unbounded, e, w);
    InputSegmentKeeps(Unbounded, e, w);
    var s1 := InputUna(Unbounded, e.snd, w.una);
    InvParts(e);
    UnaLosesNothing(e.snd, log, FlightLimit(e.cfg), y.e.rcv, w.una);
    HeldSame(e.rcv, e.rcv);
    if w.cmd == CMD_ACK {
      AckLosesNothing(s1, log, y.e.rcv, w.sn);
    } else if w.cmd == CMD_PUSH {
      PushGrows(e.cfg.rcvWnd, e.rcv, y.log, w);
      NothingLostGrows(y.e.snd, e.rcv, e'.rcv);
    }
  }

  lemma InvParts(e: Endpoint)
    requires EndpointInv(Unbounded, e)
    ensures SndInv(Unbounded, e.snd, FlightLimit(e.cfg)) && RcvInv(Unbounded, e.rcv, e.cfg.rcvWnd)
    ensures ConfigInv(e.cfg)
  {
  }

  /** The sender is never more than a receive window and a flight ahead of the receiver. */
  lemma SenderNotFarAhead(s: Snd, limit: nat, r: Rcv, wnd: nat)
    requires limit <= 65535 && SndInv(Unbounded, s, limit) && RcvInv(Unbounded, r, wnd) && NothingLost(s, r)
    ensures s.nxt <= r.nxt + wnd + 65535
  {
    if s.una > 0 {
      var sn: nat := s.una - 1;
      assert !InBuffer(s, sn);
      assert Held(r, sn);
    }
  }

  lemma HeldInLog(log: seq<Frag>, r: Rcv, sn: nat)
    requires ReceiverOk(log, r) && Held(r, sn)
    ensures sn < |log|
  {
  }

  lemma SegmentTimely(e: Endpoint, rcv0: Rcv, log: seq<Frag>, y: Node<seq<Wire>>, w: Wire)
    requires Linked(e, log, y) && Honest(y.log, y.e.rcv, w)
    requires y.e.snd.nxt <= rcv0.nxt + e.cfg.rcvWnd + 65535 && rcv0.nxt <= e.rcv.nxt
    requires InTime(e.(rcv := rcv0), [w])
    ensures Timely(e, w)
  {
    hide Matches, Held, NothingLost;
    assert w in [w];
    if w.cmd == CMD_ACK {
      HeldInLog(log, y.e.rcv, w.sn);
    }
    assert w.cmd == CMD_PUSH ==> w.sn < |y.log| by {
      assert Honest(y.log, y.e.rcv, w);
      MatchesInLog(y.log, y.e.rcv, w);
    }
  }

  lemma MatchesInLog(log: seq<Frag>, r: Rcv, w: Wire)
    requires Honest(log, r, w)
    ensures WellFormed(w) && (w.cmd == CMD_PUSH ==> w.sn < |log|)
  {
  }

  /**
    Processing an honest packet in time: the invariant is kept through every segment, the receiver
    only gains, and each segment satisfies the lifetime condition at the moment it is processed.
  */
  lemma {:induction false} InputSegmentsSafe(e: Endpoint, rcv0: Rcv, log: seq<Frag>, y: Node<seq<Wire>>, ws: seq<Wire>)
    requires Linked(e, log, y)
    requires forall w | w in ws :: Honest(y.log, y.e.rcv, w) && InRange(Unbounded, w)
    requires y.e.snd.nxt <= rcv0.nxt + e.cfg.rcvWnd + 65535 && rcv0.nxt <= e.rcv.nxt
    ensures var e' := InputSegments(Unbounded, e, ws);
            Linked(e', log, y) && Grows(e.rcv, e'.rcv) && Consumed(e'.rcv) == Consumed(e.rcv)
    ensures InTime(e.(rcv := rcv0), ws) ==> TimelyAll(e, ws)
    decreases |ws|
  {
    hide Linked, Held, Honest, InputSegment, Timely;
    if ws == [] {
      HeldSame(e.rcv, e.rcv);
    } else {
      var w := ws[0];
      var e1 := InputSegment(Unbounded, e, w);
      InputSegmentSafe(e, log, y, w);
      SegmentFrame(e, w);
      InputSegmentsSafe(e1, rcv0, log, y, ws[1..]);
      if InTime(e.(rcv := rcv0), ws) {
        SegmentTimely(e, rcv0, log, y, w);
      }
    }
  }

  lemma SegmentFrame(e: Endpoint, w: Wire)
    ensures SameSettings(e, InputSegment(Unbounded, e, w))
  {
    var ws := [w];
    assert InputSegments(Unbounded, e, ws) == InputSegments(Unbounded, InputSegment(Unbounded, e, w), ws[1..]);
  }

  lemma OnWireHonest(log: seq<Frag>, r: Rcv, w: Wire)
    requires Honest(log, r, w)
    ensures Honest(log, r, OnWire(Unbounded, w)) && InRange(Unbounded, OnWire(Unbounded, w))
  {
    hide Held;
  }

  lemma FastackSafe(log: seq<Frag>, s: Snd, r: Rcv, sn: nat)
    requires SenderOk(log, s) && NothingLost(s, r)
    ensures var s' := s.(buf := ParseFastack(Unbounded, s, sn)); SenderOk(log, s') && NothingLost(s', r)
  {
    hide Held;
    BumpFastackSame(Unbounded, s.buf, sn);
    var s' := s.(buf := ParseFastack(Unbounded, s, sn));
    forall n: nat | InBuffer(s, n)
      ensures InBuffer(s', n)
    {
      var i :| 0 <= i < |s.buf| && s.buf[i].w.sn == n;
      assert s'.buf[i].w.sn == n;
    }
  }

  lemma FinishSafe(e: Endpoint, prevUna: nat, m: MaxAck, log: seq<Frag>, y: Node<seq<Wire>>)
    requires Linked(e, log, y)
    ensures var e' := FinishInput(Unbounded, e, prevUna, m); Linked(e', log, y) && e'.rcv == e.rcv
  {
    hide Held, ParseFastack, Grow, NothingLost, SenderOk;
    if m.MaxAck? {
      FastackSafe(log, e.snd, y.e.rcv, m.sn);
      FastackKeeps(Unbounded, e, m.sn);
    }
  }

  /** Delivering any packet the peer ever sent. */
  lemma ReceiveSafe(x: Node<seq<Wire>>, y: Node<seq<Wire>>, p: seq<Wire>)
    requires Linked(x.e, x.log, y) && forall w | w in p :: Honest(y.log, y.e.rcv, w)
    ensures var e' := ReceiveU(x.e, p);
            Linked(e', x.log, y) && Grows(x.e.rcv, e'.rcv) && Consumed(e'.rcv) == Consumed(x.e.rcv)
            && e'.cfg == x.e.cfg && e'.snd.queue == x.e.snd.queue
    ensures InTime(x.e, p) ==> TimelyAll(x.e, Accept(x.e.cfg.conv, OnWireAll(Unbounded, p)).segs)
    ensures forall w | w in Accept(x.e.cfg.conv, OnWireAll(Unbounded, p)).segs :: InRange(Unbounded, w)
  {
    hide Honest, Held, NothingLost, EndpointInv, OnWire, FinishInput, FoldMaxAck;
    var ws := Accept(x.e.cfg.conv, OnWireAll(Unbounded, p)).segs;
    forall i | 0 <= i < |ws|
      ensures Honest(y.log, y.e.rcv, ws[i]) && InRange(Unbounded, ws[i]) && ws[i] == OnWire(Unbounded, p[i])
    {
      assert OnWireAll(Unbounded, p)[i] == OnWire(Unbounded, p[i]) && p[i] in p;
      OnWireHonest(y.log, y.e.rcv, p[i]);
    }
    InvParts(x.e);
    InvParts(y.e);
    SenderNotFarAhead(y.e.snd, FlightLimit(y.e.cfg), x.e.rcv, x.e.cfg.rcvWnd);
    InputSegmentsSafe(x.e, x.e.rcv, x.log, y, ws);
    assert InTime(x.e, p) ==> InTime(x.e, ws) by {
      forall w | w in p
        ensures WellFormed(w)
      {
        MatchesInLog(y.log, y.e.rcv, w);
      }
      OnWireInTime(x.e, p, ws);
    }
    var e1 := InputSegments(Unbounded, x.e, ws);
    var m := FoldMaxAck(Unbounded, NoAck, ws);
    FinishSafe(e1, x.e.snd.una, m, x.log, y);
    FinishFrame(e1, x.e.snd.una, m);
  }

  lemma FinishFrame(e: Endpoint, prevUna: nat, m: MaxAck)
    ensures var e' := FinishInput(Unbounded, e, prevUna, m); e'.cfg == e.cfg && e'.snd.queue == e.snd.queue
  {
  }

  lemma OnWireInTime(e: Endpoint, p: seq<Wire>, ws: seq<Wire>)
    requires |ws| <= |p| && forall i | 0 <= i < |ws| :: ws[i] == OnWire(Unbounded, p[i])
    requires forall w | w in p :: WellFormed(w)
    ensures InTime(e, p) ==> InTime(e, ws)
  {
    if InTime(e, p) {
      forall w | w in ws
        ensures InTime(e, [w])
      {
        var i :| 0 <= i < |ws| && ws[i] == w;
        assert p[i] in p;
      }
    }
  }

  /* ---------------------------------------------------------------- flush */

  lemma LogGrows(log: seq<Frag>, log': seq<Frag>, r: Rcv)
    requires log <= log' && ReceiverOk(log, r)
    ensures ReceiverOk(log', r)
  {
  }

  /** Fragments that move from the queue to `snd_buf` get the numbers they are logged under. */
  lemma PromoteSafe(e: Endpoint, log: seq<Frag>, r: Rcv, window: nat)
    requires SenderOk(log, e.snd) && NothingLost(e.snd, r)
    ensures var s' := Promote(Unbounded, e, e.snd, window);
            var log' := log + Logged(e.snd.queue, s'.queue);
            SenderOk(log', s') && NothingLost(s', r) && log' + s'.queue == log + e.snd.queue
  {
    hide Held;
    var k := PromoteShape(Unbounded, e, e.snd, window);
    var s' := Promote(Unbounded, e, e.snd, window);
    var log' := log + Logged(e.snd.queue, s'.queue);
    assert Logged(e.snd.queue, s'.queue) == e.snd.queue[..k];
    var n := |e.snd.buf|;
    forall i | 0 <= i < |s'.buf|
      ensures Matches(log', s'.buf[i].w)
    {
      if i < n {
        assert s'.buf[i] == s'.buf[..n][i] == e.snd.buf[i];
      } else {
        assert s'.buf[n + (i - n)] == Numbered(e, e.snd.nxt + (i - n), e.snd.queue[i - n]);
      }
    }
    forall sn: nat | sn < s'.nxt
      ensures InBuffer(s', sn) || Held(r, sn)
    {
      if sn >= e.snd.nxt {
        var i := sn - e.snd.nxt;
        assert s'.buf[n + i] == Numbered(e, e.snd.nxt + i, e.snd.queue[i]);
        assert s'.buf[n + i].w.sn == sn;
      } else if InBuffer(e.snd, sn) {
        var i :| 0 <= i < |e.snd.buf| && e.snd.buf[i].w.sn == sn;
        assert s'.buf[i] == s'.buf[..n][i];
      }
    }
  }

  lemma TickAllSafe(e: Endpoint, log: seq<Frag>, s: Snd, r: Rcv)
    requires SenderOk(log, s) && NothingLost(s, r)
    ensures var s' := s.(buf := TickAll(e, s.buf)); SenderOk(log, s') && NothingLost(s', r)
  {
    hide Held, Tick;
    var s' := s.(buf := TickAll(e, s.buf));
    forall i | 0 <= i < |s.buf|
      ensures s'.buf[i].w.sn == s.buf[i].w.sn && Matches(log, s'.buf[i].w)
    {
      TickSame(e, s.buf[i]);
    }
    forall n: nat | InBuffer(s, n)
      ensures InBuffer(s', n)
    {
      var i :| 0 <= i < |s.buf| && s.buf[i].w.sn == n;
      assert s'.buf[i].w.sn == n;
    }
  }

  /** Every data segment sent is a segment of `snd_buf`, restamped. */
  lemma {:induction false} DueSegmentsFrom(e: Endpoint, buf: seq<SndSeg>, w: Wire) returns (i: nat)
    requires w in DueSegments(e, buf)
    ensures i < |buf| && w == Tick(e, buf[i]).w && !DueFor(e, buf[i]).NotDue?
  {
    hide Tick, DueFor;
    if DueFor(e, buf[0]).NotDue? || w != Tick(e, buf[0]).w {
      var j := DueSegmentsFrom(e, buf[1..], w);
      i := j + 1;
    } else {
      i := 0;
    }
  }

  lemma TickStamp(e: Endpoint, s: SndSeg)
    requires !DueFor(e, s).NotDue?
    ensures Tick(e, s).w.una == e.rcv.nxt
  {
  }

  /** What a flush sends is honest: acknowledgements of held segments, and logged data. */
  lemma FlushHonest(x: Node<seq<Wire>>, log: seq<Frag>, peerLog: seq<Frag>, snd: Snd, w: Wire)
    requires AcksOk(x.e.rcv) && SenderOk(log, snd) && (forall s | s in snd.buf :: SegOk(x.e.cfg, s.w))
    requires x.e.cfg.mss < TWO31
    requires w in AckSegments(x.e) + ProbeSegments(x.e) + DueSegments(x.e, snd.buf)
    ensures Honest(log, x.e.rcv, w) && |w.data| <= x.e.cfg.mss
  {
    hide Held, ProbeTick, Tick, DueFor;
    if w in AckSegments(x.e) {
      var i :| 0 <= i < |x.e.rcv.acks| && AckSegments(x.e)[i] == w;
    } else if w !in ProbeSegments(x.e) {
      var i := DueSegmentsFrom(x.e, snd.buf, w);
      TickSame(x.e, snd.buf[i]);
      TickStamp(x.e, snd.buf[i]);
      assert snd.buf[i] in snd.buf;
    }
  }

  lemma PacketsHonest(mtu: nat, log: seq<Frag>, r: Rcv, out: seq<seq<Wire>>, ws: seq<Wire>)
    requires AllHonest(log, r, out) && forall w | w in ws :: Honest(log, r, w) && Size(w) <= mtu
    ensures AllHonest(log, r, out + Packets(mtu, ws))
  {
    hide Honest, Packets;
    PacketsFit(mtu, ws);
    var ps := Packets(mtu, ws);
    forall k, i | 0 <= k < |out + ps| && 0 <= i < |(out + ps)[k]|
      ensures Honest(log, r, (out + ps)[k][i])
    {
      if k >= |out| {
        InConcat(ps, k - |out|, i);
      }
    }
  }

  /** The invariant of a system seen from the acting node. */
  ghost predicate Pair(x: Node<seq<Wire>>, y: Node<seq<Wire>>) {
    && EndpointInv(Unbounded, x.e) && EndpointInv(Unbounded, y.e)
    && Direction(x, y) && Direction(y, x)
    && AllHonest(x.log, x.e.rcv, x.out)
    && AllHonest(y.log, y.e.rcv, y.out)
  }

  /** The log only grows behind what was consumed. */
  lemma DeliveredGrows(cfg: Config, log: seq<Frag>, log': seq<Frag>, sent: seq<bytes>, consumed: int, got: seq<bytes>)
    requires log <= log' && Delivered(cfg, log, sent, consumed, got)
    ensures Delivered(cfg, log', sent, consumed, got)
  {
    assert log'[..consumed] == log[..consumed];
  }

  /** The state after a flush, as the history sees it. */
  function AfterFlush(x: Node<seq<Wire>>, r: Flushed): Node<seq<Wire>> {
    x.(e := r.e, out := x.out + Packets(x.e.cfg.mtu, r.segs), log := x.log + Logged(x.e.snd.queue, r.e.snd.queue))
  }

  lemma FlushParts(x: Node<seq<Wire>>, y: Node<seq<Wire>>)
    requires Pair(x, y) && x.e.clock.updated
    ensures var x' := AfterFlush(x, Flush(Unbounded, x.e));
            && SenderOk(x'.log, x'.e.snd) && NothingLost(x'.e.snd, y.e.rcv)
            && x.log <= x'.log && x'.log + x'.e.snd.queue == x.log + x.e.snd.queue
            && AllHonest(x'.log, x'.e.rcv, x'.out)
            && x'.e.cfg == x.e.cfg && x'.e.rcv == x.e.rcv.(acks := [])
  {
    hide Held, Promote, TickAll, AckSegments, ProbeSegments, DueSegments, Backed, CountDue, Exhausted, ProbeTick,
         Packets;
    var window := Window(x.e);
    var limit := FlightLimit(x.e.cfg);
    var snd := Promote(Unbounded, x.e, x.e.snd, window);
    var log' := x.log + Logged(x.e.snd.queue, snd.queue);
    PromoteSafe(x.e, x.log, y.e.rcv, window);
    TickAllSafe(x.e, log', snd, y.e.rcv);
    var k := PromoteShape(Unbounded, x.e, x.e.snd, window);
    assert forall s | s in snd.buf :: SegOk(x.e.cfg, s.w) by {
      PromotedOk(Unbounded, x.e, window);
    }
    var r := Flush(Unbounded, x.e);
    forall w | w in r.segs
      ensures Honest(log', x.e.rcv, w) && Size(w) <= x.e.cfg.mtu
    {
      FlushHonest(x, log', y.log, snd, w);
    }
    HeldSame(x.e.rcv, x.e.rcv);
    HonestGrows(x.log, x.e.rcv, log', x.e.rcv, x.out);
    PacketsHonest(x.e.cfg.mtu, log', x.e.rcv, x.out, r.segs);
    HeldSame(x.e.rcv, r.e.rcv);
    HonestGrows(log', x.e.rcv, log', r.e.rcv, x.out + Packets(x.e.cfg.mtu, r.segs));
  }

  lemma FlushSafe(x: Node<seq<Wire>>, y: Node<seq<Wire>>)
    requires Pair(x, y)
    ensures Pair(AfterFlush(x, Flush(Unbounded, x.e)), y)
  {
    hide Held, Flush, Delivered, EndpointInv, SenderOk, NothingLost, AllHonest, Packets;
    FlushKeeps(Unbounded, x.e);
    if x.e.clock.updated {
      FlushParts(x, y);
      var x' := AfterFlush(x, Flush(Unbounded, x.e));
      LogGrows(x.log, x'.log, y.e.rcv);
      DeliveredGrows(x.e.cfg, x.log, x'.log, x.sent, Consumed(y.e.rcv), y.got);
      HeldSame(x.e.rcv, x'.e.rcv);
      NothingLostGrows(y.e.snd, x.e.rcv, x'.e.rcv);
    } else {
      FlushIdle(x);
    }
  }

  lemma FlushIdle(x: Node<seq<Wire>>)
    requires !x.e.clock.updated
    ensures AfterFlush(x, Flush(Unbounded, x.e)) == x
  {
    assert x.out + [] == x.out && x.log + [] == x.log;
  }

  /* ---------------------------------------------------------------- send */

  lemma ExtendData(cfg: Config, queue: seq<Frag>, data: bytes)
    ensures FragData(Extend(cfg, queue, data)) == FragData(queue) + data[..Extension(cfg, queue, data)]
    ensures cfg.stream && (forall f | f in queue :: f.frg == 0) ==>
              forall f | f in Extend(cfg, queue, data) :: f.frg == 0
  {
    var r := Extend(cfg, queue, data);
    if cfg.stream && queue != [] && |queue[|queue| - 1].data| < cfg.mss {
      var front, last := queue[..|queue| - 1], queue[|queue| - 1];
      assert queue == front + [last];
      FragDataAppend(front, [last]);
      FragDataAppend(front, [r[|r| - 1]]);
      FragDataOne(last);
      FragDataOne(r[|r| - 1]);
    } else {
      assert data[..0] == [];
    }
  }

  lemma FragDataOne(f: Frag)
    ensures FragData([f]) == f.data
  {
    assert [f][1..] == [];
  }

  /** Conservation in stream mode: the bytes taken are appended, also when the call fails with -2. */
  lemma StreamSend(cfg: Config, queue: seq<Frag>, data: bytes)
    requires cfg.stream && forall f | f in queue :: f.frg == 0
    ensures var r := Send(cfg, queue, data);
            && FragData(r.queue) == FragData(queue) + r.taken && (forall f | f in r.queue :: f.frg == 0)
            && r.taken <= data && (r.code == 0 ==> r.taken == data)
  {
    hide Extension, Extend, Fragments, FragmentCount, FragData;
    var n := Extension(cfg, queue, data);
    var extended := Extend(cfg, queue, data);
    var left := data[n..];
    var count := FragmentCount(cfg.mss, |left|);
    ExtendData(cfg, queue, data);
    FragmentCountFits(cfg.mss, |left|);
    FragmentsShape(cfg.mss, true, left, count);
    FragmentsData(cfg.mss, true, left, count);
    FragDataAppend(extended, Fragments(cfg.mss, true, left, count));
    assert data == data[..n] + left;
    assert (FragData(queue) + data[..n]) + left == FragData(queue) + data;
  }

  /** Conservation in message mode: the message's fragments are appended, or nothing changes. */
  lemma MessageSend(cfg: Config, queue: seq<Frag>, data: bytes)
    requires !cfg.stream
    ensures var r := Send(cfg, queue, data);
            && (r.code == 0 ==> r.queue == queue + Message(cfg.mss, data) && r.taken == data)
            && (r.code != 0 ==> r.code == -2 && r.queue == queue && r.taken == [] && |data| > (WND_RCV - 1) * cfg.mss)
  {
    assert data[0..] == data;
    FragmentCountFits(cfg.mss, |data|);
    if Send(cfg, queue, data).code != 0 {
      TooMany(cfg.mss, |data|, FragmentCount(cfg.mss, |data|));
    }
  }

  lemma TooMany(mss: pos, len: nat, count: nat)
    requires count >= WND_RCV && (count - 1) * mss <= len && (len > 0 ==> (count - 1) * mss < len)
    ensures len > (WND_RCV - 1) * mss
  {
    assert (count - 1) * mss == (count - WND_RCV) * mss + (WND_RCV - 1) * mss;
    assert 0 <= (count - WND_RCV) * mss;
  }

  lemma AcceptedSend(cfg: Config, log: seq<Frag>, queue: seq<Frag>, sent: seq<bytes>, data: bytes)
    requires Accepted(cfg, log, queue, sent)
    ensures var r := Send(cfg, queue, data);
            Accepted(cfg, log, r.queue, if r.code == 0 || cfg.stream then sent + [r.taken] else sent)
  {
    hide Send, Message, Fragments;
    var r := Send(cfg, queue, data);
    if cfg.stream {
      StreamSend(cfg, queue, data);
      FragDataAppend(log, queue);
      FragDataAppend(log, r.queue);
      ConcatOne(sent, r.taken);
      assert (FragData(log) + FragData(queue)) + r.taken == FragData(log) + (FragData(queue) + r.taken);
    } else {
      MessageSend(cfg, queue, data);
      AllFragmentsAppend(cfg.mss, sent, [data]);
      AllFragmentsOne(cfg.mss, data);
      assert (log + queue) + Message(cfg.mss, data) == log + (queue + Message(cfg.mss, data));
    }
  }

  /** More sent messages do not disturb what was delivered. */
  lemma DeliveredMore(cfg: Config, log: seq<Frag>, sent: seq<bytes>, more: seq<bytes>, consumed: int, got: seq<bytes>)
    requires Delivered(cfg, log, sent, consumed, got)
    ensures Delivered(cfg, log, sent + more, consumed, got)
  {
  }

  lemma SendSafe(x: Node<seq<Wire>>, y: Node<seq<Wire>>, data: bytes)
    requires Pair(x, y)
    ensures var r := Send(x.e.cfg, x.e.snd.queue, data);
            Pair(x.(e := x.e.(snd := x.e.snd.(queue := r.queue)),
                    sent := if r.code == 0 || x.e.cfg.stream then x.sent + [r.taken] else x.sent), y)
  {
    hide Held, Send, Accepted, Delivered, EndpointInv, NothingLost, AllHonest, ReceiverOk;
    var r := Send(x.e.cfg, x.e.snd.queue, data);
    SendKeeps(Unbounded, x.e, data);
    AcceptedSend(x.e.cfg, x.log, x.e.snd.queue, x.sent, data);
    DeliveredMore(x.e.cfg, x.log, x.sent, [r.taken], Consumed(y.e.rcv), y.got);
    NothingLostQueue(x.e.snd, r.queue, y.e.rcv);
  }

  lemma NothingLostQueue(s: Snd, queue: seq<Frag>, r: Rcv)
    requires NothingLost(s, r)
    ensures NothingLost(s.(queue := queue), r)
  {
    hide Held;
    forall sn: nat | InBuffer(s, sn)
      ensures InBuffer(s.(queue := queue), sn)
    {
      var i :| 0 <= i < |s.buf| && s.buf[i].w.sn == sn;
      assert s.(queue := queue).buf[i].w.sn == sn;
    }
  }

  /* ---------------------------------------------------------------- receive */

  /** In message mode, what is handed over is the next message the peer sent. */
  lemma NextMessage(cfg: Config, log: seq<Frag>, rest: seq<Frag>, sent: seq<bytes>, r: Rcv, got: seq<bytes>)
    requires !cfg.stream && Accepted(cfg, log, rest, sent) && Delivered(cfg, log, sent, Consumed(r), got)
    requires ReceiverOk(log, r) && QueueNumbered(r) && PeekSize(r.queue) >= 0
    ensures var span := MessageSpan(r.queue);
            Delivered(cfg, log, sent, Consumed(r) + span, got + [Payload(r.queue[..span])])
  {
    hide Message, MessageSpan, PeekSize, Payload;
    var todo := sent[|got|..];
    assert r.queue != [] by {
      PeekNonEmpty(r.queue);
    }
    assert sent == got + todo;
    AllFragmentsAppend(cfg.mss, got, todo);
    QueueIsLog(log, r);
    assert FragsOf(r.queue) <= AllFragments(cfg.mss, todo) by {
      var all := AllFragments(cfg.mss, sent);
      assert log[Consumed(r)..r.nxt] == all[Consumed(r)..r.nxt];
      assert all[Consumed(r)..] == AllFragments(cfg.mss, todo);
      assert all[Consumed(r)..r.nxt] == all[Consumed(r)..][..|r.queue|];
    }
    Reassembly(cfg.mss, todo, r.queue);
    AllFragmentsAppend(cfg.mss, got, [todo[0]]);
    AllFragmentsOne(cfg.mss, todo[0]);
    assert got + [todo[0]] == sent[..|got| + 1];
  }

  lemma PeekNonEmpty(queue: seq<Wire>)
    requires PeekSize(queue) >= 0
    ensures queue != []
  {
  }

  ghost predicate QueueNumbered(r: Rcv) {
    forall i | 0 <= i < |r.queue| :: r.queue[i].sn == r.nxt - |r.queue| + i
  }

  lemma QueueIsLog(log: seq<Frag>, r: Rcv)
    requires ReceiverOk(log, r) && QueueNumbered(r) && 0 <= Consumed(r)
    ensures FragsOf(r.queue) == log[Consumed(r)..r.nxt]
  {
    forall i | 0 <= i < |r.queue|
      ensures FragsOf(r.queue)[i] == log[Consumed(r)..r.nxt][i]
    {
      assert Matches(log, r.queue[i]);
    }
  }

  /** In stream mode, what is handed over is the next segment. */
  lemma NextBytes(cfg: Config, log: seq<Frag>, rest: seq<Frag>, sent: seq<bytes>, r: Rcv, got: seq<bytes>)
    requires cfg.stream && Accepted(cfg, log, rest, sent) && Delivered(cfg, log, sent, Consumed(r), got)
    requires ReceiverOk(log, r) && QueueNumbered(r) && PeekSize(r.queue) >= 0
    ensures var span := MessageSpan(r.queue);
            Delivered(cfg, log, sent, Consumed(r) + span, got + [Payload(r.queue[..span])])
  {
    var q, n := r.queue, Consumed(r);
    PeekNonEmpty(q);
    QueueIsLog(log, r);
    assert log[n] == FragsOf(q)[0] == Frag(q[0].frg, q[0].data);
    assert log[n] in log + rest;
    assert q[..1] == [q[0]] && [q[0]][1..] == [];
    assert Payload(q[..1]) == q[0].data;
    assert log[..n + 1] == log[..n] + [log[n]];
    FragDataAppend(log[..n], [log[n]]);
    FragDataOne(log[n]);
    ConcatOne(got, q[0].data);
  }

  lemma PopSafe(wnd: nat, r: Rcv, n: nat, log: seq<Frag>)
    requires wnd < TWO31 && RcvInv(Unbounded, r, wnd) && n <= |r.queue| && ReceiverOk(log, r) && AcksOk(r)
    ensures var r' := Drain(Unbounded, wnd, r.(queue := r.queue[n..]));
            Grows(r, r') && ReceiverOk(log, r') && AcksOk(r') && Consumed(r') == Consumed(r) + n
  {
    hide Held, Matches, Drain;
    var r1 := r.(queue := r.queue[n..]);
    HeldSame(r, r1);
    DrainGrows(wnd, r1, log);
  }

  lemma RecvSafe(x: Node<seq<Wire>>, y: Node<seq<Wire>>, len: int)
    requires Pair(x, y)
    ensures var r := Recv(Unbounded, x.e, len);
            Pair(x.(e := r.e, got := x.got + (if r.code >= 0 && len >= 0 then [r.data] else [])), y)
  {
    hide Held, Drain, AllHonest, Accepted, Delivered, SenderOk, NothingLost, PeekSize, MessageSpan, Payload;
    var r := Recv(Unbounded, x.e, len);
    var wnd := x.e.cfg.rcvWnd;
    var q := x.e.rcv.queue;
    RecvKeeps(Unbounded, x.e, len);
    assert x.got + [] == x.got;
    if q != [] && PeekSize(q) >= 0 && PeekSize(q) <= (if len < 0 then -len else len) {
      var n := if len < 0 then 0 else MessageSpan(q);
      assert x.e.rcv.(queue := q[0..]) == x.e.rcv;
      PopSafe(wnd, x.e.rcv, n, y.log);
      assert QueueNumbered(x.e.rcv);
      if len >= 0 {
        if y.e.cfg.stream {
          NextBytes(y.e.cfg, y.log, y.e.snd.queue, y.sent, x.e.rcv, x.got);
        } else {
          NextMessage(y.e.cfg, y.log, y.e.snd.queue, y.sent, x.e.rcv, x.got);
        }
      }
      NothingLostGrows(y.e.snd, x.e.rcv, r.e.rcv);
      HonestGrows(x.log, x.e.rcv, x.log, r.e.rcv, x.out);
    }
  }

  /* ---------------------------------------------------------------- all actions */

  lemma DeliverSafe(x: Node<seq<Wire>>, y: Node<seq<Wire>>, k: nat)
    requires Pair(x, y) && k < |y.out|
    ensures Pair(x.(e := ReceiveU(x.e, y.out[k])), y)
  {
    hide Held, ReceiveU, Accepted, Delivered, EndpointInv, SenderOk, NothingLost, ReceiverOk;
    forall w | w in y.out[k]
      ensures Honest(y.log, y.e.rcv, w)
    {
      var i :| 0 <= i < |y.out[k]| && y.out[k][i] == w;
      assert Honest(y.log, y.e.rcv, y.out[k][i]);
    }
    ReceiveSafe(x, y, y.out[k]);
    HonestGrows(x.log, x.e.rcv, x.log, ReceiveU(x.e, y.out[k]).rcv, x.out);
  }

  /** Settings that may change in a run do not take part in the invariant. */
  lemma SettingsSafe(x: Node<seq<Wire>>, y: Node<seq<Wire>>, cfg: Config)
    requires Pair(x, y)
    requires cfg.mtu == x.e.cfg.mtu && cfg.mss == x.e.cfg.mss && cfg.sndWnd == x.e.cfg.sndWnd
             && cfg.rcvWnd == x.e.cfg.rcvWnd && cfg.stream == x.e.cfg.stream
    ensures Pair(x.(e := x.e.(cfg := cfg)), y)
  {
    hide Held, SndInv, RcvInv, NothingLost, AllHonest, Matches, FragData, AllFragments, Concat;
  }

  /** The clock does not take part in it either. */
  lemma ClockSafe(x: Node<seq<Wire>>, y: Node<seq<Wire>>, clock: Clock)
    requires Pair(x, y)
    ensures Pair(x.(e := x.e.(clock := clock)), y)
  {
    hide Held, SndInv, RcvInv, NothingLost, AllHonest, Matches, FragData, AllFragments, Concat;
  }

  lemma UpdateSafe(x: Node<seq<Wire>>, y: Node<seq<Wire>>, now: Word)
    requires Pair(x, y)
    ensures Pair(AfterFlush(x, Update(Unbounded, x.e, now)), y)
  {
    hide Pair, Flush, Advance, Packets;
    var (clock, due) := Advance(x.e.clock, x.e.cfg.interval, now);
    var x1 := x.(e := x.e.(clock := clock));
    ClockSafe(x, y, clock);
    FlushSafe(x1, y);
    if !due {
      assert Packets(x.e.cfg.mtu, []) == [] by {
        NoPackets(x.e.cfg.mtu);
      }
      assert x.out + [] == x.out && x.log + [] == x.log;
    }
  }

  lemma NoPackets(mtu: nat)
    ensures Packets(mtu, []) == []
  {
  }

  /** Every action of either side keeps the invariant. */
  lemma StepSafe(x: Node<seq<Wire>>, y: Node<seq<Wire>>, act: Action)
    requires Pair(x, y)
    ensures Pair(StepU(x, y, act), y)
  {
    hide Pair, Send, Recv, Flush, Update, ReceiveU, Packets;
    NoPackets(x.e.cfg.mtu);
    assert x.out + [] == x.out && x.log + [] == x.log && x.sent + [] == x.sent && x.got + [] == x.got;
    match act
    case DoSend(data) =>
      SendSafe(x, y, data);
      SendNoLog(x.e.cfg, x.e.snd.queue, data);
    case DoRecv(len) =>
      RecvSafe(x, y, len);
      RecvFrame(x.e, len);
    case DoFlush => FlushSafe(x, y);
    case DoUpdate(now) => UpdateSafe(x, y, now);
    case DoNoDelay(nodelay, interval, resend, nc) =>
      SettingsSafe(x, y, NoDelay(x.e.cfg, nodelay, interval, resend, nc));
    case DoSetConv(conv) => SettingsSafe(x, y, x.e.cfg.(conv := conv));
    case Deliver(k) =>
      if k < |y.out| {
        DeliverSafe(x, y, k);
      }
  }

  lemma SendNoLog(cfg: Config, queue: seq<Frag>, data: bytes)
    ensures Logged(queue, Send(cfg, queue, data).queue) == []
  {
  }

  lemma RecvFrame(e: Endpoint, len: int)
    ensures Recv(Unbounded, e, len).e.snd == e.snd
  {
  }
}
