/**
  What `ikcp_input` does with a packet, read off its segments and off the control block before and
  after it: what is acknowledged leaves `snd_buf`, what fits is kept and will be acknowledged, round
  trips are measured, and the congestion window opens.
*/
module Incoming {
  import opened Serial
  import opened WireFormat
  import opened Endpoints
  import opened Invariants
  import opened Timers
  import opened Congestion

  ghost predicate Sane(ar: Arith, e: Endpoint, ws: seq<Wire>) {
    EndpointInv(ar, e) && forall w | w in ws :: WellFormed(w) && InRange(ar, w)
  }

  lemma SaneStep(ar: Arith, e: Endpoint, ws: seq<Wire>)
    requires Sane(ar, e, ws) && ws != []
    ensures Sane(ar, InputSegment(ar, e, ws[0]), ws[1..]) && WellFormed(ws[0]) && InRange(ar, ws[0])
    ensures 0 <= ar.Diff(InputSegment(ar, e, ws[0]).snd.una, e.snd.una) <= ar.Diff(e.snd.nxt, e.snd.una)
    ensures SameSettings(e, InputSegment(ar, e, ws[0]))
  {
    hide EndpointInv, ParseUna, ParseAck, InputPush, UpdateAck, Arith.Diff;
    InputSegmentKeeps(ar, e, ws[0]);
  }

  /* ---------------------------------------------------------------- the peer's window, and its question */

  /** The last window in the packet counts; and a question for ours will be answered. */
  lemma {:induction false} InputTells(ar: Arith, e: Endpoint, p: Parsed)
    requires forall w | w in p.segs :: WellFormed(w)
    ensures var r := InputParsed(ar, e, p);
            && r.rmtWnd == (if p.segs == [] then e.rmtWnd else p.segs[|p.segs| - 1].wnd)
            && r.probe == e.probe.(tell := e.probe.tell || exists w :: w in p.segs && w.cmd == CMD_WASK)
            && r.cfg == e.cfg && r.clock == e.clock && r.xmit == e.xmit && r.dead == e.dead
  {
    hide InputSegments, FoldMaxAck, ParseFastack, Grow;
    SegmentsTell(ar, e, p.segs);
  }

  lemma {:induction false} SegmentsTell(ar: Arith, e: Endpoint, ws: seq<Wire>)
    requires forall w | w in ws :: WellFormed(w)
    ensures var r := InputSegments(ar, e, ws);
            && r.rmtWnd == (if ws == [] then e.rmtWnd else ws[|ws| - 1].wnd)
            && r.probe == e.probe.(tell := e.probe.tell || exists w :: w in ws && w.cmd == CMD_WASK)
    decreases |ws|
  {
    hide InputUna, InputAck, InputPush, UpdateAck;
    if ws != [] {
      SegmentsTell(ar, InputSegment(ar, e, ws[0]), ws[1..]);
      assert forall w :: w in ws <==> w == ws[0] || w in ws[1..];
    }
  }

  /* ---------------------------------------------------------------- round trips */

  /** The round-trip times in a packet: of every acknowledgement whose time is not after ours. */
  function Samples(now: Word, ws: seq<Wire>): seq<int> {
    if ws == [] then []
    else (if ws[0].cmd == CMD_ACK && TimeDiff(now, ws[0].ts) >= 0 then [TimeDiff(now, ws[0].ts)] else [])
         + Samples(now, ws[1..])
  }

  /** The estimator of section 2 of RFC 6298 over some samples. */
  function SmoothedAll(cfg: Config, t: Rtt, samples: seq<int>): Rtt
    decreases |samples|
  {
    if samples == [] || samples[0] < 0 then t else SmoothedAll(cfg, Smoothed(cfg, t, samples[0]), samples[1..])
  }

  lemma {:induction false} InputMeasures(ar: Arith, e: Endpoint, p: Parsed, bound: nat)
    requires RttBounded(e.rtt, bound) && bound <= MAX_SAMPLE && e.cfg.interval <= 5000 && e.cfg.minrto <= RTO_MAX
    requires forall x | x in Samples(e.clock.current, p.segs) :: x <= bound
    ensures InputParsed(ar, e, p).rtt == SmoothedAll(e.cfg, e.rtt, Samples(e.clock.current, p.segs))
  {
    hide InputSegments, FoldMaxAck, ParseFastack, Grow, Samples, SmoothedAll;
    SegmentsMeasure(ar, e, p.segs, bound);
  }

  lemma OneMeasures(ar: Arith, e: Endpoint, w: Wire)
    ensures var (r, rtt) := (InputSegment(ar, e, w), TimeDiff(e.clock.current, w.ts));
            && r.rtt == (if w.cmd == CMD_ACK && rtt >= 0 then UpdateAck(e.cfg, e.rtt, rtt) else e.rtt)
            && r.cfg == e.cfg && r.clock == e.clock
  {
    hide InputUna, InputAck, InputPush, UpdateAck, TimeDiff;
  }

  lemma {:induction false} SegmentsMeasure(ar: Arith, e: Endpoint, ws: seq<Wire>, bound: nat)
    requires RttBounded(e.rtt, bound) && bound <= MAX_SAMPLE && e.cfg.interval <= 5000 && e.cfg.minrto <= RTO_MAX
    requires forall x | x in Samples(e.clock.current, ws) :: x <= bound
    ensures InputSegments(ar, e, ws).rtt == SmoothedAll(e.cfg, e.rtt, Samples(e.clock.current, ws))
    decreases |ws|
  {
    hide InputUna, InputAck, InputPush, UpdateAck, Smoothed, TimeDiff, InputSegment;
    if ws != [] {
      var e1 := InputSegment(ar, e, ws[0]);
      OneMeasures(ar, e, ws[0]);
      var now := e.clock.current;
      var rtt := TimeDiff(now, ws[0].ts);
      if ws[0].cmd == CMD_ACK && rtt >= 0 {
        assert rtt in Samples(now, ws);
        UpdateAckExact(e.cfg, e.rtt, rtt, bound);
        assert ([rtt] + Samples(now, ws[1..]))[1..] == Samples(now, ws[1..]);
      } else {
        assert Samples(now, ws) == Samples(now, ws[1..]);
      }
      assert forall x | x in Samples(now, ws[1..]) :: x in Samples(now, ws);
      SegmentsMeasure(ar, e1, ws[1..], bound);
    }
  }

  /* ---------------------------------------------------------------- the congestion window */

  /** A well-formed packet that moves `snd_una` opens the window, up to the one the peer has told; no other does. */
  lemma InputGrows(ar: Arith, e: Endpoint, p: Parsed)
    requires Sane(ar, e, p.segs) && e.cfg.mss <= MAX_MSS && WindowOk(e.cong, e.cfg.mss)
    ensures var r := InputParsed(ar, e, p);
            if p.code == 0 && ar.Diff(r.snd.una, e.snd.una) > 0 && e.cong.cwnd < r.rmtWnd then
              var (cwnd, incr) := Growth(e.cong, e.cfg.mss);
              && r.cong.ssthresh == e.cong.ssthresh && r.cong.cwnd == Min(cwnd, r.rmtWnd)
              && r.cong.incr == if cwnd > r.rmtWnd then r.rmtWnd * e.cfg.mss else incr
            else r.cong == e.cong
  {
    hide EndpointInv, InputSegments, FoldMaxAck, ParseFastack, Grow, WindowOk, Growth, Arith.Diff;
    InputSegmentsKeeps(ar, e, p.segs);
    var e1 := InputSegments(ar, e, p.segs);
    WindowSize(ar, e1);
    GrowKeeps(e1.cong, e1.cfg.mss, e1.rmtWnd);
    if e1.cong.cwnd >= e1.rmtWnd {
      NoGrowth(e1.cong, e1.cfg.mss, e1.rmtWnd);
    }
    GrowthUp(e.cong, e.cfg.mss);
  }

  lemma WindowSize(ar: Arith, e: Endpoint)
    requires EndpointInv(ar, e)
    ensures e.rmtWnd <= 65535
  {
  }

  lemma NoGrowth(c: Cong, mss: pos, rmtWnd: nat)
    requires c.cwnd >= rmtWnd
    ensures Grow(c, mss, rmtWnd) == c
  {
  }

  lemma GrowthUp(c: Cong, mss: pos)
    ensures Growth(c, mss).0 >= 0
  {
    hide Step;
  }

  /* ---------------------------------------------------------------- acknowledgements */

  /** Not waiting for an acknowledgement: numbered and no longer in `snd_buf`. */
  predicate Settled(s: Snd, sn: nat) {
    forall x | x in s.buf :: x.w.sn != sn
  }

  ghost predicate Flying(ar: Arith, s: Snd, sn: nat) {
    0 <= ar.Diff(sn, s.una) < ar.Diff(s.nxt, s.una)
  }

  /** Nothing before `una` waits. */
  ghost predicate AllSettled(ar: Arith, s: Snd, una: nat) {
    forall x | x in s.buf :: ar.Diff(una, x.w.sn) <= 0
  }

  lemma SndFacts(ar: Arith, e: Endpoint)
    requires EndpointInv(ar, e)
    ensures ar.Is(e.snd.una) && ar.Is(e.snd.nxt) && 0 <= ar.Diff(e.snd.nxt, e.snd.una) <= 65535
    ensures forall x | x in e.snd.buf ::
              ar.Is(x.w.sn) && 0 <= ar.Diff(x.w.sn, e.snd.una) < ar.Diff(e.snd.nxt, e.snd.una)
    ensures forall i, j | 0 <= i < j < |e.snd.buf| ::
              ar.Diff(e.snd.buf[i].w.sn, e.snd.una) < ar.Diff(e.snd.buf[j].w.sn, e.snd.una)
  {
    hide Arith.Diff;
    var s := e.snd;
    forall x | x in s.buf
      ensures ar.Is(x.w.sn) && 0 <= ar.Diff(x.w.sn, s.una) < ar.Diff(s.nxt, s.una)
    {
      var i :| 0 <= i < |s.buf| && s.buf[i] == x;
      assert 0 <= Off(ar, s.una, s.buf[i]);
    }
    forall i, j | 0 <= i < j < |s.buf|
      ensures ar.Diff(s.buf[i].w.sn, s.una) < ar.Diff(s.buf[j].w.sn, s.una)
    {
      assert Off(ar, s.una, s.buf[i]) < Off(ar, s.una, s.buf[j]);
    }
  }

  /** A segment takes from `snd_buf` only what it acknowledges. */
  lemma SegmentTakes(ar: Arith, e: Endpoint, w: Wire)
    ensures var r := InputSegment(ar, e, w);
            && (forall x | x in r.snd.buf :: x in e.snd.buf)
            && (forall x | x in e.snd.buf && !(w.cmd == CMD_ACK && w.sn == x.w.sn) && ar.Diff(w.una, x.w.sn) <= 0 ::
                  x in r.snd.buf)
  {
    hide InputPush, UpdateAck, Arith.Diff, ParseUna, RemoveAcked;
    var s := e.snd;
    var k := ParseUnaSuffix(ar, s.buf, w.una);
    var s1 := InputUna(ar, s, w.una);
    var l := RemoveAckedShape(ar, s1.buf, w.sn);
    assert s.buf == s.buf[..k] + s1.buf;
    assert forall x | x in s.buf[..k] :: ar.Diff(w.una, x.w.sn) > 0;
    if l < |s1.buf| {
      assert s1.buf == s1.buf[..l] + [s1.buf[l]] + s1.buf[l + 1..];
    }
  }

  lemma UnaTakes(ar: Arith, e: Endpoint, una: nat)
    requires EndpointInv(ar, e) && 0 <= ar.Diff(una, e.snd.una)
    ensures AllSettled(ar, InputUna(ar, e.snd, una), una)
  {
    hide Arith.Diff, ParseUna, EndpointInv;
    SndFacts(ar, e);
    var s := e.snd;
    var k := ParseUnaSuffix(ar, s.buf, una);
    var s1 := InputUna(ar, s, una);
    forall x | x in s1.buf
      ensures ar.Diff(una, x.w.sn) <= 0
    {
      var i :| 0 <= i < |s1.buf| && s1.buf[i] == x;
      assert s.buf[k + i] == x && s.buf[k] in s.buf && x in s.buf;
      DiffRebase(ar, una, x.w.sn, s.una);
      DiffRebase(ar, una, s.buf[k].w.sn, s.una);
    }
  }

  /** What `una` acknowledges is gone at once. */
  lemma SegmentUna(ar: Arith, e: Endpoint, w: Wire)
    requires EndpointInv(ar, e) && 0 <= ar.Diff(w.una, e.snd.una)
    ensures AllSettled(ar, InputSegment(ar, e, w).snd, w.una)
  {
    hide InputPush, UpdateAck, Arith.Diff, ParseUna, RemoveAcked, EndpointInv;
    UnaTakes(ar, e, w.una);
    var s1 := InputUna(ar, e.snd, w.una);
    var l := RemoveAckedShape(ar, s1.buf, w.sn);
    forall x | x in InputSegment(ar, e, w).snd.buf
      ensures x in s1.buf
    {
      if w.cmd == CMD_ACK && InFlight(ar, s1, w.sn) && l < |s1.buf| {
        assert x in s1.buf[..l] + s1.buf[l + 1..];
      }
    }
  }

  lemma {:induction false} WithoutNone(buf: seq<SndSeg>, sn: nat)
    ensures forall x | x in Without(buf, sn) :: x.w.sn != sn
  {
    if buf != [] {
      WithoutNone(buf[1..], sn);
    }
  }

  /** What an acknowledgement names is gone at once. */
  lemma SegmentAck(ar: Arith, e: Endpoint, w: Wire)
    requires EndpointInv(ar, e) && w.cmd == CMD_ACK && InRange(ar, w)
    ensures Settled(InputSegment(ar, e, w).snd, w.sn)
  {
    hide InputPush, UpdateAck, Arith.Diff, ParseUna, ParseAck, Without, SndInv;
    UnaKeeps(ar, e, w.una);
    var s1 := InputUna(ar, e.snd, w.una);
    ParseAckIsRemoval(ar, s1, FlightLimit(e.cfg), w.sn);
    WithoutNone(s1.buf, w.sn);
  }

  lemma {:induction false} SegmentsTake(ar: Arith, e: Endpoint, ws: seq<Wire>)
    ensures var r := InputSegments(ar, e, ws);
            && (forall x | x in r.snd.buf :: x in e.snd.buf)
            && (forall x | x in e.snd.buf
                  && forall w | w in ws :: !(w.cmd == CMD_ACK && w.sn == x.w.sn) && ar.Diff(w.una, x.w.sn) <= 0 ::
                  x in r.snd.buf)
    decreases |ws|
  {
    hide InputSegment, Arith.Diff;
    if ws != [] {
      SegmentTakes(ar, e, ws[0]);
      SegmentsTake(ar, InputSegment(ar, e, ws[0]), ws[1..]);
      assert forall w | w in ws[1..] :: w in ws;
    }
  }

  lemma {:induction false} SegmentsAck(ar: Arith, e: Endpoint, ws: seq<Wire>, w: Wire)
    requires Sane(ar, e, ws) && w in ws && w.cmd == CMD_ACK
    ensures Settled(InputSegments(ar, e, ws).snd, w.sn)
    decreases |ws|
  {
    hide InputSegment, Arith.Diff, EndpointInv;
    var e1 := InputSegment(ar, e, ws[0]);
    SaneStep(ar, e, ws);
    if w == ws[0] {
      SegmentAck(ar, e, w);
      SegmentsTake(ar, e1, ws[1..]);
    } else {
      SegmentsAck(ar, e1, ws[1..], w);
    }
  }

  lemma {:induction false} SegmentsUna(ar: Arith, e: Endpoint, ws: seq<Wire>, w: Wire)
    requires Sane(ar, e, ws) && w in ws
    requires AllSettled(ar, e.snd, w.una) || 0 <= ar.Diff(w.una, e.snd.una) <= ar.Diff(e.snd.nxt, e.snd.una)
    ensures AllSettled(ar, InputSegments(ar, e, ws).snd, w.una)
    decreases |ws|
  {
    hide InputSegment, Arith.Diff, EndpointInv;
    var e1 := InputSegment(ar, e, ws[0]);
    SaneStep(ar, e, ws);
    SegmentTakes(ar, e, ws[0]);
    SegmentsTake(ar, e1, ws[1..]);
    if !AllSettled(ar, e.snd, w.una) {
      if w == ws[0] {
        SegmentUna(ar, e, w);
      } else {
        StillAhead(ar, e, e1, w.una);
        SegmentsUna(ar, e1, ws[1..], w);
      }
    }
  }

  /** A number ahead of `snd_una` stays ahead, or is passed. */
  lemma StillAhead(ar: Arith, e: Endpoint, e1: Endpoint, una: nat)
    requires EndpointInv(ar, e) && EndpointInv(ar, e1) && e1.snd.nxt == e.snd.nxt
    requires 0 <= ar.Diff(e1.snd.una, e.snd.una) <= ar.Diff(e.snd.nxt, e.snd.una)
    requires 0 <= ar.Diff(una, e.snd.una) <= ar.Diff(e.snd.nxt, e.snd.una)
    ensures AllSettled(ar, e1.snd, una) || 0 <= ar.Diff(una, e1.snd.una) <= ar.Diff(e1.snd.nxt, e1.snd.una)
  {
    hide Arith.Diff, EndpointInv;
    SndFacts(ar, e1);
    DiffRebase(ar, una, e1.snd.una, e.snd.una);
    DiffRebase(ar, e.snd.nxt, e1.snd.una, e.snd.una);
    if ar.Diff(una, e1.snd.una) < 0 {
      SndFacts(ar, e);
      forall x | x in e1.snd.buf
        ensures ar.Diff(una, x.w.sn) <= 0
      {
        DiffChain(ar, una, e1.snd.una, x.w.sn) by {
          DiffNegate(ar, x.w.sn, e1.snd.una);
        }
        DiffNegate(ar, x.w.sn, e1.snd.una);
      }
    }
  }

  /* ---------------------------------------------------------------- skipped segments */

  /** A number acknowledged in the packet lies beyond `sn`. */
  ghost predicate Passed(ar: Arith, ws: seq<Wire>, sn: nat) {
    exists w :: w in ws && w.cmd == CMD_ACK && ar.Diff(w.sn, sn) > 0
  }

  /** The numbers acknowledged in the packet are on their way. */
  ghost predicate AcksFlying(ar: Arith, s: Snd, ws: seq<Wire>) {
    forall w | w in ws && w.cmd == CMD_ACK :: Flying(ar, s, w.sn)
  }

  /** `m` is the latest of the acknowledged numbers, from `base` on, and of what it was before. */
  ghost predicate LatestOf(ar: Arith, base: nat, m: MaxAck, ws: seq<Wire>, r: MaxAck) {
    && (r.NoAck? <==> m.NoAck? && forall w | w in ws :: w.cmd != CMD_ACK)
    && (r.MaxAck? ==>
          && (r == m || exists w :: w in ws && w.cmd == CMD_ACK && w.sn == r.sn)
          && (m.MaxAck? ==> ar.Diff(m.sn, base) <= ar.Diff(r.sn, base))
          && forall w | w in ws && w.cmd == CMD_ACK :: ar.Diff(w.sn, base) <= ar.Diff(r.sn, base))
  }

  lemma {:induction false} FoldIsLatest(ar: Arith, base: nat, m: MaxAck, ws: seq<Wire>)
    requires m.MaxAck? ==> 0 <= ar.Diff(m.sn, base)
    requires forall w | w in ws && w.cmd == CMD_ACK :: 0 <= ar.Diff(w.sn, base)
    ensures LatestOf(ar, base, m, ws, FoldMaxAck(ar, m, ws))
    decreases |ws|
  {
    hide Arith.Diff;
    if ws != [] {
      var m1 := UpdateMaxAck(ar, m, ws[0]);
      if ws[0].cmd == CMD_ACK && m.MaxAck? {
        DiffRebase(ar, ws[0].sn, m.sn, base);
      }
      FoldIsLatest(ar, base, m1, ws[1..]);
      assert forall w :: w in ws <==> w == ws[0] || w in ws[1..];
    }
  }

  lemma {:induction false} BumpedAt(ar: Arith, base: nat, buf: seq<SndSeg>, sn: nat, i: nat)
    requires i < |buf| && 0 <= ar.Diff(sn, base) && ar.Is(sn)
    requires forall x | x in buf :: 0 <= ar.Diff(x.w.sn, base) && ar.Is(x.w.sn)
    requires forall i, j | 0 <= i < j < |buf| :: ar.Diff(buf[i].w.sn, base) < ar.Diff(buf[j].w.sn, base)
    ensures var r := BumpFastack(ar, buf, sn);
            |r| == |buf| && r[i] == buf[i].(fastack := if ar.Diff(sn, buf[i].w.sn) > 0 then Wrap(buf[i].fastack + 1)
                                                       else buf[i].fastack)
  {
    hide Arith.Diff;
    DiffRebase(ar, sn, buf[0].w.sn, base);
    DiffRebase(ar, sn, buf[i].w.sn, base);
    DiffZero(ar, sn, buf[0].w.sn);
    if i > 0 {
      assert ar.Diff(buf[0].w.sn, base) < ar.Diff(buf[i].w.sn, base);
      BumpedAt(ar, base, buf[1..], sn, i - 1);
    } else {
      BumpFastackSame(ar, buf, sn);
    }
  }

  /** The segment was there before, and is skipped once more if the packet passes it. */
  ghost predicate SkippedFrom(ar: Arith, e: Endpoint, p: Parsed, y: SndSeg) {
    exists x :: x in e.snd.buf
      && y == x.(fastack := if p.code == 0 && Passed(ar, p.segs, x.w.sn) then Wrap(x.fastack + 1) else x.fastack)
  }

  ghost predicate WasThere(e: Endpoint, y: SndSeg) {
    exists x :: x in e.snd.buf && y == x.(fastack := y.fastack)
  }

  predicate StillThere(r: Endpoint, x: SndSeg) {
    exists y :: y in r.snd.buf && y.w == x.w
  }

  predicate Unmentioned(ar: Arith, ws: seq<Wire>, x: SndSeg) {
    forall w | w in ws :: !(w.cmd == CMD_ACK && w.sn == x.w.sn) && ar.Diff(w.una, x.w.sn) <= 0
  }

  /**
    After a packet: what it acknowledges, by number or as a whole, no longer waits; what it does not
    acknowledge still does; and of that, exactly the segments before an acknowledged number have been
    skipped once more.
  */
  ghost predicate Acknowledged(ar: Arith, e: Endpoint, p: Parsed, r: Endpoint) {
    && (forall w | w in p.segs && w.cmd == CMD_ACK :: Settled(r.snd, w.sn))
    && (forall w | w in p.segs && 0 <= ar.Diff(w.una, e.snd.una) <= ar.Diff(e.snd.nxt, e.snd.una) ::
          AllSettled(ar, r.snd, w.una))
    && (forall x | x in e.snd.buf && Unmentioned(ar, p.segs, x) :: StillThere(r, x))
    && (forall y | y in r.snd.buf :: WasThere(e, y))
    && (AcksFlying(ar, e.snd, p.segs) ==> forall y | y in r.snd.buf :: SkippedFrom(ar, e, p, y))
  }

  lemma InputAcknowledges(ar: Arith, e: Endpoint, p: Parsed)
    requires Sane(ar, e, p.segs)
    ensures Acknowledged(ar, e, p, InputParsed(ar, e, p))
  {
    hide InputSegments, InputParsed, EndpointInv, Arith.Diff, Unmentioned, AcksFlying, Settled, AllSettled, SkippedFrom,
         WasThere, StillThere;
    var e1, r := InputSegments(ar, e, p.segs), InputParsed(ar, e, p);
    SegmentsAcked(ar, e, p.segs);
    FastackShape(ar, e, p);
    KeptShape(ar, e, p);
    forall w | w in p.segs && w.cmd == CMD_ACK
      ensures Settled(r.snd, w.sn)
    {
      SettledShape(e1.snd, r.snd, w.sn);
    }
    forall w | w in p.segs && 0 <= ar.Diff(w.una, e.snd.una) <= ar.Diff(e.snd.nxt, e.snd.una)
      ensures AllSettled(ar, r.snd, w.una)
    {
      AllSettledShape(ar, e1.snd, r.snd, w.una);
    }
    if AcksFlying(ar, e.snd, p.segs) {
      FastackExact(ar, e, p);
    }
  }

  lemma KeptShape(ar: Arith, e: Endpoint, p: Parsed)
    ensures var r := InputParsed(ar, e, p);
            && (forall x | x in e.snd.buf && Unmentioned(ar, p.segs, x) :: StillThere(r, x))
            && (forall y | y in r.snd.buf :: WasThere(e, y))
  {
    hide InputSegments, InputParsed, Arith.Diff, Unmentioned;
    var e1, r := InputSegments(ar, e, p.segs), InputParsed(ar, e, p);
    SegmentsTake(ar, e, p.segs);
    MentionIs(ar, e, p.segs);
    FastackShape(ar, e, p);
    forall x | x in e1.snd.buf
      ensures StillThere(r, x)
    {
      var i :| 0 <= i < |e1.snd.buf| && e1.snd.buf[i] == x;
      assert r.snd.buf[i] in r.snd.buf;
    }
    forall y | y in r.snd.buf
      ensures WasThere(e, y)
    {
      var i :| 0 <= i < |r.snd.buf| && r.snd.buf[i] == y;
      assert e1.snd.buf[i] in e1.snd.buf;
    }
  }

  lemma MentionIs(ar: Arith, e: Endpoint, ws: seq<Wire>)
    ensures forall x | x in e.snd.buf && Unmentioned(ar, ws, x) :: x in InputSegments(ar, e, ws).snd.buf
  {
    hide InputSegments, Arith.Diff;
    SegmentsTake(ar, e, ws);
  }

  lemma SegmentsAcked(ar: Arith, e: Endpoint, ws: seq<Wire>)
    requires Sane(ar, e, ws)
    ensures var r := InputSegments(ar, e, ws);
            && (forall w | w in ws && w.cmd == CMD_ACK :: Settled(r.snd, w.sn))
            && (forall w | w in ws && 0 <= ar.Diff(w.una, e.snd.una) <= ar.Diff(e.snd.nxt, e.snd.una) ::
                  AllSettled(ar, r.snd, w.una))
  {
    hide InputSegments, Arith.Diff, EndpointInv, Settled, AllSettled;
    forall w | w in ws && w.cmd == CMD_ACK
      ensures Settled(InputSegments(ar, e, ws).snd, w.sn)
    {
      SegmentsAck(ar, e, ws, w);
    }
    forall w | w in ws && 0 <= ar.Diff(w.una, e.snd.una) <= ar.Diff(e.snd.nxt, e.snd.una)
      ensures AllSettled(ar, InputSegments(ar, e, ws).snd, w.una)
    {
      SegmentsUna(ar, e, ws, w);
    }
  }

  /** The end of a packet only counts skips. */
  lemma FastackShape(ar: Arith, e: Endpoint, p: Parsed)
    ensures var a, b := InputSegments(ar, e, p.segs).snd, InputParsed(ar, e, p).snd;
            && |b.buf| == |a.buf| && b.una == a.una && b.nxt == a.nxt
            && forall i | 0 <= i < |a.buf| :: b.buf[i] == a.buf[i].(fastack := b.buf[i].fastack)
  {
    hide InputSegments, FoldMaxAck, BumpFastack, Grow, Arith.Diff;
    var a := InputSegments(ar, e, p.segs).snd;
    var m := FoldMaxAck(ar, NoAck, p.segs);
    if m.MaxAck? {
      BumpFastackSame(ar, a.buf, m.sn);
    }
  }

  lemma SettledShape(a: Snd, b: Snd, sn: nat)
    requires Settled(a, sn) && |b.buf| == |a.buf| && forall i | 0 <= i < |a.buf| :: b.buf[i].w == a.buf[i].w
    ensures Settled(b, sn)
  {
  }

  lemma AllSettledShape(ar: Arith, a: Snd, b: Snd, una: nat)
    requires AllSettled(ar, a, una) && |b.buf| == |a.buf| && forall i | 0 <= i < |a.buf| :: b.buf[i].w == a.buf[i].w
    ensures AllSettled(ar, b, una)
  {
    hide Arith.Diff;
  }

  lemma FastackExact(ar: Arith, e: Endpoint, p: Parsed)
    requires Sane(ar, e, p.segs) && AcksFlying(ar, e.snd, p.segs)
    ensures forall y | y in InputParsed(ar, e, p).snd.buf :: SkippedFrom(ar, e, p, y)
  {
    hide InputSegments, FoldMaxAck, BumpFastack, Grow, EndpointInv, Arith.Diff, SkippedFrom;
    var e1, r := InputSegments(ar, e, p.segs), InputParsed(ar, e, p);
    var m := FoldMaxAck(ar, NoAck, p.segs);
    SegmentsTake(ar, e, p.segs);
    FastackShape(ar, e, p);
    FoldIsLatest(ar, e.snd.una, NoAck, p.segs);
    forall i | 0 <= i < |r.snd.buf|
      ensures SkippedFrom(ar, e, p, r.snd.buf[i])
    {
      var x := e1.snd.buf[i];
      assert x in e1.snd.buf;
      FastackAt(ar, e, p, i);
      SkippedWitness(ar, e, p, x, r.snd.buf[i]);
    }
  }

  lemma SkippedWitness(ar: Arith, e: Endpoint, p: Parsed, x: SndSeg, y: SndSeg)
    requires x in e.snd.buf
    requires y == x.(fastack := if p.code == 0 && Passed(ar, p.segs, x.w.sn) then Wrap(x.fastack + 1) else x.fastack)
    ensures SkippedFrom(ar, e, p, y)
  {
  }

  /** One segment that is left. */
  lemma FastackAt(ar: Arith, e: Endpoint, p: Parsed, i: nat)
    requires Sane(ar, e, p.segs) && AcksFlying(ar, e.snd, p.segs)
    requires i < |InputSegments(ar, e, p.segs).snd.buf| == |InputParsed(ar, e, p).snd.buf|
    ensures var x, y := InputSegments(ar, e, p.segs).snd.buf[i], InputParsed(ar, e, p).snd.buf[i];
            y == x.(fastack := if p.code == 0 && Passed(ar, p.segs, x.w.sn) then Wrap(x.fastack + 1) else x.fastack)
  {
    hide InputSegments, FoldMaxAck, BumpFastack, Grow, EndpointInv, Arith.Diff;
    var una, e1 := e.snd.una, InputSegments(ar, e, p.segs);
    var m, x := FoldMaxAck(ar, NoAck, p.segs), e1.snd.buf[i];
    SndFacts(ar, e);
    InputSegmentsKeeps(ar, e, p.segs);
    SndFacts(ar, e1);
    SegmentsTake(ar, e, p.segs);
    FoldIsLatest(ar, una, NoAck, p.segs);
    assert x in e1.snd.buf && x in e.snd.buf;
    PassedIs(ar, e, p.segs, m, x.w.sn);
    if m.MaxAck? && p.code == 0 {
      DiffRebase(ar, m.sn, e1.snd.una, una);
      DiffRebase(ar, m.sn, e.snd.nxt, una);
      DiffRebase(ar, x.w.sn, e1.snd.una, una);
      DiffRebase(ar, m.sn, x.w.sn, una);
      if InFlight(ar, e1.snd, m.sn) {
        Ordered(ar, e1, una);
        BumpedAt(ar, una, e1.snd.buf, m.sn, i);
      }
    }
  }

  lemma Ordered(ar: Arith, e1: Endpoint, una: nat)
    requires EndpointInv(ar, e1) && 0 <= ar.Diff(e1.snd.una, una) && 0 <= ar.Diff(e1.snd.nxt, una)
    requires forall x | x in e1.snd.buf :: 0 <= ar.Diff(x.w.sn, una)
    ensures forall i, j | 0 <= i < j < |e1.snd.buf| ::
              ar.Diff(e1.snd.buf[i].w.sn, una) < ar.Diff(e1.snd.buf[j].w.sn, una)
  {
    hide EndpointInv, Arith.Diff;
    SndFacts(ar, e1);
    forall i, j | 0 <= i < j < |e1.snd.buf|
      ensures ar.Diff(e1.snd.buf[i].w.sn, una) < ar.Diff(e1.snd.buf[j].w.sn, una)
    {
      assert e1.snd.buf[i] in e1.snd.buf && e1.snd.buf[j] in e1.snd.buf;
      DiffRebase(ar, e1.snd.buf[i].w.sn, e1.snd.una, una);
      DiffRebase(ar, e1.snd.buf[j].w.sn, e1.snd.una, una);
    }
  }

  /** Passed by some acknowledged number is passed by the latest. */
  lemma PassedIs(ar: Arith, e: Endpoint, ws: seq<Wire>, m: MaxAck, sn: nat)
    requires AcksFlying(ar, e.snd, ws) && LatestOf(ar, e.snd.una, NoAck, ws, m) && 0 <= ar.Diff(sn, e.snd.una)
    ensures Passed(ar, ws, sn) <==> m.MaxAck? && ar.Diff(m.sn, sn) > 0
    ensures m.MaxAck? ==> Flying(ar, e.snd, m.sn) && exists w :: w in ws && w.sn == m.sn
  {
    hide Arith.Diff;
    var una := e.snd.una;
    forall w | w in ws && w.cmd == CMD_ACK
      ensures ar.Diff(w.sn, sn) == ar.Diff(w.sn, una) - ar.Diff(sn, una)
    {
      DiffRebase(ar, w.sn, sn, una);
    }
    if m.MaxAck? {
      var w :| w in ws && w.cmd == CMD_ACK && w.sn == m.sn;
      DiffRebase(ar, m.sn, sn, una);
    }
  }

  /* ---------------------------------------------------------------- data */

  predicate In(r: Rcv, x: Wire) {
    x in r.queue || x in r.buf
  }

  ghost predicate Has(r: Rcv, sn: nat) {
    exists x :: In(r, x) && x.sn == sn
  }

  lemma DrainIn(ar: Arith, wnd: nat, r: Rcv)
    requires ar.Is(r.nxt)
    ensures forall x :: In(Drain(ar, wnd, r), x) <==> In(r, x)
    ensures Drain(ar, wnd, r).acks == r.acks
  {
    var k := DrainShape(ar, wnd, r);
    assert r.buf == r.buf[..k] + r.buf[k..];
  }

  /** A data segment loses nothing and adds nothing but itself. */
  lemma PushIn(ar: Arith, wnd: nat, r: Rcv, w: Wire)
    requires ar.Is(r.nxt)
    ensures var r' := InputPush(ar, wnd, r, w);
            && (forall x | In(r, x) :: In(r', x)) && (forall x | In(r', x) :: In(r, x) || x == w)
            && (r'.acks == r.acks || r'.acks == r.acks + [Ack(w.sn, w.ts)])
  {
    hide Drain, Insert, Arith.Diff, Arith.Norm;
    var i := InsertElements(ar, r.buf, w);
    DrainIn(ar, wnd, r.(acks := r.acks + [Ack(w.sn, w.ts)], buf := Insert(ar, r.buf, w)));
  }

  /** `rcv_nxt` moves on by what the queue grows, and never more than a window beyond where it was at `base`. */
  ghost predicate Since(ar: Arith, base: Rcv, r: Rcv, wnd: nat) {
    && RcvInv(ar, base, wnd) && RcvInv(ar, r, wnd) && |base.queue| <= |r.queue|
    && ar.Diff(r.nxt, base.nxt) == |r.queue| - |base.queue|
  }

  lemma PushSince(ar: Arith, base: Rcv, r: Rcv, wnd: nat, w: Wire)
    requires Since(ar, base, r, wnd) && 2 * wnd < TWO31 - 65536 && InRange(ar, w)
    ensures Since(ar, base, InputPush(ar, wnd, r, w), wnd)
  {
    hide Drain, Insert, Arith.Diff, Arith.Norm, RcvOrder;
    InputPushKeeps(ar, wnd, r, w);
    var r' := InputPush(ar, wnd, r, w);
    var r1 := r.(acks := r.acks + [Ack(w.sn, w.ts)], buf := Insert(ar, r.buf, w));
    var k := DrainShape(ar, wnd, r1);
    DiffAdvance(ar, r.nxt, k, base.nxt) by {
      assert r' == Drain(ar, wnd, r1) ==> |r'.queue| == |r.queue| + k <= wnd;
      if |r.queue| + k > wnd {
        DrainBound(ar, wnd, r1);
      }
    }
  }

  lemma {:induction false} DrainBound(ar: Arith, wnd: nat, r: Rcv)
    requires |r.queue| <= wnd
    ensures |Drain(ar, wnd, r).queue| <= wnd
    decreases |r.buf|
  {
    if r.buf != [] && r.buf[0].sn == r.nxt && |r.queue| < wnd {
      DrainBound(ar, wnd, DrainOne(ar, r));
    }
  }

  /** What lies in the window at `base` is there after its segment, whatever came before. */
  lemma PushHas(ar: Arith, base: Rcv, r: Rcv, wnd: nat, w: Wire)
    requires Since(ar, base, r, wnd) && 2 * wnd < TWO31 - 65536 && InRange(ar, w) && w.cmd == CMD_PUSH
    requires 2 * wnd - TWO31 <= ar.Diff(w.sn, base.nxt) < wnd
    ensures var r' := InputPush(ar, wnd, r, w);
            r'.acks == r.acks + [Ack(w.sn, w.ts)] && (ar.Diff(w.sn, base.nxt) >= 0 ==> Has(r', w.sn))
  {
    hide Drain, Insert, Arith.Diff, Arith.Norm;
    var moved, off := ar.Diff(r.nxt, base.nxt), ar.Diff(w.sn, base.nxt);
    DiffZero(ar, base.nxt, base.nxt);
    DiffAdvance(ar, r.nxt, wnd, base.nxt);
    Behind(ar, w.sn, r.nxt, base.nxt);
    Behind(ar, w.sn, ar.Norm(r.nxt + wnd), base.nxt);
    var r1 := r.(acks := r.acks + [Ack(w.sn, w.ts)], buf := Insert(ar, r.buf, w));
    DrainIn(ar, wnd, r1);
    var i := InsertElements(ar, r.buf, w);
    if off >= moved {
      assert In(r1, r1.buf[i]);
      assert In(Drain(ar, wnd, r1), r1.buf[i]);
    } else if off >= 0 {
      var d := moved - off;
      var x := r.queue[|r.queue| - d];
      assert ar.Diff(r.nxt, x.sn) == d;
      DiffZero(ar, x.sn, w.sn);
      SameNumber(ar, r.nxt, x.sn, w.sn);
      assert In(r, x);
    }
  }

  /** Differences from a common base, one of them possibly behind it. */
  lemma Behind(ar: Arith, x: int, y: int, base: int)
    requires ar.Bits32? ==> 0 <= ar.Diff(y, base) && -TWO31 <= ar.Diff(x, base) - ar.Diff(y, base)
    ensures ar.Diff(x, y) == ar.Diff(x, base) - ar.Diff(y, base)
  {
    if ar.Bits32? {
      var k := SignedShape(x - base);
      var l := SignedShape(y - base);
      SignedUnique(x - y, k - l, ar.Diff(x, base) - ar.Diff(y, base));
    }
  }

  lemma SameNumber(ar: Arith, nxt: nat, x: nat, y: nat)
    requires ar.Is(x) && ar.Is(y) && ar.Diff(nxt, x) == -ar.Diff(y, nxt) && ar.Diff(y, nxt) < 0
    ensures x == y
  {
    if ar.Bits32? {
      var k := SignedShape(nxt - x);
      var l := SignedShape(y - nxt);
    }
  }

  /** An acknowledgement for one of these data segments. */
  predicate Asked(ws: seq<Wire>, a: Ack) {
    exists w :: w in ws && w.cmd == CMD_PUSH && a == Ack(w.sn, w.ts)
  }

  /**
    After a packet: nothing received is lost; every data segment that lies in the window, or has come
    before, is going to be acknowledged with its number and time; and what lay in the window is there.
  */
  ghost predicate Received(ar: Arith, wnd: nat, r: Rcv, ws: seq<Wire>, r': Rcv) {
    && (forall x | In(r, x) :: In(r', x)) && (forall x | In(r', x) :: In(r, x) || (x in ws && x.cmd == CMD_PUSH))
    && r.acks <= r'.acks
    && (forall i | |r.acks| <= i < |r'.acks| ::
          Asked(ws, r'.acks[i]))
    && (forall w | w in ws && w.cmd == CMD_PUSH && 2 * wnd - TWO31 <= ar.Diff(w.sn, r.nxt) < wnd ::
          Ack(w.sn, w.ts) in r'.acks && (ar.Diff(w.sn, r.nxt) >= 0 ==> Has(r', w.sn)))
  }

  lemma InputReceives(ar: Arith, e: Endpoint, p: Parsed)
    requires Sane(ar, e, p.segs)
    ensures Received(ar, e.cfg.rcvWnd, e.rcv, p.segs, InputParsed(ar, e, p).rcv)
  {
    hide InputSegments, FoldMaxAck, ParseFastack, Grow, Received, EndpointInv;
    SinceSelf(ar, e);
    ReceivedSelf(ar, e.cfg.rcvWnd, e.rcv);
    SegmentsReceive(ar, e.rcv, e, [], p.segs);
    assert [] + p.segs == p.segs;
  }

  lemma SinceSelf(ar: Arith, e: Endpoint)
    requires EndpointInv(ar, e)
    ensures Since(ar, e.rcv, e.rcv, e.cfg.rcvWnd)
  {
    hide Arith.Diff, RcvOrder;
    DiffZero(ar, e.rcv.nxt, e.rcv.nxt);
  }

  lemma ReceivedSelf(ar: Arith, wnd: nat, r: Rcv)
    ensures Received(ar, wnd, r, [], r)
  {
  }

  lemma {:induction false} SegmentsReceive(ar: Arith, base: Rcv, e: Endpoint, before: seq<Wire>, ws: seq<Wire>)
    requires Sane(ar, e, ws) && Since(ar, base, e.rcv, e.cfg.rcvWnd)
    requires Received(ar, e.cfg.rcvWnd, base, before, e.rcv)
    ensures Received(ar, e.cfg.rcvWnd, base, before + ws, InputSegments(ar, e, ws).rcv)
    ensures Since(ar, base, InputSegments(ar, e, ws).rcv, e.cfg.rcvWnd)
    decreases |ws|
  {
    hide Arith.Diff, EndpointInv, Since, Received, InputUna, InputAck, InputPush, UpdateAck;
    if ws == [] {
      assert before + [] == before;
    } else {
      var w, e1 := ws[0], InputSegment(ar, e, ws[0]);
      SaneStep(ar, e, ws);
      WindowBound(ar, e);
      if w.cmd == CMD_PUSH {
        PushSince(ar, base, e.rcv, e.cfg.rcvWnd, w);
        PushReceives(ar, base, e.rcv, e.cfg.rcvWnd, before, w);
      } else {
        OtherReceives(ar, base, e.rcv, e.cfg.rcvWnd, before, w);
      }
      assert (before + [w]) + ws[1..] == before + ws;
      SegmentsReceive(ar, base, e1, before + [w], ws[1..]);
    }
  }

  lemma WindowBound(ar: Arith, e: Endpoint)
    requires EndpointInv(ar, e)
    ensures 2 * e.cfg.rcvWnd < TWO31 - 65536
  {
  }

  lemma OtherReceives(ar: Arith, base: Rcv, r: Rcv, wnd: nat, before: seq<Wire>, w: Wire)
    requires Received(ar, wnd, base, before, r) && w.cmd != CMD_PUSH
    ensures Received(ar, wnd, base, before + [w], r)
  {
    hide Arith.Diff, In, Has;
    assert forall x :: x in before + [w] <==> x in before || x == w;
    forall i | |base.acks| <= i < |r.acks|
      ensures Asked(before + [w], r.acks[i])
    {
      assert Asked(before, r.acks[i]);
    }
  }

  lemma PushReceives(ar: Arith, base: Rcv, r: Rcv, wnd: nat, before: seq<Wire>, w: Wire)
    requires Received(ar, wnd, base, before, r) && Since(ar, base, r, wnd) && w.cmd == CMD_PUSH && InRange(ar, w)
    requires 2 * wnd < TWO31 - 65536
    ensures Received(ar, wnd, base, before + [w], InputPush(ar, wnd, r, w))
  {
    hide Arith.Diff, InputPush, In, RcvOrder;
    var all, r' := before + [w], InputPush(ar, wnd, r, w);
    assert forall x :: x in all <==> x in before || x == w;
    PushIn(ar, wnd, r, w);
    if 2 * wnd - TWO31 <= ar.Diff(w.sn, base.nxt) < wnd {
      PushHas(ar, base, r, wnd, w);
    }
    forall sn | Has(r, sn)
      ensures Has(r', sn)
    {
      var x :| In(r, x) && x.sn == sn;
      assert In(r', x);
    }
    forall i | |base.acks| <= i < |r'.acks|
      ensures Asked(all, r'.acks[i])
    {
      if i < |r.acks| {
        assert r'.acks[i] == r.acks[i] && Asked(before, r.acks[i]);
      } else {
        assert w in all && r'.acks[i] == Ack(w.sn, w.ts);
      }
    }
  }
}
