/**
  What `ikcp_flush` does, read off the control block before and after it and off the segments it
  sends: how much is numbered, which segments are sent again and with which timer, what is
  acknowledged and probed, and what becomes of the congestion window.
*/
module Flushing {
  import opened Serial
  import opened WireFormat
  import opened Endpoints
  import opened Invariants
  import opened Timers
  import opened Steps

  /* ---------------------------------------------------------------- how much is numbered */

  /** The smallest of the local, the remote and, unless it is disabled, the congestion window. */
  predicate Smallest(e: Endpoint, m: nat) {
    && m <= e.cfg.sndWnd && m <= e.rmtWnd && (e.cfg.nocwnd || m <= e.cong.cwnd)
    && (m == e.cfg.sndWnd || m == e.rmtWnd || (!e.cfg.nocwnd && m == e.cong.cwnd))
  }

  lemma SmallestIs(e: Endpoint, m: nat)
    requires Smallest(e, m)
    ensures Window(e) == m
  {
  }

  /** The flight after numbering, from a flight within the limit. */
  lemma {:induction false} PromoteFlight(ar: Arith, e: Endpoint, s: Snd, m: nat, limit: nat)
    requires m <= limit <= 65535 && SndInv(ar, s, limit)
    ensures var r := Promote(ar, e, s, m);
            var before, after := ar.Diff(s.nxt, s.una), ar.Diff(r.nxt, s.una);
            && r.una == s.una && before <= after <= Max(before, m) && (r.queue != [] ==> after >= m)
            && after - before <= |s.queue| && r.queue == s.queue[after - before..]
    decreases |s.queue|
  {
    hide Arith.Diff, Arith.Norm, SndInv;
    NearOf(ar, s, limit);
    DiffAdvance(ar, s.una, m, s.una);
    DiffRebase(ar, s.nxt, ar.Norm(s.una + m), s.una);
    if s.queue != [] && ar.Diff(s.nxt, ar.Norm(s.una + m)) < 0 {
      PromoteOneKeeps(ar, e, s, m, limit);
      PromoteFlight(ar, e, PromoteOne(ar, e, s), m, limit);
    }
  }

  lemma NearOf(ar: Arith, s: Snd, limit: nat)
    requires SndInv(ar, s, limit)
    ensures ar.Is(s.una) && ar.Diff(s.una, s.una) == 0 && 0 <= ar.Diff(s.nxt, s.una) <= limit
  {
    hide Arith.Diff;
    DiffZero(ar, s.una, s.una);
  }

  /**
    The send window: a flush numbers fragments, oldest first, until the flight reaches the smallest of
    the three windows, and no further; with fragments left over it has reached it.
  */
  lemma FlushFlight(ar: Arith, e: Endpoint, m: nat)
    requires EndpointInv(ar, e) && e.clock.updated && Smallest(e, m)
    ensures var s, r := e.snd, Flush(ar, e).e.snd;
            var before, after := ar.Diff(s.nxt, s.una), ar.Diff(r.nxt, s.una);
            && r.una == s.una && before <= after <= Max(before, m) && (r.queue != [] ==> after >= m)
            && after - before <= |s.queue| && r.queue == s.queue[after - before..]
            && |r.buf| == |s.buf| + (after - before)
  {
    hide Arith.Diff, Arith.Norm, SndInv, Promote, DueSegments, CountDue, Exhausted, Backed, ProbeTick, Window;
    SmallestIs(e, m);
    PromoteFlight(ar, e, e.snd, m, FlightLimit(e.cfg));
    SndOf(ar, e);
    var k := PromoteShape(ar, e, e.snd, m);
  }

  lemma SndOf(ar: Arith, e: Endpoint)
    requires EndpointInv(ar, e)
    ensures ar.Is(e.snd.nxt) && SndInv(ar, e.snd, FlightLimit(e.cfg))
  {
  }

  /* ---------------------------------------------------------------- which segments are sent, and when again */

  /** Free places in the receive queue. */
  function Free(e: Endpoint): nat {
    Max(0, e.cfg.rcvWnd - |e.rcv.queue|)
  }

  predicate Overdue(e: Endpoint, s: SndSeg) {
    s.xmit != 0 && TimeDiff(e.clock.current, s.resendts) >= 0
  }

  /** Later segments have been acknowledged often enough; 2^32 - 1 times if that is switched off. */
  predicate Overtaken(e: Endpoint, s: SndSeg) {
    && s.xmit != 0 && TimeDiff(e.clock.current, s.resendts) < 0
    && s.fastack >= (if e.cfg.fastresend > 0 then e.cfg.fastresend else TWO32 - 1)
    && (e.cfg.fastlimit <= 0 || Signed(s.xmit) <= e.cfg.fastlimit)
  }

  predicate Goes(e: Endpoint, s: SndSeg) {
    s.xmit == 0 || Overdue(e, s) || Overtaken(e, s)
  }

  /** By how much a timeout lengthens: doubled at least, or by half with `nodelay`. */
  function Longer(e: Endpoint, s: SndSeg): int {
    if e.cfg.nodelay == 0 then Max(s.rto, e.rtt.rto)
    else if e.cfg.nodelay == 1 then TruncDiv(Signed(s.rto), 2)
    else e.rtt.rto / 2
  }

  /** A segment before and after a flush at time `now`. */
  predicate Ticked(e: Endpoint, s: SndSeg, t: SndSeg) {
    var now := e.clock.current;
    if s.xmit == 0 then
      && t.xmit == 1 && t.rto == e.rtt.rto && t.fastack == s.fastack
      && t.resendts == Wrap(now + e.rtt.rto + (if e.cfg.nodelay == 0 then e.rtt.rto / 8 else 0))
    else if Overdue(e, s) then
      && t.xmit == Wrap(s.xmit + 1) && t.rto == Wrap(s.rto + Longer(e, s)) && t.fastack == s.fastack
      && t.resendts == Wrap(now + t.rto)
    else if Overtaken(e, s) then
      t.xmit == Wrap(s.xmit + 1) && t.rto == s.rto && t.fastack == 0 && t.resendts == Wrap(now + s.rto)
    else t == s
  }

  /** What goes out carries the time, the free window and the next expected number. */
  predicate Stamped(e: Endpoint, before: Wire, after: Wire) {
    after == before.(ts := e.clock.current, wnd := Free(e), una := e.rcv.nxt)
  }

  /** A fragment just numbered and sent. */
  predicate Launched(e: Endpoint, f: Frag, sn: nat, t: SndSeg) {
    && t.w == Wire(e.cfg.conv, CMD_PUSH, f.frg, Free(e), e.clock.current, sn, e.rcv.nxt, f.data)
    && t.xmit == 1 && t.rto == e.rtt.rto && t.fastack == 0
    && t.resendts == Wrap(e.clock.current + e.rtt.rto + (if e.cfg.nodelay == 0 then e.rtt.rto / 8 else 0))
  }

  lemma TickTicks(e: Endpoint, s: SndSeg)
    requires 0 <= e.rtt.rto <= RTO_MAX
    ensures Ticked(e, s, Tick(e, s))
    ensures Goes(e, s) <==> !DueFor(e, s).NotDue?
    ensures Goes(e, s) ==> Stamped(e, s.w, Tick(e, s).w)
  {
    hide TimeDiff, Signed;
    WrapSmall(e.rtt.rto);
    FreeIs(e);
  }

  lemma FreeIs(e: Endpoint)
    ensures WndUnused(e) == Free(e)
  {
  }

  /**
    The transmission loop, segment by segment: a new one gets the current timeout, an overdue one
    backs off, an overtaken one is sent again at once, and every other stays as it is; and what is
    numbered now are the fragments at the front of the queue, with the next numbers.
  */
  lemma FlushSegments(ar: Arith, e: Endpoint)
    requires EndpointInv(ar, e) && e.clock.updated && 0 <= e.rtt.rto <= RTO_MAX
    ensures var s, r := e.snd, Flush(ar, e).e.snd;
            var n := |s.buf|;
            && n <= |r.buf| <= n + |s.queue|
            && (forall i | 0 <= i < n ::
                  && Ticked(e, s.buf[i], r.buf[i])
                  && (if Goes(e, s.buf[i]) then Stamped(e, s.buf[i].w, r.buf[i].w) else r.buf[i].w == s.buf[i].w))
            && (forall i | n <= i < |r.buf| :: Launched(e, s.queue[i - n], ar.Norm(s.nxt + (i - n)), r.buf[i]))
  {
    hide Arith.Diff, Arith.Norm, SndInv, Promote, DueSegments, CountDue, Exhausted, Backed, ProbeTick, Window, Tick,
         Ticked, Stamped, Goes, Launched, Numbered;
    SndOf(ar, e);
    var k := PromoteShape(ar, e, e.snd, Window(e));
    var s, p, r := e.snd, Promote(ar, e, e.snd, Window(e)).buf, Flush(ar, e).e.snd;
    forall i | 0 <= i < |s.buf|
      ensures Ticked(e, s.buf[i], r.buf[i])
      ensures if Goes(e, s.buf[i]) then Stamped(e, s.buf[i].w, r.buf[i].w) else r.buf[i].w == s.buf[i].w
    {
      assert p[i] == p[..|s.buf|][i];
      TickTicks(e, s.buf[i]);
      StillSame(e, s.buf[i], r.buf[i]);
    }
    forall i | |s.buf| <= i < |r.buf|
      ensures Launched(e, s.queue[i - |s.buf|], ar.Norm(s.nxt + (i - |s.buf|)), r.buf[i])
    {
      var j := i - |s.buf|;
      assert p[|s.buf| + j] == Numbered(e, ar.Norm(s.nxt + j), s.queue[j]);
      Launch(e, ar.Norm(s.nxt + j), s.queue[j]);
    }
  }

  lemma StillSame(e: Endpoint, s: SndSeg, t: SndSeg)
    requires Ticked(e, s, t)
    ensures !Goes(e, s) ==> t == s
  {
    hide TimeDiff, Signed;
  }

  lemma Launch(e: Endpoint, sn: nat, f: Frag)
    requires 0 <= e.rtt.rto <= RTO_MAX
    ensures Launched(e, f, sn, Tick(e, Numbered(e, sn, f)))
    ensures !DueFor(e, Numbered(e, sn, f)).NotDue?
  {
    hide TimeDiff;
    WrapSmall(e.rtt.rto);
  }

  /* ---------------------------------------------------------------- what is sent */

  /** The numbers of the data segments rise. */
  ghost predicate Rising(ar: Arith, una: nat, ws: seq<Wire>) {
    forall i, j | 0 <= i < j < |ws| && ws[i].cmd == CMD_PUSH && ws[j].cmd == CMD_PUSH ::
      ar.Diff(ws[i].sn, una) < ar.Diff(ws[j].sn, una)
  }

  lemma {:induction false} DueRising(ar: Arith, e: Endpoint, una: nat, buf: seq<SndSeg>)
    requires forall i, j | 0 <= i < j < |buf| :: ar.Diff(buf[i].w.sn, una) < ar.Diff(buf[j].w.sn, una)
    ensures Rising(ar, una, DueSegments(e, buf))
  {
    hide Tick, DueFor, Arith.Diff;
    if buf != [] {
      var rest := DueSegments(e, buf[1..]);
      DueRising(ar, e, una, buf[1..]);
      if !DueFor(e, buf[0]).NotDue? {
        TickSame(e, buf[0]);
        forall j | 0 <= j < |rest|
          ensures ar.Diff(Tick(e, buf[0]).w.sn, una) < ar.Diff(rest[j].sn, una)
        {
          var k := DueSegmentsFrom(e, buf[1..], rest[j]);
          TickSame(e, buf[1..][k]);
          assert buf[k + 1] == buf[1..][k];
        }
      }
    }
  }

  lemma {:induction false} DueHas(e: Endpoint, buf: seq<SndSeg>, i: nat)
    requires i < |buf| && !DueFor(e, buf[i]).NotDue?
    ensures Tick(e, buf[i]).w in DueSegments(e, buf)
  {
    hide Tick, DueFor;
    if i > 0 {
      DueHas(e, buf[1..], i - 1);
    }
  }

  /** Nothing in `buf` has its number but segment i itself. */
  lemma DueOnly(ar: Arith, e: Endpoint, una: nat, buf: seq<SndSeg>, i: nat)
    requires i < |buf| && forall i, j | 0 <= i < j < |buf| :: ar.Diff(buf[i].w.sn, una) < ar.Diff(buf[j].w.sn, una)
    requires Tick(e, buf[i]).w in DueSegments(e, buf)
    ensures !DueFor(e, buf[i]).NotDue?
  {
    hide Tick, DueFor, Arith.Diff;
    var j := DueSegmentsFrom(e, buf, Tick(e, buf[i]).w);
    TickSame(e, buf[i]);
    TickSame(e, buf[j]);
    assert ar.Diff(buf[i].w.sn, una) == ar.Diff(buf[j].w.sn, una);
  }

  /** The data segments a flush sends are the due ones of its result. */
  ghost predicate SendsDue(ar: Arith, e: Endpoint, r: Endpoint, segs: seq<Wire>) {
    && (forall i | 0 <= i < |r.snd.buf| ::
          r.snd.buf[i].w in segs <==> i >= |e.snd.buf| || Goes(e, e.snd.buf[i]))
    && (forall w | w in segs && w.cmd == CMD_PUSH :: exists i :: 0 <= i < |r.snd.buf| && r.snd.buf[i].w == w)
    && Rising(ar, e.snd.una, segs)
  }

  /**
    A flush sends, in the order of their numbers, exactly the segments that are new, overdue or
    overtaken, each once and as `snd_buf` has it then.
  */
  lemma FlushSends(ar: Arith, e: Endpoint)
    requires EndpointInv(ar, e) && e.clock.updated && 0 <= e.rtt.rto <= RTO_MAX
    ensures var r := Flush(ar, e); |r.e.snd.buf| >= |e.snd.buf| && SendsDue(ar, e, r.e, r.segs)
  {
    hide Arith.Diff, Arith.Norm, SndInv, Promote, DueSegments, CountDue, Exhausted, Backed, ProbeTick, Window, Tick,
         Goes, Numbered, DueFor, Rising, AckSegments, ProbeSegments;
    SndOf(ar, e);
    var k := PromoteShape(ar, e, e.snd, Window(e));
    var s, p, r := e.snd, Promote(ar, e, e.snd, Window(e)), Flush(ar, e);
    PromoteKeeps(ar, e, e.snd, Window(e), FlightLimit(e.cfg)) by {
      LimitOf(ar, e);
    }
    PromotedOk(ar, e, Window(e));
    InOrderOf(ar, p, FlightLimit(e.cfg));
    var due := DueSegments(e, p.buf);
    DueRising(ar, e, s.una, p.buf);
    DueIsData(e, p.buf);
    ControlsAreNot(e);
    OnlyDataRises(ar, s.una, AckSegments(e) + ProbeSegments(e), due);
    forall i | 0 <= i < |p.buf|
      ensures r.e.snd.buf[i].w in r.segs <==> i >= |s.buf| || Goes(e, s.buf[i])
    {
      assert p.buf[i] in p.buf;
      TickSame(e, p.buf[i]);
      DueExactly(ar, e, s.una, p.buf, i);
      if i < |s.buf| {
        assert p.buf[i] == p.buf[..|s.buf|][i];
        TickTicks(e, s.buf[i]);
      } else {
        var j := i - |s.buf|;
        assert p.buf[|s.buf| + j] == Numbered(e, ar.Norm(s.nxt + j), s.queue[j]);
        Launch(e, ar.Norm(s.nxt + j), s.queue[j]);
      }
    }
    forall w | w in r.segs && w.cmd == CMD_PUSH
      ensures exists i :: 0 <= i < |r.e.snd.buf| && r.e.snd.buf[i].w == w
    {
      var i := DueSegmentsFrom(e, p.buf, w);
      assert r.e.snd.buf[i].w == w;
    }
  }

  lemma LimitOf(ar: Arith, e: Endpoint)
    requires EndpointInv(ar, e)
    ensures Window(e) <= FlightLimit(e.cfg) <= 65535
  {
  }

  lemma InOrderOf(ar: Arith, s: Snd, limit: nat)
    requires SndInv(ar, s, limit)
    ensures forall i, j | 0 <= i < j < |s.buf| :: ar.Diff(s.buf[i].w.sn, s.una) < ar.Diff(s.buf[j].w.sn, s.una)
  {
    hide Arith.Diff;
    forall i, j | 0 <= i < j < |s.buf|
      ensures ar.Diff(s.buf[i].w.sn, s.una) < ar.Diff(s.buf[j].w.sn, s.una)
    {
      assert Off(ar, s.una, s.buf[i]) < Off(ar, s.una, s.buf[j]);
    }
  }

  lemma DueExactly(ar: Arith, e: Endpoint, una: nat, buf: seq<SndSeg>, i: nat)
    requires i < |buf| && forall i, j | 0 <= i < j < |buf| :: ar.Diff(buf[i].w.sn, una) < ar.Diff(buf[j].w.sn, una)
    ensures Tick(e, buf[i]).w in DueSegments(e, buf) <==> !DueFor(e, buf[i]).NotDue?
  {
    hide Tick, DueFor, Arith.Diff;
    if !DueFor(e, buf[i]).NotDue? {
      DueHas(e, buf, i);
    }
    if Tick(e, buf[i]).w in DueSegments(e, buf) {
      DueOnly(ar, e, una, buf, i);
    }
  }

  lemma DueIsData(e: Endpoint, buf: seq<SndSeg>)
    requires forall s | s in buf :: SegOk(e.cfg, s.w)
    ensures forall w | w in DueSegments(e, buf) :: w.cmd == CMD_PUSH
  {
    hide Tick, DueFor;
    forall w | w in DueSegments(e, buf)
      ensures w.cmd == CMD_PUSH
    {
      var i := DueSegmentsFrom(e, buf, w);
      TickSame(e, buf[i]);
      assert buf[i] in buf;
    }
  }

  lemma ControlsAreNot(e: Endpoint)
    ensures forall w | w in AckSegments(e) + ProbeSegments(e) :: w.cmd != CMD_PUSH
  {
    hide ProbeTick, WndUnused;
  }

  lemma OnlyDataRises(ar: Arith, una: nat, front: seq<Wire>, data: seq<Wire>)
    requires (forall w | w in front :: w.cmd != CMD_PUSH) && Rising(ar, una, data)
    ensures Rising(ar, una, front + data)
  {
    hide Arith.Diff;
    var ws := front + data;
    assert forall i | 0 <= i < |front| :: ws[i] == front[i] && front[i] in front;
    forall i, j | 0 <= i < j < |ws| && ws[i].cmd == CMD_PUSH && ws[j].cmd == CMD_PUSH
      ensures ar.Diff(ws[i].sn, una) < ar.Diff(ws[j].sn, una)
    {
      assert |front| <= i && |front| <= j;
      assert ws[i] == data[i - |front|] && ws[j] == data[j - |front|];
    }
  }

  /* ---------------------------------------------------------------- acknowledgements and probes */

  /** A segment without data. */
  predicate Bare(e: Endpoint, w: Wire) {
    w.conv == e.cfg.conv && w.frg == 0 && w.wnd == Free(e) && w.una == e.rcv.nxt && w.data == []
  }

  /** With the remote window closed, the time to ask about it has come. */
  predicate AskNow(e: Endpoint) {
    e.rmtWnd == 0 && e.probe.wait != 0 && TimeDiff(e.clock.current, e.probe.ts) >= 0
  }

  /** What the last acknowledgement leaves behind; the probes carry it too. */
  function Leftover(e: Endpoint): Ack {
    if e.rcv.acks == [] then Ack(0, 0) else e.rcv.acks[|e.rcv.acks| - 1]
  }

  function Asks(e: Endpoint): nat {
    if e.probe.ask || AskNow(e) then 1 else 0
  }

  function Tells(e: Endpoint): nat {
    if e.probe.tell then 1 else 0
  }

  /** One acknowledgement for each pair, in order; then the question and the answer about windows; then data. */
  predicate Answers(e: Endpoint, segs: seq<Wire>) {
    var n := |e.rcv.acks|;
    && |segs| >= n + Asks(e) + Tells(e)
    && (forall i | 0 <= i < |segs| ::
          segs[i].cmd == if i < n then CMD_ACK
                         else if i < n + Asks(e) then CMD_WASK
                         else if i < n + Asks(e) + Tells(e) then CMD_WINS
                         else CMD_PUSH)
    && (forall i | 0 <= i < n + Asks(e) + Tells(e) ::
          && Ack(segs[i].sn, segs[i].ts) == (if i < n then e.rcv.acks[i] else Leftover(e))
          && Bare(e, segs[i]))
  }

  /** When to ask next: after 7 s, then half as long again each time, up to 120 s; never while it is open. */
  predicate Probing(e: Endpoint, p: Probe) {
    var now := e.clock.current;
    && !p.ask && !p.tell
    && if e.rmtWnd != 0 then p.wait == 0 && p.ts == 0
       else if e.probe.wait == 0 then p.wait == 7000 && p.ts == Wrap(now + 7000)
       else if AskNow(e) then
         var wait := Max(e.probe.wait, 7000);
         (wait <= 120000 ==> p.wait == Min(wait + wait / 2, 120000)) && p.ts == Wrap(now + p.wait)
       else p.wait == e.probe.wait && p.ts == e.probe.ts
  }

  /** The acknowledgements, the window probes and the answers to them. */
  lemma FlushAnswers(ar: Arith, e: Endpoint)
    requires EndpointInv(ar, e) && e.clock.updated
    ensures var r := Flush(ar, e);
            Answers(e, r.segs) && Probing(e, r.e.probe) && r.e.rcv == e.rcv.(acks := []) && r.e.rmtWnd == e.rmtWnd
  {
    hide Arith.Diff, Arith.Norm, SndInv, RcvInv, Promote, DueSegments, CountDue, Exhausted, Backed, Window, Tick,
         TimeDiff, Probing, ProbeTick, AckSegments, ProbeSegments;
    var p := Promote(ar, e, e.snd, Window(e));
    PromotedOk(ar, e, Window(e));
    DueIsData(e, p.buf);
    Controls(e, DueSegments(e, p.buf));
    ProbeNext(e);
  }

  lemma ProbeNext(e: Endpoint)
    ensures Probing(e, ProbeTick(e.probe, e.rmtWnd, e.clock.current).(ask := false, tell := false))
    ensures ProbeTick(e.probe, e.rmtWnd, e.clock.current).ask == (e.probe.ask || AskNow(e))
    ensures ProbeTick(e.probe, e.rmtWnd, e.clock.current).tell == e.probe.tell
  {
    hide TimeDiff;
  }

  lemma AcksBare(e: Endpoint)
    ensures |AckSegments(e)| == |e.rcv.acks|
    ensures forall i | 0 <= i < |e.rcv.acks| ::
              var w := AckSegments(e)[i]; w.cmd == CMD_ACK && Ack(w.sn, w.ts) == e.rcv.acks[i] && Bare(e, w)
  {
    FreeIs(e);
  }

  lemma ProbesBare(e: Endpoint)
    ensures |ProbeSegments(e)| == Asks(e) + Tells(e)
    ensures forall i | 0 <= i < |ProbeSegments(e)| ::
              var w := ProbeSegments(e)[i];
              && w.cmd == (if i < Asks(e) then CMD_WASK else CMD_WINS) && Ack(w.sn, w.ts) == Leftover(e) && Bare(e, w)
  {
    hide AskNow, ProbeTick;
    FreeIs(e);
    ProbeNext(e);
  }

  lemma Controls(e: Endpoint, data: seq<Wire>)
    requires forall w | w in data :: w.cmd == CMD_PUSH
    ensures Answers(e, AckSegments(e) + ProbeSegments(e) + data)
  {
    hide Asks, Tells, Leftover, Bare, AckSegments, ProbeSegments;
    AcksBare(e);
    ProbesBare(e);
    var acks, probes := AckSegments(e), ProbeSegments(e);
    var segs := acks + probes + data;
    forall i | 0 <= i < |segs|
      ensures segs[i] == if i < |acks| then acks[i]
                         else if i < |acks| + |probes| then probes[i - |acks|]
                         else data[i - |acks| - |probes|]
    {
    }
  }

  /* ---------------------------------------------------------------- the congestion window */

  /** Some segment of `snd_buf` is late, or overtaken. */
  predicate SomeLate(e: Endpoint) {
    exists i :: 0 <= i < |e.snd.buf| && Overdue(e, e.snd.buf[i])
  }

  predicate SomeOvertaken(e: Endpoint) {
    exists i :: 0 <= i < |e.snd.buf| && Overtaken(e, e.snd.buf[i])
  }

  /**
    A timeout halves the threshold from the window `m` and restarts with one segment; a fast
    retransmission alone halves it from the `flight` and goes on from there; otherwise the window
    stays. It is never 0.
  */
  predicate Slowed(e: Endpoint, m: nat, flight: int, c: Cong) {
    if SomeLate(e) then
      c.cwnd == 1 && c.incr == e.cfg.mss && c.ssthresh == Max(m / 2, 2)
    else if SomeOvertaken(e) then
      && c.ssthresh == Max(flight / 2, 2)
      && c.cwnd == c.ssthresh + (if e.cfg.fastresend > 0 then e.cfg.fastresend else -1)
      && c.incr == Wrap(c.cwnd * e.cfg.mss)
    else if e.cong.cwnd == 0 then
      c.cwnd == 1 && c.incr == e.cfg.mss && c.ssthresh == e.cong.ssthresh
    else c == e.cong
  }

  lemma FlushSlows(ar: Arith, e: Endpoint, m: nat)
    requires EndpointInv(ar, e) && e.clock.updated && 0 <= e.rtt.rto <= RTO_MAX && Smallest(e, m)
    ensures var r := Flush(ar, e).e; Slowed(e, m, ar.Diff(r.snd.nxt, e.snd.una), r.cong)
  {
    hide Arith.Diff, Arith.Norm, SndInv, RcvInv, Promote, DueSegments, CountDue, Exhausted, Backed, Window, Tick,
         TimeDiff, ProbeTick, SomeLate, SomeOvertaken;
    SmallestIs(e, m);
    var p := Promote(ar, e, e.snd, m);
    LateCount(ar, e, m);
    LimitOf(ar, e);
    SndOf(ar, e);
    PromoteKeeps(ar, e, e.snd, m, FlightLimit(e.cfg));
    FlightIs(ar, p, FlightLimit(e.cfg));
    var k := PromoteShape(ar, e, e.snd, m);
    MssFits(ar, e);
    BackedSlows(e, m, ar.Diff(p.nxt, p.una), CountDue(e, p.buf, Fast) > 0, CountDue(e, p.buf, Timeout) > 0);
  }

  lemma MssFits(ar: Arith, e: Endpoint)
    requires EndpointInv(ar, e)
    ensures e.cfg.mss < TWO31
  {
  }

  lemma FlightIs(ar: Arith, s: Snd, limit: nat)
    requires SndInv(ar, s, limit) && limit <= 65535
    ensures Wrap(s.nxt - s.una) == ar.Diff(s.nxt, s.una) <= limit
  {
    if ar.Bits32? {
      var k := SignedShape(s.nxt - s.una);
    }
  }

  lemma BackedSlows(e: Endpoint, m: nat, flight: nat, change: bool, lost: bool)
    requires e.cfg.mss < TWO31 && flight <= 65535 && m <= 65535
    requires change == SomeOvertaken(e) && lost == SomeLate(e)
    ensures Slowed(e, m, flight, Backed(e.cong, e.cfg, flight, m, change, lost))
  {
    hide SomeLate, SomeOvertaken, Wrap;
    WrapSmall(Max(flight / 2, 2));
    WrapSmall(Max(m / 2, 2));
    WrapSmall(e.cfg.mss);
    Resend(Max(flight / 2, 2), e.cfg);
  }

  lemma Resend(x: int, cfg: Config)
    requires 2 <= x <= 32767
    ensures Wrap(x + Resent(cfg)) == x + (if cfg.fastresend > 0 then cfg.fastresend else -1) >= 1
  {
  }

  lemma {:induction false} CountSome(e: Endpoint, buf: seq<SndSeg>, due: Due)
    ensures CountDue(e, buf, due) > 0 <==> exists i :: 0 <= i < |buf| && DueFor(e, buf[i]) == due
  {
    hide DueFor;
    if buf != [] {
      CountSome(e, buf[1..], due);
      if i :| 0 <= i < |buf[1..]| && DueFor(e, buf[1..][i]) == due {
        assert DueFor(e, buf[i + 1]) == due;
      }
      if i :| 0 <= i < |buf| && DueFor(e, buf[i]) == due {
        assert i > 0 ==> DueFor(e, buf[1..][i - 1]) == due;
      }
    }
  }

  lemma LateCount(ar: Arith, e: Endpoint, m: nat)
    requires EndpointInv(ar, e) && 0 <= e.rtt.rto <= RTO_MAX
    ensures var p := Promote(ar, e, e.snd, m);
            (CountDue(e, p.buf, Timeout) > 0) == SomeLate(e) && (CountDue(e, p.buf, Fast) > 0) == SomeOvertaken(e)
  {
    hide Arith.Diff, Arith.Norm, SndInv, RcvInv, Promote, CountDue, DueFor, Overdue, Overtaken, Numbered;
    SndOf(ar, e);
    var s, p := e.snd, Promote(ar, e, e.snd, m);
    var k := PromoteShape(ar, e, e.snd, m);
    CountSome(e, p.buf, Timeout);
    CountSome(e, p.buf, Fast);
    forall i | 0 <= i < |s.buf|
      ensures p.buf[i] == s.buf[i]
      ensures (DueFor(e, s.buf[i]) == Timeout) == Overdue(e, s.buf[i])
      ensures (DueFor(e, s.buf[i]) == Fast) == Overtaken(e, s.buf[i])
    {
      assert p.buf[i] == p.buf[..|s.buf|][i];
      DueIs(e, s.buf[i]);
    }
    forall i | |s.buf| <= i < |p.buf|
      ensures DueFor(e, p.buf[i]) == First
    {
      var j := i - |s.buf|;
      assert p.buf[|s.buf| + j] == Numbered(e, ar.Norm(s.nxt + j), s.queue[j]);
      NewIsFirst(e, ar.Norm(s.nxt + j), s.queue[j]);
    }
  }

  lemma NewIsFirst(e: Endpoint, sn: nat, f: Frag)
    ensures DueFor(e, Numbered(e, sn, f)) == First
  {
  }

  lemma DueIs(e: Endpoint, s: SndSeg)
    ensures (DueFor(e, s) == Timeout) == Overdue(e, s) && (DueFor(e, s) == Fast) == Overtaken(e, s)
  {
    hide TimeDiff, Signed;
  }

  /* ---------------------------------------------------------------- giving up */

  /** How many segments are overdue. */
  function Overdues(e: Endpoint, buf: seq<SndSeg>): nat {
    if buf == [] then 0 else Overdues(e, buf[..|buf| - 1]) + (if Overdue(e, buf[|buf| - 1]) then 1 else 0)
  }

  lemma {:induction false} CountAppend(e: Endpoint, a: seq<SndSeg>, b: seq<SndSeg>)
    ensures CountDue(e, a + b, Timeout) == CountDue(e, a, Timeout) + CountDue(e, b, Timeout)
  {
    hide DueFor;
    if a == [] {
      assert a + b == b;
    } else {
      CountAppend(e, a[1..], b);
      assert (a + b)[1..] == a[1..] + b;
    }
  }

  lemma {:induction false} CountsOverdue(e: Endpoint, buf: seq<SndSeg>)
    ensures CountDue(e, buf, Timeout) == Overdues(e, buf)
  {
    hide DueFor, Overdue;
    if buf != [] {
      var init, last := buf[..|buf| - 1], buf[|buf| - 1];
      CountsOverdue(e, init);
      CountAppend(e, init, [last]);
      assert init + [last] == buf && [last][1..] == [] && CountDue(e, [], Timeout) == 0;
      DueIs(e, last);
    }
  }

  /** Segments that are not overdue do not count. */
  lemma {:induction false} NoneCounts(e: Endpoint, buf: seq<SndSeg>)
    requires forall i | 0 <= i < |buf| :: DueFor(e, buf[i]) == First
    ensures CountDue(e, buf, Timeout) == 0
  {
    hide DueFor;
    if buf != [] {
      NoneCounts(e, buf[1..]);
    }
  }

  /** The link is given up with the transmission of a segment that makes `dead_link` of them. */
  lemma FlushGivesUp(ar: Arith, e: Endpoint)
    requires EndpointInv(ar, e) && e.clock.updated && 0 <= e.rtt.rto <= RTO_MAX
    ensures var r := Flush(ar, e).e;
            && |r.snd.buf| >= |e.snd.buf|
            && r.xmit == Wrap(e.xmit + Overdues(e, e.snd.buf))
            && (r.dead <==> e.dead || exists i :: 0 <= i < |r.snd.buf| && r.snd.buf[i].xmit >= e.cfg.deadLink
                                                && (i >= |e.snd.buf| || Goes(e, e.snd.buf[i])))
  {
    hide Arith.Diff, Arith.Norm, SndInv, RcvInv, Promote, DueSegments, CountDue, Backed, Window, Tick, DueFor, Goes,
         Numbered, ProbeTick, Overdue;
    SndOf(ar, e);
    var s, p, r := e.snd, Promote(ar, e, e.snd, Window(e)), Flush(ar, e).e;
    var k := PromoteShape(ar, e, e.snd, Window(e));
    CountsOverdue(e, s.buf);
    CountAppend(e, s.buf, p.buf[|s.buf|..]);
    assert s.buf + p.buf[|s.buf|..] == p.buf;
    forall i | 0 <= i < k
      ensures DueFor(e, p.buf[|s.buf|..][i]) == First
    {
      NewIsFirst(e, ar.Norm(s.nxt + i), s.queue[i]);
    }
    NoneCounts(e, p.buf[|s.buf|..]);
    forall i | 0 <= i < |p.buf|
      ensures r.snd.buf[i] == Tick(e, p.buf[i])
      ensures !DueFor(e, p.buf[i]).NotDue? <==> i >= |s.buf| || Goes(e, s.buf[i])
    {
      if i < |s.buf| {
        assert p.buf[i] == p.buf[..|s.buf|][i];
        TickTicks(e, s.buf[i]);
      } else {
        var j := i - |s.buf|;
        assert p.buf[|s.buf| + j] == Numbered(e, ar.Norm(s.nxt + j), s.queue[j]);
        Launch(e, ar.Norm(s.nxt + j), s.queue[j]);
      }
    }
  }
}
