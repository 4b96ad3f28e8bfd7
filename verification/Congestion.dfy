/**
  The congestion window. `cwnd` counts segments and `incr` bytes; the two are kept less than one
  segment apart, and none of the 32-bit products and sums that do so overflows.
*/
module Congestion {
  import opened Serial
  import opened WireFormat
  import opened Endpoints
  import opened Invariants

  /** The largest segment size: a UDP datagram carries at most 65507 bytes. */
  const MAX_MSS := 65507 - OVERHEAD

  predicate WindowOk(c: Cong, mss: pos) {
    Close(c.cwnd, c.incr, mss)
  }

  /** Window growth on unbounded numbers: exponential below `ssthresh`, additive above. */
  function Growth(c: Cong, mss: pos): (nat, nat) {
    if c.cwnd < c.ssthresh then (c.cwnd + 1, c.incr + mss)
    else
      var incr := Step(c.incr, mss);
      (if (c.cwnd + 1) * mss <= incr then (incr + mss - 1) / mss else c.cwnd, incr)
  }

  lemma Product(a: nat, b: nat, m: nat, n: nat)
    requires a <= m && b <= n
    ensures a * b <= m * n
  {
    assert a * b <= a * n <= m * n;
  }

  /** The unbounded additive step. */
  function Step(incr: nat, mss: pos): nat {
    var base := Max(incr, mss);
    base + mss * mss / base + mss / 16
  }

  lemma StepBound(incr: nat, mss: pos)
    ensures Max(incr, mss) <= Step(incr, mss) <= Max(incr, mss) + mss + mss / 16
  {
    Share(mss, Max(incr, mss));
  }

  lemma Share(mss: pos, base: pos)
    requires mss <= base
    ensures 0 <= mss * mss / base <= mss
  {
    Product(mss, mss, mss, base);
    assert (mss + 1) * base == mss * base + base;
    Quotient(mss * mss, base, mss);
  }

  lemma Quotient(a: nat, b: pos, q: nat)
    requires a < (q + 1) * b
    ensures a / b <= q
  {
    var r := a / b;
    assert r * b <= a;
    assert q + 1 <= r ==> (q + 1) * b <= r * b by {
      if q + 1 <= r {
        Product(q + 1, b, r, b);
      }
    }
  }

  /** Additive growth does not overflow. */
  lemma AdditiveExact(incr: Word, mss: pos)
    requires mss <= MAX_MSS && incr < 65535 * MAX_MSS
    ensures Additive(incr, mss) == Step(incr, mss) < TWO32 - mss
  {
    hide Wrap;
    StepBound(incr, mss);
    Product(mss, mss, MAX_MSS, MAX_MSS);
    WrapSmall(mss);
    WrapSmall(mss * mss);
    WrapSmall(Step(incr, mss));
  }

  /** `cwnd` segments and `incr` bytes, less than a segment apart. */
  predicate Close(cwnd: int, incr: int, mss: pos) {
    (cwnd - 1) * mss < incr < (cwnd + 1) * mss
  }

  lemma Exactly(n: int, mss: pos)
    ensures Close(n, n * mss, mss)
  {
    assert (n - 1) * mss == n * mss - mss && (n + 1) * mss == n * mss + mss;
  }

  lemma OneMore(cwnd: int, incr: int, mss: pos)
    requires Close(cwnd, incr, mss)
    ensures Close(cwnd + 1, incr + mss, mss)
  {
    assert (cwnd + 2) * mss == (cwnd + 1) * mss + mss && cwnd * mss == (cwnd - 1) * mss + mss;
  }

  /** Rounding bytes up to whole segments. */
  lemma Ceiling(incr: nat, mss: pos)
    ensures var n := (incr + mss - 1) / mss; Close(n, incr, mss) && 0 <= n <= incr
  {
    var n := (incr + mss - 1) / mss;
    var m := (incr + mss - 1) % mss;
    assert n * mss + m == incr + mss - 1;
    Exactly(n, mss);
    assert (incr + 1) * mss == incr * mss + mss && incr * mss >= incr;
    Quotient(incr + mss - 1, mss, incr);
  }

  lemma AtLeast(incr: nat, mss: pos, k: nat)
    requires k * mss <= incr
    ensures k <= (incr + mss - 1) / mss
  {
    Ceiling(incr, mss);
    var n := (incr + mss - 1) / mss;
    assert n < k ==> (n + 1) * mss <= k * mss by {
      if n < k {
        Product(n + 1, mss, k, mss);
      }
    }
  }

  lemma IncrBound(cwnd: nat, incr: int, mss: pos)
    requires mss <= MAX_MSS && Close(cwnd, incr, mss) && cwnd < 65535
    ensures incr < (cwnd + 1) * mss <= 65535 * MAX_MSS
  {
    Product(cwnd + 1, mss, 65535, MAX_MSS);
  }

  lemma GrownKeeps(c: Cong, mss: pos)
    requires mss <= MAX_MSS && WindowOk(c, mss) && c.cwnd < 65535
    ensures var r := Grown(c, mss);
            && (r.cwnd, r.incr) == Growth(c, mss)
            && Close(r.cwnd, r.incr, mss) && c.cwnd <= r.cwnd && r.ssthresh == c.ssthresh
  {
    hide Wrap, Additive, Step, Close;
    IncrBound(c.cwnd, c.incr, mss);
    if c.cwnd < c.ssthresh {
      WrapSmall(c.cwnd + 1);
      WrapSmall(c.incr + mss);
      OneMore(c.cwnd, c.incr, mss);
    } else {
      AdditiveExact(c.incr, mss);
      StepBound(c.incr, mss);
      var incr := Step(c.incr, mss);
      WrapSmall((c.cwnd + 1) * mss);
      WrapSmall(incr + mss - 1);
      Ceiling(incr, mss);
      WrapSmall((incr + mss - 1) / mss);
      if (c.cwnd + 1) * mss <= incr {
        AtLeast(incr, mss, c.cwnd + 1);
      } else {
        Still(c.cwnd, c.incr, incr, mss);
      }
    }
  }

  lemma Still(cwnd: nat, incr: int, more: int, mss: pos)
    requires Close(cwnd, incr, mss) && incr <= more < (cwnd + 1) * mss
    ensures Close(cwnd, more, mss)
  {
  }

  /**
    The growth at the end of `ikcp_input`: the 32-bit code computes the unbounded formula, keeps
    `cwnd` and `incr` together, and moves the window up only, never past the remote window.
  */
  lemma GrowKeeps(c: Cong, mss: pos, rmtWnd: nat)
    requires mss <= MAX_MSS && rmtWnd <= 65535 && WindowOk(c, mss)
    ensures var r := Grow(c, mss, rmtWnd);
            && WindowOk(r, mss) && r.ssthresh == c.ssthresh
            && c.cwnd <= r.cwnd <= Max(c.cwnd, rmtWnd)
            && (r.cwnd, r.incr) == (if c.cwnd >= rmtWnd then (c.cwnd, c.incr)
                                    else if Growth(c, mss).0 > rmtWnd then (rmtWnd, rmtWnd * mss)
                                    else Growth(c, mss))
  {
    hide Wrap, Grown, Growth, Close;
    if c.cwnd < rmtWnd {
      GrownKeeps(c, mss);
      Exactly(rmtWnd, mss);
      Product(rmtWnd, mss, 65535, MAX_MSS);
      WrapSmall(rmtWnd);
      WrapSmall(rmtWnd * mss);
    }
  }

  /** The window a fast retransmission restarts with: half the flight, plus `fastresend` (or less one). */
  function Restart(cfg: Config, inflight: nat): int {
    Max(inflight / 2, THRESH_MIN) + (if cfg.fastresend > 0 then cfg.fastresend else -1)
  }

  /**
    The end of `ikcp_flush`: the window is never 0, and restarts consistent, unless the restart is for
    a fast retransmission alone and its product `cwnd * mss` does not fit 32 bits.
  */
  lemma BackedKeeps(c: Cong, cfg: Config, inflight: nat, window: nat, change: bool, lost: bool)
    requires cfg.mss <= MAX_MSS && inflight <= 65535 && WindowOk(c, cfg.mss)
    ensures var r := Backed(c, cfg, inflight, window, change, lost);
            && (WindowOk(r, cfg.mss) <==> (change && !lost ==> Restart(cfg, inflight) * cfg.mss < TWO32))
            && r.cwnd >= 1
            && (lost ==> r.cwnd == 1)
            && (change && !lost ==> r.cwnd == Restart(cfg, inflight))
  {
    hide Wrap, Close, Resent;
    var ssthresh := Max(inflight / 2, THRESH_MIN);
    WrapSmall(ssthresh);
    WrapSmall(cfg.mss);
    WrapSum(ssthresh, cfg);
    Exactly(1, cfg.mss);
    WrappedProduct(Restart(cfg, inflight), cfg.mss);
  }

  /** A wrapped product is not close to the count it came from. */
  lemma WrappedProduct(n: nat, mss: pos)
    requires mss <= MAX_MSS
    ensures Close(n, Wrap(n * mss), mss) <==> n * mss < TWO32
  {
    Exactly(n, mss);
    assert n * mss >= 0;
    if n * mss < TWO32 {
      WrapSmall(n * mss);
    } else {
      assert (n - 1) * mss == n * mss - mss;
      assert Wrap(n * mss) <= n * mss - TWO32;
    }
  }

  lemma WrapSum(x: nat, cfg: Config)
    requires 2 <= x <= 32767
    ensures Wrap(x + Resent(cfg)) == x + (if cfg.fastresend > 0 then cfg.fastresend else -1)
  {
  }

  /* ---------------------------------------------------------------- whole operations */

  /** No flight is so large that a restart would wrap. */
  predicate Moderate(fastresend: int, mss: pos) {
    (32767 + Max(fastresend, 0)) * mss < TWO32
  }

  ghost predicate CongestionInv(e: Endpoint) {
    e.cfg.mss <= MAX_MSS && Moderate(e.cfg.fastresend, e.cfg.mss) && WindowOk(e.cong, e.cfg.mss)
  }

  lemma RestartFits(cfg: Config, inflight: nat)
    requires Moderate(cfg.fastresend, cfg.mss) && inflight <= 65535
    ensures Restart(cfg, inflight) * cfg.mss < TWO32
  {
    var most := 32767 + Max(cfg.fastresend, 0);
    Product(Restart(cfg, inflight), cfg.mss, most, cfg.mss);
  }

  lemma InputCongestion(ar: Arith, e: Endpoint, p: Parsed)
    requires EndpointInv(ar, e) && CongestionInv(e) && forall w | w in p.segs :: InRange(ar, w)
    ensures CongestionInv(InputParsed(ar, e, p))
    ensures e.cong.cwnd <= InputParsed(ar, e, p).cong.cwnd && InputParsed(ar, e, p).cfg == e.cfg
  {
    hide SndInv, RcvInv, InputSegments, FoldMaxAck, ParseFastack, Grow, WindowOk, Moderate, Arith.Diff;
    InputSegmentsKeeps(ar, e, p.segs);
    var e1 := InputSegments(ar, e, p.segs);
    GrowKeeps(e1.cong, e1.cfg.mss, e1.rmtWnd);
  }

  lemma FlightFits(ar: Arith, s: Snd, limit: nat)
    requires limit <= 65535 && SndInv(ar, s, limit)
    ensures Wrap(s.nxt - s.una) <= 65535
  {
    if ar.Bits32? {
      var k := SignedShape(s.nxt - s.una);
    }
  }

  lemma FlushCongestion(ar: Arith, e: Endpoint)
    requires EndpointInv(ar, e) && CongestionInv(e)
    ensures CongestionInv(Flush(ar, e).e)
    ensures e.clock.updated ==> Flush(ar, e).e.cong.cwnd >= 1
    ensures Flush(ar, e).e.cfg == e.cfg
  {
    hide SndInv, RcvInv, WindowOk, Moderate, Promote, TickAll, DueSegments, CountDue, Exhausted, Backed, ProbeTick,
         Wrap, Restart;
    if e.clock.updated {
      var limit := FlightLimit(e.cfg);
      var snd := Promote(ar, e, e.snd, Window(e));
      PromoteKeeps(ar, e, e.snd, Window(e), limit);
      FlightFits(ar, snd, limit);
      RestartFits(e.cfg, Wrap(snd.nxt - snd.una));
      BackedKeeps(e.cong, e.cfg, Wrap(snd.nxt - snd.una), Window(e), CountDue(e, snd.buf, Fast) > 0,
                  CountDue(e, snd.buf, Timeout) > 0);
    }
  }

  /**
    `Kcp::initialize` flushes before the MTU is set, which leaves one default-sized segment in
    `incr`: the configured window starts consistent exactly when `mss` is more than half of that.
  */
  lemma InitializeThenSetMtu(conv: Word, now: Word, mss: pos)
    ensures var c := Update(Bits32, Created(conv), now).e.cong;
            WindowOk(c, mss) <==> mss > (MTU_DEF - OVERHEAD) / 2
  {
    hide Promote, DueSegments;
    var (clock, due) := Advance(Created(conv).clock, INTERVAL, now);
    assert due by {
      assert TimeDiff(now, now) == 0;
    }
    var e := Created(conv).(clock := clock);
    assert Promote(Bits32, e, e.snd, Window(e)) == e.snd by {
      NothingToPromote(e);
    }
    assert Update(Bits32, Created(conv), now).e.cong == Cong(1, MTU_DEF - OVERHEAD, THRESH_INIT);
  }

  lemma NothingToPromote(e: Endpoint)
    requires e.snd.queue == []
    ensures Promote(Bits32, e, e.snd, Window(e)) == e.snd
  {
  }

  /** A threshold `ikcp_nodelay` accepts, with the default segment size. */
  const HUGE_RESEND := 3_200_000

  /** A control block with one segment on its way that has been skipped that often. */
  function Skipped(): Endpoint {
    var e := Created(1);
    e.(cfg := NoDelay(e.cfg, -1, -1, HUGE_RESEND, -1), clock := Clock(0, INTERVAL, true),
       cong := Cong(1, MTU_DEF - OVERHEAD, THRESH_INIT),
       snd := Snd(0, 1, [], [SndSeg(Wire(1, CMD_PUSH, 0, 128, 0, 0, 0, [9]), RTO_DEF, RTO_DEF, HUGE_RESEND, 1)]))
  }

  lemma SkippedIsDue()
    ensures var e := Skipped(); var buf := e.snd.buf;
            && CountDue(e, buf, Fast) == 1 && CountDue(e, buf, Timeout) == 0
            && Promote(Bits32, e, e.snd, Window(e)) == e.snd
  {
    hide Tick;
    var e := Skipped();
    NothingToPromote(e);
    assert TimeDiff(0, RTO_DEF) == -200 && Signed(1) == 1;
    assert DueFor(e, e.snd.buf[0]) == Fast;
    assert e.snd.buf[1..] == [];
    assert CountDue(e, [], Fast) == 0 && CountDue(e, [], Timeout) == 0;
  }

  lemma SkippedIsValid()
    ensures EndpointInv(Bits32, Skipped()) && WindowOk(Skipped().cong, Skipped().cfg.mss)
  {
    Exactly(1, MTU_DEF - OVERHEAD);
  }

  /** Its next flush retransmits the segment, and leaves `incr` wrapped and far from `cwnd` segments. */
  lemma WindowWraps()
    ensures var e := Skipped();
            && EndpointInv(Bits32, e) && WindowOk(e.cong, e.cfg.mss)
            && Flush(Bits32, e).e.cong.cwnd == HUGE_RESEND + 2
            && !WindowOk(Flush(Bits32, e).e.cong, e.cfg.mss)
  {
    hide EndpointInv, WindowOk, Backed, TickAll, ProbeTick, AckSegments, ProbeSegments, DueSegments, CountDue, Promote,
         Exhausted, Window;
    SkippedIsDue();
    SkippedIsValid();
    WrapSmall(1);
    var e := Skipped();
    BackedKeeps(e.cong, e.cfg, 1, Window(e), true, false);
  }
}
