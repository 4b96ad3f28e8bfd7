/** The round-trip estimator, the retransmission timer, and the schedule `ikcp_check` promises. */
module Timers {
  import opened Serial
  import opened WireFormat
  import opened Endpoints
  import opened Invariants

  /* ---------------------------------------------------------------- round-trip time */

  /** Samples up to this bound cannot overflow the estimator: 8 * MAX_SAMPLE < 2^31. */
  const MAX_SAMPLE := 0x0fff_ffff

  /** The estimator in unbounded arithmetic (section 2 of RFC 6298, with gains 1/8 and 1/4). */
  function Smoothed(cfg: Config, t: Rtt, rtt: nat): Rtt {
    var gap := if rtt < t.srtt then t.srtt - rtt else rtt - t.srtt;
    var srtt := if t.srtt == 0 then rtt else Max(1, (7 * t.srtt + rtt) / 8);
    var rttval := if t.srtt == 0 then rtt / 2 else (3 * t.rttval + gap) / 4;
    Rtt(srtt, rttval, Bound(cfg.minrto, srtt + Max(cfg.interval, 4 * rttval), RTO_MAX))
  }

  predicate RttBounded(t: Rtt, r: nat) {
    0 <= t.srtt <= r && 0 <= t.rttval <= r
  }

  /** The unbounded averages stay within the samples, and the timeout within its bounds. */
  lemma SmoothedBounded(cfg: Config, t: Rtt, rtt: nat, r: nat)
    requires RttBounded(t, r) && rtt <= r && cfg.minrto <= RTO_MAX
    ensures RttBounded(Smoothed(cfg, t, rtt), r) && cfg.minrto <= Smoothed(cfg, t, rtt).rto <= RTO_MAX
  {
    Average(7, t.srtt, rtt, r);
    Average(3, t.rttval, if rtt < t.srtt then t.srtt - rtt else rtt - t.srtt, r);
  }

  /**
    With samples of at most r the 32-bit estimator computes the unbounded one, both averages stay
    within [0, r], and the timeout lies between its two bounds.
  */
  lemma UpdateAckExact(cfg: Config, t: Rtt, rtt: nat, r: nat)
    requires RttBounded(t, r) && rtt <= r <= MAX_SAMPLE && cfg.interval <= 5000 && cfg.minrto <= RTO_MAX
    ensures UpdateAck(cfg, t, rtt) == Smoothed(cfg, t, rtt)
    ensures RttBounded(UpdateAck(cfg, t, rtt), r)
    ensures cfg.minrto <= UpdateAck(cfg, t, rtt).rto <= RTO_MAX
  {
    hide Signed, Wrap, TruncDiv, Bound;
    SmoothedBounded(cfg, t, rtt, r);
    var gap := if rtt < t.srtt then t.srtt - rtt else rtt - t.srtt;
    SignedSmall(rtt - t.srtt);
    SignedSmall(3 * t.rttval);
    SignedSmall(7 * t.srtt);
    SignedSmall(7 * t.srtt + rtt);
    TruncNat(rtt, 2);
    TruncNat(7 * t.srtt + rtt, 8);
    TruncNat(3 * t.rttval + gap, 4);
    SignedSmall((3 * t.rttval + gap) / 4);
    var s := Smoothed(cfg, t, rtt);
    WrapSmall(4 * s.rttval);
    WrapSmall(s.srtt + Max(cfg.interval, 4 * s.rttval));
  }

  lemma TruncNat(a: nat, b: pos)
    ensures TruncDiv(a, b) == a / b
  {
  }

  /** A weighted average of two numbers is no larger than both. */
  lemma Average(k: nat, a: int, b: int, r: nat)
    requires 0 <= a <= r && 0 <= b <= r && k in {3, 7}
    ensures 0 <= (k * a + b) / (k + 1) <= r
  {
  }

  lemma SignedSmall(x: int)
    requires -TWO31 <= x < TWO31
    ensures Signed(x) == x
  {
    SignedUnique(x, 0, x);
  }

  function EstimateAll(cfg: Config, t: Rtt, samples: seq<nat>): Rtt {
    if samples == [] then t
    else UpdateAck(cfg, EstimateAll(cfg, t, samples[..|samples| - 1]), samples[|samples| - 1])
  }

  /** Over any sequence of samples. */
  lemma {:induction false} EstimateBounded(cfg: Config, t: Rtt, samples: seq<nat>, r: nat)
    requires RttBounded(t, r) && r <= MAX_SAMPLE && cfg.interval <= 5000 && cfg.minrto <= RTO_MAX
    requires forall i | 0 <= i < |samples| :: samples[i] <= r
    ensures RttBounded(EstimateAll(cfg, t, samples), r)
    ensures samples != [] ==> cfg.minrto <= EstimateAll(cfg, t, samples).rto <= RTO_MAX
  {
    hide UpdateAck;
    if samples != [] {
      EstimateBounded(cfg, t, samples[..|samples| - 1], r);
      UpdateAckExact(cfg, EstimateAll(cfg, t, samples[..|samples| - 1]), samples[|samples| - 1], r);
    }
  }

  /** The bound is the best one: two samples of one more make the average collapse to 1. */
  lemma EstimatorOverflows(cfg: Config, t: Rtt)
    requires t.srtt == MAX_SAMPLE + 1
    ensures UpdateAck(cfg, t, MAX_SAMPLE + 1).srtt == 1
  {
    assert 7 * t.srtt == 0x7000_0000 && Signed(0x7000_0000) == 0x7000_0000;
    assert Signed(0x8000_0000) == -0x8000_0000;
    assert TruncDiv(-0x8000_0000, 8) == -0x1000_0000;
  }

  /* ---------------------------------------------------------------- retransmission timeout */

  function Pow2(n: nat): nat {
    if n == 0 then 1 else 2 * Pow2(n - 1)
  }

  /** A segment sent x times, x <= 16, has a timeout between 30 ms and 60 s doubled x - 1 times. */
  predicate RtoOk(s: SndSeg) {
    1 <= s.xmit <= 16 ==> RTO_NDL <= s.rto <= RTO_MAX * Pow2(s.xmit - 1)
  }

  predicate AllRtoOk(buf: seq<SndSeg>) {
    forall i | 0 <= i < |buf| :: RtoOk(buf[i])
  }

  /** No transmission counter is about to wrap to 0. */
  predicate Countable(buf: seq<SndSeg>) {
    forall i | 0 <= i < |buf| :: buf[i].xmit < TWO32 - 1
  }

  ghost predicate TimersOk(e: Endpoint) {
    && RTO_NDL <= e.cfg.minrto <= RTO_MAX && RTO_NDL <= e.rtt.rto <= RTO_MAX
    && AllRtoOk(e.snd.buf)
  }

  lemma {:induction false} Pow2Bound(n: nat)
    requires n <= 15
    ensures 1 <= Pow2(n) <= 32768
    ensures n < 15 ==> Pow2(n) <= 16384
  {
    if n > 0 {
      Pow2Bound(n - 1);
      if n < 15 {
        Pow2Halves(n);
      }
    } else {
      assert Pow2(0) == 1;
    }
  }

  lemma {:induction false} Pow2Halves(n: nat)
    requires n <= 14
    ensures Pow2(n) <= 16384
  {
    assert Pow2(14) == 16384 by {
      assert Pow2(4) == 16 && Pow2(8) == 256 && Pow2(12) == 4096;
    }
    Pow2Monotone(n, 14);
  }

  lemma {:induction false} Pow2Monotone(m: nat, n: nat)
    requires m <= n
    ensures Pow2(m) <= Pow2(n)
  {
    if m < n {
      Pow2Monotone(m, n - 1);
    }
  }

  /** A timer set now, less than half the number circle ahead, has not run out now. */
  lemma Ahead(now: Word, wait: int)
    requires 0 < wait < TWO31
    ensures TimeDiff(now, Wrap(now + wait)) < 0
  {
    var k := (now + wait) / TWO32;
    SignedUnique(now - Wrap(now + wait), k, -wait);
  }

  lemma TickTimer(e: Endpoint, s: SndSeg)
    requires RTO_NDL <= e.rtt.rto <= RTO_MAX && RtoOk(s)
    ensures var t := Tick(e, s);
            && RtoOk(t) && (1 <= t.xmit <= 16 ==> TimeDiff(e.clock.current, t.resendts) < 0)
            && (s.xmit < TWO32 - 1 ==> t.xmit >= 1)
  {
    hide TimeDiff, Wrap, Backoff, Signed;
    var now, t := e.clock.current, Tick(e, s);
    WrapSmall(1);
    WrappedNext(s.xmit);
    WrapSmall(e.rtt.rto);
    if 1 <= t.xmit <= 16 && !DueFor(e, s).NotDue? {
      if s.xmit != 0 {
        assert s.xmit == t.xmit - 1;
        Pow2Bound(t.xmit - 1);
        Pow2Bound(s.xmit - 1);
        assert Pow2(t.xmit - 1) == 2 * Pow2(s.xmit - 1);
      }
      match DueFor(e, s) {
        case First =>
          assert Pow2(0) == 1;
          Ahead(now, e.rtt.rto + (if e.cfg.nodelay == 0 then e.rtt.rto / 8 else 0));
        case Timeout =>
          BackoffBound(e.cfg, s.rto, e.rtt.rto, Pow2(s.xmit - 1));
          Ahead(now, t.rto);
        case Fast =>
          Ahead(now, s.rto);
      }
    }
  }

  lemma WrappedNext(x: Word)
    ensures 1 <= Wrap(x + 1) ==> Wrap(x + 1) == x + 1
    ensures x < TWO32 - 1 ==> Wrap(x + 1) == x + 1
  {
  }

  lemma BackoffBound(cfg: Config, rto: Word, rxRto: int, k: nat)
    requires RTO_NDL <= rxRto <= RTO_MAX && 1 <= k <= 16384 && RTO_NDL <= rto <= RTO_MAX * k
    ensures RTO_NDL <= Backoff(cfg, rto, rxRto) <= RTO_MAX * (2 * k)
    ensures Backoff(cfg, rto, rxRto) < TWO31
    ensures Backoff(cfg, rto, rxRto) == if cfg.nodelay == 0 then rto + Max(rto, rxRto)
                                        else rto + (if cfg.nodelay < 2 then rto else rxRto) / 2
  {
    hide Wrap, Signed;
    assert RTO_MAX <= RTO_MAX * k <= 983040000;
    WrapSmall(rxRto);
    SignedSmall(rto);
    WrapSmall(rto + Max(rto, rxRto));
    WrapSmall(rto + (if cfg.nodelay < 2 then rto else rxRto) / 2);
  }

  /** A flush keeps the timers in range, and leaves every segment sent, with its timer running. */
  lemma FlushTimers(ar: Arith, e: Endpoint)
    requires TimersOk(e)
    ensures var r := Endpoints.Flush(ar, e).e;
            && TimersOk(r)
            && (e.clock.updated ==> forall i | 0 <= i < |r.snd.buf| ::
                  1 <= r.snd.buf[i].xmit <= 16 ==> TimeDiff(e.clock.current, r.snd.buf[i].resendts) < 0)
            && (e.clock.updated && Countable(e.snd.buf) ==> forall i | 0 <= i < |r.snd.buf| :: r.snd.buf[i].xmit >= 1)
  {
    hide Promote, TickAll, Tick, DueSegments, CountDue, Exhausted, Backed, ProbeTick, TimeDiff, RtoOk;
    if e.clock.updated {
      PromoteTimers(ar, e, e.snd, Window(e));
      TickAllTimers(e, Promote(ar, e, e.snd, Window(e)).buf);
    }
  }

  lemma TickAllTimers(e: Endpoint, buf: seq<SndSeg>)
    requires RTO_NDL <= e.rtt.rto <= RTO_MAX && AllRtoOk(buf)
    ensures var r := TickAll(e, buf); AllRtoOk(r) && forall i | 0 <= i < |r| ::
              && (1 <= r[i].xmit <= 16 ==> TimeDiff(e.clock.current, r[i].resendts) < 0)
              && (buf[i].xmit < TWO32 - 1 ==> r[i].xmit >= 1)
  {
    hide Tick, TimeDiff, RtoOk;
    forall i | 0 <= i < |buf|
      ensures RtoOk(TickAll(e, buf)[i])
      ensures 1 <= TickAll(e, buf)[i].xmit <= 16 ==> TimeDiff(e.clock.current, TickAll(e, buf)[i].resendts) < 0
      ensures buf[i].xmit < TWO32 - 1 ==> TickAll(e, buf)[i].xmit >= 1
    {
      TickTimer(e, buf[i]);
    }
  }

  lemma {:induction false} PromoteTimers(ar: Arith, e: Endpoint, s: Snd, window: nat)
    requires AllRtoOk(s.buf)
    ensures AllRtoOk(Promote(ar, e, s, window).buf)
    ensures Countable(s.buf) ==> Countable(Promote(ar, e, s, window).buf)
    decreases |s.queue|
  {
    hide Arith.Diff, Arith.Norm, WndUnused;
    if s.queue != [] && ar.Diff(s.nxt, ar.Norm(s.una + window)) < 0 {
      var s1 := s.(nxt := ar.Norm(s.nxt + 1), queue := s.queue[1..], buf := s.buf + [Numbered(e, s.nxt, s.queue[0])]);
      PromoteTimers(ar, e, s1, window);
      assert Promote(ar, e, s, window) == Promote(ar, e, s1, window);
    }
  }

  lemma SegmentTimers(ar: Arith, e: Endpoint, w: Wire)
    requires TimersOk(e)
    ensures TimersOk(InputSegment(ar, e, w))
  {
    hide InputPush, RtoOk;
    var k := ParseUnaSuffix(ar, e.snd.buf, w.una);
    var s1 := InputUna(ar, e.snd, w.una);
    var l := RemoveAckedShape(ar, s1.buf, w.sn);
    assert forall r: int :: e.cfg.minrto <= UpdateAck(e.cfg, e.rtt, r).rto <= RTO_MAX;
  }

  lemma {:induction false} SegmentsTimers(ar: Arith, e: Endpoint, ws: seq<Wire>)
    requires TimersOk(e)
    ensures TimersOk(InputSegments(ar, e, ws))
    decreases |ws|
  {
    hide InputSegment, TimersOk;
    if ws != [] {
      SegmentTimers(ar, e, ws[0]);
      SegmentsTimers(ar, InputSegment(ar, e, ws[0]), ws[1..]);
    }
  }

  lemma InputTimers(ar: Arith, e: Endpoint, p: Parsed)
    requires TimersOk(e)
    ensures TimersOk(InputParsed(ar, e, p))
  {
    hide InputSegments, FoldMaxAck, BumpFastack, Grow;
    SegmentsTimers(ar, e, p.segs);
    var e1, m := InputSegments(ar, e, p.segs), FoldMaxAck(ar, NoAck, p.segs);
    if m.MaxAck? {
      BumpFastackSame(ar, e1.snd.buf, m.sn);
    }
  }

  /* ---------------------------------------------------------------- ikcp_check */

  lemma {:induction false} SoonestIsLeast(buf: seq<SndSeg>, now: Word, best: int)
    ensures SoonestResend(buf, now, best) <= best
    ensures forall i | 0 <= i < |buf| :: SoonestResend(buf, now, best) <= TimeDiff(buf[i].resendts, now)
  {
    hide TimeDiff;
    if buf != [] {
      SoonestIsLeast(buf[1..], now, Min(best, TimeDiff(buf[0].resendts, now)));
    }
  }

  /** Moving the reference time forward by d, within the distance to x. */
  lemma Later(x: Word, now: Word, d: nat)
    requires d <= TimeDiff(x, now)
    ensures TimeDiff(x, Wrap(now + d)) == TimeDiff(x, now) - d
    ensures d < TimeDiff(x, now) ==> TimeDiff(Wrap(now + d), x) == d - TimeDiff(x, now)
  {
    var k := SignedShape(x - now);
    var l := (now + d) / TWO32;
    SignedUnique(x - Wrap(now + d), k + l, TimeDiff(x, now) - d);
    SignedUnique(Wrap(now + d) - x, -k - l, d - TimeDiff(x, now));
  }

  /**
    `ikcp_check(now)` never asks to wait longer than `interval`; at any earlier moment
    `ikcp_update` changes nothing but the clock; and nothing is due before the time it returns.
  */
  lemma CheckSound(ar: Arith, e: Endpoint, now: Word, d: nat)
    requires d < Wrap(Check(e, now) - now)
    ensures Wrap(Check(e, now) - now) <= e.cfg.interval
    ensures Update(ar, e, Wrap(now + d)) == Flushed(e.(clock := e.clock.(current := Wrap(now + d))), [])
    ensures TimeDiff(e.clock.tsFlush, Check(e, now)) >= 0
    ensures forall i | 0 <= i < |e.snd.buf| :: TimeDiff(e.snd.buf[i].resendts, Check(e, now)) >= 0
  {
    hide TimeDiff, Endpoints.Flush;
    var flush := TimeDiff(e.clock.tsFlush, now);
    var soonest := SoonestResend(e.snd.buf, now, 0x7fff_ffff);
    var wait := Min(Min(soonest, flush), e.cfg.interval);
    SoonestIsLeast(e.snd.buf, now, 0x7fff_ffff);
    Reverse(now, e.clock.tsFlush);
    CheckWaits(e, now);
    Later(e.clock.tsFlush, now, wait);
    Later(e.clock.tsFlush, now, d);
    forall i | 0 <= i < |e.snd.buf|
      ensures TimeDiff(e.snd.buf[i].resendts, Check(e, now)) >= 0
    {
      Later(e.snd.buf[i].resendts, now, wait);
    }
  }

  lemma Reverse(a: Word, b: Word)
    ensures -10000 <= TimeDiff(a, b) < 0 ==> TimeDiff(b, a) == -TimeDiff(a, b)
  {
    if -10000 <= TimeDiff(a, b) {
      DiffNegate(Bits32, a, b);
    }
  }

  /** When `ikcp_check` returns a later time. */
  lemma CheckWaits(e: Endpoint, now: Word)
    requires Wrap(Check(e, now) - now) > 0
    ensures var flush := TimeDiff(e.clock.tsFlush, now);
            var soonest := SoonestResend(e.snd.buf, now, 0x7fff_ffff);
            var wait := Min(Min(soonest, flush), e.cfg.interval);
            && e.clock.updated && -10000 <= TimeDiff(now, e.clock.tsFlush) < 0 && soonest > 0
            && Check(e, now) == Wrap(now + wait) && 0 < wait == Wrap(Check(e, now) - now)
  {
    hide TimeDiff, SoonestResend;
    Reverse(now, e.clock.tsFlush);
    var flush := TimeDiff(e.clock.tsFlush, now);
    var wait := Min(Min(SoonestResend(e.snd.buf, now, 0x7fff_ffff), flush), e.cfg.interval);
    WrapBack(now, wait);
  }

  lemma WrapBack(now: Word, wait: int)
    ensures 0 <= wait < TWO32 ==> Wrap(Wrap(now + wait) - now) == wait
  {
    if 0 <= wait < TWO32 {
      assert (now + wait) % TWO32 - now == wait - TWO32 * ((now + wait) / TWO32);
    }
  }
}
