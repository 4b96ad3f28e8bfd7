/** When `ikcp_update` flushes, and when `ikcp_check` says it is needed next: exactly. */
module Pace {
  import opened Serial
  import opened WireFormat
  import opened Endpoints
  import opened Timers

  /** The first update flushes, and each one at or after its time; so does one far out of step. */
  predicate DueAt(e: Endpoint, now: Word) {
    !e.clock.updated || TimeDiff(now, e.clock.tsFlush) >= 0 || TimeDiff(now, e.clock.tsFlush) < -10000
  }

  /**
    The next flush time `ts`: at most an interval ahead, and in step with the last one, unless the
    update is the first, or a whole interval or ten seconds late.
  */
  predicate NextFlush(e: Endpoint, now: Word, ts: Word) {
    var late := TimeDiff(now, e.clock.tsFlush);
    && 0 < TimeDiff(ts, now) <= e.cfg.interval
    && (e.clock.updated && 0 <= late < Min(10000, e.cfg.interval) ==> ts == Wrap(e.clock.tsFlush + e.cfg.interval))
    && (!e.clock.updated || late >= Min(10000, e.cfg.interval) || late < -10000 ==> ts == Wrap(now + e.cfg.interval))
  }

  /**
    An update is a flush at the new time if and only if one is due, and sets the next time; otherwise
    it changes nothing but the current time.
  */
  lemma UpdateFlushes(ar: Arith, e: Endpoint, now: Word)
    requires 1 <= e.cfg.interval <= 5000
    ensures var r, ts := Update(ar, e, now), Update(ar, e, now).e.clock.tsFlush;
            if DueAt(e, now) then
              r == Endpoints.Flush(ar, e.(clock := Clock(now, ts, true))) && NextFlush(e, now, ts)
            else r == Flushed(e.(clock := e.clock.(current := now)), [])
  {
    hide Endpoints.Flush, TimeDiff, Wrap;
    var start := if e.clock.updated then e.clock.tsFlush else now;
    DiffZero(Bits32, now, now);
    Forward(now, e.cfg.interval);
    FlushClock(ar, e.(clock := Advance(e.clock, e.cfg.interval, now).0));
    Onward(start, now, e.cfg.interval);
  }

  lemma FlushClock(ar: Arith, e: Endpoint)
    ensures Endpoints.Flush(ar, e).e.clock == e.clock
  {
  }

  lemma Forward(now: Word, d: int)
    requires 1 <= d <= 5000
    ensures TimeDiff(Wrap(now + d), now) == d && TimeDiff(now, Wrap(now + d)) == -d
  {
    SignedUnique(Wrap(now + d) - now, -((now + d) / TWO32), d);
    SignedUnique(now - Wrap(now + d), (now + d) / TWO32, -d);
  }

  /** From a start at most 10 s ago, the next step of the interval. */
  lemma Onward(start: Word, now: Word, d: nat)
    requires 1 <= d <= 5000
    ensures 0 <= TimeDiff(now, start) < 10000 ==>
              && TimeDiff(now, Wrap(start + d)) == TimeDiff(now, start) - d
              && TimeDiff(Wrap(start + d), now) == d - TimeDiff(now, start)
  {
    if 0 <= TimeDiff(now, start) < 10000 {
      var k := SignedShape(now - start);
      var l := (start + d) / TWO32;
      SignedUnique(now - Wrap(start + d), k + l, TimeDiff(now, start) - d);
      SignedUnique(Wrap(start + d) - now, -k - l, d - TimeDiff(now, start));
    }
  }

  /** Something to do now: a flush, or a retransmission. */
  predicate Busy(e: Endpoint, now: Word) {
    DueAt(e, now) || exists i :: 0 <= i < |e.snd.buf| && TimeDiff(e.snd.buf[i].resendts, now) <= 0
  }

  /** The wait: the least of the interval and the times to the next flush and to each retransmission. */
  predicate ShortestWait(e: Endpoint, now: Word, wait: int) {
    && wait <= e.cfg.interval && wait <= TimeDiff(e.clock.tsFlush, now)
    && (forall i | 0 <= i < |e.snd.buf| :: wait <= TimeDiff(e.snd.buf[i].resendts, now))
    && (wait == e.cfg.interval || wait == TimeDiff(e.clock.tsFlush, now)
        || exists i :: 0 <= i < |e.snd.buf| && wait == TimeDiff(e.snd.buf[i].resendts, now))
  }

  /** `ikcp_check` returns now exactly when there is something to do, and otherwise the earliest time there will be. */
  lemma CheckExact(e: Endpoint, now: Word)
    requires 1 <= e.cfg.interval <= 5000
    ensures var wait := Wrap(Check(e, now) - now);
            (wait == 0 <==> Busy(e, now)) && (!Busy(e, now) ==> ShortestWait(e, now, wait))
  {
    hide TimeDiff, SoonestResend, Wrap;
    var soonest, flush := SoonestResend(e.snd.buf, now, 0x7fff_ffff), TimeDiff(e.clock.tsFlush, now);
    SoonestIsLeast(e.snd.buf, now, 0x7fff_ffff);
    SoonestIsOne(e.snd.buf, now, 0x7fff_ffff);
    Reverse(now, e.clock.tsFlush);
    WrapBack(now, 0);
    WrapNow(now);
    WrapBack(now, Min(Min(soonest, flush), e.cfg.interval));
  }

  lemma WrapNow(now: Word)
    ensures Wrap(now) == now && Wrap(now - now) == 0
  {
  }

  lemma {:induction false} SoonestIsOne(buf: seq<SndSeg>, now: Word, best: int)
    ensures var s := SoonestResend(buf, now, best);
            s == best || exists i :: 0 <= i < |buf| && s == TimeDiff(buf[i].resendts, now)
  {
    hide TimeDiff;
    if buf != [] {
      var best1 := Min(best, TimeDiff(buf[0].resendts, now));
      SoonestIsOne(buf[1..], now, best1);
      var s := SoonestResend(buf, now, best);
      if i :| 0 <= i < |buf[1..]| && s == TimeDiff(buf[1..][i].resendts, now) {
        assert s == TimeDiff(buf[i + 1].resendts, now);
      }
    }
  }
}
