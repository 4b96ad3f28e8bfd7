/** What a session starts from: a new control block, initialized and then configured. */
module Starting {
  import opened Serial
  import opened WireFormat
  import opened Endpoints
  import opened Invariants
  import opened Timers
  import opened Congestion
  import opened EndToEnd
  import opened Sessions

  /** The part of `KcpConfig` that sizes the control block. */
  datatype Limits = Limits(stream: bool, mtu: cint, sndWnd: cint, rcvWnd: cint)

  /** An MTU that `ikcp_setmtu` takes, and a receive window below a quarter of the number circle. */
  predicate Usable(l: Limits) {
    50 <= l.mtu && 2 * l.rcvWnd < TWO31 - 65536
  }

  function Sized(l: Limits, cfg: Config): Config
    requires Usable(l)
  {
    cfg.(stream := l.stream, mtu := l.mtu, mss := l.mtu - OVERHEAD,
         sndWnd := if l.sndWnd > 0 then l.sndWnd else cfg.sndWnd,
         rcvWnd := if l.rcvWnd > 0 then Max(l.rcvWnd, WND_RCV) else cfg.rcvWnd)
  }

  /** `Kcp::initialize`, which updates, then `Task::kcp_apply_config`. */
  function Configured(c: Settings, l: Limits, conv: Word, now: Word): Endpoint
    requires Usable(l)
  {
    var e := Update(Bits32, Created(conv), now).e;
    e.(cfg := NoDelay(Sized(l, e.cfg), if c.nodelay then 1 else 0, c.interval, c.resend, if c.nc then 1 else 0))
  }

  /** The first update of a new control block flushes, and there is nothing to send. */
  lemma FirstUpdate(conv: Word, now: Word)
    ensures var r := Update(Bits32, Created(conv), now);
            && r.segs == [] && r.e.clock.updated && r.e.cfg == Created(conv).cfg
            && r.e.snd == Created(conv).snd && r.e.rcv == Created(conv).rcv && r.e.rtt == Created(conv).rtt
            && r.e.rmtWnd == WND_RCV && r.e.cong == Cong(1, MTU_DEF - OVERHEAD, THRESH_INIT)
  {
    hide Promote;
    var (clock, due) := Advance(Created(conv).clock, INTERVAL, now);
    assert due by {
      assert TimeDiff(now, now) == 0;
    }
    var e := Created(conv).(clock := clock);
    NothingToPromote(e);
    assert DueSegments(e, []) == [] && TickAll(e, []) == [];
    WrapSmall(MTU_DEF - OVERHEAD);
  }

  /**
    Whatever the configuration, a session starts from a control block without traffic on which all
    the invariants hold, except that the congestion window starts consistent only with an `mss` of
    more than half the default one: the first flush comes before the MTU.
  */
  lemma ConfiguredStarts(c: Settings, l: Limits, conv: Word, now: Word)
    requires Usable(l)
    ensures var e := Configured(c, l, conv, now);
            && Unused(e) && EndpointInv(Bits32, e) && TimersOk(e) && e.clock.updated
            && e.cfg.conv == conv && e.cfg.mtu == l.mtu
            && (CongestionInv(e) <==> e.cfg.mss <= MAX_MSS && Moderate(e.cfg.fastresend, e.cfg.mss)
                                      && e.cfg.mss > (MTU_DEF - OVERHEAD) / 2)
  {
    hide Update, Moderate, WindowOk;
    FirstUpdate(conv, now);
    var e := Configured(c, l, conv, now);
    assert RcvInv(Bits32, e.rcv, e.cfg.rcvWnd);
    InitializeThenSetMtu(conv, now, e.cfg.mss);
  }

  /** What `ikcp_nodelay` makes of its arguments. */
  lemma SettingsTake(cfg: Config, nodelay: cint, interval: cint, resend: cint, nc: cint)
    ensures var r := NoDelay(cfg, nodelay, interval, resend, nc);
            && r == cfg.(nodelay := r.nodelay, minrto := r.minrto, interval := r.interval, fastresend := r.fastresend,
                         nocwnd := r.nocwnd)
            && (nodelay < 0 ==> r.nodelay == cfg.nodelay && r.minrto == cfg.minrto)
            && (nodelay >= 0 ==> r.nodelay == nodelay && r.minrto == if nodelay == 0 then 100 else 30)
            && (interval < 0 ==> r.interval == cfg.interval)
            && (interval >= 0 ==> 10 <= r.interval <= 5000 && (10 <= interval <= 5000 ==> r.interval == interval)
                                  && (interval < 10 ==> r.interval == 10) && (interval > 5000 ==> r.interval == 5000))
            && r.fastresend == (if resend < 0 then cfg.fastresend else resend)
            && r.nocwnd == (if nc < 0 then cfg.nocwnd else nc != 0)
  {
  }

  /** The control block of `ikcp_create`, in numbers. */
  lemma CreatedIs(conv: Word)
    ensures var e := Created(conv);
            && e.cfg == Config(conv, 1400, 1376, 32, 256, false, 0, 100, 100, 0, 5, false, 20)
            && e.snd == Snd(0, 0, [], []) && e.rcv == Rcv(0, [], [], []) && e.rmtWnd == 256
            && e.rtt == Rtt(0, 0, 200) && e.cong == Cong(0, 0, 2) && e.probe == Probe(false, false, 0, 0)
            && e.clock == Clock(0, 100, false) && e.xmit == 0 && !e.dead
  {
  }
}
