/**
  The settings a session runs KCP with, over every run: the sizes and the mode it was given, quick
  retransmission until it is established, and from then on the timing that is configured.
*/
module Tuning {
  import opened Serial
  import opened WireFormat
  import opened Endpoints
  import opened Invariants
  import opened Network
  import opened Lifetime
  import opened Marking
  import opened Sessions
  import opened SessionSafety
  import opened Frames
  import opened Labels
  import opened Identity
  import opened Starting

  /** The MTU, the windows and the mode are the same, and so is what cannot be set at all. */
  predicate SameSizes(cfg: Config, base: Config) {
    && cfg.mtu == base.mtu && cfg.mss == base.mss && cfg.sndWnd == base.sndWnd && cfg.rcvWnd == base.rcvWnd
    && cfg.stream == base.stream && cfg.fastlimit == base.fastlimit && cfg.deadLink == base.deadLink
  }

  /** The timing of the SYN handshake. */
  predicate Quick(cfg: Config) {
    cfg.nodelay == 1 && cfg.minrto == 30 && cfg.interval == 100 && cfg.fastresend == 0 && !cfg.nocwnd
  }

  /** The configured timing; an interval out of range is clipped, a negative argument keeps what was there. */
  predicate AsAsked(c: Settings, cfg: Config) {
    && cfg.nodelay == (if c.nodelay then 1 else 0) && cfg.minrto == (if c.nodelay then 30 else 100)
    && cfg.interval == (if c.interval < 0 then 100 else Max(10, Min(c.interval, 5000)))
    && cfg.fastresend == Max(c.resend, 0) && cfg.nocwnd == c.nc
  }

  predicate Tuned(c: Settings, base: Config, s: Session) {
    && SameSizes(s.node.e.cfg, base)
    && (s.hs == Syn ==> Quick(s.node.e.cfg)) && (s.told != [] ==> AsAsked(c, s.node.e.cfg))
  }

  /** No setting but the conv changes. */
  predicate Steady(s: Session, t: Session) {
    t.node.e.cfg == s.node.e.cfg.(conv := t.node.e.cfg.conv)
  }

  lemma SteadyKeeps(c: Settings, base: Config, s: Session, t: Session)
    requires Tuned(c, base, s) && Steady(s, t) && (t.hs == Syn ==> s.hs == Syn) && (t.told != [] ==> s.told != [])
    ensures Tuned(c, base, t)
  {
  }

  lemma KeepsSteady(s: Session, t: Session)
    requires Keeps(s, t)
    ensures Steady(s, t)
  {
  }

  lemma SteadyThen(s: Session, t: Session, u: Session)
    requires Steady(s, t) && Steady(t, u)
    ensures Steady(s, u)
  {
  }

  lemma SteadyFlags(s: Session, t: Session)
    requires Steady(s, t)
    ensures Steady(s, t.(flush := true)) && Steady(s, t.(hs := Disconnected))
  {
  }

  lemma TakesTiming(c: Settings, cfg: Config)
    requires Quick(cfg)
    ensures var r := NoDelay(cfg, if c.nodelay then 1 else 0, c.interval, c.resend, if c.nc then 1 else 0);
            AsAsked(c, r) && SameSizes(r, cfg)
  {
  }

  lemma SynInputSteady(s: Session, p: bytes)
    ensures Steady(s, SynHandshakeInput(s, p))
  {
    hide Act, Hear, Word32, InputCode;
    if |p| >= OVERHEAD {
      var conv, mine := Word32(p), s.node.e.cfg.conv;
      SetConvNode(s, conv);
      var t := Hear(Act(s, DoSetConv(conv)), p);
      HearLabels(Act(s, DoSetConv(conv)), p);
      SetConvNode(t, mine);
      SetConvNode(t, SYN_CONV);
    }
  }

  lemma KcpInputSteady(c: Settings, s: Session, p: bytes, now: Word)
    ensures Steady(s, KcpInput(c, s, p, now))
  {
    hide Hear, SynHandshakeInput, InputCode, HasBit, FinInput, Keeps, Quiet, Steady;
    var t := Hear(s, p);
    HearSteady(s, p);
    SteadyFlags(s, t);
    SynInputSteady(t, p);
    SteadyThen(s, t, SynHandshakeInput(t, p));
    if |p| > 4 && HasBit(p[4], KCP_FIN) {
      FinInputLabels(c, t, p, now);
      KeepsSteady(t, FinInput(c, t, p, now));
      SteadyThen(s, t, FinInput(c, t, p, now));
    }
  }

  lemma HearSteady(s: Session, p: bytes)
    ensures Steady(s, Hear(s, p))
  {
    hide Hear, Labelled, Nothing;
    HearLabels(s, p);
  }

  lemma AfterPacketsSteady(c: Settings, s: Session, room: bool, now: Word)
    requires s.hs != Syn
    ensures Steady(s, AfterPackets(c, s, room, now))
  {
    hide FinTransit, KcpRecv, KcpFlush, Labelled, Nothing;
    FinTransitLabels(c, s, now);
    var t := if s.hs == FinPending || s.hs == FinSent then FinTransit(c, s, now) else s;
    FetchSteady(t, now);
  }

  /** The end of every batch. */
  lemma FetchSteady(t: Session, now: Word)
    ensures var (u, x) := KcpRecv(t, ForApplication);
            Steady(t, KcpFlush(if t.frame.None? then u.(frame := x) else t, now))
  {
    hide KcpRecv, KcpFlush, Labelled, Nothing;
    var (u, x) := KcpRecv(t, ForApplication);
    KcpRecvLabels(t, ForApplication);
    KcpFlushLabels(if t.frame.None? then u.(frame := x) else t, now);
  }

  /** The first frame: without it nothing changes; a right one brings the configured timing. */
  lemma SynRecvTuned(c: Settings, base: Config, s: Session, room: bool, now: Word)
    requires Tuned(c, base, s) && s.hs == Syn && s.told == []
    ensures var (u, ok) := SynHandshakeRecv(c, s, room, now);
            Tuned(c, base, u) && (u.hs == Connected || u.told == []) && Tuned(c, base, u.(hs := Disconnected))
  {
    hide KcpRecv, HasKey, Establish, Labelled, Nothing, AsAsked, Quick, SameSizes;
    var (t, syn) := KcpRecv(s, ForHandshake);
    KcpRecvLabels(s, ForHandshake);
    KcpRecvKnown(s, ForHandshake);
    if syn.Some? && HasKey(c, syn.value) {
      KeyLong(c, syn.value);
      EstablishTuned(c, base, t, syn.value[|c.key|..], room, now);
    }
  }

  lemma EstablishTuned(c: Settings, base: Config, s: Session, id: bytes, room: bool, now: Word)
    requires SameSizes(s.node.e.cfg, base) && Quick(s.node.e.cfg)
    ensures var t := Establish(c, s, id, room, now).0;
            SameSizes(t.node.e.cfg, base) && AsAsked(c, t.node.e.cfg) && t.hs == Connected
  {
    hide Establish, Labelled, NoDelay;
    EstablishLabels(c, s, id, room, now);
    TakesTiming(c, s.node.e.cfg);
  }

  lemma NetDoneTuned(c: Settings, base: Config, s: Session, room: bool, now: Word)
    requires Tuned(c, base, s) && ControlInv(s)
    ensures Tuned(c, base, AfterPackets(c, s, room, now))
  {
    hide SynHandshakeRecv, AfterPackets, Tuned, KcpRecv, KcpFlush;
    if s.hs == Syn {
      SynRecvTuned(c, base, s, room, now);
      var (u0, ok) := SynHandshakeRecv(c, s, room, now);
      var u := if ok then u0 else u0.(hs := Disconnected);
      FetchSteady(u, now);
      InSyn(c, s, room, now);
      var (v, x) := KcpRecv(u, ForApplication);
      FetchTells(u, now);
      SteadyKeeps(c, base, u, AfterPackets(c, s, room, now));
    } else {
      AfterPacketsSteady(c, s, room, now);
      AfterPacketsKnown(c, s, room, now);
      AfterPacketsLater(c, s, room, now);
      SteadyKeeps(c, base, s, AfterPackets(c, s, room, now));
    }
  }

  lemma FetchTells(u: Session, now: Word)
    ensures var (v, x) := KcpRecv(u, ForApplication);
            var w := KcpFlush(if u.frame.None? then v.(frame := x) else u, now);
            w.hs == u.hs && w.told == u.told
  {
    hide KcpRecv, KcpFlush;
  }

  lemma AfterPacketsLater(c: Settings, s: Session, room: bool, now: Word)
    requires s.hs != Syn
    ensures AfterPackets(c, s, room, now).hs != Syn
  {
    hide FinTransit, KcpRecv, KcpFlush;
    FinTransitRises(c, s, now);
  }

  lemma StepTuned(c: Settings, base: Config, s: Session, ev: SEvent)
    requires Tuned(c, base, s) && ControlInv(s)
    ensures Tuned(c, base, Step(c, s, ev))
  {
    hide OnInput, HandOver, KcpInput, AfterPackets, OnTop, Full, Tuned, Keeps, Steady, ControlInv;
    if s.over {
      return;
    }
    StepControl(c, s, ev);
    var t := Step(c, s, ev);
    match ev
    case LoopTop(now) =>
      OnTopKnown(c, s, now);
      OnTopSteady(c, s, now);
      SteadyKeeps(c, base, s, t);
    case FromApp(now) =>
      OnInputKnown(c, s, now);
      OnInputLabels(c, s, now);
      KeepsSteady(s, OnInput(c, s, now));
      SelfSteady(s);
      SteadyKeeps(c, base, s, t);
    case ToApp(room) =>
      SelfSteady(s);
      if s.hs != Disconnected && s.frame.Some? {
        ToldSome(s);
        OnOutputSteady(s, room);
      }
      SteadyKeeps(c, base, s, t);
    case FromNet(p, now) =>
      KcpInputKnown(c, s, p, now);
      KcpInputSteady(c, s, p, now);
      SteadyKeeps(c, base, s, t);
    case NetDone(room, now) => NetDoneTuned(c, base, s, room, now);
    case _ =>
      SelfSteady(s);
      SteadyKeeps(c, base, s, t);
  }

  lemma SelfSteady(s: Session)
    ensures forall t: Session | t.node == s.node :: Steady(s, t)
  {
  }

  lemma OnOutputSteady(s: Session, room: nat)
    requires s.frame.Some?
    ensures Steady(s, OnOutput(s, room))
  {
    hide HandOver, Labelled, Nothing;
    HandOverLabels(s.(frame := None, told := s.told + [Frame(s.frame.value)]), room);
  }

  lemma OnTopSteady(c: Settings, s: Session, now: Word)
    ensures Steady(s, OnTop(c, s, now))
  {
    hide Act, Check, TimeDiff, Wrap, OutgoingAll, Max, Min, Labelled, Nothing, Quiet;
    ActLabels(KcpOutput(s), DoUpdate(now));
  }

  lemma BeginTuned(c: Settings, e: Endpoint, id: bytes, now: Word)
    ensures Tuned(c, e.cfg, Begin(c, New(e), id, now))
  {
    hide Act, Greet, Wrap, Labelled, AsAsked;
    var s := New(e).(hsEnd := Wrap(now + c.connectTimeout * 1000));
    ActRetunes(s, 1, 100, 0, 0);
    var t0 := Act(s, DoNoDelay(1, 100, 0, 0));
    var t := t0.(lastIo := t0.node.e.clock.current, client := true, id := id);
    SetConvNode(t, SYN_CONV);
    BeginControl(c, e, id, now);
    GreetLabels(c, Act(t, DoSetConv(SYN_CONV)), now);
  }

  /**
    Over every run: the MTU, the windows and the mode stay as they were given; retransmission is quick
    in the SYN handshake; and once the application was told anything, the timing is the configured one.
  */
  lemma {:induction false} RunTuned(c: Settings, e: Endpoint, id: bytes, now: Word, evs: seq<SEvent>)
    ensures Tuned(c, e.cfg, RunSession(c, e, id, now, evs))
  {
    hide Step, Begin, ControlInv, Tuned;
    if evs == [] {
      BeginTuned(c, e, id, now);
    } else {
      var init := evs[..|evs| - 1];
      RunTuned(c, e, id, now, init);
      RunControl(c, e, id, now, init, |init|);
      StepTuned(c, e.cfg, RunSession(c, e, id, now, init), evs[|evs| - 1]);
    }
  }

  /** The sizes and the mode asked for; a window that is not positive keeps its default. */
  predicate AsSized(l: Limits, cfg: Config) {
    && cfg.stream == l.stream && cfg.mtu == l.mtu && cfg.mss == l.mtu - OVERHEAD
    && cfg.sndWnd == (if l.sndWnd > 0 then l.sndWnd else 32)
    && cfg.rcvWnd == (if l.rcvWnd > 0 then Max(l.rcvWnd, 256) else 256)
    && cfg.fastlimit == 5 && cfg.deadLink == 20
  }

  /** And that is what the configuration asked for, from the new control block on. */
  lemma ConfiguredRun(c: Settings, l: Limits, conv: Word, start: Word, id: bytes, now: Word, evs: seq<SEvent>)
    requires Usable(l)
    ensures var s := RunSession(c, Configured(c, l, conv, start), id, now, evs);
            && AsSized(l, s.node.e.cfg)
            && (s.hs == Syn ==> Quick(s.node.e.cfg)) && (s.told != [] ==> AsAsked(c, s.node.e.cfg))
  {
    hide RunSession, Update, Quick, AsAsked, RcvInv;
    FirstUpdate(conv, start);
    RunTuned(c, Configured(c, l, conv, start), id, now, evs);
  }
}
