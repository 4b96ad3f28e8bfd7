/**
  Who a session talks to: over every run, an established session has taken the key and one ID from
  the first frame it was handed; the client's own, or the one the server keeps.
*/
module Identity {
  import opened Serial
  import opened WireFormat
  import opened Endpoints
  import opened Network
  import opened Marking
  import opened Sessions
  import opened SessionSafety
  import opened Frames
  import opened Labels

  /** The first frame is the key and this session's ID, of the configured length. */
  ghost predicate Introduced(c: Settings, s: Session) {
    s.told != [] ==> s.node.got != [] && s.node.got[0] == c.key + s.id && |s.id| == c.idLen
  }

  /** Neither ID nor first frame changes any more, and whoever tells something has told before. */
  predicate Known(s: Session, t: Session) {
    t.id == s.id && s.node.got <= t.node.got && (t.told != [] ==> s.told != []) && t.client == s.client
  }

  lemma KnownKeeps(c: Settings, s: Session, t: Session)
    requires Introduced(c, s) && Known(s, t)
    ensures Introduced(c, t)
  {
  }

  lemma KnownThen(s: Session, t: Session, u: Session)
    requires Known(s, t) && Known(t, u)
    ensures Known(s, u)
  {
  }

  lemma NoReadKnown(s: Session, t: Session)
    requires NoRead(s, t) && t.id == s.id && t.client == s.client
    ensures Known(s, t)
  {
  }

  lemma KcpRecvKnown(s: Session, fate: Fate)
    ensures Known(s, KcpRecv(s, fate).0) && KcpRecv(s, fate).0.told == s.told
    ensures KcpRecv(s, fate).1.Some? && s.node.got == [] ==>
              KcpRecv(s, fate).0.node.got == [KcpRecv(s, fate).1.value]
    ensures KcpRecv(s, fate).1.None? && !s.finRecved ==> KcpRecv(s, fate).0 == s
  {
    hide RecvBytes;
    RecvBytesReads(s, fate);
    RecvBytesReads(s, Swallowed);
  }

  lemma KcpFlushKnown(s: Session, now: Word)
    ensures Known(s, KcpFlush(s, now)) && KcpFlush(s, now).node.got == s.node.got && KcpFlush(s, now).told == s.told
    ensures KcpFlush(s, now).hs == s.hs
  {
    hide Act;
    KcpFlushNoRead(s, now);
  }

  lemma {:induction false} FinTransitKnown(c: Settings, s: Session, now: Word)
    ensures Known(s, FinTransit(c, s, now)) && FinTransit(c, s, now).told == s.told
    decreases 5 - Rank(s.hs)
  {
    hide FinTransit;
    FinTransitNoRead(c, s, now);
    FinTransitId(c, s, now);
  }

  lemma {:induction false} FinTransitId(c: Settings, s: Session, now: Word)
    ensures FinTransit(c, s, now).id == s.id && FinTransit(c, s, now).client == s.client
    decreases 5 - Rank(s.hs)
  {
    hide FinTransit, HandshakeSend, Put, WaitSnd, Unread, Wrap;
    FinTurn(c, s, now);
    if !Stuck(s) {
      FinTransitId(c, Passed(c, s, now), now);
    }
  }

  lemma {:induction false} DrainKnown(c: Settings, s: Session)
    ensures var t := DrainInput(c, s).0; t.id == s.id && t.client == s.client && t.told == s.told
    decreases |s.input|
  {
    hide KcpSend, Put, Full;
    if !Full(s) && s.input != [] {
      DrainKnown(c, ProcessInput(c, s.(input := s.input[1..]), s.input[0]));
    }
  }

  lemma OnInputKnown(c: Settings, s: Session, now: Word)
    ensures Known(s, OnInput(c, s, now))
  {
    hide DrainInput, FinTransit, KcpFlush;
    var (t, closed) := DrainInput(c, s);
    DrainKnown(c, s);
    FinTransitKnown(c, t.(inputClosed := true), now);
    KcpFlushKnown(if closed then FinTransit(c, t.(inputClosed := true), now) else t, now);
    OnInputNoRead(c, s, now);
  }

  lemma {:induction false} HandOverKnown(s: Session, room: nat)
    requires s.told != []
    ensures Known(s, HandOver(s, room))
    decreases room
  {
    hide KcpRecv, Known;
    var (t, x) := KcpRecv(s, ForApplication);
    KcpRecvKnown(s, ForApplication);
    FrameKnown(s, t, x);
    if x.Some? && room > 0 {
      var u := t.(told := t.told + [Frame(x.value)]);
      HandOverKnown(u, room - 1);
      KnownThen(s, u, HandOver(u, room - 1));
    }
  }

  lemma FrameKnown(s: Session, t: Session, x: Option<bytes>)
    requires Known(s, t) && s.told != []
    ensures Known(s, t.(frame := x)) && (x.Some? ==> Known(s, t.(told := t.told + [Frame(x.value)])))
  {
  }

  lemma SynInputKnown(s: Session, p: bytes)
    ensures SynHandshakeInput(s, p).id == s.id && SynHandshakeInput(s, p).client == s.client
  {
    hide Act, Hear, Word32, InputCode, WaitSnd;
  }

  lemma KcpInputKnown(c: Settings, s: Session, p: bytes, now: Word)
    ensures Known(s, KcpInput(c, s, p, now))
  {
    hide Hear, SynHandshakeInput, InputCode, HasBit, FinTransit, Unmark;
    var t := Hear(s, p);
    KcpInputNoRead(c, s, p, now);
    SynInputKnown(t, p);
    FinTransitId(c, if t.finRecved then t else t.(finRecved := true, open := false), now);
  }

  /* ---------------------------------------------------------------- the SYN handshake */

  /** The frame a session in `Syn` accepts. */
  predicate RightFrame(c: Settings, s: Session, frame: bytes) {
    && |frame| == |c.key| + c.idLen && frame[..|c.key|] == c.key
    && (s.client ==> frame[|c.key|..] == s.id)
  }

  lemma GreetKnown(c: Settings, s: Session, now: Word)
    ensures var t := Greet(c, s, now);
            t.id == s.id && t.client == s.client && t.told == s.told && t.node.got == s.node.got
  {
    hide HandshakeSend, Put;
    GreetNoRead(c, s, now);
  }

  /** Accepting, and the other outcomes. */
  lemma SynOutcome(c: Settings, s: Session, room: bool, now: Word)
    requires s.hs == Syn && !s.finRecved && s.node.got == [] && s.told == []
    ensures var (t, ok) := SynHandshakeRecv(c, s, room, now);
            && t.client == s.client && (s.client ==> t.id == s.id)
            && (t.node.got == [] ==> ok && t == s && KcpRecv(s, ForHandshake).1.None?)
            && (t.node.got != [] ==>
                  && |t.node.got| == 1 && ok == (RightFrame(c, s, t.node.got[0]) && room)
                  && (ok ==> t.hs == Connected && t.node.got[0] == c.key + t.id && |t.id| == c.idLen
                             && t.told == [Established(t.node.e.cfg.conv)])
                  && (!ok ==> t.told == []))
  {
    hide KcpRecv, Greet, ApplyNoDelay, Quiet;
    var (t, syn) := KcpRecv(s, ForHandshake);
    KcpRecvKnown(s, ForHandshake);
    if syn.Some? && HasKey(c, syn.value) {
      KeyPrefix(c, syn.value);
      var id := syn.value[|c.key|..];
      var s1 := if s.client then t else t.(id := id);
      ApplyKnown(c, s1);
      GreetKnown(c, ApplyNoDelay(c, s1), now);
      assert syn.value[..|c.key|] == c.key;
    } else if syn.Some? {
      WrongKey(c, s, syn.value);
    }
  }

  lemma WrongKey(c: Settings, s: Session, frame: bytes)
    requires !HasKey(c, frame)
    ensures !RightFrame(c, s, frame)
  {
  }

  lemma ApplyKnown(c: Settings, s: Session)
    ensures var t := ApplyNoDelay(c, s);
            t.id == s.id && t.client == s.client && t.told == s.told && t.node.got == s.node.got
  {
    hide Act;
    ApplyNoRead(c, s);
  }

  /**
    What a batch that ends in `Syn` comes to: without a frame nothing happens; the right frame, with
    room to say so, connects the session and announces it; any other frame, or no room, ends it, with
    nothing told.
  */
  predicate Answered(c: Settings, s: Session, room: bool, t: Session) {
    && t.client == s.client && (s.client ==> t.id == s.id)
    && (t.node.got == [] ==> t.hs == Syn && t.told == [])
    && (t.node.got != [] ==>
          if RightFrame(c, s, t.node.got[0]) && room then
            && t.hs == Connected && t.told == [Established(t.node.e.cfg.conv)]
            && t.node.got[0] == c.key + t.id
          else t.hs == Disconnected && t.told == [])
  }

  lemma SynStep(c: Settings, s: Session, room: bool, now: Word)
    requires s.hs == Syn && ControlInv(s) && ReadsOk(c, s) && !s.over
    ensures Answered(c, s, room, Step(c, s, NetDone(room, now)))
  {
    hide SynHandshakeRecv, AfterPackets, KcpRecv, ReadsOk, ControlInv, Step, RightFrame, Settled;
    SynStart(c, s);
    SynOutcome(c, s, room, now);
    var (u0, ok) := SynHandshakeRecv(c, s, room, now);
    var u := if ok then u0 else u0.(hs := Disconnected);
    InSyn(c, s, room, now);
    NetDoneIs(c, s, room, now);
    SettledAfter(u, now);
    SettledMeans(u, Step(c, s, NetDone(room, now)));
    if u0.node.got == [] {
      NothingTwice(s);
    }
  }

  /** Fetching a frame and flushing leave what the handshake has settled. */
  predicate Settled(u: Session, t: Session) {
    && t.hs == u.hs && t.told == u.told && t.id == u.id && t.client == u.client && u.node.got <= t.node.got
    && t.node.e.cfg.conv == u.node.e.cfg.conv
    && (KcpRecv(u, ForApplication) == (u, None) ==> t.node.got == u.node.got)
  }

  lemma SettledMeans(u: Session, t: Session)
    requires Settled(u, t)
    ensures t.hs == u.hs && t.told == u.told && t.id == u.id && t.client == u.client
    ensures t.node.e.cfg.conv == u.node.e.cfg.conv && u.node.got <= t.node.got
    ensures KcpRecv(u, ForApplication) == (u, None) ==> t.node.got == u.node.got
    ensures u.node.got != [] ==> t.node.got != [] && t.node.got[0] == u.node.got[0]
  {
    hide KcpRecv;
  }

  lemma SettledAfter(u: Session, now: Word)
    ensures var (v, x) := KcpRecv(u, ForApplication);
            Settled(u, KcpFlush(if u.frame.None? then v.(frame := x) else u, now))
  {
    hide KcpRecv, KcpFlush;
    var (v, x) := KcpRecv(u, ForApplication);
    var w := if u.frame.None? then v.(frame := x) else u;
    FetchAfterSyn(u);
    KcpFlushKnown(w, now);
    KcpFlushConv(w, now);
  }

  /** The end of a batch in Syn: the handshake, then the frame after it, then the flush. */
  lemma InSyn(c: Settings, s: Session, room: bool, now: Word)
    requires s.hs == Syn
    ensures var (u0, ok) := SynHandshakeRecv(c, s, room, now);
            var u := if ok then u0 else u0.(hs := Disconnected);
            var (v, x) := KcpRecv(u, ForApplication);
            AfterPackets(c, s, room, now) == KcpFlush(if u.frame.None? then v.(frame := x) else u, now)
  {
    hide SynHandshakeRecv, KcpRecv, KcpFlush, Quiet;
  }

  lemma NetDoneIs(c: Settings, s: Session, room: bool, now: Word)
    requires !s.over
    ensures Step(c, s, NetDone(room, now)) == AfterPackets(c, s, room, now)
  {
    hide AfterPackets;
  }

  lemma SynStart(c: Settings, s: Session)
    requires s.hs == Syn && ControlInv(s) && ReadsOk(c, s)
    ensures !s.finRecved && s.node.got == [] && s.told == [] && s.frame.None?
  {
    hide ForApp, FramesTold;
  }

  lemma FetchAfterSyn(u: Session)
    ensures var (v, x) := KcpRecv(u, ForApplication);
            Known(u, v) && v.told == u.told && v.hs == u.hs && v.node.e.cfg.conv == u.node.e.cfg.conv
  {
    hide KcpRecv, Labelled, Nothing;
    KcpRecvKnown(u, ForApplication);
    KcpRecvLabels(u, ForApplication);
  }

  lemma KcpFlushConv(s: Session, now: Word)
    ensures KcpFlush(s, now).node.e.cfg.conv == s.node.e.cfg.conv && KcpFlush(s, now).id == s.id
    ensures KcpFlush(s, now).client == s.client
  {
    hide KcpFlush, Labelled, Nothing;
    KcpFlushLabels(s, now);
    KcpFlushKnown(s, now);
  }

  /* ---------------------------------------------------------------- over a run */

  lemma AfterPacketsKnown(c: Settings, s: Session, room: bool, now: Word)
    requires s.hs != Syn
    ensures Known(s, AfterPackets(c, s, room, now))
  {
    hide FinTransit, KcpRecv, KcpFlush, Known;
    var t := if s.hs == FinPending || s.hs == FinSent then FinTransit(c, s, now) else s;
    FinTransitKnown(c, s, now);
    SelfKnown(s);
    var (u, x) := KcpRecv(t, ForApplication);
    KcpRecvKnown(t, ForApplication);
    KnownThen(s, t, u);
    SetFrameKnown(s, u, x);
    var v := if t.frame.None? then u.(frame := x) else t;
    KcpFlushKnown(v, now);
    KnownThen(s, v, KcpFlush(v, now));
  }

  lemma SelfKnown(s: Session)
    ensures Known(s, s)
  {
  }

  lemma SetFrameKnown(s: Session, t: Session, x: Option<bytes>)
    requires Known(s, t)
    ensures Known(s, t.(frame := x))
  {
  }

  lemma OnTopKnown(c: Settings, s: Session, now: Word)
    ensures Known(s, OnTop(c, s, now))
  {
    hide OnTop, NoRead;
    OnTopNoRead(c, s, now);
    OnTopId(c, s, now);
    NoReadKnown(s, OnTop(c, s, now));
  }

  lemma OnTopId(c: Settings, s: Session, now: Word)
    ensures OnTop(c, s, now).id == s.id && OnTop(c, s, now).client == s.client
  {
    hide Act, Check, TimeDiff, Wrap, OutgoingAll, Max, Min;
  }

  lemma StepIntroduced(c: Settings, s: Session, ev: SEvent)
    requires Introduced(c, s) && ControlInv(s) && ReadsOk(c, s)
    ensures Introduced(c, Step(c, s, ev))
    ensures Step(c, s, ev).client == s.client && (s.client ==> Step(c, s, ev).id == s.id)
  {
    hide OnInput, HandOver, KcpInput, AfterPackets, OnTop, Full, ReadsOk, ControlInv;
    if s.over {
      return;
    }
    match ev
    case LoopTop(now) => OnTopKnown(c, s, now);
    case FromApp(now) => OnInputKnown(c, s, now);
    case ToApp(room) =>
      if s.hs != Disconnected && s.frame.Some? {
        ToldSome(s);
        var t := s.(frame := None, told := s.told + [Frame(s.frame.value)]);
        HandOverKnown(t, room);
      }
    case FromNet(p, now) => KcpInputKnown(c, s, p, now);
    case NetDone(room, now) =>
      if s.hs == Syn {
        SynStep(c, s, room, now);
      } else {
        AfterPacketsKnown(c, s, room, now);
      }
    case _ =>
  }

  lemma ToldSome(s: Session)
    requires ControlInv(s) && s.frame.Some? && s.hs != Disconnected
    ensures s.told != []
  {
  }

  /**
    Over every run: a session that has told its application anything was handed, as its first frame,
    the key and its ID, of the configured length. A client keeps the ID it began with.
  */
  lemma {:induction false} RunIntroduced(c: Settings, e: Endpoint, id: bytes, now: Word, evs: seq<SEvent>)
    ensures var s := RunSession(c, e, id, now, evs);
            Introduced(c, s) && (s.client ==> s.id == id) && (s.client <==> e.cfg.conv == SYN_CONV)
  {
    hide Step, Begin, ReadsOk, ControlInv, Introduced;
    if evs == [] {
      BeginKnown(c, e, id, now);
    } else {
      var init := evs[..|evs| - 1];
      RunIntroduced(c, e, id, now, init);
      RunControl(c, e, id, now, init, |init|);
      RunReads(c, e, id, now, init);
      StepIntroduced(c, RunSession(c, e, id, now, init), evs[|evs| - 1]);
    }
  }

  lemma BeginKnown(c: Settings, e: Endpoint, id: bytes, now: Word)
    ensures var s := Begin(c, New(e), id, now);
            Introduced(c, s) && (s.client ==> s.id == id) && (s.client <==> e.cfg.conv == SYN_CONV)
  {
    hide Act, Greet, Wrap;
    var m := New(e).(hsEnd := Wrap(now + c.connectTimeout * 1000));
    ActConv(m);
    var t := Act(m, DoNoDelay(1, 100, 0, 0));
    var u := t.(lastIo := t.node.e.clock.current, client := true, id := id);
    GreetKnown(c, Act(u, DoSetConv(SYN_CONV)), now);
  }

  lemma ActConv(s: Session)
    ensures Act(s, DoNoDelay(1, 100, 0, 0)).node.e.cfg.conv == s.node.e.cfg.conv
  {
    hide Packets, EncodePacket;
  }
}
