/**
  The conversation number on the segments. It is put on a segment when that is numbered, and the SYN
  handshake changes the number of a control block; a session does so only while nothing numbered is
  left, so what it retransmits always carries the number its peer knows.
*/
module Labels {
  import opened Serial
  import opened WireFormat
  import opened Endpoints
  import opened Invariants
  import opened Network
  import opened Packetization
  import opened Lifetime
  import opened Marking
  import opened Sessions
  import opened SessionSafety
  import opened SessionTrace

  predicate Labelled(conv: Word, buf: seq<SndSeg>) {
    forall x | x in buf :: x.w.conv == conv
  }

  predicate Nothing(s: Snd) {
    s.buf == [] && s.queue == []
  }

  /* ---------------------------------------------------------------- calls */

  lemma TickLabels(e: Endpoint, buf: seq<SndSeg>, conv: Word)
    requires Labelled(conv, buf)
    ensures Labelled(conv, TickAll(e, buf))
  {
    hide Tick;
    var r := TickAll(e, buf);
    forall x | x in r
      ensures x.w.conv == conv
    {
      var i :| 0 <= i < |r| && r[i] == x;
      TickSame(e, buf[i]);
      assert buf[i] in buf;
    }
  }

  lemma FlushLabels(e: Endpoint)
    ensures var e' := Endpoints.Flush(Bits32, e).e;
            && e'.cfg == e.cfg
            && (Labelled(e.cfg.conv, e.snd.buf) ==> Labelled(e.cfg.conv, e'.snd.buf))
            && (Nothing(e.snd) ==> Nothing(e'.snd))
  {
    hide Promote, TickAll, DueSegments, CountDue, Backed, ProbeTick, Exhausted, Labelled;
    if e.clock.updated {
      var s := Promote(Bits32, e, e.snd, Window(e));
      if Labelled(e.cfg.conv, e.snd.buf) {
        PromotedLabels(e, e.snd, Window(e));
        TickLabels(e, s.buf, e.cfg.conv);
      }
      NothingPromoted(e, Window(e));
    }
  }

  lemma PromotedLabels(e: Endpoint, s: Snd, window: nat)
    requires Labelled(e.cfg.conv, s.buf)
    ensures Labelled(e.cfg.conv, Promote(Bits32, e, s, window).buf)
  {
    PromotedConv(Bits32, e, s, window);
  }

  lemma NothingPromoted(e: Endpoint, window: nat)
    ensures Nothing(e.snd) ==> Promote(Bits32, e, e.snd, window) == e.snd
  {
  }

  lemma UpdateLabels(e: Endpoint, now: Word)
    ensures var e' := Endpoints.Update(Bits32, e, now).e;
            && e'.cfg == e.cfg
            && (Labelled(e.cfg.conv, e.snd.buf) ==> Labelled(e.cfg.conv, e'.snd.buf))
            && (Nothing(e.snd) ==> Nothing(e'.snd))
  {
    hide Endpoints.Flush, Advance, Labelled;
    FlushLabels(e.(clock := Advance(e.clock, e.cfg.interval, now).0));
  }

  /** Acknowledgements only take segments away. */
  lemma SegmentLabels(e: Endpoint, w: Wire, conv: Word)
    requires Labelled(conv, e.snd.buf)
    ensures Labelled(conv, InputSegment(Bits32, e, w).snd.buf)
  {
    hide ParseUna, RemoveAcked, InputPush, UpdateAck;
    var k := ParseUnaSuffix(Bits32, e.snd.buf, w.una);
    var s := InputUna(Bits32, e.snd, w.una);
    assert Labelled(conv, s.buf);
    var j := RemoveAckedShape(Bits32, s.buf, w.sn);
  }

  lemma SegmentNothing(e: Endpoint, w: Wire)
    requires Nothing(e.snd)
    ensures Nothing(InputSegment(Bits32, e, w).snd)
  {
  }

  lemma {:induction false} SegmentsLabels(e: Endpoint, ws: seq<Wire>, conv: Word)
    ensures var e' := InputSegments(Bits32, e, ws);
            && (Labelled(conv, e.snd.buf) ==> Labelled(conv, e'.snd.buf))
            && (Nothing(e.snd) ==> Nothing(e'.snd))
    decreases |ws|
  {
    hide InputSegment, Labelled;
    if ws != [] {
      if Labelled(conv, e.snd.buf) {
        SegmentLabels(e, ws[0], conv);
      }
      if Nothing(e.snd) {
        SegmentNothing(e, ws[0]);
      }
      SegmentsLabels(InputSegment(Bits32, e, ws[0]), ws[1..], conv);
    }
  }

  lemma FastackLabels(s: Snd, sn: nat, conv: Word)
    requires Labelled(conv, s.buf)
    ensures Labelled(conv, ParseFastack(Bits32, s, sn)) && (s.buf == [] ==> ParseFastack(Bits32, s, sn) == [])
  {
    hide BumpFastack;
    BumpFastackSame(Bits32, s.buf, sn);
    var r := ParseFastack(Bits32, s, sn);
    forall x | x in r
      ensures x.w.conv == conv
    {
      var i :| 0 <= i < |r| && r[i] == x;
      assert s.buf[i] in s.buf;
    }
  }

  lemma InputLabels(e: Endpoint, p: bytes, conv: Word)
    ensures var e' := Endpoints.Input(e, p);
            && e'.cfg == e.cfg
            && (Labelled(conv, e.snd.buf) ==> Labelled(conv, e'.snd.buf))
            && (Nothing(e.snd) ==> Nothing(e'.snd))
  {
    hide InputSegments, FoldMaxAck, ParseFastack, Grow, Parse, Labelled;
    if |p| >= OVERHEAD {
      var ws := Parse(e.cfg.conv, p).segs;
      var e1 := InputSegments(Bits32, e, ws);
      SegmentsLabels(e, ws, conv);
      var m := FoldMaxAck(Bits32, NoAck, ws);
      if m.MaxAck? {
        NothingLabelled(e1.snd, conv);
        if Labelled(conv, e1.snd.buf) {
          FastackLabels(e1.snd, m.sn, conv);
        }
      }
    }
  }

  lemma NothingLabelled(s: Snd, conv: Word)
    ensures s.buf == [] ==> Labelled(conv, s.buf)
  {
  }

  /* ---------------------------------------------------------------- sessions */

  /** The same number on both, and all segments still carry it. No setting changes at all. */
  ghost predicate Keeps(s: Session, t: Session) {
    var conv := s.node.e.cfg.conv;
    && t.node.e.cfg == s.node.e.cfg && t.client == s.client
    && (Labelled(conv, s.node.e.snd.buf) ==> Labelled(conv, t.node.e.snd.buf))
  }

  /** And nothing to send stays nothing to send, with the handshake and the input as they were. */
  ghost predicate Calm(s: Session, t: Session) {
    Keeps(s, t) && t.hs == s.hs && t.input == s.input && (Nothing(s.node.e.snd) ==> Nothing(t.node.e.snd))
  }

  lemma LocalLabels(e: Endpoint, act: Action)
    requires !act.Deliver? && !act.DoSetConv? && !act.DoNoDelay?
    ensures var e' := Local(Bits32, e, act).e;
            && e'.cfg == e.cfg
            && (Labelled(e.cfg.conv, e.snd.buf) ==> Labelled(e.cfg.conv, e'.snd.buf))
            && (!act.DoSend? && Nothing(e.snd) ==> Nothing(e'.snd))
  {
    hide Endpoints.Flush, Endpoints.Update, Endpoints.Send, RecvQueue, Labelled, Drain;
    match act
    case DoFlush => FlushLabels(e);
    case DoUpdate(now) => UpdateLabels(e, now);
    case _ =>
  }

  lemma ActNode(s: Session, act: Action)
    requires !act.Deliver?
    ensures Act(s, act).node.e == Local(Bits32, s.node.e, act).e
  {
    hide Local, Packets, EncodePacket;
  }

  lemma ActLabels(s: Session, act: Action)
    requires !act.Deliver? && !act.DoSetConv? && !act.DoNoDelay?
    ensures Keeps(s, Act(s, act)) && (!act.DoSend? ==> Calm(s, Act(s, act)))
  {
    hide Local, Act, Labelled, Nothing;
    ActNode(s, act);
    LocalLabels(s.node.e, act);
    ActQuiet(s, act);
  }

  lemma ActQuiet(s: Session, act: Action)
    requires !act.Deliver?
    ensures var t := Act(s, act); t.client == s.client && t.hs == s.hs && t.input == s.input
  {
    hide Local;
  }

  lemma HearLabels(s: Session, p: bytes)
    ensures Calm(s, Hear(s, p))
  {
    hide Endpoints.Input, Labelled;
    InputLabels(s.node.e, p, s.node.e.cfg.conv);
  }

  lemma KcpFlushLabels(s: Session, now: Word)
    ensures Calm(s, KcpFlush(s, now))
  {
    hide Act, Labelled, Nothing, Quiet;
    if s.flush {
      var t := s.(flush := false);
      ActLabels(t, DoUpdate(now));
      ActLabels(Act(t, DoUpdate(now)), DoFlush);
    }
  }

  lemma KcpSendLabels(s: Session, data: bytes)
    ensures Keeps(s, KcpSend(s, data).0)
  {
    hide Act, Endpoints.Send, Labelled, Quiet;
    if data != [] {
      ActLabels(s, DoSend(data));
    }
  }

  lemma HandshakeSendLabels(c: Settings, s: Session, now: Word)
    ensures Keeps(s, HandshakeSend(c, s, now))
  {
    hide KcpSend, KcpFlush, Labelled, Quiet;
    var t := s.(flush := true);
    KcpSendLabels(t, c.key + s.id);
    KcpFlushLabels(KcpSend(t, c.key + s.id).0, now);
  }

  lemma PassedLabels(c: Settings, s: Session, now: Word)
    requires !Stuck(s)
    ensures Keeps(s, Passed(c, s, now))
  {
    hide HandshakeSend, Put, WaitSnd, Unread, Wrap, Labelled, Quiet;
    HandshakeSendLabels(c, Ready(c, s), now);
  }

  lemma {:induction false} FinTransitLabels(c: Settings, s: Session, now: Word)
    ensures Keeps(s, FinTransit(c, s, now))
    decreases 5 - Rank(s.hs)
  {
    hide FinTransit, Passed, Stuck, Labelled;
    FinTurn(c, s, now);
    if !Stuck(s) {
      PassedLabels(c, s, now);
      FinTransitLabels(c, Passed(c, s, now), now);
    }
  }

  lemma RecvBytesLabels(s: Session, fate: Fate)
    ensures Calm(s, RecvBytes(s, fate).0)
  {
    hide Act, Recv, PeekSize, Labelled, Nothing, Quiet;
    var size := PeekSize(s.node.e.rcv.queue);
    if size > 0 {
      ActLabels(s, DoRecv(size));
    }
  }

  lemma KcpRecvLabels(s: Session, fate: Fate)
    ensures Calm(s, KcpRecv(s, fate).0)
  {
    hide RecvBytes, Labelled, Nothing, Quiet;
    RecvBytesLabels(s, fate);
    RecvBytesLabels(s, Swallowed);
  }

  lemma {:induction false} DrainLabels(c: Settings, s: Session)
    ensures Keeps(s, DrainInput(c, s).0)
    ensures s.input == [] ==> DrainInput(c, s).0 == s
    decreases |s.input|
  {
    hide KcpSend, Put, Full, Labelled;
    if !Full(s) && s.input != [] {
      var t := s.(input := s.input[1..]);
      KcpSendLabels(t, s.input[0]);
      DrainLabels(c, ProcessInput(c, t, s.input[0]));
    }
  }

  lemma OnInputLabels(c: Settings, s: Session, now: Word)
    ensures Keeps(s, OnInput(c, s, now))
  {
    hide DrainInput, FinTransit, KcpFlush, Labelled;
    DrainLabels(c, s);
    var (t, closed) := DrainInput(c, s);
    FinTransitLabels(c, t.(inputClosed := true), now);
    KcpFlushLabels(if closed then FinTransit(c, t.(inputClosed := true), now) else t, now);
  }

  lemma {:induction false} HandOverLabels(s: Session, room: nat)
    ensures Calm(s, HandOver(s, room))
    decreases room
  {
    hide KcpRecv, Labelled, Nothing;
    var (t, x) := KcpRecv(s, ForApplication);
    KcpRecvLabels(s, ForApplication);
    if x.Some? && room > 0 {
      HandOverLabels(t.(told := t.told + [Frame(x.value)]), room - 1);
    }
  }

  /* ---------------------------------------------------------------- the handshake changes the number */

  /**
    All segments carry the number of the control block. And before the connection, the client has
    something to send only under the SYN number, and the application has sent nothing.
  */
  ghost predicate LabelInv(s: Session) {
    var e := s.node.e;
    && Labelled(e.cfg.conv, e.snd.buf)
    && (s.hs == Syn ==> s.input == [] && (s.client && e.cfg.conv != SYN_CONV ==> Nothing(e.snd)))
  }

  lemma KeepsInv(s: Session, t: Session)
    requires LabelInv(s) && Keeps(s, t) && (t.hs == Syn ==> Calm(s, t))
    ensures LabelInv(t)
  {
    hide Labelled, Nothing;
  }

  lemma CalmInv(s: Session, t: Session)
    requires LabelInv(s) && Calm(s, t)
    ensures LabelInv(t) && LabelInv(t.(flush := true)) && LabelInv(t.(hs := Disconnected))
  {
    hide Labelled, Nothing;
  }

  lemma SetConvNode(s: Session, conv: Word)
    ensures Act(s, DoSetConv(conv)).node.e == s.node.e.(cfg := s.node.e.cfg.(conv := conv))
  {
    hide EncodePacket, Packets;
  }

  /** An input under another number, with the number set back. */
  lemma HearAndBack(s: Session, conv: Word, back: Word, p: bytes)
    requires Labelled(back, s.node.e.snd.buf)
    ensures var t := Hear(Act(s, DoSetConv(conv)), p);
            var u := Act(t, DoSetConv(back));
            && Labelled(back, u.node.e.snd.buf) && t.node.e.cfg == s.node.e.cfg.(conv := conv)
            && u.node.e.cfg == s.node.e.cfg.(conv := back)
            && (Nothing(s.node.e.snd) ==> Nothing(t.node.e.snd) && Nothing(u.node.e.snd))
            && u.node.e.snd == t.node.e.snd
  {
    hide Act, Endpoints.Input, Labelled, Nothing;
    SetConvNode(s, conv);
    var t := Act(s, DoSetConv(conv));
    InputLabels(t.node.e, p, back);
    SetConvNode(Hear(t, p), back);
  }

  lemma SynInputLabels(s: Session, p: bytes)
    requires LabelInv(s)
    ensures LabelInv(SynHandshakeInput(s, p))
  {
    hide Act, Hear, Word32, InputCode, Labelled;
    if |p| >= OVERHEAD {
      var conv, mine := Word32(p), s.node.e.cfg.conv;
      HearAndBack(s, conv, mine, p);
      if s.client && s.hs == Syn {
        NothingLabelled(s.node.e.snd, SYN_CONV);
        HearAndBack(s, conv, SYN_CONV, p);
        var t := Hear(Act(s, DoSetConv(conv)), p);
        NothingLabelled(t.node.e.snd, conv);
      }
    }
  }

  lemma FinInputLabels(c: Settings, s: Session, p: bytes, now: Word)
    requires |p| > 4 && HasBit(p[4], KCP_FIN)
    ensures Keeps(s, FinInput(c, s, p, now)) && FinInput(c, s, p, now).hs != Syn
  {
    hide Hear, HasBit, FinTransit, Unmark, Labelled;
    var t := if s.finRecved then s else s.(finRecved := true, open := false);
    FinTransitLabels(c, t, now);
    FinTransitKeeps(c, t, now);
    HearLabels(FinTransit(c, t, now), Unmark(p));
  }

  lemma KcpInputLabels(c: Settings, s: Session, p: bytes, now: Word)
    requires LabelInv(s)
    ensures LabelInv(KcpInput(c, s, p, now))
  {
    hide Hear, SynHandshakeInput, InputCode, HasBit, FinInput, LabelInv, Keeps, Calm, Quiet;
    var t := Hear(s, p);
    HearLabels(s, p);
    CalmInv(s, t);
    SynInputLabels(t, p);
    if |p| > 4 && HasBit(p[4], KCP_FIN) {
      FinInputLabels(c, t, p, now);
      KeepsInv(t, FinInput(c, t, p, now));
    }
  }

  lemma GreetLabels(c: Settings, s: Session, now: Word)
    ensures Keeps(s, Greet(c, s, now))
  {
    hide HandshakeSend, Put, Labelled;
    HandshakeSendLabels(c, s.(ledger := s.ledger.(greeting := Put(s, c.key + s.id))), now);
  }

  /** Only the timing settings differ. */
  ghost predicate Retuned(s: Session, t: Session, nodelay: cint, interval: cint, resend: cint, nc: cint) {
    && t.node.e == s.node.e.(cfg := NoDelay(s.node.e.cfg, nodelay, interval, resend, nc))
    && t.client == s.client && t.hs == s.hs && t.input == s.input && t.id == s.id && t.told == s.told
  }

  lemma ActRetunes(s: Session, nodelay: cint, interval: cint, resend: cint, nc: cint)
    ensures Retuned(s, Act(s, DoNoDelay(nodelay, interval, resend, nc)), nodelay, interval, resend, nc)
  {
    hide Packets, EncodePacket, NoDelay;
  }

  /** Establishing changes the timing settings to the configured ones. */
  lemma EstablishLabels(c: Settings, s: Session, id: bytes, room: bool, now: Word)
    ensures var t := Establish(c, s, id, room, now).0;
            && t.hs == Connected && t.client == s.client
            && t.node.e.cfg
               == NoDelay(s.node.e.cfg, if c.nodelay then 1 else 0, c.interval, c.resend, if c.nc then 1 else 0)
            && (Labelled(s.node.e.cfg.conv, s.node.e.snd.buf) ==> Labelled(s.node.e.cfg.conv, t.node.e.snd.buf))
  {
    hide Act, Greet, Labelled, Quiet;
    var t := s.(id := id);
    ActRetunes(s, if c.nodelay then 1 else 0, c.interval, c.resend, if c.nc then 1 else 0);
    ActRetunes(t, if c.nodelay then 1 else 0, c.interval, c.resend, if c.nc then 1 else 0);
    GreetLabels(c, ApplyNoDelay(c, t), now);
  }

  lemma SynRecvLabels(c: Settings, s: Session, room: bool, now: Word)
    requires LabelInv(s) && s.hs == Syn
    ensures var (u, ok) := SynHandshakeRecv(c, s, room, now);
            LabelInv(u) && LabelInv(u.(hs := Disconnected))
  {
    hide KcpRecv, HasKey, Establish, Labelled, Nothing, Quiet;
    var (t, syn) := KcpRecv(s, ForHandshake);
    KcpRecvLabels(s, ForHandshake);
    KeepsInv(s, t);
    if syn.Some? && HasKey(c, syn.value) {
      KeyLong(c, syn.value);
      var id := syn.value[|c.key|..];
      EstablishLabels(c, t, id, room, now);
    }
  }

  lemma KeyLong(c: Settings, syn: bytes)
    requires HasKey(c, syn)
    ensures |c.key| <= |syn|
  {
  }

  lemma AfterPacketsLabels(c: Settings, s: Session, room: bool, now: Word)
    requires LabelInv(s)
    ensures LabelInv(AfterPackets(c, s, room, now))
  {
    hide SynHandshakeRecv, FinTransit, KcpRecv, KcpFlush, Labelled, Nothing, Quiet;
    var t := if s.hs == Syn then
               var (u, ok) := SynHandshakeRecv(c, s, room, now);
               if ok then u else u.(hs := Disconnected)
             else if s.hs == FinPending || s.hs == FinSent then FinTransit(c, s, now)
             else s;
    if s.hs == Syn {
      SynRecvLabels(c, s, room, now);
    } else if s.hs == FinPending || s.hs == FinSent {
      FinTransitLabels(c, s, now);
      FinTransitKeeps(c, s, now);
      KeepsInv(s, t);
    }
    var (u, x) := KcpRecv(t, ForApplication);
    KcpRecvLabels(t, ForApplication);
    KeepsInv(t, u.(frame := x));
    var v := if t.frame.None? then u.(frame := x) else t;
    KcpFlushLabels(v, now);
    KeepsInv(v, KcpFlush(v, now));
  }

  lemma OnTopLabels(c: Settings, s: Session, now: Word)
    requires LabelInv(s)
    ensures LabelInv(OnTop(c, s, now))
  {
    hide Act, Check, TimeDiff, Wrap, OutgoingAll, Max, Min, Labelled, Nothing, Quiet;
    ActLabels(KcpOutput(s), DoUpdate(now));
  }

  /** In `Syn` there is nothing from the application; closing then just disconnects. */
  lemma OnInputSyn(c: Settings, s: Session, now: Word)
    requires s.hs == Syn && s.input == [] && OnInput(c, s, now).hs == Syn
    ensures Calm(s, OnInput(c, s, now))
  {
    hide KcpFlush, Labelled, Nothing, Full, Quiet;
    KcpFlushHs(if DrainInput(c, s).1 then s.(inputClosed := true, hs := Disconnected) else s, now);
    KcpFlushLabels(s, now);
  }

  lemma KcpFlushHs(s: Session, now: Word)
    ensures KcpFlush(s, now).hs == s.hs && KcpFlush(s, now).input == s.input
  {
    hide Act;
  }

  lemma StepLabels(c: Settings, s: Session, ev: SEvent)
    requires LabelInv(s) && ControlInv(s)
    ensures LabelInv(Step(c, s, ev))
  {
    hide OnInput, HandOver, KcpInput, AfterPackets, Act, Check, TimeDiff, Outgoing, Wrap, Full, OnTop, Labelled,
         Nothing, Quiet;
    if s.over {
      return;
    }
    match ev
    case LoopTop(now) => OnTopLabels(c, s, now);
    case FromApp(now) =>
      OnInputLabels(c, s, now);
      var t := OnInput(c, s, now);
      if t.hs == Syn && s.hs != Disconnected && !s.inputClosed {
        OnInputControl(c, s, now);
        OnInputSyn(c, s, now);
      }
      if s.hs != Disconnected && !s.inputClosed {
        KeepsInv(s, t);
      }
    case ToApp(room) =>
      if s.hs != Disconnected && s.frame.Some? {
        HandOverLabels(s.(frame := None, told := s.told + [Frame(s.frame.value)]), room);
        KeepsInv(s, OnOutput(s, room));
      }
    case FromNet(p, now) => KcpInputLabels(c, s, p, now);
    case NetDone(space, now) => AfterPacketsLabels(c, s, space, now);
    case _ =>
  }

  lemma BeginLabels(c: Settings, e: Endpoint, id: bytes, now: Word)
    requires Nothing(e.snd)
    ensures LabelInv(Begin(c, New(e), id, now))
  {
    hide Act, Greet, Wrap, Labelled, Quiet;
    var s := New(e).(hsEnd := Wrap(now + c.connectTimeout * 1000));
    NothingLabelled(e.snd, e.cfg.conv);
    ActRetunes(s, 1, 100, 0, 0);
    var t0 := Act(s, DoNoDelay(1, 100, 0, 0));
    var t := t0.(lastIo := t0.node.e.clock.current, client := true, id := id);
    SetConvNode(t, SYN_CONV);
    NothingLabelled(t.node.e.snd, SYN_CONV);
    BeginInput(c, e, id, now);
    if e.cfg.conv == SYN_CONV {
      GreetLabels(c, Act(t, DoSetConv(SYN_CONV)), now);
    }
  }

  lemma BeginInput(c: Settings, e: Endpoint, id: bytes, now: Word)
    ensures Begin(c, New(e), id, now).input == []
  {
    hide Act, Greet;
  }

  /** Over every run of a session, every numbered segment carries the number of the control block. */
  lemma {:induction false} RunLabels(c: Settings, e: Endpoint, id: bytes, now: Word, evs: seq<SEvent>)
    requires Nothing(e.snd)
    ensures LabelInv(RunSession(c, e, id, now, evs))
  {
    hide Step, Begin, LabelInv;
    if evs == [] {
      BeginLabels(c, e, id, now);
    } else {
      var init := evs[..|evs| - 1];
      RunLabels(c, e, id, now, init);
      RunControl(c, e, id, now, init, |init|);
      StepLabels(c, RunSession(c, e, id, now, init), evs[|evs| - 1]);
    }
  }

  /* ---------------------------------------------------------------- what a session puts on the wire */

  lemma RedoSound(n: Node<bytes>, op: Op)
    requires EndpointInv(Bits32, n.e)
    ensures EndpointInv(Bits32, Redo(n, op).e) && Redo(n, op).e.cfg.mtu == n.e.cfg.mtu
  {
    hide EndpointInv, Local, Endpoints.Input, Packets, EncodePacket, Labelled;
    match op
    case Arrive(p) =>
      ApplyInv(n.e, op);
      InputLabels(n.e, p, 0);
    case Do(act) =>
      if !act.Deliver? {
        ApplyInv(n.e, op);
        LocalMtu(n.e, act);
      }
  }

  lemma LocalMtu(e: Endpoint, act: Action)
    ensures Local(Bits32, e, act).e.cfg.mtu == e.cfg.mtu
  {
    hide Endpoints.Flush, Endpoints.Update, Endpoints.Send, RecvQueue, Labelled, Drain;
    match act
    case DoFlush => FlushLabels(e);
    case DoUpdate(now) => UpdateLabels(e, now);
    case _ =>
  }

  lemma {:induction false} ReplaySound(n: Node<bytes>, ops: seq<Op>)
    requires EndpointInv(Bits32, n.e)
    ensures EndpointInv(Bits32, Replay(n, ops).e) && Replay(n, ops).e.cfg.mtu == n.e.cfg.mtu
  {
    hide EndpointInv, Redo;
    if ops != [] {
      ReplaySound(n, ops[..|ops| - 1]);
      RedoSound(Replay(n, ops[..|ops| - 1]), ops[|ops| - 1]);
    }
  }

  /**
    Whatever a session flushes, at any point of any run and whatever it received, its peer reads back
    under the session's number: no packet is over `mtu`, none is malformed, and no field is lost.
  */
  lemma SessionPackets(c: Settings, e: Endpoint, id: bytes, now: Word, evs: seq<SEvent>)
    requires EndpointInv(Bits32, e) && Nothing(e.snd) && e.cfg.mtu <= 65507
    ensures var x := RunSession(c, e, id, now, evs).node.e;
            x.clock.updated ==> ReadsBack(x)
  {
    hide EndpointInv, RunSession, ReadsBack;
    RunTrace(c, e, id, now, evs);
    TraceReplays(c, Node(e, [], [], [], []), RunSession(c, e, id, now, evs));
    ReplaySound(Node(e, [], [], [], []), RunSession(c, e, id, now, evs).ops);
    RunLabels(c, e, id, now, evs);
    var x := RunSession(c, e, id, now, evs).node.e;
    if x.clock.updated {
      FlushRoundTrip(x);
    }
  }

  lemma TraceReplays(c: Settings, n: Node<bytes>, s: Session)
    requires TraceInv(c, n, s)
    ensures s.node == Replay(n, s.ops)
  {
    hide Replay;
  }
}
