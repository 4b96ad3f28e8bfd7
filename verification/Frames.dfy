/**
  Where every received frame goes. Of what KCP hands over to a session, the first read is the peer's
  handshake frame, and the rest is, in order, what the application is told, plus a frame that
  waits, less what is swallowed after a FIN.
*/
module Frames {
  import opened Serial
  import opened WireFormat
  import opened Endpoints
  import opened Invariants
  import opened Messages
  import opened Network
  import opened Marking
  import opened Sessions
  import opened SessionSafety

  /* ---------------------------------------------------------------- what was read */

  /** The frames among what the application was told. */
  function FramesTold(told: seq<Output>): seq<bytes> {
    if told == [] then []
    else FramesTold(told[..|told| - 1]) + (if told[|told| - 1].Frame? then [told[|told| - 1].data] else [])
  }

  function Waiting(frame: Option<bytes>): seq<bytes> {
    if frame.Some? then [frame.value] else []
  }

  /** The reads that are for the application. */
  function ForApp(got: seq<bytes>, fates: seq<Fate>): seq<bytes>
    requires |got| == |fates|
  {
    if got == [] then []
    else ForApp(got[..|got| - 1], fates[..|got| - 1])
         + (if fates[|got| - 1] == ForApplication then [got[|got| - 1]] else [])
  }

  /** Every read is accounted for: told, waiting, the handshake's, or swallowed after a FIN. */
  ghost predicate ReadsOk(c: Settings, s: Session) {
    var got, fates := s.node.got, s.ledger.fates;
    && |fates| == |got|
    && FramesTold(s.told) + Waiting(s.frame) == ForApp(got, fates)
    && (forall i | 0 <= i < |got| :: got[i] != [])
    && (forall i | 1 <= i < |fates| :: fates[i] != ForHandshake)
    && (Swallowed in fates ==> s.finRecved)
    && (s.hs == Syn ==> got == [])
    && (s.told != [] ==> got != [] && fates[0] == ForHandshake && HasKey(c, got[0]))
  }

  /** Nothing is read, told or set aside. */
  predicate NoRead(s: Session, t: Session) {
    && t.node.got == s.node.got && t.ledger.fates == s.ledger.fates && t.told == s.told && t.frame == s.frame
    && (s.finRecved ==> t.finRecved) && (t.hs == Syn ==> s.hs == Syn)
  }

  lemma NoReadKeeps(c: Settings, s: Session, t: Session)
    requires ReadsOk(c, s) && NoRead(s, t)
    ensures ReadsOk(c, t)
  {
  }

  lemma ActNoRead(s: Session, act: Action)
    requires !act.Deliver? && !act.DoRecv?
    ensures NoRead(s, Act(s, act)) && Act(s, act).ledger == s.ledger
  {
    hide Packets, Send, Flush, Update;
  }

  lemma KcpSendNoRead(s: Session, data: bytes)
    ensures NoRead(s, KcpSend(s, data).0) && KcpSend(s, data).0.ledger == s.ledger
  {
    hide Act, Send;
    if data != [] {
      ActNoRead(s, DoSend(data));
    }
  }

  lemma KcpFlushNoRead(s: Session, now: Word)
    ensures NoRead(s, KcpFlush(s, now)) && KcpFlush(s, now).ledger == s.ledger
  {
    hide Act;
    ActNoRead(s.(flush := false), DoUpdate(now));
    ActNoRead(Act(s.(flush := false), DoUpdate(now)), DoFlush);
  }

  lemma HandshakeSendNoRead(c: Settings, s: Session, now: Word)
    ensures NoRead(s, HandshakeSend(c, s, now)) && HandshakeSend(c, s, now).ledger == s.ledger
  {
    hide KcpSend, KcpFlush;
    KcpSendNoRead(s.(flush := true), c.key + s.id);
    KcpFlushNoRead(KcpSend(s.(flush := true), c.key + s.id).0, now);
  }

  lemma GreetNoRead(c: Settings, s: Session, now: Word)
    ensures NoRead(s, Greet(c, s, now))
    ensures Greet(c, s, now).ledger == s.ledger.(greeting := Put(s, c.key + s.id))
  {
    hide HandshakeSend, Put;
    HandshakeSendNoRead(c, s.(ledger := s.ledger.(greeting := Put(s, c.key + s.id))), now);
  }

  lemma FinSendNoRead(c: Settings, s: Session, now: Word)
    requires s.hs == FinPending
    ensures NoRead(s, FinSend(c, s, now))
    ensures FinSend(c, s, now).ledger == s.ledger.(farewell := Put(s, c.key + s.id))
  {
    hide HandshakeSend, Put;
    HandshakeSendNoRead(c, Ready(c, s), now);
  }

  lemma PassedNoRead(c: Settings, s: Session, now: Word)
    requires !Stuck(s)
    ensures NoRead(s, Passed(c, s, now))
  {
    hide FinSend, WaitSnd, Unread, Wrap;
    if s.hs == FinPending {
      FinSendNoRead(c, s, now);
    }
  }

  lemma {:induction false} FinTransitNoRead(c: Settings, s: Session, now: Word)
    ensures NoRead(s, FinTransit(c, s, now))
    decreases 5 - Rank(s.hs)
  {
    hide FinTransit, Passed, Stuck;
    FinTurn(c, s, now);
    if !Stuck(s) {
      PassedNoRead(c, s, now);
      FinTransitNoRead(c, Passed(c, s, now), now);
    }
  }

  lemma HearNoRead(s: Session, p: bytes)
    ensures NoRead(s, Hear(s, p)) && Hear(s, p).ledger == s.ledger
  {
  }

  lemma SynInputNoRead(s: Session, p: bytes)
    ensures NoRead(s, SynHandshakeInput(s, p)) && SynHandshakeInput(s, p).ledger == s.ledger
  {
    hide Act, Hear, Word32, InputCode, WaitSnd;
    if |p| >= OVERHEAD {
      var t := Act(s, DoSetConv(Word32(p)));
      var u := Hear(t, p);
      ActNoRead(s, DoSetConv(Word32(p)));
      HearNoRead(t, p);
      ActNoRead(u, DoSetConv(SYN_CONV));
      ActNoRead(u, DoSetConv(s.node.e.cfg.conv));
    }
  }

  lemma FinInputNoRead(c: Settings, s: Session, p: bytes, now: Word)
    requires |p| > 4 && HasBit(p[4], KCP_FIN)
    ensures NoRead(s, FinInput(c, s, p, now))
  {
    hide Hear, HasBit, FinTransit, Unmark;
    var t := if s.finRecved then s else s.(finRecved := true, open := false);
    FinTransitNoRead(c, t, now);
    HearNoRead(FinTransit(c, t, now), Unmark(p));
  }

  lemma NoReadThen(s: Session, t: Session, u: Session)
    requires NoRead(s, t) && NoRead(t, u)
    ensures NoRead(s, u)
  {
  }

  lemma NoReadFlags(s: Session, t: Session)
    requires NoRead(s, t)
    ensures NoRead(s, t.(flush := true)) && NoRead(s, t.(hs := Disconnected))
  {
  }

  lemma KcpInputNoRead(c: Settings, s: Session, p: bytes, now: Word)
    ensures NoRead(s, KcpInput(c, s, p, now))
  {
    hide Hear, SynHandshakeInput, InputCode, HasBit, FinInput, Quiet, NoRead;
    var t := Hear(s, p);
    HearNoRead(s, p);
    NoReadFlags(s, t);
    SynInputNoRead(t, p);
    NoReadThen(s, t, SynHandshakeInput(t, p));
    if |p| > 4 && HasBit(p[4], KCP_FIN) {
      FinInputNoRead(c, t, p, now);
      NoReadThen(s, t, FinInput(c, t, p, now));
    }
  }

  lemma ProcessInputNoRead(c: Settings, s: Session, frame: bytes)
    ensures NoRead(s, ProcessInput(c, s, frame))
    ensures ProcessInput(c, s, frame).ledger == s.ledger.(handed := s.ledger.handed + Put(s, frame))
  {
    hide KcpSend, Put;
    KcpSendNoRead(s, frame);
  }

  lemma {:induction false} DrainNoRead(c: Settings, s: Session)
    ensures NoRead(s, DrainInput(c, s).0)
    decreases |s.input|
  {
    hide ProcessInput, Full;
    if !Full(s) && s.input != [] {
      var t := s.(input := s.input[1..]);
      ProcessInputNoRead(c, t, s.input[0]);
      DrainNoRead(c, ProcessInput(c, t, s.input[0]));
    }
  }

  lemma OnInputNoRead(c: Settings, s: Session, now: Word)
    ensures NoRead(s, OnInput(c, s, now))
  {
    hide DrainInput, FinTransit, KcpFlush;
    var (t, closed) := DrainInput(c, s);
    DrainNoRead(c, s);
    var u := if closed then FinTransit(c, t.(inputClosed := true), now) else t;
    FinTransitNoRead(c, t.(inputClosed := true), now);
    KcpFlushNoRead(u, now);
  }

  lemma OnTopNoRead(c: Settings, s: Session, now: Word)
    ensures NoRead(s, OnTop(c, s, now)) && OnTop(c, s, now).ledger == s.ledger
    ensures OnTop(c, s, now).over ==> OnTop(c, s, now) == KcpOutput(s).(over := true)
  {
    hide Act, Check, TimeDiff, Wrap, OutgoingAll, Quiet, Max, Min;
    ActNoRead(KcpOutput(s), DoUpdate(now));
  }

  /* ---------------------------------------------------------------- reading */

  /** A read takes one non-empty frame from KCP, and records its fate. */
  lemma RecvBytesReads(s: Session, fate: Fate)
    ensures var (t, x) := RecvBytes(s, fate);
            && (x.None? ==> t == s)
            && (x.Some? ==> x.value != [] && t.node.got == s.node.got + [x.value]
                            && t.ledger == s.ledger.(fates := s.ledger.fates + [fate]))
  {
    hide Act, Packets, Recv, PeekSize, Quiet;
    var size := PeekSize(s.node.e.rcv.queue);
    if size > 0 {
      RecvNonEmpty(s.node.e);
      ActGot(s, size);
    }
  }

  lemma ActGot(s: Session, len: nat)
    requires Recv(Bits32, s.node.e, len).code >= 0
    ensures Act(s, DoRecv(len)).node.got == s.node.got + [Recv(Bits32, s.node.e, len).data]
    ensures Act(s, DoRecv(len)).ledger == s.ledger
  {
    hide Packets, EncodePacket, Recv;
  }

  lemma RecvNonEmpty(e: Endpoint)
    requires PeekSize(e.rcv.queue) > 0
    ensures var r := Recv(Bits32, e, PeekSize(e.rcv.queue)); r.code > 0 && r.data != []
  {
    hide Drain, MessageSpan, PeekSize;
    PeekIsPayload(e.rcv.queue);
  }

  ghost predicate Reads(s: Session, t: Session, d: bytes, fate: Fate) {
    d != [] && t.node.got == s.node.got + [d] && t.ledger == s.ledger.(fates := s.ledger.fates + [fate])
  }

  lemma KcpRecvReads(s: Session, fate: Fate)
    ensures var (t, x) := KcpRecv(s, fate);
            || (t == s && x.None?)
            || (x.None? && s.finRecved && exists d :: Reads(s, t, d, Swallowed))
            || (x.Some? && Reads(s, t, x.value, fate))
  {
    hide RecvBytes;
    RecvBytesReads(s, fate);
    RecvBytesReads(s, Swallowed);
    if LastOne(s) && RecvBytes(s, Swallowed).1.Some? {
      assert Reads(s, RecvBytes(s, Swallowed).0, RecvBytes(s, Swallowed).1.value, Swallowed);
    }
  }

  lemma ForAppSnoc(got: seq<bytes>, fates: seq<Fate>, d: bytes, fate: Fate)
    requires |got| == |fates|
    ensures ForApp(got + [d], fates + [fate]) == ForApp(got, fates) + (if fate == ForApplication then [d] else [])
  {
    assert (got + [d])[..|got|] == got && (fates + [fate])[..|got|] == fates;
  }

  lemma FramesToldSnoc(told: seq<Output>, o: Output)
    ensures FramesTold(told + [o]) == FramesTold(told) + (if o.Frame? then [o.data] else [])
  {
    assert (told + [o])[..|told|] == told;
  }

  /** The read that a state with none waiting does for the application. */
  lemma FetchReads(c: Settings, s: Session)
    requires ReadsOk(c, s) && s.frame.None? && s.hs != Syn
    ensures var (t, x) := KcpRecv(s, ForApplication);
            ReadsOk(c, t.(frame := x)) && t.told == s.told && t.hs == s.hs && t.frame == s.frame
  {
    hide KcpRecv, ForApp, FramesTold, HasKey;
    var (t, x) := KcpRecv(s, ForApplication);
    KcpRecvReads(s, ForApplication);
    if x.Some? {
      ForAppSnoc(s.node.got, s.ledger.fates, x.value, ForApplication);
    } else if t != s {
      var d :| Reads(s, t, d, Swallowed);
      ForAppSnoc(s.node.got, s.ledger.fates, d, Swallowed);
    }
  }

  lemma {:induction false} HandOverReads(c: Settings, s: Session, room: nat)
    requires ReadsOk(c, s) && s.frame.None? && s.hs != Syn && s.told != []
    ensures ReadsOk(c, HandOver(s, room))
    decreases room
  {
    hide KcpRecv, ReadsOk;
    var (t, x) := KcpRecv(s, ForApplication);
    FetchReads(c, s);
    if x.Some? {
      if room > 0 {
        var u := t.(told := t.told + [Frame(x.value)]);
        TellReads(c, t.(frame := x));
        assert u == t.(frame := None, told := t.told + [Frame(x.value)]);
        HandOverReads(c, u, room - 1);
      }
    } else {
      assert t.(frame := None) == t;
    }
  }

  /** A waiting frame is told. */
  lemma TellReads(c: Settings, s: Session)
    requires ReadsOk(c, s) && s.frame.Some? && s.told != []
    ensures ReadsOk(c, s.(frame := None, told := s.told + [Frame(s.frame.value)]))
  {
    hide ForApp, FramesTold, HasKey;
    FramesToldSnoc(s.told, Frame(s.frame.value));
    assert FramesTold(s.told) + [s.frame.value] + [] == FramesTold(s.told) + [s.frame.value];
  }

  lemma OnOutputReads(c: Settings, s: Session, room: nat)
    requires ReadsOk(c, s) && ControlInv(s) && s.frame.Some? && s.hs != Disconnected
    ensures ReadsOk(c, OnOutput(s, room))
  {
    hide HandOver, ReadsOk;
    TellReads(c, s);
    HandOverReads(c, s.(frame := None, told := s.told + [Frame(s.frame.value)]), room);
  }

  lemma EstablishReads(c: Settings, s: Session, id: bytes, room: bool, now: Word)
    ensures var (u, ok) := Establish(c, s, id, room, now);
            && u.node.got == s.node.got && u.ledger.fates == s.ledger.fates && u.frame == s.frame && u.hs == Connected
            && (u.told == s.told || u.told == s.told + [Established(u.node.e.cfg.conv)])
  {
    hide ApplyNoDelay, Greet, Quiet;
    var s1 := if s.client then s else s.(id := id);
    ApplyNoRead(c, s1);
    GreetNoRead(c, ApplyNoDelay(c, s1), now);
  }

  lemma ApplyNoRead(c: Settings, s: Session)
    ensures NoRead(s, ApplyNoDelay(c, s)) && ApplyNoDelay(c, s).ledger == s.ledger
  {
    hide Act, Quiet;
    ActNoRead(s, DoNoDelay(if c.nodelay then 1 else 0, c.interval, c.resend, if c.nc then 1 else 0));
  }

  /** The handshake takes the first read, and only announces a session whose first read has the key. */
  lemma SynReads(c: Settings, s: Session, room: bool, now: Word)
    requires ReadsOk(c, s) && ControlInv(s) && s.hs == Syn
    ensures var (u, ok) := SynHandshakeRecv(c, s, room, now);
            var t := if ok then u else u.(hs := Disconnected);
            ReadsOk(c, t) && t.frame.None? && (t.hs == Syn ==> t == s)
  {
    hide KcpRecv, Establish, ForApp, FramesTold, HasKey;
    var (t, syn) := KcpRecv(s, ForHandshake);
    KcpRecvReads(s, ForHandshake);
    assert ForApp([], []) == [] by {
      NoneForApp();
    }
    if syn.Some? {
      ForAppSnoc(s.node.got, s.ledger.fates, syn.value, ForHandshake);
      if HasKey(c, syn.value) {
        KeyPrefix(c, syn.value);
        var id := syn.value[|c.key|..];
        EstablishReads(c, t, id, room, now);
        var u := Establish(c, t, id, room, now).0;
        FramesToldSnoc(t.told, Established(u.node.e.cfg.conv));
      }
    }
  }

  lemma NoneForApp()
    ensures ForApp([], []) == [] && FramesTold([]) == []
  {
  }

  lemma KeyPrefix(c: Settings, syn: bytes)
    requires HasKey(c, syn)
    ensures |c.key| <= |syn| && c.key + syn[|c.key|..] == syn
  {
  }

  lemma AfterPacketsReads(c: Settings, s: Session, room: bool, now: Word)
    requires ReadsOk(c, s) && ControlInv(s)
    ensures ReadsOk(c, AfterPackets(c, s, room, now))
  {
    hide SynHandshakeRecv, FinTransit, KcpFlush, KcpRecv, ReadsOk;
    var (u, ok) := SynHandshakeRecv(c, s, room, now);
    var t := if s.hs == Syn then (if ok then u else u.(hs := Disconnected))
             else if s.hs == FinPending || s.hs == FinSent then FinTransit(c, s, now) else s;
    if s.hs == Syn {
      SynReads(c, s, room, now);
    } else {
      FinTransitNoRead(c, s, now);
      NoReadKeeps(c, s, t);
    }
    FinTransitKeeps(c, s, now);
    var t1 := if t.frame.None? then var (v, x) := KcpRecv(t, ForApplication); v.(frame := x) else t;
    assert ReadsOk(c, t1) by {
      if t.frame.None? {
        if t.hs == Syn {
          SynHandshakeControl(c, s, room, now);
          NothingTwice(s);
        } else {
          FetchReads(c, t);
        }
      }
    }
    KcpFlushNoRead(t1, now);
    NoReadKeeps(c, t1, KcpFlush(t1, now));
  }

  /* ---------------------------------------------------------------- over a run */

  lemma StepReads(c: Settings, s: Session, ev: SEvent)
    requires ReadsOk(c, s) && ControlInv(s)
    ensures ReadsOk(c, Step(c, s, ev))
  {
    hide OnInput, OnOutput, OnTop, KcpInput, AfterPackets, Full, ReadsOk, ControlInv;
    match ev
    case FromApp(now) =>
      OnInputNoRead(c, s, now);
      NoReadKeeps(c, s, OnInput(c, s, now));
    case ToApp(room) =>
      if s.hs != Disconnected && s.frame.Some? {
        OnOutputReads(c, s, room);
      }
    case FromNet(p, now) =>
      KcpInputNoRead(c, s, p, now);
      NoReadKeeps(c, s, KcpInput(c, s, p, now));
    case NetDone(space, now) => AfterPacketsReads(c, s, space, now);
    case LoopTop(now) =>
      OnTopNoRead(c, s, now);
      NoReadKeeps(c, s, OnTop(c, s, now));
    case Write(frame) => NoReadKeeps(c, s, OnWrite(s, frame));
    case Close => NoReadKeeps(c, s, s.(open := false));
  }

  lemma BeginReads(c: Settings, e: Endpoint, id: bytes, now: Word)
    ensures ReadsOk(c, Begin(c, New(e), id, now))
  {
    hide Act, Greet, Wrap;
    var n := New(e);
    var m := n.(hsEnd := Wrap(now + c.connectTimeout * 1000));
    var a := Act(m, DoNoDelay(1, 100, 0, 0));
    var t := a.(lastIo := a.node.e.clock.current);
    ActNoRead(m, DoNoDelay(1, 100, 0, 0));
    var u := t.(client := true, id := id);
    ActNoRead(u, DoSetConv(SYN_CONV));
    GreetNoRead(c, Act(u, DoSetConv(SYN_CONV)), now);
  }

  /** Every frame KCP hands over is accounted for, in every state of every run. */
  lemma {:induction false} RunReads(c: Settings, e: Endpoint, id: bytes, now: Word, evs: seq<SEvent>)
    ensures ReadsOk(c, RunSession(c, e, id, now, evs))
  {
    hide Step, Begin, ReadsOk, ControlInv;
    if evs == [] {
      BeginReads(c, e, id, now);
    } else {
      var init := evs[..|evs| - 1];
      RunReads(c, e, id, now, init);
      RunControl(c, e, id, now, init, |init|);
      StepReads(c, RunSession(c, e, id, now, init), evs[|evs| - 1]);
    }
  }

  lemma {:induction false} RunOver(c: Settings, e: Endpoint, id: bytes, now: Word, evs: seq<SEvent>, n: nat)
    requires n <= |evs| && RunSession(c, e, id, now, evs[..n]).over
    ensures RunSession(c, e, id, now, evs) == RunSession(c, e, id, now, evs[..n])
  {
    assert evs[..|evs|] == evs;
    if n < |evs| {
      assert evs[..|evs| - 1][..n] == evs[..n];
      RunOver(c, e, id, now, evs[..|evs| - 1], n);
    }
  }

  /**
    A session that has ended has told the application everything KCP handed over for it, in order,
    exactly when no frame was waiting; otherwise it has told all but that one, and never will.
  */
  lemma EndedToldEverything(c: Settings, e: Endpoint, id: bytes, now: Word, evs: seq<SEvent>, n: nat)
    requires n <= |evs| && RunSession(c, e, id, now, evs[..n]).over
    ensures var s, t := RunSession(c, e, id, now, evs[..n]), RunSession(c, e, id, now, evs);
            && |s.ledger.fates| == |s.node.got|
            && (FramesTold(t.told) == ForApp(s.node.got, s.ledger.fates) <==> s.frame.None?)
            && FramesTold(t.told) + Waiting(s.frame) == ForApp(s.node.got, s.ledger.fates)
  {
    hide RunSession, ForApp, FramesTold;
    RunReads(c, e, id, now, evs[..n]);
    RunOver(c, e, id, now, evs, n);
  }

  /* ---------------------------------------------------------------- leaving */

  lemma {:induction false} HandOverHs(s: Session, room: nat)
    ensures HandOver(s, room).hs == s.hs
    decreases room
  {
    hide RecvBytes;
    var (t, x) := KcpRecv(s, ForApplication);
    if x.Some? && room > 0 {
      HandOverHs(t.(told := t.told + [Frame(x.value)]), room - 1);
    }
  }

  /** Past the SYN handshake, the FIN handshake ends only with nothing unread. */
  lemma {:induction false} EndsUnread(c: Settings, s: Session, now: Word)
    requires s.hs != Syn && s.hs != Disconnected && FinTransit(c, s, now).hs == Disconnected
    ensures Unread(FinTransit(c, s, now)) == 0
    decreases 5 - Rank(s.hs)
  {
    hide FinTransit, FinSend, WaitSnd, Wrap;
    FinTurn(c, s, now);
    if s.hs == FinWaitPeer {
      FinTurn(c, s.(hs := Disconnected), now);
    } else if !Stuck(s) {
      PassedHs(c, s, now);
      EndsUnread(c, Passed(c, s, now), now);
    }
  }

  lemma PassedHs(c: Settings, s: Session, now: Word)
    requires s.hs == Connected || s.hs == FinPending || s.hs == FinSent
    ensures var hs := Passed(c, s, now).hs; hs != Syn && hs != Disconnected && Rank(hs) == Rank(s.hs) + 1
  {
    hide FinSend, Wrap;
  }

  lemma NothingToRead(s: Session, fate: Fate)
    requires Unread(s) == 0
    ensures KcpRecv(s, fate) == (s, None)
  {
  }

  lemma LeavingPackets(c: Settings, s: Session, room: bool, now: Word)
    requires s.hs != Syn && s.hs != Disconnected && AfterPackets(c, s, room, now).hs == Disconnected
    ensures AfterPackets(c, s, room, now).frame == s.frame
  {
    hide FinTransit, KcpRecv, KcpFlush, SynHandshakeRecv, NoRead;
    var t := if s.hs == FinPending || s.hs == FinSent then FinTransit(c, s, now) else s;
    FinTransitFrame(c, s, now);
    assert t.hs == Disconnected;
    EndsUnread(c, s, now);
    NothingToRead(t, ForApplication);
  }

  lemma FinTransitFrame(c: Settings, s: Session, now: Word)
    ensures FinTransit(c, s, now).frame == s.frame
  {
    hide FinTransit;
    FinTransitNoRead(c, s, now);
  }

  lemma LeavingStep(c: Settings, s: Session, ev: SEvent)
    requires s.hs != Syn && s.hs != Disconnected && Step(c, s, ev).hs == Disconnected
    ensures Step(c, s, ev).frame == s.frame
  {
    hide OnInput, HandOver, KcpInput, AfterPackets, OnTop, Full;
    match ev
    case LoopTop(now) => OnTopNoRead(c, s, now);
    case FromApp(now) => OnInputNoRead(c, s, now);
    case ToApp(room) =>
      if s.frame.Some? {
        HandOverHs(s.(frame := None, told := s.told + [Frame(s.frame.value)]), room);
      }
    case FromNet(p, now) => KcpInputNoRead(c, s, p, now);
    case NetDone(space, now) =>
      if !s.over {
        LeavingPackets(c, s, space, now);
      }
    case _ =>
  }

  lemma {:induction false} ToldIsFinal(c: Settings, e: Endpoint, id: bytes, now: Word, evs: seq<SEvent>, n: nat)
    requires n <= |evs| && RunSession(c, e, id, now, evs[..n]).hs == Disconnected
    ensures var s, t := RunSession(c, e, id, now, evs[..n]), RunSession(c, e, id, now, evs);
            t.hs == Disconnected && t.told == s.told
  {
    hide Step, Begin, ControlInv;
    assert evs[..|evs|] == evs;
    if n < |evs| {
      var init := evs[..|evs| - 1];
      assert init[..n] == evs[..n];
      ToldIsFinal(c, e, id, now, init, n);
      RunControl(c, e, id, now, init, |init|);
      DisconnectedIsFinal(c, RunSession(c, e, id, now, init), evs[|evs| - 1]);
    }
  }

  /** The end of a batch of packets that puts a frame where it waits for room: KCP has a message to read. */
  predicate Fetches(s: Session, ev: SEvent) {
    ev.NetDone? && !s.over && PeekSize(s.node.e.rcv.queue) > 0 && !LastOne(s)
  }

  /** A disconnected session only puts frames aside. */
  lemma DisconnectedFrame(c: Settings, s: Session, ev: SEvent)
    requires s.hs == Disconnected
    ensures Step(c, s, ev).frame.None? <==> s.frame.None? && !Fetches(s, ev)
  {
    hide OnInput, OnOutput, KcpInput, KcpRecv, KcpFlush, OnTop, PeekSize, LastOne;
    match ev
    case LoopTop(now) => OnTopNoRead(c, s, now);
    case FromNet(p, now) => KcpInputNoRead(c, s, p, now);
    case NetDone(space, now) => ReadIfAny(s, ForApplication);
    case _ =>
  }

  lemma ReadIfAny(s: Session, fate: Fate)
    ensures KcpRecv(s, fate).1.Some? <==> PeekSize(s.node.e.rcv.queue) > 0 && !LastOne(s)
  {
    hide Act, Recv, PeekSize;
  }

  /** Whether a frame waits at some point after the disconnection. */
  lemma {:induction false} FrameAfter(c: Settings, e: Endpoint, id: bytes, now: Word, evs: seq<SEvent>, n: nat)
    requires n <= |evs| && RunSession(c, e, id, now, evs[..n]).hs == Disconnected
    ensures RunSession(c, e, id, now, evs).frame.None? <==>
              && RunSession(c, e, id, now, evs[..n]).frame.None?
              && forall m | n <= m < |evs| :: !Fetches(RunSession(c, e, id, now, evs[..m]), evs[m])
  {
    hide Step, Begin, Fetches;
    assert evs[..|evs|] == evs;
    if n < |evs| {
      var last := |evs| - 1;
      var init := evs[..last];
      assert forall m | 0 <= m <= last :: init[..m] == evs[..m];
      FrameAfter(c, e, id, now, init, n);
      ToldIsFinal(c, e, id, now, init, n);
      DisconnectedFrame(c, RunSession(c, e, id, now, init), evs[last]);
    }
  }

  /**
    When an established session disconnects, for whatever reason, its application gets everything that
    is ever read for it if and only if no frame was waiting for room just before, and none is fetched
    at the end of the batch of packets in which it disconnected.
  */
  lemma LeavingToldEverything(c: Settings, e: Endpoint, id: bytes, now: Word, evs: seq<SEvent>, n: nat)
    requires n < |evs|
    requires var s, t := RunSession(c, e, id, now, evs[..n]), RunSession(c, e, id, now, evs[..n + 1]);
             s.hs != Syn && s.hs != Disconnected && t.hs == Disconnected
    ensures var s, u := RunSession(c, e, id, now, evs[..n]), RunSession(c, e, id, now, evs);
            && |u.ledger.fates| == |u.node.got|
            && (FramesTold(u.told) == ForApp(u.node.got, u.ledger.fates) <==>
                  && s.frame.None?
                  && forall m | n < m < |evs| :: !Fetches(RunSession(c, e, id, now, evs[..m]), evs[m]))
  {
    hide Step, ForApp, FramesTold, Begin, Fetches;
    assert evs[..n + 1][..n] == evs[..n] && evs[..n + 1][n] == evs[n];
    RunReads(c, e, id, now, evs);
    LeavingStep(c, RunSession(c, e, id, now, evs[..n]), evs[n]);
    FrameAfter(c, e, id, now, evs, n + 1);
  }
}
