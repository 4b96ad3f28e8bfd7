/**
  What a session gives to KCP: its greeting, then what it takes of the application's frames, in
  order, then its FIN.
*/
module Writes {
  import opened Serial
  import opened WireFormat
  import opened Endpoints
  import opened Invariants
  import opened Messages
  import opened Network
  import opened Marking
  import opened Sessions
  import opened SessionSafety

  /** A frame KCP takes whole, whatever is queued: not empty, and at most `max_frame_size`. */
  predicate Fits(cfg: Config, frame: bytes) {
    0 < |frame| <= (cfg.mtu - OVERHEAD) * (WND_RCV - 1)
  }

  /** Each piece is the front of a frame of its own, in the order of the frames; some give none. */
  predicate TakenFrom(pieces: seq<bytes>, frames: seq<bytes>)
    decreases |frames|
  {
    if frames == [] then pieces == []
    else
      || TakenFrom(pieces, frames[..|frames| - 1])
      || (pieces != [] && pieces[|pieces| - 1] <= frames[|frames| - 1]
          && TakenFrom(pieces[..|pieces| - 1], frames[..|frames| - 1]))
  }

  /** What went to KCP comes from the frames taken from the channel so far; all of them, if they fit. */
  ghost predicate HandedOk(cfg: Config, l: Ledger, input: seq<bytes>) {
    && |input| <= |l.written| && input == l.written[|l.written| - |input|..]
    && TakenFrom(l.handed, l.written[..|l.written| - |input|])
    && ((forall f | f in l.written :: Fits(cfg, f)) ==> l.handed == l.written[..|l.written| - |input|])
  }

  /** The handshake frame is accepted; the source panics otherwise. */
  predicate Proper(c: Settings, cfg: Config) {
    0 < |c.key| + c.idLen <= (cfg.mtu - OVERHEAD) * (WND_RCV - 1)
  }

  /** The FIN is sent whole. */
  predicate Farewell(c: Settings, s: Session) {
    Proper(c, s.node.e.cfg) && s.finAt.Some? ==> s.ledger.farewell == [c.key + s.id]
  }

  ghost predicate SentOk(c: Settings, s: Session) {
    var l := s.ledger;
    && ConfigInv(s.node.e.cfg)
    && s.node.sent == l.greeting + l.handed + l.farewell
    && HandedOk(s.node.e.cfg, l, s.input)
    && (s.told == [] ==> l.written == [])
    && (Rank(s.hs) < 3 ==> l.farewell == [] && s.finAt.None?)
    && (l.farewell != [] ==> s.inputClosed && s.input == [])
    && Farewell(c, s)
    && (s.hs == Syn && !s.client ==> l.greeting == [])
    && (Proper(c, s.node.e.cfg) ==>
          || (l.greeting == [c.key + s.id] && |s.id| == c.idLen)
          || (!s.client && l.greeting == [] && l.handed == [] && l.farewell == [] && s.told == []))
  }

  predicate SameShape(cfg: Config, cfg': Config) {
    && cfg'.mtu == cfg.mtu && cfg'.mss == cfg.mss && cfg'.rcvWnd == cfg.rcvWnd && cfg'.stream == cfg.stream
  }

  /** No data goes to KCP, and none comes from the application. */
  predicate Silent(s: Session, t: Session) {
    && t.node.sent == s.node.sent && t.input == s.input && t.ledger.(fates := s.ledger.fates) == s.ledger
    && SameShape(s.node.e.cfg, t.node.e.cfg) && t.client == s.client && t.id == s.id && t.told == s.told
    && (t.hs == Syn ==> s.hs == Syn) && (Rank(t.hs) < 3 ==> Rank(s.hs) < 3) && (s.inputClosed ==> t.inputClosed)
    && t.finAt == s.finAt
  }

  lemma SilentKeeps(c: Settings, s: Session, t: Session)
    requires SentOk(c, s) && Silent(s, t)
    ensures SentOk(c, t)
  {
    hide HandedOk;
    HandedShape(s.node.e.cfg, t.node.e.cfg, s.ledger, t.ledger, s.input);
  }

  lemma HandedShape(cfg: Config, cfg': Config, l: Ledger, l': Ledger, input: seq<bytes>)
    requires HandedOk(cfg, l, input) && SameShape(cfg, cfg') && l'.written == l.written && l'.handed == l.handed
    ensures HandedOk(cfg', l', input)
  {
    hide TakenFrom;
    assert forall f :: Fits(cfg, f) == Fits(cfg', f);
  }

  /** Telling the application something does not matter either. */
  lemma ToldKeeps(c: Settings, s: Session, told: seq<Output>)
    requires SentOk(c, s) && s.told != [] && told != []
    ensures SentOk(c, s.(told := told))
  {
  }

  lemma SilentThen(s: Session, t: Session, u: Session)
    requires Silent(s, t) && Silent(t, u)
    ensures Silent(s, u)
  {
  }

  lemma LocalCfg(e: Endpoint, act: Action)
    ensures SameShape(e.cfg, Local(Bits32, e, act).e.cfg)
  {
    hide Send, RecvQueue, Promote, TickAll, DueSegments, CountDue, Exhausted, Backed, ProbeTick, Advance;
  }

  lemma ActSent(s: Session, act: Action)
    requires !act.Deliver?
    ensures var t := Act(s, act);
            && SameShape(s.node.e.cfg, t.node.e.cfg) && t.ledger == s.ledger
            && t.node.sent == s.node.sent + Local(Bits32, s.node.e, act).sent
  {
    hide Packets, Local;
    LocalCfg(s.node.e, act);
  }

  lemma ActSilent(s: Session, act: Action)
    requires !act.Deliver? && !act.DoSend?
    ensures Silent(s, Act(s, act)) && Act(s, act).ledger == s.ledger
  {
    hide Act, Flush, Update;
    ActSent(s, act);
  }

  lemma HearSilent(s: Session, p: bytes)
    ensures Silent(s, Hear(s, p))
  {
    hide InputSegments, Parse, FoldMaxAck, Grow, ParseFastack;
  }

  lemma RecvBytesSilent(s: Session, fate: Fate)
    ensures Silent(s, RecvBytes(s, fate).0)
  {
    hide Act;
    var size := PeekSize(s.node.e.rcv.queue);
    if size > 0 {
      ActSilent(s, DoRecv(size));
    }
  }

  lemma KcpRecvSilent(s: Session, fate: Fate)
    ensures Silent(s, KcpRecv(s, fate).0)
  {
    hide RecvBytes;
    RecvBytesSilent(s, fate);
    RecvBytesSilent(s, Swallowed);
  }

  lemma KcpFlushSilent(s: Session, now: Word)
    ensures Silent(s, KcpFlush(s, now)) && KcpFlush(s, now).ledger == s.ledger
  {
    hide Act;
    var t := s.(flush := false);
    ActSilent(t, DoUpdate(now));
    ActSilent(Act(t, DoUpdate(now)), DoFlush);
  }

  lemma ApplyNoDelaySilent(c: Settings, s: Session)
    ensures Silent(s, ApplyNoDelay(c, s))
  {
    hide Act;
    ActSilent(s, DoNoDelay(if c.nodelay then 1 else 0, c.interval, c.resend, if c.nc then 1 else 0));
  }

  lemma SynInputSilent(s: Session, p: bytes)
    ensures Silent(s, SynHandshakeInput(s, p))
  {
    hide Act, Hear, Word32, InputCode, WaitSnd, Silent;
    SilentSelf(s);
    if |p| >= OVERHEAD {
      var t := Act(s, DoSetConv(Word32(p)));
      var u := Hear(t, p);
      ActSilent(s, DoSetConv(Word32(p)));
      HearSilent(t, p);
      SilentThen(s, t, u);
      ActSilent(u, DoSetConv(SYN_CONV));
      ActSilent(u, DoSetConv(s.node.e.cfg.conv));
      SilentThen(s, u, Act(u, DoSetConv(SYN_CONV)));
      SilentThen(s, u, Act(u, DoSetConv(s.node.e.cfg.conv)));
    }
  }

  lemma SilentSelf(s: Session)
    ensures Silent(s, s)
  {
  }

  /* ---------------------------------------------------------------- sending */

  /** What `Put` is: the whole frame when it fits, a front of it otherwise. */
  lemma PutIs(s: Session, data: bytes)
    requires ConfigInv(s.node.e.cfg)
    ensures Fits(s.node.e.cfg, data) ==> Put(s, data) == [data]
    ensures Put(s, data) == [] || exists piece :: piece <= data && Put(s, data) == [piece]
  {
    hide Extend, Extension, FragmentCount, Fragments;
    if Fits(s.node.e.cfg, data) {
      MaxFrameAccepted(s.node.e.cfg, s.node.e.snd.queue, data);
    }
    TakenIs(s.node.e.cfg, s.node.e.snd.queue, data);
  }

  lemma TakenIs(cfg: Config, queue: seq<Frag>, data: bytes)
    ensures Send(cfg, queue, data).taken <= data
    ensures Send(cfg, queue, data).code == 0 ==> Send(cfg, queue, data).taken == data
  {
    hide Extend, FragmentCount, Fragments;
  }

  lemma KcpSendSent(s: Session, data: bytes)
    ensures var t := KcpSend(s, data).0;
            && Quiet(s, t) && SameShape(s.node.e.cfg, t.node.e.cfg) && t.ledger == s.ledger
            && t.node.sent == s.node.sent + Put(s, data)
  {
    hide Act, Send;
    if data != [] {
      ActSent(s, DoSend(data));
    } else {
      assert s.node.sent + [] == s.node.sent;
    }
  }

  lemma HandshakeSendSent(c: Settings, s: Session, now: Word)
    ensures var t := HandshakeSend(c, s, now);
            && Quiet(s, t) && SameShape(s.node.e.cfg, t.node.e.cfg) && t.ledger == s.ledger
            && t.node.sent == s.node.sent + Put(s, c.key + s.id)
  {
    hide KcpSend, KcpFlush, Put;
    var u := s.(flush := true);
    assert Put(u, c.key + s.id) == Put(s, c.key + s.id) by {
      PutSame(s, u, c.key + s.id);
    }
    KcpSendSent(u, c.key + s.id);
    KcpFlushSilent(KcpSend(u, c.key + s.id).0, now);
  }

  lemma PutSame(s: Session, t: Session, data: bytes)
    requires s.node.e == t.node.e
    ensures Put(s, data) == Put(t, data)
  {
  }

  lemma TakenMore(pieces: seq<bytes>, frames: seq<bytes>, frame: bytes, put: seq<bytes>)
    requires TakenFrom(pieces, frames)
    requires put == [] || exists piece :: piece <= frame && put == [piece]
    ensures TakenFrom(pieces + put, frames + [frame])
  {
    assert (frames + [frame])[..|frames|] == frames;
    if put == [] {
      assert pieces + [] == pieces;
    } else {
      var piece :| piece <= frame && put == [piece];
      assert (pieces + [piece])[..|pieces|] == pieces;
    }
  }

  lemma HandedMore(cfg: Config, l: Ledger, input: seq<bytes>, put: seq<bytes>)
    requires HandedOk(cfg, l, input) && input != []
    requires Fits(cfg, input[0]) ==> put == [input[0]]
    requires put == [] || exists piece :: piece <= input[0] && put == [piece]
    ensures HandedOk(cfg, l.(handed := l.handed + put), input[1..])
  {
    hide TakenFrom, Fits;
    var n := |l.written| - |input|;
    assert input[0] == l.written[n] && l.written[..n + 1] == l.written[..n] + [input[0]];
    assert input[1..] == l.written[n + 1..];
    TakenMore(l.handed, l.written[..n], input[0], put);
    assert l.written[n] in l.written;
  }

  /** A frame of the application, while no FIN has been sent. */
  lemma ProcessInputSent(c: Settings, s: Session)
    requires SentOk(c, s) && s.input != [] && Rank(s.hs) < 3
    ensures SentOk(c, ProcessInput(c, s.(input := s.input[1..]), s.input[0]))
    ensures Quiet(s.(input := s.input[1..]), ProcessInput(c, s.(input := s.input[1..]), s.input[0]))
  {
    hide KcpSend, Put, Fits, HandedOk, Quiet, Proper;
    var f, u := s.input[0], s.(input := s.input[1..]);
    var t := ProcessInput(c, u, f);
    var g, h := s.ledger.greeting, s.ledger.handed;
    assert g + h + [] + Put(u, f) == g + (h + Put(u, f)) + [];
    KcpSendSent(u, f);
    PutIs(u, f);
    HandedMore(s.node.e.cfg, s.ledger, s.input, Put(u, f));
    HandedShape(s.node.e.cfg, t.node.e.cfg, s.ledger.(handed := s.ledger.handed + Put(u, f)), t.ledger, u.input);
    QuietParts(u, t);
    ProperShape(c, s.node.e.cfg, t.node.e.cfg);
    SomethingTold(c, s);
  }

  lemma SomethingTold(c: Settings, s: Session)
    requires SentOk(c, s) && s.input != []
    ensures s.told != []
  {
    hide TakenFrom, Fits;
  }

  lemma QuietParts(s: Session, t: Session)
    requires Quiet(s, t)
    ensures t.hs == s.hs && t.told == s.told && t.input == s.input && t.client == s.client && t.id == s.id
    ensures t.open == s.open && t.inputClosed == s.inputClosed && t.finAt == s.finAt
  {
  }

  lemma {:induction false} DrainSent(c: Settings, s: Session)
    requires SentOk(c, s) && Rank(s.hs) < 3
    ensures SentOk(c, DrainInput(c, s).0) && DrainInput(c, s).0.hs == s.hs
    decreases |s.input|
  {
    hide ProcessInput, Full, SentOk;
    if !Full(s) && s.input != [] {
      var t := ProcessInput(c, s.(input := s.input[1..]), s.input[0]);
      ProcessInputSent(c, s);
      DrainSent(c, t);
    }
  }

  /** The FIN is the last frame. */
  lemma FinSendSent(c: Settings, s: Session, now: Word)
    requires SentOk(c, s) && s.hs == FinPending && s.told != [] && s.inputClosed && s.input == []
    ensures SentOk(c, FinSend(c, s, now))
  {
    hide HandshakeSend, Put, HandedOk, Quiet;
    PutIs(s, c.key + s.id);
    var r := Ready(c, s);
    PutSame(s, r, c.key + s.id);
    HandshakeSendSent(c, r, now);
    var t := FinSend(c, s, now);
    QuietParts(r, HandshakeSend(c, r, now));
    HandedShape(s.node.e.cfg, t.node.e.cfg, s.ledger, t.ledger, s.input);
    assert s.ledger.greeting + s.ledger.handed + [] == s.ledger.greeting + s.ledger.handed;
  }

  lemma {:induction false} FinTransitSent(c: Settings, s: Session, now: Word)
    requires SentOk(c, s) && (s.told != [] || s.hs == Syn || s.hs == Disconnected)
    requires s.inputClosed ==> s.input == []
    ensures SentOk(c, FinTransit(c, s, now))
    decreases 5 - Rank(s.hs)
  {
    hide FinTransit, FinSend, WaitSnd, Unread, Wrap, SentOk;
    FinTurn(c, s, now);
    if !Stuck(s) {
      var t := Passed(c, s, now);
      PassedKeeps(c, s, now);
      if s.hs == FinPending {
        FinSendSent(c, s, now);
      } else {
        PassedShape(c, s, now);
        SilentKeeps(c, s, t);
      }
      FinTransitSent(c, t, now);
    }
  }

  lemma PassedShape(c: Settings, s: Session, now: Word)
    requires !Stuck(s) && s.hs != FinPending
    ensures Silent(s, Passed(c, s, now))
  {
    hide WaitSnd, Unread, Wrap;
  }

  lemma OnInputSent(c: Settings, s: Session, now: Word)
    requires SentOk(c, s) && ControlInv(s) && s.hs != Disconnected && !s.inputClosed
    ensures SentOk(c, OnInput(c, s, now))
  {
    hide DrainInput, FinTransit, KcpFlush, SentOk, ToldOk;
    var (t, closed) := DrainInput(c, s);
    DrainSent(c, s);
    DrainInputKeeps(c, s);
    var u := if closed then FinTransit(c, t.(inputClosed := true), now) else t;
    if closed {
      SilentKeeps(c, t, t.(inputClosed := true));
      FinTransitSent(c, t.(inputClosed := true), now);
    }
    KcpFlushSilent(u, now);
    SilentKeeps(c, u, KcpFlush(u, now));
  }

  lemma {:induction false} HandOverSent(c: Settings, s: Session, room: nat)
    requires SentOk(c, s) && s.told != []
    ensures SentOk(c, HandOver(s, room))
    decreases room
  {
    hide KcpRecv, SentOk;
    var (t, x) := KcpRecv(s, ForApplication);
    KcpRecvSilent(s, ForApplication);
    SilentKeeps(c, s, t);
    if x.Some? {
      if room == 0 {
        SilentKeeps(c, t, t.(frame := x));
      } else {
        ToldKeeps(c, t, t.told + [Frame(x.value)]);
        HandOverSent(c, t.(told := t.told + [Frame(x.value)]), room - 1);
      }
    }
  }

  lemma OnOutputSent(c: Settings, s: Session, room: nat)
    requires SentOk(c, s) && ControlInv(s) && s.frame.Some? && s.hs != Disconnected
    ensures SentOk(c, OnOutput(s, room))
  {
    hide HandOver, SentOk, ToldOk;
    var t := s.(frame := None);
    SilentKeeps(c, s, t);
    ToldKeeps(c, t, s.told + [Frame(s.frame.value)]);
    HandOverSent(c, s.(frame := None, told := s.told + [Frame(s.frame.value)]), room);
  }

  lemma FinInputSent(c: Settings, s: Session, p: bytes, now: Word)
    requires SentOk(c, s) && ControlInv(s) && |p| > 4 && HasBit(p[4], KCP_FIN)
    ensures SentOk(c, FinInput(c, s, p, now))
  {
    hide FinTransit, Hear, HasBit, Unmark, SentOk, ToldOk;
    var t := if s.finRecved then s else s.(finRecved := true, open := false);
    SilentKeeps(c, s, t);
    FinTransitSent(c, t, now);
    HearSilent(FinTransit(c, t, now), Unmark(p));
    SilentKeeps(c, FinTransit(c, t, now), Hear(FinTransit(c, t, now), Unmark(p)));
  }

  lemma KcpInputSent(c: Settings, s: Session, p: bytes, now: Word)
    requires SentOk(c, s) && ControlInv(s)
    ensures SentOk(c, KcpInput(c, s, p, now))
  {
    hide Hear, SynHandshakeInput, InputCode, HasBit, FinInput, SentOk, ControlInv, Silent, Quiet;
    var t := Hear(s, p);
    HearSilent(s, p);
    SilentKeeps(c, s, t);
    QuietControl(s, t);
    FlagsSent(c, t);
    SynInputSilent(t, p);
    SilentKeeps(c, t, SynHandshakeInput(t, p));
    if |p| > 4 && HasBit(p[4], KCP_FIN) {
      FinInputSent(c, t, p, now);
    }
  }

  lemma FlagsSent(c: Settings, s: Session)
    requires SentOk(c, s)
    ensures SentOk(c, s.(flush := true)) && SentOk(c, s.(hs := Disconnected))
  {
    hide SentOk;
    SilentKeeps(c, s, s.(flush := true));
    SilentKeeps(c, s, s.(hs := Disconnected));
  }

  /** The greeting is out, whole, or cannot be. */
  predicate Greeted(c: Settings, s: Session) {
    Proper(c, s.node.e.cfg) ==>
      s.ledger.greeting == [c.key + s.id] && |s.id| == c.idLen
  }

  lemma HandedNothing(cfg: Config, l: Ledger)
    requires l.written == [] && l.handed == []
    ensures HandedOk(cfg, l, [])
  {
  }

  lemma HandshakeFits(c: Settings, cfg: Config, id: bytes)
    requires Proper(c, cfg) && |id| == c.idLen
    ensures Fits(cfg, c.key + id)
  {
  }

  /** The greeting goes out before anything else. */
  lemma GreetSent(c: Settings, s: Session, now: Word, hs: Handshake)
    requires ConfigInv(s.node.e.cfg) && s.node.sent == [] && s.input == [] && s.told == []
    requires s.ledger.(fates := []) == Ledger([], [], [], [], [])
    requires Rank(hs) < 3 && (hs == Syn ==> s.client)
    requires |s.id| == c.idLen && s.finAt.None?
    ensures var t := Greet(c, s, now).(hs := hs); SentOk(c, t) && Greeted(c, t)
  {
    hide HandshakeSend, Put, Quiet, HandedOk, Fits, Proper, Farewell, SameShape, ConfigInv;
    var r := s.(ledger := s.ledger.(greeting := Put(s, c.key + s.id)));
    var t := Greet(c, s, now).(hs := hs);
    PutSame(s, r, c.key + s.id);
    PutIs(s, c.key + s.id);
    HandshakeSendSent(c, r, now);
    ConfigShape(s.node.e.cfg, t.node.e.cfg);
    QuietParts(r, Greet(c, s, now));
    HandedNothing(t.node.e.cfg, t.ledger);
    NoFarewell(c, t);
    OnlyGreeting(s, t, Put(s, c.key + s.id));
    ProperShape(c, s.node.e.cfg, t.node.e.cfg);
    if Proper(c, s.node.e.cfg) {
      HandshakeFits(c, s.node.e.cfg, s.id);
    }
  }

  lemma OnlyGreeting(s: Session, t: Session, g: seq<bytes>)
    requires s.node.sent == [] && t.node.sent == s.node.sent + g
    requires t.ledger.greeting == g && t.ledger.handed == [] && t.ledger.farewell == []
    ensures t.node.sent == t.ledger.greeting + t.ledger.handed + t.ledger.farewell
  {
  }

  lemma ConfigShape(cfg: Config, cfg': Config)
    requires ConfigInv(cfg) && SameShape(cfg, cfg')
    ensures ConfigInv(cfg')
  {
  }

  lemma ProperShape(c: Settings, cfg: Config, cfg': Config)
    requires SameShape(cfg, cfg')
    ensures Proper(c, cfg) == Proper(c, cfg')
  {
  }

  lemma AnnounceSent(c: Settings, s: Session, o: Output)
    requires SentOk(c, s) && Greeted(c, s)
    ensures SentOk(c, s.(told := s.told + [o]))
  {
    hide HandedOk, Proper;
  }

  lemma SynRecvSent(c: Settings, s: Session, room: bool, now: Word)
    requires SentOk(c, s) && ControlInv(s) && s.hs == Syn
    ensures var (u, ok) := SynHandshakeRecv(c, s, room, now);
            SentOk(c, if ok then u else u.(hs := Disconnected))
  {
    hide KcpRecv, Establish, HasKey, SentOk;
    var (t, syn) := KcpRecv(s, ForHandshake);
    KcpRecvSilent(s, ForHandshake);
    SilentKeeps(c, s, t);
    FlagsSent(c, t);
    if syn.Some? && HasKey(c, syn.value) {
      KeyLength(c, syn.value);
      var id := syn.value[|c.key|..];
      if !(s.client && s.id != id) {
        EstablishSent(c, t, id, room, now);
      }
    }
  }

  lemma KeyLength(c: Settings, syn: bytes)
    requires HasKey(c, syn)
    ensures |c.key| <= |syn| && |syn[|c.key|..]| == c.idLen
  {
  }

  lemma EstablishSent(c: Settings, s: Session, id: bytes, room: bool, now: Word)
    requires SentOk(c, s) && s.hs == Syn && s.told == [] && |id| == c.idLen && (s.client ==> s.id == id)
    ensures var (u, ok) := Establish(c, s, id, room, now);
            SentOk(c, if ok then u else u.(hs := Disconnected))
  {
    hide ApplyNoDelay, Greet, SentOk;
    var s0 := if s.client then s else s.(id := id);
    var s1 := ApplyNoDelay(c, s0);
    ApplyNoDelaySilent(c, s0);
    var t := (if s.client then s1 else Greet(c, s1, now)).(hs := Connected);
    if s.client {
      SilentKeeps(c, s, s1);
      StillGreeted(c, s, s1);
      ConnectedSent(c, s1);
    } else {
      BareServer(c, s);
      ApplyNoDelayCfg(c, s0);
      GreetSent(c, s1, now, Connected);
    }
    AnnounceSent(c, t, Established(t.node.e.cfg.conv));
    FlagsSent(c, t);
  }

  lemma ApplyNoDelayCfg(c: Settings, s: Session)
    requires ConfigInv(s.node.e.cfg)
    ensures ConfigInv(ApplyNoDelay(c, s).node.e.cfg)
  {
    hide ApplyNoDelay;
    ApplyNoDelaySilent(c, s);
  }

  /** A server has sent nothing yet. */
  lemma BareServer(c: Settings, s: Session)
    requires SentOk(c, s) && s.hs == Syn && !s.client && s.told == []
    ensures ConfigInv(s.node.e.cfg) && s.node.sent == [] && s.input == []
    ensures s.ledger.(fates := []) == Ledger([], [], [], [], []) && s.finAt.None?
  {
  }

  lemma StillGreeted(c: Settings, s: Session, t: Session)
    requires SentOk(c, s) && s.client && Silent(s, t)
    ensures Greeted(c, t)
  {
    hide HandedOk, Proper;
    ProperShape(c, s.node.e.cfg, t.node.e.cfg);
  }

  lemma ConnectedSent(c: Settings, s: Session)
    requires SentOk(c, s) && s.hs == Syn && s.client && Greeted(c, s)
    ensures SentOk(c, s.(hs := Connected)) && Greeted(c, s.(hs := Connected))
  {
    hide HandedOk, Proper;
  }

  lemma AfterPacketsSent(c: Settings, s: Session, room: bool, now: Word)
    requires SentOk(c, s) && ControlInv(s)
    ensures SentOk(c, AfterPackets(c, s, room, now))
  {
    hide SynHandshakeRecv, FinTransit, KcpFlush, KcpRecv, SentOk, ToldOk;
    var (u, ok) := SynHandshakeRecv(c, s, room, now);
    var t := if s.hs == Syn then (if ok then u else u.(hs := Disconnected))
             else if s.hs == FinPending || s.hs == FinSent then FinTransit(c, s, now) else s;
    if s.hs == Syn {
      SynRecvSent(c, s, room, now);
    } else if s.hs == FinPending || s.hs == FinSent {
      FinTransitSent(c, s, now);
    }
    var (v, x) := KcpRecv(t, ForApplication);
    KcpRecvSilent(t, ForApplication);
    SilentKeeps(c, t, v);
    SilentKeeps(c, v, v.(frame := x));
    var t1 := if t.frame.None? then v.(frame := x) else t;
    KcpFlushSilent(t1, now);
    SilentKeeps(c, t1, KcpFlush(t1, now));
  }

  lemma OnWriteSent(c: Settings, s: Session, frame: bytes)
    requires SentOk(c, s) && ControlInv(s)
    ensures SentOk(c, OnWrite(s, frame))
  {
    hide TakenFrom, Fits, Proper, ToldOk;
    var t := OnWrite(s, frame);
    if t != s {
      var n := |s.ledger.written| - |s.input|;
      assert t.ledger.written[..n] == s.ledger.written[..n] && t.ledger.written[n..] == t.input;
      assert forall f | f in s.ledger.written :: f in t.ledger.written;
    }
  }

  lemma OnTopSent(c: Settings, s: Session, now: Word)
    requires SentOk(c, s)
    ensures SentOk(c, OnTop(c, s, now))
  {
    hide Act, Check, TimeDiff, Wrap, OutgoingAll, Quiet, SentOk, Max, Min;
    var t := KcpOutput(s);
    SilentKeeps(c, s, t);
    FlagsSent(c, t);
    ActSilent(t, DoUpdate(now));
    SilentKeeps(c, t, Act(t, DoUpdate(now)));
    var u := Top(c, s, now).0;
    SilentKeeps(c, u, OnTop(c, s, now));
  }

  lemma StepSent(c: Settings, s: Session, ev: SEvent)
    requires SentOk(c, s) && ControlInv(s)
    ensures SentOk(c, Step(c, s, ev))
  {
    hide OnInput, OnOutput, OnTop, OnWrite, KcpInput, AfterPackets, Full, SentOk, ControlInv;
    match ev
    case FromApp(now) =>
      if s.hs != Disconnected && !s.inputClosed {
        OnInputSent(c, s, now);
      }
    case ToApp(room) =>
      if s.hs != Disconnected && s.frame.Some? {
        OnOutputSent(c, s, room);
      }
    case FromNet(p, now) => KcpInputSent(c, s, p, now);
    case NetDone(space, now) => AfterPacketsSent(c, s, space, now);
    case LoopTop(now) => OnTopSent(c, s, now);
    case Write(frame) => OnWriteSent(c, s, frame);
    case Close => SilentKeeps(c, s, s.(open := false));
  }

  /** The first lines of `run`, the same on both sides. */
  lemma StartSilent(c: Settings, e: Endpoint, now: Word) returns (t: Session)
    ensures var a := Act(New(e).(hsEnd := Wrap(now + c.connectTimeout * 1000)), DoNoDelay(1, 100, 0, 0));
            t == a.(lastIo := a.node.e.clock.current)
    ensures Silent(New(e), t) && t.hs == Syn
  {
    hide Act, Wrap;
    var m := New(e).(hsEnd := Wrap(now + c.connectTimeout * 1000));
    var a := Act(m, DoNoDelay(1, 100, 0, 0));
    ActSilent(m, DoNoDelay(1, 100, 0, 0));
    QuietParts(m, a);
    t := a.(lastIo := a.node.e.clock.current);
  }

  lemma BeginSent(c: Settings, e: Endpoint, id: bytes, now: Word)
    requires ConfigInv(e.cfg) && |id| == c.idLen
    ensures SentOk(c, Begin(c, New(e), id, now))
  {
    hide Act, Greet, Wrap, Quiet, SentOk;
    var t := StartSilent(c, e, now);
    NewSent(c, e);
    SilentKeeps(c, New(e), t);
    if t.node.e.cfg.conv == SYN_CONV {
      ClientSent(c, t, id, now);
    }
  }

  lemma NewSent(c: Settings, e: Endpoint)
    requires ConfigInv(e.cfg)
    ensures SentOk(c, New(e))
  {
    hide HandedOk, Proper, ConfigInv, Farewell, SameShape, Fits, TakenFrom;
    var s := New(e);
    HandedNothing(e.cfg, s.ledger);
    NoFarewell(c, s);
    NothingSent(s);
  }

  lemma NothingSent(s: Session)
    requires s.ledger == Ledger([], [], [], [], []) && s.node.sent == []
    ensures s.node.sent == s.ledger.greeting + s.ledger.handed + s.ledger.farewell
  {
  }

  lemma NoFarewell(c: Settings, s: Session)
    requires s.finAt.None?
    ensures Farewell(c, s)
  {
  }

  lemma ClientSent(c: Settings, t: Session, id: bytes, now: Word)
    requires ConfigInv(t.node.e.cfg) && t.node.sent == [] && t.input == [] && t.told == [] && t.hs == Syn
    requires t.ledger.(fates := []) == Ledger([], [], [], [], []) && |id| == c.idLen && t.finAt.None?
    ensures SentOk(c, Greet(c, Act(t.(client := true, id := id), DoSetConv(SYN_CONV)), now))
  {
    hide Act, Greet, Quiet, Proper, HandedOk;
    var u := t.(client := true, id := id);
    var v := Act(u, DoSetConv(SYN_CONV));
    ActSilent(u, DoSetConv(SYN_CONV));
    QuietParts(u, v);
    GreetSent(c, v, now, Syn);
    GreetHs(c, v, now);
    assert Greet(c, v, now).(hs := Syn) == Greet(c, v, now);
  }

  lemma GreetHs(c: Settings, s: Session, now: Word)
    ensures Greet(c, s, now).hs == s.hs
  {
    hide Greet;
    QuietParts(s, Greet(c, s, now));
  }

  /** In every state of every run KCP was given the greeting, the frames taken, and the FIN, in this order. */
  lemma {:induction false} RunSent(c: Settings, e: Endpoint, id: bytes, now: Word, evs: seq<SEvent>)
    requires ConfigInv(e.cfg) && |id| == c.idLen
    ensures SentOk(c, RunSession(c, e, id, now, evs))
  {
    hide Step, Begin, SentOk, ControlInv, ConfigInv;
    if evs == [] {
      BeginSent(c, e, id, now);
    } else {
      var init := evs[..|evs| - 1];
      RunSent(c, e, id, now, init);
      RunControl(c, e, id, now, init, |init|);
      StepSent(c, RunSession(c, e, id, now, init), evs[|evs| - 1]);
    }
  }
}
