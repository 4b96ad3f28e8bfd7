/**
  Runs that lose a frame, turn by turn as the loop goes. In one the frame waits when the peer's FIN
  arrives; in the next it is still in KCP when a RESET arrives, and is read only after that; in the
  last it is taken for the FIN's own frame.
*/
module LosingRun {
  import opened Serial
  import opened WireFormat
  import opened Endpoints
  import opened Network
  import opened Marking
  import opened Sessions
  import opened SessionSafety
  import opened Frames

  /* ---------------------------------------------------------------- packets of one segment */

  function OnePacket(w: Wire): bytes {
    EncodePacket([w])
  }

  predicate Plain(w: Wire) {
    WellFormed(w) && InRange(Bits32, w) && w.conv < TWO32
  }

  lemma OnePacketHead(w: Wire)
    requires Plain(w)
    ensures var p := OnePacket(w); |p| >= OVERHEAD && Word32(p) == w.conv && p[4] == w.cmd
  {
    hide EncodeHead, Word32;
    assert EncodePacket([w]) == EncodeHead(w) + w.data by {
      assert EncodePacket([w][1..]) == [];
      assert (EncodeHead(w) + w.data) + [] == EncodeHead(w) + w.data;
    }
    HeadRoundTrip(w, w.data);
    var d := DecodeHead(OnePacket(w));
    assert d.(data := w.data).conv == w.conv && d.(data := w.data).cmd == w.cmd;
  }

  /** Under its own conv a packet is its segment; under another it is nothing. */
  lemma OnePacketInput(e: Endpoint, w: Wire)
    requires Plain(w)
    ensures InputCode(e.cfg.conv, OnePacket(w)) == if w.conv == e.cfg.conv then 0 else -1
    ensures Endpoints.Input(e, OnePacket(w)) ==
            if w.conv == e.cfg.conv then InputParsed(Bits32, e, Parsed([w], 0)) else e
  {
    hide EncodePacket, FinishInput;
    OnePacketHead(w);
    ParseEncoded(e.cfg.conv, [w]);
    assert OnWireAll(Bits32, [w]) == [w];
    assert Accept(e.cfg.conv, [w][1..]) == Parsed([], 0);
    assert [w] + [] == [w];
  }

  /* ---------------------------------------------------------------- the states of the run */

  /** The server's control block: n segments sent, the last one unacknowledged if busy; k received, q unread. */
  predicate Block(e: Endpoint, n: nat, busy: bool, k: nat, q: seq<Wire>) {
    && !e.cfg.stream && e.cfg.mss == 1376 && e.cfg.sndWnd == 32 && e.cfg.rcvWnd == 256
    && e.rmtWnd >= 1 && e.clock == Clock(0, 100, true) && !e.dead
    && e.cfg.interval == 100 && e.cfg.deadLink == DEADLINK && e.rtt.rto == RTO_DEF
    && n < 10 && k < 10 && (busy ==> n > 0)
    && e.snd.nxt == n && e.snd.queue == [] && e.snd.una == (if busy then n - 1 else n)
    && |e.snd.buf| == (if busy then 1 else 0)
    && (busy ==> e.snd.buf[0].w.sn == n - 1 && 0 < e.snd.buf[0].resendts < 1000)
    && e.rcv.nxt == k && e.rcv.queue == q && e.rcv.buf == []
  }

  lemma SmallDiff(a: nat, b: nat)
    requires a < 1000 && b < 1000
    ensures TimeDiff(a, b) == a - b && Wrap(a) == a
  {
    SignedUnique(a - b, 0, a - b);
  }

  /** A data segment that is next, acknowledging everything. */
  lemma PushIn(e: Endpoint, n: nat, busy: bool, k: nat, w: Wire)
    requires Block(e, n, busy, k, []) && k < 9
    requires Plain(w) && w.cmd == CMD_PUSH && w.wnd == 128 && w.sn == k && w.una == n
    ensures Block(InputParsed(Bits32, e, Parsed([w], 0)), n, false, k + 1, [w])
    ensures InputParsed(Bits32, e, Parsed([w], 0)).cfg == e.cfg
  {
    hide Grow, TimeDiff, Wrap, EncodePacket;
    SmallDiff(n, n);
    SmallDiff(k, k);
    SmallDiff(k + 1, k + 1);
    SmallDiff(k + 256, k);
    SmallDiff(k, k + 256);
    if busy {
      SmallDiff(n, n - 1);
    }
    UnaIn(e.snd, n);
    assert InputSegments(Bits32, e, [w]) == InputSegment(Bits32, e, w) by {
      assert [w][1..] == [];
    }
    assert Insert(Bits32, [], w) == [w];
    var r := e.rcv.(acks := e.rcv.acks + [Ack(w.sn, w.ts)], buf := [w]);
    DrainOnly(256, r, w);
  }

  lemma UnaIn(s: Snd, n: nat)
    requires n < 1000 && s.nxt == n && |s.buf| <= 1 && forall x | x in s.buf :: x.w.sn + 1 == n
    ensures InputUna(Bits32, s, n) == s.(una := n, buf := [])
  {
    hide TimeDiff;
    assert ParseUna(Bits32, [], n) == [];
    if s.buf != [] {
      SmallDiff(n, s.buf[0].w.sn);
      assert s.buf[0] in s.buf;
      assert s.buf[1..] == [];
    }
  }

  lemma DrainOnly(wnd: nat, r: Rcv, w: Wire)
    requires r.buf == [w] && r.queue == [] && w.sn == r.nxt < 1000 && wnd > 0
    ensures Drain(Bits32, wnd, r) == r.(nxt := r.nxt + 1, queue := [w], buf := [])
  {
    assert [w][1..] == [] && [] + [w] == [w];
  }

  /** An update before its time leaves everything as it is. */
  lemma UpdateIdle(e: Endpoint)
    requires e.clock == Clock(0, 100, true)
    ensures Endpoints.Update(Bits32, e, 0) == Flushed(e, [])
  {
    assert TimeDiff(0, 100) == -100;
  }

  /** A flush with an idle window: the one queued segment gets its number, or nothing happens. */
  lemma FlushOut(e: Endpoint, n: nat, k: nat, q: seq<Wire>, f: seq<Frag>)
    requires Block(e.(snd := e.snd.(queue := [])), n, false, k, q)
    requires n < 9 && e.snd.queue == f && |f| <= 1 && e.cfg.nocwnd
    ensures var r := Endpoints.Flush(Bits32, e).e; Block(r, n + |f|, f != [], k, q) && r.cfg == e.cfg
  {
    hide TimeDiff, Wrap, Tick, Backed, ProbeTick, CountDue, DueSegments, AckSegments, ProbeSegments, Exhausted,
         WndUnused;
    var window := Window(e);
    assert 1 <= window <= 32;
    SmallDiff(n, n + window);
    SmallDiff(n + window, 0);
    SmallDiff(n + 1, n + window);
    var s1 := Promote(Bits32, e, e.snd, window);
    PromoteOut(e, n, window);
    if f != [] {
      TickFirst(e, s1.buf[0]);
      FirstIsNotLast(e, s1.buf);
    } else {
      assert !Exhausted(e, s1.buf) by {
        NoneIsNotLast(e);
      }
    }
  }

  lemma FirstIsNotLast(e: Endpoint, buf: seq<SndSeg>)
    requires |buf| == 1 && buf[0].xmit == 0 && e.cfg.deadLink == DEADLINK
    ensures !Exhausted(e, buf)
  {
    hide Wrap;
  }

  lemma NoneIsNotLast(e: Endpoint)
    ensures !Exhausted(e, [])
  {
  }

  lemma PromoteOut(e: Endpoint, n: nat, window: nat)
    requires n < 100 && 1 <= window <= 100 && e.snd.una == e.snd.nxt == n && e.snd.buf == [] && |e.snd.queue| <= 1
    ensures var r := Promote(Bits32, e, e.snd, window);
            if e.snd.queue == [] then r == e.snd
            else
              && r.nxt == n + 1 && r.una == n && r.queue == []
              && |r.buf| == 1 && r.buf[0].w.sn == n && r.buf[0].xmit == 0
  {
    hide TimeDiff, Wrap, WndUnused;
    SmallDiff(n, n + window);
    SmallDiff(n + window, 0);
    SmallDiff(n + 1, 0);
    if e.snd.queue != [] {
      var s1 := e.snd.(nxt := n + 1, queue := e.snd.queue[1..], buf := e.snd.buf + [Numbered(e, n, e.snd.queue[0])]);
      assert s1.queue == [];
      assert Promote(Bits32, e, s1, window) == s1;
    }
  }

  lemma TickFirst(e: Endpoint, s: SndSeg)
    requires s.xmit == 0 && e.clock.current == 0 && e.rtt.rto == RTO_DEF
    ensures Tick(e, s).w.sn == s.w.sn && 0 < Tick(e, s).resendts < 1000
  {
  }

  lemma ActBlock(s: Session, act: Action)
    requires !act.Deliver?
    ensures Act(s, act).node.e == Local(Bits32, s.node.e, act).e && Act(s, act).flush == s.flush
    ensures Act(s, act).lastIo == s.lastIo
  {
    hide Local, Packets;
  }

  lemma FlushSession(s: Session, n: nat, k: nat, q: seq<Wire>, f: seq<Frag>)
    requires var e := s.node.e;
             && Block(e.(snd := e.snd.(queue := [])), n, false, k, q) && n < 9
             && e.snd.queue == f && |f| <= 1 && e.cfg.nocwnd
    requires s.flush || f == []
    ensures var t := KcpFlush(s, 0); Block(t.node.e, n + |f|, f != [], k, q) && t.node.e.cfg == s.node.e.cfg && !t.flush
    ensures s.lastIo == 0 ==> KcpFlush(s, 0).lastIo == 0
  {
    hide Act, Endpoints.Flush, Endpoints.Update, Block;
    var s1 := s.(flush := false);
    ActBlock(s1, DoUpdate(0));
    ClockOf(s.node.e, n, k, q, f);
    UpdateIdle(s.node.e);
    ActBlock(Act(s1, DoUpdate(0)), DoFlush);
    FlushOut(s.node.e, n, k, q, f);
    ClockNow(Endpoints.Flush(Bits32, s.node.e).e, n + |f|, f != [], k, q);
    if f == [] {
      assert s.node.e.(snd := s.node.e.snd.(queue := [])) == s.node.e;
    }
  }

  lemma ClockOf(e: Endpoint, n: nat, k: nat, q: seq<Wire>, f: seq<Frag>)
    requires Block(e.(snd := e.snd.(queue := [])), n, false, k, q)
    ensures e.clock == Clock(0, 100, true)
  {
  }

  lemma ClockNow(e: Endpoint, n: nat, busy: bool, k: nat, q: seq<Wire>)
    requires Block(e, n, busy, k, q)
    ensures e.clock.current == 0
  {
  }

  /** A handshake frame of one byte goes out at once. */
  lemma HandshakeOut(c: Settings, s: Session, n: nat, k: nat, q: seq<Wire>)
    requires Block(s.node.e, n, false, k, q) && n < 9 && s.node.e.cfg.nocwnd && c.key == [] && s.id == [7]
    ensures var t := HandshakeSend(c, s, 0);
            Block(t.node.e, n + 1, true, k, q) && t.node.e.cfg == s.node.e.cfg && !t.flush
            && (s.lastIo == 0 ==> t.lastIo == 0)
  {
    hide Act, KcpFlush;
    assert c.key + s.id == [7];
    var s1 := s.(flush := true);
    ActBlock(s1, DoSend([7]));
    SendOne(s.node.e);
    var s2 := KcpSend(s1, [7]).0;
    assert s2.node.e == s.node.e.(snd := s.node.e.snd.(queue := [Frag(0, [7])]));
    assert s2.node.e.(snd := s2.node.e.snd.(queue := [])) == s.node.e;
    FlushSession(s2, n, k, q, [Frag(0, [7])]);
  }

  lemma SendOne(e: Endpoint)
    requires !e.cfg.stream && e.cfg.mss == 1376 && e.snd.queue == []
    ensures Send(e.cfg, e.snd.queue, [7]).queue == [Frag(0, [7])]
    ensures Local(Bits32, e, DoSend([7])).e == e.(snd := e.snd.(queue := [Frag(0, [7])]))
  {
    assert [7][0..] == [7] && [7][..1] == [7];
    assert Fragments(1376, false, [7], 1) == [Frag(0, [7])];
  }

  lemma RecvOne(e: Endpoint, w: Wire)
    requires e.rcv.queue == [w] && e.rcv.buf == [] && w.frg == 0 && e.cfg.rcvWnd == 256
    ensures PeekSize(e.rcv.queue) == |w.data|
    ensures var r := Recv(Bits32, e, |w.data|);
            r.code == |w.data| && r.data == w.data && r.e == e.(rcv := e.rcv.(queue := []))
  {
    assert MessageSpan([w]) == 1 && [w][..1] == [w] && [w][1..] == [];
    assert Payload([]) == [] && Payload([w]) == w.data + Payload([w][1..]);
    assert w.data + [] == w.data;
  }

  /** Reading a queue of one whole message. */
  lemma ReadOne(s: Session, fate: Fate, n: nat, busy: bool, k: nat, w: Wire)
    requires Block(s.node.e, n, busy, k, [w]) && w.frg == 0 && w.data != [] && !s.finRecved
    ensures var (t, x) := KcpRecv(s, fate);
            && x == Some(w.data) && Block(t.node.e, n, busy, k, []) && t.node.e.cfg == s.node.e.cfg
            && t.flush == s.flush && t.lastIo == s.lastIo
  {
    hide Act, Recv, PeekSize;
    RecvOne(s.node.e, w);
    ActBlock(s, DoRecv(|w.data|));
  }

  lemma ReadNone(s: Session, fate: Fate, n: nat, busy: bool, k: nat)
    requires Block(s.node.e, n, busy, k, [])
    ensures KcpRecv(s, fate) == (s, None)
  {
  }

  /* ---------------------------------------------------------------- the run */

  const SERVER := Settings([], 1, 15, 10, 90, false, 100, 0, true)

  /** A control block of the server's conv as `initialize` leaves it. */
  function Fresh(): Endpoint {
    Created(1).(cong := Cong(1, MTU_DEF - OVERHEAD, THRESH_INIT), clock := Clock(0, INTERVAL, true))
  }

  lemma FreshIsInitialized()
    ensures Endpoints.Update(Bits32, Created(1), 0).e == Fresh()
  {
    hide DueSegments, TickAll;
    var e := Created(1).(clock := Clock(0, INTERVAL, true));
    assert TimeDiff(0, 0) == 0 && TimeDiff(0, INTERVAL) == -100 && Wrap(INTERVAL) == 100 && Wrap(1376) == 1376;
    assert Advance(Created(1).clock, INTERVAL, 0) == (Clock(0, INTERVAL, true), true);
    assert Promote(Bits32, e, e.snd, Window(e)) == e.snd;
    assert TickAll(e, []) == [];
    assert CountDue(e, [], Timeout) == 0 && CountDue(e, [], Fast) == 0;
  }

  /** The peer's SYN; its data, with our SYN acknowledged; an acknowledgement of our FIN; its FIN; a RESET. */
  const SYN := Wire(SYN_CONV, CMD_PUSH, 0, 128, 0, 0, 0, [7])
  const DATA := Wire(1, CMD_PUSH, 0, 128, 0, 1, 1, [9])
  const ANSWER := Wire(1, CMD_WINS, 0, 128, 0, 0, 2, [])
  const FIN := Wire(1, CMD_PUSH, 0, 128, 0, 2, 2, [7])
  const RESET := Wire(1, CMD_ACK + KCP_RESET, 0, 256, 0, 1, 2, [])

  /** A RESET as `write_ack_head` lays it out, four bytes longer than a segment header. */
  function ResetPacket(): bytes {
    EncodeHead(RESET) + [0, 0, 0, 0]
  }

  /** What is the same in both: the SYN handshake. */
  function Greeting(): seq<SEvent> {
    [LoopTop(0), FromNet(OnePacket(SYN), 0), NetDone(true, 0)]
  }

  function LosingEvents(): seq<SEvent> {
    Greeting()
    + [Close, LoopTop(0), FromApp(0),
       LoopTop(0), FromNet(OnePacket(DATA), 0), NetDone(true, 0),
       LoopTop(0), FromNet(OnePacket(ANSWER), 0), NetDone(true, 0),
       LoopTop(0), FromNet(Mark(OnePacket(FIN)), 0), NetDone(true, 0),
       LoopTop(0)]
  }

  function ResetEvents(): seq<SEvent> {
    Greeting()
    + [LoopTop(0), FromNet(OnePacket(DATA), 0), FromNet(ResetPacket(), 0), NetDone(true, 0),
       LoopTop(0)]
  }

  /* ---------------------------------------------------------------- the shape of the loop */

  function After(evs: seq<SEvent>, n: nat): Session
    requires n <= |evs|
  {
    RunSession(SERVER, Fresh(), [], 0, evs[..n])
  }

  /** Event `i` follows directly on a loop top that went on to wait. */
  predicate Woken(evs: seq<SEvent>, i: nat)
    requires i < |evs|
  {
    i > 0 && evs[i - 1].LoopTop? && Top(SERVER, After(evs, i - 1), evs[i - 1].now).1.Wait?
  }

  /** One turn after the other: the loop top, and if it waits one branch, which for packets is a whole batch. */
  ghost predicate Turns(evs: seq<SEvent>) {
    forall i | 0 <= i < |evs| ::
      match evs[i]
      case LoopTop(_) => i > 0 ==> !evs[i - 1].FromNet?
      case FromNet(_, _) => Woken(evs, i) || (i > 0 && evs[i - 1].FromNet?)
      case NetDone(_, _) => i > 0 && evs[i - 1].FromNet?
      case FromApp(_) => Woken(evs, i)
      case ToApp(_) => Woken(evs, i)
      case _ => true
  }

  /** A server session with nothing wrong about it. */
  predicate At(s: Session, hs: Handshake, n: nat, busy: bool, k: nat, q: seq<Wire>) {
    && Block(s.node.e, n, busy, k, q) && s.node.e.cfg.conv == 1
    && s.hs == hs && !s.client && !s.over && !s.finRecved && s.input == []
    && s.lastIo == 0 && 0 < s.hsEnd < TWO31
  }

  lemma Checks(e: Endpoint, n: nat, busy: bool, k: nat, q: seq<Wire>)
    requires Block(e, n, busy, k, q)
    ensures 0 < Endpoints.Check(e, 0) <= 100
  {
    assert TimeDiff(0, 100) == -100 && TimeDiff(100, 0) == 100;
    assert SoonestResend([], 0, 0x7fff_ffff) == 0x7fff_ffff;
    if busy {
      SmallDiff(e.snd.buf[0].resendts, 0);
      assert e.snd.buf[1..] == [];
      assert SoonestResend([], 0, e.snd.buf[0].resendts) == e.snd.buf[0].resendts;
    }
  }

  /** The loop top feeds the queued packets to the transport, and waits. */
  lemma Sleeps(s: Session, hs: Handshake, n: nat, busy: bool, k: nat, q: seq<Wire>)
    requires At(s, hs, n, busy, k, q) && hs != Disconnected
    ensures Top(SERVER, s, 0).1.Wait? && Step(SERVER, s, LoopTop(0)) == KcpOutput(s)
    ensures At(KcpOutput(s), hs, n, busy, k, q)
  {
    hide Act, Check, OutgoingAll, Block;
    Checks(s.node.e, n, busy, k, q);
    Alive(s.node.e, n, busy, k, q);
    assert TimeDiff(0, 0) == 0 && Wrap(90000) == 90000;
    var at := Endpoints.Check(s.node.e, 0);
    SmallDiff(at, 0);
    Positive(s.hsEnd);
    assert KcpOutput(s).(over := false) == KcpOutput(s);
  }

  lemma Alive(e: Endpoint, n: nat, busy: bool, k: nat, q: seq<Wire>)
    requires Block(e, n, busy, k, q)
    ensures !e.dead && e.clock.current == 0
  {
  }

  lemma Positive(x: Word)
    requires 0 < x < TWO31
    ensures TimeDiff(x, 0) == x
  {
    SignedUnique(x, 0, x);
  }

  lemma NoDelayBlock(s: Session, act: Action, n: nat, busy: bool, k: nat, q: seq<Wire>)
    requires Block(s.node.e, n, busy, k, q) && act.DoNoDelay? && act.interval == 100
    ensures Act(s, act).lastIo == s.lastIo
    ensures var e := Act(s, act).node.e;
            && Block(e, n, busy, k, q) && e.cfg.conv == s.node.e.cfg.conv
            && e.cfg.nocwnd == (if act.nc >= 0 then act.nc != 0 else s.node.e.cfg.nocwnd)
  {
    ActBlock(s, act);
  }

  lemma AfterBegin()
    ensures var s := Begin(SERVER, New(Fresh()), [], 0);
            && At(s, Syn, 0, false, 0, []) && s.told == [] && s.frame == None && s.open && !s.inputClosed && !s.flush
  {
    hide Act, Greet, Wrap;
    var m := New(Fresh()).(hsEnd := Wrap(0 + SERVER.connectTimeout * 1000));
    WrapSmall(15000);
    NoDelayBlock(m, DoNoDelay(1, 100, 0, 0), 0, false, 0, []);
    ActBlock(m, DoNoDelay(1, 100, 0, 0));
  }

  /** The SYN arrives under its own conv. */
  lemma SynArrives(s: Session)
    requires At(s, Syn, 0, false, 0, [])
    ensures var t := KcpInput(SERVER, s, OnePacket(SYN), 0);
            At(t, Syn, 0, false, 1, [SYN]) && Quiet(s, t) && t.flush == s.flush
  {
    hide Act, InputParsed, Endpoints.Input, InputCode, OnePacket, Block, Word32;
    var p := OnePacket(SYN);
    OnePacketHead(SYN);
    OnePacketInput(s.node.e, SYN);
    var t := Hear(s, p);
    var u := Act(t, DoSetConv(SYN_CONV));
    ActBlock(t, DoSetConv(SYN_CONV));
    ConvBlock(t.node.e, SYN_CONV, 0, false, 0, []);
    OnePacketInput(u.node.e, SYN);
    PushIn(u.node.e, 0, false, 0, SYN);
    var v := Hear(u, p);
    ActBlock(v, DoSetConv(1));
    ConvBlock(v.node.e, 1, 0, false, 1, [SYN]);
  }

  lemma ConvBlock(e: Endpoint, conv: Word, n: nat, busy: bool, k: nat, q: seq<Wire>)
    requires Block(e, n, busy, k, q)
    ensures Block(e.(cfg := e.cfg.(conv := conv)), n, busy, k, q)
    ensures Local(Bits32, e, DoSetConv(conv)).e == e.(cfg := e.cfg.(conv := conv))
  {
  }

  /** The server answers the SYN and is connected. */
  lemma SynAnswered(s: Session)
    requires At(s, Syn, 0, false, 1, [SYN]) && s.told == [] && s.frame == None && !s.flush
    ensures var t := AfterPackets(SERVER, s, true, 0);
            && At(t, Connected, 1, true, 1, []) && t.told == [Established(1)] && t.frame == None && !t.flush
            && t.id == [7] && t.node.e.cfg.nocwnd && t.open == s.open && t.inputClosed == s.inputClosed
  {
    hide Act, KcpRecv, HandshakeSend, Put, Block, KcpFlush;
    ReadOne(s, ForHandshake, 0, false, 1, SYN);
    var (r, x) := KcpRecv(s, ForHandshake);
    assert SYN.data[0..] == [7];
    var r1 := r.(id := [7]);
    NoDelayBlock(r1, DoNoDelay(0, 100, 0, 1), 0, false, 1, []);
    var r2 := ApplyNoDelay(SERVER, r1);
    var r3 := r2.(ledger := r2.ledger.(greeting := Put(r2, SERVER.key + r2.id)));
    HandshakeOut(SERVER, r3, 0, 1, []);
    var u := SynHandshakeRecv(SERVER, s, true, 0).0;
    assert u.told == [Established(1)];
    ReadNone(u, ForApplication, 1, true, 1);
    assert u.(frame := None) == u;
    FlushedAlready(u, 0);
  }

  lemma FlushedAlready(s: Session, now: Word)
    requires !s.flush
    ensures KcpFlush(s, now) == s
  {
  }

  /** The application has closed, and the FIN handshake waits for the answer to be acknowledged. */
  lemma AppClosed(s: Session)
    requires At(s, Connected, 1, true, 1, []) && !s.open && !s.flush
    ensures var t := OnInput(SERVER, s, 0);
            && At(t, FinPending, 1, true, 1, []) && t.inputClosed
            && t == s.(inputClosed := true, hs := FinPending, hsEnd := t.hsEnd)
    ensures !Full(s)
  {
    hide FinSend, Wrap;
    var u := s.(inputClosed := true);
    WrapSmall(10000);
    assert DrainInput(SERVER, s) == (s, true);
    assert WaitSnd(u) == 1;
    FinTurn(SERVER, u, 0);
    FinTurn(SERVER, Passed(SERVER, u, 0), 0);
    FlushedAlready(FinTransit(SERVER, u, 0), 0);
  }

  /** A packet under the session's conv. */
  lemma Arrives(s: Session, w: Wire)
    requires Plain(w) && s.node.e.cfg.conv == w.conv
    ensures var t := KcpInput(SERVER, s, OnePacket(w), 0);
            && t.node.e == InputParsed(Bits32, s.node.e, Parsed([w], 0)) && t.flush
            && Quiet(s, t) && t.ledger == s.ledger && t.lastIo == s.lastIo
  {
    hide InputParsed, Endpoints.Input, InputCode, OnePacket;
    OnePacketInput(s.node.e, w);
  }

  lemma DataArrives(s: Session)
    requires At(s, FinPending, 1, true, 1, [])
    ensures var t := KcpInput(SERVER, s, OnePacket(DATA), 0);
            At(t, FinPending, 1, false, 2, [DATA]) && t.flush && Quiet(s, t) && t.node.e.cfg == s.node.e.cfg
  {
    hide InputParsed, KcpInput, OnePacket, Block;
    Arrives(s, DATA);
    PushIn(s.node.e, 1, true, 1, DATA);
  }

  /** The server sends its FIN, and fetches the data. */
  lemma FinGoes(s: Session)
    requires At(s, FinPending, 1, false, 2, [DATA]) && s.inputClosed && s.id == [7]
    requires s.node.e.cfg.nocwnd && s.frame == None
    ensures var t := AfterPackets(SERVER, s, true, 0);
            At(t, FinSent, 2, true, 2, []) && t.frame == Some([9]) && t.told == s.told && !t.flush
            && t.node.e.cfg == s.node.e.cfg
  {
    hide HandshakeSend, Put, KcpRecv, Block, FinTransit, KcpFlush;
    assert WaitSnd(s) == 0 by {
      BlockWaits(s, 1, false, 2, [DATA]);
    }
    var r := Ready(SERVER, s);
    HandshakeOut(SERVER, r, 1, 2, [DATA]);
    var u := FinSend(SERVER, s, 0);
    BlockWaits(u, 2, true, 2, [DATA]);
    FinTurn(SERVER, s, 0);
    FinTurn(SERVER, u, 0);
    assert FinTransit(SERVER, s, 0) == u;
    ReadOne(u, ForApplication, 2, true, 2, DATA);
    var (v, x) := KcpRecv(u, ForApplication);
    FlushedAlready(v.(frame := x), 0);
  }

  lemma BlockWaits(s: Session, n: nat, busy: bool, k: nat, q: seq<Wire>)
    requires Block(s.node.e, n, busy, k, q)
    ensures WaitSnd(s) == (if busy then 1 else 0) && Unread(s) == |q|
  {
  }

  lemma AnswerIn(e: Endpoint, n: nat, k: nat, q: seq<Wire>, w: Wire)
    requires Block(e, n, true, k, q)
    requires Plain(w) && w.cmd == CMD_WINS && w.wnd == 128 && w.una == n
    ensures Block(InputParsed(Bits32, e, Parsed([w], 0)), n, false, k, q)
    ensures InputParsed(Bits32, e, Parsed([w], 0)).cfg == e.cfg
  {
    hide Grow, TimeDiff, Wrap, EncodePacket;
    SmallDiff(n, n - 1);
    UnaIn(e.snd, n);
    assert InputSegments(Bits32, e, [w]) == InputSegment(Bits32, e, w) by {
      assert [w][1..] == [];
    }
  }

  lemma AnswerArrives(s: Session)
    requires At(s, FinSent, 2, true, 2, [])
    ensures var t := KcpInput(SERVER, s, OnePacket(ANSWER), 0);
            At(t, FinSent, 2, false, 2, []) && t.flush && Quiet(s, t) && t.node.e.cfg == s.node.e.cfg
  {
    hide InputParsed, KcpInput, OnePacket, Block;
    Arrives(s, ANSWER);
    AnswerIn(s.node.e, 2, 2, [], ANSWER);
  }

  /** The FIN is acknowledged; the server waits for the peer's. */
  lemma Settles(s: Session)
    requires At(s, FinSent, 2, false, 2, []) && s.frame == Some([9]) && s.flush && s.node.e.cfg.nocwnd
    ensures var t := AfterPackets(SERVER, s, true, 0);
            At(t, FinWaitPeer, 2, false, 2, []) && t.frame == Some([9]) && t.told == s.told
  {
    hide KcpFlush, Block, FinTransit;
    BlockWaits(s, 2, false, 2, []);
    FinTurn(SERVER, s, 0);
    FinTurn(SERVER, s.(hs := FinWaitPeer), 0);
    var u := s.(hs := FinWaitPeer);
    assert FinTransit(SERVER, s, 0) == u;
    QueueEmptied(u.node.e, 2, 2);
    FlushSession(u, 2, 2, [], []);
  }

  lemma QueueEmptied(e: Endpoint, n: nat, k: nat)
    requires Block(e, n, false, k, [])
    ensures e.(snd := e.snd.(queue := [])) == e && e.snd.queue == []
  {
  }

  /** The peer's FIN ends the session before the application has its frame. */
  lemma FinArrives(s: Session)
    requires At(s, FinWaitPeer, 2, false, 2, []) && s.frame == Some([9])
    ensures var t := KcpInput(SERVER, s, Mark(OnePacket(FIN)), 0);
            t.hs == Disconnected && t.frame == s.frame && t.told == s.told && !t.over
  {
    hide OnePacket, Block, HandshakeSend, Put, KcpRecv, InputParsed;
    OnePacketHead(FIN);
    OnePacketInput(s.node.e, FIN);
    FinMarkTransparent(s.node.e, OnePacket(FIN));
    BlockWaits(s, 2, false, 2, []);
    FinEnds(SERVER, s, Mark(OnePacket(FIN)), 0);
  }

  lemma ResetParses(e: Endpoint)
    requires e.cfg.conv == 1
    ensures var p := ResetPacket();
            && InputCode(1, p) == -3 && Endpoints.Input(e, p) == e && |p| > 4 && HasBit(p[4], KCP_RESET)
  {
    hide EncodeHead, FromLe, InputParsed;
    var p := ResetPacket();
    AnyHeadRoundTrip(RESET, [0, 0, 0, 0]);
    var d := DecodeHead(p).(data := []);
    assert d.conv == 1 && d.cmd == 90;
    ResetIsForeign(p);
    ForeignIsIgnored(e, p);
  }

  /** The RESET disconnects, and touches nothing else. */
  lemma ResetArrives(s: Session, q: seq<Wire>)
    requires At(s, Connected, 1, false, 2, q)
    ensures var t := KcpInput(SERVER, s, ResetPacket(), 0);
            && t.hs == Disconnected && t.node.e == s.node.e && t.ledger == s.ledger
            && t.frame == s.frame && t.told == s.told && !t.over && !t.finRecved
  {
    hide Block, ResetPacket, InputCode, Endpoints.Input, HasBit;
    ResetParses(s.node.e);
  }

  /** Data for a connected session, and the peer has our SYN. */
  lemma DataConnects(s: Session)
    requires At(s, Connected, 1, true, 1, [])
    ensures var t := KcpInput(SERVER, s, OnePacket(DATA), 0);
            At(t, Connected, 1, false, 2, [DATA]) && Quiet(s, t)
  {
    hide InputParsed, KcpInput, OnePacket, Block;
    Arrives(s, DATA);
    PushIn(s.node.e, 1, true, 1, DATA);
  }

  /** The end of the batch reads the data of a session that is over already. */
  lemma FetchesLate(s: Session)
    requires s.hs == Disconnected && Block(s.node.e, 1, false, 2, [DATA]) && s.frame == None && !s.finRecved
    ensures var t := AfterPackets(SERVER, s, true, 0);
            t.hs == Disconnected && t.frame == Some([9]) && t.told == s.told && t.over == s.over
  {
    hide Block, KcpRecv, KcpFlush;
    ReadOne(s, ForApplication, 1, false, 2, DATA);
  }

  /** Nothing is fetched where a frame waits. */
  lemma FetchesNothing(s: Session)
    requires s.hs == Disconnected && s.frame.Some?
    ensures var t := AfterPackets(SERVER, s, true, 0);
            t.hs == Disconnected && t.frame == s.frame && t.told == s.told && t.over == s.over
  {
    hide KcpFlush;
  }

  lemma TopEnds(s: Session)
    requires s.hs == Disconnected
    ensures var t := OnTop(SERVER, s, 0); t.over && t.frame == s.frame && t.told == s.told
  {
    hide Act, Check, TimeDiff, Wrap, OutgoingAll;
  }

  /* ---------------------------------------------------------------- step by step */

  lemma AfterNext(evs: seq<SEvent>, n: nat)
    requires n < |evs|
    ensures After(evs, n + 1) == Step(SERVER, After(evs, n), evs[n])
  {
    hide Step, Begin;
    assert evs[..n + 1][..n] == evs[..n];
  }

  lemma AtBegin(evs: seq<SEvent>)
    ensures After(evs, 0) == Begin(SERVER, New(Fresh()), [], 0)
  {
    hide Begin;
    assert evs[..0] == [];
  }

  /** What the steps need to know of a state. */
  lemma AtOpen(s: Session, hs: Handshake, n: nat, busy: bool, k: nat, q: seq<Wire>)
    requires At(s, hs, n, busy, k, q)
    ensures !s.over && s.hs == hs && s.input == [] && !s.finRecved
  {
    hide Block;
  }

  lemma AtShut(s: Session, hs: Handshake, n: nat, busy: bool, k: nat, q: seq<Wire>)
    requires At(s, hs, n, busy, k, q)
    ensures At(s.(open := false), hs, n, busy, k, q)
  {
    hide Block;
  }

  /** A loop top, at event n. */
  lemma Turn(evs: seq<SEvent>, n: nat, hs: Handshake, i: nat, busy: bool, k: nat, q: seq<Wire>)
    requires n < |evs| && evs[n] == LoopTop(0) && At(After(evs, n), hs, i, busy, k, q) && hs != Disconnected
    ensures After(evs, n + 1) == KcpOutput(After(evs, n)) && At(After(evs, n + 1), hs, i, busy, k, q)
    ensures n + 1 < |evs| ==> Woken(evs, n + 1)
  {
    hide After, At, Step, Top, KcpOutput;
    Sleeps(After(evs, n), hs, i, busy, k, q);
    AfterNext(evs, n);
  }

  predicate Greeted(s: Session) {
    && At(s, Connected, 1, true, 1, []) && s.told == [Established(1)] && s.frame == None && !s.flush
    && s.id == [7] && s.node.e.cfg.nocwnd && !s.inputClosed
  }

  lemma HandshakeDone(evs: seq<SEvent>)
    requires |evs| >= 3 && evs[..3] == Greeting()
    ensures Greeted(After(evs, 3)) && Woken(evs, 1)
  {
    hide After, At, KcpInput, AfterPackets, Begin, OnePacket, Woken;
    assert evs[0] == evs[..3][0] && evs[1] == evs[..3][1] && evs[2] == evs[..3][2];
    AfterBegin();
    AtBegin(evs);
    Turn(evs, 0, Syn, 0, false, 0, []);
    AfterNext(evs, 1);
    AtOpen(After(evs, 1), Syn, 0, false, 0, []);
    SynArrives(After(evs, 1));
    AfterNext(evs, 2);
    AtOpen(After(evs, 2), Syn, 0, false, 1, [SYN]);
    SynAnswered(After(evs, 2));
  }

  /* ---------------------------------------------------------------- the run that ends with a FIN */

  predicate Stopped(s: Session) {
    && At(s, FinPending, 1, true, 1, []) && s.told == [Established(1)] && s.frame == None && s.inputClosed
    && s.id == [7] && s.node.e.cfg.nocwnd
  }

  /** The losing state: the FIN is acknowledged, nothing is unread, and a frame waits. */
  predicate Stranded(s: Session) {
    At(s, FinWaitPeer, 2, false, 2, []) && s.told == [Established(1)] && s.frame == Some([9])
  }

  predicate Opened(evs: seq<SEvent>) {
    |evs| == 16 && Stopped(After(evs, 6)) && Woken(evs, 1) && Woken(evs, 5)
  }

  lemma Opening(evs: seq<SEvent>)
    requires evs == LosingEvents()
    ensures Opened(evs)
  {
    hide After, At, KcpInput, AfterPackets, OnInput, Full, OnePacket, Woken;
    assert evs[..3] == Greeting();
    HandshakeDone(evs);
    AfterNext(evs, 3);
    AtOpen(After(evs, 3), Connected, 1, true, 1, []);
    AtShut(After(evs, 3), Connected, 1, true, 1, []);
    Turn(evs, 4, Connected, 1, true, 1, []);
    AfterNext(evs, 5);
    AtOpen(After(evs, 5), Connected, 1, true, 1, []);
    AppClosed(After(evs, 5));
  }

  predicate HalfDone(evs: seq<SEvent>) {
    && |evs| == 16 && At(After(evs, 9), FinSent, 2, true, 2, []) && After(evs, 9).told == [Established(1)]
    && After(evs, 9).frame == Some([9]) && After(evs, 9).node.e.cfg.nocwnd && Woken(evs, 7)
  }

  lemma Middle(evs: seq<SEvent>)
    requires evs == LosingEvents() && Opened(evs)
    ensures HalfDone(evs)
  {
    hide After, At, KcpInput, AfterPackets, OnePacket, Woken;
    Turn(evs, 6, FinPending, 1, true, 1, []);
    AfterNext(evs, 7);
    AtOpen(After(evs, 7), FinPending, 1, true, 1, []);
    DataArrives(After(evs, 7));
    AfterNext(evs, 8);
    AtOpen(After(evs, 8), FinPending, 1, false, 2, [DATA]);
    FinGoes(After(evs, 8));
  }

  predicate NearlyDone(evs: seq<SEvent>) {
    |evs| == 16 && Stranded(After(evs, 12)) && Woken(evs, 10)
  }

  lemma Ending(evs: seq<SEvent>)
    requires evs == LosingEvents() && HalfDone(evs)
    ensures NearlyDone(evs)
  {
    hide After, At, KcpInput, AfterPackets, OnePacket, Woken;
    Turn(evs, 9, FinSent, 2, true, 2, []);
    AfterNext(evs, 10);
    AtOpen(After(evs, 10), FinSent, 2, true, 2, []);
    AnswerArrives(After(evs, 10));
    AfterNext(evs, 11);
    AtOpen(After(evs, 11), FinSent, 2, false, 2, []);
    Settles(After(evs, 11));
  }

  /** The loop has ended, and what KCP handed over for the application was not told. */
  ghost predicate Lost(s: Session) {
    && s.over && s.frame == Some([9]) && s.told == [Established(1)]
    && |s.ledger.fates| == |s.node.got| && ForApp(s.node.got, s.ledger.fates) == [[9]]
  }

  lemma ToldNothing()
    ensures FramesTold([Established(1)]) == []
  {
    assert [Established(1)][..0] == [];
    assert FramesTold([]) == [];
  }

  /** A run that is over with the frame waiting. */
  lemma EndsLost(evs: seq<SEvent>)
    requires var s := After(evs, |evs|); s.over && s.frame == Some([9]) && s.told == [Established(1)]
    ensures Lost(RunSession(SERVER, Fresh(), [], 0, evs))
  {
    hide RunSession, Fresh;
    assert evs[..|evs|] == evs;
    RunReads(SERVER, Fresh(), [], 0, evs);
    LostIf(RunSession(SERVER, Fresh(), [], 0, evs));
  }

  lemma LostIf(s: Session)
    requires ReadsOk(SERVER, s) && s.over && s.frame == Some([9]) && s.told == [Established(1)]
    ensures Lost(s)
  {
    hide ForApp, FramesTold;
    ToldNothing();
  }

  lemma LosingTurns(evs: seq<SEvent>)
    requires evs == LosingEvents() && Opened(evs) && HalfDone(evs) && NearlyDone(evs)
    ensures Turns(evs)
  {
    hide After, At, Woken;
    Turn(evs, 12, FinWaitPeer, 2, false, 2, []);
  }

  lemma Finish(evs: seq<SEvent>)
    requires evs == LosingEvents() && NearlyDone(evs)
    ensures Lost(RunSession(SERVER, Fresh(), [], 0, evs))
  {
    hide After, At, KcpInput, AfterPackets, RunSession, Fresh, Lost, Mark, OnePacket, Woken, OnTop;
    Turn(evs, 12, FinWaitPeer, 2, false, 2, []);
    AfterNext(evs, 13);
    AtOpen(After(evs, 13), FinWaitPeer, 2, false, 2, []);
    FinArrives(After(evs, 13));
    AfterNext(evs, 14);
    FetchesNothing(After(evs, 14));
    AfterNext(evs, 15);
    TopEnds(After(evs, 15));
    EndsLost(evs);
  }

  /**
    The run that loses a frame: from the start of the loop to its end, on packets a peer would send,
    KCP has handed over the peer's frame [9], and the application was told of the connection only.
  */
  lemma FrameLost()
    ensures Endpoints.Update(Bits32, Created(1), 0).e == Fresh()
    ensures Turns(LosingEvents()) && Lost(RunSession(SERVER, Fresh(), [], 0, LosingEvents()))
    ensures NearlyDone(LosingEvents())
  {
    hide RunSession, Fresh, Lost, Turns, Opened, HalfDone, NearlyDone, LosingEvents;
    var evs := LosingEvents();
    FreshIsInitialized();
    Opening(evs);
    Middle(evs);
    Ending(evs);
    LosingTurns(evs);
    Finish(evs);
  }

  /* ---------------------------------------------------------------- the run that ends with a RESET */

  lemma ResetReady()
    ensures var evs := ResetEvents();
            && At(After(evs, 5), Connected, 1, false, 2, [DATA]) && After(evs, 5).told == [Established(1)]
            && After(evs, 5).frame == None && Turns(evs)
  {
    hide After, At, KcpInput, OnePacket, Woken;
    var evs := ResetEvents();
    assert evs[..3] == Greeting();
    HandshakeDone(evs);
    Turn(evs, 3, Connected, 1, true, 1, []);
    AfterNext(evs, 4);
    AtOpen(After(evs, 4), Connected, 1, true, 1, []);
    DataConnects(After(evs, 4));
  }

  /**
    The run that loses a frame though none was waiting when the session disconnected: data and a RESET
    come in one batch, and the frame is read only at its end.
  */
  lemma FrameLostToReset()
    ensures Turns(ResetEvents()) && Lost(RunSession(SERVER, Fresh(), [], 0, ResetEvents()))
    ensures var s, t := After(ResetEvents(), 5), After(ResetEvents(), 6);
            s.hs == Connected && s.frame == None && t.hs == Disconnected
  {
    hide After, At, KcpInput, AfterPackets, RunSession, Fresh, Lost, ResetPacket, OnePacket, Woken, Turns, OnTop;
    var evs := ResetEvents();
    ResetReady();
    AfterNext(evs, 5);
    AtOpen(After(evs, 5), Connected, 1, false, 2, [DATA]);
    ResetArrives(After(evs, 5), [DATA]);
    AtBlock(After(evs, 5), Connected, 1, false, 2, [DATA]);
    AfterNext(evs, 6);
    FetchesLate(After(evs, 6));
    AfterNext(evs, 7);
    TopEnds(After(evs, 7));
    EndsLost(evs);
  }

  lemma AtBlock(s: Session, hs: Handshake, n: nat, busy: bool, k: nat, q: seq<Wire>)
    requires At(s, hs, n, busy, k, q)
    ensures Block(s.node.e, n, busy, k, q)
  {
  }

  /* ---------------------------------------------------------------- the run that swallows data */

  function SwallowEvents(): seq<SEvent> {
    Greeting() + [LoopTop(0), FromNet(OnePacket(DATA), 0), FromNet(Mark(OnePacket(DATA)), 0), NetDone(true, 0)]
  }

  /** A segment that has been received before. */
  lemma AgainIn(e: Endpoint, n: nat, k: nat, q: seq<Wire>, w: Wire)
    requires Block(e, n, false, k, q) && k > 0
    requires Plain(w) && w.cmd == CMD_PUSH && w.wnd == 128 && w.sn == k - 1 && w.una == n
    ensures Block(InputParsed(Bits32, e, Parsed([w], 0)), n, false, k, q)
    ensures InputParsed(Bits32, e, Parsed([w], 0)).cfg == e.cfg
  {
    hide Grow, TimeDiff, Wrap, EncodePacket;
    SmallDiff(n, n);
    SmallDiff(k - 1, k);
    SmallDiff(k - 1, k + 256);
    SmallDiff(k + 256, k);
    UnaIn(e.snd, n);
    assert InputSegments(Bits32, e, [w]) == InputSegment(Bits32, e, w) by {
      assert [w][1..] == [];
    }
  }

  /** The mark counts, whatever the packet holds. */
  lemma MarkedArrives(s: Session)
    requires At(s, Connected, 1, false, 2, [DATA]) && !s.inputClosed
    ensures var t := KcpInput(SERVER, s, Mark(OnePacket(DATA)), 0);
            && t.finRecved && Block(t.node.e, 1, false, 2, [DATA]) && !t.over && t.frame == s.frame
            && t.hs == FinPending && !t.inputClosed
  {
    hide OnePacket, Block, InputParsed, Endpoints.Input, InputCode, HasBit, Mark, Unmark, FinTransit, Passed;
    OnePacketInput(s.node.e, DATA);
    AcceptedIsCommand(s.node.e.cfg.conv, OnePacket(DATA));
    FinMarkTransparent(s.node.e, OnePacket(DATA));
    MarkLength(OnePacket(DATA));
    AgainIn(s.node.e, 1, 2, [DATA], DATA);
    var m := Mark(OnePacket(DATA));
    var t := Hear(s, m);
    assert t.node.e == s.node.e;
    var u := t.(finRecved := true, open := false);
    StopsPending(u);
    var v := FinTransit(SERVER, u, 0);
    assert Hear(v, Unmark(m)).node.e == Endpoints.Input(s.node.e, OnePacket(DATA));
  }

  lemma MarkLength(p: bytes)
    requires |p| > 4
    ensures |Mark(p)| == |p|
  {
  }

  lemma StopsPending(s: Session)
    requires s.hs == Connected && !s.inputClosed
    ensures var t := FinTransit(SERVER, s, 0); t == s.(hs := FinPending, hsEnd := t.hsEnd)
  {
    hide FinTransit, FinSend, Wrap;
    FinTurn(SERVER, s, 0);
    FinTurn(SERVER, Passed(SERVER, s, 0), 0);
  }

  /** The data frame is read as if it were the FIN's. */
  ghost predicate Swallows(s: Session, t: Session) {
    && t.node.got == s.node.got + [DATA.data] && t.ledger.fates == s.ledger.fates + [Fate.Swallowed]
    && t.told == s.told && t.frame == None && s.frame == None && t.node.e.rcv.queue == []
  }

  lemma TakenForFin(s: Session)
    requires s.hs == FinPending && !s.inputClosed && s.finRecved && Block(s.node.e, 1, false, 2, [DATA])
    requires s.frame == None
    ensures Swallows(s, AfterPackets(SERVER, s, true, 0))
  {
    hide Act, KcpFlush, Block, FinSend, PeekSize, Recv;
    FinTurn(SERVER, s, 0);
    QueueOf(s.node.e);
    RecvOne(s.node.e, DATA);
    ActGot(s, 1);
    ActBlock(s, DoRecv(1));
    var t := KcpRecv(s, ForApplication).0;
    KcpFlushNoRead(t.(frame := None), 0);
    KcpFlushQueue(t.(frame := None));
  }

  lemma QueueOf(e: Endpoint)
    requires Block(e, 1, false, 2, [DATA])
    ensures e.rcv.queue == [DATA] && e.rcv.buf == [] && e.cfg.rcvWnd == 256
  {
  }

  lemma KcpFlushQueue(s: Session)
    ensures KcpFlush(s, 0).node.e.rcv.queue == s.node.e.rcv.queue
  {
    hide Act, Endpoints.Flush, Advance;
    ActBlock(s.(flush := false), DoUpdate(0));
    ActBlock(Act(s.(flush := false), DoUpdate(0)), DoFlush);
    FlushQueue(s.node.e);
    FlushQueue(Endpoints.Update(Bits32, s.node.e, 0).e);
    FlushQueue(s.node.e.(clock := Advance(s.node.e.clock, s.node.e.cfg.interval, 0).0));
  }

  lemma FlushQueue(e: Endpoint)
    ensures Endpoints.Flush(Bits32, e).e.rcv.queue == e.rcv.queue
  {
  }

  /**
    The frame swallowed after a FIN need not be the FIN's: the mark on any packet is enough, and the
    last frame in KCP is taken for it unseen.
  */
  lemma DataSwallowed()
    ensures Turns(SwallowEvents())
    ensures Swallows(After(SwallowEvents(), 6), After(SwallowEvents(), 7))
  {
    hide After, At, KcpInput, AfterPackets, Swallows, Mark, OnePacket, Woken;
    var evs := SwallowEvents();
    assert evs[..3] == Greeting();
    HandshakeDone(evs);
    Turn(evs, 3, Connected, 1, true, 1, []);
    AfterNext(evs, 4);
    AtOpen(After(evs, 4), Connected, 1, true, 1, []);
    DataConnects(After(evs, 4));
    AfterNext(evs, 5);
    AtOpen(After(evs, 5), Connected, 1, false, 2, [DATA]);
    MarkedArrives(After(evs, 5));
    AfterNext(evs, 6);
    TakenForFin(After(evs, 6));
  }
}
