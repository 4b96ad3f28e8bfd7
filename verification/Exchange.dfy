/**
  What two endpoints achieve when packets do arrive: a loss-free round trip acknowledges everything it
  carries, and a closed window opens again.
*/
module Exchange {
  import opened Serial
  import opened WireFormat
  import opened Endpoints
  import opened Invariants
  import opened Packetization
  import opened Timers
  import opened Lifetime
  import opened Flushing
  import opened Incoming
  import opened Labels

  /* ---------------------------------------------------------------- packets on the way */

  /** An endpoint that can flush: valid, started, its segments under its own conv. */
  ghost predicate Ready(e: Endpoint) {
    && EndpointInv(Bits32, e) && TimersOk(e) && e.clock.updated && e.cfg.mtu <= 65507
    && Labelled(e.cfg.conv, e.snd.buf)
  }

  /** The datagrams of a flush. */
  function Datagrams(e: Endpoint): seq<bytes> {
    EncodeAll(Packets(e.cfg.mtu, Flush(Bits32, e).segs))
  }

  /** All of them arrive, in order. */
  function InputAll(e: Endpoint, ds: seq<bytes>): Endpoint
    decreases |ds|
  {
    if ds == [] then e else InputAll(Input(e, ds[0]), ds[1..])
  }

  lemma {:induction false} InSome<T>(xs: seq<seq<T>>, x: T) returns (i: nat)
    requires x in Concat(xs)
    ensures i < |xs| && x in xs[i]
  {
    if x in xs[0] {
      i := 0;
    } else {
      var j := InSome(xs[1..], x);
      i := j + 1;
    }
  }

  /** Each datagram is a packet of the flush, and is read back whole. */
  lemma DatagramIs(e: Endpoint, i: nat)
    requires Ready(e) && i < |Datagrams(e)|
    ensures var ps := Packets(e.cfg.mtu, Flush(Bits32, e).segs);
            && |ps| == |Datagrams(e)| && ps[i] != [] && |Datagrams(e)[i]| >= OVERHEAD
            && Parse(e.cfg.conv, Datagrams(e)[i]) == Parsed(OnWireAll(Bits32, ps[i]), 0)
            && forall w | w in ps[i] :: w in Flush(Bits32, e).segs
  {
    hide EndpointInv, Flush, Packets, WellFormed, Parse, EncodePacket, OnWire, Accept;
    var segs := Flush(Bits32, e).segs;
    forall w | w in segs
      ensures WellFormed(w) && Size(w) <= e.cfg.mtu && w.conv == e.cfg.conv
    {
      FlushSegment(e, w);
    }
    PacketsFit(e.cfg.mtu, segs);
    var ps := Packets(e.cfg.mtu, segs);
    assert ps[i] in ps;
    forall w | w in ps[i]
      ensures w in segs
    {
      var j :| 0 <= j < |ps[i]| && ps[i][j] == w;
      InConcat(ps, i, j);
    }
    ParseEncoded(e.cfg.conv, ps[i]);
    AcceptAll(e.cfg.conv, ps[i]);
    FirstSize(ps[i]);
  }

  lemma FirstSize(p: seq<Wire>)
    requires p != []
    ensures |EncodePacket(p)| >= OVERHEAD
  {
  }

  /** Every segment of a flush travels in one of its datagrams. */
  lemma Travels(e: Endpoint, w: Wire) returns (i: nat)
    requires Ready(e) && w in Flush(Bits32, e).segs
    ensures i < |Datagrams(e)| && OnWire(Bits32, w) in Parse(e.cfg.conv, Datagrams(e)[i]).segs
  {
    hide EndpointInv, Flush, Packets, WellFormed, Parse, EncodePacket, OnWire;
    var segs := Flush(Bits32, e).segs;
    forall w | w in segs
      ensures Size(w) <= e.cfg.mtu
    {
      FlushSegment(e, w);
    }
    PacketsFit(e.cfg.mtu, segs);
    var ps := Packets(e.cfg.mtu, segs);
    i := InSome(ps, w);
    DatagramIs(e, i);
    var j :| 0 <= j < |ps[i]| && ps[i][j] == w;
    assert OnWireAll(Bits32, ps[i])[j] == OnWire(Bits32, w);
  }

  /* ---------------------------------------------------------------- the window opens again */

  /** A reader that makes room in a full queue will tell its window. */
  lemma RecvTells(ar: Arith, e: Endpoint, len: int)
    ensures var r := Recv(ar, e, len);
            r.e.probe == e.probe.(tell := e.probe.tell
              || (r.code >= 0 && |e.rcv.queue| >= e.cfg.rcvWnd && |r.e.rcv.queue| < e.cfg.rcvWnd))
  {
    hide Drain, PeekSize, MessageSpan, Payload;
  }

  /** With something to tell, every datagram of the next flush tells the free window. */
  lemma TellReaches(e: Endpoint, x: Endpoint)
    requires Ready(e) && e.probe.tell && x.cfg.conv == e.cfg.conv
    ensures |Datagrams(e)| > 0
    ensures forall i | 0 <= i < |Datagrams(e)| :: Input(x, Datagrams(e)[i]).rmtWnd == Free(e) % 65536
  {
    hide EndpointInv, Flush, Packets, Parse, EncodePacket, Answers, Free;
    FlushAnswers(Bits32, e);
    var w := SomeAnswer(e, Flush(Bits32, e).segs);
    var k := Travels(e, w);
    forall i | 0 <= i < |Datagrams(e)|
      ensures Input(x, Datagrams(e)[i]).rmtWnd == Free(e) % 65536
    {
      DatagramIs(e, i);
      var p := Packets(e.cfg.mtu, Flush(Bits32, e).segs)[i];
      AllStamped(e, p[|p| - 1]);
      InputTells(Bits32, x, Parse(e.cfg.conv, Datagrams(e)[i]));
    }
  }

  lemma SomeAnswer(e: Endpoint, segs: seq<Wire>) returns (w: Wire)
    requires Answers(e, segs) && e.probe.tell
    ensures w in segs && w.cmd == CMD_WINS
  {
    hide AskNow, Bare;
    w := segs[|e.rcv.acks| + Asks(e)];
  }

  /** Everything a flush sends carries the free window. */
  lemma AllStamped(e: Endpoint, w: Wire)
    requires Ready(e) && w in Flush(Bits32, e).segs
    ensures w.wnd == Free(e)
  {
    hide EndpointInv, Flush, Goes, Stamped, Ticked, Launched, AskNow;
    FlushAnswers(Bits32, e);
    if w.cmd == CMD_PUSH {
      FlushSends(Bits32, e);
      FlushSegments(Bits32, e);
      var r := Flush(Bits32, e);
      var i :| 0 <= i < |r.e.snd.buf| && r.e.snd.buf[i].w == w;
      StampOf(e, i);
    }
  }

  lemma StampOf(e: Endpoint, i: nat)
    requires Ready(e) && i < |Flush(Bits32, e).e.snd.buf| && Flush(Bits32, e).e.snd.buf[i].w in Flush(Bits32, e).segs
    ensures Flush(Bits32, e).e.snd.buf[i].w.wnd == Free(e)
  {
    hide EndpointInv, Flush, Goes, Ticked;
    FlushSends(Bits32, e);
    FlushSegments(Bits32, e);
  }

  /** A question about the window reaches the peer, which will answer. */
  lemma AskReaches(x: Endpoint, y: Endpoint) returns (i: nat)
    requires Ready(x) && AskNow(x) && y.cfg.conv == x.cfg.conv
    ensures i < |Datagrams(x)| && Input(y, Datagrams(x)[i]).probe.tell
  {
    hide EndpointInv, Flush, Packets, Parse, EncodePacket, Answers, AskNow;
    FlushAnswers(Bits32, x);
    var w := SomeQuestion(x, Flush(Bits32, x).segs);
    i := Travels(x, w);
    DatagramIs(x, i);
    InputTells(Bits32, y, Parse(x.cfg.conv, Datagrams(x)[i]));
    assert OnWire(Bits32, w).cmd == CMD_WASK;
  }

  lemma SomeQuestion(e: Endpoint, segs: seq<Wire>) returns (w: Wire)
    requires Answers(e, segs) && AskNow(e)
    ensures w in segs && w.cmd == CMD_WASK
  {
    hide AskNow, Bare;
    w := segs[|e.rcv.acks|];
  }

  /** The peer, after a datagram, tells its window, and any datagram of its next flush sets it at `x`. */
  ghost predicate Reopens(x: Endpoint, y: Endpoint) {
    && y.probe.tell && |Datagrams(y)| > 0
    && forall j | 0 <= j < |Datagrams(y)| :: Input(x, Datagrams(y)[j]).rmtWnd == Free(y) % 65536
  }

  /**
    Probing a closed window: when the remote window is 0 and the time to ask has come, the next flush
    asks; the datagram that asks makes the peer answer; and any datagram of that answer sets the
    window to what is free there.
  */
  lemma ClosedWindowReopens(x: Endpoint, y: Endpoint) returns (i: nat)
    requires Ready(x) && Ready(y) && x.cfg.conv == y.cfg.conv && AskNow(x)
    ensures i < |Datagrams(x)| && Reopens(Flush(Bits32, x).e, Input(y, Datagrams(x)[i]))
  {
    hide EndpointInv, Flush, Parse, EncodePacket, AskNow, Free, Input, Datagrams, Ready;
    i := AskReaches(x, y);
    StaysReady(y, Datagrams(x)[i]);
    FlushConv(x);
    TellReaches(Input(y, Datagrams(x)[i]), Flush(Bits32, x).e);
  }

  lemma FlushConv(e: Endpoint)
    ensures Flush(Bits32, e).e.cfg == e.cfg && Flush(Bits32, e).e.clock == e.clock
  {
  }

  lemma StaysReady(e: Endpoint, d: bytes)
    requires Ready(e)
    ensures Ready(Input(e, d)) && Input(e, d).cfg == e.cfg
  {
    hide EndpointInv, TimersOk, Parse, InputParsed;
    InputBytesKeeps(e, d);
    InputLabels(e, d, e.cfg.conv);
    if |d| >= OVERHEAD {
      InputTimers(Bits32, e, Parse(e.cfg.conv, d));
      InputTells(Bits32, e, Parse(e.cfg.conv, d));
    }
  }

  /* ---------------------------------------------------------------- a round trip */

  lemma {:induction false} StayReady(e: Endpoint, ds: seq<bytes>)
    requires Ready(e)
    ensures Ready(InputAll(e, ds)) && InputAll(e, ds).cfg == e.cfg
    decreases |ds|
  {
    hide Ready, Input;
    if ds != [] {
      StaysReady(e, ds[0]);
      StayReady(Input(e, ds[0]), ds[1..]);
    }
  }

  /** The segments of an input, and what becomes of the receiver, counted from an earlier state of it. */
  lemma OneReceived(base: Rcv, e: Endpoint, before: seq<Wire>, d: bytes)
    requires Ready(e) && Since(Bits32, base, e.rcv, e.cfg.rcvWnd)
    requires Received(Bits32, e.cfg.rcvWnd, base, before, e.rcv)
    ensures var r := Input(e, d);
            && Since(Bits32, base, r.rcv, e.cfg.rcvWnd)
            && Received(Bits32, e.cfg.rcvWnd, base, before + Parse(e.cfg.conv, d).segs, r.rcv)
  {
    hide EndpointInv, TimersOk, Parse, Since, Received, InputSegments, FoldMaxAck, ParseFastack, Grow;
    var ws := Parse(e.cfg.conv, d).segs;
    if |d| >= OVERHEAD {
      SegmentsReceive(Bits32, base, e, before, ws);
    } else {
      Short(e.cfg.conv, d);
      assert before + [] == before;
    }
  }

  lemma Short(conv: Word, d: bytes)
    requires |d| < OVERHEAD
    ensures Parse(conv, d).segs == []
  {
  }

  lemma {:induction false} AllReceived(base: Rcv, e: Endpoint, before: seq<Wire>, ds: seq<bytes>)
    requires Ready(e) && Since(Bits32, base, e.rcv, e.cfg.rcvWnd)
    requires Received(Bits32, e.cfg.rcvWnd, base, before, e.rcv)
    ensures Received(Bits32, e.cfg.rcvWnd, base, before + ParseAll(e.cfg.conv, ds), InputAll(e, ds).rcv)
    decreases |ds|
  {
    hide Ready, Input, Since, Received, Parse;
    if ds == [] {
      assert before + [] == before;
    } else {
      var ws := Parse(e.cfg.conv, ds[0]).segs;
      OneReceived(base, e, before, ds[0]);
      StaysReady(e, ds[0]);
      AllReceived(base, Input(e, ds[0]), before + ws, ds[1..]);
      assert (before + ws) + ParseAll(e.cfg.conv, ds[1..]) == before + ParseAll(e.cfg.conv, ds);
    }
  }

  /** One input settles what it acknowledges, and unsettles nothing. */
  lemma OneSettles(e: Endpoint, d: bytes)
    requires Ready(e)
    ensures forall w | w in Parse(e.cfg.conv, d).segs && w.cmd == CMD_ACK :: Settled(Input(e, d).snd, w.sn)
    ensures forall sn | Settled(e.snd, sn) :: Settled(Input(e, d).snd, sn)
  {
    hide EndpointInv, TimersOk, Parse, InputParsed, AcksFlying, SkippedFrom, StillThere;
    if |d| >= OVERHEAD {
      InputAcknowledges(Bits32, e, Parse(e.cfg.conv, d));
    } else {
      Short(e.cfg.conv, d);
    }
  }

  lemma {:induction false} AllSettle(e: Endpoint, ds: seq<bytes>)
    requires Ready(e)
    ensures forall w | w in ParseAll(e.cfg.conv, ds) && w.cmd == CMD_ACK :: Settled(InputAll(e, ds).snd, w.sn)
    ensures forall sn | Settled(e.snd, sn) :: Settled(InputAll(e, ds).snd, sn)
    decreases |ds|
  {
    hide Ready, Input, Parse, Settled;
    if ds != [] {
      OneSettles(e, ds[0]);
      StaysReady(e, ds[0]);
      AllSettle(Input(e, ds[0]), ds[1..]);
    }
  }

  /** What the datagrams of a flush hold. */
  lemma DatagramsHold(e: Endpoint)
    requires Ready(e)
    ensures ParseAll(e.cfg.conv, Datagrams(e)) == OnWireAll(Bits32, Flush(Bits32, e).segs)
  {
    hide EndpointInv, Flush, Packets, WellFormed;
    var segs := Flush(Bits32, e).segs;
    forall w | w in segs
      ensures WellFormed(w) && Size(w) <= e.cfg.mtu && w.conv == e.cfg.conv
    {
      FlushSegment(e, w);
    }
    PacketRoundTrip(e.cfg.conv, e.cfg.mtu, segs);
  }

  lemma StaysReadyFlush(e: Endpoint)
    requires Ready(e)
    ensures Ready(Flush(Bits32, e).e) && Flush(Bits32, e).e.cfg == e.cfg
  {
    hide EndpointInv, TimersOk, Flush;
    FlushKeeps(Bits32, e);
    FlushTimers(Bits32, e);
    FlushLabels(e);
    FlushConv(e);
  }

  /** One side flushes and all of it arrives; then the other side does. */
  function There(x: Endpoint, y: Endpoint): Endpoint {
    InputAll(y, Datagrams(x))
  }

  function Back(x: Endpoint, y: Endpoint): Endpoint {
    InputAll(Flush(Bits32, x).e, Datagrams(There(x, y)))
  }

  /** Within the receive window, or received before, not half the number circle ago. */
  predicate Expected(y: Endpoint, sn: int) {
    2 * y.cfg.rcvWnd - TWO31 <= TimeDiff(sn, y.rcv.nxt) < y.cfg.rcvWnd
  }

  lemma GetsThere(x: Endpoint, y: Endpoint, w: Wire)
    requires Ready(x) && Ready(y) && x.cfg.conv == y.cfg.conv
    requires w in Flush(Bits32, x).segs && w.cmd == CMD_PUSH && w.sn < TWO32 && Expected(y, w.sn)
    ensures TimeDiff(w.sn, y.rcv.nxt) >= 0 ==> Has(There(x, y).rcv, w.sn)
    ensures Ack(w.sn, w.ts) in There(x, y).rcv.acks
  {
    hide Ready, EndpointInv, Flush, Datagrams, InputAll, TimeDiff, Since, Has, In, Received, ParseAll, OnWireAll,
         OnWire;
    OnWireSame(w);
    DatagramsHold(x);
    SinceStart(y);
    ReceivedSelf(Bits32, y.cfg.rcvWnd, y.rcv);
    AllReceived(y.rcv, y, [], Datagrams(x));
    var all := ParseAll(x.cfg.conv, Datagrams(x));
    assert [] + all == all;
    OnWireIn(Flush(Bits32, x).segs, w);
    ReceivedOne(y.cfg.rcvWnd, y.rcv, all, There(x, y).rcv, OnWire(Bits32, w));
  }

  lemma OnWireSame(w: Wire)
    requires w.cmd == CMD_PUSH && w.sn < TWO32
    ensures var v := OnWire(Bits32, w); v.cmd == CMD_PUSH && v.sn == w.sn && v.ts == w.ts
  {
  }

  lemma ReceivedOne(wnd: nat, r: Rcv, ws: seq<Wire>, r': Rcv, w: Wire)
    requires Received(Bits32, wnd, r, ws, r') && w in ws && w.cmd == CMD_PUSH
    requires 2 * wnd - TWO31 <= TimeDiff(w.sn, r.nxt) < wnd
    ensures Ack(w.sn, w.ts) in r'.acks && (TimeDiff(w.sn, r.nxt) >= 0 ==> Has(r', w.sn))
  {
    hide Has, In, TimeDiff;
  }

  /**
    Progress: in one round trip without loss, every data segment that goes out and is expected there
    gets there, and is acknowledged; it no longer waits in `snd_buf`.
  */
  lemma RoundTripSettles(x: Endpoint, y: Endpoint, w: Wire)
    requires Ready(x) && Ready(y) && x.cfg.conv == y.cfg.conv
    requires w in Flush(Bits32, x).segs && w.cmd == CMD_PUSH && w.sn < TWO32 && Expected(y, w.sn)
    ensures TimeDiff(w.sn, y.rcv.nxt) >= 0 ==> Has(There(x, y).rcv, w.sn)
    ensures Settled(Back(x, y).snd, w.sn)
  {
    hide Ready, EndpointInv, Flush, Datagrams, InputAll, TimeDiff, Expected, Settled, Has;
    var y1 := There(x, y);
    GetsThere(x, y, w);
    StayReady(y, Datagrams(x));
    Acknowledges(y1, Ack(w.sn, w.ts));
    DatagramsHold(y1);
    StaysReadyFlush(x);
    AllSettle(Flush(Bits32, x).e, Datagrams(y1));
  }

  lemma SinceStart(e: Endpoint)
    requires Ready(e)
    ensures Since(Bits32, e.rcv, e.rcv, e.cfg.rcvWnd)
  {
    hide EndpointInv;
    SinceSelf(Bits32, e);
  }

  lemma OnWireIn(ws: seq<Wire>, w: Wire)
    requires w in ws
    ensures OnWire(Bits32, w) in OnWireAll(Bits32, ws)
  {
    hide OnWire;
    var i :| 0 <= i < |ws| && ws[i] == w;
    assert OnWireAll(Bits32, ws)[i] == OnWire(Bits32, w);
  }

  /** A pending acknowledgement is on the wire of the next flush. */
  lemma Acknowledges(e: Endpoint, a: Ack)
    requires Ready(e) && a in e.rcv.acks && a.sn < TWO32
    ensures exists v :: v in OnWireAll(Bits32, Flush(Bits32, e).segs) && v.cmd == CMD_ACK && v.sn == a.sn
  {
    hide EndpointInv, Flush, Bare, AskNow;
    FlushAnswers(Bits32, e);
    var i :| 0 <= i < |e.rcv.acks| && e.rcv.acks[i] == a;
    var w := Flush(Bits32, e).segs[i];
    OnWireIn(Flush(Bits32, e).segs, w);
    assert OnWire(Bits32, w).cmd == CMD_ACK && OnWire(Bits32, w).sn == a.sn;
  }
}
