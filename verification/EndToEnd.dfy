/**
  The main results: over every schedule in which no packet outlives its numbers, the 32-bit
  protocol over byte strings is the unbounded one; and the unbounded one delivers exactly what was
  sent, in order.
*/
module EndToEnd {
  import opened Serial
  import opened WireFormat
  import opened Endpoints
  import opened Invariants
  import opened Wraparound
  import opened Packetization
  import opened Messages
  import opened Network
  import opened Safety
  import opened Steps

  /* ---------------------------------------------------------------- the unbounded run is safe */

  /** An endpoint before any traffic, configured or not yet flushed in any way. */
  predicate Unused(e: Endpoint) {
    ConfigInv(e.cfg) && e.rmtWnd <= 65535 && e.snd == Snd(0, 0, [], []) && e.rcv == Rcv(0, [], [], [])
  }

  lemma StartSafe(l: Endpoint, r: Endpoint)
    requires Unused(l) && Unused(r)
    ensures SystemInv(Start(l, r))
  {
  }

  /** In every reachable state of the unbounded system the invariant holds; no assumption on timing. */
  lemma {:induction false} RunSafe(l: Endpoint, r: Endpoint, evs: seq<Event>)
    requires Unused(l) && Unused(r)
    ensures SystemInv(RunU(l, r, evs))
  {
    hide StepU, EndpointInv, Direction, AllHonest;
    if evs == [] {
      StartSafe(l, r);
    } else {
      var before, ev := RunU(l, r, evs[..|evs| - 1]), evs[|evs| - 1];
      RunSafe(l, r, evs[..|evs| - 1]);
      if ev.left {
        StepSafe(before.left, before.right, ev.act);
      } else {
        StepSafe(before.right, before.left, ev.act);
      }
    }
  }

  /* ---------------------------------------------------------------- simulation */

  function WrapPackets(ps: seq<seq<Wire>>): (r: seq<seq<Wire>>)
    ensures |r| == |ps|
  {
    seq(|ps|, i requires 0 <= i < |ps| => WrapWires(ps[i]))
  }

  /** The 32-bit view of a node: packets as byte strings, counters modulo 2^32, the same history. */
  function WrapNode(n: Node<seq<Wire>>): Node<bytes> {
    Node(WrapEndpoint(n.e), EncodeAll(WrapPackets(n.out)), n.log, n.sent, n.got)
  }

  function WrapSystem(s: System<seq<Wire>>): System<bytes> {
    System(WrapNode(s.left), WrapNode(s.right))
  }

  lemma {:induction false} SizeWrap(ws: seq<Wire>)
    ensures PacketSize(WrapWires(ws)) == PacketSize(ws)
  {
    hide EncodeSegment;
    if ws != [] {
      SizeWrap(ws[1..]);
      assert WrapWires(ws)[1..] == WrapWires(ws[1..]);
    }
  }

  lemma ClosedWrap(p: Packing)
    ensures Closed(Packing(WrapPackets(p.done), WrapWires(p.cur))) == WrapPackets(Closed(p))
  {
  }

  lemma {:induction false} PackWrap(mtu: nat, p: Packing, ws: seq<Wire>)
    ensures var q := Pack(mtu, p, ws);
            Pack(mtu, Packing(WrapPackets(p.done), WrapWires(p.cur)), WrapWires(ws))
            == Packing(WrapPackets(q.done), WrapWires(q.cur))
    decreases |ws|
  {
    hide PacketSize, Wrap;
    if ws != [] {
      SizeWrap(p.cur);
      ClosedWrap(p);
      var p1 := PackOne(mtu, p, ws[0]);
      assert WrapWires(p.cur) + [WrapWire(ws[0])] == WrapWires(p.cur + [ws[0]]);
      assert [WrapWire(ws[0])] == WrapWires([ws[0]]);
      assert PackOne(mtu, Packing(WrapPackets(p.done), WrapWires(p.cur)), WrapWire(ws[0]))
          == Packing(WrapPackets(p1.done), WrapWires(p1.cur));
      PackWrap(mtu, p1, ws[1..]);
      assert WrapWires(ws)[1..] == WrapWires(ws[1..]);
    }
  }

  lemma PacketsWrap(mtu: nat, ws: seq<Wire>)
    ensures Packets(mtu, WrapWires(ws)) == WrapPackets(Packets(mtu, ws))
  {
    hide Pack;
    PackWrap(mtu, Packing([], []), ws);
    ClosedWrap(Pack(mtu, Packing([], []), ws));
    assert WrapPackets([]) == [] && WrapWires([]) == [];
  }

  lemma {:induction false} AcceptWrap(conv: Word, ws: seq<Wire>)
    ensures var r := Accept(conv, ws); Accept(conv, WrapWires(ws)) == Parsed(WrapWires(r.segs), r.code)
  {
    hide Wrap;
    if ws != [] {
      AcceptWrap(conv, ws[1..]);
      assert WrapWires(ws)[1..] == WrapWires(ws[1..]);
    }
  }

  lemma OnWireWrap(p: seq<Wire>)
    requires forall w | w in p :: w.conv < TWO32
    ensures OnWireAll(Bits32, WrapWires(p)) == WrapWires(OnWireAll(Unbounded, p))
  {
    forall i | 0 <= i < |p|
      ensures OnWire(Bits32, WrapWire(p[i])) == WrapWire(OnWire(Unbounded, p[i]))
    {
      assert p[i] in p;
    }
  }

  /** Receiving the encoded packet on 32 bits is receiving the packet itself. */
  lemma ReceiveWrap(x: Node<seq<Wire>>, y: Node<seq<Wire>>, p: seq<Wire>)
    requires Linked(x.e, x.log, y) && (forall w | w in p :: Honest(y.log, y.e.rcv, w)) && InTime(x.e, p)
    ensures Input(WrapEndpoint(x.e), EncodePacket(WrapWires(p))) == WrapEndpoint(ReceiveU(x.e, p))
  {
    hide Honest, Held, NothingLost, EndpointInv, InputParsed, OnWire, Wrap, TimelyAll, WellFormed;
    var conv := x.e.cfg.conv;
    var a := Accept(conv, OnWireAll(Unbounded, p));
    if p == [] {
      NoInput(x.e);
    } else {
      forall w | w in p
        ensures WellFormed(w) && w.conv < TWO32
      {
        HonestParts(y.log, y.e.rcv, w);
      }
      forall w | w in WrapWires(p)
        ensures WellFormed(w)
      {
        WrapWellFormed(p, w);
      }
      assert |EncodePacket(WrapWires(p))| >= OVERHEAD by {
        SizeWrap(p);
      }
      ParseEncoded(conv, WrapWires(p));
      OnWireWrap(p);
      AcceptWrap(conv, OnWireAll(Unbounded, p));
      ReceiveSafe(x, y, p);
      InputWrap(x.e, a);
    }
  }

  lemma NoInput(e: Endpoint)
    ensures ReceiveU(e, []) == e && Input(WrapEndpoint(e), EncodePacket(WrapWires([]))) == WrapEndpoint(e)
  {
  }

  lemma HonestParts(log: seq<Frag>, r: Rcv, w: Wire)
    requires Honest(log, r, w)
    ensures WellFormed(w) && w.conv < TWO32
  {
  }

  lemma WrapWellFormed(p: seq<Wire>, w: Wire)
    requires w in WrapWires(p) && forall v | v in p :: WellFormed(v)
    ensures WellFormed(w)
  {
    var i :| 0 <= i < |p| && WrapWires(p)[i] == w;
    assert p[i] in p;
  }

  /** What a local action does commutes with wrapping. */
  lemma LocalWrap(e: Endpoint, act: Action)
    requires EndpointInv(Unbounded, e)
    ensures var o := Local(Unbounded, e, act);
            Local(Bits32, WrapEndpoint(e), act) == Outcome(WrapEndpoint(o.e), WrapWires(o.segs), o.sent, o.got)
  {
    hide Send, Recv, Flush, Update, WrapSnd, WrapRcv, Wrap;
    assert WrapWires([]) == [];
    match act
    case DoSend(data) => SendWrap(e, data);
    case DoRecv(len) => RecvWrap(e, len);
    case DoFlush => FlushWrap(e);
    case DoUpdate(now) => UpdateWrap(e, now);
    case _ =>
  }

  lemma SendWrap(e: Endpoint, data: bytes)
    ensures WrapSnd(e.snd).queue == e.snd.queue
    ensures WrapSnd(e.snd.(queue := Send(e.cfg, e.snd.queue, data).queue))
         == WrapSnd(e.snd).(queue := Send(e.cfg, e.snd.queue, data).queue)
  {
  }

  lemma StepWrap(x: Node<seq<Wire>>, y: Node<seq<Wire>>, act: Action)
    requires Pair(x, y) && (act.Deliver? && act.k < |y.out| ==> InTime(x.e, y.out[act.k]))
    ensures Step32(WrapNode(x), WrapNode(y), act) == WrapNode(StepU(x, y, act))
  {
    hide Input, Local, Honest, Packets, EndpointInv, EncodePacket, WrapSnd, WrapRcv;
    if act.Deliver? {
      if act.k < |y.out| {
        var p := y.out[act.k];
        forall w | w in p
          ensures Honest(y.log, y.e.rcv, w)
        {
          var i :| 0 <= i < |p| && p[i] == w;
        }
        ReceiveWrap(x, y, p);
      }
    } else {
      LocalWrap(x.e, act);
      var o := Local(Unbounded, x.e, act);
      PacketsWrap(x.e.cfg.mtu, o.segs);
      QueueUnwrapped(x.e.snd);
      QueueUnwrapped(o.e.snd);
      var ps := Packets(x.e.cfg.mtu, o.segs);
      assert WrapPackets(x.out) + WrapPackets(ps) == WrapPackets(x.out + ps);
      assert EncodeAll(WrapPackets(x.out)) + EncodeAll(WrapPackets(ps)) == EncodeAll(WrapPackets(x.out + ps));
    }
  }

  lemma QueueUnwrapped(s: Snd)
    ensures WrapSnd(s).queue == s.queue
  {
  }

  /**
    Wrap-around is harmless: if no delivered packet outlives its numbers, the run of the 32-bit
    endpoints is, at every point, the low 32 bits of the run on unbounded numbers.
  */
  lemma {:induction false} Simulates(l: Endpoint, r: Endpoint, evs: seq<Event>)
    requires Unused(l) && Unused(r) && RunInTime(l, r, evs)
    ensures Run32(l, r, evs) == WrapSystem(RunU(l, r, evs))
  {
    hide StepU, Step32, WrapNode;
    if evs == [] {
      StartWrap(l);
      StartWrap(r);
    } else {
      var init, ev := evs[..|evs| - 1], evs[|evs| - 1];
      Simulates(l, r, init);
      RunSafe(l, r, init);
      var s := RunU(l, r, init);
      if ev.left {
        StepWrap(s.left, s.right, ev.act);
      } else {
        StepWrap(s.right, s.left, ev.act);
      }
    }
  }

  lemma StartWrap(e: Endpoint)
    requires Unused(e)
    ensures WrapNode(Node(e, [], [], [], [])) == Node(e, [], [], [], [])
  {
    assert WrapEndpoint(e) == e;
  }

  /* ---------------------------------------------------------------- what the applications see */

  /** Exactly-once, in-order delivery from x to y. */
  ghost predicate InOrder<P>(x: Node<P>, y: Node<P>) {
    if x.e.cfg.stream then Concat(y.got) <= Concat(x.sent) else y.got <= x.sent
  }

  lemma DeliveredInOrder(x: Node<seq<Wire>>, y: Node<seq<Wire>>)
    requires Direction(x, y)
    ensures InOrder(x, y)
  {
    if x.e.cfg.stream {
      var n := Consumed(y.e.rcv);
      var all := x.log + x.e.snd.queue;
      assert all == x.log[..n] + (x.log[n..] + x.e.snd.queue);
      FragDataAppend(x.log[..n], x.log[n..] + x.e.snd.queue);
    }
  }

  /**
    End-to-end safety over every schedule: what either application got is a prefix of what the other
    one handed over, message by message, or byte by byte in stream mode.
  */
  lemma ExactlyOnceInOrder(l: Endpoint, r: Endpoint, evs: seq<Event>)
    requires Unused(l) && Unused(r) && RunInTime(l, r, evs)
    ensures var s := Run32(l, r, evs); InOrder(s.left, s.right) && InOrder(s.right, s.left)
  {
    hide Direction, EndpointInv, AllHonest;
    RunSafe(l, r, evs);
    Simulates(l, r, evs);
    var s := RunU(l, r, evs);
    DeliveredInOrder(s.left, s.right);
    DeliveredInOrder(s.right, s.left);
    StreamFlag(s);
  }

  lemma StreamFlag(s: System<seq<Wire>>)
    ensures var t := WrapSystem(s);
            && t.left.e.cfg == s.left.e.cfg && t.right.e.cfg == s.right.e.cfg
            && t.left.sent == s.left.sent && t.right.sent == s.right.sent
            && t.left.got == s.left.got && t.right.got == s.right.got
  {
  }

  /** The segment with the 32-bit number is in the sender's `snd_buf`. */
  ghost predicate Buffered(e: Endpoint, sn: Word) {
    exists i | 0 <= i < |e.snd.buf| :: e.snd.buf[i].w.sn == sn
  }

  /** The receiver has passed the i-th fragment, or holds it in `rcv_buf` under its 32-bit number, with its data. */
  ghost predicate Holds(rU: Rcv, r: Rcv, log: seq<Frag>, i: nat) {
    || i < rU.nxt
    || (i < |log| && exists j | 0 <= j < |r.buf| ::
          r.buf[j].sn == Wrap(i) && r.buf[j].frg == log[i].frg && r.buf[j].data == log[i].data)
  }

  lemma HoldsWrapped(log: seq<Frag>, r: Rcv, i: nat)
    requires ReceiverOk(log, r) && Held(r, i)
    ensures Holds(r, WrapRcv(r), log, i)
  {
    if i >= r.nxt {
      var j :| 0 <= j < |r.buf| && r.buf[j].sn == i;
      assert Matches(log, r.buf[j]);
      assert WrapRcv(r).buf[j] == WrapWire(r.buf[j]);
    }
  }

  /**
    Ack soundness: whatever the schedule, every fragment the sender ever numbered is still in its
    `snd_buf` or held by the peer; so it is dropped only once the peer has it.
  */
  lemma AckSoundness(l: Endpoint, r: Endpoint, evs: seq<Event>)
    requires Unused(l) && Unused(r) && RunInTime(l, r, evs)
    ensures var s, u := Run32(l, r, evs), RunU(l, r, evs);
            && (forall i: nat | i < |s.left.log| ::
                  Buffered(s.left.e, Wrap(i)) || Holds(u.right.e.rcv, s.right.e.rcv, s.left.log, i))
            && (forall i: nat | i < |s.right.log| ::
                  Buffered(s.right.e, Wrap(i)) || Holds(u.left.e.rcv, s.left.e.rcv, s.right.log, i))
  {
    hide Held, Holds, Buffered, EndpointInv, AllHonest;
    RunSafe(l, r, evs);
    Simulates(l, r, evs);
    var u := RunU(l, r, evs);
    SoundOneWay(u.left, u.right);
    SoundOneWay(u.right, u.left);
  }

  lemma SoundOneWay(x: Node<seq<Wire>>, y: Node<seq<Wire>>)
    requires Direction(x, y)
    ensures forall i: nat | i < |x.log| ::
              Buffered(WrapEndpoint(x.e), Wrap(i)) || Holds(y.e.rcv, WrapEndpoint(y.e).rcv, x.log, i)
  {
    hide Held, Holds, Wrap;
    forall i: nat | i < |x.log|
      ensures Buffered(WrapEndpoint(x.e), Wrap(i)) || Holds(y.e.rcv, WrapEndpoint(y.e).rcv, x.log, i)
    {
      if Held(y.e.rcv, i) {
        HoldsWrapped(x.log, y.e.rcv, i);
      } else {
        assert InBuffer(x.e.snd, i);
        var k :| 0 <= k < |x.e.snd.buf| && x.e.snd.buf[k].w.sn == i;
        assert WrapEndpoint(x.e).snd.buf[k] == WrapSeg(x.e.snd.buf[k]);
      }
    }
  }

  /** Once the sender waits for nothing, the receiver with room in its queue has everything in order. */
  lemma AllInOrder(x: Node<seq<Wire>>, y: Node<seq<Wire>>)
    requires Direction(x, y) && RcvInv(Unbounded, y.e.rcv, y.e.cfg.rcvWnd)
    requires Idle(x.e) && |y.e.rcv.queue| < y.e.cfg.rcvWnd
    ensures y.e.rcv.nxt == |x.log|
  {
    hide Matches;
    var r := y.e.rcv;
    assert r.nxt < |x.log| ==> InBuffer(x.e.snd, r.nxt) || Held(r, r.nxt);
  }

  /** In stream mode every segment is a message of its own. */
  lemma StreamReadable(log: seq<Frag>, rest: seq<Frag>, queue: seq<Wire>)
    requires queue != [] && Matches(log, queue[0]) && forall f | f in log + rest :: f.frg == 0
    ensures PeekSize(queue) >= 0
  {
    assert log[queue[0].sn] in log + rest;
  }

  lemma EverythingGot(x: Node<seq<Wire>>, y: Node<seq<Wire>>)
    requires Direction(x, y) && RcvInv(Unbounded, y.e.rcv, y.e.cfg.rcvWnd) && ConfigInv(y.e.cfg)
    requires Idle(x.e) && PeekSize(y.e.rcv.queue) < 0
    ensures if x.e.cfg.stream then Concat(y.got) == Concat(x.sent) else y.got == x.sent
  {
    hide Message, NothingLost;
    var r, cfg := y.e.rcv, x.e.cfg;
    assert x.log + x.e.snd.queue == x.log;
    AllInOrder(x, y);
    assert QueueNumbered(r);
    QueueIsLog(x.log, r);
    if cfg.stream {
      if r.queue != [] {
        StreamReadable(x.log, x.e.snd.queue, r.queue);
      }
      assert x.log[..Consumed(r)] == x.log;
    } else {
      var todo := x.sent[|y.got|..];
      assert x.sent == y.got + todo;
      AllFragmentsAppend(cfg.mss, y.got, todo);
      assert AllFragments(cfg.mss, todo) == x.log[Consumed(r)..r.nxt] == FragsOf(r.queue);
      if todo != [] {
        MessageShape(cfg.mss, todo[0]);
        assert r.queue != [];
        Reassembly(cfg.mss, todo, r.queue);
        assert false;
      }
    }
  }

  lemma PeekWrap(r: Rcv)
    ensures PeekSize(WrapRcv(r).queue) == PeekSize(r.queue)
  {
    var span := MessageSpan(r.queue);
    QueueWrap(r.queue);
    QueueWrap(r.queue[..span]);
    assert WrapWires(r.queue)[..span] == WrapWires(r.queue[..span]);
  }

  /** y's application got all that x's handed over. */
  ghost predicate GotEverything<P>(x: Node<P>, y: Node<P>) {
    if x.e.cfg.stream then Concat(y.got) == Concat(x.sent) else y.got == x.sent
  }

  lemma QuietOneWay(x: Node<seq<Wire>>, y: Node<seq<Wire>>)
    requires Direction(x, y) && RcvInv(Unbounded, y.e.rcv, y.e.cfg.rcvWnd) && ConfigInv(y.e.cfg)
    requires Idle(WrapEndpoint(x.e)) && PeekSize(WrapEndpoint(y.e).rcv.queue) < 0
    ensures GotEverything(WrapNode(x), WrapNode(y))
  {
    hide Direction, RcvInv;
    IdleWrap(x.e);
    PeekWrap(y.e.rcv);
    EverythingGot(x, y);
  }

  /**
    Nothing is lost and nobody waits in vain: when a sender's `ikcp_waitsnd` is 0 and the peer's
    `ikcp_peeksize` says there is no message to read, the peer's application already got everything.
  */
  lemma QuietMeansComplete(l: Endpoint, r: Endpoint, evs: seq<Event>)
    requires Unused(l) && Unused(r) && RunInTime(l, r, evs)
    ensures var s := Run32(l, r, evs);
            && (Idle(s.left.e) && PeekSize(s.right.e.rcv.queue) < 0 ==> GotEverything(s.left, s.right))
            && (Idle(s.right.e) && PeekSize(s.left.e.rcv.queue) < 0 ==> GotEverything(s.right, s.left))
  {
    hide Direction, AllHonest, SndInv, RcvInv, GotEverything, Idle, PeekSize;
    RunSafe(l, r, evs);
    Simulates(l, r, evs);
    var u := RunU(l, r, evs);
    if Idle(WrapEndpoint(u.left.e)) && PeekSize(WrapEndpoint(u.right.e).rcv.queue) < 0 {
      QuietOneWay(u.left, u.right);
    }
    if Idle(WrapEndpoint(u.right.e)) && PeekSize(WrapEndpoint(u.left.e).rcv.queue) < 0 {
      QuietOneWay(u.right, u.left);
    }
  }

  lemma IdleWrap(e: Endpoint)
    ensures Idle(WrapEndpoint(e)) == Idle(e)
  {
    assert |WrapSegs(e.snd.buf)| == |e.snd.buf|;
  }
}
