/**
  The control block of `ikcp.c` and its operations in place, each proved against its function in
  `Endpoints` on 32-bit arithmetic.
*/
module KcpControl {
  import opened Serial
  import opened WireFormat
  import opened Endpoints
  import opened Invariants
  import opened Packetization

  /** `acklist` stores pairs flat: number, timestamp, number, timestamp. */
  function AckPairs(a: seq<Word>, n: nat): seq<Ack>
    requires 2 * n <= |a|
  {
    seq(n, i requires 0 <= i < n => Ack(a[2 * i], a[2 * i + 1]))
  }

  lemma ParseEnd(conv: Word, d: bytes)
    ensures |d| < OVERHEAD ==> Parse(conv, d) == Parsed([], 0)
  {
  }

  /** What one turn of the loop of `ikcp_input` does. */
  lemma ParseStep(conv: Word, d: bytes)
    requires |d| >= OVERHEAD
    ensures var p, len, tail := Parse(conv, d), Word32(d[20..]), d[OVERHEAD..];
            if Word32(d) != conv then p == Parsed([], -1)
            else if |tail| < len || len >= TWO31 then p == Parsed([], -2)
            else if !IsCommand(d[4]) then p == Parsed([], -3)
            else
              var w, after := DecodeHead(d).(data := tail[..len]), Parse(conv, tail[len..]);
              p.segs == [w] + after.segs && p.segs[0] == w && p.segs[1..] == after.segs && p.code == after.code
  {
    hide DecodeHead, Word32;
    var len, tail := Word32(d[20..]), d[OVERHEAD..];
    if len <= |tail| {
      assert tail[..len] == d[OVERHEAD..OVERHEAD + len] && tail[len..] == d[OVERHEAD + len..];
    }
  }

  lemma PackNothing(mtu: nat, p: Packing)
    ensures Pack(mtu, p, []) == p
  {
  }

  lemma {:induction false} PackSnoc(mtu: nat, p: Packing, ws: seq<Wire>, w: Wire)
    ensures Pack(mtu, p, ws + [w]) == PackOne(mtu, Pack(mtu, p, ws), w)
    decreases |ws|
  {
    hide PackOne;
    if ws == [] {
      assert ([] + [w])[0] == w && ([] + [w])[1..] == [];
    } else {
      assert (ws + [w])[1..] == ws[1..] + [w];
      PackSnoc(mtu, PackOne(mtu, p, ws[0]), ws[1..], w);
    }
  }

  lemma {:induction false} PackConcat(mtu: nat, p: Packing, a: seq<Wire>, b: seq<Wire>)
    ensures Pack(mtu, p, a + b) == Pack(mtu, Pack(mtu, p, a), b)
    decreases |a|
  {
    hide PackOne;
    if a == [] {
      assert a + b == b;
    } else {
      assert (a + b)[1..] == a[1..] + b;
      PackConcat(mtu, PackOne(mtu, p, a[0]), a[1..], b);
    }
  }

  /** The sections of a flush, put together. */
  lemma FlushResult(e: Endpoint, e': Endpoint, snd: Snd, t: Tally)
    requires e.clock.updated && snd == Promote(Bits32, e, e.snd, Window(e))
    requires t == Summary(e, snd.buf, e.cfg.mtu, Pack(e.cfg.mtu, Packing([], []), AckSegments(e) + ProbeSegments(e)),
                          e.xmit, e.dead)
    requires && e'.cfg == e.cfg && e'.rcv == e.rcv.(acks := []) && e'.rmtWnd == e.rmtWnd && e'.rtt == e.rtt
             && e'.clock == e.clock && e'.snd == snd.(buf := TickAll(e, snd.buf))
              && e'.xmit == t.xmit && e'.dead == t.dead
             && e'.probe == ProbeTick(e.probe, e.rmtWnd, e.clock.current).(ask := false, tell := false)
             && e'.cong == Backed(e.cong, e.cfg, Wrap(snd.nxt - snd.una), Window(e), t.change > 0, t.timeouts > 0)
    ensures var r := Endpoints.Flush(Bits32, e); e' == r.e && Packets(e.cfg.mtu, r.segs) == Closed(t.p)
  {
    hide Pack, Promote, TickAll, ProbeTick, Backed, AckSegments, ProbeSegments, DueSegments, CountDue, Exhausted;
    PackConcat(e.cfg.mtu, Packing([], []), AckSegments(e) + ProbeSegments(e), DueSegments(e, snd.buf));
  }

  /** The ways `ikcp_recv` ends. */
  lemma QueueCases(wnd: nat, r: Rcv, len: int)
    ensures var q, room := RecvQueue(Bits32, wnd, r, len), if len < 0 then -len else len;
            if r.queue == [] then q == QueueResult(-1, [], r, false)
            else if Endpoints.PeekSize(r.queue) < 0 then q == QueueResult(-2, [], r, false)
            else if Endpoints.PeekSize(r.queue) > room then q == QueueResult(-3, [], r, false)
            else
              && q.data == Payload(r.queue[..MessageSpan(r.queue)]) && q.code == |q.data|
              && q.rcv == Endpoints.Drain(Bits32, wnd,
                                          if len < 0 then r else r.(queue := r.queue[MessageSpan(r.queue)..]))
              && q.recover == (|r.queue| >= wnd && |q.rcv.queue| < wnd)
  {
  }

  lemma {:induction false} SoonestAtMost(buf: seq<SndSeg>, now: Word, best: int)
    ensures SoonestResend(buf, now, best) <= best
  {
    if buf != [] {
      SoonestAtMost(buf[1..], now, Min(best, TimeDiff(buf[0].resendts, now)));
    }
  }

  lemma NoAcks(a: seq<Word>)
    ensures AckPairs(a, 0) == []
  {
  }

  lemma NoPackets(e: Endpoint)
    ensures !e.clock.updated ==> Endpoints.Flush(Bits32, e) == Flushed(e, [])
    ensures EncodeAll(Packets(e.cfg.mtu, [])) == []
  {
    assert Packets(e.cfg.mtu, []) == [];
  }

  lemma WrapPlus(x: nat, n: nat)
    ensures Wrap(Wrap(x + n) + 1) == Wrap(x + n + 1)
    ensures x < TWO32 ==> Wrap(x) == x
  {
  }

  /** What the transmission loop accumulates. */
  datatype Tally = Tally(p: Packing, change: nat, timeouts: nat, xmit: Word, dead: bool)

  /** The outcome of the whole loop. */
  function Summary(e: Endpoint, buf: seq<SndSeg>, mtu: nat, p: Packing, xmit: Word, dead: bool): Tally {
    var timeouts := CountDue(e, buf, Timeout);
    Tally(Pack(mtu, p, DueSegments(e, buf)), CountDue(e, buf, Fast), timeouts, Wrap(xmit + timeouts),
          dead || Exhausted(e, buf))
  }

  function Counted(t: Tally, cfg: Config, s: SndSeg, due: Due, mtu: nat): Tally {
    Tally(if due == NotDue then t.p else PackOne(mtu, t.p, s.w), t.change + (if due == Fast then 1 else 0),
          t.timeouts + (if due == Timeout then 1 else 0), if due == Timeout then Wrap(t.xmit + 1) else t.xmit,
          t.dead || (due != NotDue && s.xmit >= cfg.deadLink))
  }

  /** After i turns: the front of the buffer is done, and the tally plus the rest is the whole. */
  ghost predicate Turn(e: Endpoint, buf: seq<SndSeg>, i: nat, mtu: nat, start: Tally, now: seq<SndSeg>, t: Tally) {
    && i <= |buf| && |now| == |buf| && now == TickAll(e, buf[..i]) + buf[i..]
    && Pack(mtu, t.p, DueSegments(e, buf[i..])) == Pack(mtu, start.p, DueSegments(e, buf))
    && t.change + CountDue(e, buf[i..], Fast) == start.change + CountDue(e, buf, Fast)
    && t.timeouts + CountDue(e, buf[i..], Timeout) == start.timeouts + CountDue(e, buf, Timeout)
    && t.timeouts >= start.timeouts && t.xmit == Wrap(start.xmit + (t.timeouts - start.timeouts))
    && (t.dead || Exhausted(e, buf[i..])) == (start.dead || Exhausted(e, buf))
  }

  lemma TurnStart(e: Endpoint, buf: seq<SndSeg>, mtu: nat, start: Tally)
    ensures Turn(e, buf, 0, mtu, start, buf, start)
  {
    hide Pack, DueSegments, CountDue, Exhausted, Tick;
    assert TickAll(e, buf[..0]) + buf[0..] == buf && buf[0..] == buf;
  }

  lemma TurnStep(e: Endpoint, buf: seq<SndSeg>, i: nat, mtu: nat, start: Tally, now: seq<SndSeg>, t: Tally)
    requires i < |buf| && Turn(e, buf, i, mtu, start, now, t)
    ensures i < |now| && now[i] == buf[i]
    ensures Turn(e, buf, i + 1, mtu, start, now[i := Tick(e, buf[i])],
                 Counted(t, e.cfg, Tick(e, buf[i]), DueFor(e, buf[i]), mtu))
  {
    hide Pack, PackOne, DueSegments, CountDue, Exhausted, Tick, TickAll, DueFor, Wrap;
    TickStep(e, buf, i);
    PackDue(mtu, t.p, e, buf, i);
    ReplaceAt(TickAll(e, buf[..i]), buf[i], Tick(e, buf[i]), buf[i + 1..]);
    WrapPlus(start.xmit, t.timeouts - start.timeouts);
  }

  lemma TurnEnd(e: Endpoint, buf: seq<SndSeg>, mtu: nat, start: Tally, now: seq<SndSeg>, t: Tally)
    requires Turn(e, buf, |buf|, mtu, start, now, t) && start.change == start.timeouts == 0
    ensures now == TickAll(e, buf) && t == Summary(e, buf, mtu, start.p, start.xmit, start.dead)
  {
    hide Tick;
    assert buf[..|buf|] == buf && buf[|buf|..] == [];
    assert TickAll(e, buf) + [] == TickAll(e, buf);
    PackNothing(mtu, t.p);
  }

  /** What one turn of the transmission loop contributes. */
  lemma TickStep(e: Endpoint, buf: seq<SndSeg>, i: nat)
    requires i < |buf|
    ensures var s, t, due := buf[i], Tick(e, buf[i]), DueFor(e, buf[i]);
            && buf[i..] == [s] + buf[i + 1..]
            && TickAll(e, buf[..i + 1]) == TickAll(e, buf[..i]) + [t]
            && DueSegments(e, buf[i..]) == (if due.NotDue? then [] else [t.w]) + DueSegments(e, buf[i + 1..])
            && (forall d :: CountDue(e, buf[i..], d) == (if due == d then 1 else 0) + CountDue(e, buf[i + 1..], d))
            && (Exhausted(e, buf[i..]) <==> (!due.NotDue? && t.xmit >= e.cfg.deadLink) || Exhausted(e, buf[i + 1..]))
  {
    hide Tick, DueFor, PackOne;
    assert buf[i..][1..] == buf[i + 1..];
    if Exhausted(e, buf[i..]) {
      var j :| 0 <= j < |buf[i..]| && !DueFor(e, buf[i..][j]).NotDue? && Tick(e, buf[i..][j]).xmit >= e.cfg.deadLink;
      if j > 0 {
        assert buf[i..][j] == buf[i + 1..][j - 1];
      }
    }
    if Exhausted(e, buf[i + 1..]) {
      var j :| 0 <= j < |buf[i + 1..]| && !DueFor(e, buf[i + 1..][j]).NotDue?
               && Tick(e, buf[i + 1..][j]).xmit >= e.cfg.deadLink;
      assert buf[i + 1..][j] == buf[i..][j + 1];
    }
  }

  lemma PackDue(mtu: nat, q: Packing, e: Endpoint, buf: seq<SndSeg>, i: nat)
    requires i < |buf|
    ensures var t, due := Tick(e, buf[i]), DueFor(e, buf[i]);
            Pack(mtu, q, DueSegments(e, buf[i..]))
            == Pack(mtu, if due.NotDue? then q else PackOne(mtu, q, t.w), DueSegments(e, buf[i + 1..]))
  {
    hide Tick, DueFor, PackOne;
    assert buf[i..][1..] == buf[i + 1..];
    var rest := DueSegments(e, buf[i + 1..]);
    assert ([Tick(e, buf[i]).w] + rest)[1..] == rest;
    assert [] + rest == rest;
  }

  /** What a flush sends fits in a packet each. */
  lemma FlushBounds(e: Endpoint)
    requires EndpointInv(Bits32, e)
    ensures OVERHEAD <= e.cfg.mtu
    ensures forall s | s in Promote(Bits32, e, e.snd, Window(e)).buf :: Size(s.w) <= e.cfg.mtu
  {
    PromotedOk(Bits32, e, Window(e));
  }

  lemma EmptyPacket(ws: seq<Wire>)
    ensures ws == [] <==> |EncodePacket(ws)| == 0
    ensures ws == [] ==> EncodePacket(ws) == []
  {
  }

  function Bumped(s: SndSeg, sn: nat): SndSeg {
    if s.w.sn == sn then s else s.(fastack := Wrap(s.fastack + 1))
  }

  /** The scan of `ikcp_parse_fastack` that stops at k. */
  lemma {:induction false} BumpFastackAt(buf: seq<SndSeg>, sn: nat, k: nat)
    requires k <= |buf| && (k < |buf| ==> TimeDiff(sn, buf[k].w.sn) < 0)
    requires forall j | 0 <= j < k :: TimeDiff(sn, buf[j].w.sn) >= 0
    ensures var r := BumpFastack(Bits32, buf, sn);
            && |r| == |buf| && (forall j | 0 <= j < k :: r[j] == Bumped(buf[j], sn))
            && forall j | k <= j < |buf| :: r[j] == buf[j]
  {
    hide TimeDiff, Wrap;
    if k > 0 {
      BumpFastackAt(buf[1..], sn, k - 1);
    }
  }

  /** The scan of `ikcp_parse_ack` that stops at k. */
  lemma {:induction false} RemoveAckedAt(buf: seq<SndSeg>, sn: nat, k: nat)
    requires k <= |buf| && (k < |buf| ==> buf[k].w.sn == sn || TimeDiff(sn, buf[k].w.sn) < 0)
    requires forall j | 0 <= j < k :: buf[j].w.sn != sn && TimeDiff(sn, buf[j].w.sn) >= 0
    ensures RemoveAcked(Bits32, buf, sn) == if k < |buf| && buf[k].w.sn == sn then buf[..k] + buf[k + 1..] else buf
  {
    hide TimeDiff;
    if k > 0 {
      RemoveAckedAt(buf[1..], sn, k - 1);
      assert buf == [buf[0]] + buf[1..];
      if k < |buf| {
        assert buf[..k] == [buf[0]] + buf[1..][..k - 1] && buf[k + 1..] == buf[1..][k..];
      }
    }
  }

  lemma ReplaceAt<T>(front: seq<T>, x: T, y: T, rest: seq<T>)
    ensures (front + ([x] + rest))[|front| := y] == (front + [y]) + rest
    ensures front + ([x] + rest) == (front + [x]) + rest
  {
  }

  lemma PairsAppend(a: seq<Word>, b: seq<Word>, n: nat)
    requires 2 * n <= |a| && 2 * n + 2 <= |b| && forall i | 0 <= i < 2 * n :: b[i] == a[i]
    ensures AckPairs(b, n + 1) == AckPairs(a, n) + [Ack(b[2 * n], b[2 * n + 1])]
  {
  }

  lemma PromoteTurn(e: Endpoint, s: Snd, window: nat)
    ensures Promote(Bits32, e, s, window) ==
            if s.queue != [] && TimeDiff(s.nxt, Wrap(s.una + window)) < 0
            then Promote(Bits32, e, PromoteOne(Bits32, e, s), window) else s
    ensures s.queue != [] ==> PromoteOne(Bits32, e, s).queue == s.queue[1..]
  {
    hide TimeDiff, Wrap, Numbered;
  }

  /** The two ends of the search of `ikcp_parse_data`. */
  lemma InsertEnds(buf: seq<Wire>, w: Wire)
    ensures buf[..|buf|] == buf && buf[|buf|..] == [] && buf + [] == buf
    ensures Insert(Bits32, buf[..0], w) + buf[0..] == buf[..0] + [w] + buf[0..]
  {
  }

  /** One turn of it. */
  lemma InsertTurn(buf: seq<Wire>, w: Wire, p: nat)
    requires 0 < p <= |buf|
    ensures Insert(Bits32, buf[..p], w) + buf[p..] ==
            if buf[p - 1].sn == w.sn then buf
            else if TimeDiff(w.sn, buf[p - 1].sn) > 0 then buf[..p] + [w] + buf[p..]
            else Insert(Bits32, buf[..p - 1], w) + buf[p - 1..]
  {
    hide TimeDiff;
    assert buf[..p][..p - 1] == buf[..p - 1] && buf == buf[..p] + buf[p..];
    assert [buf[p - 1]] + buf[p..] == buf[p - 1..];
  }

  /** The fields of `IKCPCB`; settings, timers and windows are grouped. */
  class Kcp {
    var cfg: Config
    // the sequence counters: Valid() keeps them, and the numbers in the queues, below 2^32
    var sndUna: nat
    var sndNxt: nat
    var rcvNxt: nat
    var rmtWnd: nat
    var rtt: Rtt
    var cong: Cong
    var probe: Probe
    var clock: Clock
    var xmit: Word
    var state: Word
    var nrcvBuf: nat
    var nsndBuf: nat
    var nrcvQue: nat
    var nsndQue: nat
    var sndQueue: seq<Frag>
    var rcvQueue: seq<Wire>
    var sndBuf: seq<SndSeg>
    var rcvBuf: seq<Wire>
    var acklist: array<Word>
    var ackcount: nat
    var buffer: array<byte>
    /** What the output callback received, oldest first. */
    var output: seq<bytes>

    function SndView(): Snd
      reads this`sndUna, this`sndNxt, this`sndQueue, this`sndBuf
    {
      Snd(sndUna, sndNxt, sndQueue, sndBuf)
    }

    function RcvView(): Rcv
      requires 2 * ackcount <= acklist.Length
      reads this`rcvNxt, this`rcvQueue, this`rcvBuf, this`ackcount, this`acklist, acklist
    {
      Rcv(rcvNxt, rcvQueue, rcvBuf, AckPairs(acklist[..], ackcount))
    }

    /** The control block as a value. */
    function View(): Endpoint
      requires 2 * ackcount <= acklist.Length
      reads this, acklist
    {
      Endpoint(cfg, SndView(), RcvView(), rmtWnd, rtt, cong, probe, clock, xmit, state == 0xffff_ffff)
    }

    /** The counters count, and the buffers have the room they are allocated with. */
    predicate Shape()
      reads this
    {
      && nsndQue == |sndQueue| && nsndBuf == |sndBuf| && nrcvQue == |rcvQueue| && nrcvBuf == |rcvBuf|
      && 2 * ackcount <= acklist.Length
      && buffer.Length == (cfg.mtu + OVERHEAD) * 3
      && acklist as object != buffer as object
    }

    ghost predicate Valid()
      reads this, acklist
    {
      Shape() && EndpointInv(Bits32, View())
    }

    /** The fields callers look at. */
    lemma Fields()
      requires Valid()
      ensures View().cfg == cfg && View().clock == clock && View().dead == (state == 0xffff_ffff)
      ensures View().rcv.queue == rcvQueue && View().snd.queue == sndQueue
      ensures nsndQue == |View().snd.queue| && nsndBuf == |View().snd.buf|
      ensures nrcvQue == |View().rcv.queue| && nrcvBuf == |View().rcv.buf|
      ensures Shape()
    {
      hide EndpointInv;
    }

    /** `ikcp_create`. */
    constructor (conv: Word)
      ensures Valid() && fresh(acklist) && fresh(buffer)
      ensures View() == Created(conv) && output == []
    {
      cfg := Created(conv).cfg;
      sndUna, sndNxt, rcvNxt, rmtWnd := 0, 0, 0, WND_RCV;
      rtt, cong := Rtt(0, 0, RTO_DEF), Cong(0, 0, THRESH_INIT);
      probe, clock := Probe(false, false, 0, 0), Clock(0, INTERVAL, false);
      sndQueue, rcvQueue, sndBuf, rcvBuf := [], [], [], [];
      nrcvBuf, nsndBuf, nrcvQue, nsndQue, ackcount := 0, 0, 0, 0, 0;
      xmit, state, output := 0, 0, [];
      acklist := new Word[0](_ => 0);
      buffer := new byte[(MTU_DEF + OVERHEAD) * 3](_ => 0);
    }

    /* -------------------------------------------------------------- send */

    /** Stream mode: fills up the last queued segment. */
    method ExtendLast(data: bytes) returns (left: bytes)
      requires Shape() && cfg.stream
      modifies this`sndQueue
      ensures Shape()
      ensures sndQueue == Extend(cfg, old(sndQueue), data)
      ensures left == data[Extension(cfg, old(sndQueue), data)..]
    {
      left := data;
      if sndQueue != [] {
        var last := sndQueue[|sndQueue| - 1];
        if |last.data| < cfg.mss {
          var capacity := cfg.mss - |last.data|;
          var extend := if |data| < capacity then |data| else capacity;
          sndQueue := sndQueue[..|sndQueue| - 1] + [Frag(0, last.data + data[..extend])];
          left := data[extend..];
        }
      }
    }

    /** The fragment loop. */
    method AppendFragments(data: bytes, count: nat)
      requires Shape()
      modifies this`sndQueue, this`nsndQue
      ensures Shape()
      ensures sndQueue == old(sndQueue) + Fragments(cfg.mss, cfg.stream, data, count)
    {
      var left := data;
      for i := 0 to count
        invariant Shape()
        invariant sndQueue + Fragments(cfg.mss, cfg.stream, left, count - i)
               == old(sndQueue) + Fragments(cfg.mss, cfg.stream, data, count)
      {
        var size := if |left| > cfg.mss then cfg.mss else |left|;
        var f := Frag(if cfg.stream then 0 else count - i - 1, left[..size]);
        assert (sndQueue + [f]) + Fragments(cfg.mss, cfg.stream, left[size..], count - i - 1)
            == sndQueue + Fragments(cfg.mss, cfg.stream, left, count - i);
        sndQueue := sndQueue + [f];
        nsndQue := nsndQue + 1;
        left := left[size..];
      }
    }

    /** `ikcp_send`; `taken` is the part of the data that was queued. */
    method Send(data: bytes) returns (code: int, ghost taken: bytes)
      requires Valid()
      modifies this`sndQueue, this`nsndQue
      ensures Valid()
      ensures var r := Endpoints.Send(cfg, old(sndQueue), data);
              code == r.code && taken == r.taken && View() == old(View()).(snd := old(View()).snd.(queue := r.queue))
    {
      hide EndpointInv, Extend, Extension, Fragments;
      SendKeeps(Bits32, View(), data);
      ghost var n := Extension(cfg, sndQueue, data);
      var left := data;
      assert cfg.stream || (n == 0 && Extend(cfg, sndQueue, data) == sndQueue) by {
        NoExtension(cfg, sndQueue, data);
      }
      if cfg.stream {
        left := ExtendLast(data);
        if left == [] {
          return 0, data;
        }
      }
      var count := if |left| <= cfg.mss then 1 else (|left| + cfg.mss - 1) / cfg.mss;
      if count >= WND_RCV {
        return -2, data[..n];
      }
      AppendFragments(left, count);
      return 0, data;
    }

    /* -------------------------------------------------------------- receive */

    /** `ikcp_peeksize`. */
    method PeekSize() returns (length: int)
      requires Shape()
      ensures length == Endpoints.PeekSize(rcvQueue)
    {
      if rcvQueue == [] {
        return -1;
      }
      if rcvQueue[0].frg == 0 {
        return |rcvQueue[0].data|;
      }
      if nrcvQue < rcvQueue[0].frg + 1 {
        return -1;
      }
      length := 0;
      var p := 0;
      ghost var whole := Payload(rcvQueue[..MessageSpan(rcvQueue)]);
      SpanFrom(rcvQueue, 0);
      while p < |rcvQueue|
        invariant 0 <= p <= |rcvQueue|
        invariant length + |Payload(rcvQueue[p..][..MessageSpan(rcvQueue[p..])])| == |whole|
      {
        SpanFrom(rcvQueue, p);
        length := length + |rcvQueue[p].data|;
        if rcvQueue[p].frg == 0 {
          return;
        }
        p := p + 1;
      }
    }

    /** The merge loop: copies the first message, and unlinks it unless peeking. */
    method MergeFragments(ispeek: bool) returns (data: bytes)
      requires Shape()
      modifies this`rcvQueue, this`nrcvQue
      ensures Shape()
      ensures var span := MessageSpan(old(rcvQueue));
              && data == Payload(old(rcvQueue)[..span])
              && rcvQueue == if ispeek then old(rcvQueue) else old(rcvQueue)[span..]
    {
      hide MessageSpan, Payload;
      var queue := rcvQueue;
      data := [];
      var p := 0;
      SpanFrom(queue, 0);
      SpanFrom(queue, |queue|);
      while p < |queue|
        invariant 0 <= p <= |queue| && nrcvQue == |rcvQueue|
        invariant data + Payload(queue[p..][..MessageSpan(queue[p..])]) == Payload(queue[..MessageSpan(queue)])
        invariant p + MessageSpan(queue[p..]) == MessageSpan(queue)
        invariant rcvQueue == if ispeek then queue else queue[p..]
      {
        SpanFrom(queue, p);
        var seg := queue[p];
        data := data + seg.data;
        if !ispeek {
          rcvQueue := rcvQueue[1..];
          nrcvQue := nrcvQue - 1;
        }
        p := p + 1;
        if seg.frg == 0 {
          break;
        }
      }
    }

    /** `ikcp_recv`: the result code and the bytes copied to the caller's buffer. */
    method Recv(len: int) returns (code: int, data: bytes)
      requires Valid()
      modifies this`rcvQueue, this`nrcvQue, this`rcvBuf, this`nrcvBuf, this`rcvNxt, this`probe
      ensures Valid()
      ensures var r := Endpoints.Recv(Bits32, old(View()), len);
              code == r.code && data == r.data && View() == r.e
    {
      hide EndpointInv, RecvQueue;
      RecvKeeps(Bits32, View(), len);
      code, data := RecvMessage(len);
    }

    method RecvMessage(len: int) returns (code: int, data: bytes)
      requires Shape()
      modifies this`rcvQueue, this`nrcvQue, this`rcvBuf, this`nrcvBuf, this`rcvNxt, this`probe
      ensures Shape()
      ensures var r := RecvQueue(Bits32, cfg.rcvWnd, old(RcvView()), len);
              code == r.code && data == r.data && RcvView() == r.rcv
              && probe == old(probe).(tell := old(probe).tell || r.recover)
    {
      hide Endpoints.Drain, MessageSpan, Payload, Endpoints.PeekSize, RecvQueue;
      QueueCases(cfg.rcvWnd, RcvView(), len);
      var ispeek := len < 0;
      if rcvQueue == [] {
        return -1, [];
      }
      var room := if ispeek then -len else len;
      var peeksize := PeekSize();
      if peeksize < 0 {
        return -2, [];
      }
      if peeksize > room {
        return -3, [];
      }
      var recover := nrcvQue >= cfg.rcvWnd;
      data := MergeFragments(ispeek);
      code := |data|;
      Drain();
      if nrcvQue < cfg.rcvWnd && recover {
        probe := probe.(tell := true);
      }
    }

    /** Moves available data from `rcv_buf` to `rcv_queue`. */
    method Drain()
      requires Shape()
      modifies this`rcvQueue, this`nrcvQue, this`rcvBuf, this`nrcvBuf, this`rcvNxt
      ensures Shape()
      ensures RcvView() == Endpoints.Drain(Bits32, cfg.rcvWnd, old(RcvView()))
    {
      while rcvBuf != []
        invariant Shape()
        invariant Endpoints.Drain(Bits32, cfg.rcvWnd, RcvView()) == Endpoints.Drain(Bits32, cfg.rcvWnd, old(RcvView()))
        decreases |rcvBuf|
      {
        var seg := rcvBuf[0];
        if seg.sn == rcvNxt && nrcvQue < cfg.rcvWnd {
          rcvBuf := rcvBuf[1..];
          nrcvBuf := nrcvBuf - 1;
          rcvQueue := rcvQueue + [seg];
          nrcvQue := nrcvQue + 1;
          rcvNxt := Wrap(rcvNxt + 1);
        } else {
          break;
        }
      }
    }

    /* -------------------------------------------------------------- input */

    /** `ikcp_update_ack`. */
    method UpdateAck(sample: int)
      modifies this`rtt
      ensures rtt == Endpoints.UpdateAck(cfg, old(rtt), sample)
    {
      if rtt.srtt == 0 {
        rtt := rtt.(srtt := sample, rttval := TruncDiv(sample, 2));
      } else {
        var delta := Signed(sample - rtt.srtt);
        if delta < 0 {
          delta := -delta;
        }
        var avg := TruncDiv(Signed(Signed(7 * rtt.srtt) + sample), 8);
        rtt := rtt.(rttval := Signed(TruncDiv(Signed(3 * rtt.rttval) + delta, 4)), srtt := if avg < 1 then 1 else avg);
      }
      var rto := Wrap(rtt.srtt + Max(cfg.interval, Wrap(4 * rtt.rttval)));
      rtt := rtt.(rto := Bound(cfg.minrto, rto, RTO_MAX));
    }

    method ShrinkBuf()
      modifies this`sndUna
      ensures SndView() == Shrink(old(SndView()))
    {
      if sndBuf != [] {
        sndUna := sndBuf[0].w.sn;
      } else {
        sndUna := sndNxt;
      }
    }

    method ParseUna(una: nat)
      requires Shape()
      modifies this`sndBuf, this`nsndBuf
      ensures Shape() && sndBuf == Endpoints.ParseUna(Bits32, old(sndBuf), una)
    {
      while sndBuf != [] && TimeDiff(una, sndBuf[0].w.sn) > 0
        invariant Shape()
        invariant Endpoints.ParseUna(Bits32, sndBuf, una) == Endpoints.ParseUna(Bits32, old(sndBuf), una)
        decreases |sndBuf|
      {
        sndBuf := sndBuf[1..];
        nsndBuf := nsndBuf - 1;
      }
    }

    method ParseAck(sn: nat)
      requires Shape()
      modifies this`sndBuf, this`nsndBuf
      ensures Shape() && sndBuf == Endpoints.ParseAck(Bits32, old(SndView()), sn)
    {
      if TimeDiff(sn, sndUna) < 0 || TimeDiff(sn, sndNxt) >= 0 {
        return;
      }
      hide TimeDiff, RemoveAcked;
      for p := 0 to |sndBuf|
        invariant Shape() && sndBuf == old(sndBuf)
        invariant forall j | 0 <= j < p :: sndBuf[j].w.sn != sn && TimeDiff(sn, sndBuf[j].w.sn) >= 0
      {
        if sndBuf[p].w.sn == sn {
          RemoveAckedAt(sndBuf, sn, p);
          sndBuf := sndBuf[..p] + sndBuf[p + 1..];
          nsndBuf := nsndBuf - 1;
          return;
        }
        if TimeDiff(sn, sndBuf[p].w.sn) < 0 {
          RemoveAckedAt(sndBuf, sn, p);
          return;
        }
      }
      RemoveAckedAt(sndBuf, sn, |sndBuf|);
    }

    method ParseFastack(sn: nat)
      requires Shape()
      modifies this`sndBuf
      ensures Shape() && sndBuf == Endpoints.ParseFastack(Bits32, old(SndView()), sn)
    {
      if TimeDiff(sn, sndUna) < 0 || TimeDiff(sn, sndNxt) >= 0 {
        return;
      }
      hide TimeDiff, Wrap, BumpFastack;
      ghost var buf := sndBuf;
      for p := 0 to |sndBuf|
        invariant Shape() && |sndBuf| == |buf|
        invariant forall j | 0 <= j < p :: TimeDiff(sn, buf[j].w.sn) >= 0 && sndBuf[j] == Bumped(buf[j], sn)
        invariant forall j | p <= j < |buf| :: sndBuf[j] == buf[j]
      {
        var seg := sndBuf[p];
        if TimeDiff(sn, seg.w.sn) < 0 {
          BumpFastackAt(buf, sn, p);
          return;
        }
        if sn != seg.w.sn {
          sndBuf := sndBuf[p := seg.(fastack := Wrap(seg.fastack + 1))];
        }
      }
      BumpFastackAt(buf, sn, |buf|);
    }

    /** `ikcp_ack_push`: appends in place, doubling the list when it is full. */
    method AckPush(sn: Word, ts: Word)
      requires Shape()
      modifies this`acklist, this`ackcount, acklist
      ensures Shape() && (acklist == old(acklist) || fresh(acklist))
      ensures AckPairs(acklist[..], ackcount) == old(AckPairs(acklist[..], ackcount)) + [Ack(sn, ts)]
    {
      var n := ackcount;
      if 2 * (n + 1) > acklist.Length {
        var newblock := 8;
        while newblock < n + 1
          invariant newblock >= 8
        {
          newblock := newblock * 2;
        }
        var bigger := new Word[newblock * 2](_ => 0);
        for x := 0 to n
          invariant acklist == old(acklist) && 2 * n <= acklist.Length && acklist[..] == old(acklist[..])
          invariant forall i | 0 <= i < 2 * x :: bigger[i] == acklist[i]
        {
          bigger[x * 2] := acklist[x * 2];
          bigger[x * 2 + 1] := acklist[x * 2 + 1];
        }
        acklist := bigger;
      }
      acklist[n * 2] := sn;
      acklist[n * 2 + 1] := ts;
      ackcount := n + 1;
      assert forall i | 0 <= i < 2 * n :: acklist[..][i] == old(acklist[..])[i];
      PairsAppend(old(acklist[..]), acklist[..], n);
    }

    /** The backward search of `ikcp_parse_data`. */
    method FindPlace(w: Wire) returns (p: nat, repeat: bool)
      ensures p <= |rcvBuf|
      ensures Insert(Bits32, rcvBuf, w) == if repeat then rcvBuf else rcvBuf[..p] + [w] + rcvBuf[p..]
    {
      hide TimeDiff, Insert;
      p, repeat := |rcvBuf|, false;
      InsertEnds(rcvBuf, w);
      while p > 0
        invariant p <= |rcvBuf| && !repeat
        invariant Insert(Bits32, rcvBuf, w) == Insert(Bits32, rcvBuf[..p], w) + rcvBuf[p..]
      {
        InsertTurn(rcvBuf, w, p);
        var seg := rcvBuf[p - 1];
        if seg.sn == w.sn {
          repeat := true;
          return;
        }
        if TimeDiff(w.sn, seg.sn) > 0 {
          return;
        }
        p := p - 1;
      }
    }

    method ParseData(w: Wire)
      requires Shape()
      modifies this`rcvQueue, this`nrcvQue, this`rcvBuf, this`nrcvBuf, this`rcvNxt
      ensures Shape() && RcvView() == Endpoints.ParseData(Bits32, cfg.rcvWnd, old(RcvView()), w)
    {
      hide Endpoints.Drain, Insert;
      if TimeDiff(w.sn, Wrap(rcvNxt + cfg.rcvWnd)) >= 0 || TimeDiff(w.sn, rcvNxt) < 0 {
        return;
      }
      var p, repeat := FindPlace(w);
      if !repeat {
        rcvBuf := rcvBuf[..p] + [w] + rcvBuf[p..];
        nrcvBuf := nrcvBuf + 1;
      }
      Drain();
    }

    /** The PUSH branch of `ikcp_input`. */
    method InputPush(w: Wire)
      requires Shape() && w.sn < TWO32
      modifies this`acklist, this`ackcount, acklist
      modifies this`rcvQueue, this`nrcvQue, this`rcvBuf, this`nrcvBuf, this`rcvNxt
      ensures Shape() && (acklist == old(acklist) || fresh(acklist))
      ensures RcvView() == Endpoints.InputPush(Bits32, cfg.rcvWnd, old(RcvView()), w)
    {
      hide Endpoints.ParseData, AckPairs;
      if TimeDiff(w.sn, Wrap(rcvNxt + cfg.rcvWnd)) < 0 {
        AckPush(w.sn, w.ts);
        if TimeDiff(w.sn, rcvNxt) >= 0 {
          ParseData(w);
        }
      }
    }

    method InputUna(una: nat)
      requires Shape()
      modifies this`sndBuf, this`nsndBuf, this`sndUna
      ensures Shape() && SndView() == Endpoints.InputUna(Bits32, old(SndView()), una)
    {
      ParseUna(una);
      ShrinkBuf();
    }

    method InputAck(sn: nat, ts: Word)
      requires Shape()
      modifies this`sndBuf, this`nsndBuf, this`sndUna, this`rtt
      ensures Shape() && SndView() == Endpoints.InputAck(Bits32, old(SndView()), sn)
      ensures var sample := TimeDiff(clock.current, ts);
              rtt == if sample >= 0 then Endpoints.UpdateAck(cfg, old(rtt), sample) else old(rtt)
    {
      hide Endpoints.UpdateAck, TimeDiff;
      var sample := TimeDiff(clock.current, ts);
      if sample >= 0 {
        UpdateAck(sample);
      }
      ParseAck(sn);
      ShrinkBuf();
    }

    method Dispatch(w: Wire)
      requires Shape() && w.sn < TWO32
      modifies this`sndBuf, this`nsndBuf, this`sndUna, this`rtt, this`probe, this`acklist, this`ackcount, acklist
      modifies this`rcvQueue, this`nrcvQue, this`rcvBuf, this`nrcvBuf, this`rcvNxt
      ensures Shape() && (acklist == old(acklist) || fresh(acklist))
      ensures View() == Endpoints.Dispatch(Bits32, old(View()), w)
    {
      hide Endpoints.InputPush, Endpoints.InputAck, Endpoints.UpdateAck, SndView, RcvView, TimeDiff;
      if w.cmd == CMD_ACK {
        InputAck(w.sn, w.ts);
      } else if w.cmd == CMD_PUSH {
        InputPush(w);
      } else if w.cmd == CMD_WASK {
        probe := probe.(tell := true);
      }
    }

    /** One decoded segment. */
    method InputSegment(w: Wire)
      requires Shape() && w.sn < TWO32
      modifies this`rmtWnd, this`sndBuf, this`nsndBuf, this`sndUna, this`rtt, this`probe
      modifies this`acklist, this`ackcount, acklist
      modifies this`rcvQueue, this`nrcvQue, this`rcvBuf, this`nrcvBuf, this`rcvNxt
      ensures Shape() && (acklist == old(acklist) || fresh(acklist))
      ensures View() == Endpoints.InputSegment(Bits32, old(View()), w)
    {
      hide Endpoints.InputUna, Endpoints.Dispatch, SndView, RcvView;
      rmtWnd := w.wnd;
      InputUna(w.una);
      Dispatch(w);
    }

    /** The loop of `ikcp_input`: decodes and processes segments until the data ends or is malformed. */
    method InputLoop(data: bytes) returns (code: int, m: MaxAck)
      requires Shape()
      modifies this`rmtWnd, this`sndBuf, this`nsndBuf, this`sndUna, this`rtt, this`probe
      modifies this`acklist, this`ackcount, acklist
      modifies this`rcvQueue, this`nrcvQue, this`rcvBuf, this`nrcvBuf, this`rcvNxt
      ensures Shape() && (acklist == old(acklist) || fresh(acklist))
      ensures var p := Parse(cfg.conv, data);
              && code == p.code && m == FoldMaxAck(Bits32, NoAck, p.segs)
              && View() == InputSegments(Bits32, old(View()), p.segs)
    {
      hide View, Endpoints.InputSegment, DecodeHead, UpdateMaxAck, Word32, Parse;
      var rest := data;
      code, m := 0, NoAck;
      ghost var all := Parse(cfg.conv, data);
      while |rest| >= OVERHEAD
        invariant Shape() && (acklist == old(acklist) || fresh(acklist))
        invariant Parse(cfg.conv, rest).code == all.code
        invariant FoldMaxAck(Bits32, m, Parse(cfg.conv, rest).segs) == FoldMaxAck(Bits32, NoAck, all.segs)
        invariant InputSegments(Bits32, View(), Parse(cfg.conv, rest).segs)
               == InputSegments(Bits32, old(View()), all.segs)
        decreases |rest|
      {
        ParseStep(cfg.conv, rest);
        if Word32(rest) != cfg.conv {
          return -1, m;
        }
        var head := DecodeHead(rest);
        var len := Word32(rest[20..]);
        var cmd := rest[4];
        rest := rest[OVERHEAD..];
        if |rest| < len || len >= TWO31 {
          return -2, m;
        }
        if !IsCommand(cmd) {
          return -3, m;
        }
        var w := head.(data := rest[..len]);
        InputSegment(w);
        m := UpdateMaxAck(Bits32, m, w);
        rest := rest[len..];
      }
      ParseEnd(cfg.conv, rest);
    }

    /** `ikcp_input`, for any byte string. */
    method Input(data: bytes) returns (code: int)
      requires Valid()
      modifies this, acklist
      ensures Valid() && (acklist == old(acklist) || fresh(acklist)) && buffer == old(buffer) && output == old(output)
      ensures code == InputCode(old(cfg).conv, data) && View() == Endpoints.Input(old(View()), data)
    {
      hide EndpointInv, Parse, Grow, Endpoints.ParseFastack, InputSegments, FoldMaxAck, AckPairs, TimeDiff;
      InputBytesKeeps(View(), data);
      var prevUna := sndUna;
      if |data| < OVERHEAD {
        return -1;
      }
      var m;
      code, m := InputLoop(data);
      if code != 0 {
        return;
      }
      if m.MaxAck? {
        ParseFastack(m.sn);
      }
      if TimeDiff(sndUna, prevUna) > 0 {
        GrowWindow();
      }
    }

    /** The congestion window after an advance of `snd_una`. */
    method GrowWindow()
      modifies this`cong
      ensures cong == Grow(old(cong), cfg.mss, rmtWnd)
    {
      if cong.cwnd < rmtWnd {
        var mss := cfg.mss;
        if cong.cwnd < cong.ssthresh {
          cong := cong.(cwnd := Wrap(cong.cwnd + 1), incr := Wrap(cong.incr + mss));
        } else {
          cong := cong.(incr := Additive(cong.incr, mss));
          if Wrap((cong.cwnd + 1) * mss) <= cong.incr {
            cong := cong.(cwnd := Wrap(Wrap(cong.incr + mss - 1) / mss));
          }
        }
        if cong.cwnd > rmtWnd {
          cong := cong.(cwnd := Wrap(rmtWnd), incr := Wrap(rmtWnd * mss));
        }
      }
    }

    /* -------------------------------------------------------------- flush: the output buffer */

    /** `ikcp_encode32u` (and its shorter siblings) at offset `ptr` of the buffer. */
    method Encode(ptr: nat, x: nat, n: nat) returns (next: nat)
      requires ptr + n <= buffer.Length
      modifies buffer
      ensures next == ptr + n && buffer[..next] == old(buffer[..ptr]) + Le(x, n)
    {
      next := ptr;
      var y := x;
      assert buffer[..ptr] + Le(y, n) == old(buffer[..ptr]) + Le(x, n);
      for i := 0 to n
        invariant next == ptr + i
        invariant buffer[..next] + Le(y, n - i) == old(buffer[..ptr]) + Le(x, n)
      {
        ghost var before := buffer[..next];
        ghost var d: byte := y % 256;
        assert Le(y, n - i) == [d] + Le(y / 256, n - i - 1);
        buffer[next] := y % 256;
        y := y / 256;
        next := next + 1;
        assert buffer[..next] == before + [d];
        assert (before + [d]) + Le(y, n - i - 1) == before + ([d] + Le(y, n - i - 1));
      }
      assert buffer[..next] + [] == buffer[..next];
    }

    method EncodeByte(ptr: nat, b: byte) returns (next: nat)
      requires ptr < buffer.Length
      modifies buffer
      ensures next == ptr + 1 && buffer[..next] == old(buffer[..ptr]) + [b]
    {
      buffer[ptr] := b;
      next := ptr + 1;
    }

    /** `ikcp_encode_seg`. */
    method EncodeFront(ptr: nat, w: Wire) returns (next: nat)
      requires ptr + 8 <= buffer.Length
      modifies buffer
      ensures next == ptr + 8
      ensures buffer[..next] == old(buffer[..ptr]) + (Le(w.conv, 4) + [w.cmd % 256] + [w.frg % 256] + Le(w.wnd, 2))
    {
      hide Le;
      next := Encode(ptr, w.conv, 4);
      next := EncodeByte(next, w.cmd % 256);
      next := EncodeByte(next, w.frg % 256);
      next := Encode(next, w.wnd, 2);
    }

    method EncodeSeg(ptr: nat, w: Wire) returns (next: nat)
      requires ptr + OVERHEAD <= buffer.Length
      modifies buffer
      ensures next == ptr + OVERHEAD && buffer[..next] == old(buffer[..ptr]) + EncodeHead(w)
    {
      hide Le;
      next := EncodeFront(ptr, w);
      next := Encode(next, w.ts, 4);
      next := Encode(next, w.sn, 4);
      next := Encode(next, w.una, 4);
      next := Encode(next, |w.data|, 4);
    }

    method CopyPayload(ptr: nat, d: bytes) returns (next: nat)
      requires ptr + |d| <= buffer.Length
      modifies buffer
      ensures next == ptr + |d| && buffer[..next] == old(buffer[..ptr]) + d
    {
      for i := 0 to |d|
        invariant buffer[..ptr] == old(buffer[..ptr])
        invariant buffer[ptr..ptr + i] == d[..i]
      {
        buffer[ptr + i] := d[i];
        assert buffer[ptr..ptr + i + 1] == buffer[ptr..ptr + i] + [d[i]];
      }
      next := ptr + |d|;
      assert buffer[..next] == buffer[..ptr] + buffer[ptr..next];
    }

    /** What has been handed to the output callback, and what waits in the buffer. */
    ghost predicate Pending(p: Packing, ptr: nat, base: seq<bytes>)
      reads this`output, this`buffer, buffer
    {
      && ptr <= buffer.Length && ptr == PacketSize(p.cur)
      && buffer[..ptr] == EncodePacket(p.cur)
      && output == base + EncodeAll(p.done)
    }

    /** `ikcp_output` of the first `size` bytes of the buffer. */
    method Output(size: nat, ghost p: Packing, ghost base: seq<bytes>)
      requires Pending(p, size, base)
      modifies this`output
      ensures output == base + EncodeAll(Closed(p)) && Pending(Packing(Closed(p), []), 0, base)
    {
      hide EncodePacket;
      EmptyPacket(p.cur);
      EmptyPacket([]);
      if size != 0 {
        output := output + [buffer[..size]];
        assert EncodeAll(p.done + [p.cur]) == EncodeAll(p.done) + [EncodePacket(p.cur)];
      }
    }

    /** Appends one segment to the buffer, flushing it first if the segment would not fit in `mtu`. */
    method Append(ptr: nat, w: Wire, ghost p: Packing, ghost base: seq<bytes>) returns (next: nat, ghost q: Packing)
      requires Shape() && Pending(p, ptr, base) && ptr <= cfg.mtu && Size(w) <= cfg.mtu
      modifies this`output, buffer
      ensures Shape() && q == PackOne(cfg.mtu, p, w) && Pending(q, next, base) && next <= cfg.mtu
    {
      hide EncodePacket, EncodeHead;
      next, q := ptr, p;
      if ptr + OVERHEAD + |w.data| > cfg.mtu {
        Output(ptr, p, base);
        next, q := 0, Packing(Closed(p), []);
      }
      next := EncodeSeg(next, w);
      next := CopyPayload(next, w.data);
      EncodeAppend(q.cur, w);
      EmptyPacket(q.cur);
      assert [] + [w] == [w];
      q := Packing(q.done, q.cur + [w]);
    }

    /* -------------------------------------------------------------- flush: its sections */

    /** The fields that stamp outgoing segments are those of `e`. */
    predicate Stamped(e: Endpoint)
      reads this
    {
      cfg == e.cfg && clock == e.clock && rtt == e.rtt && rmtWnd == e.rmtWnd
      && rcvNxt == e.rcv.nxt && rcvQueue == e.rcv.queue
    }

    /** A segment without payload. */
    function Header(cmd: nat, sn: Word, ts: Word): Wire
      reads this
    {
      Wire(cfg.conv, cmd, 0, if nrcvQue < cfg.rcvWnd then cfg.rcvWnd - nrcvQue else 0, ts, sn, rcvNxt, [])
    }

    method FlushAck(i: nat, ptr: nat, ghost e: Endpoint, ghost p: Packing, ghost base: seq<bytes>)
      returns (next: nat, sn: Word, ts: Word, ghost q: Packing)
      requires Shape() && Stamped(e) && RcvView() == e.rcv && OVERHEAD <= cfg.mtu && i < ackcount
      requires Pending(p, ptr, base) && ptr <= cfg.mtu
      modifies this`output, buffer
      ensures Shape() && Pending(q, next, base) && next <= cfg.mtu
      ensures i < |e.rcv.acks| && Ack(sn, ts) == e.rcv.acks[i] && q == PackOne(cfg.mtu, p, AckSegments(e)[i])
    {
      hide EncodePacket, PackOne, Pending;
      sn, ts := acklist[2 * i], acklist[2 * i + 1];
      next, q := Append(ptr, Header(CMD_ACK, sn, ts), p, base);
    }

    /** Sends the pending acknowledgements; returns what the last one leaves in the segment. */
    method FlushAcks(ghost e: Endpoint) returns (ptr: nat, sn: Word, ts: Word, ghost p: Packing)
      requires Shape() && Stamped(e) && RcvView() == e.rcv && OVERHEAD <= cfg.mtu
      modifies this`output, this`ackcount, buffer
      ensures Shape() && ackcount == 0 && p == Pack(cfg.mtu, Packing([], []), AckSegments(e))
      ensures Pending(p, ptr, old(output)) && ptr <= cfg.mtu
      ensures Ack(sn, ts) == if e.rcv.acks == [] then Ack(0, 0) else e.rcv.acks[|e.rcv.acks| - 1]
    {
      hide EncodePacket, PackOne, AckSegments, Pack;
      ptr, sn, ts, p := 0, 0, 0, Packing([], []);
      ghost var segs, base := AckSegments(e), output;
      EmptyPacket([]);
      PackNothing(cfg.mtu, p);
      assert segs[..0] == [];
      for i := 0 to ackcount
        invariant Shape() && Stamped(e) && RcvView() == e.rcv && |segs| == ackcount
        invariant acklist == old(acklist) && ackcount == old(ackcount)
        invariant p == Pack(cfg.mtu, Packing([], []), segs[..i])
        invariant Pending(p, ptr, base) && ptr <= cfg.mtu
        invariant Ack(sn, ts) == if i == 0 then Ack(0, 0) else e.rcv.acks[i - 1]
      {
        ptr, sn, ts, p := FlushAck(i, ptr, e, p, base);
        PackSnoc(cfg.mtu, Packing([], []), segs[..i], segs[i]);
        assert segs[..i] + [segs[i]] == segs[..i + 1];
      }
      assert segs[..ackcount] == segs;
      ackcount := 0;
    }

    /** Decides whether to probe a closed window. */
    method ProbeWindow()
      modifies this`probe
      ensures probe == ProbeTick(old(probe), rmtWnd, clock.current)
    {
      if rmtWnd == 0 {
        if probe.wait == 0 {
          probe := probe.(wait := PROBE_INIT);
          probe := probe.(ts := Wrap(clock.current + probe.wait));
        } else if TimeDiff(clock.current, probe.ts) >= 0 {
          if probe.wait < PROBE_INIT {
            probe := probe.(wait := PROBE_INIT);
          }
          probe := probe.(wait := Wrap(probe.wait + probe.wait / 2));
          if probe.wait > PROBE_LIMIT {
            probe := probe.(wait := PROBE_LIMIT);
          }
          probe := probe.(ts := Wrap(clock.current + probe.wait), ask := true);
        }
      } else {
        probe := probe.(ts := 0, wait := 0);
      }
    }

    /** Sends the probes. */
    method FlushProbes(ptr: nat, sn: Word, ts: Word, ghost e: Endpoint, ghost p: Packing, ghost base: seq<bytes>)
      returns (next: nat, ghost q: Packing)
      requires Shape() && Stamped(e) && OVERHEAD <= cfg.mtu && Pending(p, ptr, base) && ptr <= cfg.mtu
      requires probe == ProbeTick(e.probe, e.rmtWnd, e.clock.current)
      requires Ack(sn, ts) == if e.rcv.acks == [] then Ack(0, 0) else e.rcv.acks[|e.rcv.acks| - 1]
      modifies this`output, this`probe, buffer
      ensures Shape() && q == Pack(cfg.mtu, p, ProbeSegments(e)) && Pending(q, next, base) && next <= cfg.mtu
      ensures probe == old(probe).(ask := false, tell := false)
    {
      hide PackOne, EncodePacket, ProbeTick;
      next, q := ptr, p;
      PackNothing(cfg.mtu, p);
      ghost var ask: seq<Wire> := [];
      if probe.ask {
        ask := [Header(CMD_WASK, sn, ts)];
        PackSnoc(cfg.mtu, p, [], ask[0]);
        next, q := Append(next, Header(CMD_WASK, sn, ts), q, base);
      }
      assert [] + ask == ask;
      if probe.tell {
        PackSnoc(cfg.mtu, p, ask, Header(CMD_WINS, sn, ts));
        next, q := Append(next, Header(CMD_WINS, sn, ts), q, base);
      }
      assert ask + [] == ask;
      probe := probe.(ask := false, tell := false);
    }

    /** The first segment of `snd_queue` gets its number. */
    method MoveOne(ghost e: Endpoint)
      requires Shape() && Stamped(e) && sndQueue != []
      modifies this`sndQueue, this`nsndQue, this`sndBuf, this`nsndBuf, this`sndNxt
      ensures Shape() && SndView() == PromoteOne(Bits32, e, old(SndView()))
    {
      hide Wrap;
      var f := sndQueue[0];
      var wnd := if nrcvQue < cfg.rcvWnd then cfg.rcvWnd - nrcvQue else 0;
      var seg := SndSeg(Wire(cfg.conv, CMD_PUSH, f.frg, wnd, clock.current, sndNxt, rcvNxt, f.data),
                        clock.current, Wrap(rtt.rto), 0, 0);
      sndQueue := sndQueue[1..];
      nsndQue := nsndQue - 1;
      sndBuf := sndBuf + [seg];
      nsndBuf := nsndBuf + 1;
      sndNxt := Wrap(sndNxt + 1);
    }

    /** Moves segments from `snd_queue` to `snd_buf`. */
    method MoveQueue(window: nat, ghost e: Endpoint)
      requires Shape() && Stamped(e)
      modifies this`sndQueue, this`nsndQue, this`sndBuf, this`nsndBuf, this`sndNxt
      ensures Shape() && SndView() == Promote(Bits32, e, old(SndView()), window)
    {
      hide Promote, PromoteOne, TimeDiff, Wrap;
      while TimeDiff(sndNxt, Wrap(sndUna + window)) < 0
        invariant Shape()
        invariant Promote(Bits32, e, SndView(), window) == Promote(Bits32, e, old(SndView()), window)
        decreases |sndQueue|
      {
        PromoteTurn(e, SndView(), window);
        if sndQueue == [] {
          break;
        }
        MoveOne(e);
      }
      PromoteTurn(e, SndView(), window);
    }

    /** One segment in the transmission loop: decides whether it is due, and prepares it. */
    method Transmit(seg: SndSeg, resent: Word, rtomin: int, ghost e: Endpoint) returns (r: SndSeg, due: Due)
      requires Shape() && Stamped(e) && resent == Resent(cfg) && rtomin == if cfg.nodelay == 0 then rtt.rto / 8 else 0
      modifies this`xmit
      ensures r == Tick(e, seg) && due == DueFor(e, seg)
      ensures xmit == if due == Timeout then Wrap(old(xmit) + 1) else old(xmit)
    {
      hide TimeDiff, Wrap, Signed;
      r, due := seg, NotDue;
      var now := clock.current;
      if seg.xmit == 0 {
        due := First;
        r := r.(xmit := 1, rto := Wrap(rtt.rto));
        r := r.(resendts := Wrap(now + r.rto + rtomin));
      } else if TimeDiff(now, seg.resendts) >= 0 {
        due := Timeout;
        xmit := Wrap(xmit + 1);
        r := r.(xmit := Wrap(r.xmit + 1));
        if cfg.nodelay == 0 {
          r := r.(rto := Wrap(r.rto + Max(r.rto, Wrap(rtt.rto))));
        } else {
          var step := if cfg.nodelay < 2 then Signed(r.rto) else rtt.rto;
          r := r.(rto := Wrap(r.rto + TruncDiv(step, 2)));
        }
        r := r.(resendts := Wrap(now + r.rto));
      } else if seg.fastack >= resent {
        if Signed(seg.xmit) <= cfg.fastlimit || cfg.fastlimit <= 0 {
          due := Fast;
          r := r.(xmit := Wrap(r.xmit + 1), fastack := 0, resendts := Wrap(now + r.rto));
        }
      }
      if due != NotDue {
        var wnd := if nrcvQue < cfg.rcvWnd then cfg.rcvWnd - nrcvQue else 0;
        r := r.(w := r.w.(ts := now, wnd := wnd, una := rcvNxt));
      }
    }

    /** One turn of the transmission loop. */
    method FlushOne(i: nat, ptr: nat, resent: Word, rtomin: int,
                    ghost e: Endpoint, ghost p: Packing, ghost base: seq<bytes>)
      returns (next: nat, due: Due, ghost q: Packing)
      requires Shape() && Stamped(e) && Pending(p, ptr, base) && ptr <= cfg.mtu
      requires resent == Resent(cfg) && rtomin == if cfg.nodelay == 0 then rtt.rto / 8 else 0
      requires i < |sndBuf| && Size(sndBuf[i].w) <= cfg.mtu
      modifies this`output, this`sndBuf, this`xmit, this`state, buffer
      ensures Shape() && Pending(q, next, base) && next <= cfg.mtu
      ensures var s, t := old(sndBuf)[i], Tick(e, old(sndBuf)[i]);
              && due == DueFor(e, s) && sndBuf == old(sndBuf)[i := t]
              && q == (if due == NotDue then p else PackOne(cfg.mtu, p, t.w))
              && state == (if due != NotDue && t.xmit >= cfg.deadLink then 0xffff_ffff else old(state))
      ensures xmit == if due == Timeout then Wrap(old(xmit) + 1) else old(xmit)
    {
      hide PackOne, EncodePacket, Tick, DueFor, Wrap, Pending;
      next, q := ptr, p;
      var seg;
      TickSame(e, sndBuf[i]);
      seg, due := Transmit(sndBuf[i], resent, rtomin, e);
      sndBuf := sndBuf[i := seg];
      if due != NotDue {
        next, q := Append(next, seg.w, q, base);
        if seg.xmit >= cfg.deadLink {
          state := 0xffff_ffff;
        }
      }
    }

    /** The transmission loop. */
    method FlushData(ptr: nat, ghost e: Endpoint, ghost p: Packing, ghost base: seq<bytes>)
      returns (next: nat, change: nat, lost: bool, ghost q: Packing)
      requires Shape() && Stamped(e) && Pending(p, ptr, base) && ptr <= cfg.mtu
      requires forall s | s in sndBuf :: Size(s.w) <= cfg.mtu
      modifies this`output, this`sndBuf, this`xmit, this`state, buffer
      ensures Shape() && sndBuf == TickAll(e, old(sndBuf)) && Pending(q, next, base)
      ensures var t := Summary(e, old(sndBuf), cfg.mtu, p, old(xmit), old(state) == 0xffff_ffff);
              t == Tally(q, change, t.timeouts, xmit, state == 0xffff_ffff) && (lost <==> t.timeouts > 0)
    {
      hide PackOne, EncodePacket, Tick, DueFor, Wrap, Pending, Turn, TickAll, Summary;
      next, change, lost, q := ptr, 0, false, p;
      var resent := if cfg.fastresend > 0 then cfg.fastresend else 0xffff_ffff;
      var rtomin := if cfg.nodelay == 0 then rtt.rto / 8 else 0;
      var buf := sndBuf;
      ghost var start := Tally(p, 0, 0, xmit, state == 0xffff_ffff);
      ghost var tally := start;
      TurnStart(e, buf, cfg.mtu, start);
      for i := 0 to |buf|
        invariant Shape() && Stamped(e) && next <= cfg.mtu && Pending(q, next, base)
        invariant Turn(e, buf, i, cfg.mtu, start, sndBuf, tally)
        invariant tally == Tally(q, change, tally.timeouts, xmit, state == 0xffff_ffff)
        invariant lost <==> tally.timeouts > 0
      {
        TurnStep(e, buf, i, cfg.mtu, start, sndBuf, tally);
        assert buf[i] in old(sndBuf);
        var due;
        next, due, q := FlushOne(i, next, resent, rtomin, e, q, base);
        tally := Counted(tally, cfg, Tick(e, buf[i]), due, cfg.mtu);
        if due == Timeout {
          lost := true;
        } else if due == Fast {
          change := change + 1;
        }
      }
      TurnEnd(e, buf, cfg.mtu, start, sndBuf, tally);
    }

    /** The congestion window after the transmissions of a flush. */
    method ShrinkWindow(change: nat, lost: bool, window: nat)
      modifies this`cong
      ensures cong == Backed(old(cong), cfg, Wrap(sndNxt - sndUna), window, change > 0, lost)
    {
      if change > 0 {
        var inflight := Wrap(sndNxt - sndUna);
        var ssthresh := Wrap(Max(inflight / 2, THRESH_MIN));
        var resent := if cfg.fastresend > 0 then cfg.fastresend else 0xffff_ffff;
        cong := cong.(ssthresh := ssthresh, cwnd := Wrap(ssthresh + resent));
        cong := cong.(incr := Wrap(cong.cwnd * cfg.mss));
      }
      if lost {
        cong := Cong(1, Wrap(cfg.mss), Wrap(Max(window / 2, THRESH_MIN)));
      }
      if cong.cwnd < 1 {
        cong := cong.(cwnd := 1, incr := Wrap(cfg.mss));
      }
    }

    /** The first half of `ikcp_flush`: acknowledgements and probes. */
    method FlushControls(ghost e: Endpoint) returns (ptr: nat, ghost p: Packing)
      requires Shape() && View() == e && OVERHEAD <= cfg.mtu
      modifies this`output, this`ackcount, this`probe, buffer
      ensures Shape() && ackcount == 0 && ptr <= cfg.mtu
      ensures p == Pack(cfg.mtu, Packing([], []), AckSegments(e) + ProbeSegments(e)) && Pending(p, ptr, old(output))
      ensures probe == ProbeTick(e.probe, e.rmtWnd, e.clock.current).(ask := false, tell := false)
    {
      hide Pack, ProbeTick, AckSegments, ProbeSegments, EncodePacket, Pending, AckPairs;
      ghost var base := output;
      var sn, ts;
      ptr, sn, ts, p := FlushAcks(e);
      ProbeWindow();
      ptr, p := FlushProbes(ptr, sn, ts, e, p, base);
      PackConcat(cfg.mtu, Packing([], []), AckSegments(e), ProbeSegments(e));
    }

    /** The second half: data, and the congestion window. */
    method FlushWindow(ptr: nat, ghost e: Endpoint, ghost p: Packing, ghost base: seq<bytes>)
      requires Shape() && Stamped(e) && SndView() == e.snd && cong == e.cong && Pending(p, ptr, base) && ptr <= cfg.mtu
      requires forall s | s in Promote(Bits32, e, e.snd, Window(e)).buf :: Size(s.w) <= cfg.mtu
      modifies this`output, this`cong, this`xmit, this`state, buffer
      modifies this`sndQueue, this`nsndQue, this`sndBuf, this`nsndBuf, this`sndNxt
      ensures Shape()
      ensures var snd := Promote(Bits32, e, e.snd, Window(e));
              var t := Summary(e, snd.buf, cfg.mtu, p, old(xmit), old(state) == 0xffff_ffff);
              && SndView() == snd.(buf := TickAll(e, snd.buf)) && output == base + EncodeAll(Closed(t.p))
              && xmit == t.xmit && (state == 0xffff_ffff) == t.dead
              && cong == Backed(e.cong, cfg, Wrap(snd.nxt - snd.una), Window(e), t.change > 0, t.timeouts > 0)
    {
      hide Promote, TickAll, Summary, Closed, Backed, Pending, Wrap, EncodeAll;
      var window := Min(cfg.sndWnd, rmtWnd);
      if !cfg.nocwnd {
        window := Min(cong.cwnd, window);
      }
      MoveQueue(window, e);
      var next, change, lost;
      ghost var q;
      next, change, lost, q := FlushData(ptr, e, p, base);
      Output(next, q, base);
      ShrinkWindow(change, lost, window);
    }

    /** The body of `ikcp_flush`. */
    method FlushSections(ghost e: Endpoint) returns (ghost t: Tally, ghost snd: Snd)
      requires Shape() && View() == e && OVERHEAD <= cfg.mtu
      requires forall s | s in Promote(Bits32, e, e.snd, Window(e)).buf :: Size(s.w) <= cfg.mtu
      modifies this`output, this`ackcount, this`probe, this`cong, this`xmit, this`state, buffer
      modifies this`sndQueue, this`nsndQue, this`sndBuf, this`nsndBuf, this`sndNxt
      ensures Shape() && ackcount == 0 && snd == Promote(Bits32, e, e.snd, Window(e))
      ensures t == Summary(e, snd.buf, cfg.mtu, Pack(cfg.mtu, Packing([], []), AckSegments(e) + ProbeSegments(e)),
                           e.xmit, e.dead)
      ensures SndView() == snd.(buf := TickAll(e, snd.buf)) && output == old(output) + EncodeAll(Closed(t.p))
      ensures xmit == t.xmit && (state == 0xffff_ffff) == t.dead
      ensures probe == ProbeTick(e.probe, e.rmtWnd, e.clock.current).(ask := false, tell := false)
      ensures cong == Backed(e.cong, cfg, Wrap(snd.nxt - snd.una), Window(e), t.change > 0, t.timeouts > 0)
    {
      hide Promote, TickAll, Summary, ProbeTick, Backed, Wrap, Pack, Closed, Pending, EncodeAll, AckSegments,
           ProbeSegments;
      ghost var base := output;
      var ptr;
      ghost var p;
      ptr, p := FlushControls(e);
      snd := Promote(Bits32, e, e.snd, Window(e));
      t := Summary(e, snd.buf, cfg.mtu, p, e.xmit, e.dead);
      FlushWindow(ptr, e, p, base);
    }

    /** `ikcp_flush`. */
    method Flush()
      requires Valid()
      modifies this`output, this`ackcount, this`probe, this`cong, this`xmit, this`state, buffer
      modifies this`sndQueue, this`nsndQue, this`sndBuf, this`nsndBuf, this`sndNxt
      ensures Valid()
      ensures var r := Endpoints.Flush(Bits32, old(View()));
              View() == r.e && output == old(output) + EncodeAll(Packets(cfg.mtu, r.segs))
    {
      hide EndpointInv, Endpoints.Flush, Promote, TickAll, Summary, ProbeTick, Backed, Packets, Wrap, Pack, Closed,
           EncodeAll, AckSegments, ProbeSegments;
      ghost var e := View();
      FlushKeeps(Bits32, e);
      FlushBounds(e);
      if clock.updated {
        ghost var t, snd := FlushSections(e);
        NoAcks(acklist[..]);
        FlushResult(e, View(), snd, t);
      } else {
        NoPackets(e);
        assert output + [] == output;
      }
    }

    /* -------------------------------------------------------------- update, check */

    /** The clock arithmetic of `ikcp_update`. */
    method Advance(now: Word) returns (due: bool)
      modifies this`clock
      ensures (clock, due) == Endpoints.Advance(old(clock), cfg.interval, now)
    {
      hide TimeDiff, Wrap;
      clock := clock.(current := now);
      if !clock.updated {
        clock := clock.(updated := true, tsFlush := now);
      }
      var slap := TimeDiff(now, clock.tsFlush);
      if slap >= 10000 || slap < -10000 {
        clock := clock.(tsFlush := now);
        slap := 0;
      }
      due := slap >= 0;
      if due {
        clock := clock.(tsFlush := Wrap(clock.tsFlush + cfg.interval));
        if TimeDiff(now, clock.tsFlush) >= 0 {
          clock := clock.(tsFlush := Wrap(now + cfg.interval));
        }
      }
    }

    /** `ikcp_update`. */
    method Update(now: Word)
      requires Valid()
      modifies this, buffer
      ensures Valid() && acklist == old(acklist) && buffer == old(buffer)
      ensures var r := Endpoints.Update(Bits32, old(View()), now);
              View() == r.e && output == old(output) + EncodeAll(Packets(old(cfg).mtu, r.segs))
    {
      hide Endpoints.Flush, Endpoints.Advance, Packets, SndInv, RcvInv, SndView, RcvView;
      ghost var e := View();
      var due := Advance(now);
      assert View() == e.(clock := clock);
      if due {
        Flush();
      } else {
        NoPackets(e);
        assert output + [] == output;
      }
    }

    /** `ikcp_check`. */
    method Check(now: Word) returns (t: Word)
      requires Shape()
      ensures t == Endpoints.Check(View(), now)
    {
      hide TimeDiff, Wrap;
      if !clock.updated {
        return now;
      }
      var tsFlush := clock.tsFlush;
      if TimeDiff(now, tsFlush) >= 10000 || TimeDiff(now, tsFlush) < -10000 {
        return now;
      }
      if TimeDiff(now, tsFlush) >= 0 {
        return now;
      }
      var tmFlush := TimeDiff(tsFlush, now);
      var tmPacket := 0x7fff_ffff;
      assert sndBuf[0..] == sndBuf;
      for p := 0 to |sndBuf|
        invariant SoonestResend(sndBuf[p..], now, tmPacket) == SoonestResend(sndBuf, now, 0x7fff_ffff)
        invariant tmPacket > 0
      {
        assert sndBuf[p..][1..] == sndBuf[p + 1..];
        var diff := TimeDiff(sndBuf[p].resendts, now);
        SoonestAtMost(sndBuf[p + 1..], now, Min(tmPacket, diff));
        if diff <= 0 {
          return now;
        }
        if diff < tmPacket {
          tmPacket := diff;
        }
      }
      var minimal := if tmPacket < tmFlush then tmPacket else tmFlush;
      if minimal >= cfg.interval {
        minimal := cfg.interval;
      }
      return Wrap(now + minimal);
    }

    /* -------------------------------------------------------------- settings */

    /** `Kcp::pop_output`. */
    method PopOutput() returns (packet: Option<bytes>)
      requires Valid()
      modifies this`output
      ensures Valid() && View() == old(View())
      ensures packet.None? <==> old(output) == []
      ensures if packet.Some? then [packet.value] + output == old(output) else output == []
    {
      hide EndpointInv;
      if output == [] {
        return None;
      }
      packet := Some(output[0]);
      output := output[1..];
    }

    /** `Kcp::set_conv`. */
    method SetConv(conv: Word)
      requires Valid()
      modifies this`cfg
      ensures Valid() && View() == old(View()).(cfg := old(cfg).(conv := conv))
    {
      SettingsKeep(View(), cfg.(conv := conv));
      hide EndpointInv;
      cfg := cfg.(conv := conv);
    }

    /** Nothing queued or unacknowledged is larger than `mss`. */
    predicate DataFits(mss: nat)
      reads this
    {
      && (forall i | 0 <= i < |sndQueue| :: |sndQueue[i].data| <= mss)
      && (forall i | 0 <= i < |sndBuf| :: |sndBuf[i].w.data| <= mss)
    }

    /** `Kcp::set_stream`. */
    method SetStream(stream: bool)
      requires Valid()
      modifies this`cfg
      ensures Valid() && View() == old(View()).(cfg := old(cfg).(stream := stream))
    {
      SettingsKeep(View(), cfg.(stream := stream));
      hide EndpointInv;
      cfg := cfg.(stream := stream);
    }

    /** `ikcp_setmtu`. */
    method SetMtu(mtu: cint) returns (code: int)
      requires Valid() && (mtu >= 50 ==> DataFits(mtu - OVERHEAD))
      modifies this`cfg, this`buffer
      ensures Valid() && (buffer == old(buffer) || fresh(buffer))
      ensures code == (if mtu < 50 then -1 else 0)
      ensures View() == old(View()).(cfg := if mtu < 50 then old(cfg) else old(cfg).(mtu := mtu, mss := mtu - OVERHEAD))
    {
      hide SndInv, RcvInv;
      if mtu < 50 || mtu < OVERHEAD {
        return -1;
      }
      buffer := new byte[(mtu + OVERHEAD) * 3](_ => 0);
      cfg := cfg.(mtu := mtu, mss := mtu - OVERHEAD);
      code := 0;
    }

    /** What has arrived fits a receive window of `wnd`, and none of it would have been moved on with that. */
    predicate ReceivedFits(wnd: nat)
      reads this
    {
      |rcvQueue| <= wnd && (rcvBuf == [] || (cfg.rcvWnd <= wnd && |rcvQueue| < cfg.rcvWnd))
    }

    /** `ikcp_wndsize`: the receive window is at least the largest fragment count. */
    method WndSize(sndwnd: cint, rcvwnd: cint)
      requires Valid() && (sndwnd > 0 ==> TimeDiff(sndNxt, sndUna) <= sndwnd)
      requires rcvwnd > 0 ==> 2 * rcvwnd < TWO31 - 65536 && ReceivedFits(Max(rcvwnd, WND_RCV))
      modifies this`cfg
      ensures Valid()
      ensures View() == old(View()).(cfg := old(cfg).(
                          sndWnd := if sndwnd > 0 then sndwnd else old(cfg).sndWnd,
                          rcvWnd := if rcvwnd > 0 then Max(rcvwnd, WND_RCV) else old(cfg).rcvWnd))
    {
      if sndwnd > 0 {
        cfg := cfg.(sndWnd := sndwnd);
      }
      if rcvwnd > 0 {
        cfg := cfg.(rcvWnd := Max(rcvwnd, WND_RCV));
      }
    }

    /** The settings `ikcp_nodelay` arrives at, one argument after the other. */
    method NewSettings(nodelay: cint, interval: cint, resend: cint, nc: cint) returns (c: Config)
      ensures c == Endpoints.NoDelay(cfg, nodelay, interval, resend, nc)
    {
      c := cfg;
      if nodelay >= 0 {
        c := c.(nodelay := nodelay, minrto := if nodelay != 0 then RTO_NDL else RTO_MIN);
      }
      assert c == Endpoints.NoDelay(cfg, nodelay, -1, -1, -1);
      if interval >= 0 {
        c := c.(interval := if interval > 5000 then 5000 else if interval < 10 then 10 else interval);
      }
      assert c == Endpoints.NoDelay(cfg, nodelay, interval, -1, -1);
      if resend >= 0 {
        c := c.(fastresend := resend);
      }
      assert c == Endpoints.NoDelay(cfg, nodelay, interval, resend, -1);
      if nc >= 0 {
        c := c.(nocwnd := nc != 0);
      }
    }

    /** `ikcp_nodelay`; negative arguments keep a setting. */
    method NoDelay(nodelay: cint, interval: cint, resend: cint, nc: cint)
      requires Valid()
      modifies this`cfg
      ensures Valid() && View() == old(View()).(cfg := Endpoints.NoDelay(old(cfg), nodelay, interval, resend, nc))
    {
      hide SndInv, RcvInv;
      SettingsKeep(View(), Endpoints.NoDelay(cfg, nodelay, interval, resend, nc));
      hide EndpointInv;
      cfg := NewSettings(nodelay, interval, resend, nc);
    }
  }

  /** One step of a walk over the first message of a queue. */
  lemma SpanFrom(queue: seq<Wire>, p: nat)
    requires p <= |queue|
    ensures queue[0..] == queue
    ensures p == |queue| ==> MessageSpan(queue[p..]) == 0 && Payload(queue[p..][..0]) == [] && queue[p..][..0] == []
    ensures p < |queue| ==>
              var rest, next := queue[p..], queue[p + 1..];
              && rest[1..] == next
              && MessageSpan(rest) == (if rest[0].frg == 0 then 1 else 1 + MessageSpan(next))
              && Payload(rest[..MessageSpan(rest)]) ==
                 rest[0].data + (if rest[0].frg == 0 then [] else Payload(next[..MessageSpan(next)]))
  {
    if p < |queue| {
      var rest := queue[p..];
      var n := MessageSpan(rest);
      assert rest[..n][1..] == rest[1..][..n - 1];
      assert rest[1..] == queue[p + 1..];
    }
  }

  lemma NoExtension(cfg: Config, queue: seq<Frag>, data: bytes)
    ensures !cfg.stream ==> Extension(cfg, queue, data) == 0 && Extend(cfg, queue, data) == queue
  {
  }
}
