/**
  What one KCP endpoint does, as functions on its control block. Every function that touches a
  sequence number takes the arithmetic it runs on; clocks, timeouts, the congestion window and
  the retransmission counters are 32-bit words in both.
*/
module Endpoints {
  import opened Serial
  import opened WireFormat

  const RTO_MAX := 60000
  const RTO_NDL := 30
  const RTO_MIN := 100
  const RTO_DEF := 200
  const WND_SND := 32
  const WND_RCV := 256
  const MTU_DEF := 1400
  const INTERVAL := 100
  const DEADLINK := 20
  const THRESH_INIT := 2
  const THRESH_MIN := 2
  const PROBE_INIT := 7000
  const PROBE_LIMIT := 120000
  const FASTACK_LIMIT := 5

  type pos = x: int | 0 < x witness 1

  /** Settings; `mss` is `mtu - OVERHEAD`, and never 0. */
  datatype Config = Config(
    conv: Word, mtu: nat, mss: pos, sndWnd: Word, rcvWnd: Word, stream: bool,
    nodelay: nat, interval: Word, minrto: nat, fastresend: cint, fastlimit: int, nocwnd: bool, deadLink: Word)

  /** A segment that has no sequence number yet. */
  datatype Frag = Frag(frg: nat, data: bytes)

  /** A numbered segment waiting for its acknowledgement. */
  datatype SndSeg = SndSeg(w: Wire, resendts: Word, rto: Word, fastack: Word, xmit: Word)

  datatype Ack = Ack(sn: nat, ts: Word)

  datatype Snd = Snd(una: nat, nxt: nat, queue: seq<Frag>, buf: seq<SndSeg>)
  datatype Rcv = Rcv(nxt: nat, queue: seq<Wire>, buf: seq<Wire>, acks: seq<Ack>)
  datatype Rtt = Rtt(srtt: int, rttval: int, rto: int)
  datatype Cong = Cong(cwnd: Word, incr: Word, ssthresh: Word)
  datatype Probe = Probe(ask: bool, tell: bool, ts: Word, wait: Word)
  datatype Clock = Clock(current: Word, tsFlush: Word, updated: bool)

  datatype Endpoint = Endpoint(
    cfg: Config, snd: Snd, rcv: Rcv, rmtWnd: nat, rtt: Rtt, cong: Cong, probe: Probe, clock: Clock,
    xmit: Word, dead: bool)

  /** `ikcp_create`. */
  function Created(conv: Word): Endpoint {
    Endpoint(
      Config(conv, MTU_DEF, MTU_DEF - OVERHEAD, WND_SND, WND_RCV, false, 0, INTERVAL, RTO_MIN, 0, FASTACK_LIMIT, false,
             DEADLINK),
      Snd(0, 0, [], []), Rcv(0, [], [], []), WND_RCV, Rtt(0, 0, RTO_DEF), Cong(0, 0, THRESH_INIT),
      Probe(false, false, 0, 0), Clock(0, INTERVAL, false), 0, false)
  }

  /** `ikcp_nodelay`; negative arguments keep a setting. */
  function NoDelay(cfg: Config, nodelay: cint, interval: cint, resend: cint, nc: cint): Config {
    cfg.(nodelay := if nodelay >= 0 then nodelay else cfg.nodelay,
         minrto := if nodelay > 0 then RTO_NDL else if nodelay == 0 then RTO_MIN else cfg.minrto,
         interval := if interval >= 0 then Bound(10, interval, 5000) else cfg.interval,
         fastresend := if resend >= 0 then resend else cfg.fastresend,
         nocwnd := if nc >= 0 then nc != 0 else cfg.nocwnd)
  }

  /* ---------------------------------------------------------------- ikcp_send */

  /** `taken` is the part of the data that is now queued, whatever the result code. */
  datatype SendResult = SendResult(code: int, queue: seq<Frag>, taken: bytes)

  /** `count` segments of at most `mss` bytes, numbered `count - 1` down to 0 (all 0 in stream mode). */
  function Fragments(mss: nat, stream: bool, data: bytes, count: nat): (r: seq<Frag>)
    ensures |r| == count
    decreases count
  {
    if count == 0 then [] else
      var size := if |data| > mss then mss else |data|;
      [Frag(if stream then 0 else count - 1, data[..size])] + Fragments(mss, stream, data[size..], count - 1)
  }

  /** How many segments `ikcp_send` makes of `len` bytes. */
  function FragmentCount(mss: pos, len: nat): nat {
    if len <= mss then 1 else (len + mss - 1) / mss
  }

  /** How many bytes of `data` a stream-mode send adds to the last queued segment. */
  function Extension(cfg: Config, queue: seq<Frag>, data: bytes): (n: nat)
    ensures n <= |data|
  {
    if cfg.stream && queue != [] && |queue[|queue| - 1].data| < cfg.mss then
      var capacity := cfg.mss - |queue[|queue| - 1].data|;
      if |data| < capacity then |data| else capacity
    else 0
  }

  function Extend(cfg: Config, queue: seq<Frag>, data: bytes): seq<Frag> {
    if cfg.stream && queue != [] && |queue[|queue| - 1].data| < cfg.mss then
      queue[..|queue| - 1] + [Frag(0, queue[|queue| - 1].data + data[..Extension(cfg, queue, data)])]
    else queue
  }

  function Send(cfg: Config, queue: seq<Frag>, data: bytes): SendResult {
    var n := Extension(cfg, queue, data);
    var extended := Extend(cfg, queue, data);
    var left := data[n..];
    if cfg.stream && left == [] then SendResult(0, extended, data)
    else
      var count := FragmentCount(cfg.mss, |left|);
      if count >= WND_RCV then SendResult(-2, extended, data[..n])
      else SendResult(0, extended + Fragments(cfg.mss, cfg.stream, left, count), data)
  }

  /* ---------------------------------------------------------------- ikcp_recv, ikcp_peeksize */

  /** How many segments of the queue the merge loop of `ikcp_recv` runs over. */
  function MessageSpan(queue: seq<Wire>): (n: nat)
    ensures n <= |queue|
  {
    if queue == [] then 0 else if queue[0].frg == 0 then 1 else 1 + MessageSpan(queue[1..])
  }

  function Payload(queue: seq<Wire>): bytes {
    if queue == [] then [] else queue[0].data + Payload(queue[1..])
  }

  function PeekSize(queue: seq<Wire>): int {
    if queue == [] then -1
    else if queue[0].frg == 0 then |queue[0].data|
    else if |queue| < queue[0].frg + 1 then -1
    else |Payload(queue[..MessageSpan(queue)])|
  }

  /** Moves the consecutive segments at the front of `rcv_buf` to `rcv_queue` while it has room. */
  function Drain(ar: Arith, wnd: nat, r: Rcv): Rcv
    decreases |r.buf|
  {
    if r.buf != [] && r.buf[0].sn == r.nxt && |r.queue| < wnd then
      Drain(ar, wnd, r.(nxt := ar.Norm(r.nxt + 1), queue := r.queue + [r.buf[0]], buf := r.buf[1..]))
    else r
  }

  /** `recover`: the window was closed and is open again. */
  datatype QueueResult = QueueResult(code: int, data: bytes, rcv: Rcv, recover: bool)

  /** `len` is the room in the caller's buffer; a negative one asks to peek. */
  function RecvQueue(ar: Arith, wnd: nat, r: Rcv, len: int): QueueResult {
    if r.queue == [] then QueueResult(-1, [], r, false)
    else if PeekSize(r.queue) < 0 then QueueResult(-2, [], r, false)
    else if PeekSize(r.queue) > (if len < 0 then -len else len) then QueueResult(-3, [], r, false)
    else
      var span := MessageSpan(r.queue);
      var data := Payload(r.queue[..span]);
      var r' := Drain(ar, wnd, if len < 0 then r else r.(queue := r.queue[span..]));
      QueueResult(|data|, data, r', |r.queue| >= wnd && |r'.queue| < wnd)
  }

  datatype RecvResult = RecvResult(code: int, data: bytes, e: Endpoint)

  /** `ikcp_recv`. */
  function Recv(ar: Arith, e: Endpoint, len: int): RecvResult {
    var r := RecvQueue(ar, e.cfg.rcvWnd, e.rcv, len);
    RecvResult(r.code, r.data, e.(rcv := r.rcv, probe := e.probe.(tell := e.probe.tell || r.recover)))
  }

  /* ---------------------------------------------------------------- ikcp_input */

  /** `ikcp_update_ack`. Signed 32-bit arithmetic wraps. */
  function UpdateAck(cfg: Config, t: Rtt, rtt: int): Rtt {
    var first := t.srtt == 0;
    var gap := Signed(rtt - t.srtt);
    var delta := if gap < 0 then -gap else gap;
    var rttval := if first then TruncDiv(rtt, 2) else Signed(TruncDiv(Signed(3 * t.rttval) + delta, 4));
    var avg := TruncDiv(Signed(Signed(7 * t.srtt) + rtt), 8);
    var srtt := if first then rtt else if avg < 1 then 1 else avg;
    var rto := Wrap(srtt + Max(cfg.interval, Wrap(4 * rttval)));
    Rtt(srtt, rttval, Bound(cfg.minrto, rto, RTO_MAX))
  }

  function ParseUna(ar: Arith, buf: seq<SndSeg>, una: nat): seq<SndSeg> {
    if buf != [] && ar.Diff(una, buf[0].w.sn) > 0 then ParseUna(ar, buf[1..], una) else buf
  }

  /** `ikcp_shrink_buf`. */
  function Shrink(s: Snd): Snd {
    s.(una := if s.buf == [] then s.nxt else s.buf[0].w.sn)
  }

  predicate InFlight(ar: Arith, s: Snd, sn: nat) {
    ar.Diff(sn, s.una) >= 0 && ar.Diff(sn, s.nxt) < 0
  }

  function RemoveAcked(ar: Arith, buf: seq<SndSeg>, sn: nat): seq<SndSeg> {
    if buf == [] then []
    else if buf[0].w.sn == sn then buf[1..]
    else if ar.Diff(sn, buf[0].w.sn) < 0 then buf
    else [buf[0]] + RemoveAcked(ar, buf[1..], sn)
  }

  function ParseAck(ar: Arith, s: Snd, sn: nat): seq<SndSeg> {
    if InFlight(ar, s, sn) then RemoveAcked(ar, s.buf, sn) else s.buf
  }

  function BumpFastack(ar: Arith, buf: seq<SndSeg>, sn: nat): seq<SndSeg> {
    if buf == [] || ar.Diff(sn, buf[0].w.sn) < 0 then buf
    else
      var s := buf[0];
      [if s.w.sn == sn then s else s.(fastack := Wrap(s.fastack + 1))] + BumpFastack(ar, buf[1..], sn)
  }

  function ParseFastack(ar: Arith, s: Snd, sn: nat): seq<SndSeg> {
    if InFlight(ar, s, sn) then BumpFastack(ar, s.buf, sn) else s.buf
  }

  /** Insertion into `rcv_buf`, searched from its end; a duplicate is dropped. */
  function Insert(ar: Arith, buf: seq<Wire>, w: Wire): seq<Wire> {
    var n := |buf| - 1;
    if buf == [] then [w]
    else if buf[n].sn == w.sn then buf
    else if ar.Diff(w.sn, buf[n].sn) > 0 then buf + [w]
    else Insert(ar, buf[..n], w) + [buf[n]]
  }

  function ParseData(ar: Arith, wnd: nat, r: Rcv, w: Wire): Rcv {
    if ar.Diff(w.sn, ar.Norm(r.nxt + wnd)) >= 0 || ar.Diff(w.sn, r.nxt) < 0 then r
    else Drain(ar, wnd, r.(buf := Insert(ar, r.buf, w)))
  }

  /** The PUSH branch: acknowledge everything below the window's end, keep what is in the window. */
  function InputPush(ar: Arith, wnd: nat, r: Rcv, w: Wire): Rcv {
    if ar.Diff(w.sn, ar.Norm(r.nxt + wnd)) < 0 then
      var r1 := r.(acks := r.acks + [Ack(w.sn, w.ts)]);
      if ar.Diff(w.sn, r.nxt) >= 0 then ParseData(ar, wnd, r1, w) else r1
    else r
  }

  /** The `una` of any segment. */
  function InputUna(ar: Arith, s: Snd, una: nat): Snd {
    Shrink(s.(buf := ParseUna(ar, s.buf, una)))
  }

  function InputAck(ar: Arith, s: Snd, sn: nat): Snd {
    Shrink(s.(buf := ParseAck(ar, s, sn)))
  }

  /** The part of `ikcp_input` that depends on the command. */
  function Dispatch(ar: Arith, e: Endpoint, w: Wire): Endpoint {
    if w.cmd == CMD_ACK then
      var rtt := TimeDiff(e.clock.current, w.ts);
      e.(rtt := if rtt >= 0 then UpdateAck(e.cfg, e.rtt, rtt) else e.rtt, snd := InputAck(ar, e.snd, w.sn))
    else if w.cmd == CMD_PUSH then e.(rcv := InputPush(ar, e.cfg.rcvWnd, e.rcv, w))
    else if w.cmd == CMD_WASK then e.(probe := e.probe.(tell := true))
    else e
  }

  /** One segment of a packet. */
  function InputSegment(ar: Arith, e: Endpoint, w: Wire): Endpoint {
    Dispatch(ar, e.(rmtWnd := w.wnd, snd := InputUna(ar, e.snd, w.una)), w)
  }

  /** The latest acknowledged sequence number seen in a packet (`flag` and `maxack`). */
  datatype MaxAck = NoAck | MaxAck(sn: nat)

  function UpdateMaxAck(ar: Arith, m: MaxAck, w: Wire): MaxAck {
    if w.cmd != CMD_ACK then m
    else if m.NoAck? || ar.Diff(w.sn, m.sn) > 0 then MaxAck(w.sn)
    else m
  }

  /** What no segment of an incoming packet changes. */
  ghost predicate SameSettings(e: Endpoint, e': Endpoint) {
    && e'.cfg == e.cfg && e'.cong == e.cong && e'.clock == e.clock && e'.xmit == e.xmit && e'.dead == e.dead
    && e'.snd.nxt == e.snd.nxt && e'.snd.queue == e.snd.queue
  }

  function InputSegments(ar: Arith, e: Endpoint, ws: seq<Wire>): (r: Endpoint)
    ensures SameSettings(e, r)
    decreases |ws|
  {
    if ws == [] then e else InputSegments(ar, InputSegment(ar, e, ws[0]), ws[1..])
  }

  function FoldMaxAck(ar: Arith, m: MaxAck, ws: seq<Wire>): MaxAck
    decreases |ws|
  {
    if ws == [] then m else FoldMaxAck(ar, UpdateMaxAck(ar, m, ws[0]), ws[1..])
  }

  /** The additive growth of `incr` above `ssthresh`. */
  function Additive(incr: Word, mss: nat): Word {
    var base := if incr < mss then Wrap(mss) else incr;
    Wrap(base + (if base == 0 then 0 else Wrap(mss * mss) / base) + mss / 16)
  }

  /** Congestion window growth: by a segment below `ssthresh`, additively above it. */
  function Grown(c: Cong, mss: pos): Cong {
    if c.cwnd < c.ssthresh then c.(cwnd := Wrap(c.cwnd + 1), incr := Wrap(c.incr + mss))
    else
      var incr := Additive(c.incr, mss);
      c.(cwnd := if Wrap((c.cwnd + 1) * mss) <= incr then Wrap(Wrap(incr + mss - 1) / mss) else c.cwnd, incr := incr)
  }

  /** The window after a packet that moved `snd_una`. */
  function Grow(c: Cong, mss: pos, rmtWnd: nat): Cong {
    if c.cwnd >= rmtWnd then c
    else
      var c1 := Grown(c, mss);
      if c1.cwnd > rmtWnd then c1.(cwnd := Wrap(rmtWnd), incr := Wrap(rmtWnd * mss)) else c1
  }

  /** The end of `ikcp_input`, reached when the whole packet was well-formed. */
  function FinishInput(ar: Arith, e: Endpoint, prevUna: nat, m: MaxAck): Endpoint {
    var e1 := if m.NoAck? then e else e.(snd := e.snd.(buf := ParseFastack(ar, e.snd, m.sn)));
    if ar.Diff(e.snd.una, prevUna) > 0 then e1.(cong := Grow(e.cong, e.cfg.mss, e.rmtWnd)) else e1
  }

  function InputParsed(ar: Arith, e: Endpoint, p: Parsed): Endpoint {
    var e1 := InputSegments(ar, e, p.segs);
    if p.code == 0 then FinishInput(ar, e1, e.snd.una, FoldMaxAck(ar, NoAck, p.segs)) else e1
  }

  /** `ikcp_input` on a byte string: its result code and the new control block. */
  function InputCode(conv: Word, d: bytes): int {
    if |d| < OVERHEAD then -1 else Parse(conv, d).code
  }

  function Input(e: Endpoint, d: bytes): Endpoint {
    if |d| < OVERHEAD then e else InputParsed(Bits32, e, Parse(e.cfg.conv, d))
  }

  /* ---------------------------------------------------------------- ikcp_flush */

  function WndUnused(e: Endpoint): nat {
    if |e.rcv.queue| < e.cfg.rcvWnd then e.cfg.rcvWnd - |e.rcv.queue| else 0
  }

  /** A header-only segment; probes carry whatever the last acknowledgement left in `sn` and `ts`. */
  function Control(e: Endpoint, cmd: nat, a: Ack): Wire {
    Wire(e.cfg.conv, cmd, 0, WndUnused(e), a.ts, a.sn, e.rcv.nxt, [])
  }

  function AckSegments(e: Endpoint): (r: seq<Wire>)
    ensures |r| == |e.rcv.acks|
  {
    seq(|e.rcv.acks|, i requires 0 <= i < |e.rcv.acks| => Control(e, CMD_ACK, e.rcv.acks[i]))
  }

  function ProbeTick(p: Probe, rmtWnd: nat, current: Word): Probe {
    if rmtWnd != 0 then p.(ts := 0, wait := 0)
    else if p.wait == 0 then p.(wait := PROBE_INIT, ts := Wrap(current + PROBE_INIT))
    else if TimeDiff(current, p.ts) >= 0 then
      var wait := if p.wait < PROBE_INIT then PROBE_INIT else p.wait;
      var longer := Wrap(wait + wait / 2);
      var capped := if longer > PROBE_LIMIT then PROBE_LIMIT else longer;
      p.(wait := capped, ts := Wrap(current + capped), ask := true)
    else p
  }

  function ProbeSegments(e: Endpoint): seq<Wire> {
    var p := ProbeTick(e.probe, e.rmtWnd, e.clock.current);
    var a := if e.rcv.acks == [] then Ack(0, 0) else e.rcv.acks[|e.rcv.acks| - 1];
    (if p.ask then [Control(e, CMD_WASK, a)] else []) + (if p.tell then [Control(e, CMD_WINS, a)] else [])
  }

  /** The send window: the smallest of the local, the remote and (unless disabled) the congestion window. */
  function Window(e: Endpoint): nat {
    var w := Min(e.cfg.sndWnd, e.rmtWnd);
    if e.cfg.nocwnd then w else Min(e.cong.cwnd, w)
  }

  /** A segment entering `snd_buf`. */
  function Numbered(e: Endpoint, sn: nat, f: Frag): SndSeg {
    SndSeg(Wire(e.cfg.conv, CMD_PUSH, f.frg, WndUnused(e), e.clock.current, sn, e.rcv.nxt, f.data),
           e.clock.current, Wrap(e.rtt.rto), 0, 0)
  }

  /** Moves segments from `snd_queue` to `snd_buf` while the window allows. */
  function Promote(ar: Arith, e: Endpoint, s: Snd, window: nat): Snd
    decreases |s.queue|
  {
    if s.queue != [] && ar.Diff(s.nxt, ar.Norm(s.una + window)) < 0 then
      Promote(ar, e, s.(nxt := ar.Norm(s.nxt + 1), queue := s.queue[1..],
                        buf := s.buf + [Numbered(e, s.nxt, s.queue[0])]),
              window)
    else s
  }

  datatype Due = NotDue | First | Timeout | Fast

  function Resent(cfg: Config): Word {
    if cfg.fastresend > 0 then cfg.fastresend else 0xffff_ffff
  }

  function DueFor(e: Endpoint, s: SndSeg): Due {
    if s.xmit == 0 then First
    else if TimeDiff(e.clock.current, s.resendts) >= 0 then Timeout
    else if s.fastack >= Resent(e.cfg) && (Signed(s.xmit) <= e.cfg.fastlimit || e.cfg.fastlimit <= 0) then Fast
    else NotDue
  }

  /** The retransmission timeout after a timeout: doubled, or slower with `nodelay`. */
  function Backoff(cfg: Config, rto: Word, rxRto: int): Word {
    if cfg.nodelay == 0 then Wrap(rto + Max(rto, Wrap(rxRto)))
    else Wrap(rto + TruncDiv(if cfg.nodelay < 2 then Signed(rto) else rxRto, 2))
  }

  /** One segment of `snd_buf` in the transmission loop. */
  function Tick(e: Endpoint, s: SndSeg): SndSeg {
    var now := e.clock.current;
    var w := s.w.(ts := now, wnd := WndUnused(e), una := e.rcv.nxt);
    match DueFor(e, s)
    case NotDue => s
    case First =>
      var rtomin := if e.cfg.nodelay == 0 then e.rtt.rto / 8 else 0;
      var rto := Wrap(e.rtt.rto);
      s.(w := w, xmit := 1, rto := rto, resendts := Wrap(now + rto + rtomin))
    case Timeout =>
      var rto := Backoff(e.cfg, s.rto, e.rtt.rto);
      s.(w := w, xmit := Wrap(s.xmit + 1), rto := rto, resendts := Wrap(now + rto))
    case Fast =>
      s.(w := w, xmit := Wrap(s.xmit + 1), fastack := 0, resendts := Wrap(now + s.rto))
  }

  function TickAll(e: Endpoint, buf: seq<SndSeg>): (r: seq<SndSeg>)
    ensures |r| == |buf|
  {
    seq(|buf|, i requires 0 <= i < |buf| => Tick(e, buf[i]))
  }

  /** The segments the transmission loop sends, in order, as sent. */
  function DueSegments(e: Endpoint, buf: seq<SndSeg>): seq<Wire> {
    if buf == [] then []
    else (if DueFor(e, buf[0]).NotDue? then [] else [Tick(e, buf[0]).w]) + DueSegments(e, buf[1..])
  }

  function CountDue(e: Endpoint, buf: seq<SndSeg>, due: Due): nat {
    if buf == [] then 0 else (if DueFor(e, buf[0]) == due then 1 else 0) + CountDue(e, buf[1..], due)
  }

  predicate Exhausted(e: Endpoint, buf: seq<SndSeg>) {
    exists i | 0 <= i < |buf| :: !DueFor(e, buf[i]).NotDue? && Tick(e, buf[i]).xmit >= e.cfg.deadLink
  }

  /** Window updates at the end of `ikcp_flush`. */
  function Backed(c: Cong, cfg: Config, inflight: nat, window: nat, change: bool, lost: bool): Cong {
    var c1 := if change then
                var ssthresh := Wrap(Max(inflight / 2, THRESH_MIN));
                var cwnd := Wrap(ssthresh + Resent(cfg));
                Cong(cwnd, Wrap(cwnd * cfg.mss), ssthresh)
              else c;
    var c2 := if lost then Cong(1, Wrap(cfg.mss), Wrap(Max(window / 2, THRESH_MIN))) else c1;
    if c2.cwnd < 1 then c2.(cwnd := 1, incr := Wrap(cfg.mss)) else c2
  }

  /** `size + need > mtu` starts a new packet. */
  datatype Packing = Packing(done: seq<seq<Wire>>, cur: seq<Wire>)

  function PacketSize(ws: seq<Wire>): nat {
    |EncodePacket(ws)|
  }

  function Closed(p: Packing): seq<seq<Wire>> {
    if p.cur == [] then p.done else p.done + [p.cur]
  }

  function Pack(mtu: nat, p: Packing, ws: seq<Wire>): Packing
    decreases |ws|
  {
    if ws == [] then p
    else Pack(mtu, PackOne(mtu, p, ws[0]), ws[1..])
  }

  function PackOne(mtu: nat, p: Packing, w: Wire): Packing {
    if PacketSize(p.cur) + Size(w) > mtu then Packing(Closed(p), [w]) else Packing(p.done, p.cur + [w])
  }

  /** `ikcp_flush`: the new control block, and the segments it sends in packets of at most `mtu` bytes. */
  datatype Flushed = Flushed(e: Endpoint, segs: seq<Wire>)

  function Flush(ar: Arith, e: Endpoint): Flushed {
    if !e.clock.updated then Flushed(e, [])
    else
      var probe := ProbeTick(e.probe, e.rmtWnd, e.clock.current);
      var snd := Promote(ar, e, e.snd, Window(e));
      var timeouts := CountDue(e, snd.buf, Timeout);
      Flushed(
        e.(rcv := e.rcv.(acks := []),
           probe := probe.(ask := false, tell := false),
           snd := snd.(buf := TickAll(e, snd.buf)),
           xmit := Wrap(e.xmit + timeouts),
           dead := e.dead || Exhausted(e, snd.buf),
           cong := Backed(e.cong, e.cfg, Wrap(snd.nxt - snd.una), Window(e), CountDue(e, snd.buf, Fast) > 0,
                          timeouts > 0)),
        AckSegments(e) + ProbeSegments(e) + DueSegments(e, snd.buf))
  }

  /** The packets handed to the output callback. */
  function Packets(mtu: nat, ws: seq<Wire>): seq<seq<Wire>> {
    Closed(Pack(mtu, Packing([], []), ws))
  }

  /* ---------------------------------------------------------------- ikcp_update, ikcp_check */

  /** The clock after `ikcp_update(now)`, and whether it flushes. */
  function Advance(c: Clock, interval: Word, now: Word): (Clock, bool) {
    var start := if c.updated then c.tsFlush else now;
    var slap := TimeDiff(now, start);
    var far := slap >= 10000 || slap < -10000;
    var base := if far then now else start;
    if far || slap >= 0 then
      var next := Wrap(base + interval);
      (Clock(now, if TimeDiff(now, next) >= 0 then Wrap(now + interval) else next, true), true)
    else (Clock(now, base, true), false)
  }

  function Update(ar: Arith, e: Endpoint, now: Word): Flushed {
    var (clock, due) := Advance(e.clock, e.cfg.interval, now);
    var e1 := e.(clock := clock);
    if due then Flush(ar, e1) else Flushed(e1, [])
  }

  /** The scan over `snd_buf` in `ikcp_check`: the time to the first retransmission, at most `best`. */
  function SoonestResend(buf: seq<SndSeg>, now: Word, best: int): int {
    if buf == [] then best
    else SoonestResend(buf[1..], now, Min(best, TimeDiff(buf[0].resendts, now)))
  }

  function Check(e: Endpoint, now: Word): Word {
    var late := TimeDiff(now, e.clock.tsFlush);
    if !e.clock.updated || late >= 0 || late < -10000 then now
    else
      var soonest := SoonestResend(e.snd.buf, now, 0x7fff_ffff);
      if soonest <= 0 then now
      else Wrap(now + Min(Min(soonest, TimeDiff(e.clock.tsFlush, now)), e.cfg.interval))
  }

  /** `ikcp_waitsnd` is 0. */
  predicate Idle(e: Endpoint) {
    e.snd.queue == [] && e.snd.buf == []
  }
}
