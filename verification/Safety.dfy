/**
  Safety of the unbounded protocol over every schedule: what the receiver holds and hands over is
  what the sender numbered, and nothing the sender forgot is missing.
*/
module Safety {
  import opened Serial
  import opened WireFormat
  import opened Endpoints
  import opened Invariants
  import opened Packetization
  import opened Messages
  import opened Network

  /* ---------------------------------------------------------------- one direction, sender x to receiver y */

  /** The segment carries fragment number `sn`. */
  predicate Matches(log: seq<Frag>, w: Wire) {
    w.sn < |log| && log[w.sn] == Frag(w.frg, w.data)
  }

  /** The receiver has this segment, in order or not. */
  ghost predicate Held(r: Rcv, sn: nat) {
    sn < r.nxt || exists i | 0 <= i < |r.buf| :: r.buf[i].sn == sn
  }

  ghost predicate InBuffer(s: Snd, sn: nat) {
    exists i | 0 <= i < |s.buf| :: s.buf[i].w.sn == sn
  }

  ghost predicate SenderOk(log: seq<Frag>, s: Snd) {
    |log| == s.nxt && forall i | 0 <= i < |s.buf| :: Matches(log, s.buf[i].w)
  }

  ghost predicate ReceiverOk(log: seq<Frag>, r: Rcv) {
    && r.nxt <= |log|
    && (forall i | 0 <= i < |r.queue| :: Matches(log, r.queue[i]))
    && (forall i | 0 <= i < |r.buf| :: Matches(log, r.buf[i]))
  }

  /** What a segment on the way says about its sender: its data is logged, its acknowledgements are held. */
  ghost predicate Honest(log: seq<Frag>, r: Rcv, w: Wire) {
    && WellFormed(w) && w.conv < TWO32 && w.frg < WND_RCV
    && (w.cmd == CMD_PUSH ==> Matches(log, w))
    && w.una <= r.nxt
    && (w.cmd == CMD_ACK ==> Held(r, w.sn))
  }

  ghost predicate AllHonest(log: seq<Frag>, r: Rcv, out: seq<seq<Wire>>) {
    forall k, i | 0 <= k < |out| && 0 <= i < |out[k]| :: Honest(log, r, out[k][i])
  }

  ghost predicate AcksOk(r: Rcv) {
    forall i | 0 <= i < |r.acks| :: Held(r, r.acks[i].sn)
  }

  /** Ack soundness: what has left `snd_buf` is held by the peer. */
  ghost predicate NothingLost(s: Snd, r: Rcv) {
    forall sn: nat | sn < s.nxt :: InBuffer(s, sn) || Held(r, sn)
  }

  /** The log and the queue together are what the application handed over. */
  ghost predicate Accepted(cfg: Config, log: seq<Frag>, queue: seq<Frag>, sent: seq<bytes>) {
    if cfg.stream then FragData(log + queue) == Concat(sent) && forall f | f in log + queue :: f.frg == 0
    else log + queue == AllFragments(cfg.mss, sent)
  }

  /** How many fragments the receiving application has consumed. */
  function Consumed(r: Rcv): int {
    r.nxt - |r.queue|
  }

  /** The consumed fragments are what the receiving application got. */
  ghost predicate Delivered(cfg: Config, log: seq<Frag>, sent: seq<bytes>, consumed: int, got: seq<bytes>) {
    && 0 <= consumed <= |log|
    && if cfg.stream then Concat(got) == FragData(log[..consumed])
       else got <= sent && |AllFragments(cfg.mss, got)| == consumed
  }

  ghost predicate Direction(x: Node<seq<Wire>>, y: Node<seq<Wire>>) {
    && SenderOk(x.log, x.e.snd)
    && ReceiverOk(x.log, y.e.rcv)
    && AcksOk(y.e.rcv)
    && NothingLost(x.e.snd, y.e.rcv)
    && Accepted(x.e.cfg, x.log, x.e.snd.queue, x.sent)
    && Delivered(x.e.cfg, x.log, x.sent, Consumed(y.e.rcv), y.got)
  }

  ghost predicate SystemInv(s: System<seq<Wire>>) {
    && EndpointInv(Unbounded, s.left.e) && EndpointInv(Unbounded, s.right.e)
    && Direction(s.left, s.right) && Direction(s.right, s.left)
    && AllHonest(s.left.log, s.left.e.rcv, s.left.out)
    && AllHonest(s.right.log, s.right.e.rcv, s.right.out)
  }

  /* ---------------------------------------------------------------- holding is stable */

  /** The receiver only ever holds more; consumption is separate. */
  ghost predicate Grows(r: Rcv, r': Rcv) {
    && r.nxt <= r'.nxt
    && forall sn: nat :: Held(r, sn) ==> Held(r', sn)
  }

  lemma DrainGrows(wnd: nat, r: Rcv, log: seq<Frag>)
    requires wnd < TWO31 && RcvCore(Unbounded, r, wnd) && ReceiverOk(log, r)
    ensures var r' := Drain(Unbounded, wnd, r);
            Grows(r, r') && ReceiverOk(log, r') && Consumed(r') == Consumed(r) && r'.acks == r.acks
    decreases |r.buf|
  {
    if r.buf != [] && r.buf[0].sn == r.nxt && |r.queue| < wnd {
      DrainOneKeeps(Unbounded, wnd, r);
      var r1 := DrainOne(Unbounded, r);
      assert Grows(r, r1) by {
        forall sn: nat | Held(r, sn)
          ensures Held(r1, sn)
        {
          if sn >= r1.nxt {
            var i :| 0 <= i < |r.buf| && r.buf[i].sn == sn;
            assert r1.buf[i - 1].sn == sn;
          }
        }
      }
      DrainGrows(wnd, r1, log);
    }
  }

  lemma InsertGrows(wnd: nat, r: Rcv, log: seq<Frag>, w: Wire)
    requires ReceiverOk(log, r) && Matches(log, w)
    ensures var r' := r.(buf := Insert(Unbounded, r.buf, w));
            Grows(r, r') && ReceiverOk(log, r') && Held(r', w.sn)
  {
    hide Insert, Matches;
    var r' := r.(buf := Insert(Unbounded, r.buf, w));
    var k := InsertElements(Unbounded, r.buf, w);
    forall sn: nat | Held(r, sn)
      ensures Held(r', sn)
    {
      if sn >= r.nxt {
        var i :| 0 <= i < |r.buf| && r.buf[i].sn == sn;
        assert r.buf[i] in r'.buf;
      }
    }
    forall i | 0 <= i < |r'.buf|
      ensures Matches(log, r'.buf[i])
    {
      assert r'.buf[i] in r'.buf;
    }
  }

  lemma PushGrows(wnd: nat, r: Rcv, log: seq<Frag>, w: Wire)
    requires wnd < TWO31 && RcvInv(Unbounded, r, wnd) && ReceiverOk(log, r) && AcksOk(r)
    requires Matches(log, w) && w.frg < 256
    ensures var r' := InputPush(Unbounded, wnd, r, w);
            && Grows(r, r') && ReceiverOk(log, r') && Consumed(r') == Consumed(r) && AcksOk(r')
  {
    hide Insert, Matches, Drain, Held;
    if w.sn < r.nxt + wnd {
      var r1 := r.(acks := r.acks + [Ack(w.sn, w.ts)]);
      assert forall sn: nat :: Held(r, sn) ==> Held(r1, sn) by {
        HeldSame(r, r1);
      }
      if w.sn >= r.nxt {
        var r2 := r1.(buf := Insert(Unbounded, r.buf, w));
        InsertGrows(wnd, r1, log, w);
        InsertOrder(Unbounded, r.nxt, r.buf, wnd, w);
        var k := InsertElements(Unbounded, r.buf, w);
        assert forall j | 0 <= j < |r2.buf| :: r2.buf[j] in r2.buf;
        DrainGrows(wnd, r2, log);
        var r' := Drain(Unbounded, wnd, r2);
        assert forall i | 0 <= i < |r'.acks| :: Held(r', r'.acks[i].sn);
      } else {
        HeldBelow(r1, w.sn);
      }
    } else {
      HeldSame(r, r);
    }
  }

  lemma HeldSame(r: Rcv, r': Rcv)
    requires r.nxt <= r'.nxt && r.buf == r'.buf
    ensures forall sn: nat :: Held(r, sn) ==> Held(r', sn)
  {
  }

  lemma HeldBelow(r: Rcv, sn: nat)
    requires sn < r.nxt
    ensures Held(r, sn)
  {
  }

  /** Everything the sender has dropped was held, and stays held. */
  lemma NothingLostGrows(s: Snd, r: Rcv, r': Rcv)
    requires NothingLost(s, r) && Grows(r, r')
    ensures NothingLost(s, r')
  {
  }

  lemma HonestGrows(log: seq<Frag>, r: Rcv, log': seq<Frag>, r': Rcv, out: seq<seq<Wire>>)
    requires AllHonest(log, r, out) && Grows(r, r') && log <= log'
    ensures AllHonest(log', r', out)
  {
    hide Held, WellFormed;
  }

  /* ---------------------------------------------------------------- the sender's side of an input */

  lemma UnaLosesNothing(s: Snd, log: seq<Frag>, limit: nat, r: Rcv, una: nat)
    requires limit <= 65535 && SndInv(Unbounded, s, limit) && SenderOk(log, s) && NothingLost(s, r) && una <= r.nxt
    ensures SenderOk(log, InputUna(Unbounded, s, una)) && NothingLost(InputUna(Unbounded, s, una), r)
  {
    hide Matches;
    var k := ParseUnaSuffix(Unbounded, s.buf, una);
    var s' := InputUna(Unbounded, s, una);
    forall sn: nat | sn < s.nxt
      ensures InBuffer(s', sn) || Held(r, sn)
    {
      if InBuffer(s, sn) {
        var i :| 0 <= i < |s.buf| && s.buf[i].w.sn == sn;
        if i >= k {
          assert s'.buf[i - k].w.sn == sn;
        }
      }
    }
  }

  lemma AckLosesNothing(s: Snd, log: seq<Frag>, r: Rcv, sn: nat)
    requires SenderOk(log, s) && NothingLost(s, r) && Held(r, sn)
    ensures SenderOk(log, InputAck(Unbounded, s, sn)) && NothingLost(InputAck(Unbounded, s, sn), r)
  {
    hide Matches, Held;
    var k := RemoveAckedShape(Unbounded, s.buf, sn);
    var s' := InputAck(Unbounded, s, sn);
    forall n: nat | n < s.nxt
      ensures InBuffer(s', n) || Held(r, n)
    {
      if InBuffer(s, n) && n != sn {
        var i :| 0 <= i < |s.buf| && s.buf[i].w.sn == n;
        assert s'.buf[if i < k || s'.buf == s.buf then i else i - 1].w.sn == n;
      }
    }
  }
}
