/** A session acts on its control block through recorded calls only, and after its FIN it sends no more data. */
module SessionTrace {
  import opened Serial
  import opened WireFormat
  import opened Endpoints
  import opened Network
  import opened Lifetime
  import opened Marking
  import opened Sessions
  import opened SessionSafety

  /** One recorded call. */
  function Redo(n: Node<bytes>, op: Op): Node<bytes> {
    match op
    case Do(act) => if act.Deliver? then n else Step32(n, n, act)
    case Arrive(p) => n.(e := Endpoints.Input(n.e, p))
  }

  function Replay(n: Node<bytes>, ops: seq<Op>): Node<bytes> {
    if ops == [] then n else Redo(Replay(n, ops[..|ops| - 1]), ops[|ops| - 1])
  }

  lemma {:induction false} ReplayAppend(n: Node<bytes>, a: seq<Op>, b: seq<Op>)
    ensures Replay(n, a + b) == Replay(Replay(n, a), b)
  {
    hide Redo;
    if b == [] {
      assert a + b == a;
    } else {
      ReplayAppend(n, a, b[..|b| - 1]);
      assert (a + b)[..|a + b| - 1] == a + b[..|b| - 1];
    }
  }

  /** What a stretch of a run may contain: inputs of these packets only, and no data if `mute`. */
  predicate OpOk(op: Op, ps: seq<bytes>, mute: bool) {
    match op
    case Do(act) => !act.Deliver? && (mute ==> !act.DoSend?)
    case Arrive(p) => p in ps
  }

  /** From s to t by recorded calls; whatever was sent is queued. */
  ghost predicate Chain(s: Session, t: Session, ps: seq<bytes>, mute: bool) {
    && s.ops <= t.ops
    && t.node == Replay(s.node, t.ops[|s.ops|..])
    && s.node.out <= t.node.out && t.queue == s.queue + t.node.out[|s.node.out|..] && t.fed == s.fed
    && forall i | |s.ops| <= i < |t.ops| :: OpOk(t.ops[i], ps, mute)
  }

  lemma Suffixes<T>(a: seq<T>, b: seq<T>, c: seq<T>)
    requires a <= b <= c
    ensures a <= c && c[|a|..] == b[|a|..] + c[|b|..]
  {
  }

  lemma ChainTrans(s: Session, t: Session, u: Session, ps: seq<bytes>, mute: bool)
    requires Chain(s, t, ps, mute) && Chain(t, u, ps, mute)
    ensures Chain(s, u, ps, mute)
  {
    hide OpOk, Replay, Redo;
    Suffixes(s.ops, t.ops, u.ops);
    Suffixes(s.node.out, t.node.out, u.node.out);
    ReplayAppend(s.node, t.ops[|s.ops|..], u.ops[|t.ops|..]);
    forall i | |s.ops| <= i < |u.ops|
      ensures OpOk(u.ops[i], ps, mute)
    {
      if i < |t.ops| {
        assert t.ops[i] == u.ops[i];
      }
    }
  }

  lemma ChainWeaken(s: Session, t: Session, ps: seq<bytes>, mute: bool, qs: seq<bytes>)
    requires Chain(s, t, ps, mute) && forall p | p in ps :: p in qs
    ensures Chain(s, t, qs, mute) && Chain(s, t, qs, false)
  {
  }

  /** A state with the same control block, history and queue. */
  predicate SameTrace(s: Session, t: Session) {
    s.node == t.node && s.ops == t.ops && s.queue == t.queue && s.fed == t.fed
  }

  lemma ChainSame(s: Session, t: Session, ps: seq<bytes>, mute: bool)
    requires SameTrace(s, t)
    ensures Chain(s, t, ps, mute)
  {
  }

  lemma ChainOne(s: Session, t: Session, op: Op, ps: seq<bytes>, mute: bool)
    requires t.ops == s.ops + [op] && t.node == Redo(s.node, op) && OpOk(op, ps, mute)
    requires s.node.out <= t.node.out && t.queue == s.queue + t.node.out[|s.node.out|..] && t.fed == s.fed
    ensures Chain(s, t, ps, mute)
  {
    hide Redo, OpOk;
    assert t.ops[|s.ops|..] == [op];
    assert Replay(s.node, []) == s.node;
    assert [op][..0] == [] && Replay(s.node, [op]) == Redo(s.node, op);
  }

  lemma OutGrows(n: Node<bytes>, act: Action)
    requires !act.Deliver?
    ensures n.out <= Step32(n, n, act).out
  {
  }

  lemma ActChain(s: Session, act: Action, ps: seq<bytes>, mute: bool)
    requires !act.Deliver? && (mute ==> !act.DoSend?)
    ensures Chain(s, Act(s, act), ps, mute)
  {
    hide Step32;
    OutGrows(s.node, act);
    ChainOne(s, Act(s, act), Do(act), ps, mute);
  }

  lemma HearChain(s: Session, p: bytes, ps: seq<bytes>, mute: bool)
    requires p in ps
    ensures Chain(s, Hear(s, p), ps, mute)
  {
    ChainOne(s, Hear(s, p), Arrive(p), ps, mute);
  }

  lemma KcpSendChain(s: Session, data: bytes, ps: seq<bytes>)
    ensures Chain(s, KcpSend(s, data).0, ps, false)
  {
    hide Chain, Act;
    if data == [] {
      ChainSame(s, s, ps, false);
    } else {
      ActChain(s, DoSend(data), ps, false);
    }
  }

  lemma RecvBytesChain(s: Session, fate: Fate, ps: seq<bytes>)
    ensures Chain(s, RecvBytes(s, fate).0, ps, true)
  {
    hide Chain, Act;
    var size := PeekSize(s.node.e.rcv.queue);
    if size > 0 {
      var t := Act(s, DoRecv(size));
      ActChain(s, DoRecv(size), ps, true);
      ChainSame(t, RecvBytes(s, fate).0, ps, true);
      ChainTrans(s, t, RecvBytes(s, fate).0, ps, true);
    } else {
      ChainSame(s, s, ps, true);
    }
  }

  lemma KcpRecvChain(s: Session, fate: Fate, ps: seq<bytes>)
    ensures Chain(s, KcpRecv(s, fate).0, ps, true)
  {
    hide Chain, RecvBytes;
    RecvBytesChain(s, fate, ps);
    RecvBytesChain(s, Swallowed, ps);
  }

  lemma KcpFlushChain(s: Session, now: Word, ps: seq<bytes>)
    ensures Chain(s, KcpFlush(s, now), ps, true)
  {
    hide Chain, Act;
    ChainSame(s, s.(flush := false), ps, true);
    if s.flush {
      var s1 := s.(flush := false);
      var s2 := Act(s1, DoUpdate(now));
      var s3 := Act(s2, DoFlush);
      ActChain(s1, DoUpdate(now), ps, true);
      ActChain(s2, DoFlush, ps, true);
      ChainSame(s, s1, ps, true);
      ChainSame(s3, KcpFlush(s, now), ps, true);
      ChainTrans(s, s1, s2, ps, true);
      ChainTrans(s, s2, s3, ps, true);
      ChainTrans(s, s3, KcpFlush(s, now), ps, true);
    } else {
      ChainSame(s, s, ps, true);
    }
  }

  lemma HandshakeSendChain(c: Settings, s: Session, now: Word, ps: seq<bytes>)
    ensures Chain(s, HandshakeSend(c, s, now), ps, false)
  {
    hide Chain, KcpSend, KcpFlush;
    var s1 := s.(flush := true);
    var s2 := KcpSend(s1, c.key + s.id).0;
    ChainSame(s, s1, ps, false);
    KcpSendChain(s1, c.key + s.id, ps);
    KcpFlushChain(s2, now, ps);
    ChainWeaken(s2, KcpFlush(s2, now), ps, true, ps);
    ChainTrans(s, s1, s2, ps, false);
    ChainTrans(s, s2, KcpFlush(s2, now), ps, false);
  }

  /** The FIN is on its way, or acknowledged. */
  predicate FinOut(hs: Handshake) {
    hs == FinSent || hs == FinWaitPeer
  }

  /** The FIN is out, or the session over. */
  predicate Late(hs: Handshake) {
    Rank(hs) >= 3
  }

  lemma GreetChain(c: Settings, s: Session, now: Word, ps: seq<bytes>)
    ensures Chain(s, Greet(c, s, now), ps, false)
  {
    hide Chain, HandshakeSend, Put;
    var t := s.(ledger := s.ledger.(greeting := Put(s, c.key + s.id)));
    ChainSame(s, t, ps, false);
    HandshakeSendChain(c, t, now, ps);
    ChainTrans(s, t, Greet(c, s, now), ps, false);
  }

  lemma FinSendChain(c: Settings, s: Session, now: Word, ps: seq<bytes>)
    ensures Chain(s, FinSend(c, s, now), ps, false)
  {
    hide Chain, HandshakeSend, Quiet, Put;
    var t := Ready(c, s);
    var u := HandshakeSend(c, t, now);
    ChainSame(s, t, ps, false);
    HandshakeSendChain(c, t, now, ps);
    ChainSame(u, u.(hs := FinSent), ps, false);
    ChainTrans(s, t, u, ps, false);
    ChainTrans(s, u, u.(hs := FinSent), ps, false);
  }

  lemma PassedChain(c: Settings, s: Session, now: Word, ps: seq<bytes>)
    ensures Chain(s, Passed(c, s, now), ps, Late(s.hs))
  {
    hide Chain, FinSend;
    if s.hs == FinPending {
      FinSendChain(c, s, now, ps);
    } else {
      ChainSame(s, Passed(c, s, now), ps, Late(s.hs));
    }
  }

  lemma {:induction false} FinTransitChain(c: Settings, s: Session, now: Word, ps: seq<bytes>)
    ensures Chain(s, FinTransit(c, s, now), ps, Late(s.hs))
    decreases 5 - Rank(s.hs)
  {
    hide Chain, FinTransit, Passed, Stuck;
    FinTurn(c, s, now);
    if Stuck(s) {
      ChainSame(s, s, ps, Late(s.hs));
    } else {
      var t := Passed(c, s, now);
      PassedChain(c, s, now, ps);
      FinTransitChain(c, t, now, ps);
      ChainWeaken(t, FinTransit(c, t, now), ps, Late(t.hs), ps);
      ChainTrans(s, t, FinTransit(c, s, now), ps, Late(s.hs));
    }
  }

  lemma {:induction false} DrainChain(c: Settings, s: Session, ps: seq<bytes>)
    ensures Chain(s, DrainInput(c, s).0, ps, false)
    decreases |s.input|
  {
    hide Chain, KcpSend;
    if !Full(s) && s.input != [] {
      var t := s.(input := s.input[1..]);
      var u := KcpSend(t, s.input[0]).0;
      var v := ProcessInput(c, t, s.input[0]);
      ChainSame(s, t, ps, false);
      KcpSendChain(t, s.input[0], ps);
      ChainSame(u, v, ps, false);
      ChainTrans(s, t, u, ps, false);
      ChainTrans(s, u, v, ps, false);
      DrainChain(c, v, ps);
      ChainTrans(s, v, DrainInput(c, s).0, ps, false);
    } else {
      ChainSame(s, s, ps, false);
    }
  }

  lemma {:induction false} HandOverChain(s: Session, room: nat, ps: seq<bytes>)
    ensures Chain(s, HandOver(s, room), ps, true)
    decreases room
  {
    hide Chain, KcpRecv;
    var (t, x) := KcpRecv(s, ForApplication);
    KcpRecvChain(s, ForApplication, ps);
    if x.Some? {
      if room == 0 {
        ChainSame(t, t.(frame := x), ps, true);
        ChainTrans(s, t, t.(frame := x), ps, true);
      } else {
        var u := t.(told := t.told + [Frame(x.value)]);
        ChainSame(t, u, ps, true);
        HandOverChain(u, room - 1, ps);
        ChainTrans(s, t, u, ps, true);
        ChainTrans(s, u, HandOver(s, room), ps, true);
      }
    }
  }

  lemma EstablishChain(c: Settings, s: Session, id: bytes, room: bool, now: Word, ps: seq<bytes>)
    ensures Chain(s, Establish(c, s, id, room, now).0, ps, false)
  {
    hide Chain, Act, Greet;
    var s0 := if s.client then s else s.(id := id);
    var s1 := ApplyNoDelay(c, s0);
    var s2 := if s.client then s1 else Greet(c, s1, now);
    ChainSame(s, s0, ps, false);
    ActChain(s0, DoNoDelay(if c.nodelay then 1 else 0, c.interval, c.resend, if c.nc then 1 else 0), ps, false);
    GreetChain(c, s1, now, ps);
    ChainTrans(s, s0, s1, ps, false);
    if !s.client {
      ChainTrans(s, s1, s2, ps, false);
    }
    ChainSame(s2, Establish(c, s, id, room, now).0, ps, false);
    ChainTrans(s, s2, Establish(c, s, id, room, now).0, ps, false);
  }

  lemma SynRecvChain(c: Settings, s: Session, room: bool, now: Word, ps: seq<bytes>)
    ensures Chain(s, SynHandshakeRecv(c, s, room, now).0, ps, false)
  {
    hide Chain, KcpRecv, Establish, Quiet;
    var (t, syn) := KcpRecv(s, ForHandshake);
    KcpRecvChain(s, ForHandshake, ps);
    ChainWeaken(s, t, ps, true, ps);
    if syn.Some? && HasKey(c, syn.value) {
      var id := syn.value[|c.key|..];
      EstablishChain(c, t, id, room, now, ps);
      ChainTrans(s, t, Establish(c, t, id, room, now).0, ps, false);
    }
  }

  lemma SynInputChain(s: Session, p: bytes, ps: seq<bytes>)
    requires p in ps
    ensures Chain(s, SynHandshakeInput(s, p), ps, true)
  {
    hide Chain, Act, Hear, Word32, InputCode;
    ChainSame(s, s, ps, true);
    if |p| >= OVERHEAD {
      var conv := Word32(p);
      var t := Act(s, DoSetConv(conv));
      var u := Hear(t, p);
      var back := if s.client then SYN_CONV else s.node.e.cfg.conv;
      ActChain(s, DoSetConv(conv), ps, true);
      HearChain(t, p, ps, true);
      ActChain(u, DoSetConv(back), ps, true);
      ChainTrans(s, t, u, ps, true);
      ChainTrans(s, u, Act(u, DoSetConv(back)), ps, true);
    }
  }

  /** The packets one `kcp_input` may put into the control block: the one it got, and that without its mark. */
  function Heard(p: bytes): seq<bytes> {
    if |p| > 4 && !HasBit(p[4], KCP_RESET) && HasBit(p[4], KCP_FIN) then [p, Unmark(p)] else [p]
  }

  lemma KcpInputChain(c: Settings, s: Session, p: bytes, now: Word)
    ensures Chain(s, KcpInput(c, s, p, now), Heard(p), Late(s.hs))
  {
    hide Chain, Hear, SynHandshakeInput, InputCode, HasBit, FinTransit, Unmark;
    var ps, mute := Heard(p), Late(s.hs);
    assert p in ps;
    var t := Hear(s, p);
    HearChain(s, p, ps, mute);
    var code := InputCode(s.node.e.cfg.conv, p);
    var r := KcpInput(c, s, p, now);
    if code == -1 {
      SynInputChain(t, p, ps);
      ChainWeaken(t, r, ps, true, ps);
      ChainTrans(s, t, r, ps, mute);
    } else if code != 0 && |p| > 4 && !HasBit(p[4], KCP_RESET) && HasBit(p[4], KCP_FIN) {
      var t1 := if t.finRecved then t else t.(finRecved := true, open := false);
      var t2 := FinTransit(c, t1, now);
      ChainSame(t, t1, ps, mute);
      FinTransitChain(c, t1, now, ps);
      assert Unmark(p) in ps;
      HearChain(t2, Unmark(p), ps, mute);
      ChainTrans(s, t, t1, ps, mute);
      ChainTrans(s, t1, t2, ps, mute);
      ChainTrans(s, t2, r, ps, mute);
    } else {
      ChainSame(t, r, ps, mute);
      ChainTrans(s, t, r, ps, mute);
    }
  }

  /* ---------------------------------------------------------------- over a run */

  /** The FIN went out when everything before it was acknowledged, and it is the last frame. */
  ghost predicate FinOk(c: Settings, n0: Node<bytes>, s: Session) {
    && (FinOut(s.hs) ==> s.finAt.Some?)
    && (s.finAt.Some? ==>
          && Late(s.hs) && s.inputClosed && s.finAt.value <= |s.ops| && Idle(Replay(n0, s.ops[..s.finAt.value]).e)
          && (s.finAt.value < |s.ops| && s.ops[s.finAt.value].Do? && s.ops[s.finAt.value].act.DoSend? ==>
                s.ops[s.finAt.value].act.data == c.key + s.id)
          && forall i | s.finAt.value < i < |s.ops| :: s.ops[i].Do? ==> !s.ops[i].act.DoSend?)
  }

  /** What went to the transport: every packet in order, some with the FIN mark. */
  predicate FedOk(s: Session) {
    && |s.fed| + |s.queue| == |s.node.out|
    && s.queue == s.node.out[|s.fed|..]
    && forall i | 0 <= i < |s.fed| ::
         s.fed[i] == s.node.out[i] || (|s.node.out[i]| > 4 && s.finAt.Some? && s.fed[i] == Mark(s.node.out[i]))
  }

  ghost predicate TraceInv(c: Settings, n0: Node<bytes>, s: Session) {
    s.node == Replay(n0, s.ops) && FedOk(s) && FinOk(c, n0, s)
  }

  lemma ChainKeeps(c: Settings, n0: Node<bytes>, s: Session, t: Session, ps: seq<bytes>)
    requires s.node == Replay(n0, s.ops) && FedOk(s) && Chain(s, t, ps, false) && (s.finAt.Some? ==> t.finAt.Some?)
    ensures t.node == Replay(n0, t.ops) && FedOk(t)
  {
    hide Replay, Mark, PayloadData, OpOk;
    ReplayAppend(n0, s.ops, t.ops[|s.ops|..]);
    assert s.ops + t.ops[|s.ops|..] == t.ops;
  }

  /** A stretch without data keeps the FIN the last frame. */
  lemma MuteKeeps(c: Settings, n0: Node<bytes>, s: Session, t: Session, ps: seq<bytes>)
    requires FinOk(c, n0, s) && (FinOut(t.hs) ==> FinOut(s.hs)) && t.finAt == s.finAt
    requires s.finAt.Some? ==> Chain(s, t, ps, true) && Late(t.hs) && t.inputClosed && t.id == s.id
    ensures FinOk(c, n0, t)
  {
    hide Replay, Idle;
    if t.finAt.Some? {
      assert t.ops[..t.finAt.value] == s.ops[..s.finAt.value];
      forall i | s.finAt.value <= i < |t.ops|
        ensures i < |s.ops| ==> t.ops[i] == s.ops[i]
        ensures i >= |s.ops| ==> OpOk(t.ops[i], ps, true)
      {
      }
    }
  }

  /** The calls of a handshake frame. */
  function HandshakeOps(data: bytes, now: Word): seq<Op> {
    (if data == [] then [] else [Do(DoSend(data))]) + [Do(DoUpdate(now)), Do(DoFlush)]
  }

  lemma HandshakeSendDoes(c: Settings, s: Session, now: Word)
    ensures HandshakeSend(c, s, now).ops == s.ops + HandshakeOps(c.key + s.id, now)
  {
    hide Act, Send, Quiet;
    var data := c.key + s.id;
    var s1 := s.(flush := true);
    var s2 := KcpSend(s1, data).0;
    ActOps(s1, DoSend(data));
    FlushOps(s2, now);
    assert s2.ops == s.ops + if data == [] then [] else [Do(DoSend(data))];
  }

  lemma FlushOps(s: Session, now: Word)
    ensures s.flush ==> KcpFlush(s, now).ops == s.ops + [Do(DoUpdate(now)), Do(DoFlush)]
  {
    hide Act, Quiet;
    var t := s.(flush := false);
    ActOps(t, DoUpdate(now));
    ActOps(Act(t, DoUpdate(now)), DoFlush);
  }

  lemma HandshakeSendOps(c: Settings, s: Session, now: Word)
    ensures var t := HandshakeSend(c, s, now);
            && |s.ops| <= |t.ops| && t.ops[..|s.ops|] == s.ops
            && forall i | |s.ops| <= i < |t.ops| && t.ops[i].Do? && t.ops[i].act.DoSend? ::
                 i == |s.ops| && t.ops[i].act.data == c.key + s.id
  {
    hide HandshakeSend;
    HandshakeSendDoes(c, s, now);
  }

  lemma ActOps(s: Session, act: Action)
    requires !act.Deliver?
    ensures Act(s, act).ops == s.ops + [Do(act)] && Act(s, act).flush == s.flush
  {
    hide Step32;
  }

  lemma FinSendFin(c: Settings, n0: Node<bytes>, s: Session, now: Word)
    requires s.node == Replay(n0, s.ops) && s.inputClosed && WaitSnd(s) == 0
    ensures FinOk(c, n0, FinSend(c, s, now)) && FinSend(c, s, now).node == Replay(n0, FinSend(c, s, now).ops)
  {
    hide HandshakeSend, Replay;
    var t, u := Ready(c, s), FinSend(c, s, now);
    HandshakeSendOps(c, t, now);
    assert s.ops[..|s.ops|] == s.ops;
    HandshakeSendChain(c, t, now, []);
    ReplayAppend(n0, t.ops, u.ops[|t.ops|..]);
    assert t.ops + u.ops[|t.ops|..] == u.ops;
  }

  lemma {:induction false} FinTransitFin(c: Settings, n0: Node<bytes>, s: Session, now: Word)
    requires s.node == Replay(n0, s.ops) && FinOk(c, n0, s)
    ensures FinOk(c, n0, FinTransit(c, s, now))
    decreases 5 - Rank(s.hs)
  {
    hide FinTransit, Replay, FinSend, WaitSnd, Unread, Wrap;
    FinTurn(c, s, now);
    if !Stuck(s) {
      if s.hs == FinPending {
        FinSendFin(c, n0, s, now);
      }
      FinTransitFin(c, n0, Passed(c, s, now), now);
    }
  }

  lemma OnInputTrace(c: Settings, n0: Node<bytes>, s: Session, now: Word)
    requires TraceInv(c, n0, s) && ControlInv(s) && !s.inputClosed
    ensures TraceInv(c, n0, OnInput(c, s, now)) && Chain(s, OnInput(c, s, now), [], false)
    ensures s.finAt.Some? ==> OnInput(c, s, now).finAt.Some?
  {
    hide Chain, FinTransit, KcpFlush, DrainInput, Replay, FedOk;
    var (t, closed) := DrainInput(c, s);
    DrainInputKeeps(c, s);
    DrainChain(c, s, []);
    ChainKeeps(c, n0, s, t, []);
    var t1 := t.(inputClosed := true);
    var t2 := if closed then FinTransit(c, t1, now) else t;
    if closed {
      ChainSame(t, t1, [], false);
      ChainTrans(s, t, t1, [], false);
      ChainKeeps(c, n0, s, t1, []);
      FinTransitChain(c, t1, now, []);
      ChainWeaken(t1, t2, [], Late(t1.hs), []);
      FinTransitFin(c, n0, t1, now);
      ChainTrans(s, t1, t2, [], false);
      FinTransitKeeps(c, t1, now);
    }
    KcpFlushChain(t2, now, []);
    MuteKeeps(c, n0, t2, KcpFlush(t2, now), []);
    ChainWeaken(t2, KcpFlush(t2, now), [], true, []);
    ChainTrans(s, t2, KcpFlush(t2, now), [], false);
    ChainKeeps(c, n0, s, KcpFlush(t2, now), []);
  }

  lemma AfterPacketsTrace(c: Settings, n0: Node<bytes>, s: Session, room: bool, now: Word)
    requires TraceInv(c, n0, s) && ControlInv(s)
    ensures TraceInv(c, n0, AfterPackets(c, s, room, now)) && Chain(s, AfterPackets(c, s, room, now), [], false)
    ensures s.finAt.Some? ==> AfterPackets(c, s, room, now).finAt.Some?
  {
    hide Chain, FinTransit, KcpFlush, KcpRecv, Replay, FedOk, SynHandshakeRecv;
    var (u, ok) := SynHandshakeRecv(c, s, room, now);
    var t := if s.hs == Syn then (if ok then u else u.(hs := Disconnected))
             else if s.hs == FinPending || s.hs == FinSent then FinTransit(c, s, now) else s;
    if s.hs == Syn {
      SynRecvChain(c, s, room, now, []);
      ChainSame(u, t, [], false);
      ChainTrans(s, u, t, [], false);
      SynRecvNotClosing(c, s, room, now);
    } else if s.hs == FinPending || s.hs == FinSent {
      FinTransitChain(c, s, now, []);
      ChainWeaken(s, t, [], Late(s.hs), []);
      FinTransitFin(c, n0, s, now);
      if Late(s.hs) {
        FinTransitKeeps(c, s, now);
      }
    } else {
      ChainSame(s, s, [], false);
    }
    ChainKeeps(c, n0, s, t, []);
    var t1 := if t.frame.None? then var (v, x) := KcpRecv(t, ForApplication); v.(frame := x) else t;
    if t.frame.None? {
      var v := KcpRecv(t, ForApplication).0;
      KcpRecvChain(t, ForApplication, []);
      ChainSame(v, t1, [], true);
      ChainTrans(t, v, t1, [], true);
    } else {
      ChainSame(t, t, [], true);
    }
    KcpFlushChain(t1, now, []);
    ChainTrans(t, t1, KcpFlush(t1, now), [], true);
    MuteKeeps(c, n0, t, KcpFlush(t1, now), []);
    ChainWeaken(t, KcpFlush(t1, now), [], true, []);
    ChainTrans(s, t, KcpFlush(t1, now), [], false);
    ChainKeeps(c, n0, s, KcpFlush(t1, now), []);
  }

  lemma SynRecvNotClosing(c: Settings, s: Session, room: bool, now: Word)
    requires s.hs == Syn
    ensures !FinOut(SynHandshakeRecv(c, s, room, now).0.hs) && SynHandshakeRecv(c, s, room, now).0.finAt == s.finAt
  {
    hide KcpRecv, Greet, ApplyNoDelay;
  }

  /** The FIN branch of an input. */
  lemma FinInputTrace(c: Settings, n0: Node<bytes>, s: Session, p: bytes, now: Word)
    requires TraceInv(c, n0, s) && |p| > 4 && HasBit(p[4], KCP_FIN)
    ensures var r := FinInput(c, Hear(s, p), p, now);
            FinOk(c, n0, r) && (s.finAt.Some? ==> r.finAt.Some?)
  {
    hide Chain, Hear, HasBit, FinTransit, Unmark, Replay, FedOk;
    var t := Hear(s, p);
    var t1 := if t.finRecved then t else t.(finRecved := true, open := false);
    var t2 := FinTransit(c, t1, now);
    HearChain(s, p, [p], true);
    ChainWeaken(s, t, [p], true, [p]);
    MuteKeeps(c, n0, s, t1, [p]) by {
      ChainSame(t, t1, [p], true);
      ChainTrans(s, t, t1, [p], true);
    }
    ChainKeeps(c, n0, s, t, [p]);
    FinTransitFin(c, n0, t1, now);
    FinTransitKeeps(c, t1, now);
    if Late(s.hs) {
      FinInputKeeps(c, t, p, now);
    }
    HearChain(t2, Unmark(p), [Unmark(p)], true);
    MuteKeeps(c, n0, t2, FinInput(c, t, p, now), [Unmark(p)]);
  }

  lemma KcpInputTrace(c: Settings, n0: Node<bytes>, s: Session, p: bytes, now: Word)
    requires TraceInv(c, n0, s)
    ensures TraceInv(c, n0, KcpInput(c, s, p, now)) && Chain(s, KcpInput(c, s, p, now), Heard(p), false)
    ensures s.finAt.Some? ==> KcpInput(c, s, p, now).finAt.Some?
  {
    hide Chain, Hear, SynHandshakeInput, InputCode, HasBit, FinTransit, Unmark, Replay, FedOk, Heard;
    var r, t := KcpInput(c, s, p, now), Hear(s, p);
    KcpInputChain(c, s, p, now);
    ChainWeaken(s, r, Heard(p), Late(s.hs), Heard(p));
    KcpInputSame(c, s, p, now);
    if |p| > 4 && HasBit(p[4], KCP_FIN) {
      FinInputTrace(c, n0, s, p, now);
    }
    ChainKeeps(c, n0, s, r, Heard(p));
    if !(|p| > 4 && HasBit(p[4], KCP_FIN) && r == FinInput(c, t, p, now)) {
      MuteKeeps(c, n0, s, r, Heard(p));
    }
  }

  lemma FinInputKeeps(c: Settings, s: Session, p: bytes, now: Word)
    requires |p| > 4 && HasBit(p[4], KCP_FIN) && Late(s.hs)
    ensures FinInput(c, s, p, now).finAt == s.finAt
  {
    hide FinTransit, Hear, Unmark;
    var t := if s.finRecved then s else s.(finRecved := true, open := false);
    FinTransitKeeps(c, t, now);
  }

  lemma KcpInputSame(c: Settings, s: Session, p: bytes, now: Word)
    ensures var r, t := KcpInput(c, s, p, now), Hear(s, p);
            (|p| > 4 && HasBit(p[4], KCP_FIN) && r == FinInput(c, t, p, now))
            || (r.finAt == s.finAt && r.inputClosed == s.inputClosed && r.id == s.id && (FinOut(r.hs) ==> FinOut(s.hs))
                && (Late(s.hs) ==> Late(r.hs)))
  {
    hide Hear, SynHandshakeInput, InputCode, HasBit, FinInput;
  }

  /** Only the calls: what a network needs to know of a step. */
  ghost predicate Calls(s: Session, t: Session, ps: seq<bytes>) {
    && s.ops <= t.ops && t.node == Replay(s.node, t.ops[|s.ops|..])
    && forall i | |s.ops| <= i < |t.ops| :: OpOk(t.ops[i], ps, false)
  }

  lemma ChainCalls(s: Session, t: Session, ps: seq<bytes>)
    requires Chain(s, t, ps, false)
    ensures Calls(s, t, ps)
  {
    hide Replay, OpOk;
  }

  lemma KcpOutputTrace(c: Settings, n0: Node<bytes>, s: Session)
    requires TraceInv(c, n0, s)
    ensures TraceInv(c, n0, KcpOutput(s))
  {
    hide Replay, Mark, PayloadData, Idle;
    var t := KcpOutput(s);
    assert t.queue == s.node.out[|t.fed|..];
    forall i | |s.fed| <= i < |t.fed|
      ensures t.fed[i] == Outgoing(s.hs, s.node.out[i])
    {
      assert s.queue[i - |s.fed|] == s.node.out[i];
    }
  }

  lemma TopTrace(c: Settings, n0: Node<bytes>, s: Session, now: Word)
    requires TraceInv(c, n0, s)
    ensures TraceInv(c, n0, Top(c, s, now).0) && Calls(s, Top(c, s, now).0, [])
    ensures s.finAt.Some? ==> Top(c, s, now).0.finAt.Some?
  {
    hide KcpOutput, Act, Check, TimeDiff, Wrap, Replay, FedOk, Chain;
    var s1 := KcpOutput(s);
    var t := Top(c, s, now).0;
    KcpOutputTrace(c, n0, s);
    OutputSame(s);
    ChainSame(s1, s1, [], true);
    ActChain(s1, DoUpdate(now), [], true);
    ChainSame(s1, s1.(hs := Disconnected), [], true);
    MuteKeeps(c, n0, s1, t, []);
    ChainWeaken(s1, t, [], true, []);
    ChainKeeps(c, n0, s1, t, []);
    ChainCalls(s1, t, []);
  }

  lemma OnTopTrace(c: Settings, n0: Node<bytes>, s: Session, now: Word)
    requires TraceInv(c, n0, s)
    ensures TraceInv(c, n0, OnTop(c, s, now)) && Calls(s, OnTop(c, s, now), [])
    ensures s.finAt.Some? ==> OnTop(c, s, now).finAt.Some?
  {
    hide Top, Replay, FedOk, FinOk, OpOk;
    TopTrace(c, n0, s, now);
    OverTrace(c, n0, Top(c, s, now).0, Top(c, s, now).1 == Break);
  }

  lemma OverTrace(c: Settings, n0: Node<bytes>, s: Session, over: bool)
    requires TraceInv(c, n0, s)
    ensures TraceInv(c, n0, s.(over := over))
  {
    hide Replay, Mark, PayloadData;
  }

  lemma OutputSame(s: Session)
    ensures KcpOutput(s).node == s.node && KcpOutput(s).ops == s.ops && KcpOutput(s).hs == s.hs
    ensures KcpOutput(s).finAt == s.finAt
  {
  }

  lemma OnOutputTrace(c: Settings, n0: Node<bytes>, s: Session, room: nat)
    requires TraceInv(c, n0, s) && s.frame.Some?
    ensures TraceInv(c, n0, OnOutput(s, room)) && Chain(s, OnOutput(s, room), [], false)
    ensures s.finAt.Some? ==> OnOutput(s, room).finAt.Some?
  {
    hide Chain, HandOver, Replay, FedOk;
    var t := s.(frame := None, told := s.told + [Frame(s.frame.value)]);
    ChainSame(s, t, [], true);
    HandOverChain(t, room, []);
    ChainTrans(s, t, HandOver(t, room), [], true);
    HandOverKeeps(t, room);
    MuteKeeps(c, n0, s, HandOver(t, room), []);
    ChainWeaken(s, HandOver(t, room), [], true, []);
    ChainKeeps(c, n0, s, HandOver(t, room), []);
  }

  lemma {:induction false} HandOverKeeps(s: Session, room: nat)
    ensures var t := HandOver(s, room);
            t.hs == s.hs && t.finAt == s.finAt && t.inputClosed == s.inputClosed && t.id == s.id
    decreases room
  {
    hide KcpRecv;
    var (t, x) := KcpRecv(s, ForApplication);
    if x.Some? && room > 0 {
      HandOverKeeps(t.(told := t.told + [Frame(x.value)]), room - 1);
    }
  }

  function HeardBy(ev: SEvent): seq<bytes> {
    if ev.FromNet? then Heard(ev.p) else []
  }

  lemma StepTrace(c: Settings, n0: Node<bytes>, s: Session, ev: SEvent)
    requires TraceInv(c, n0, s) && ControlInv(s)
    ensures TraceInv(c, n0, Step(c, s, ev)) && Calls(s, Step(c, s, ev), HeardBy(ev))
    ensures s.finAt.Some? ==> Step(c, s, ev).finAt.Some?
  {
    hide OnInput, OnOutput, OnTop, KcpInput, AfterPackets, Replay, FedOk, Chain, Calls, Full, FinOk;
    var t := Step(c, s, ev);
    ChainSame(s, s, [], false);
    ChainSame(s, s, HeardBy(ev), false);
    ChainCalls(s, s, HeardBy(ev));
    if s.over {
      return;
    }
    match ev
    case LoopTop(now) => OnTopTrace(c, n0, s, now);
    case FromApp(now) =>
      if s.hs != Disconnected && !s.inputClosed {
        OnInputTrace(c, n0, s, now);
      }
      ChainCalls(s, t, []);
    case ToApp(room) =>
      if s.frame.Some? {
        OnOutputTrace(c, n0, s, room);
      }
      ChainCalls(s, t, []);
    case FromNet(p, now) =>
      KcpInputTrace(c, n0, s, p, now);
      ChainCalls(s, t, Heard(p));
    case NetDone(space, now) =>
      AfterPacketsTrace(c, n0, s, space, now);
      ChainCalls(s, t, []);
    case _ =>
      AppTrace(c, n0, s, t);
  }

  lemma AppTrace(c: Settings, n0: Node<bytes>, s: Session, t: Session)
    requires TraceInv(c, n0, s) && t == s.(input := t.input, open := t.open, ledger := t.ledger)
    ensures TraceInv(c, n0, t) && Calls(s, t, [])
  {
    hide Replay, Mark, PayloadData;
    ChainSame(s, t, [], false);
    ChainCalls(s, t, []);
  }

  lemma BeginTrace(c: Settings, e: Endpoint, id: bytes, now: Word)
    ensures var s := Begin(c, New(e), id, now); TraceInv(c, Node(e, [], [], [], []), s) && Calls(New(e), s, [])
  {
    hide Act, Greet, Replay, Chain;
    var n := New(e);
    var m := n.(hsEnd := Wrap(now + c.connectTimeout * 1000));
    var a := Act(m, DoNoDelay(1, 100, 0, 0));
    var t := a.(lastIo := a.node.e.clock.current);
    var s := Begin(c, n, id, now);
    ChainSame(n, m, [], false);
    ActChain(m, DoNoDelay(1, 100, 0, 0), [], false);
    ChainTrans(n, m, a, [], false);
    ChainSame(a, t, [], false);
    ChainTrans(n, a, t, [], false);
    if t.node.e.cfg.conv == SYN_CONV {
      var u := t.(client := true, id := id);
      var v := Act(u, DoSetConv(SYN_CONV));
      ChainSame(t, u, [], false);
      ActChain(u, DoSetConv(SYN_CONV), [], false);
      GreetChain(c, v, now, []);
      ChainTrans(n, t, u, [], false);
      ChainTrans(n, u, v, [], false);
      ChainTrans(n, v, s, [], false);
    }
    assert n.node == Replay(n.node, n.ops) by {
      ReplayNothing(n.node);
    }
    ChainKeeps(c, n.node, n, s, []);
    ChainCalls(n, s, []);
  }

  lemma ReplayNothing(n: Node<bytes>)
    ensures Replay(n, []) == n
  {
  }

  /**
    Over every run, the control block is what the recorded calls make of it, the transport got its
    packets in order, and a FIN was sent only with the input closed, everything before it
    acknowledged, and nothing after it.
  */
  lemma {:induction false} RunTrace(c: Settings, e: Endpoint, id: bytes, now: Word, evs: seq<SEvent>)
    ensures TraceInv(c, Node(e, [], [], [], []), RunSession(c, e, id, now, evs))
  {
    hide Step, Begin, TraceInv;
    if evs == [] {
      BeginTrace(c, e, id, now);
    } else {
      var init := evs[..|evs| - 1];
      RunTrace(c, e, id, now, init);
      RunControl(c, e, id, now, init, |init|);
      StepTrace(c, Node(e, [], [], [], []), RunSession(c, e, id, now, init), evs[|evs| - 1]);
    }
  }
}
