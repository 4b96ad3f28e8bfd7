/** What a run never takes back: what a receiver holds it keeps holding, and histories only grow. */
module Closing {
  import opened Serial
  import opened WireFormat
  import opened Endpoints
  import opened Invariants
  import opened Wraparound
  import opened Packetization
  import opened Messages
  import opened Network
  import opened Safety
  import opened Steps
  import opened EndToEnd

  /* ---------------------------------------------------------------- what a run never takes back */

  /** The receiver holds at least as much, and the sender's history only grows. */
  ghost predicate Onward(x: Node<seq<Wire>>, x': Node<seq<Wire>>) {
    Grows(x.e.rcv, x'.e.rcv) && x.log <= x'.log && x.sent <= x'.sent && x.e.cfg.stream == x'.e.cfg.stream
    && x.e.cfg.mss == x'.e.cfg.mss
  }

  lemma RecvGrows(x: Node<seq<Wire>>, y: Node<seq<Wire>>, len: int)
    requires Pair(x, y)
    ensures Grows(x.e.rcv, Recv(Unbounded, x.e, len).e.rcv)
  {
    hide Held, Drain, AllHonest, Accepted, Delivered, SenderOk, NothingLost, PeekSize, MessageSpan, Payload, SndInv;
    var n := if len < 0 then 0 else MessageSpan(x.e.rcv.queue);
    assert x.e.rcv.(queue := x.e.rcv.queue[0..]) == x.e.rcv;
    PopSafe(x.e.cfg.rcvWnd, x.e.rcv, n, y.log);
    HeldSame(x.e.rcv, x.e.rcv);
  }

  lemma FlushRcv(e: Endpoint)
    ensures Flush(Unbounded, e).e.rcv == e.rcv.(acks := if e.clock.updated then [] else e.rcv.acks)
    ensures Flush(Unbounded, e).e.cfg == e.cfg
  {
  }

  lemma UpdateRcv(e: Endpoint, now: Word)
    ensures var r := Update(Unbounded, e, now).e;
            r.rcv.nxt == e.rcv.nxt && r.rcv.buf == e.rcv.buf && r.cfg == e.cfg
  {
    hide Flush, Advance;
    var (clock, due) := Advance(e.clock, e.cfg.interval, now);
    FlushRcv(e.(clock := clock));
  }

  lemma DeliverGrows(x: Node<seq<Wire>>, y: Node<seq<Wire>>, k: nat)
    requires Pair(x, y) && k < |y.out|
    ensures Grows(x.e.rcv, ReceiveU(x.e, y.out[k]).rcv) && ReceiveU(x.e, y.out[k]).cfg == x.e.cfg
  {
    hide Held, ReceiveU, Accepted, Delivered, EndpointInv, SenderOk, NothingLost, ReceiverOk;
    forall w | w in y.out[k]
      ensures Honest(y.log, y.e.rcv, w)
    {
      var i :| 0 <= i < |y.out[k]| && y.out[k][i] == w;
      assert Honest(y.log, y.e.rcv, y.out[k][i]);
    }
    ReceiveSafe(x, y, y.out[k]);
  }

  lemma StepOnward(x: Node<seq<Wire>>, y: Node<seq<Wire>>, act: Action)
    requires Pair(x, y)
    ensures Onward(x, StepU(x, y, act))
  {
    hide Pair, Send, Recv, Flush, Update, ReceiveU, Packets, Held;
    HeldSame(x.e.rcv, x.e.rcv);
    match act
    case DoRecv(len) =>
      RecvGrows(x, y, len);
      RecvCfg(x.e, len);
    case DoFlush =>
      FlushRcv(x.e);
      HeldSame(x.e.rcv, Flush(Unbounded, x.e).e.rcv);
    case DoUpdate(now) =>
      UpdateRcv(x.e, now);
      HeldSame(x.e.rcv, Update(Unbounded, x.e, now).e.rcv);
    case Deliver(k) =>
      if k < |y.out| {
        DeliverGrows(x, y, k);
      }
    case _ =>
  }

  lemma RecvCfg(e: Endpoint, len: int)
    ensures Recv(Unbounded, e, len).e.cfg == e.cfg
  {
  }

  /** Whatever one side holds at some point of a run, it holds at every later one. */
  lemma {:induction false} RunOnward(l: Endpoint, r: Endpoint, evs: seq<Event>, n: nat)
    requires Unused(l) && Unused(r) && n <= |evs|
    ensures Onward(RunU(l, r, evs[..n]).left, RunU(l, r, evs).left)
    ensures Onward(RunU(l, r, evs[..n]).right, RunU(l, r, evs).right)
  {
    hide StepU, Held, SystemInv;
    assert evs[..|evs|] == evs;
    if n < |evs| {
      var init, ev := evs[..|evs| - 1], evs[|evs| - 1];
      assert init[..n] == evs[..n];
      RunOnward(l, r, init, n);
      RunSafe(l, r, init);
      var s := RunU(l, r, init);
      InvPair(s);
      if ev.left {
        StepOnward(s.left, s.right, ev.act);
      } else {
        StepOnward(s.right, s.left, ev.act);
      }
    } else {
      var s := RunU(l, r, evs);
      HeldSame(s.left.e.rcv, s.left.e.rcv);
      HeldSame(s.right.e.rcv, s.right.e.rcv);
    }
  }

  lemma InvPair(s: System<seq<Wire>>)
    requires SystemInv(s)
    ensures Pair(s.left, s.right) && Pair(s.right, s.left)
  {
    hide EndpointInv, Direction, AllHonest;
  }
}
