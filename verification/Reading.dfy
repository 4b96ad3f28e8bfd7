/** What `ikcp_recv` returns and takes, read off the receive queue. */
module Reading {
  import opened Serial
  import opened WireFormat
  import opened Endpoints
  import opened Invariants
  import opened Messages

  /** The data of some segments, put together. */
  function Joined(ws: seq<Wire>): bytes {
    if ws == [] then [] else Joined(ws[..|ws| - 1]) + ws[|ws| - 1].data
  }

  /** The first `n` segments are a message: up to the first one that none follows. */
  predicate FirstMessage(queue: seq<Wire>, n: nat) {
    && 1 <= n <= |queue| && (forall i | 0 <= i < n - 1 :: queue[i].frg != 0)
    && (queue[n - 1].frg == 0 || n == |queue|)
  }

  predicate Incomplete(queue: seq<Wire>)
    requires queue != []
  {
    queue[0].frg != 0 && |queue| <= queue[0].frg
  }

  lemma {:induction false} JoinedIs(a: seq<Wire>, last: Wire)
    ensures Payload(a + [last]) == Payload(a) + last.data
  {
    if a == [] {
      assert [last][1..] == [];
    } else {
      JoinedIs(a[1..], last);
      assert (a + [last])[1..] == a[1..] + [last];
    }
  }

  lemma {:induction false} PayloadIsJoined(ws: seq<Wire>)
    ensures Payload(ws) == Joined(ws)
  {
    if ws != [] {
      var init, last := ws[..|ws| - 1], ws[|ws| - 1];
      PayloadIsJoined(init);
      JoinedIs(init, last);
      assert init + [last] == ws;
    }
  }

  lemma {:induction false} SpanIsFirst(queue: seq<Wire>)
    requires queue != []
    ensures FirstMessage(queue, MessageSpan(queue))
  {
    if queue[0].frg != 0 && |queue| > 1 {
      SpanIsFirst(queue[1..]);
      var n := MessageSpan(queue);
      forall i | 0 <= i < n - 1
        ensures queue[i].frg != 0
      {
        assert i > 0 ==> queue[i] == queue[1..][i - 1];
      }
    }
  }

  /** After taking `left` off or leaving it: consecutive segments follow from `rcv_buf` while there is room. */
  ghost predicate MovedOn(ar: Arith, wnd: nat, r: Rcv, left: seq<Wire>, r': Rcv, k: nat) {
    && k <= |r.buf| && r'.queue == left + r.buf[..k] && r'.buf == r.buf[k..] && r'.nxt == ar.Norm(r.nxt + k)
    && r'.acks == r.acks
    && (r'.buf != [] && |r'.queue| < wnd ==> r'.buf[0].sn != r'.nxt)
  }

  /**
    Receiving, with room for `len` bytes, or peeking, with a negative `len`: the codes for an empty
    queue, an incomplete message and a buffer that is too small; otherwise the first message, which is
    taken off unless peeking, and what is next moves up.
  */
  lemma RecvOutcome(ar: Arith, e: Endpoint, len: int, n: nat) returns (k: nat)
    requires EndpointInv(ar, e) && (e.rcv.queue != [] ==> FirstMessage(e.rcv.queue, n))
    ensures var q, r := e.rcv.queue, Recv(ar, e, len);
            var room := if len < 0 then -len else len;
            if q == [] then r.code == -1 && r.data == [] && r.e == e
            else if Incomplete(q) then r.code == -2 && r.data == [] && r.e == e
            else if |Joined(q[..n])| > room then r.code == -3 && r.data == [] && r.e == e
            else
              && r.code == |r.data| && r.data == Joined(q[..n])
              && MovedOn(ar, e.cfg.rcvWnd, e.rcv, if len < 0 then q else q[n..], r.e.rcv, k)
              && r.e == e.(rcv := r.e.rcv, probe := r.e.probe)
  {
    hide Drain, RcvCore, SndInv;
    var q := e.rcv.queue;
    k := 0;
    if q != [] {
      SpanIsFirst(q);
      OneFirst(q, n, MessageSpan(q));
      PayloadIsJoined(q[..n]);
      if !Incomplete(q) {
        PeekIsPayload(q);
        var r := e.rcv.(queue := if len < 0 then q else q[n..]);
        assert len < 0 ==> r == e.rcv;
        k := Drains(ar, e, r, if len < 0 then 0 else n);
      }
    }
  }

  lemma OneFirst(queue: seq<Wire>, n: nat, m: nat)
    requires FirstMessage(queue, n) && FirstMessage(queue, m)
    ensures n == m
  {
  }

  lemma Drains(ar: Arith, e: Endpoint, r: Rcv, n: nat) returns (k: nat)
    requires EndpointInv(ar, e) && n <= |e.rcv.queue| && r == e.rcv.(queue := e.rcv.queue[n..])
    ensures MovedOn(ar, e.cfg.rcvWnd, e.rcv, r.queue, Drain(ar, e.cfg.rcvWnd, r), k)
  {
    hide Drain, SndInv, RcvOrder, Arith.Diff, Arith.Norm;
    PopKeeps(ar, e.cfg.rcvWnd, e.rcv, n);
    k := DrainShape(ar, e.cfg.rcvWnd, r);
  }
}
