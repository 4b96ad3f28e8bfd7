/**
  Fragmentation and reassembly: what a receive queue that holds the front of the sender's
  fragments hands to the application.
*/
module Messages {
  import opened Serial
  import opened WireFormat
  import opened Endpoints
  import opened Invariants
  import opened Packetization

  /** The segments of one message in message mode. */
  function Message(mss: pos, data: bytes): (r: seq<Frag>)
    ensures |r| == FragmentCount(mss, |data|)
  {
    FragmentCountFits(mss, |data|);
    Fragments(mss, false, data, FragmentCount(mss, |data|))
  }

  function AllFragments(mss: pos, msgs: seq<bytes>): seq<Frag>
  {
    if msgs == [] then [] else Message(mss, msgs[0]) + AllFragments(mss, msgs[1..])
  }

  lemma {:induction false} AllFragmentsAppend(mss: pos, a: seq<bytes>, b: seq<bytes>)
    ensures AllFragments(mss, a + b) == AllFragments(mss, a) + AllFragments(mss, b)
  {
    hide Message;
    if a == [] {
      assert a + b == b;
    } else {
      AllFragmentsAppend(mss, a[1..], b);
      assert (a + b)[1..] == a[1..] + b;
    }
  }

  lemma AllFragmentsOne(mss: pos, m: bytes)
    ensures AllFragments(mss, [m]) == Message(mss, m)
  {
    assert [m][1..] == [];
  }

  function FragData(fs: seq<Frag>): bytes {
    if fs == [] then [] else fs[0].data + FragData(fs[1..])
  }

  lemma {:induction false} FragDataAppend(a: seq<Frag>, b: seq<Frag>)
    ensures FragData(a + b) == FragData(a) + FragData(b)
  {
    if a == [] {
      assert a + b == b;
    } else {
      FragDataAppend(a[1..], b);
      assert (a + b)[1..] == a[1..] + b && (a + b)[0] == a[0];
      assert a[0].data + (FragData(a[1..]) + FragData(b)) == (a[0].data + FragData(a[1..])) + FragData(b);
    }
  }

  /** One full piece less needs one segment less. */
  lemma PieceLess(mss: pos, len: nat, count: nat)
    requires count > 0 && len <= count * mss
    ensures len - Min(len, mss) <= (count - 1) * mss
    ensures count > 1 && (count - 1) * mss < len ==> mss < len && (count - 2) * mss < len - mss
  {
    assert count * mss == (count - 1) * mss + mss;
    assert 0 <= (count - 1) * mss;
    if count > 1 {
      assert (count - 1) * mss == (count - 2) * mss + mss;
      assert 0 <= (count - 2) * mss;
    }
  }

  lemma {:induction false} FragmentsData(mss: pos, stream: bool, data: bytes, count: nat)
    requires |data| <= count * mss
    ensures FragData(Fragments(mss, stream, data, count)) == data
  {
    if count > 0 {
      var size := Min(|data|, mss);
      PieceLess(mss, |data|, count);
      FragmentsData(mss, stream, data[size..], count - 1);
      var fs := Fragments(mss, stream, data, count);
      assert fs[1..] == Fragments(mss, stream, data[size..], count - 1);
    }
  }

  function FragsOf(queue: seq<Wire>): (r: seq<Frag>)
    ensures |r| == |queue|
  {
    seq(|queue|, i requires 0 <= i < |queue| => Frag(queue[i].frg, queue[i].data))
  }

  lemma {:induction false} PayloadOf(queue: seq<Wire>)
    ensures Payload(queue) == FragData(FragsOf(queue))
  {
    if queue != [] {
      PayloadOf(queue[1..]);
      assert FragsOf(queue)[1..] == FragsOf(queue[1..]);
    }
  }

  lemma {:induction false} SpanOf(queue: seq<Wire>, count: nat)
    requires 0 < count <= |queue|
    requires forall i | 0 <= i < count :: queue[i].frg == count - 1 - i
    ensures MessageSpan(queue) == count
  {
    if count > 1 {
      SpanOf(queue[1..], count - 1);
    }
  }

  lemma MessageShape(mss: pos, m: bytes)
    ensures |Message(mss, m)| >= 1
    ensures forall i | 0 <= i < |Message(mss, m)| :: Message(mss, m)[i].frg == |Message(mss, m)| - 1 - i
    ensures FragData(Message(mss, m)) == m
  {
    var count := FragmentCount(mss, |m|);
    FragmentCountFits(mss, |m|);
    FragmentsShape(mss, false, m, count);
    FragmentsData(mss, false, m, count);
  }

  /**
    A queue whose segments are the front of the remaining fragments of `msgs`: peeking succeeds
    exactly when the whole first message is there, and receiving then yields exactly that message.
  */
  lemma Reassembly(mss: pos, msgs: seq<bytes>, queue: seq<Wire>)
    requires queue != [] && FragsOf(queue) <= AllFragments(mss, msgs)
    ensures msgs != []
    ensures PeekSize(queue) >= 0 <==> |Message(mss, msgs[0])| <= |queue|
    ensures PeekSize(queue) >= 0 ==>
              && PeekSize(queue) == |msgs[0]| && MessageSpan(queue) == |Message(mss, msgs[0])|
              && Payload(queue[..MessageSpan(queue)]) == msgs[0]
  {
    var m := msgs[0];
    var fs := Message(mss, m);
    hide Message;
    MessageShape(mss, m);
    assert FragsOf(queue)[0] == fs[0];
    if |fs| <= |queue| {
      forall i | 0 <= i < |fs|
        ensures FragsOf(queue)[i] == fs[i]
      {
      }
      assert forall i | 0 <= i < |fs| :: queue[i].frg == FragsOf(queue)[i].frg;
      SpanOf(queue, |fs|);
      assert FragsOf(queue[..|fs|]) == fs;
      PayloadOf(queue[..|fs|]);
      assert queue[..1] == [queue[0]];
      assert Payload([queue[0]]) == queue[0].data;
    }
  }

  /** `ikcp_recv` always copies exactly `ikcp_peeksize` bytes, whatever is queued. */
  lemma PeekIsPayload(queue: seq<Wire>)
    requires PeekSize(queue) >= 0
    ensures PeekSize(queue) == |Payload(queue[..MessageSpan(queue)])|
  {
    if queue[0].frg == 0 {
      assert queue[..1] == [queue[0]];
      assert Payload([queue[0]]) == queue[0].data + Payload([queue[0]][1..]);
    }
  }

  /** No receive deadlock: a full queue always has a message to hand over, even one filled by garbage. */
  lemma FullQueueReadable(ar: Arith, e: Endpoint, len: int)
    requires EndpointInv(ar, e) && |e.rcv.queue| >= e.cfg.rcvWnd
    ensures PeekSize(e.rcv.queue) >= 0
    ensures len >= PeekSize(e.rcv.queue) ==> Recv(ar, e, len).code == PeekSize(e.rcv.queue)
  {
    hide Drain;
    PeekIsPayload(e.rcv.queue);
  }

  lemma FactorLess(a: int, b: int, m: nat)
    requires a * m < b * m
    ensures a < b
  {
    assert (b - a) * m == b * m - a * m;
  }

  /** `ikcp_send` accepts exactly what, beyond the room in the last segment, fits 255 segments. */
  lemma SendAccepts(cfg: Config, queue: seq<Frag>, data: bytes)
    requires ConfigInv(cfg)
    ensures Send(cfg, queue, data).code == 0 <==>
            |data| - Extension(cfg, queue, data) <= (cfg.mtu - OVERHEAD) * (WND_RCV - 1)
  {
    hide FragmentCount, Extension, Extend;
    var n := |data| - Extension(cfg, queue, data);
    var count := FragmentCount(cfg.mss, n);
    FragmentCountFits(cfg.mss, n);
    if n <= cfg.mss * (WND_RCV - 1) {
      FactorLess(count - 1, WND_RCV - 1, cfg.mss);
    } else {
      FactorLess(WND_RCV - 1, count, cfg.mss);
    }
  }

  /** Up to `max_frame_size(mtu)` bytes are accepted in one call, in both modes. */
  lemma MaxFrameAccepted(cfg: Config, queue: seq<Frag>, data: bytes)
    requires ConfigInv(cfg) && |data| <= (cfg.mtu - OVERHEAD) * (WND_RCV - 1)
    ensures Send(cfg, queue, data).code == 0
  {
    hide Send;
    SendAccepts(cfg, queue, data);
  }

  /** Non-empty data makes non-empty fragments only. */
  lemma {:induction false} FragmentsNonEmpty(mss: pos, stream: bool, data: bytes, count: nat)
    requires |data| <= count * mss && (count == 0 || (count - 1) * mss < |data|)
    ensures forall f | f in Fragments(mss, stream, data, count) :: 0 < |f.data| <= mss
  {
    if count > 0 {
      var size := Min(|data|, mss);
      PieceLess(mss, |data|, count);
      FragmentsNonEmpty(mss, stream, data[size..], count - 1);
    }
  }

  lemma {:induction false} FragmentsFull(mss: pos, stream: bool, data: bytes, count: nat)
    requires count == 0 || (count - 1) * mss <= |data|
    ensures forall i | 0 <= i < count - 1 :: |Fragments(mss, stream, data, count)[i].data| == mss
  {
    if count > 1 {
      var size := Min(|data|, mss);
      assert (count - 1) * mss == (count - 2) * mss + mss && 0 <= (count - 2) * mss;
      FragmentsFull(mss, stream, data[size..], count - 1);
    }
  }

  /** Every segment from the i-th on is full, but for the last. */
  predicate FullFrom(mss: pos, queue: seq<Frag>, i: int) {
    forall j | 0 <= j && i <= j < |queue| - 1 :: |queue[j].data| >= mss
  }

  predicate NoneEmpty(queue: seq<Frag>, from: nat) {
    forall i | from <= i < |queue| :: queue[i].data != []
  }

  /** Only the last queued segment has grown; it is full if that was not enough. */
  predicate Grew(mss: pos, queue: seq<Frag>, queue': seq<Frag>, enough: bool) {
    var n := |queue| - 1;
    |queue'| >= |queue| && (queue != [] ==>
      queue'[..n] == queue[..n] && queue[n].data <= queue'[n].data && (!enough ==> |queue'[n].data| >= mss))
  }

  lemma ExtendGrows(cfg: Config, queue: seq<Frag>, data: bytes)
    ensures var r := Extend(cfg, queue, data);
            && |r| == |queue| && (!cfg.stream ==> r == queue && Extension(cfg, queue, data) == 0)
            && (cfg.stream ==> Grew(cfg.mss, queue, r, Extension(cfg, queue, data) == |data|))
  {
  }

  lemma MoreGrew(mss: pos, queue: seq<Frag>, ext: seq<Frag>, more: seq<Frag>, enough: bool)
    requires Grew(mss, queue, ext, enough)
    ensures Grew(mss, queue, ext + more, enough)
  {
  }

  lemma FullMore(mss: pos, ext: seq<Frag>, more: seq<Frag>, i: int)
    requires forall j | 0 <= j < |more| - 1 :: |more[j].data| == mss
    requires i == |ext| || (i == |ext| - 1 && (ext == [] || |ext[i].data| >= mss))
    ensures FullFrom(mss, ext + more, i)
  {
    forall j | 0 <= j && i <= j < |ext + more| - 1
      ensures |(ext + more)[j].data| >= mss
    {
      assert (ext + more)[j] == if j < |ext| then ext[j] else more[j - |ext|];
    }
  }

  /**
    A send wastes nothing: no segment starts before the one in front of it, in stream mode the last
    queued one too, is full; and a stream that does not fit fills what there is.
  */
  lemma SendFills(cfg: Config, queue: seq<Frag>, data: bytes)
    ensures var r := Send(cfg, queue, data);
            && |queue| <= |r.queue| && FullFrom(cfg.mss, r.queue, if cfg.stream then |queue| - 1 else |queue|)
            && (!cfg.stream ==> queue <= r.queue) && (cfg.stream ==> Grew(cfg.mss, queue, r.queue, r.code == 0))
            && (cfg.stream ==> NoneEmpty(r.queue, |queue|))
  {
    hide FragmentCount, Extension, Extend, Grew, FullFrom, Fragments, NoneEmpty;
    var n := Extension(cfg, queue, data);
    var ext, left := Extend(cfg, queue, data), data[n..];
    var count := FragmentCount(cfg.mss, |left|);
    var more := Fragments(cfg.mss, cfg.stream, left, count);
    ExtendGrows(cfg, queue, data);
    FragmentCountFits(cfg.mss, |left|);
    FragmentsFull(cfg.mss, cfg.stream, left, count);
    assert ext + [] == ext;
    if cfg.stream {
      GrewMeans(cfg.mss, queue, ext, n == |data|);
      MoreGrew(cfg.mss, queue, ext, more, n == |data|);
      GrewMeans(cfg.mss, queue, ext + more, n == |data|);
      NewNotEmpty(cfg.mss, ext, left, count);
    }
    if left != [] || !cfg.stream {
      FullMore(cfg.mss, ext, more, if cfg.stream then |queue| - 1 else |queue|);
    }
    FullMore(cfg.mss, ext, [], |ext|);
    FullLast(cfg.mss, ext);
  }

  lemma GrewMeans(mss: pos, queue: seq<Frag>, ext: seq<Frag>, enough: bool)
    requires Grew(mss, queue, ext, enough)
    ensures !enough && queue != [] ==> |ext[|queue| - 1].data| >= mss
    ensures Grew(mss, queue, ext, true)
  {
  }

  lemma FullLast(mss: pos, ext: seq<Frag>)
    ensures FullFrom(mss, ext, |ext| - 1)
  {
  }

  lemma NewNotEmpty(mss: pos, ext: seq<Frag>, left: bytes, count: nat)
    requires count == FragmentCount(mss, |left|)
    ensures NoneEmpty(ext, |ext|)
    ensures left != [] ==> NoneEmpty(ext + Fragments(mss, true, left, count), |ext|)
  {
    hide FragmentCount;
    FragmentCountFits(mss, |left|);
    if left != [] {
      FragmentsNonEmpty(mss, true, left, count);
      var more := Fragments(mss, true, left, count);
      forall i | |ext| <= i < |ext + more|
        ensures (ext + more)[i].data != []
      {
        assert (ext + more)[i] == more[i - |ext|] && more[i - |ext|] in more;
      }
    }
  }

  /* ---------------------------------------------------------------- a send that fails */

  /** The last queued segment would take more bytes of a stream. */
  predicate Extensible(cfg: Config, queue: seq<Frag>) {
    cfg.stream && queue != [] && |queue[|queue| - 1].data| < cfg.mss
  }

  /**
    A failing `ikcp_send` leaves the queue as it was exactly when there was no half-full segment for
    it to fill first; otherwise it has queued the bytes that fitted.
  */
  lemma FailedSend(cfg: Config, queue: seq<Frag>, data: bytes)
    requires Send(cfg, queue, data).code != 0
    ensures var r := Send(cfg, queue, data);
            && (r.queue == queue <==> !Extensible(cfg, queue))
            && (r.taken == [] <==> !Extensible(cfg, queue))
            && r.taken == data[..Extension(cfg, queue, data)] && |r.queue| == |queue|
  {
    if Extensible(cfg, queue) {
      var n, last := Extension(cfg, queue, data), |queue| - 1;
      assert n >= 1;
      assert |Send(cfg, queue, data).queue[last].data| == |queue[last].data| + n;
    }
  }

  /** Such a send exists: one byte queued, and 255 full segments and more to come. */
  lemma FailedSendTakesData(cfg: Config)
    requires cfg.stream && cfg.mss == 26
    ensures var queue, data := [Frag(0, [0])], seq(26 * 256, i => 0);
            Send(cfg, queue, data).code == -2 && |Send(cfg, queue, data).taken| == 25
  {
  }
}
