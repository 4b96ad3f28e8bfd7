/**
  What every endpoint operation keeps, in either arithmetic and for any input: the order and the
  extent of the send and receive buffers.
*/
module Invariants {
  import opened Serial
  import opened WireFormat
  import opened Endpoints

  /* ---------------------------------------------------------------- sender */

  /** No more segments than this are ever in flight: `rmt_wnd` has 16 bits. */
  function FlightLimit(cfg: Config): nat {
    Min(cfg.sndWnd, 65535)
  }

  /** The distance of a segment from `base`. */
  function Off(ar: Arith, base: int, s: SndSeg): int {
    ar.Diff(s.w.sn, base)
  }

  ghost predicate SndOrder(ar: Arith, base: nat, buf: seq<SndSeg>, n: int) {
    && (forall i | 0 <= i < |buf| :: ar.Is(buf[i].w.sn) && 0 <= Off(ar, base, buf[i]) < n)
    && (forall i, j | 0 <= i < j < |buf| :: Off(ar, base, buf[i]) < Off(ar, base, buf[j]))
  }

  /** `snd_buf` is strictly increasing within [`snd_una`, `snd_nxt`). */
  ghost predicate SndCore(ar: Arith, s: Snd, limit: nat) {
    && ar.Is(s.una) && ar.Is(s.nxt)
    && 0 <= ar.Diff(s.nxt, s.una) <= limit
    && SndOrder(ar, s.una, s.buf, ar.Diff(s.nxt, s.una))
  }

  /** And `snd_una` is its head, or `snd_nxt` when it is empty. */
  ghost predicate SndInv(ar: Arith, s: Snd, limit: nat) {
    && SndCore(ar, s, limit)
    && s.una == Shrink(s).una
  }

  lemma DiffRebase(ar: Arith, x: int, y: int, z: int)
    requires ar.Bits32? ==> 0 <= ar.Diff(x, z) && 0 <= ar.Diff(y, z)
    ensures ar.Diff(x, y) == ar.Diff(x, z) - ar.Diff(y, z)
  {
    if ar.Bits32? {
      var k := SignedShape(x - z);
      var l := SignedShape(y - z);
      SignedUnique(x - y, k - l, ar.Diff(x, z) - ar.Diff(y, z));
    }
  }

  /** Removing segments and then re-reading `snd_una` keeps the invariant and never moves `snd_una` back. */
  lemma ShrinkKeeps(ar: Arith, s: Snd, limit: nat)
    requires limit <= 65535 && SndCore(ar, s, limit)
    ensures SndInv(ar, Shrink(s), limit)
    ensures 0 <= ar.Diff(Shrink(s).una, s.una) <= ar.Diff(s.nxt, s.una)
    ensures ar.Diff(s.nxt, Shrink(s).una) == ar.Diff(s.nxt, s.una) - ar.Diff(Shrink(s).una, s.una)
  {
    var una := Shrink(s).una;
    DiffRebase(ar, s.nxt, una, s.una);
    forall i | 0 <= i < |s.buf|
      ensures Off(ar, una, s.buf[i]) == Off(ar, s.una, s.buf[i]) - ar.Diff(una, s.una)
    {
      DiffRebase(ar, s.buf[i].w.sn, una, s.una);
    }
  }

  lemma {:induction false} ParseUnaSuffix(ar: Arith, buf: seq<SndSeg>, una: nat) returns (k: nat)
    ensures k <= |buf| && ParseUna(ar, buf, una) == buf[k..]
    ensures forall i | 0 <= i < k :: ar.Diff(una, buf[i].w.sn) > 0
    ensures k < |buf| ==> ar.Diff(una, buf[k].w.sn) <= 0
  {
    if buf != [] && ar.Diff(una, buf[0].w.sn) > 0 {
      var l := ParseUnaSuffix(ar, buf[1..], una);
      k := l + 1;
    } else {
      k := 0;
    }
  }

  lemma InputUnaKeeps(ar: Arith, s: Snd, limit: nat, una: nat)
    requires limit <= 65535 && SndInv(ar, s, limit)
    ensures SndInv(ar, InputUna(ar, s, una), limit)
    ensures 0 <= ar.Diff(InputUna(ar, s, una).una, s.una) <= ar.Diff(s.nxt, s.una)
  {
    var k := ParseUnaSuffix(ar, s.buf, una);
    ShrinkKeeps(ar, s.(buf := s.buf[k..]), limit);
  }

  lemma SkipOne<T>(s: seq<T>, k: nat)
    requires 1 <= k < |s|
    ensures [s[0]] + (s[1..][..k - 1] + s[1..][k..]) == s[..k] + s[k + 1..]
    ensures s[1..][k - 1] == s[k]
  {
  }

  /** `ikcp_parse_ack` either removes one segment, which has that number, or finds none. */
  lemma {:induction false} RemoveAckedShape(ar: Arith, buf: seq<SndSeg>, sn: nat) returns (k: nat)
    ensures k <= |buf|
    ensures k < |buf| ==> buf[k].w.sn == sn && RemoveAcked(ar, buf, sn) == buf[..k] + buf[k + 1..]
    ensures k == |buf| ==> RemoveAcked(ar, buf, sn) == buf
  {
    hide Arith.Diff;
    k := |buf|;
    if buf != [] {
      if buf[0].w.sn == sn {
        k := 0;
        assert buf[..0] + buf[1..] == buf[1..];
      } else if ar.Diff(sn, buf[0].w.sn) >= 0 {
        var l := RemoveAckedShape(ar, buf[1..], sn);
        k := l + 1;
        assert [buf[0]] + buf[1..] == buf;
        if k < |buf| {
          SkipOne(buf, k);
        }
      }
    }
  }

  lemma InputAckKeeps(ar: Arith, s: Snd, limit: nat, sn: nat)
    requires limit <= 65535 && SndInv(ar, s, limit)
    ensures SndInv(ar, InputAck(ar, s, sn), limit)
    ensures 0 <= ar.Diff(InputAck(ar, s, sn).una, s.una) <= ar.Diff(s.nxt, s.una)
  {
    var k := RemoveAckedShape(ar, s.buf, sn);
    ShrinkKeeps(ar, s.(buf := ParseAck(ar, s, sn)), limit);
  }

  function Without(buf: seq<SndSeg>, sn: nat): seq<SndSeg> {
    if buf == [] then []
    else (if buf[0].w.sn == sn then [] else [buf[0]]) + Without(buf[1..], sn)
  }

  lemma {:induction false} WithoutAbsent(buf: seq<SndSeg>, sn: nat)
    requires forall i | 0 <= i < |buf| :: buf[i].w.sn != sn
    ensures Without(buf, sn) == buf
  {
    if buf != [] {
      WithoutAbsent(buf[1..], sn);
    }
  }

  lemma {:induction false} RemoveAckedExact(ar: Arith, base: nat, buf: seq<SndSeg>, n: int, sn: nat)
    requires n <= 65535 && SndOrder(ar, base, buf, n) && ar.Is(sn) && 0 <= ar.Diff(sn, base) < n
    ensures RemoveAcked(ar, buf, sn) == Without(buf, sn)
  {
    if buf != [] {
      DiffRebase(ar, sn, buf[0].w.sn, base);
      if buf[0].w.sn == sn || ar.Diff(sn, buf[0].w.sn) < 0 {
        assert forall i | 1 <= i < |buf| :: Off(ar, base, buf[i]) > Off(ar, base, buf[0]);
        WithoutAbsent(buf[1..], sn);
      } else {
        RemoveAckedExact(ar, base, buf[1..], n, sn);
      }
    }
  }

  /** The guarded early-exit scan of `ikcp_parse_ack` is plain removal, for any number at all. */
  lemma ParseAckIsRemoval(ar: Arith, s: Snd, limit: nat, sn: nat)
    requires limit <= 65535 && SndInv(ar, s, limit) && ar.Is(sn)
    ensures ParseAck(ar, s, sn) == Without(s.buf, sn)
  {
    if InFlight(ar, s, sn) {
      DiffRebase(ar, s.nxt, sn, s.una);
      DiffNegate(ar, s.nxt, sn);
      RemoveAckedExact(ar, s.una, s.buf, ar.Diff(s.nxt, s.una), sn);
    } else {
      forall i | 0 <= i < |s.buf|
        ensures s.buf[i].w.sn != sn
      {
        DiffRebase(ar, s.nxt, s.buf[i].w.sn, s.una);
        DiffNegate(ar, s.nxt, s.buf[i].w.sn);
      }
      WithoutAbsent(s.buf, sn);
    }
  }

  function Unacked(ar: Arith, buf: seq<SndSeg>, una: nat): seq<SndSeg> {
    if buf == [] then []
    else (if ar.Diff(una, buf[0].w.sn) > 0 then [] else [buf[0]]) + Unacked(ar, buf[1..], una)
  }

  lemma {:induction false} UnackedLength(ar: Arith, buf: seq<SndSeg>, una: nat)
    ensures |Unacked(ar, buf, una)| <= |buf|
    ensures |Unacked(ar, buf, una)| == |buf| <==> forall i | 0 <= i < |buf| :: ar.Diff(una, buf[i].w.sn) <= 0
    ensures |Unacked(ar, buf, una)| == |buf| ==> Unacked(ar, buf, una) == buf
  {
    hide Arith.Diff;
    if buf != [] {
      UnackedLength(ar, buf[1..], una);
      assert forall i | 1 <= i < |buf| :: buf[i] == buf[1..][i - 1];
    }
  }

  /**
    The early-exit scan of `ikcp_parse_una` is plain removal of everything before `una` exactly
    when `una` does not tear the buffer: it may not be before the first segment and, half the
    number circle further, after the last one.
  */
  lemma {:induction false} ParseUnaIsRemoval(ar: Arith, base: nat, buf: seq<SndSeg>, n: int, una: nat)
    requires n <= 65535 && SndOrder(ar, base, buf, n)
    ensures ParseUna(ar, buf, una) == Unacked(ar, buf, una) <==>
            !(buf != [] && ar.Diff(una, buf[0].w.sn) <= 0 && ar.Diff(una, buf[|buf| - 1].w.sn) > 0)
  {
    hide Arith.Diff;
    UnackedLength(ar, buf, una);
    if buf != [] {
      var last := buf[|buf| - 1];
      if ar.Diff(una, buf[0].w.sn) > 0 {
        ParseUnaIsRemoval(ar, base, buf[1..], n, una);
        if |buf| > 1 && ar.Diff(una, buf[1].w.sn) <= 0 && ar.Diff(una, last.w.sn) > 0 {
          NoSecondTear(ar, base, una, buf[0].w.sn, buf[1].w.sn, last.w.sn, n);
        }
      } else if ar.Diff(una, last.w.sn) <= 0 {
        forall i | 0 <= i < |buf|
          ensures ar.Diff(una, buf[i].w.sn) <= 0
        {
          if ar.Diff(una, buf[i].w.sn) > 0 {
            NoTear(ar, base, una, buf[0].w.sn, buf[i].w.sn, last.w.sn, n);
          }
        }
      }
    }
  }

  /** Segments 0 and 1, and a `una` half the number circle on: the scan stops before what it should remove. */
  lemma ParseUnaTorn(a: SndSeg, b: SndSeg)
    requires a.w.sn == 0 && b.w.sn == 1
    ensures SndOrder(Bits32, 0, [a, b], 2)
    ensures ParseUna(Bits32, [a, b], 0x8000_0000) == [a, b] && Unacked(Bits32, [a, b], 0x8000_0000) == [a]
  {
    assert Signed(0x8000_0000) == -TWO31 && Signed(0x7fff_ffff) == 0x7fff_ffff;
    assert [a, b][1..] == [b] && [b][1..] == [];
    assert Unacked(Bits32, [b], 0x8000_0000) == [];
  }

  /** Going up a short run of numbers, `una` is crossed at most once in each direction. */
  lemma NoTear(ar: Arith, base: nat, una: nat, x: nat, y: nat, z: nat, n: int)
    requires n <= 65535
    requires 0 <= ar.Diff(x, base) <= ar.Diff(y, base) <= ar.Diff(z, base) < n
    requires ar.Diff(una, x) <= 0 && ar.Diff(una, y) > 0
    ensures ar.Diff(una, z) > 0
  {
    if ar.Bits32? {
      DiffRebase(ar, y, x, base);
      DiffRebase(ar, z, x, base);
      var a := ar.Diff(una, x);
      var k := SignedShape(una - x);
      var l := SignedShape(y - x);
      var m := SignedShape(z - x);
      if a - ar.Diff(y, x) >= -TWO31 {
        SignedUnique(una - y, k - l, a - ar.Diff(y, x));
      } else {
        SignedUnique(una - z, k - m - 1, a - ar.Diff(z, x) + TWO32);
      }
    }
  }

  lemma NoSecondTear(ar: Arith, base: nat, una: nat, x: nat, y: nat, z: nat, n: int)
    requires n <= 65535
    requires 0 <= ar.Diff(x, base) <= ar.Diff(y, base) <= ar.Diff(z, base) < n
    requires ar.Diff(una, x) > 0 && ar.Diff(una, y) <= 0
    ensures ar.Diff(una, z) <= 0
  {
    if ar.Bits32? {
      DiffRebase(ar, y, x, base);
      DiffRebase(ar, z, x, base);
      var a := ar.Diff(una, x);
      var k := SignedShape(una - x);
      var m := SignedShape(z - x);
      SignedUnique(una - z, k - m, a - ar.Diff(z, x));
      var l := SignedShape(y - x);
      SignedUnique(una - y, k - l, a - ar.Diff(y, x));
    }
  }

  lemma {:induction false} BumpFastackSame(ar: Arith, buf: seq<SndSeg>, sn: nat)
    ensures var r := BumpFastack(ar, buf, sn);
            |r| == |buf| && forall i | 0 <= i < |buf| :: r[i] == buf[i].(fastack := r[i].fastack)
  {
    if buf != [] {
      BumpFastackSame(ar, buf[1..], sn);
    }
  }

  function PromoteOne(ar: Arith, e: Endpoint, s: Snd): Snd
    requires s.queue != []
  {
    s.(nxt := ar.Norm(s.nxt + 1), queue := s.queue[1..], buf := s.buf + [Numbered(e, s.nxt, s.queue[0])])
  }

  /** Numbering: `snd_buf` grows at its end, by a front of the queue, with consecutive numbers. */
  lemma {:induction false} PromoteShape(ar: Arith, e: Endpoint, s: Snd, window: nat) returns (k: nat)
    requires ar.Is(s.nxt)
    ensures var r := Promote(ar, e, s, window);
            && r.una == s.una && r.nxt == ar.Norm(s.nxt + k)
            && k <= |s.queue| && r.queue == s.queue[k..] && |r.buf| == |s.buf| + k && r.buf[..|s.buf|] == s.buf
            && forall i | 0 <= i < k :: r.buf[|s.buf| + i] == Numbered(e, ar.Norm(s.nxt + i), s.queue[i])
    decreases |s.queue|
  {
    hide Arith.Diff, Arith.Norm, Numbered;
    k := 0;
    NormOf(ar, s.nxt);
    if s.queue != [] && ar.Diff(s.nxt, ar.Norm(s.una + window)) < 0 {
      var s1 := PromoteOne(ar, e, s);
      NormAgain(ar, s.nxt + 1, 0);
      var l := PromoteShape(ar, e, s1, window);
      k := l + 1;
      var r := Promote(ar, e, s, window);
      assert r.buf[|s.buf|] == r.buf[..|s1.buf|][|s.buf|];
      assert r.buf[..|s.buf|] == r.buf[..|s1.buf|][..|s.buf|];
      forall i | 0 <= i < k
        ensures r.buf[|s.buf| + i] == Numbered(e, ar.Norm(s.nxt + i), s.queue[i])
      {
        if i > 0 {
          NormAgain(ar, s.nxt + 1, i - 1);
          assert r.buf[|s.buf| + i] == r.buf[|s1.buf| + (i - 1)];
        }
      }
      NormAgain(ar, s.nxt + 1, l);
    }
  }

  lemma PromoteOneKeeps(ar: Arith, e: Endpoint, s: Snd, window: nat, limit: nat)
    requires window <= limit <= 65535 && SndInv(ar, s, limit) && s.queue != []
    requires ar.Diff(s.nxt, ar.Norm(s.una + window)) < 0
    ensures SndInv(ar, PromoteOne(ar, e, s), limit)
    ensures ar.Diff(PromoteOne(ar, e, s).nxt, s.una) == ar.Diff(s.nxt, s.una) + 1
  {
    hide Arith.Diff, Arith.Norm;
    DiffZero(ar, s.una, s.una);
    DiffAdvance(ar, s.una, window, s.una);
    DiffRebase(ar, s.nxt, ar.Norm(s.una + window), s.una);
    DiffAdvance(ar, s.nxt, 1, s.una);
  }

  /** Numbering stays within the window. */
  lemma {:induction false} PromoteKeeps(ar: Arith, e: Endpoint, s: Snd, window: nat, limit: nat)
    requires window <= limit <= 65535 && SndInv(ar, s, limit)
    ensures SndInv(ar, Promote(ar, e, s, window), limit)
    decreases |s.queue|
  {
    hide Arith.Diff, Arith.Norm, SndInv;
    if s.queue != [] && ar.Diff(s.nxt, ar.Norm(s.una + window)) < 0 {
      PromoteOneKeeps(ar, e, s, window, limit);
      PromoteKeeps(ar, e, PromoteOne(ar, e, s), window, limit);
    }
  }

  lemma NormOf(ar: Arith, x: nat)
    requires ar.Is(x)
    ensures ar.Norm(x) == x
  {
  }

  lemma NormAgain(ar: Arith, x: nat, n: nat)
    ensures ar.Norm(ar.Norm(x) + n) == ar.Norm(x + n) && ar.Is(ar.Norm(x))
  {
  }

  /** Retransmission changes neither the numbers nor the payloads of `snd_buf`. */
  lemma TickSame(e: Endpoint, s: SndSeg)
    ensures var t := Tick(e, s);
            t.w == s.w.(ts := t.w.ts, wnd := t.w.wnd, una := t.w.una)
  {
  }

  /* ---------------------------------------------------------------- receiver */

  ghost predicate RcvOrder(ar: Arith, base: nat, buf: seq<Wire>, n: int) {
    && (forall i | 0 <= i < |buf| :: ar.Is(buf[i].sn) && 0 <= ar.Diff(buf[i].sn, base) < n)
    && (forall i, j | 0 <= i < j < |buf| :: ar.Diff(buf[i].sn, base) < ar.Diff(buf[j].sn, base))
  }

  /**
    `rcv_queue` holds consecutive numbers up to `rcv_nxt - 1` and at most a window of them;
    `rcv_buf` is strictly increasing within [`rcv_nxt`, `rcv_nxt + rcv_wnd`).
  */
  ghost predicate RcvCore(ar: Arith, r: Rcv, wnd: nat) {
    && ar.Is(r.nxt) && |r.queue| <= wnd
    && (forall i | 0 <= i < |r.queue| ::
          ar.Is(r.queue[i].sn) && r.queue[i].frg < 256 && ar.Diff(r.nxt, r.queue[i].sn) == |r.queue| - i)
    && RcvOrder(ar, r.nxt, r.buf, wnd)
    && (forall i | 0 <= i < |r.buf| :: r.buf[i].frg < 256)
    && (forall i | 0 <= i < |r.acks| :: ar.Is(r.acks[i].sn))
  }

  /** Nothing in `rcv_buf` could be moved to `rcv_queue`. */
  ghost predicate Drained(r: Rcv, wnd: nat) {
    r.buf != [] && |r.queue| < wnd ==> r.buf[0].sn != r.nxt
  }

  ghost predicate RcvInv(ar: Arith, r: Rcv, wnd: nat) {
    RcvCore(ar, r, wnd) && Drained(r, wnd)
  }

  /** Insertion loses nothing, adds at most the new segment, and leaves its number in the buffer. */
  lemma {:induction false} InsertElements(ar: Arith, buf: seq<Wire>, w: Wire) returns (i: nat)
    ensures forall x | x in Insert(ar, buf, w) :: x in buf || x == w
    ensures forall x | x in buf :: x in Insert(ar, buf, w)
    ensures i < |Insert(ar, buf, w)| && Insert(ar, buf, w)[i].sn == w.sn
  {
    i := |buf|;
    if buf != [] {
      var n := |buf| - 1;
      if buf[n].sn == w.sn {
        i := n;
      } else if ar.Diff(w.sn, buf[n].sn) <= 0 {
        i := InsertElements(ar, buf[..n], w);
        assert buf == buf[..n] + [buf[n]];
      }
    }
  }

  lemma SnocOrder(ar: Arith, base: nat, front: seq<Wire>, last: Wire, n: int)
    requires RcvOrder(ar, base, front, n) && ar.Is(last.sn) && 0 <= ar.Diff(last.sn, base) < n
    requires forall i | 0 <= i < |front| :: ar.Diff(front[i].sn, base) < ar.Diff(last.sn, base)
    ensures RcvOrder(ar, base, front + [last], n)
  {
    hide Arith.Diff;
  }

  lemma {:induction false} InsertOrder(ar: Arith, base: nat, buf: seq<Wire>, n: int, w: Wire)
    requires n < TWO31 && RcvOrder(ar, base, buf, n) && ar.Is(w.sn) && 0 <= ar.Diff(w.sn, base) < n
    ensures RcvOrder(ar, base, Insert(ar, buf, w), n)
  {
    hide Arith.Diff;
    if buf == [] {
      SnocOrder(ar, base, [], w, n);
    } else {
      var last := buf[|buf| - 1];
      DiffRebase(ar, w.sn, last.sn, base);
      if last.sn != w.sn {
        if ar.Diff(w.sn, last.sn) > 0 {
          SnocOrder(ar, base, buf, w, n);
        } else {
          DiffZero(ar, w.sn, last.sn);
          InsertOrder(ar, base, buf[..|buf| - 1], n, w);
          var front := Insert(ar, buf[..|buf| - 1], w);
          var k := InsertElements(ar, buf[..|buf| - 1], w);
          forall i | 0 <= i < |front|
            ensures ar.Diff(front[i].sn, base) < ar.Diff(last.sn, base)
          {
            assert front[i] in front;
          }
          SnocOrder(ar, base, front, last, n);
        }
      }
    }
  }

  function DrainOne(ar: Arith, r: Rcv): Rcv
    requires r.buf != []
  {
    r.(nxt := ar.Norm(r.nxt + 1), queue := r.queue + [r.buf[0]], buf := r.buf[1..])
  }

  /** Draining moves a front of `rcv_buf` to the end of `rcv_queue`. */
  lemma {:induction false} DrainShape(ar: Arith, wnd: nat, r: Rcv) returns (k: nat)
    requires ar.Is(r.nxt)
    ensures var r' := Drain(ar, wnd, r);
            && k <= |r.buf| && r'.acks == r.acks && r'.nxt == ar.Norm(r.nxt + k)
            && r'.queue == r.queue + r.buf[..k] && r'.buf == r.buf[k..]
    decreases |r.buf|
  {
    k := 0;
    NormOf(ar, r.nxt);
    if r.buf != [] && r.buf[0].sn == r.nxt && |r.queue| < wnd {
      var l := DrainShape(ar, wnd, DrainOne(ar, r));
      k := l + 1;
      assert (r.queue + [r.buf[0]]) + r.buf[1..][..l] == r.queue + r.buf[..k];
      NormAgain(ar, r.nxt + 1, l);
    }
  }

  lemma DrainOneKeeps(ar: Arith, wnd: nat, r: Rcv)
    requires wnd < TWO31 && RcvCore(ar, r, wnd)
    requires r.buf != [] && r.buf[0].sn == r.nxt && |r.queue| < wnd
    ensures RcvCore(ar, DrainOne(ar, r), wnd)
  {
    hide Arith.Diff, Arith.Norm;
    var r1 := DrainOne(ar, r);
    DiffZero(ar, r.nxt, r.nxt);
    DiffAdvance(ar, r.nxt, 1, r.nxt);
    forall i | 0 <= i < |r1.queue|
      ensures ar.Diff(r1.nxt, r1.queue[i].sn) == |r1.queue| - i
    {
      DiffAdvance(ar, r.nxt, 1, r1.queue[i].sn);
    }
    forall i | 0 <= i < |r1.buf|
      ensures r1.buf[i] == r.buf[i + 1] && ar.Diff(r1.buf[i].sn, r1.nxt) == ar.Diff(r1.buf[i].sn, r.nxt) - 1
    {
      DiffRebase(ar, r.buf[i + 1].sn, r1.nxt, r.nxt);
    }
  }

  lemma {:induction false} DrainKeeps(ar: Arith, wnd: nat, r: Rcv)
    requires wnd < TWO31 && RcvCore(ar, r, wnd)
    ensures RcvInv(ar, Drain(ar, wnd, r), wnd)
    decreases |r.buf|
  {
    hide RcvCore;
    if r.buf != [] && r.buf[0].sn == r.nxt && |r.queue| < wnd {
      DrainOneKeeps(ar, wnd, r);
      DrainKeeps(ar, wnd, DrainOne(ar, r));
    }
  }

  /** The window test of `ikcp_parse_data`. */
  lemma InWindow(ar: Arith, nxt: nat, wnd: nat, sn: nat)
    requires wnd < TWO31 && ar.Is(nxt) && ar.Is(sn)
    requires ar.Diff(sn, nxt) >= 0
    ensures ar.Diff(sn, ar.Norm(nxt + wnd)) == ar.Diff(sn, nxt) - wnd
  {
    DiffZero(ar, nxt, nxt);
    DiffAdvance(ar, nxt, wnd, nxt);
    DiffRebase(ar, sn, ar.Norm(nxt + wnd), nxt);
  }

  lemma InputPushKeeps(ar: Arith, wnd: nat, r: Rcv, w: Wire)
    requires wnd < TWO31 && RcvInv(ar, r, wnd) && ar.Is(w.sn) && w.frg < 256
    ensures RcvInv(ar, InputPush(ar, wnd, r, w), wnd)
  {
    hide Arith.Diff;
    hide Arith.Norm;
    if ar.Diff(w.sn, ar.Norm(r.nxt + wnd)) < 0 && ar.Diff(w.sn, r.nxt) >= 0 {
      InWindow(ar, r.nxt, wnd, w.sn);
      InsertOrder(ar, r.nxt, r.buf, wnd, w);
      var r1 := r.(acks := r.acks + [Ack(w.sn, w.ts)], buf := Insert(ar, r.buf, w));
      var i := InsertElements(ar, r.buf, w);
      assert forall j | 0 <= j < |r1.buf| :: r1.buf[j] in r1.buf;
      assert RcvCore(ar, r1, wnd);
      DrainKeeps(ar, wnd, r1);
    }
  }

  lemma PopKeeps(ar: Arith, wnd: nat, r: Rcv, n: nat)
    requires wnd < TWO31 && RcvInv(ar, r, wnd) && n <= |r.queue|
    ensures RcvInv(ar, Drain(ar, wnd, r.(queue := r.queue[n..])), wnd)
  {
    hide Arith.Diff;
    hide Arith.Norm;
    DrainKeeps(ar, wnd, r.(queue := r.queue[n..]));
  }

  /* ---------------------------------------------------------------- endpoint */

  /** Settings the setters can produce, with a receive window below a quarter of the number circle. */
  predicate ConfigInv(cfg: Config) {
    && 50 <= cfg.mtu && cfg.mss == cfg.mtu - OVERHEAD && cfg.mtu < TWO31
    && WND_RCV <= cfg.rcvWnd && 2 * cfg.rcvWnd < TWO31 - 65536
  }

  predicate FragOk(cfg: Config, f: Frag) {
    f.frg < WND_RCV && |f.data| <= cfg.mss
  }

  predicate SegOk(cfg: Config, w: Wire) {
    w.cmd == CMD_PUSH && w.conv < TWO32 && FragOk(cfg, Frag(w.frg, w.data))
  }

  ghost predicate EndpointInv(ar: Arith, e: Endpoint) {
    && ConfigInv(e.cfg) && e.rmtWnd <= 65535
    && SndInv(ar, e.snd, FlightLimit(e.cfg))
    && RcvInv(ar, e.rcv, e.cfg.rcvWnd)
    && (forall f | f in e.snd.queue :: FragOk(e.cfg, f))
    && (forall s | s in e.snd.buf :: SegOk(e.cfg, s.w))
  }

  /** Fragments are at most `mss` long and numbered `count - 1` down to 0; together they are the data. */
  lemma {:induction false} FragmentsShape(mss: pos, stream: bool, data: bytes, count: nat)
    requires |data| <= count * mss
    ensures forall i | 0 <= i < count ::
              var f := Fragments(mss, stream, data, count)[i];
              |f.data| <= mss && f.frg == (if stream then 0 else count - 1 - i)
  {
    if count > 0 {
      var size := if |data| > mss then mss else |data|;
      assert count * mss == (count - 1) * mss + mss;
      assert 0 <= (count - 1) * mss;
      FragmentsShape(mss, stream, data[size..], count - 1);
    }
  }

  /** `FragmentCount` segments are enough and, unless the data is empty, all needed. */
  lemma FragmentCountFits(mss: pos, len: nat)
    ensures FragmentCount(mss, len) >= 1
    ensures (FragmentCount(mss, len) - 1) * mss <= len <= FragmentCount(mss, len) * mss
    ensures len > 0 ==> (FragmentCount(mss, len) - 1) * mss < len
  {
    if len > mss {
      var n := len + mss - 1;
      assert n == n / mss * mss + n % mss;
      assert (n / mss - 1) * mss == n / mss * mss - mss;
    }
  }

  lemma SendKeeps(ar: Arith, e: Endpoint, data: bytes)
    requires EndpointInv(ar, e)
    ensures EndpointInv(ar, e.(snd := e.snd.(queue := Send(e.cfg, e.snd.queue, data).queue)))
  {
    hide FragmentCount, RcvInv, Arith.Diff, Arith.Norm;
    var n := Extension(e.cfg, e.snd.queue, data);
    var left := data[n..];
    var count := FragmentCount(e.cfg.mss, |left|);
    FragmentCountFits(e.cfg.mss, |left|);
    FragmentsShape(e.cfg.mss, e.cfg.stream, left, count);
  }

  lemma RecvKeeps(ar: Arith, e: Endpoint, len: int)
    requires EndpointInv(ar, e)
    ensures EndpointInv(ar, Recv(ar, e, len).e)
  {
    hide RcvInv;
    hide SndInv;
    PopKeeps(ar, e.cfg.rcvWnd, e.rcv, 0);
    PopKeeps(ar, e.cfg.rcvWnd, e.rcv, MessageSpan(e.rcv.queue));
    assert e.rcv.(queue := e.rcv.queue[0..]) == e.rcv;
  }

  lemma UnaKeeps(ar: Arith, e: Endpoint, una: nat)
    requires EndpointInv(ar, e)
    ensures EndpointInv(ar, e.(snd := InputUna(ar, e.snd, una)))
    ensures InputUna(ar, e.snd, una).nxt == e.snd.nxt
    ensures 0 <= ar.Diff(InputUna(ar, e.snd, una).una, e.snd.una) <= ar.Diff(e.snd.nxt, e.snd.una)
  {
    hide Arith.Diff;
    InputUnaKeeps(ar, e.snd, FlightLimit(e.cfg), una);
    var k := ParseUnaSuffix(ar, e.snd.buf, una);
  }

  lemma AckKeeps(ar: Arith, e: Endpoint, sn: nat)
    requires EndpointInv(ar, e)
    ensures EndpointInv(ar, e.(snd := InputAck(ar, e.snd, sn)))
    ensures 0 <= ar.Diff(InputAck(ar, e.snd, sn).una, e.snd.una) <= ar.Diff(e.snd.nxt, e.snd.una)
  {
    hide Arith.Diff;
    InputAckKeeps(ar, e.snd, FlightLimit(e.cfg), sn);
    var k := RemoveAckedShape(ar, e.snd.buf, sn);
  }

  /** Two steps of `snd_una` toward `snd_nxt` are one. */
  lemma UnaChain(ar: Arith, una: nat, una1: nat, una2: nat, nxt: nat)
    requires 0 <= ar.Diff(una1, una) <= ar.Diff(nxt, una) < TWO31
    requires 0 <= ar.Diff(una2, una1) <= ar.Diff(nxt, una1)
    ensures 0 <= ar.Diff(una2, una) <= ar.Diff(nxt, una)
  {
    hide Arith.Diff;
    DiffRebase(ar, nxt, una1, una);
    DiffChain(ar, una2, una1, una);
  }

  lemma InputSegmentKeeps(ar: Arith, e: Endpoint, w: Wire)
    requires EndpointInv(ar, e) && InRange(ar, w)
    ensures EndpointInv(ar, InputSegment(ar, e, w))
    ensures 0 <= ar.Diff(InputSegment(ar, e, w).snd.una, e.snd.una) <= ar.Diff(e.snd.nxt, e.snd.una)
  {
    hide Arith.Diff;
    hide InputUna, InputAck, InputPush, UpdateAck;
    UnaKeeps(ar, e, w.una);
    var e1 := e.(snd := InputUna(ar, e.snd, w.una));
    if w.cmd == CMD_ACK {
      AckKeeps(ar, e1, w.sn);
      UnaChain(ar, e.snd.una, e1.snd.una, InputAck(ar, e1.snd, w.sn).una, e.snd.nxt);
    } else if w.cmd == CMD_PUSH {
      InputPushKeeps(ar, e.cfg.rcvWnd, e.rcv, w);
    }
  }

  lemma {:induction false} InputSegmentsKeeps(ar: Arith, e: Endpoint, ws: seq<Wire>)
    requires EndpointInv(ar, e) && forall w | w in ws :: InRange(ar, w)
    ensures EndpointInv(ar, InputSegments(ar, e, ws))
    ensures 0 <= ar.Diff(InputSegments(ar, e, ws).snd.una, e.snd.una) <= ar.Diff(e.snd.nxt, e.snd.una)
    decreases |ws|
  {
    hide Arith.Diff;
    hide InputSegment;
    if ws == [] {
      DiffZero(ar, e.snd.una, e.snd.una);
    } else {
      var e1 := InputSegment(ar, e, ws[0]);
      InputSegmentKeeps(ar, e, ws[0]);
      InputSegmentsKeeps(ar, e1, ws[1..]);
      UnaChain(ar, e.snd.una, e1.snd.una, InputSegments(ar, e, ws).snd.una, e.snd.nxt);
    }
  }

  lemma FastackKeeps(ar: Arith, e: Endpoint, sn: nat)
    requires EndpointInv(ar, e)
    ensures EndpointInv(ar, e.(snd := e.snd.(buf := ParseFastack(ar, e.snd, sn))))
  {
    hide Arith.Diff;
    BumpFastackSame(ar, e.snd.buf, sn);
    var buf := ParseFastack(ar, e.snd, sn);
    forall i | 0 <= i < |buf|
      ensures buf[i].w == e.snd.buf[i].w && SegOk(e.cfg, buf[i].w)
    {
      assert e.snd.buf[i] in e.snd.buf;
    }
  }

  /** Any packet, whole or rejected half way, keeps the invariant, and `snd_una` never moves back. */
  lemma InputKeeps(ar: Arith, e: Endpoint, p: Parsed)
    requires EndpointInv(ar, e) && forall w | w in p.segs :: InRange(ar, w)
    ensures EndpointInv(ar, InputParsed(ar, e, p))
    ensures 0 <= ar.Diff(InputParsed(ar, e, p).snd.una, e.snd.una) <= ar.Diff(e.snd.nxt, e.snd.una)
  {
    hide Arith.Diff;
    hide SndInv, RcvInv, InputSegments, FoldMaxAck, ParseFastack, Grow;
    InputSegmentsKeeps(ar, e, p.segs);
    var e1 := InputSegments(ar, e, p.segs);
    var m := FoldMaxAck(ar, NoAck, p.segs);
    if m.MaxAck? {
      FastackKeeps(ar, e1, m.sn);
    }
  }

  /** `ikcp_input` keeps the invariant for every byte string. */
  lemma InputBytesKeeps(e: Endpoint, d: bytes)
    requires EndpointInv(Bits32, e)
    ensures EndpointInv(Bits32, Input(e, d))
    ensures 0 <= TimeDiff(Input(e, d).snd.una, e.snd.una) <= TimeDiff(e.snd.nxt, e.snd.una)
  {
    if |d| < OVERHEAD {
      DiffZero(Bits32, e.snd.una, e.snd.una);
    } else {
      InputKeeps(Bits32, e, Parse(e.cfg.conv, d));
    }
  }

  lemma PromotedOk(ar: Arith, e: Endpoint, window: nat)
    requires EndpointInv(ar, e)
    ensures forall s | s in Promote(ar, e, e.snd, window).buf :: SegOk(e.cfg, s.w)
    ensures forall f | f in Promote(ar, e, e.snd, window).queue :: f in e.snd.queue
  {
    hide Arith.Diff, Arith.Norm;
    var k := PromoteShape(ar, e, e.snd, window);
    var buf := Promote(ar, e, e.snd, window).buf;
    var n := |e.snd.buf|;
    forall i | 0 <= i < |buf|
      ensures SegOk(e.cfg, buf[i].w)
    {
      if i < n {
        assert buf[i] == buf[..n][i] == e.snd.buf[i];
      } else {
        assert buf[n + (i - n)] == Numbered(e, ar.Norm(e.snd.nxt + (i - n)), e.snd.queue[i - n]);
        assert e.snd.queue[i - n] in e.snd.queue;
      }
    }
  }

  lemma TickAllKeeps(ar: Arith, e: Endpoint, s: Snd, limit: nat)
    requires SndInv(ar, s, limit) && forall x | x in s.buf :: SegOk(e.cfg, x.w)
    ensures SndInv(ar, s.(buf := TickAll(e, s.buf)), limit)
    ensures forall x | x in TickAll(e, s.buf) :: SegOk(e.cfg, x.w)
  {
    hide Tick;
    forall i | 0 <= i < |s.buf|
      ensures TickAll(e, s.buf)[i].w.sn == s.buf[i].w.sn && SegOk(e.cfg, TickAll(e, s.buf)[i].w)
    {
      TickSame(e, s.buf[i]);
    }
  }

  lemma FlushKeeps(ar: Arith, e: Endpoint)
    requires EndpointInv(ar, e)
    ensures EndpointInv(ar, Flush(ar, e).e)
  {
    hide SndInv, Promote, TickAll, DueSegments, CountDue, Exhausted, Backed, ProbeTick;
    if e.clock.updated {
      var limit := FlightLimit(e.cfg);
      var snd := Promote(ar, e, e.snd, Window(e));
      PromoteKeeps(ar, e, e.snd, Window(e), limit);
      PromotedOk(ar, e, Window(e));
      TickAllKeeps(ar, e, snd, limit);
    }
  }

  lemma UpdateKeeps(ar: Arith, e: Endpoint, now: Word)
    requires EndpointInv(ar, e)
    ensures EndpointInv(ar, Update(ar, e, now).e)
  {
    var (clock, due) := Advance(e.clock, e.cfg.interval, now);
    FlushKeeps(ar, e.(clock := clock));
  }

  /** Settings other than the MTU and the windows do not take part in it. */
  lemma SettingsKeep(e: Endpoint, cfg: Config)
    requires EndpointInv(Bits32, e)
    requires cfg.mtu == e.cfg.mtu && cfg.mss == e.cfg.mss && cfg.sndWnd == e.cfg.sndWnd && cfg.rcvWnd == e.cfg.rcvWnd
    ensures EndpointInv(Bits32, e.(cfg := cfg))
  {
    hide SndInv, RcvInv;
  }
}
