/**
  How `ikcp_flush` cuts its segments into packets, and how the other end puts them together again.
*/
module Packetization {
  import opened Serial
  import opened WireFormat
  import opened Endpoints

  function Concat<T>(xs: seq<seq<T>>): seq<T> {
    if xs == [] then [] else xs[0] + Concat(xs[1..])
  }

  lemma {:induction false} ConcatAppend<T>(xs: seq<seq<T>>, ys: seq<seq<T>>)
    ensures Concat(xs + ys) == Concat(xs) + Concat(ys)
  {
    if xs == [] {
      assert xs + ys == ys;
    } else {
      ConcatAppend(xs[1..], ys);
      assert (xs + ys)[1..] == xs[1..] + ys;
    }
  }

  lemma ConcatOne<T>(xs: seq<seq<T>>, x: seq<T>)
    ensures Concat(xs + [x]) == Concat(xs) + x
  {
    ConcatAppend(xs, [x]);
    assert [x][1..] == [];
  }

  lemma {:induction false} InConcat<T>(xs: seq<seq<T>>, i: nat, j: nat)
    requires i < |xs| && j < |xs[i]|
    ensures xs[i][j] in Concat(xs)
  {
    if i > 0 {
      InConcat(xs[1..], i - 1, j);
    }
  }

  ghost predicate FitsMtu(mtu: nat, p: Packing) {
    && PacketSize(p.cur) <= mtu
    && forall q | q in p.done :: q != [] && PacketSize(q) <= mtu
  }

  lemma PackOneFits(mtu: nat, p: Packing, w: Wire)
    requires FitsMtu(mtu, p) && Size(w) <= mtu
    ensures FitsMtu(mtu, PackOne(mtu, p, w))
    ensures Concat(Closed(PackOne(mtu, p, w))) == Concat(Closed(p)) + [w]
  {
    EncodeAppend([], w);
    EncodeAppend(p.cur, w);
    assert [] + [w] == [w];
    ConcatOne(p.done, p.cur);
    ConcatOne(p.done, p.cur + [w]);
    ConcatOne(Closed(p), [w]);
  }

  lemma {:induction false} PackFits(mtu: nat, p: Packing, ws: seq<Wire>)
    requires FitsMtu(mtu, p) && forall w | w in ws :: Size(w) <= mtu
    ensures FitsMtu(mtu, Pack(mtu, p, ws))
    ensures Concat(Closed(Pack(mtu, p, ws))) == Concat(Closed(p)) + ws
    decreases |ws|
  {
    hide PackOne;
    if ws != [] {
      PackOneFits(mtu, p, ws[0]);
      PackFits(mtu, PackOne(mtu, p, ws[0]), ws[1..]);
    }
  }

  /** The packets of one flush are non-empty, at most `mtu` bytes each, and in order hold exactly its segments. */
  lemma PacketsFit(mtu: nat, ws: seq<Wire>)
    requires forall w | w in ws :: Size(w) <= mtu
    ensures Concat(Packets(mtu, ws)) == ws
    ensures forall p | p in Packets(mtu, ws) :: p != [] && |EncodePacket(p)| <= mtu
  {
    hide Pack;
    PackFits(mtu, Packing([], []), ws);
  }

  function ParseAll(conv: Word, ds: seq<bytes>): seq<Wire> {
    if ds == [] then [] else Parse(conv, ds[0]).segs + ParseAll(conv, ds[1..])
  }

  function EncodeAll(ps: seq<seq<Wire>>): (r: seq<bytes>)
    ensures |r| == |ps|
  {
    seq(|ps|, i requires 0 <= i < |ps| => EncodePacket(ps[i]))
  }

  lemma {:induction false} AcceptAll(conv: Word, ws: seq<Wire>)
    requires forall w | w in ws :: w.conv == conv
    ensures Accept(conv, OnWireAll(Bits32, ws)) == Parsed(OnWireAll(Bits32, ws), 0)
  {
    if ws != [] {
      assert OnWireAll(Bits32, ws)[1..] == OnWireAll(Bits32, ws[1..]);
      AcceptAll(conv, ws[1..]);
    }
  }

  lemma {:induction false} ParseAllPackets(conv: Word, ps: seq<seq<Wire>>)
    requires forall w | w in Concat(ps) :: WellFormed(w) && w.conv == conv
    ensures ParseAll(conv, EncodeAll(ps)) == OnWireAll(Bits32, Concat(ps))
    ensures forall i | 0 <= i < |ps| :: Parse(conv, EncodeAll(ps)[i]).code == 0
  {
    hide Parse, EncodePacket, Accept, OnWire, WellFormed;
    if ps != [] {
      assert forall w | w in ps[0] :: w in Concat(ps);
      assert forall w | w in Concat(ps[1..]) :: w in Concat(ps);
      ParseEncoded(conv, ps[0]);
      AcceptAll(conv, ps[0]);
      ParseAllPackets(conv, ps[1..]);
      assert EncodeAll(ps)[1..] == EncodeAll(ps[1..]);
      assert OnWireAll(Bits32, ps[0]) + OnWireAll(Bits32, Concat(ps[1..])) == OnWireAll(Bits32, Concat(ps));
      forall i | 0 <= i < |ps|
        ensures Parse(conv, EncodeAll(ps)[i]).code == 0
      {
        if i > 0 {
          assert EncodeAll(ps)[i] == EncodeAll(ps[1..])[i - 1];
        }
      }
    }
  }

  /**
    Sending and receiving: the peer parses every packet of a flush to its end, and reads from them,
    in order, exactly the segments of the flush (`wnd` modulo 2^16).
  */
  lemma PacketRoundTrip(conv: Word, mtu: nat, ws: seq<Wire>)
    requires forall w | w in ws :: WellFormed(w) && Size(w) <= mtu && w.conv == conv
    ensures ParseAll(conv, EncodeAll(Packets(mtu, ws))) == OnWireAll(Bits32, ws)
    ensures forall d | d in EncodeAll(Packets(mtu, ws)) :: |d| <= mtu && Parse(conv, d).code == 0
  {
    PacketsFit(mtu, ws);
    ParseAllPackets(conv, Packets(mtu, ws));
  }

  /** No packet is closed while the next segment still fits. */
  ghost predicate Tight(mtu: nat, ps: seq<seq<Wire>>) {
    forall i | 0 <= i < |ps| - 1 && ps[i + 1] != [] :: PacketSize(ps[i]) + Size(ps[i + 1][0]) > mtu
  }

  lemma PackOneTight(mtu: nat, p: Packing, w: Wire)
    requires Tight(mtu, p.done + [p.cur]) && (p.done != [] ==> p.cur != [])
    ensures var q := PackOne(mtu, p, w); q.cur != [] && (p.cur != [] || Size(w) <= mtu ==> Tight(mtu, q.done + [q.cur]))
  {
    hide PacketSize;
    var q := PackOne(mtu, p, w);
    var ps, qs := p.done + [p.cur], q.done + [q.cur];
    if q.cur == [w] && p.cur != [] {
      assert qs == ps + [[w]];
      assert forall i | 0 <= i < |ps| :: qs[i] == ps[i];
    } else if p.cur != [] {
      assert forall i | 0 <= i < |p.done| :: qs[i] == ps[i];
      assert qs[|p.done|][0] == ps[|p.done|][0];
    }
  }

  lemma {:induction false} PackTight(mtu: nat, p: Packing, ws: seq<Wire>)
    requires Tight(mtu, p.done + [p.cur]) && (p.done != [] ==> p.cur != []) && forall w | w in ws :: Size(w) <= mtu
    ensures var q := Pack(mtu, p, ws); Tight(mtu, q.done + [q.cur]) && (q.done != [] ==> q.cur != [])
    decreases |ws|
  {
    hide PackOne, Tight;
    if ws != [] {
      PackOneTight(mtu, p, ws[0]);
      PackTight(mtu, PackOne(mtu, p, ws[0]), ws[1..]);
    }
  }

  /** A flush makes no more packets than it must: each next segment would not have fitted the packet before it. */
  lemma PacketsTight(mtu: nat, ws: seq<Wire>)
    requires forall w | w in ws :: Size(w) <= mtu
    ensures Tight(mtu, Packets(mtu, ws))
  {
    hide Pack;
    var p := Packing([], []);
    assert Tight(mtu, p.done + [p.cur]);
    PackTight(mtu, p, ws);
    var q := Pack(mtu, p, ws);
    if q.cur == [] {
      assert q.done == [];
    }
  }
}
