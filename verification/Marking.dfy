/**
  What the session layer of `stream.rs` does to packets: the FIN mark and the RESET mark in the
  command byte of the first segment.
*/
module Marking {
  import opened Serial
  import opened WireFormat
  import opened Endpoints

  /** Bits of the command byte. */
  const KCP_FIN := 0x20
  const KCP_RESET := 0x08

  const SYN_CONV: Word := 0xffff_fffe

  predicate HasBit(c: byte, bit: int)
    requires bit > 0
  {
    (c / bit) % 2 == 1
  }

  /** `Kcp::write_cmd`. */
  function WithCmd(p: bytes, c: byte): bytes
    requires |p| > 4
  {
    p[4 := c]
  }

  /** `cmd | KCP_FIN` in place. */
  function Mark(p: bytes): bytes
    requires |p| > 4
  {
    WithCmd(p, if HasBit(p[4], KCP_FIN) then p[4] else p[4] + KCP_FIN)
  }

  /** `cmd ^ KCP_FIN` in place, for a packet with the mark. */
  function Unmark(p: bytes): bytes
    requires |p| > 4 && HasBit(p[4], KCP_FIN)
  {
    WithCmd(p, p[4] - KCP_FIN)
  }

  /** The command byte of the first segment, when the packet has one, is none of the four commands. */
  predicate Foreign(p: bytes) {
    |p| > 4 && !IsCommand(p[4])
  }

  lemma CommandBits(c: byte)
    requires IsCommand(c)
    ensures !HasBit(c, KCP_FIN) && !HasBit(c, KCP_RESET)
    ensures !IsCommand(c + KCP_FIN) && HasBit(c + KCP_FIN, KCP_FIN) && !HasBit(c + KCP_FIN, KCP_RESET)
  {
  }

  /** A packet whose first command is none of KCP's changes nothing, whatever else is in it. */
  lemma ForeignIsIgnored(e: Endpoint, p: bytes)
    requires Foreign(p)
    ensures Input(e, p) == e && InputCode(e.cfg.conv, p) < 0
    ensures |p| >= OVERHEAD && Word32(p) == e.cfg.conv ==> InputCode(e.cfg.conv, p) != -1
  {
  }

  /** A packet that KCP accepts starts with one of its commands. */
  lemma AcceptedIsCommand(conv: Word, p: bytes)
    requires InputCode(conv, p) == 0
    ensures |p| >= OVERHEAD && IsCommand(p[4]) && Word32(p) == conv
  {
  }

  /** The mark touches neither the conv nor the first length. */
  lemma MarkKeeps(p: bytes)
    requires |p| >= OVERHEAD
    ensures Word32(Mark(p)) == Word32(p) && Word32(Mark(p)[20..]) == Word32(p[20..])
  {
    FromLePrefix(Mark(p), p, 4);
    assert Mark(p)[20..] == p[20..];
  }

  /**
    The FIN mark is transparent. A packet that KCP accepts is, once marked, rejected with -3 without
    any effect, not taken for RESET, and restored by unmarking; so its second input has exactly the
    effect the packet itself has, in any state.
  */
  lemma FinMarkTransparent(e: Endpoint, p: bytes)
    requires InputCode(e.cfg.conv, p) == 0
    ensures var m := Mark(p);
            && InputCode(e.cfg.conv, m) == -3 && Input(e, m) == e
            && HasBit(m[4], KCP_FIN) && !HasBit(m[4], KCP_RESET)
            && Unmark(m) == p
            && forall e': Endpoint :: Input(e', Unmark(m)) == Input(e', p)
  {
    AcceptedIsCommand(e.cfg.conv, p);
    CommandBits(p[4]);
    MarkKeeps(p);
    ForeignIsIgnored(e, Mark(p));
    assert Unmark(Mark(p)) == p;
    assert InputCode(e.cfg.conv, Mark(p)) == -3 by {
      FirstLength(e.cfg.conv, p);
    }
  }

  lemma FirstLength(conv: Word, p: bytes)
    requires InputCode(conv, p) == 0 && |p| >= OVERHEAD
    ensures Word32(p[20..]) <= |p| - OVERHEAD && Word32(p[20..]) < TWO31
  {
  }

  /** The marks are never confused: what starts like a RESET is not accepted, marked or not. */
  lemma ResetIsForeign(p: bytes)
    requires |p| > 4 && HasBit(p[4], KCP_RESET)
    ensures Foreign(p) && Foreign(Mark(p))
  {
    if IsCommand(p[4]) {
      CommandBits(p[4]);
    }
  }

  /* ---------------------------------------------------------------- the first payload of a packet */

  /** `Kcp::read_payload_data`: the headers it steps over have no payload, or claim more than there is. */
  function PayloadData(p: bytes): (r: bytes)
    decreases |p|
  {
    if |p| < OVERHEAD then []
    else
      var len := Word32(p[20..]);
      if 1 <= len <= |p| - OVERHEAD then p[OVERHEAD..OVERHEAD + len] else PayloadData(p[OVERHEAD..])
  }

  /** As the source runs it: a cursor over the packet. Nothing found is the empty slice. */
  method ReadPayloadData(p: bytes) returns (data: bytes)
    ensures data == PayloadData(p)
  {
    hide Word32;
    var at := 0;
    while |p| - at >= OVERHEAD
      invariant 0 <= at <= |p| && PayloadData(p) == PayloadData(p[at..])
    {
      var len := Word32(p[at..][20..]);
      var body := at + OVERHEAD;
      if 1 <= len <= |p| - body {
        assert p[at..][OVERHEAD..OVERHEAD + len] == p[body..body + len];
        return p[body..body + len];
      }
      assert p[at..][OVERHEAD..] == p[body..];
      at := body;
    }
    data := [];
  }

  /** On a packet of KCP's own making it finds the first payload there is. */
  function FirstPayload(ws: seq<Wire>): bytes {
    if ws == [] then [] else if ws[0].data != [] then ws[0].data else FirstPayload(ws[1..])
  }

  lemma {:induction false} PayloadOfPacket(ws: seq<Wire>)
    requires forall w | w in ws :: WellFormed(w)
    ensures PayloadData(EncodePacket(ws)) == FirstPayload(ws)
  {
    hide Word32, EncodeHead;
    if ws != [] {
      var w, rest := ws[0], ws[1..];
      var tail := w.data + EncodePacket(rest);
      var d := EncodePacket(ws);
      assert d == EncodeHead(w) + tail;
      HeadRoundTrip(w, tail);
      PayloadOfPacket(rest);
      assert |w.data| > 0 ==> d[OVERHEAD..OVERHEAD + |w.data|] == w.data;
      assert w.data == [] ==> tail == EncodePacket(rest);
    }
  }
}
