/**
  The packet format: a packet is a run of segments, each a 24-byte little-endian header
  followed by `len` bytes of payload.
*/
module WireFormat {
  import opened Serial

  type byte = x: int | 0 <= x < 256
  type bytes = seq<byte>

  const OVERHEAD := 24
  const CMD_PUSH := 81
  const CMD_ACK := 82
  const CMD_WASK := 83
  const CMD_WINS := 84

  /** The fields of an `IKCPSEG` that travel; `len` is `|data|`. */
  datatype Wire = Wire(conv: nat, cmd: nat, frg: nat, wnd: nat, ts: Word, sn: nat, una: nat, data: bytes)

  predicate IsCommand(cmd: int) {
    cmd == CMD_PUSH || cmd == CMD_ACK || cmd == CMD_WASK || cmd == CMD_WINS
  }

  /** What `ikcp_input` accepts as one segment. */
  predicate WellFormed(w: Wire) {
    IsCommand(w.cmd) && |w.data| < TWO31
  }

  /** The field sizes of a received segment. */
  predicate InRange(ar: Arith, w: Wire) {
    ar.Is(w.sn) && ar.Is(w.una) && w.wnd < 65536 && w.frg < 256
  }

  /** The low `n` bytes of `x`, least significant first. */
  function Le(x: nat, n: nat): (d: bytes)
    ensures |d| == n
  {
    if n == 0 then [] else [x % 256] + Le(x / 256, n - 1)
  }

  function FromLe(d: bytes, n: nat): nat
    requires |d| >= n
  {
    if n == 0 then 0 else (d[0] as int) + 256 * FromLe(d[1..], n - 1)
  }

  function Pow256(n: nat): nat {
    if n == 0 then 1 else 256 * Pow256(n - 1)
  }

  /** `ikcp_encode_seg`. */
  function EncodeHead(w: Wire): (d: bytes)
    ensures |d| == OVERHEAD
  {
    Le(w.conv, 4) + [w.cmd % 256] + [w.frg % 256] + Le(w.wnd, 2)
    + Le(w.ts, 4) + Le(w.sn, 4) + Le(w.una, 4) + Le(|w.data|, 4)
  }

  function EncodeSegment(w: Wire): (d: bytes)
    ensures |d| == Size(w)
  {
    EncodeHead(w) + w.data
  }

  function Size(w: Wire): nat {
    OVERHEAD + |w.data|
  }

  function EncodePacket(ws: seq<Wire>): bytes {
    if ws == [] then [] else EncodeSegment(ws[0]) + EncodePacket(ws[1..])
  }

  function Word32(d: bytes): (x: Word)
    requires |d| >= 4
  {
    FromLeBound(d, 4);
    FromLe(d, 4)
  }

  /** The header at the front of `d`, with no payload. */
  function DecodeHead(d: bytes): (w: Wire)
    requires |d| >= OVERHEAD
    ensures InRange(Bits32, w)
  {
    FromLeBound(d[6..], 2);
    Wire(Word32(d), d[4], d[5], FromLe(d[6..], 2), Word32(d[8..]), Word32(d[12..]), Word32(d[16..]), [])
  }

  /** The segments `ikcp_input` gets to process, and the code it ends with. */
  datatype Parsed = Parsed(segs: seq<Wire>, code: int)

  /** The loop of `ikcp_input`: segments before the first bad one are processed in any case. */
  function Parse(conv: nat, d: bytes): (r: Parsed)
    ensures r.code in {0, -1, -2, -3}
    ensures forall w | w in r.segs :: WellFormed(w) && InRange(Bits32, w) && w.conv == conv
  {
    if |d| < OVERHEAD then Parsed([], 0)
    else if Word32(d) != conv then Parsed([], -1)
    else
      var len := Word32(d[20..]);
      if |d| - OVERHEAD < len || len >= TWO31 then Parsed([], -2)
      else if !IsCommand(d[4]) then Parsed([], -3)
      else
        var w := DecodeHead(d).(data := d[OVERHEAD..OVERHEAD + len]);
        var rest := Parse(conv, d[OVERHEAD + len..]);
        Parsed([w] + rest.segs, rest.code)
  }

  /** A segment as the other end decodes it: counters normalised, `wnd` cut to 16 bits. */
  function OnWire(ar: Arith, w: Wire): Wire {
    Wire(ar.Norm(w.conv), w.cmd % 256, w.frg % 256, w.wnd % 65536, w.ts, ar.Norm(w.sn), ar.Norm(w.una), w.data)
  }

  /** The longest front of a packet that an endpoint with this conv processes. */
  function Accept(conv: nat, ws: seq<Wire>): (r: Parsed)
    ensures r.segs <= ws
    ensures r.code == 0 || r.code == -1
  {
    if ws == [] then Parsed([], 0)
    else if ws[0].conv != conv then Parsed([], -1)
    else
      var rest := Accept(conv, ws[1..]);
      Parsed([ws[0]] + rest.segs, rest.code)
  }

  function OnWireAll(ar: Arith, ws: seq<Wire>): (r: seq<Wire>)
    ensures |r| == |ws|
  {
    seq(|ws|, i requires 0 <= i < |ws| => OnWire(ar, ws[i]))
  }

  lemma {:induction false} FromLeBound(d: bytes, n: nat)
    requires |d| >= n
    ensures FromLe(d, n) < Pow256(n)
  {
    if n > 0 {
      FromLeBound(d[1..], n - 1);
    }
  }

  lemma {:induction false} FromLePrefix(d: bytes, e: bytes, n: nat)
    requires |d| >= n && |e| >= n && d[..n] == e[..n]
    ensures FromLe(d, n) == FromLe(e, n)
  {
    if n > 0 {
      assert d[0] == d[..n][0] == e[..n][0] == e[0];
      assert d[1..][..n - 1] == d[..n][1..] == e[..n][1..] == e[1..][..n - 1];
      FromLePrefix(d[1..], e[1..], n - 1);
    }
  }

  lemma {:induction false} LeRoundTrip(x: nat, n: nat)
    ensures exists k: nat :: x == FromLe(Le(x, n), n) + k * Pow256(n)
  {
    if n == 0 {
      assert x == FromLe(Le(x, n), n) + x * Pow256(n);
    } else {
      LeRoundTrip(x / 256, n - 1);
      var k: nat :| x / 256 == FromLe(Le(x / 256, n - 1), n - 1) + k * Pow256(n - 1);
      assert Le(x, n)[1..] == Le(x / 256, n - 1);
      assert 256 * (k * Pow256(n - 1)) == k * Pow256(n);
      assert x == FromLe(Le(x, n), n) + k * Pow256(n);
    }
  }

  lemma WordRoundTrip(x: nat, tail: bytes)
    ensures Word32(Le(x, 4) + tail) == Wrap(x)
  {
    hide Le, FromLe;
    LeRoundTrip(x, 4);
    FromLeBound(Le(x, 4), 4);
    FromLePrefix(Le(x, 4) + tail, Le(x, 4), 4);
    assert Pow256(4) == TWO32;
  }

  lemma ShortRoundTrip(x: nat, tail: bytes)
    ensures FromLe(Le(x, 2) + tail, 2) == x % 65536
  {
    hide Le, FromLe;
    LeRoundTrip(x, 2);
    FromLeBound(Le(x, 2), 2);
    FromLePrefix(Le(x, 2) + tail, Le(x, 2), 2);
    assert Pow256(2) == 65536;
  }

  /** Where the fields of a header lie. */
  lemma Layout(conv: bytes, cmd: byte, frg: byte, wnd: bytes, ts: bytes, sn: bytes, una: bytes, len: bytes, tail: bytes)
    requires |conv| == |ts| == |sn| == |una| == |len| == 4 && |wnd| == 2
    ensures var d := conv + [cmd] + [frg] + wnd + ts + sn + una + len + tail;
            && d == conv + d[4..] && d[4] == cmd && d[5] == frg && d[6..] == wnd + d[8..] && d[8..] == ts + d[12..]
            && d[12..] == sn + d[16..] && d[16..] == una + d[20..] && d[20..] == len + tail && d[24..] == tail
  {
  }

  lemma HeadRoundTrip(w: Wire, tail: bytes)
    requires WellFormed(w)
    ensures var d := EncodeHead(w) + tail;
            && DecodeHead(d).(data := w.data) == OnWire(Bits32, w)
            && Word32(d[20..]) == |w.data|
            && d[OVERHEAD..] == tail
  {
    hide EncodeHead, FromLe, DecodeHead, Word32;
    AnyHeadRoundTrip(w, tail);
  }

  /** The layout does not depend on the command. */
  lemma AnyHeadRoundTrip(w: Wire, tail: bytes)
    requires |w.data| < TWO31
    ensures var d := EncodeHead(w) + tail;
            && DecodeHead(d).(data := w.data) == OnWire(Bits32, w)
            && Word32(d[20..]) == |w.data|
            && d[OVERHEAD..] == tail
  {
    var d := EncodeHead(w) + tail;
    Layout(Le(w.conv, 4), w.cmd % 256, w.frg % 256, Le(w.wnd, 2), Le(w.ts, 4), Le(w.sn, 4), Le(w.una, 4),
           Le(|w.data|, 4), tail);
    WordRoundTrip(w.conv, d[4..]);
    ShortRoundTrip(w.wnd, d[8..]);
    WordRoundTrip(w.ts, d[12..]);
    WordRoundTrip(w.sn, d[16..]);
    WordRoundTrip(w.una, d[20..]);
    WordRoundTrip(|w.data|, tail);
  }

  lemma {:induction false} EncodeAppend(ws: seq<Wire>, w: Wire)
    ensures EncodePacket(ws + [w]) == EncodePacket(ws) + EncodeSegment(w)
  {
    if ws != [] {
      assert (ws + [w])[1..] == ws[1..] + [w];
      EncodeAppend(ws[1..], w);
    }
  }

  /**
    Parsing an encoded packet gives back its segments up to the first foreign conv, with every
    field intact except that counters are kept modulo 2^32 and `wnd` modulo 2^16.
  */
  lemma {:induction false} ParseEncoded(conv: Word, ws: seq<Wire>)
    requires forall w | w in ws :: WellFormed(w)
    ensures Parse(conv, EncodePacket(ws)) == Accept(conv, OnWireAll(Bits32, ws))
  {
    if ws != [] {
      var w, rest := ws[0], ws[1..];
      var tail := w.data + EncodePacket(rest);
      assert EncodePacket(ws) == EncodeHead(w) + tail;
      HeadRoundTrip(w, tail);
      assert tail[..|w.data|] == w.data && tail[|w.data|..] == EncodePacket(rest);
      assert OnWireAll(Bits32, ws)[1..] == OnWireAll(Bits32, rest);
      ParseEncoded(conv, rest);
    }
  }
}
