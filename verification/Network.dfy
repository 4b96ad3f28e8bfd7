/**
  Two endpoints and a network that loses, duplicates, delays and reorders packets.

  A run is a schedule: which side does what next. Packets are never removed from `out`, so a
  schedule may deliver any packet ever sent, any number of times, at any later moment, or never.
  `Run32` executes a schedule with the 32-bit endpoints and byte-string packets, `RunU` the same
  schedule with the unbounded ones.
*/
module Network {
  import opened Serial
  import opened WireFormat
  import opened Endpoints
  import opened Packetization

  datatype Action =
    | DoSend(data: bytes)
    | DoRecv(len: int)
    | DoFlush
    | DoUpdate(now: Word)
    | DoNoDelay(nodelay: cint, interval: cint, resend: cint, nc: cint)
    | DoSetConv(conv: Word)
    | Deliver(k: nat)  // the k-th packet the peer ever sent

  datatype Event = Event(left: bool, act: Action)

  /**
    An endpoint with its history: the packets it sent, the fragments it numbered (`log[i]` has
    number i), the data its application handed over and got.
  */
  datatype Node<P> = Node(e: Endpoint, out: seq<P>, log: seq<Frag>, sent: seq<bytes>, got: seq<bytes>)

  datatype System<P> = System(left: Node<P>, right: Node<P>)

  /** What an action other than a delivery does: new control block, segments sent, data accepted, data returned. */
  datatype Outcome = Outcome(e: Endpoint, segs: seq<Wire>, sent: seq<bytes>, got: seq<bytes>)

  function Local(ar: Arith, e: Endpoint, act: Action): Outcome {
    match act
    case DoSend(data) =>
      var r := Send(e.cfg, e.snd.queue, data);
      Outcome(e.(snd := e.snd.(queue := r.queue)), [], if r.code == 0 || e.cfg.stream then [r.taken] else [], [])
    case DoRecv(len) =>
      var r := Recv(ar, e, len);
      Outcome(r.e, [], [], if r.code >= 0 && len >= 0 then [r.data] else [])
    case DoFlush =>
      var r := Endpoints.Flush(ar, e);
      Outcome(r.e, r.segs, [], [])
    case DoUpdate(now) =>
      var r := Endpoints.Update(ar, e, now);
      Outcome(r.e, r.segs, [], [])
    case DoNoDelay(nodelay, interval, resend, nc) =>
      Outcome(e.(cfg := NoDelay(e.cfg, nodelay, interval, resend, nc)), [], [], [])
    case DoSetConv(conv) => Outcome(e.(cfg := e.cfg.(conv := conv)), [], [], [])
    case Deliver(_) => Outcome(e, [], [], [])
  }

  /** The fragments that left the queue for `snd_buf`. */
  function Logged(before: seq<Frag>, after: seq<Frag>): seq<Frag> {
    if |after| < |before| then before[..|before| - |after|] else []
  }

  function ReceiveU(e: Endpoint, p: seq<Wire>): Endpoint {
    InputParsed(Unbounded, e, Accept(e.cfg.conv, OnWireAll(Unbounded, p)))
  }

  function StepU(me: Node<seq<Wire>>, peer: Node<seq<Wire>>, act: Action): Node<seq<Wire>> {
    if act.Deliver? then
      if act.k < |peer.out| then me.(e := ReceiveU(me.e, peer.out[act.k])) else me
    else
      var o := Local(Unbounded, me.e, act);
      Node(o.e, me.out + Packets(me.e.cfg.mtu, o.segs), me.log + Logged(me.e.snd.queue, o.e.snd.queue),
           me.sent + o.sent, me.got + o.got)
  }

  function Step32(me: Node<bytes>, peer: Node<bytes>, act: Action): Node<bytes> {
    if act.Deliver? then
      if act.k < |peer.out| then me.(e := Input(me.e, peer.out[act.k])) else me
    else
      var o := Local(Bits32, me.e, act);
      Node(o.e, me.out + EncodeAll(Packets(me.e.cfg.mtu, o.segs)), me.log + Logged(me.e.snd.queue, o.e.snd.queue),
           me.sent + o.sent, me.got + o.got)
  }

  function SysStepU(s: System<seq<Wire>>, ev: Event): System<seq<Wire>> {
    if ev.left then s.(left := StepU(s.left, s.right, ev.act)) else s.(right := StepU(s.right, s.left, ev.act))
  }

  function SysStep32(s: System<bytes>, ev: Event): System<bytes> {
    if ev.left then s.(left := Step32(s.left, s.right, ev.act)) else s.(right := Step32(s.right, s.left, ev.act))
  }

  function Start<P>(l: Endpoint, r: Endpoint): System<P> {
    System(Node(l, [], [], [], []), Node(r, [], [], [], []))
  }

  function RunU(l: Endpoint, r: Endpoint, evs: seq<Event>): System<seq<Wire>> {
    if evs == [] then Start(l, r) else SysStepU(RunU(l, r, evs[..|evs| - 1]), evs[|evs| - 1])
  }

  function Run32(l: Endpoint, r: Endpoint, evs: seq<Event>): System<bytes> {
    if evs == [] then Start(l, r) else SysStep32(Run32(l, r, evs[..|evs| - 1]), evs[|evs| - 1])
  }

  /**
    The packet-lifetime assumption on one delivery: no number in the packet is half the number
    circle behind the receiver's own counter, with two receive windows and the largest flight as slack.
  */
  predicate InTime(e: Endpoint, p: seq<Wire>) {
    forall w | w in p ::
      && e.snd.nxt - TWO31 < w.una
      && (w.cmd == CMD_ACK ==> e.snd.nxt - TWO31 < w.sn)
      && (w.cmd == CMD_PUSH ==> e.rcv.nxt + 2 * e.cfg.rcvWnd + 65535 - TWO31 <= w.sn)
  }

  predicate EventInTime(s: System<seq<Wire>>, ev: Event) {
    var me, peer := if ev.left then s.left else s.right, if ev.left then s.right else s.left;
    ev.act.Deliver? && ev.act.k < |peer.out| ==> InTime(me.e, peer.out[ev.act.k])
  }

  /** No packet of the schedule outlives its numbers. */
  predicate RunInTime(l: Endpoint, r: Endpoint, evs: seq<Event>) {
    evs != [] ==>
      && RunInTime(l, r, evs[..|evs| - 1])
      && EventInTime(RunU(l, r, evs[..|evs| - 1]), evs[|evs| - 1])
  }
}
