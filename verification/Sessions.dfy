/**
  The session task of `stream.rs`, as functions on its state: the SYN handshake before the data,
  the FIN handshake after it. Each arm of the event loop is one function.
*/
module Sessions {
  import opened Serial
  import opened WireFormat
  import opened Endpoints
  import opened Network
  import opened Packetization
  import opened Lifetime
  import opened Marking

  datatype Handshake = Syn | Connected | FinPending | FinSent | FinWaitPeer | Disconnected

  /** The order the states are declared in. */
  function Rank(hs: Handshake): nat {
    match hs
    case Syn => 0
    case Connected => 1
    case FinPending => 2
    case FinSent => 3
    case FinWaitPeer => 4
    case Disconnected => 5
  }

  /** What the application gets to see. */
  datatype Output = Established(conv: Word) | Frame(data: bytes)

  datatype Settings = Settings(
    key: bytes, idLen: nat, connectTimeout: Word, shutdownTimeout: Word, expire: Word,
    nodelay: bool, interval: cint, resend: cint, nc: bool)

  /** What becomes of a frame read from KCP. */
  datatype Fate = ForHandshake | ForApplication | Swallowed

  /**
    The history of the data: the fate of each read; the frames the application has written, and
    what of them went to KCP; the handshake frames sent before and after them.
  */
  datatype Ledger = Ledger(
    fates: seq<Fate>, written: seq<bytes>, handed: seq<bytes>, greeting: seq<bytes>, farewell: seq<bytes>)

  /**
    The fields of `Task`, with its flags apart; the control block with its history; the packets it
    has queued and those fed to the transport; the two channels to the application; whether the loop
    has been left; and, as history, the calls made on the control block (`finAt` of them before the
    FIN) and the ledger.
  */
  datatype Session = Session(
    hs: Handshake, client: bool, flush: bool, finRecved: bool, inputClosed: bool,
    hsEnd: Word, lastIo: Word, id: bytes,
    node: Node<bytes>, queue: seq<bytes>, fed: seq<bytes>,
    input: seq<bytes>, open: bool, frame: Option<bytes>, told: seq<Output>,
    over: bool, ops: seq<Op>, finAt: Option<nat>, ledger: Ledger)

  /* ---------------------------------------------------------------- calls on the control block */

  /** A call other than an input. */
  function Act(s: Session, act: Action): (r: Session)
    requires !act.Deliver?
    ensures Quiet(s, r)
  {
    var n := Step32(s.node, s.node, act);
    s.(node := n, queue := s.queue + n.out[|s.node.out|..], ops := s.ops + [Do(act)])
  }

  function Hear(s: Session, p: bytes): (r: Session)
    ensures Quiet(s, r)
  {
    s.(node := s.node.(e := Endpoints.Input(s.node.e, p)), ops := s.ops + [Arrive(p)])
  }

  /** Only the control block and the flushing have moved. */
  predicate Quiet(s: Session, t: Session) {
    && t.hs == s.hs && t.client == s.client && t.finRecved == s.finRecved && t.inputClosed == s.inputClosed
    && t.fed == s.fed && t.input == s.input && t.open == s.open && t.frame == s.frame && t.told == s.told
    && t.finAt == s.finAt && t.hsEnd == s.hsEnd && t.id == s.id && t.over == s.over
    && |s.ops| <= |t.ops|
  }

  function WaitSnd(s: Session): nat {
    |s.node.e.snd.buf| + |s.node.e.snd.queue|
  }

  function Unread(s: Session): nat {
    |s.node.e.rcv.queue| + |s.node.e.rcv.buf|
  }

  /** `Kcp::send`: an empty frame is no frame. */
  function KcpSend(s: Session, data: bytes): (r: (Session, bool))
    ensures Quiet(s, r.0)
  {
    if data == [] then (s, true)
    else (Act(s, DoSend(data)), Send(s.node.e.cfg, s.node.e.snd.queue, data).code == 0)
  }

  /** What sending `data` adds to what KCP was given. */
  function Put(s: Session, data: bytes): seq<bytes> {
    if data == [] then []
    else
      var r := Send(s.node.e.cfg, s.node.e.snd.queue, data);
      if r.code == 0 || s.node.e.cfg.stream then [r.taken] else []
  }

  function RecvBytes(s: Session, fate: Fate): (r: (Session, Option<bytes>))
    ensures Quiet(s, r.0)
  {
    var size := PeekSize(s.node.e.rcv.queue);
    if size > 0 then
      (Act(s, DoRecv(size)).(ledger := s.ledger.(fates := s.ledger.fates + [fate])),
       Some(Recv(Bits32, s.node.e, size).data))
    else (s, None)
  }

  /** After a FIN, the very last frame is the FIN's own. */
  predicate LastOne(s: Session) {
    s.finRecved && |s.node.e.rcv.queue| == 1 && s.node.e.rcv.buf == []
  }

  /** `Task::kcp_recv`; `fate` is what the caller is going to do with the frame. */
  function KcpRecv(s: Session, fate: Fate): (r: (Session, Option<bytes>))
    ensures Quiet(s, r.0)
  {
    if LastOne(s) then (RecvBytes(s, Swallowed).0, None) else RecvBytes(s, fate)
  }

  function KcpFlush(s: Session, now: Word): (r: Session)
    ensures Quiet(s, r)
  {
    if s.flush then
      var t := Act(Act(s.(flush := false), DoUpdate(now)), DoFlush);
      t.(lastIo := t.node.e.clock.current)
    else s
  }

  function ApplyNoDelay(c: Settings, s: Session): (r: Session)
    ensures Quiet(s, r)
  {
    Act(s, DoNoDelay(if c.nodelay then 1 else 0, c.interval, c.resend, if c.nc then 1 else 0))
  }

  /* ---------------------------------------------------------------- handshakes */

  /** The session key and ID as one frame, flushed at once. */
  function HandshakeSend(c: Settings, s: Session, now: Word): (r: Session)
    ensures Quiet(s, r)
  {
    KcpFlush(KcpSend(s.(flush := true), c.key + s.id).0, now)
  }

  /** The first frame of either side. */
  function Greet(c: Settings, s: Session, now: Word): (r: Session)
    ensures Quiet(s, r)
  {
    HandshakeSend(c, s.(ledger := s.ledger.(greeting := Put(s, c.key + s.id))), now)
  }

  /** About to send the FIN. */
  function Ready(c: Settings, s: Session): Session {
    s.(finAt := Some(|s.ops|), ledger := s.ledger.(farewell := Put(s, c.key + s.id)))
  }

  /** Sending the FIN. */
  function FinSend(c: Settings, s: Session, now: Word): (r: Session)
    ensures r.hs == FinSent
  {
    HandshakeSend(c, Ready(c, s), now).(hs := FinSent)
  }

  /** `Task::fin_transit_state`: as far as the handshake can go. */
  function FinTransit(c: Settings, s: Session, now: Word): Session
    decreases 5 - Rank(s.hs)
  {
    hide FinSend, WaitSnd, Unread, Wrap;
    match s.hs
    case Syn => s.(hs := Disconnected)
    case Connected => FinTransit(c, s.(hsEnd := Wrap(now + c.shutdownTimeout * 1000), hs := FinPending), now)
    case FinPending =>
      if !s.inputClosed || WaitSnd(s) > 0 then s
      else FinTransit(c, FinSend(c, s, now), now)
    case FinSent => if WaitSnd(s) > 0 then s else FinTransit(c, s.(hs := FinWaitPeer), now)
    case FinWaitPeer => if !s.finRecved || Unread(s) > 0 then s else s.(hs := Disconnected)
    case Disconnected => s
  }

  /** The guard of the current state fails, or there is none to pass. */
  predicate Stuck(s: Session) {
    match s.hs
    case FinPending => !s.inputClosed || WaitSnd(s) > 0
    case FinSent => WaitSnd(s) > 0
    case FinWaitPeer => !s.finRecved || Unread(s) > 0
    case Disconnected => true
    case _ => false
  }

  /** One transition. */
  function Passed(c: Settings, s: Session, now: Word): Session {
    match s.hs
    case Connected => s.(hsEnd := Wrap(now + c.shutdownTimeout * 1000), hs := FinPending)
    case FinPending => FinSend(c, s, now)
    case FinSent => s.(hs := FinWaitPeer)
    case _ => s.(hs := Disconnected)
  }

  /** The loop of `fin_transit_state`, turn by turn: it stops only at a failing guard. */
  lemma FinTurn(c: Settings, s: Session, now: Word)
    ensures FinTransit(c, s, now) == if Stuck(s) then s else FinTransit(c, Passed(c, s, now), now)
    ensures !Stuck(s) ==> Rank(Passed(c, s, now).hs) > Rank(s.hs)
  {
    hide HandshakeSend, WaitSnd, Unread, Wrap, Quiet;
    if s.hs == Connected {
      assert !Stuck(s);
    } else if s.hs == FinPending {
      assert Stuck(s) == (!s.inputClosed || WaitSnd(s) > 0);
    } else {
    }
  }

  predicate HasKey(c: Settings, syn: bytes) {
    c.key <= syn && |syn| - |c.key| == c.idLen
  }

  /** The SYN was right: the connection is established, and announced if the output channel has room. */
  function Establish(c: Settings, s: Session, id: bytes, room: bool, now: Word): (Session, bool) {
    var t := if s.client then ApplyNoDelay(c, s) else Greet(c, ApplyNoDelay(c, s.(id := id)), now);
    var u := t.(hs := Connected);
    if room then (u.(told := u.told + [Established(u.node.e.cfg.conv)]), true) else (u, false)
  }

  /** `Task::syn_handshake_recv`. */
  function SynHandshakeRecv(c: Settings, s: Session, room: bool, now: Word): (Session, bool) {
    var (t, syn) := KcpRecv(s, ForHandshake);
    if syn.None? then (t, true)
    else if !HasKey(c, syn.value) then (t, false)
    else
      var id := syn.value[|c.key|..];
      if s.client && s.id != id then (t, false) else Establish(c, t, id, room, now)
  }

  /** `Task::syn_handshake_input`: a packet with another conv may be part of the SYN handshake. */
  function SynHandshakeInput(s: Session, p: bytes): (r: Session)
    ensures Quiet(s, r)
  {
    if |p| < OVERHEAD then s
    else
      var conv := Word32(p);
      if s.client then
        if s.hs == Syn && conv != SYN_CONV then
          var t := Hear(Act(s, DoSetConv(conv)), p);
          if InputCode(conv, p) != 0 || WaitSnd(t) > 0 then Act(t, DoSetConv(SYN_CONV)) else t
        else s
      else if conv == SYN_CONV then Act(Hear(Act(s, DoSetConv(conv)), p), DoSetConv(s.node.e.cfg.conv))
      else s
  }

  /** The FIN branch of `Task::kcp_input`: the peer has closed; then the packet counts as itself. */
  function FinInput(c: Settings, s: Session, p: bytes, now: Word): Session
    requires |p| > 4 && HasBit(p[4], KCP_FIN)
  {
    Hear(FinTransit(c, if s.finRecved then s else s.(finRecved := true, open := false), now), Unmark(p))
  }

  /** `Task::kcp_input`. */
  function KcpInput(c: Settings, s: Session, p: bytes, now: Word): Session {
    var code, t := InputCode(s.node.e.cfg.conv, p), Hear(s, p);
    if code == 0 then t.(flush := true)
    else if code == -1 then SynHandshakeInput(t, p)
    else if |p| > 4 && HasBit(p[4], KCP_RESET) then t.(hs := Disconnected)
    else if |p| > 4 && HasBit(p[4], KCP_FIN) then FinInput(c, t, p, now)
    else t
  }

  /* ---------------------------------------------------------------- the arms of the event loop */

  /** `Kcp::is_send_queue_full`. */
  predicate Full(s: Session) {
    |s.node.e.snd.queue| >= s.node.e.cfg.sndWnd
  }

  function ProcessInput(c: Settings, s: Session, frame: bytes): (r: Session)
    ensures Quiet(s, r)
  {
    var (t0, ok) := KcpSend(s, frame);
    var t := t0.(ledger := s.ledger.(handed := s.ledger.handed + Put(s, frame)));
    if ok && (c.nodelay || |t.node.e.snd.queue| > 1) then t.(flush := true) else t
  }

  /** Takes frames until the send queue is full or the input channel empty; true if that is closed too. */
  function DrainInput(c: Settings, s: Session): (Session, bool)
    decreases |s.input|
  {
    if Full(s) then (s, false)
    else if s.input == [] then (s, !s.open)
    else
      DrainInput(c, ProcessInput(c, s.(input := s.input[1..]), s.input[0]))
  }

  function OnInput(c: Settings, s: Session, now: Word): Session {
    var (t, closed) := DrainInput(c, s);
    KcpFlush(if closed then FinTransit(c, t.(inputClosed := true), now) else t, now)
  }

  /** Hands over frames while the output channel has room for `room` more of them. */
  function HandOver(s: Session, room: nat): Session
    decreases room
  {
    var (t, x) := KcpRecv(s, ForApplication);
    if x.None? then t
    else if room == 0 then t.(frame := x)
    else HandOver(t.(told := t.told + [Frame(x.value)]), room - 1)
  }

  function OnOutput(s: Session, room: nat): Session
    requires s.frame.Some?
  {
    HandOver(s.(frame := None, told := s.told + [Frame(s.frame.value)]), room)
  }

  /** After a batch of packets. */
  function AfterPackets(c: Settings, s: Session, room: bool, now: Word): Session {
    var t := if s.hs == Syn then
               var (u, ok) := SynHandshakeRecv(c, s, room, now);
               if ok then u else u.(hs := Disconnected)
             else if s.hs == FinPending || s.hs == FinSent then FinTransit(c, s, now)
             else s;
    KcpFlush(if t.frame.None? then var (u, x) := KcpRecv(t, ForApplication); u.(frame := x) else t, now)
  }

  function KcpInputs(c: Settings, s: Session, ps: seq<bytes>, now: Word): Session
    decreases |ps|
  {
    if ps == [] then s else KcpInputs(c, KcpInput(c, s, ps[0], now), ps[1..], now)
  }

  function OnPackets(c: Settings, s: Session, ps: seq<bytes>, room: bool, now: Word): Session {
    AfterPackets(c, KcpInputs(c, s, ps, now), room, now)
  }

  /** A packet leaving: in `FinSent`, one with a payload gets the FIN mark. */
  function Outgoing(hs: Handshake, p: bytes): bytes {
    if hs == FinSent && |p| > 4 && PayloadData(p) != [] then Mark(p) else p
  }

  function OutgoingAll(hs: Handshake, ps: seq<bytes>): (r: seq<bytes>)
    ensures |r| == |ps|
  {
    seq(|ps|, i requires 0 <= i < |ps| => Outgoing(hs, ps[i]))
  }

  function KcpOutput(s: Session): Session {
    s.(queue := [], fed := s.fed + OutgoingAll(s.hs, s.queue))
  }

  datatype Next = Break | Again | Wait(ms: nat)

  /** The top of the loop: send what is queued, give up, update, or sleep. */
  function Top(c: Settings, s0: Session, now: Word): (Session, Next) {
    var s := KcpOutput(s0);
    var idle := Max(0, TimeDiff(s.node.e.clock.current, s.lastIo));
    var interval := Min(Wrap(Check(s.node.e, now) - now), 60000);
    var left := TimeDiff(s.hsEnd, now);
    if s.hs == Disconnected || s.node.e.dead || idle >= Wrap(c.expire * 1000) then (s, Break)
    else if s.hs != Connected && left <= 0 then (s.(hs := Disconnected), Again)
    else
      var ms := if s.hs != Connected then Min(interval, left) else interval;
      if ms == 0 then (Act(s, DoUpdate(now)), Again) else (s, Wait(ms))
  }

  /* ---------------------------------------------------------------- runs */

  /** A new task around a configured control block. */
  function New(e: Endpoint): Session {
    Session(Syn, false, false, false, false, 0, 0, [], Node(e, [], [], [], []), [], [], [], true, None, [], false, [],
            None, Ledger([], [], [], [], []))
  }

  /** The start of `Task::run`; a control block with the SYN conv makes it the client, which sends its ID. */
  function Begin(c: Settings, s: Session, id: bytes, now: Word): Session {
    var t := Act(s.(hsEnd := Wrap(now + c.connectTimeout * 1000)), DoNoDelay(1, 100, 0, 0));
    var t1 := t.(lastIo := t.node.e.clock.current);
    if t1.node.e.cfg.conv == SYN_CONV then Greet(c, Act(t1.(client := true, id := id), DoSetConv(SYN_CONV)), now)
    else t1
  }

  /** What may happen next; the first two are the application's doing. */
  datatype SEvent =
    | Write(frame: bytes)
    | Close
    | LoopTop(now: Word)
    | FromApp(now: Word)
    | ToApp(room: nat)
    | FromNet(p: bytes, now: Word)
    | NetDone(space: bool, now: Word)

  /** `wait_connection` gives the application its end only once the connection is announced. */
  function OnWrite(s: Session, frame: bytes): Session {
    if s.open && s.told != [] then
      s.(input := s.input + [frame], ledger := s.ledger.(written := s.ledger.written + [frame]))
    else s
  }

  function OnTop(c: Settings, s: Session, now: Word): Session {
    var (t, next) := Top(c, s, now);
    t.(over := next == Break)
  }

  /** A disconnected session leaves the loop at its top; it takes no input and hands nothing over before. */
  function Step(c: Settings, s: Session, ev: SEvent): Session {
    if s.over then s
    else
      match ev
      case Write(frame) => OnWrite(s, frame)
      case Close => s.(open := false)
      case LoopTop(now) => OnTop(c, s, now)
      case FromApp(now) =>
        if s.hs != Disconnected && !s.inputClosed && !Full(s) && (s.input != [] || !s.open) then OnInput(c, s, now)
        else s
      case ToApp(room) => if s.hs != Disconnected && s.frame.Some? then OnOutput(s, room) else s
      case FromNet(p, now) => KcpInput(c, s, p, now)
      case NetDone(space, now) => AfterPackets(c, s, space, now)
  }

  function RunSession(c: Settings, e: Endpoint, id: bytes, now: Word, evs: seq<SEvent>): Session {
    if evs == [] then Begin(c, New(e), id, now)
    else Step(c, RunSession(c, e, id, now, evs[..|evs| - 1]), evs[|evs| - 1])
  }
}
