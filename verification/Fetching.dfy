/**
  What a session reads from KCP: which read is the application's and which is the peer's FIN, and what
  the end of a batch leaves behind in the SYN handshake.
*/
module Fetching {
  import opened Serial
  import opened WireFormat
  import opened Endpoints
  import opened Network
  import opened Lifetime
  import opened Sessions
  import opened Frames
  import opened Labels
  import opened Branches
  import opened Identity

  /** The one thing left to read, after a FIN, is the FIN's frame. */
  predicate FinFrameNext(s: Session) {
    s.finRecved && Unread(s) == 1
  }

  /** There is a whole frame to read, and it is not empty. */
  predicate Readable(s: Session) {
    PeekSize(s.node.e.rcv.queue) > 0
  }

  /**
    One read: without a frame nothing happens; with one, it leaves KCP and is recorded, and the caller
    gets it unless it is the last there is after a FIN.
  */
  lemma ReadDoes(s: Session, fate: Fate)
    ensures var (t, x) := KcpRecv(s, fate);
            var r := Recv(Bits32, s.node.e, PeekSize(s.node.e.rcv.queue));
            if !Readable(s) then t == s && x == None
            else
              && t.node.e == r.e && t.node.got == s.node.got + [r.data]
              && t.ledger == s.ledger.(fates := s.ledger.fates + [if FinFrameNext(s) then Swallowed else fate])
              && x == if FinFrameNext(s) then None else Some(r.data)
  {
    hide RecvBytes, Recv, PeekSize;
    QueueSome(s);
    if Readable(s) {
      OneRead(s, if FinFrameNext(s) then Swallowed else fate);
    } else {
      NothingRead(s, fate);
      NothingRead(s, Swallowed);
    }
  }

  lemma OneRead(s: Session, fate: Fate)
    requires Readable(s)
    ensures var (t, x) := RecvBytes(s, fate);
            var r := Recv(Bits32, s.node.e, PeekSize(s.node.e.rcv.queue));
            && x == Some(r.data) && t.node.e == r.e && t.node.got == s.node.got + [r.data]
            && t.ledger == s.ledger.(fates := s.ledger.fates + [fate])
  {
    hide Recv, PeekSize, Act, Quiet;
    RecvBytesReads(s, fate);
    ActNode(s, DoRecv(PeekSize(s.node.e.rcv.queue)));
  }

  lemma NothingRead(s: Session, fate: Fate)
    requires !Readable(s)
    ensures RecvBytes(s, fate) == (s, None)
  {
    hide Recv, PeekSize, Act;
  }

  lemma QueueSome(s: Session)
    ensures Readable(s) ==> s.node.e.rcv.queue != []
  {
  }

  /** At the end of a batch, with no frame waiting: the FIN's frame is not fetched for the application; another is. */
  lemma FetchDoes(c: Settings, s: Session, room: bool, now: Word)
    requires !s.over && s.hs != Syn && s.hs != FinPending && s.hs != FinSent && s.frame.None? && Readable(s)
    ensures var t := Step(c, s, NetDone(room, now));
            && t.told == s.told
            && t.frame == if FinFrameNext(s) then None
                          else Some(Recv(Bits32, s.node.e, PeekSize(s.node.e.rcv.queue)).data)
  {
    hide KcpRecv, KcpFlush, Recv, PeekSize, FinFrameNext;
    ReadDoes(s, ForApplication);
    var (u, x) := KcpRecv(s, ForApplication);
    KcpFlushTells(u.(frame := x), now);
    KcpRecvTells(s, ForApplication);
  }

  /** Handing frames over, it is not told to the application either. */
  lemma FinFrameUntold(c: Settings, s: Session, room: nat)
    requires !s.over && s.hs != Disconnected && s.frame.Some? && Readable(s) && FinFrameNext(s)
    ensures var t := Step(c, s, ToApp(room));
            t.told == s.told + [Frame(s.frame.value)] && t.frame.None? && t.ledger.fates == s.ledger.fates + [Swallowed]
  {
    hide KcpRecv, Recv, PeekSize, Unread;
    var u := s.(frame := None, told := s.told + [Frame(s.frame.value)]);
    SameUnread(s, u);
    ReadDoes(u, ForApplication);
    KcpRecvTells(u, ForApplication);
  }

  lemma SameUnread(s: Session, t: Session)
    requires s.node == t.node
    ensures Unread(s) == Unread(t)
  {
  }

  /* ---------------------------------------------------------------- the end of a batch in the SYN handshake */

  lemma ReadFresh(s: Session, now: Word)
    ensures var t := KcpRecv(s, ForHandshake).0;
            t.flush == s.flush && (Fresh(s, now) ==> Fresh(t, now)) && t.frame == s.frame && t.client == s.client
  {
    hide Act, PeekSize, Recv;
    var size := PeekSize(s.node.e.rcv.queue);
    if size > 0 {
      ActRecv(s, size);
    }
  }

  /** A server that connects has sent its greeting at once; a client need not send anything. */
  lemma EstablishFresh(c: Settings, s: Session, id: bytes, room: bool, now: Word)
    ensures var t := Establish(c, s, id, room, now).0;
            t.frame == s.frame && (!s.client ==> Fresh(t, now)) && (s.client ==> t.flush == s.flush)
  {
    hide Act, Greet;
    var u := ApplyNoDelay(c, s.(id := id));
    GreetDoes(c, u, now);
    ActFlag(s, DoNoDelay(if c.nodelay then 1 else 0, c.interval, c.resend, if c.nc then 1 else 0));
  }

  lemma ActFlag(s: Session, act: Action)
    requires !act.Deliver?
    ensures Act(s, act).flush == s.flush && Act(s, act).client == s.client
  {
    hide Local, Packets, EncodePacket;
  }

  lemma SynRecvFresh(c: Settings, s: Session, room: bool, now: Word)
    requires s.hs == Syn
    ensures var u := SynHandshakeRecv(c, s, room, now).0;
            && (s.flush ==> u.flush || Fresh(u, now)) && (u.hs == Connected && !s.client ==> Fresh(u, now))
            && u.frame == s.frame
  {
    hide KcpRecv, Establish, HasKey, Fresh;
    var (t, syn) := KcpRecv(s, ForHandshake);
    ReadFresh(s, now);
    KcpRecvKnown(s, ForHandshake);
    if syn.Some? && HasKey(c, syn.value) {
      KeyLong(c, syn.value);
      EstablishFresh(c, t, syn.value[|c.key|..], room, now);
    }
  }

  /**
    The end of a batch in the SYN handshake: whatever becomes of the handshake, a frame is fetched if
    there is one, a requested flush has happened, and a server that connects has sent its greeting.
  */
  lemma SynDoneDoes(c: Settings, s: Session, room: bool, now: Word)
    requires !s.over && s.hs == Syn
    ensures var t := Step(c, s, NetDone(room, now));
            && !t.flush && (s.flush || (t.hs == Connected && !s.client) ==> Fresh(t, now))
            && (s.frame.Some? ==> t.frame == s.frame) && (t.frame.None? ==> NothingReadable(t))
  {
    hide SynHandshakeRecv, AfterPackets, KcpRecv, KcpFlush, Fresh, NothingReadable, WaitSnd, Quiet;
    NetDoneIs(c, s, room, now);
    InSyn(c, s, room, now);
    SynRecvFresh(c, s, room, now);
    var (u0, ok) := SynHandshakeRecv(c, s, room, now);
    var u := if ok then u0 else u0.(hs := Disconnected);
    FreshFlag(u0, u, now);
    Fetched(u, now);
    var (v, x) := KcpRecv(u, ForApplication);
    FlushedLast(if u.frame.None? then v.(frame := x) else u, now);
  }

  lemma FreshFlag(s: Session, t: Session, now: Word)
    requires t.node == s.node && t.lastIo == s.lastIo
    ensures Fresh(s, now) == Fresh(t, now)
  {
  }
}
