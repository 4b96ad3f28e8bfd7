/** The session task of `stream.rs` in place: flags and state around a control block, proved against `Sessions`. */
module SessionTask {
  import opened Serial
  import opened WireFormat
  import opened Endpoints
  import opened Invariants
  import opened Network
  import opened Packetization
  import opened Lifetime
  import opened Marking
  import opened Sessions
  import opened SessionSafety
  import opened Frames
  import opened Starting
  import opened KcpControl

  /** The control block and the packets after a call that sends nothing. */
  lemma SilentStep(n: Node<bytes>, act: Action)
    requires act.DoSend? || act.DoRecv? || act.DoNoDelay? || act.DoSetConv?
    ensures Step32(n, n, act).out == n.out
    ensures act.DoRecv? ==> Step32(n, n, act).e == Recv(Bits32, n.e, act.len).e
    ensures act.DoSend? ==>
              Step32(n, n, act).e == n.e.(snd := n.e.snd.(queue := Send(n.e.cfg, n.e.snd.queue, act.data).queue))
    ensures act.DoNoDelay? ==>
              Step32(n, n, act).e == n.e.(cfg := NoDelay(n.e.cfg, act.nodelay, act.interval, act.resend, act.nc))
    ensures act.DoSetConv? ==> Step32(n, n, act).e == n.e.(cfg := n.e.cfg.(conv := act.conv))
  {
    hide EncodePacket, Packets, Send, Recv;
    NoPackets(n.e);
  }

  /** The control block and the packets after a flush. */
  lemma FlushStep(n: Node<bytes>, act: Action)
    requires act.DoFlush? || act.DoUpdate?
    ensures var r, m := if act.DoFlush? then Endpoints.Flush(Bits32, n.e) else Endpoints.Update(Bits32, n.e, act.now),
                        Step32(n, n, act);
            m.e == r.e && m.out[|n.out|..] == EncodeAll(Packets(n.e.cfg.mtu, r.segs)) && n.out <= m.out
  {
    hide EncodePacket, Packets, Endpoints.Flush, Endpoints.Update;
  }

  class Task {
    const settings: Settings
    const kcp: Kcp
    var hs: Handshake
    var client: bool
    var flush: bool
    var finRecved: bool
    var inputClosed: bool
    var hsEnd: Word
    var lastIo: Word
    var sessionId: bytes
    /** The transport: what was fed to it. */
    var fed: seq<bytes>
    /** The channel of frames from the application, and whether it is open. */
    var input: seq<bytes>
    var open: bool
    /** A received frame that waits for room in the output channel, and what was put there. */
    var txFrame: Option<bytes>
    var told: seq<Output>
    ghost var node: Node<bytes>
    /** The loop has been left. */
    var over: bool
    ghost var ops: seq<Op>
    ghost var finAt: Option<nat>
    ghost var ledger: Ledger

    ghost function View(): Session
      reads this, kcp`output
    {
      Session(hs, client, flush, finRecved, inputClosed, hsEnd, lastIo, sessionId, node, kcp.output, fed, input, open,
              txFrame, told, over, ops, finAt, ledger)
    }

    ghost predicate Valid()
      reads this, kcp, kcp.acklist
    {
      kcp.Valid() && node.e == kcp.View()
    }

    ghost function Parts(): set<object>
      reads kcp
    {
      {kcp, kcp.acklist, kcp.buffer}
    }

    constructor (settings: Settings, kcp: Kcp)
      requires kcp.Valid() && kcp.output == []
      ensures this.kcp == kcp && this.settings == settings && Valid() && View() == New(kcp.View())
    {
      this.settings, this.kcp := settings, kcp;
      hs, client, flush, finRecved, inputClosed := Syn, false, false, false, false;
      hsEnd, lastIo, sessionId, fed, input, open := 0, 0, [], [], [], true;
      txFrame, told, over := None, [], false;
      node, ops, finAt, ledger := Node(kcp.View(), [], [], [], []), [], None, Ledger([], [], [], [], []);
    }

    /* -------------------------------------------------------------- before the session */

    /** `Kcp::initialize`: it flushes, and there is nothing to send. */
    method Initialize(now: Word)
      requires Valid() && kcp.View() == Created(kcp.cfg.conv)
      modifies Parts()
      ensures kcp.Valid() && fresh(Parts() - old(Parts())) && kcp.output == old(kcp.output)
      ensures kcp.View() == Endpoints.Update(Bits32, Created(old(kcp.cfg.conv)), now).e
    {
      hide Endpoints.Update, Kcp.Valid, Kcp.View;
      FirstUpdate(kcp.cfg.conv, now);
      NoPackets(Created(kcp.cfg.conv));
      kcp.Fields();
      kcp.Update(now);
    }

    /** `Task::kcp_apply_config` without the last line. */
    method ApplySizes(l: Limits)
      requires kcp.Valid() && Usable(l) && kcp.View().snd == Snd(0, 0, [], []) && kcp.View().rcv == Rcv(0, [], [], [])
      modifies kcp, kcp.buffer
      ensures kcp.Valid() && fresh(Parts() - old(Parts())) && kcp.output == old(kcp.output)
      ensures kcp.View() == old(kcp.View()).(cfg := Sized(l, old(kcp.View().cfg)))
    {
      hide EndpointInv;
      kcp.SetStream(l.stream);
      var code := kcp.SetMtu(l.mtu);
      kcp.WndSize(l.sndWnd, l.rcvWnd);
    }

    method Configure(l: Limits, now: Word)
      requires Valid() && Usable(l) && View() == New(Created(kcp.cfg.conv))
      modifies this`node, Parts()
      ensures Valid() && fresh(Parts() - old(Parts()))
      ensures View() == New(Configured(settings, l, old(kcp.cfg.conv), now))
    {
      hide Endpoints.Update, Endpoints.NoDelay, Sized, Kcp.Valid, Kcp.View;
      kcp.Fields();
      FirstUpdate(kcp.cfg.conv, now);
      Initialize(now);
      assert fresh(Parts() - old(Parts()));
      ApplySizes(l);
      assert fresh(Parts() - old(Parts()));
      kcp.Fields();
      var a: cint, b: cint := if settings.nodelay then 1 else 0, if settings.nc then 1 else 0;
      kcp.NoDelay(a, settings.interval, settings.resend, b);
      node := Node(kcp.View(), [], [], [], []);
    }

    /* -------------------------------------------------------------- calls on the control block */

    method SendData(data: bytes) returns (code: int)
      requires Valid()
      modifies this`node, this`ops, Parts()
      ensures Valid() && fresh(Parts() - old(Parts()))
      ensures View() == Act(old(View()), DoSend(data))
      ensures code == Send(old(node.e.cfg), old(node.e.snd.queue), data).code
    {
      hide Quiet, Step32, Local, Send, Kcp.Valid, Kcp.View;
      SilentStep(node, DoSend(data));
      kcp.Fields();
      ghost var taken;
      code, taken := kcp.Send(data);
      node, ops := Step32(node, node, DoSend(data)), ops + [Do(DoSend(data))];
    }

    method ReadData(size: nat) returns (data: bytes)
      requires Valid()
      modifies this`node, this`ops, Parts()
      ensures Valid() && fresh(Parts() - old(Parts()))
      ensures View() == Act(old(View()), DoRecv(size)) && data == Recv(Bits32, old(node.e), size).data
    {
      hide Quiet, Step32, Local, Recv, Kcp.Valid, Kcp.View;
      SilentStep(node, DoRecv(size));
      var code;
      code, data := kcp.Recv(size);
      node, ops := Step32(node, node, DoRecv(size)), ops + [Do(DoRecv(size))];
    }

    method Update(now: Word)
      requires Valid()
      modifies this`node, this`ops, Parts()
      ensures Valid() && fresh(Parts() - old(Parts()))
      ensures View() == Act(old(View()), DoUpdate(now))
    {
      hide Quiet, Step32, Local, Packets, EncodeAll, Endpoints.Update, Kcp.Valid, Kcp.View;
      FlushStep(node, DoUpdate(now));
      kcp.Fields();
      kcp.Update(now);
      node, ops := Step32(node, node, DoUpdate(now)), ops + [Do(DoUpdate(now))];
    }

    method Flush()
      requires Valid()
      modifies this`node, this`ops, Parts()
      ensures Valid() && fresh(Parts() - old(Parts()))
      ensures View() == Act(old(View()), DoFlush)
    {
      hide Quiet, Step32, Local, Packets, EncodeAll, Endpoints.Flush, Kcp.Valid, Kcp.View;
      FlushStep(node, DoFlush);
      kcp.Fields();
      kcp.Flush();
      node, ops := Step32(node, node, DoFlush), ops + [Do(DoFlush)];
    }

    method SetNoDelay(nodelay: bool, interval: cint, resend: cint, nc: bool)
      requires Valid()
      modifies this`node, this`ops, Parts()
      ensures Valid() && fresh(Parts() - old(Parts()))
      ensures View() == Act(old(View()), DoNoDelay(if nodelay then 1 else 0, interval, resend, if nc then 1 else 0))
    {
      hide Quiet, Step32, Local, Endpoints.NoDelay, Kcp.Valid, Kcp.View;
      var a: cint, b: cint := if nodelay then 1 else 0, if nc then 1 else 0;
      SilentStep(node, DoNoDelay(a, interval, resend, b));
      kcp.Fields();
      kcp.NoDelay(a, interval, resend, b);
      node, ops := Step32(node, node, DoNoDelay(a, interval, resend, b)), ops + [Do(DoNoDelay(a, interval, resend, b))];
    }

    method SetConv(conv: Word)
      requires Valid()
      modifies this`node, this`ops, Parts()
      ensures Valid() && fresh(Parts() - old(Parts()))
      ensures View() == Act(old(View()), DoSetConv(conv))
    {
      hide Quiet, Step32, Local, Kcp.Valid, Kcp.View;
      SilentStep(node, DoSetConv(conv));
      kcp.Fields();
      kcp.SetConv(conv);
      node, ops := Step32(node, node, DoSetConv(conv)), ops + [Do(DoSetConv(conv))];
    }

    method Hear(p: bytes) returns (code: int)
      requires Valid()
      modifies this`node, this`ops, Parts()
      ensures Valid() && fresh(Parts() - old(Parts()))
      ensures View() == Sessions.Hear(old(View()), p) && code == InputCode(old(node.e.cfg.conv), p)
    {
      hide Quiet, Endpoints.Input, InputCode, Kcp.Valid, Kcp.View;
      kcp.Fields();
      code := kcp.Input(p);
      assert fresh(Parts() - old(Parts()));
      node, ops := node.(e := Endpoints.Input(node.e, p)), ops + [Arrive(p)];
    }

    /* -------------------------------------------------------------- frames in and out */

    /** `Kcp::send`. */
    method KcpSend(data: bytes) returns (ok: bool)
      requires Valid()
      modifies this`node, this`ops, Parts()
      ensures Valid() && fresh(Parts() - old(Parts()))
      ensures (View(), ok) == Sessions.KcpSend(old(View()), data)
    {
      hide Act, Send, Kcp.Valid, Kcp.View;
      if data == [] {
        return true;
      }
      var code := SendData(data);
      ok := code == 0;
    }

    /** `Kcp::recv_bytes`. */
    method RecvBytes(ghost fate: Fate) returns (data: Option<bytes>)
      requires Valid()
      modifies this`node, this`ops, this`ledger, Parts()
      ensures Valid() && fresh(Parts() - old(Parts()))
      ensures (View(), data) == Sessions.RecvBytes(old(View()), fate)
    {
      hide Act, Recv, PeekSize, Kcp.Valid, Kcp.View;
      kcp.Fields();
      var size := kcp.PeekSize();
      if size <= 0 {
        return None;
      }
      var d := ReadData(size);
      ledger := ledger.(fates := ledger.fates + [fate]);
      data := Some(d);
    }

    method KcpRecv(ghost fate: Fate) returns (data: Option<bytes>)
      requires Valid()
      modifies this`node, this`ops, this`ledger, Parts()
      ensures Valid() && fresh(Parts() - old(Parts()))
      ensures (View(), data) == Sessions.KcpRecv(old(View()), fate)
    {
      hide Sessions.RecvBytes, Kcp.Valid, Kcp.View;
      kcp.Fields();
      if finRecved && kcp.nrcvQue == 1 && kcp.nrcvBuf == 0 {
        var _ := RecvBytes(Swallowed);
        data := None;
      } else {
        data := RecvBytes(fate);
      }
    }

    method KcpFlush(now: Word)
      requires Valid()
      modifies this`node, this`ops, this`flush, this`lastIo, Parts()
      ensures Valid() && fresh(Parts() - old(Parts()))
      ensures View() == Sessions.KcpFlush(old(View()), now)
    {
      hide Act, Kcp.Valid, Kcp.View;
      if flush {
        flush := false;
        Update(now);
        assert fresh(Parts() - old(Parts()));
        Flush();
        kcp.Fields();
        lastIo := kcp.clock.current;
      }
    }

    method HandshakeSend(now: Word)
      requires Valid()
      modifies this`node, this`ops, this`flush, this`lastIo, Parts()
      ensures Valid() && fresh(Parts() - old(Parts()))
      ensures View() == Sessions.HandshakeSend(settings, old(View()), now)
    {
      hide Sessions.KcpSend, Sessions.KcpFlush, Kcp.Valid, Kcp.View;
      flush := true;
      var _ := KcpSend(settings.key + sessionId);
      KcpFlush(now);
    }

    method WaitSnd() returns (n: nat)
      requires Valid()
      ensures n == Sessions.WaitSnd(View())
    {
      hide Kcp.Valid, Kcp.View;
      kcp.Fields();
      n := kcp.nsndBuf + kcp.nsndQue;
    }

    /** The first frame of either side. */
    method Greet(now: Word)
      requires Valid()
      modifies this`node, this`ops, this`flush, this`lastIo, this`ledger, Parts()
      ensures Valid() && fresh(Parts() - old(Parts()))
      ensures View() == Sessions.Greet(settings, old(View()), now)
    {
      hide Quiet, Put, Sessions.HandshakeSend, Kcp.Valid, Kcp.View;
      ledger := ledger.(greeting := Put(View(), settings.key + sessionId));
      HandshakeSend(now);
    }

    ghost method MakeReady()
      requires Valid()
      modifies this`finAt, this`ledger
      ensures Valid() && View() == Ready(settings, old(View()))
    {
      hide Put, Kcp.Valid, Kcp.View;
      ledger := ledger.(farewell := Put(View(), settings.key + sessionId));
      finAt := Some(|ops|);
    }

    method SendFin(now: Word)
      requires Valid()
      modifies this`node, this`ops, this`flush, this`lastIo, this`hs, this`finAt, this`ledger, Parts()
      ensures Valid() && fresh(Parts() - old(Parts()))
      ensures View() == FinSend(settings, old(View()), now)
    {
      hide Quiet, Ready, Sessions.HandshakeSend, Kcp.Valid, Kcp.View;
      MakeReady();
      HandshakeSend(now);
      hs := FinSent;
    }

    method NothingUnread() returns (none: bool)
      requires Valid()
      ensures none == (Unread(View()) == 0)
    {
      hide Kcp.Valid, Kcp.View;
      kcp.Fields();
      none := kcp.nrcvQue + kcp.nrcvBuf == 0;
    }

    /** One turn of the loop of `fin_transit_state`; `stop` when the guard of the state fails. */
    method FinStep(now: Word) returns (stop: bool)
      requires Valid()
      modifies this`node, this`ops, this`flush, this`lastIo, this`hs, this`hsEnd, this`finAt, this`ledger, Parts()
      ensures Valid() && fresh(Parts() - old(Parts()))
      ensures stop == Stuck(old(View()))
      ensures stop ==> View() == old(View())
      ensures !stop ==> View() == Passed(settings, old(View()), now)
    {
      hide FinSend, Quiet, Kcp.Valid, Kcp.View, Wrap, Sessions.WaitSnd, Unread;
      var waitsnd := WaitSnd();
      var read := NothingUnread();
      stop := false;
      match hs {
        case Syn =>
          hs := Disconnected;
        case Connected =>
          hsEnd := Wrap(now + settings.shutdownTimeout * 1000);
          hs := FinPending;
        case FinPending =>
          if !inputClosed || waitsnd > 0 {
            return true;
          }
          SendFin(now);
          assert fresh(Parts() - old(Parts()));
        case FinSent =>
          if waitsnd > 0 {
            return true;
          }
          hs := FinWaitPeer;
        case FinWaitPeer =>
          if !finRecved || !read {
            return true;
          }
          hs := Disconnected;
        case Disconnected =>
          return true;
      }
    }

    /** `fin_transit_state`. */
    method FinTransit(now: Word)
      requires Valid()
      modifies this`node, this`ops, this`flush, this`lastIo, this`hs, this`hsEnd, this`finAt, this`ledger, Parts()
      ensures Valid() && fresh(Parts() - old(Parts()))
      ensures View() == Sessions.FinTransit(settings, old(View()), now)
    {
      hide Sessions.FinTransit, Kcp.Valid, Kcp.View, Stuck, Passed;
      var stop := false;
      while !stop
        invariant Valid() && fresh(Parts() - old(Parts()))
        invariant Sessions.FinTransit(settings, View(), now) == Sessions.FinTransit(settings, old(View()), now)
        invariant stop ==> Stuck(View())
        decreases 5 - Rank(hs), !stop
      {
        FinTurn(settings, View(), now);
        stop := FinStep(now);
      }
      FinTurn(settings, View(), now);
    }

    /* -------------------------------------------------------------- input from the application */

    method ProcessInput(frame: bytes)
      requires Valid()
      modifies this`node, this`ops, this`flush, this`ledger, Parts()
      ensures Valid() && fresh(Parts() - old(Parts()))
      ensures View() == Sessions.ProcessInput(settings, old(View()), frame)
    {
      hide Quiet, Put, Sessions.KcpSend, Kcp.Valid, Kcp.View;
      ghost var put := Put(View(), frame);
      var ok := KcpSend(frame);
      ledger := ledger.(handed := ledger.handed + put);
      kcp.Fields();
      if ok && (settings.nodelay || kcp.nsndQue > 1) {
        flush := true;
      }
    }

    method IsSendQueueFull() returns (full: bool)
      requires Valid()
      ensures full == Full(View())
    {
      hide Kcp.Valid, Kcp.View;
      kcp.Fields();
      full := kcp.nsndQue >= kcp.cfg.sndWnd;
    }

    method TakeFrame()
      requires Valid() && input != []
      modifies this`node, this`ops, this`flush, this`input, this`ledger, Parts()
      ensures Valid() && fresh(Parts() - old(Parts())) && input == old(input)[1..]
      ensures View() == Sessions.ProcessInput(settings, old(View()).(input := old(input)[1..]), old(input)[0])
    {
      hide Sessions.ProcessInput, Kcp.Valid, Kcp.View, Quiet;
      var frame := input[0];
      input := input[1..];
      ProcessInput(frame);
    }

    /** The first branch of the loop: frames from the application, until the queue is full or the channel is dry. */
    method DrainInput() returns (closed: bool)
      requires Valid()
      modifies this`node, this`ops, this`flush, this`input, this`ledger, Parts()
      ensures Valid() && fresh(Parts() - old(Parts()))
      ensures (View(), closed) == Sessions.DrainInput(settings, old(View()))
    {
      hide Sessions.DrainInput, Sessions.ProcessInput, Kcp.Valid, Kcp.View, Full, Quiet;
      closed := false;
      var full := IsSendQueueFull();
      while !full && input != []
        invariant Valid() && fresh(Parts() - old(Parts()))
        invariant full == Full(View())
        invariant Sessions.DrainInput(settings, View()) == Sessions.DrainInput(settings, old(View()))
        decreases |input|
      {
        DrainTurn(settings, View());
        TakeFrame();
        assert fresh(Parts() - old(Parts()));
        full := IsSendQueueFull();
      }
      DrainTurn(settings, View());
      if !full {
        closed := !open;
      }
    }

    method OnInput(now: Word)
      requires Valid() && !inputClosed
      modifies this, Parts()
      ensures Valid() && fresh(Parts() - old(Parts()))
      ensures View() == Sessions.OnInput(settings, old(View()), now)
    {
      hide Sessions.DrainInput, Sessions.FinTransit, Sessions.KcpFlush, Kcp.Valid, Kcp.View, Quiet;
      var closed := DrainInput();
      assert fresh(Parts() - old(Parts()));
      if closed {
        inputClosed := true;
        FinTransit(now);
        assert fresh(Parts() - old(Parts()));
      }
      KcpFlush(now);
    }

    /* -------------------------------------------------------------- output to the application */

    /** Frames while there are any and there is room; one that does not fit waits. */
    method HandOver(room: nat)
      requires Valid()
      modifies this`node, this`ops, this`txFrame, this`told, this`ledger, Parts()
      ensures Valid() && fresh(Parts() - old(Parts()))
      ensures View() == Sessions.HandOver(old(View()), room)
    {
      hide Sessions.KcpRecv, Kcp.Valid, Kcp.View, Quiet;
      var left := room;
      var more := true;
      while more
        invariant Valid() && fresh(Parts() - old(Parts())) && 0 <= left
        invariant (if more then Sessions.HandOver(View(), left) else View()) == Sessions.HandOver(old(View()), room)
        decreases more, left
      {
        var frame := KcpRecv(ForApplication);
        if frame.None? {
          more := false;
        } else if left == 0 {
          txFrame := frame;
          more := false;
        } else {
          told, left := told + [Frame(frame.value)], left - 1;
        }
      }
    }

    /** The second branch: the waiting frame first. */
    method OnOutput(room: nat)
      requires Valid() && txFrame.Some?
      modifies this`node, this`ops, this`txFrame, this`told, this`ledger, Parts()
      ensures Valid() && fresh(Parts() - old(Parts()))
      ensures View() == Sessions.OnOutput(old(View()), room)
    {
      hide Sessions.HandOver, Kcp.Valid, Kcp.View;
      told, txFrame := told + [Frame(txFrame.value)], None;
      HandOver(room);
    }

    /* -------------------------------------------------------------- packets */

    method ApplyNoDelay()
      requires Valid()
      modifies this`node, this`ops, Parts()
      ensures Valid() && fresh(Parts() - old(Parts()))
      ensures View() == Sessions.ApplyNoDelay(settings, old(View()))
    {
      hide Act, Kcp.Valid, Kcp.View, Quiet;
      SetNoDelay(settings.nodelay, settings.interval, settings.resend, settings.nc);
    }

    /** A frame with the session key and an ID. */
    method HasKey(syn: bytes) returns (has: bool)
      ensures has == Sessions.HasKey(settings, syn)
    {
      has := |syn| == |settings.key| + settings.idLen && syn[..|settings.key|] == settings.key;
    }

    method AnswerSyn(id: bytes, now: Word)
      requires Valid()
      modifies this, Parts()
      ensures Valid() && fresh(Parts() - old(Parts())) && client == old(client)
      ensures View() == if client then Sessions.ApplyNoDelay(settings, old(View()))
                        else Sessions.Greet(settings, Sessions.ApplyNoDelay(settings, old(View()).(id := id)), now)
    {
      hide Sessions.ApplyNoDelay, Sessions.Greet, Kcp.Valid, Kcp.View;
      if client {
        ApplyNoDelay();
      } else {
        sessionId := id;
        ApplyNoDelay();
        Greet(now);
      }
    }

    method Establish(id: bytes, room: bool, now: Word) returns (ok: bool)
      requires Valid()
      modifies this, Parts()
      ensures Valid() && fresh(Parts() - old(Parts()))
      ensures (View(), ok) == Sessions.Establish(settings, old(View()), id, room, now)
    {
      hide Sessions.ApplyNoDelay, Sessions.Greet, Kcp.Valid, Kcp.View;
      AnswerSyn(id, now);
      hs := Connected;
      if room {
        kcp.Fields();
        told := told + [Established(kcp.cfg.conv)];
      }
      ok := room;
    }

    method SynHandshakeRecv(room: bool, now: Word) returns (ok: bool)
      requires Valid()
      modifies this, Parts()
      ensures Valid() && fresh(Parts() - old(Parts()))
      ensures (View(), ok) == Sessions.SynHandshakeRecv(settings, old(View()), room, now)
    {
      hide Sessions.KcpRecv, Sessions.HasKey, Sessions.Establish, Quiet, Kcp.Valid, Kcp.View;
      var syn := KcpRecv(ForHandshake);
      assert fresh(Parts() - old(Parts()));
      if syn.None? {
        return true;
      }
      var has := HasKey(syn.value);
      if !has {
        return false;
      }
      KeyLength(settings, syn.value);
      var id := syn.value[|settings.key|..];
      if client && sessionId != id {
        return false;
      }
      ok := Establish(id, room, now);
    }

    /** An input under another conv. */
    method HearAs(conv: Word, p: bytes) returns (code: int)
      requires Valid()
      modifies this`node, this`ops, Parts()
      ensures Valid() && fresh(Parts() - old(Parts()))
      ensures View() == Sessions.Hear(Act(old(View()), DoSetConv(conv)), p) && code == InputCode(conv, p)
    {
      hide Act, Sessions.Hear, InputCode, Kcp.Valid, Kcp.View;
      ConvSet(View(), conv);
      SetConv(conv);
      code := Hear(p);
    }

    method SynHandshakeInput(p: bytes)
      requires Valid()
      modifies this`node, this`ops, Parts()
      ensures Valid() && fresh(Parts() - old(Parts()))
      ensures View() == Sessions.SynHandshakeInput(old(View()), p)
    {
      hide Quiet, Act, Sessions.Hear, InputCode, Word32, Kcp.Valid, Kcp.View, Sessions.WaitSnd;
      if |p| < OVERHEAD {
        return;
      }
      var conv := Word32(p);
      if client {
        if hs == Syn && conv != SYN_CONV {
          var code := HearAs(conv, p);
          var waitsnd := WaitSnd();
          if code != 0 || waitsnd > 0 {
            SetConv(SYN_CONV);
          }
        }
      } else if conv == SYN_CONV {
        kcp.Fields();
        var mine := kcp.cfg.conv;
        var _ := HearAs(conv, p);
        SetConv(mine);
      }
    }

    method FinInput(p: bytes, now: Word)
      requires Valid() && |p| > 4 && HasBit(p[4], KCP_FIN)
      modifies this, Parts()
      ensures Valid() && fresh(Parts() - old(Parts()))
      ensures View() == Sessions.FinInput(settings, old(View()), p, now)
    {
      hide Sessions.Hear, Sessions.FinTransit, HasBit, Kcp.Valid, Kcp.View;
      if !finRecved {
        finRecved, open := true, false;
      }
      FinTransit(now);
      var _ := Hear(Unmark(p));
    }

    method KcpInput(p: bytes, now: Word)
      requires Valid()
      modifies this, Parts()
      ensures Valid() && fresh(Parts() - old(Parts()))
      ensures View() == Sessions.KcpInput(settings, old(View()), p, now)
    {
      hide Sessions.Hear, Sessions.FinInput, Sessions.SynHandshakeInput, HasBit, InputCode, Kcp.Valid, Kcp.View;
      var code := Hear(p);
      if code == 0 {
        flush := true;
      } else if code == -1 {
        SynHandshakeInput(p);
      } else if |p| > 4 && HasBit(p[4], KCP_RESET) {
        hs := Disconnected;
      } else if |p| > 4 && HasBit(p[4], KCP_FIN) {
        FinInput(p, now);
      }
    }

    method FetchFrame()
      requires Valid()
      modifies this, Parts()
      ensures Valid() && fresh(Parts() - old(Parts()))
      ensures View() == if old(txFrame).None? then
                          var (u, x) := Sessions.KcpRecv(old(View()), ForApplication);
                          u.(frame := x)
                        else old(View())
    {
      hide Sessions.KcpRecv, Kcp.Valid, Kcp.View;
      if txFrame.None? {
        txFrame := KcpRecv(ForApplication);
      }
    }

    method Handshakes(room: bool, now: Word)
      requires Valid()
      modifies this, Parts()
      ensures Valid() && fresh(Parts() - old(Parts()))
      ensures View() == if old(hs) == Syn then
                          var (u, ok) := Sessions.SynHandshakeRecv(settings, old(View()), room, now);
                          if ok then u else u.(hs := Disconnected)
                        else if old(hs) == FinPending || old(hs) == FinSent then
                          Sessions.FinTransit(settings, old(View()), now)
                        else old(View())
    {
      hide Sessions.SynHandshakeRecv, Sessions.FinTransit, Kcp.Valid, Kcp.View;
      if hs == Syn {
        var ok := SynHandshakeRecv(room, now);
        if !ok {
          hs := Disconnected;
        }
      } else if hs == FinPending || hs == FinSent {
        FinTransit(now);
      }
    }

    /** The third branch: a batch of packets, and what follows from them. */
    method OnPackets(ps: seq<bytes>, room: bool, now: Word)
      requires Valid()
      modifies this, Parts()
      ensures Valid() && fresh(Parts() - old(Parts()))
      ensures View() == Sessions.OnPackets(settings, old(View()), ps, room, now)
    {
      hide Sessions.KcpInput, Sessions.SynHandshakeRecv, Sessions.FinTransit, Sessions.KcpRecv, Sessions.KcpFlush,
           Kcp.Valid, Kcp.View;
      for i := 0 to |ps|
        invariant Valid() && fresh(Parts() - old(Parts()))
        invariant KcpInputs(settings, View(), ps[i..], now) == KcpInputs(settings, old(View()), ps, now)
      {
        assert ps[i..][1..] == ps[i + 1..];
        KcpInput(ps[i], now);
        assert fresh(Parts() - old(Parts()));
      }
      Handshakes(room, now);
      assert fresh(Parts() - old(Parts()));
      FetchFrame();
      assert fresh(Parts() - old(Parts()));
      KcpFlush(now);
    }

    /* -------------------------------------------------------------- the top of the loop */

    /** `kcp_output`: in `FinSent`, packets with a payload get the FIN mark. */
    method KcpOutput()
      requires Valid()
      modifies this`fed, kcp`output
      ensures Valid()
      ensures View() == Sessions.KcpOutput(old(View()))
    {
      hide Kcp.Valid, Kcp.View, OutgoingAll, Outgoing;
      var packet := kcp.PopOutput();
      while packet.Some?
        invariant Valid() && (packet.None? ==> kcp.output == [])
        invariant fed + OutgoingAll(hs, Popped(packet) + kcp.output) == old(fed) + OutgoingAll(hs, old(kcp.output))
        decreases |Popped(packet) + kcp.output|
      {
        OutgoingOne(hs, packet.value, kcp.output);
        var out := MarkOutgoing(packet.value);
        fed := fed + [out];
        packet := kcp.PopOutput();
      }
    }

    method MarkOutgoing(p: bytes) returns (out: bytes)
      ensures out == Outgoing(hs, p)
    {
      hide PayloadData;
      out := p;
      if hs == FinSent {
        var data := ReadPayloadData(p);
        if |p| > 4 && data != [] {
          out := Mark(p);
        }
      }
    }

    /** Before the branches: send what is queued; leave, give up, update, or wait. */
    method Top(now: Word) returns (next: Next)
      requires Valid()
      modifies this, Parts()
      ensures Valid() && fresh(Parts() - old(Parts()))
      ensures (View(), next) == Sessions.Top(settings, old(View()), now)
    {
      hide Sessions.KcpOutput, Endpoints.Check, TimeDiff, Wrap, Act, Kcp.Valid, Kcp.View;
      KcpOutput();
      kcp.Fields();
      var idle := Max(0, TimeDiff(kcp.clock.current, lastIo));
      if hs == Disconnected || kcp.state == 0xffff_ffff || idle >= Wrap(settings.expire * 1000) {
        return Break;
      }
      var at := kcp.Check(now);
      var ms := Min(Wrap(at - now), 60000);
      if hs != Connected {
        var timeout := TimeDiff(hsEnd, now);
        if timeout <= 0 {
          hs := Disconnected;
          return Again;
        }
        ms := Min(ms, timeout);
      }
      if ms == 0 {
        Update(now);
        return Again;
      }
      next := Wait(ms);
    }

    /** The client's first frame. */
    method SendSyn(id: bytes, now: Word)
      requires Valid()
      modifies this, Parts()
      ensures Valid() && fresh(Parts() - old(Parts()))
      ensures View() ==
              Sessions.Greet(settings, Act(old(View()).(client := true, id := id), DoSetConv(SYN_CONV)), now)
    {
      hide Act, Sessions.Greet, Kcp.Valid, Kcp.View;
      client := true;
      sessionId := id;
      SetConv(SYN_CONV);
      Greet(now);
    }

    method StampIo()
      requires Valid()
      modifies this`lastIo
      ensures Valid() && View() == old(View()).(lastIo := old(node.e.clock.current))
    {
      hide Kcp.Valid, Kcp.View;
      kcp.Fields();
      lastIo := kcp.clock.current;
    }

    method Prepare(now: Word)
      requires Valid()
      modifies this, Parts()
      ensures Valid() && fresh(Parts() - old(Parts()))
      ensures var t := Act(old(View()).(hsEnd := Wrap(now + settings.connectTimeout * 1000)), DoNoDelay(1, 100, 0, 0));
              View() == t.(lastIo := t.node.e.clock.current)
    {
      hide Quiet, Act, Wrap, Kcp.Valid, Kcp.View;
      hsEnd := Wrap(now + settings.connectTimeout * 1000);
      SetNoDelay(true, 100, 0, false);
      assert fresh(Parts() - old(Parts()));
      StampIo();
    }

    /** Before the loop. */
    method Begin(id: bytes, now: Word)
      requires Valid()
      modifies this, Parts()
      ensures Valid() && fresh(Parts() - old(Parts()))
      ensures View() == Sessions.Begin(settings, old(View()), id, now)
    {
      hide Quiet, Act, Sessions.Greet, Wrap, Kcp.Valid, Kcp.View;
      Prepare(now);
      kcp.Fields();
      if kcp.cfg.conv == SYN_CONV {
        SendSyn(id, now);
      }
    }

    /* -------------------------------------------------------------- event by event */

    /** The application's end of the channels: a frame written. */
    method Write(frame: bytes)
      requires Valid() && !over
      modifies this`input, this`ledger
      ensures Valid() && View() == OnWrite(old(View()), frame)
    {
      hide Kcp.Valid, Kcp.View;
      if open && told != [] {
        input := input + [frame];
        ledger := ledger.(written := ledger.written + [frame]);
      }
    }

    method LoopTop(now: Word)
      requires Valid()
      modifies this, Parts()
      ensures Valid() && fresh(Parts() - old(Parts()))
      ensures View() == OnTop(settings, old(View()), now)
    {
      hide Sessions.Top, Kcp.Valid, Kcp.View;
      var next := Top(now);
      over := next == Break;
    }

    method FromApp(now: Word)
      requires Valid()
      modifies this, Parts()
      ensures Valid() && fresh(Parts() - old(Parts()))
      ensures View() == if old(hs) != Disconnected && !old(inputClosed) && !Full(old(View()))
                           && (old(input) != [] || !old(open)) then
                          Sessions.OnInput(settings, old(View()), now) else old(View())
    {
      hide Sessions.OnInput, Full, Kcp.Valid, Kcp.View;
      var full := IsSendQueueFull();
      if hs != Disconnected && !inputClosed && !full && (input != [] || !open) {
        OnInput(now);
      }
    }

    method NetDone(room: bool, now: Word)
      requires Valid()
      modifies this, Parts()
      ensures Valid() && fresh(Parts() - old(Parts()))
      ensures View() == AfterPackets(settings, old(View()), room, now)
    {
      hide Sessions.KcpInput, Sessions.SynHandshakeRecv, Sessions.FinTransit, Sessions.KcpRecv, Sessions.KcpFlush,
           Kcp.Valid, Kcp.View;
      OnPackets([], room, now);
    }

    method Dispatch(ev: SEvent)
      requires Valid() && !over
      modifies this, Parts()
      ensures Valid() && fresh(Parts() - old(Parts()))
      ensures View() == Step(settings, old(View()), ev)
    {
      hide OnTop, Sessions.OnInput, Sessions.OnOutput, Sessions.KcpInput, AfterPackets, OnWrite, Full,
           Kcp.Valid, Kcp.View;
      match ev {
        case Write(frame) => Write(frame);
        case Close => open := false;
        case LoopTop(now) => LoopTop(now);
        case FromApp(now) => FromApp(now);
        case ToApp(room) =>
          if hs != Disconnected && txFrame.Some? {
            OnOutput(room);
          }
        case FromNet(p, now) => KcpInput(p, now);
        case NetDone(room, now) => NetDone(room, now);
      }
    }

    /**
      One event, and what it does for a caller: the handshake only moves forward, what the
      application has been told stays told, and every frame read is still accounted for.
    */
    method Handle(ev: SEvent)
      requires Valid() && ControlInv(View()) && ReadsOk(settings, View())
      modifies this, Parts()
      ensures Valid() && fresh(Parts() - old(Parts()))
      ensures View() == Step(settings, old(View()), ev)
      ensures ControlInv(View()) && ReadsOk(settings, View())
      ensures Rank(old(hs)) <= Rank(hs) && old(told) <= told
      ensures hs == FinSent || hs == FinWaitPeer ==> inputClosed && input == [] && !open
    {
      hide Step, ReadsOk, Kcp.Valid, Kcp.View;
      StepControl(settings, View(), ev);
      StepReads(settings, View(), ev);
      StepOver(settings, View(), ev);
      if !over {
        Dispatch(ev);
      }
    }

    /** From its start through any events: a run of `Sessions`. */
    method Run(id: bytes, now: Word, evs: seq<SEvent>)
      requires Valid() && View() == New(node.e)
      modifies this, Parts()
      ensures Valid() && fresh(Parts() - old(Parts()))
      ensures View() == RunSession(settings, old(node.e), id, now, evs)
      ensures ToldOk(told) && (hs == Connected ==> told != [])
    {
      hide Step, Sessions.Begin, ReadsOk, Kcp.Valid, Kcp.View, Quiet;
      ghost var e := node.e;
      BeginControl(settings, e, id, now);
      BeginReads(settings, e, id, now);
      Begin(id, now);
      for i := 0 to |evs|
        invariant Valid() && fresh(Parts() - old(Parts()))
        invariant View() == RunSession(settings, e, id, now, evs[..i])
        invariant ControlInv(View()) && ReadsOk(settings, View())
      {
        assert evs[..i + 1][..i] == evs[..i];
        Handle(evs[i]);
        assert fresh(Parts() - old(Parts()));
      }
      assert evs[..|evs|] == evs;
    }
  }

  lemma StepOver(c: Settings, s: Session, ev: SEvent)
    ensures s.over ==> Step(c, s, ev) == s
  {
  }

  lemma DrainTurn(c: Settings, s: Session)
    ensures Sessions.DrainInput(c, s) ==
            if Full(s) then (s, false)
            else if s.input == [] then (s, !s.open)
            else Sessions.DrainInput(c, Sessions.ProcessInput(c, s.(input := s.input[1..]), s.input[0]))
  {
    hide Sessions.ProcessInput, Full;
  }

  function Popped(packet: Option<bytes>): seq<bytes> {
    if packet.Some? then [packet.value] else []
  }

  lemma OutgoingOne(hs: Handshake, p: bytes, rest: seq<bytes>)
    ensures OutgoingAll(hs, [p] + rest) == [Outgoing(hs, p)] + OutgoingAll(hs, rest)
  {
    hide Outgoing;
  }

  lemma ConvSet(s: Session, conv: Word)
    ensures Act(s, DoSetConv(conv)).node.e.cfg.conv == conv
  {
  }

  lemma KeyLength(c: Settings, syn: bytes)
    requires Sessions.HasKey(c, syn)
    ensures |c.key| <= |syn|
  {
  }
}
