/** What holds of a session in every state of every run. */
module SessionSafety {
  import opened Serial
  import opened WireFormat
  import opened Endpoints
  import opened Network
  import opened Lifetime
  import opened Marking
  import opened Sessions
  import opened Timers

  /* ---------------------------------------------------------------- the handshake only moves on */

  lemma {:induction false} FinTransitRises(c: Settings, s: Session, now: Word)
    ensures Rank(s.hs) <= Rank(FinTransit(c, s, now).hs)
    decreases 5 - Rank(s.hs)
  {
    hide FinTransit, Stuck, Passed;
    FinTurn(c, s, now);
    if !Stuck(s) {
      FinTransitRises(c, Passed(c, s, now), now);
    }
  }

  /** `fin_transit_state` goes as far as it can: it stops only at a failing guard, so a second call changes nothing. */
  lemma {:induction false} FinTransitSettles(c: Settings, s: Session, now: Word, later: Word)
    ensures Stuck(FinTransit(c, s, now))
    ensures FinTransit(c, FinTransit(c, s, now), later) == FinTransit(c, s, now)
    decreases 5 - Rank(s.hs)
  {
    hide FinTransit, Stuck, Passed;
    FinTurn(c, s, now);
    FinTurn(c, s, later);
    if !Stuck(s) {
      FinTransitSettles(c, Passed(c, s, now), now, later);
    }
  }

  lemma {:induction false} DrainInputKeeps(c: Settings, s: Session)
    ensures var (t, closed) := DrainInput(c, s);
            && t.hs == s.hs && t.told == s.told && t.frame == s.frame && t.finRecved == s.finRecved && t.open == s.open
            && t.inputClosed == s.inputClosed && t.finAt == s.finAt && t.fed == s.fed
            && (closed ==> !t.open && t.input == [])
    decreases |s.input|
  {
    hide ProcessInput;
    if !Full(s) && s.input != [] {
      DrainInputKeeps(c, ProcessInput(c, s.(input := s.input[1..]), s.input[0]));
    }
  }

  /** What a FIN transition leaves alone. */
  predicate FinLeaves(s: Session, t: Session) {
    && t.told == s.told && t.frame == s.frame && t.finRecved == s.finRecved && t.open == s.open
    && t.inputClosed == s.inputClosed && t.input == s.input && t.fed == s.fed && t.id == s.id
    && (Rank(s.hs) >= 3 ==> t.finAt == s.finAt && Rank(t.hs) >= 3)
  }

  lemma FinSendKeeps(c: Settings, s: Session, now: Word)
    requires s.hs == FinPending
    ensures FinLeaves(s, FinSend(c, s, now))
  {
    hide HandshakeSend, Put;
  }

  lemma PassedKeeps(c: Settings, s: Session, now: Word)
    requires !Stuck(s)
    ensures FinLeaves(s, Passed(c, s, now)) && Passed(c, s, now).hs != Syn && Passed(c, s, now).hs != Connected
  {
    hide FinSend, WaitSnd, Unread, Wrap;
    if s.hs == FinPending {
      FinSendKeeps(c, s, now);
    }
  }

  lemma {:induction false} FinTransitKeeps(c: Settings, s: Session, now: Word)
    ensures FinLeaves(s, FinTransit(c, s, now))
    ensures FinTransit(c, s, now).hs != Syn && FinTransit(c, s, now).hs != Connected
    decreases 5 - Rank(s.hs)
  {
    hide FinTransit, Passed, WaitSnd, Unread;
    FinTurn(c, s, now);
    if !Stuck(s) {
      PassedKeeps(c, s, now);
      FinTransitKeeps(c, Passed(c, s, now), now);
    }
  }

  /* ---------------------------------------------------------------- what the application sees */

  /** The connection is announced once, before any frame. */
  predicate ToldOk(told: seq<Output>) {
    && (told != [] ==> told[0].Established?)
    && forall i | 1 <= i < |told| :: told[i].Frame?
  }

  predicate ControlInv(s: Session) {
    && ToldOk(s.told)
    && (s.hs == Syn ==> s.told == [] && s.frame.None? && !s.finRecved && !s.inputClosed)
    && (s.frame.Some? && s.hs != Disconnected ==> s.told != [])
    && (s.hs == Connected || s.hs == FinPending ==> s.told != [])
    && (s.finRecved ==> !s.open)
    && (s.inputClosed ==> !s.open && s.input == [])
    && (s.hs == FinSent || s.hs == FinWaitPeer ==> s.told != [] && s.inputClosed)
  }

  /** One step: forward only, and the announcement discipline is kept. */
  predicate GoesOn(s: Session, t: Session) {
    Rank(s.hs) <= Rank(t.hs) && s.told <= t.told && ControlInv(t)
  }

  /** What a FIN transition needs, and keeps. */
  predicate MayClose(s: Session) {
    && ToldOk(s.told) && (s.told != [] || s.hs == Syn || s.hs == Disconnected)
    && (s.finRecved ==> !s.open) && (s.inputClosed ==> !s.open && s.input == [])
    && (s.hs == FinSent || s.hs == FinWaitPeer ==> s.inputClosed)
  }

  lemma PassedControl(c: Settings, s: Session, now: Word)
    requires MayClose(s) && !Stuck(s)
    ensures MayClose(Passed(c, s, now))
  {
    hide HandshakeSend, Put, WaitSnd, Unread, Wrap, ToldOk;
  }

  lemma {:induction false} FinTransitControl(c: Settings, s: Session, now: Word)
    requires MayClose(s)
    ensures GoesOn(s, FinTransit(c, s, now))
    decreases 5 - Rank(s.hs)
  {
    hide FinTransit, Passed, WaitSnd, Unread, ToldOk;
    FinTurn(c, s, now);
    if !Stuck(s) {
      PassedControl(c, s, now);
      PassedKeeps(c, s, now);
      FinTransitControl(c, Passed(c, s, now), now);
    }
  }

  lemma OnInputControl(c: Settings, s: Session, now: Word)
    requires ControlInv(s) && s.hs != Disconnected && !s.inputClosed
    ensures GoesOn(s, OnInput(c, s, now))
  {
    hide FinTransit, KcpFlush, DrainInput;
    var (t, closed) := DrainInput(c, s);
    DrainInputKeeps(c, s);
    InputShrinks(c, s);
    if closed {
      FinTransitControl(c, t.(inputClosed := true), now);
    }
  }

  lemma {:induction false} InputShrinks(c: Settings, s: Session)
    ensures |DrainInput(c, s).0.input| <= |s.input|
    decreases |s.input|
  {
    hide ProcessInput;
    if !Full(s) && s.input != [] {
      InputShrinks(c, ProcessInput(c, s.(input := s.input[1..]), s.input[0]));
    }
  }

  lemma {:induction false} HandOverControl(s: Session, room: nat)
    requires ControlInv(s) && s.told != [] && s.frame.None?
    ensures GoesOn(s, HandOver(s, room))
    decreases room
  {
    hide KcpRecv;
    var (t, x) := KcpRecv(s, ForApplication);
    if x.Some? && room > 0 {
      HandOverControl(t.(told := t.told + [Frame(x.value)]), room - 1);
    }
  }

  /** In the handshake, a first look at the queue that finds nothing is as good as a second one. */
  lemma NothingTwice(s: Session)
    requires !s.finRecved && KcpRecv(s, ForHandshake).1.None?
    ensures KcpRecv(s, ForHandshake).0 == s && KcpRecv(s, ForApplication) == (s, None)
  {
  }

  lemma SynHandshakeControl(c: Settings, s: Session, room: bool, now: Word)
    requires ControlInv(s) && s.hs == Syn
    ensures var (u, ok) := SynHandshakeRecv(c, s, room, now);
            var t := if ok then u else u.(hs := Disconnected);
            GoesOn(s, t) && t.frame.None?
            && (t.hs == Syn ==> t == KcpRecv(s, ForHandshake).0 && KcpRecv(s, ForHandshake).1.None?)
  {
    hide KcpRecv, Greet, ApplyNoDelay, HasKey;
  }

  lemma AfterPacketsControl(c: Settings, s: Session, room: bool, now: Word)
    requires ControlInv(s)
    ensures GoesOn(s, AfterPackets(c, s, room, now))
  {
    hide FinTransit, KcpFlush, KcpRecv, SynHandshakeRecv;
    if s.hs == Syn {
      SynHandshakeControl(c, s, room, now);
      if KcpRecv(s, ForHandshake).1.None? {
        NothingTwice(s);
      }
    } else if s.hs == FinPending || s.hs == FinSent {
      FinTransitControl(c, s, now);
    }
  }

  lemma FinInputControl(c: Settings, s: Session, p: bytes, now: Word)
    requires ControlInv(s) && |p| > 4 && HasBit(p[4], KCP_FIN)
    ensures GoesOn(s, FinInput(c, s, p, now))
  {
    hide FinTransit, Hear, HasBit, Unmark;
    FinTransitControl(c, if s.finRecved then s else s.(finRecved := true, open := false), now);
  }

  /** Calls on the control block, and the wish to flush, are no part of it. */
  lemma QuietControl(s: Session, t: Session)
    requires ControlInv(s) && Quiet(s, t)
    ensures GoesOn(s, t) && GoesOn(s, t.(flush := true)) && GoesOn(s, t.(hs := Disconnected))
  {
  }

  lemma KcpInputControl(c: Settings, s: Session, p: bytes, now: Word)
    requires ControlInv(s)
    ensures GoesOn(s, KcpInput(c, s, p, now))
  {
    hide FinInput, SynHandshakeInput, Hear, HasBit, InputCode, ControlInv;
    var t := Hear(s, p);
    QuietControl(s, t);
    QuietControl(t, SynHandshakeInput(t, p));
    if |p| > 4 && HasBit(p[4], KCP_FIN) {
      FinInputControl(c, t, p, now);
    }
  }

  lemma StepControl(c: Settings, s: Session, ev: SEvent)
    requires ControlInv(s)
    ensures GoesOn(s, Step(c, s, ev))
  {
    hide OnInput, OnOutput, KcpInput, AfterPackets, Act, Check, TimeDiff, Outgoing, Wrap, Full;
    if s.over {
      return;
    }
    match ev
    case FromApp(now) =>
      if s.hs != Disconnected && !s.inputClosed {
        OnInputControl(c, s, now);
      }
    case ToApp(room) =>
      if s.hs != Disconnected && s.frame.Some? {
        OnOutputControl(s, room);
      }
    case FromNet(p, now) => KcpInputControl(c, s, p, now);
    case NetDone(space, now) => AfterPacketsControl(c, s, space, now);
    case _ =>
  }

  lemma OnOutputControl(s: Session, room: nat)
    requires ControlInv(s) && s.hs != Disconnected && s.frame.Some?
    ensures GoesOn(s, OnOutput(s, room))
  {
    HandOverControl(s.(frame := None, told := s.told + [Frame(s.frame.value)]), room);
  }

  /**
    The session over every run: it moves through the handshakes in order, and the application sees
    the connection announced at most once and before any frame.
  */
  lemma {:induction false} RunControl(c: Settings, e: Endpoint, id: bytes, now: Word, evs: seq<SEvent>, n: nat)
    requires n <= |evs|
    ensures var s, t := RunSession(c, e, id, now, evs[..n]), RunSession(c, e, id, now, evs);
            ControlInv(t) && Rank(s.hs) <= Rank(t.hs) && s.told <= t.told
  {
    hide Step, Begin, ControlInv;
    assert evs[..|evs|] == evs;
    if evs == [] {
      BeginControl(c, e, id, now);
    } else {
      var init := evs[..|evs| - 1];
      RunControl(c, e, id, now, init, if n < |evs| then n else n - 1);
      assert n < |evs| ==> init[..n] == evs[..n];
      StepControl(c, RunSession(c, e, id, now, init), evs[|evs| - 1]);
    }
  }

  lemma BeginControl(c: Settings, e: Endpoint, id: bytes, now: Word)
    ensures ControlInv(Begin(c, New(e), id, now))
  {
    hide Act, Greet;
  }

  /* ---------------------------------------------------------------- sleeping */

  /**
    When the loop goes to sleep, it sleeps at least a millisecond and at most a minute, and at no
    moment before it wakes would an update have done anything, or a handshake been timed out.
  */
  lemma SleepsThroughNothing(c: Settings, s: Session, now: Word, d: nat)
    requires Top(c, s, now).1.Wait? && d < Top(c, s, now).1.ms
    ensures 1 <= Top(c, s, now).1.ms <= 60000 && Top(c, s, now).0 == KcpOutput(s)
    ensures var e := s.node.e;
            Update(Bits32, e, Wrap(now + d)) == Flushed(e.(clock := e.clock.(current := Wrap(now + d))), [])
    ensures s.hs != Connected ==> TimeDiff(s.hsEnd, Wrap(now + d)) > 0
  {
    hide TimeDiff, Update, Check, Wrap, OutgoingAll;
    CheckSound(Bits32, s.node.e, now, d);
    if s.hs != Connected {
      Later(s.hsEnd, now, d);
    }
  }

  /* ---------------------------------------------------------------- the end */

  lemma AfterPacketsTells(c: Settings, s: Session, room: bool, now: Word)
    requires s.hs != Syn
    ensures AfterPackets(c, s, room, now).told == s.told
    ensures s.hs == Disconnected ==> AfterPackets(c, s, room, now).hs == Disconnected
  {
    hide FinTransit, KcpFlush, KcpRecv;
    FinTransitKeeps(c, s, now);
  }

  lemma KcpInputTells(c: Settings, s: Session, p: bytes, now: Word)
    ensures KcpInput(c, s, p, now).told == s.told
  {
    hide FinTransit, SynHandshakeInput, Hear, HasBit, InputCode, Unmark;
    var t := Hear(s, p);
    FinTransitKeeps(c, if t.finRecved then t else t.(finRecved := true, open := false), now);
  }

  /** A disconnected session stays so, and tells the application nothing more. */
  lemma DisconnectedIsFinal(c: Settings, s: Session, ev: SEvent)
    requires ControlInv(s) && s.hs == Disconnected
    ensures Step(c, s, ev).hs == Disconnected && Step(c, s, ev).told == s.told
  {
    hide KcpInput, AfterPackets, Top, ControlInv;
    StepControl(c, s, ev);
    match ev
    case FromNet(p, now) => KcpInputTells(c, s, p, now);
    case NetDone(space, now) => AfterPacketsTells(c, s, space, now);
    case LoopTop(now) => TopTells(c, s, now);
    case _ =>
  }

  lemma TopTells(c: Settings, s: Session, now: Word)
    ensures Top(c, s, now).0.told == s.told
  {
    hide Act, Check, TimeDiff, Wrap, OutgoingAll;
  }

  /**
    What the close does not promise: a frame that was read but still waits for room in the output
    channel is lost when the peer's FIN ends the session.
  */
  lemma WaitingFrameIsLost(c: Settings, s: Session, p: bytes, now: Word, ev: SEvent)
    requires ControlInv(s) && !s.over && s.hs == FinWaitPeer && Unread(s) == 0 && s.frame.Some?
    requires InputCode(s.node.e.cfg.conv, p) == 0
    ensures var t := Step(c, s, FromNet(Mark(p), now));
            t.hs == Disconnected && t.frame == s.frame && t.told == s.told && Step(c, t, ev).told == s.told
  {
    hide Act, HandshakeSend, ControlInv;
    AcceptedIsCommand(s.node.e.cfg.conv, p);
    FinMarkTransparent(s.node.e, p);
    var m := Mark(p);
    var t := Step(c, s, FromNet(m, now));
    FinEnds(c, s, m, now);
    KcpInputControl(c, s, m, now);
    DisconnectedIsFinal(c, t, ev);
  }

  lemma FinEnds(c: Settings, s: Session, m: bytes, now: Word)
    requires s.hs == FinWaitPeer && Unread(s) == 0 && |m| > 4 && HasBit(m[4], KCP_FIN) && !HasBit(m[4], KCP_RESET)
    requires InputCode(s.node.e.cfg.conv, m) == -3 && Endpoints.Input(s.node.e, m) == s.node.e
    ensures var t := KcpInput(c, s, m, now); t.hs == Disconnected && t.frame == s.frame && t.told == s.told
  {
    hide HasBit, Unmark, HandshakeSend, InputCode, Endpoints.Input;
    var t := Hear(s, m);
    assert t.node == s.node;
    FinTurn(c, if t.finRecved then t else t.(finRecved := true, open := false), now);
  }
}
