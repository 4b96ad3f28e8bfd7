/**
  The guarantees together, on executions given as the sequence of their states: of two control
  blocks, and of two sessions.
*/
module Executions {
  import opened Serial
  import opened WireFormat
  import opened Endpoints
  import opened Invariants
  import opened Wraparound
  import opened Packetization
  import opened Network
  import opened Safety
  import opened Steps
  import opened EndToEnd
  import opened Sessions
  import opened SessionSafety
  import opened SessionTrace
  import opened Shutdown
  import opened Conversation

  /* ---------------------------------------------------------------- two endpoints */

  ghost predicate Execution32(l: Endpoint, r: Endpoint, evs: seq<Event>, states: seq<System<bytes>>) {
    && |states| == |evs| + 1 && states[0] == Start(l, r)
    && forall i | 0 <= i < |evs| :: states[i + 1] == SysStep32(states[i], evs[i])
  }

  /** The same events on unbounded numbers; no packet delivered on the way outlives its numbers. */
  ghost predicate ExecutionU(l: Endpoint, r: Endpoint, evs: seq<Event>, virtual: seq<System<seq<Wire>>>) {
    && |virtual| == |evs| + 1 && virtual[0] == Start(l, r)
    && forall i | 0 <= i < |evs| :: virtual[i + 1] == SysStepU(virtual[i], evs[i]) && EventInTime(virtual[i], evs[i])
  }

  lemma {:induction false} Execution32IsRun(l: Endpoint, r: Endpoint, evs: seq<Event>,
                                            states: seq<System<bytes>>, n: nat)
    requires Execution32(l, r, evs, states) && n <= |evs|
    ensures states[n] == Run32(l, r, evs[..n])
  {
    hide SysStep32;
    if n > 0 {
      Execution32IsRun(l, r, evs, states, n - 1);
      assert evs[..n][..n - 1] == evs[..n - 1] && evs[n - 1] == evs[..n][n - 1];
    }
  }

  lemma {:induction false} ExecutionUIsRun(l: Endpoint, r: Endpoint, evs: seq<Event>,
                                           virtual: seq<System<seq<Wire>>>, n: nat)
    requires ExecutionU(l, r, evs, virtual) && n <= |evs|
    ensures virtual[n] == RunU(l, r, evs[..n]) && RunInTime(l, r, evs[..n])
  {
    hide SysStepU, EventInTime;
    if n > 0 {
      ExecutionUIsRun(l, r, evs, virtual, n - 1);
      assert evs[..n][..n - 1] == evs[..n - 1] && evs[n - 1] == evs[..n][n - 1];
    }
  }

  lemma Lengths(l: Endpoint, r: Endpoint, evs: seq<Event>,
                virtual: seq<System<seq<Wire>>>, states: seq<System<bytes>>)
    requires ExecutionU(l, r, evs, virtual) && Execution32(l, r, evs, states)
    ensures |virtual| == |states| == |evs| + 1
  {
  }

  /** Nothing x numbered is lost: it is in x's `snd_buf`, or y has passed it or holds it with its data. */
  ghost predicate Kept(x: Node<bytes>, y: Node<bytes>, yU: Rcv) {
    forall i: nat | i < |x.log| :: Buffered(x.e, Wrap(i)) || Holds(yU, y.e.rcv, x.log, i)
  }

  /** x waits for nothing and y has nothing to read. */
  predicate AtRest(x: Node<bytes>, y: Node<bytes>) {
    Idle(x.e) && PeekSize(y.e.rcv.queue) < 0
  }

  /** What one side may rely on about what it sent. */
  ghost predicate Served(x: Node<bytes>, y: Node<bytes>, yU: Rcv) {
    InOrder(x, y) && Kept(x, y, yU) && (AtRest(x, y) ==> GotEverything(x, y))
  }

  lemma ServedNow(l: Endpoint, r: Endpoint, evs: seq<Event>)
    requires Unused(l) && Unused(r) && RunInTime(l, r, evs)
    ensures var s, u := Run32(l, r, evs), RunU(l, r, evs);
            Served(s.left, s.right, u.right.e.rcv) && Served(s.right, s.left, u.left.e.rcv)
  {
    hide Unused, RunInTime, Run32, RunU, InOrder, Buffered, Holds, Wrap, GotEverything, Idle, PeekSize;
    ExactlyOnceInOrder(l, r, evs);
    AckSoundness(l, r, evs);
    QuietMeansComplete(l, r, evs);
  }

  /**
    At every point of every execution whose packets keep to their time, the 32-bit system is the
    unbounded one modulo 2^32, and in both directions: what was received is a front of what was sent;
    nothing numbered is lost; and a direction at rest has delivered everything.
  */
  lemma Reliable(l: Endpoint, r: Endpoint, evs: seq<Event>,
                 virtual: seq<System<seq<Wire>>>, states: seq<System<bytes>>)
    requires Unused(l) && Unused(r) && ExecutionU(l, r, evs, virtual) && Execution32(l, r, evs, states)
    ensures forall n | 0 <= n <= |evs| ::
              && states[n] == WrapSystem(virtual[n])
              && Served(states[n].left, states[n].right, virtual[n].right.e.rcv)
              && Served(states[n].right, states[n].left, virtual[n].left.e.rcv)
  {
    hide Execution32, ExecutionU, Unused, RunInTime, Run32, RunU, WrapSystem, Served;
    Lengths(l, r, evs, virtual, states);
    forall n | 0 <= n <= |evs|
      ensures states[n] == WrapSystem(virtual[n])
      ensures Served(states[n].left, states[n].right, virtual[n].right.e.rcv)
      ensures Served(states[n].right, states[n].left, virtual[n].left.e.rcv)
    {
      Execution32IsRun(l, r, evs, states, n);
      ExecutionUIsRun(l, r, evs, virtual, n);
      Simulates(l, r, evs[..n]);
      ServedNow(l, r, evs[..n]);
    }
  }

  /* ---------------------------------------------------------------- two sessions */

  ghost predicate DuoExecution(l: Party, r: Party, evs: seq<DuoEvent>, states: seq<Duo>) {
    && |states| == |evs| + 1 && states[0] == Duo(Started(l), Started(r))
    && forall i | 0 <= i < |evs| :: states[i + 1] == DuoStep(l, r, states[i], evs[i])
  }

  /** No packet delivered on the way outlives its numbers. */
  ghost predicate DuoInTime(l: Party, r: Party, evs: seq<DuoEvent>) {
    forall n | 0 <= n <= |evs| :: RunInTime(l.e, r.e, Schedule(l, r, evs[..n]))
  }

  lemma {:induction false} ScheduleGrows(l: Party, r: Party, evs: seq<DuoEvent>, n: nat)
    requires n <= |evs|
    ensures Schedule(l, r, evs[..n]) <= Schedule(l, r, evs)
    decreases |evs|
  {
    hide RunDuo, Move, Started, EventsOf, NewOps;
    if n == |evs| {
      assert evs[..n] == evs;
    } else {
      ScheduleGrows(l, r, evs[..|evs| - 1], n);
      assert evs[..|evs| - 1][..n] == evs[..n];
    }
  }

  /** It is enough that the whole schedule is in time. */
  lemma InTimeThroughout(l: Party, r: Party, evs: seq<DuoEvent>)
    ensures DuoInTime(l, r, evs) <==> RunInTime(l.e, r.e, Schedule(l, r, evs))
  {
    hide RunInTime, Schedule;
    assert evs[..|evs|] == evs;
    if RunInTime(l.e, r.e, Schedule(l, r, evs)) {
      forall n | 0 <= n <= |evs|
        ensures RunInTime(l.e, r.e, Schedule(l, r, evs[..n]))
      {
        var all, some := Schedule(l, r, evs), Schedule(l, r, evs[..n]);
        ScheduleGrows(l, r, evs, n);
        assert all[..|some|] == some;
        InTimePrefix(l.e, r.e, all, |some|);
      }
    }
  }

  lemma {:induction false} DuoIsRun(l: Party, r: Party, evs: seq<DuoEvent>, states: seq<Duo>, n: nat)
    requires DuoExecution(l, r, evs, states) && n <= |evs|
    ensures states[n] == RunDuo(l, r, evs[..n])
  {
    hide DuoStep, Started;
    if n > 0 {
      DuoIsRun(l, r, evs, states, n - 1);
      assert evs[..n][..n - 1] == evs[..n - 1] && evs[n - 1] == evs[..n][n - 1];
    }
  }

  /** With its FIN out, a session's input is closed, and its peer holds every frame from before. */
  ghost predicate Graceful(c: Settings, s: Session, peer: Session) {
    && (FinOut(s.hs) ==> s.finAt.Some?)
    && (s.finAt.Some? ==>
          && s.inputClosed && !s.open && s.input == []
          && exists yU, n, m :: Counts(yU, s, peer) && HeldByPeer(s.node, c.key + s.id, peer.node, yU, n, m))
  }

  /** The unbounded receiver state behind the peer's 32-bit one: less than a window and a flight behind the sender. */
  ghost predicate Counts(yU: Rcv, s: Session, peer: Session) {
    && WrapRcv(yU) == peer.node.e.rcv
    && yU.nxt <= |s.node.log| <= yU.nxt + peer.node.e.cfg.rcvWnd + 65535
  }

  lemma Behind(u: System<seq<Wire>>, left: bool)
    requires SystemInv(u)
    ensures var x, y := Side(u, left), Side(u, !left);
            y.e.rcv.nxt <= |x.log| <= y.e.rcv.nxt + y.e.cfg.rcvWnd + 65535
  {
    hide SndInv, RcvInv, AllHonest, Accepted, Delivered, NothingLost, AcksOk, Matches;
    var x, y := Side(u, left), Side(u, !left);
    SenderNotFarAhead(x.e.snd, FlightLimit(x.e.cfg), y.e.rcv, y.e.cfg.rcvWnd);
  }

  lemma GracefulNow(l: Party, r: Party, evs: seq<DuoEvent>, left: bool)
    requires Unused(l.e) && Unused(r.e) && RunInTime(l.e, r.e, Schedule(l, r, evs))
    ensures var d := RunDuo(l, r, evs); Graceful((if left then l else r).c, Mine(d, left), Mine(d, !left))
  {
    hide RunInTime, Schedule, RunDuo, Unused, HeldByPeer, Run32, RunU, SystemInv;
    GracefulClose(l, r, evs, left);
    Projects(l, r, evs);
    Simulates(l.e, r.e, Schedule(l, r, evs));
    var y := Side(RunU(l.e, r.e, Schedule(l, r, evs)), !left);
    RunSafe(l.e, r.e, Schedule(l, r, evs));
    Behind(RunU(l.e, r.e, Schedule(l, r, evs)), left);
    assert WrapRcv(y.e.rcv) == Mine(RunDuo(l, r, evs), !left).node.e.rcv;
  }

  lemma DuoLength(l: Party, r: Party, evs: seq<DuoEvent>, states: seq<Duo>)
    requires DuoExecution(l, r, evs, states)
    ensures |states| == |evs| + 1
  {
  }

  /** With the peer's FIN seen and nothing unread, everything the peer was given before it has been handed over. */
  ghost predicate Complete(peerSettings: Settings, s: Session, peer: Session) {
    s.finRecved && Unread(s) == 0 ==> GotAll(peer.node, peerSettings.key + peer.id, s.node)
  }

  /** What a session's application may rely on about what it wrote. */
  ghost predicate Honoured(l: Party, s: Session, peer: Session) {
    && Graceful(l.c, s, peer) && Complete(l.c, peer, s) && Faithful(s) && Conveyed(s, peer) && Arrived(s, peer)
  }

  lemma HonouredNow(l: Party, r: Party, evs: seq<DuoEvent>, left: bool)
    requires Unused(l.e) && Unused(r.e) && RunInTime(l.e, r.e, Schedule(l, r, evs)) && Matched(l, r)
    ensures var d := RunDuo(l, r, evs); Honoured(if left then l else r, Mine(d, left), Mine(d, !left))
  {
    hide RunInTime, Schedule, RunDuo, Unused, Matched, Graceful, GotAll, Unread, Faithful, Conveyed, Arrived;
    GracefulNow(l, r, evs, left);
    FinMeansComplete(l, r, evs, !left);
    ToldIsWritten(l, r, evs, !left);
    EverythingArrives(l, r, evs, !left);
  }

  /**
    At every point of every execution of two sessions whose packets keep to their time, in both
    directions: what one application is told is what the other one wrote; a session whose FIN is out
    has closed its input and its peer holds everything from before; and a session that has seen the
    FIN and has nothing unread was handed everything from before it, all that the other one wrote.
  */
  lemma Dependable(l: Party, r: Party, evs: seq<DuoEvent>, states: seq<Duo>)
    requires Unused(l.e) && Unused(r.e) && Matched(l, r) && DuoExecution(l, r, evs, states) && DuoInTime(l, r, evs)
    ensures forall n | 0 <= n <= |evs| ::
              Honoured(l, states[n].left, states[n].right) && Honoured(r, states[n].right, states[n].left)
  {
    hide DuoExecution, Unused, RunInTime, RunDuo, Schedule, Honoured, Matched;
    DuoLength(l, r, evs, states);
    forall n | 0 <= n <= |evs|
      ensures Honoured(l, states[n].left, states[n].right) && Honoured(r, states[n].right, states[n].left)
    {
      DuoIsRun(l, r, evs, states, n);
      HonouredNow(l, r, evs[..n], true);
      HonouredNow(l, r, evs[..n], false);
    }
  }
}
