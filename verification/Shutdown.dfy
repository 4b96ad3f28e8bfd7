/**
  Two sessions over the network. Their run projects to a schedule of the two control blocks, so
  the end-to-end results apply to them; together with the FIN guard this makes the close graceful.
*/
module Shutdown {
  import opened Serial
  import opened WireFormat
  import opened Endpoints
  import opened Invariants
  import opened Wraparound
  import opened Packetization
  import opened Messages
  import opened Network
  import opened Lifetime
  import opened Safety
  import opened EndToEnd
  import opened Closing
  import opened Marking
  import opened Sessions
  import opened SessionSafety
  import opened SessionTrace

  /** The parameters of a session: its settings, its configured control block, its ID and its start time. */
  datatype Party = Party(c: Settings, e: Endpoint, id: bytes, now: Word)

  datatype Duo = Duo(left: Session, right: Session)

  /** Besides its own doings: a packet the peer fed to the network, or a RESET out of nowhere. */
  datatype Happening = Own(ev: SEvent) | FromPeer(j: nat, now: Word) | Reset(p: bytes, now: Word)

  datatype DuoEvent = DuoEvent(left: bool, what: Happening)

  predicate Possible(what: Happening, peer: Session) {
    match what
    case Own(ev) => !ev.FromNet?
    case FromPeer(j, now) => j < |peer.fed|
    case Reset(p, now) => |p| > 4 && HasBit(p[4], KCP_RESET)
  }

  function Meaning(what: Happening, peer: Session): SEvent
    requires Possible(what, peer)
  {
    match what
    case Own(ev) => ev
    case FromPeer(j, now) => FromNet(peer.fed[j], now)
    case Reset(p, now) => FromNet(p, now)
  }

  function Move(c: Settings, s: Session, peer: Session, what: Happening): Session {
    if Possible(what, peer) then Step(c, s, Meaning(what, peer)) else s
  }

  function Started(p: Party): Session {
    Begin(p.c, New(p.e), p.id, p.now)
  }

  function DuoStep(l: Party, r: Party, d: Duo, ev: DuoEvent): Duo {
    if ev.left then d.(left := Move(l.c, d.left, d.right, ev.what))
    else d.(right := Move(r.c, d.right, d.left, ev.what))
  }

  function RunDuo(l: Party, r: Party, evs: seq<DuoEvent>): Duo {
    if evs == [] then Duo(Started(l), Started(r))
    else DuoStep(l, r, RunDuo(l, r, evs[..|evs| - 1]), evs[|evs| - 1])
  }

  /* ---------------------------------------------------------------- projection */

  function EventOf(left: bool, op: Op, k: nat, out: seq<bytes>): seq<Event> {
    match op
    case Do(act) => if act.Deliver? then [] else [Event(left, act)]
    case Arrive(p) => if k < |out| && out[k] == p then [Event(left, Deliver(k))] else []
  }

  /** The calls of one session as events of the two control blocks; inputs are of the peer's packet k. */
  function EventsOf(left: bool, ops: seq<Op>, k: nat, out: seq<bytes>): seq<Event> {
    if ops == [] then [] else EventsOf(left, ops[..|ops| - 1], k, out) + EventOf(left, ops[|ops| - 1], k, out)
  }

  function Hint(what: Happening): nat {
    if what.FromPeer? then what.j else 0
  }

  function NewOps(s: Session, t: Session): seq<Op> {
    if |s.ops| <= |t.ops| then t.ops[|s.ops|..] else []
  }

  /** The schedule of control-block events a run of the sessions amounts to. */
  function Schedule(l: Party, r: Party, evs: seq<DuoEvent>): seq<Event> {
    if evs == [] then
      EventsOf(true, Started(l).ops, 0, []) + EventsOf(false, Started(r).ops, 0, [])
    else
      var d, ev := RunDuo(l, r, evs[..|evs| - 1]), evs[|evs| - 1];
      var me, peer := if ev.left then d.left else d.right, if ev.left then d.right else d.left;
      Schedule(l, r, evs[..|evs| - 1])
      + EventsOf(ev.left, NewOps(me, Move(if ev.left then l.c else r.c, me, peer, ev.what)), Hint(ev.what),
                 peer.node.out)
  }

  /** Each input is of the peer's packet k, or of one without effect. */
  predicate Arrivals(ops: seq<Op>, k: nat, out: seq<bytes>) {
    forall i | 0 <= i < |ops| && ops[i].Arrive? :: (k < |out| && out[k] == ops[i].packet) || Foreign(ops[i].packet)
  }

  function Side<P>(s: System<P>, left: bool): Node<P> {
    if left then s.left else s.right
  }

  function Moved(s: System<bytes>, left: bool, n: Node<bytes>): System<bytes> {
    if left then s.(left := n) else s.(right := n)
  }

  lemma OneEvent(s: System<bytes>, left: bool, op: Op, k: nat)
    requires var out := Side(s, !left).out; op.Arrive? ==> (k < |out| && out[k] == op.packet) || Foreign(op.packet)
    ensures var evs := EventOf(left, op, k, Side(s, !left).out);
            && |evs| <= 1
            && Moved(s, left, Redo(Side(s, left), op)) == if evs == [] then s else SysStep32(s, evs[0])
  {
    hide Input, Local, Foreign;
    if op.Arrive? && Foreign(op.packet) {
      ForeignIsIgnored(Side(s, left).e, op.packet);
    }
  }

  lemma Run32Snoc(l: Endpoint, r: Endpoint, evs: seq<Event>, more: seq<Event>)
    requires |more| <= 1
    ensures Run32(l, r, evs + more) == if more == [] then Run32(l, r, evs) else SysStep32(Run32(l, r, evs), more[0])
  {
    hide SysStep32;
    if more == [] {
      assert evs + more == evs;
    } else {
      assert (evs + more)[..|evs + more| - 1] == evs;
    }
  }

  /** Replaying a session's calls is running their events. */
  lemma {:induction false} Project(l: Endpoint, r: Endpoint, evs: seq<Event>, left: bool, ops: seq<Op>, k: nat)
    requires var s := Run32(l, r, evs); Arrivals(ops, k, Side(s, !left).out)
    ensures var s := Run32(l, r, evs);
            Run32(l, r, evs + EventsOf(left, ops, k, Side(s, !left).out)) == Moved(s, left, Replay(Side(s, left), ops))
  {
    hide SysStep32, Redo, Foreign, EventOf;
    var s := Run32(l, r, evs);
    var out := Side(s, !left).out;
    if ops == [] {
      assert evs + [] == evs;
    } else {
      var init, op := ops[..|ops| - 1], ops[|ops| - 1];
      assert ops[|ops| - 1].Arrive? ==> (k < |out| && out[k] == op.packet) || Foreign(op.packet);
      Project(l, r, evs, left, init, k);
      var before := evs + EventsOf(left, init, k, out);
      OneEvent(Run32(l, r, before), left, op, k);
      Run32Snoc(l, r, before, EventOf(left, op, k, out));
      assert before + EventOf(left, op, k, out) == evs + EventsOf(left, ops, k, out);
    }
  }

  lemma {:induction false} InTimePrefix(l: Endpoint, r: Endpoint, evs: seq<Event>, n: nat)
    requires RunInTime(l, r, evs) && n <= |evs|
    ensures RunInTime(l, r, evs[..n])
  {
    hide EventInTime;
    assert evs[..|evs|] == evs;
    if n < |evs| {
      InTimePrefix(l, r, evs[..|evs| - 1], n);
      assert evs[..|evs| - 1][..n] == evs[..n];
    }
  }

  /** Every packet KCP sends starts with one of its commands. */
  lemma OutIsCommand(l: Endpoint, r: Endpoint, evs: seq<Event>, left: bool, j: nat)
    requires Unused(l) && Unused(r) && RunInTime(l, r, evs) && j < |Side(Run32(l, r, evs), left).out|
    ensures var p := Side(Run32(l, r, evs), left).out[j]; |p| > 4 ==> IsCommand(p[4])
  {
    hide EndpointInv, Direction, Held;
    RunSafe(l, r, evs);
    Simulates(l, r, evs);
    var x := Side(RunU(l, r, evs), left);
    var ws := WrapPackets(x.out)[j];
    assert Side(Run32(l, r, evs), left).out[j] == EncodePacket(ws);
    if ws != [] {
      assert ws[0] == WrapWire(x.out[j][0]) && Honest(x.log, x.e.rcv, x.out[j][0]);
      FirstCommand(ws);
    }
  }

  lemma FirstCommand(ws: seq<Wire>)
    requires ws != [] && WellFormed(ws[0])
    ensures |EncodePacket(ws)| > 4 && EncodePacket(ws)[4] == ws[0].cmd
  {
    hide EncodeHead, Word32;
    var tail := ws[0].data + EncodePacket(ws[1..]);
    assert EncodePacket(ws) == EncodeHead(ws[0]) + tail;
    HeadRoundTrip(ws[0], tail);
    assert DecodeHead(EncodeHead(ws[0]) + tail).(data := ws[0].data).cmd == ws[0].cmd;
  }

  /** A packet the peer fed to the network, marked or not, comes to the control block as that packet. */
  lemma HeardFromPeer(p: bytes, q: bytes)
    requires |q| > 4 ==> IsCommand(q[4])
    requires p == q || (|q| > 4 && p == Mark(q))
    ensures forall x | x in Heard(p) :: x == q || Foreign(x)
  {
    if |q| > 4 {
      CommandBits(q[4]);
      if p != q {
        assert Unmark(p) == q;
      }
    }
  }

  lemma HeardReset(p: bytes)
    requires |p| > 4 && HasBit(p[4], KCP_RESET)
    ensures forall x | x in Heard(p) :: Foreign(x)
  {
    ResetIsForeign(p);
  }

  /** The calls of one move, and what they do to the two control blocks. */
  lemma MoveCalls(l: Party, r: Party, p: Party, s: Session, peer: Session, what: Happening, left: bool, evs: seq<Event>)
    requires Unused(l.e) && Unused(r.e) && RunInTime(l.e, r.e, evs)
    requires TraceInv(p.c, Node(p.e, [], [], [], []), s) && ControlInv(s) && FedOk(peer)
    requires Side(Run32(l.e, r.e, evs), !left) == peer.node
    ensures var t := Move(p.c, s, peer, what);
            && s.ops <= t.ops && t.node == Replay(s.node, NewOps(s, t))
            && Arrivals(NewOps(s, t), Hint(what), peer.node.out)
  {
    hide Step, TraceInv, ControlInv, Replay, HasBit, Heard, Run32, PayloadData, Mark, RunInTime, Unused, Foreign;
    var t := Move(p.c, s, peer, what);
    if Possible(what, peer) {
      var ev := Meaning(what, peer);
      StepTrace(p.c, Node(p.e, [], [], [], []), s, ev);
      forall x | x in HeardBy(ev)
        ensures (Hint(what) < |peer.node.out| && peer.node.out[Hint(what)] == x) || Foreign(x)
      {
        match what
        case FromPeer(j, now) =>
          OutIsCommand(l.e, r.e, evs, !left, j);
          HeardFromPeer(peer.fed[j], peer.node.out[j]);
        case Reset(q, now) => HeardReset(q);
        case Own(_) =>
      }
      var more := t.ops[|s.ops|..];
      forall i | 0 <= i < |more| && more[i].Arrive?
        ensures (Hint(what) < |peer.node.out| && peer.node.out[Hint(what)] == more[i].packet) || Foreign(more[i].packet)
      {
        assert OpOk(t.ops[|s.ops| + i], HeardBy(ev), false);
      }
    } else {
      ReplayNothing(s.node);
      assert NewOps(s, s) == [];
    }
  }

  ghost predicate DuoInv(l: Party, r: Party, d: Duo) {
    && TraceInv(l.c, Node(l.e, [], [], [], []), d.left) && ControlInv(d.left)
    && TraceInv(r.c, Node(r.e, [], [], [], []), d.right) && ControlInv(d.right)
  }

  lemma {:induction false} DuoKeeps(l: Party, r: Party, evs: seq<DuoEvent>)
    ensures DuoInv(l, r, RunDuo(l, r, evs))
  {
    hide Step, Begin, TraceInv, ControlInv;
    if evs == [] {
      BeginTrace(l.c, l.e, l.id, l.now);
      BeginTrace(r.c, r.e, r.id, r.now);
      BeginControl(l.c, l.e, l.id, l.now);
      BeginControl(r.c, r.e, r.id, r.now);
    } else {
      DuoKeeps(l, r, evs[..|evs| - 1]);
      var d, ev := RunDuo(l, r, evs[..|evs| - 1]), evs[|evs| - 1];
      var p := if ev.left then l else r;
      var s, peer := if ev.left then d.left else d.right, if ev.left then d.right else d.left;
      if Possible(ev.what, peer) {
        StepTrace(p.c, Node(p.e, [], [], [], []), s, Meaning(ev.what, peer));
        StepControl(p.c, s, Meaning(ev.what, peer));
      }
    }
  }

  lemma CallsArrivals(s: Session, t: Session, k: nat, out: seq<bytes>)
    requires s.ops == [] && Calls(s, t, [])
    ensures (forall i | 0 <= i < |t.ops| :: t.ops[i].Do?) && Arrivals(t.ops, k, out) && t.node == Replay(s.node, t.ops)
  {
    hide Replay, Foreign;
    assert t.ops[0..] == t.ops;
    forall i | 0 <= i < |t.ops|
      ensures t.ops[i].Do?
    {
      assert OpOk(t.ops[i], [], false);
    }
  }

  /** The run of the two sessions is, on their control blocks, the run of its schedule. */
  lemma {:induction false} Projects(l: Party, r: Party, evs: seq<DuoEvent>)
    requires Unused(l.e) && Unused(r.e) && RunInTime(l.e, r.e, Schedule(l, r, evs))
    ensures var d := RunDuo(l, r, evs);
            Run32(l.e, r.e, Schedule(l, r, evs)) == System(d.left.node, d.right.node)
  {
    hide Step, Begin, TraceInv, ControlInv, Replay, RunInTime, Run32, Move, EventsOf, Arrivals, Calls, Unused;
    if evs == [] {
      StartProjects(l, r);
    } else {
      var init := evs[..|evs| - 1];
      var before := Schedule(l, r, init);
      var d, ev := RunDuo(l, r, init), evs[|evs| - 1];
      assert Schedule(l, r, evs)[..|before|] == before;
      InTimePrefix(l.e, r.e, Schedule(l, r, evs), |before|);
      Projects(l, r, init);
      DuoKeeps(l, r, init);
      var p := if ev.left then l else r;
      var s, peer := if ev.left then d.left else d.right, if ev.left then d.right else d.left;
      assert FedOk(peer) by {
        TraceFed(l, r, d);
      }
      MoveCalls(l, r, p, s, peer, ev.what, ev.left, before);
      Project(l.e, r.e, before, ev.left, NewOps(s, Move(p.c, s, peer, ev.what)), Hint(ev.what));
    }
  }

  lemma TraceFed(l: Party, r: Party, d: Duo)
    requires DuoInv(l, r, d)
    ensures FedOk(d.left) && FedOk(d.right)
  {
    hide Replay;
  }

  lemma StartProjects(l: Party, r: Party)
    ensures Run32(l.e, r.e, Schedule(l, r, [])) == System(Started(l).node, Started(r).node)
  {
    hide Begin, TraceInv, Replay, EventsOf, Arrivals, Calls, SysStep32;
    BeginTrace(l.c, l.e, l.id, l.now);
    BeginTrace(r.c, r.e, r.id, r.now);
    CallsArrivals(New(l.e), Started(l), 0, []);
    CallsArrivals(New(r.e), Started(r), 0, Started(l).node.out);
    var a := EventsOf(true, Started(l).ops, 0, []);
    Project(l.e, r.e, [], true, Started(l).ops, 0);
    assert [] + a == a;
    NoHint(false, Started(r).ops, Started(l).node.out);
    Project(l.e, r.e, a, false, Started(r).ops, 0);
  }

  lemma {:induction false} NoHint(left: bool, ops: seq<Op>, out: seq<bytes>)
    requires forall i | 0 <= i < |ops| :: ops[i].Do?
    ensures EventsOf(left, ops, 0, out) == EventsOf(left, ops, 0, [])
  {
    if ops != [] {
      NoHint(left, ops[..|ops| - 1], out);
    }
  }

  /* ---------------------------------------------------------------- graceful close */

  lemma {:induction false} EventsPrefix(left: bool, ops: seq<Op>, m: nat, k: nat, out: seq<bytes>)
    requires m <= |ops|
    ensures EventsOf(left, ops[..m], k, out) <= EventsOf(left, ops, k, out)
  {
    hide EventOf;
    assert ops[..|ops|] == ops;
    if m < |ops| {
      EventsPrefix(left, ops[..|ops| - 1], m, k, out);
      assert ops[..|ops| - 1][..m] == ops[..m];
    }
  }

  /** A prefix of a session's calls is a prefix of its events. */
  lemma CutEvents(l: Endpoint, r: Endpoint, before: seq<Event>, left: bool, ops: seq<Op>, m: nat, k: nat,
                  out: seq<bytes>)
    returns (n: nat)
    requires m <= |ops| && out == Side(Run32(l, r, before), !left).out && Arrivals(ops, k, out)
    ensures var all := before + EventsOf(left, ops, k, out);
            n <= |all| && Side(Run32(l, r, all[..n]), left) == Replay(Side(Run32(l, r, before), left), ops[..m])
  {
    hide Replay, Run32, EventsOf, Foreign;
    EventsPrefix(left, ops, m, k, out);
    var front := before + EventsOf(left, ops[..m], k, out);
    Project(l, r, before, left, ops[..m], k);
    n := |front|;
    assert (before + EventsOf(left, ops, k, out))[..n] == front;
  }

  function Mine(d: Duo, left: bool): Session {
    if left then d.left else d.right
  }

  function Birth(p: Party): Node<bytes> {
    Node(p.e, [], [], [], [])
  }

  /** Every point of a session's life is a point of the schedule. */
  lemma {:induction false} Cut(l: Party, r: Party, evs: seq<DuoEvent>, left: bool, m: nat) returns (n: nat)
    requires Unused(l.e) && Unused(r.e) && RunInTime(l.e, r.e, Schedule(l, r, evs))
    requires m <= |Mine(RunDuo(l, r, evs), left).ops|
    ensures n <= |Schedule(l, r, evs)|
    ensures Side(Run32(l.e, r.e, Schedule(l, r, evs)[..n]), left)
         == Replay(Birth(if left then l else r), Mine(RunDuo(l, r, evs), left).ops[..m])
  {
    hide Step, Begin, TraceInv, ControlInv, Replay, RunInTime, Run32, Move, EventsOf, Arrivals, Calls, Unused;
    var all := Schedule(l, r, evs);
    if evs == [] {
      n := CutStart(l, r, left, m);
    } else {
      var init := evs[..|evs| - 1];
      var before := Schedule(l, r, init);
      var d, ev := RunDuo(l, r, init), evs[|evs| - 1];
      assert all[..|before|] == before;
      InTimePrefix(l.e, r.e, all, |before|);
      Projects(l, r, init);
      DuoKeeps(l, r, init);
      TraceFed(l, r, d);
      var p, s, peer := if ev.left then l else r, Mine(d, ev.left), Mine(d, !ev.left);
      var t := Move(p.c, s, peer, ev.what);
      MoveCalls(l, r, p, s, peer, ev.what, ev.left, before);
      if ev.left == left && m > |s.ops| {
        var more := NewOps(s, t);
        n := CutEvents(l.e, r.e, before, left, more, m - |s.ops|, Hint(ev.what), peer.node.out);
        NodeIsReplay(p.c, Birth(p), s);
        ReplayAppend(Birth(p), s.ops, more[..m - |s.ops|]);
        PrefixSplit(s.ops, t.ops, m);
      } else {
        n := Cut(l, r, init, left, m);
        assert all[..n] == before[..n];
        assert ev.left == left ==> t.ops[..m] == s.ops[..m];
      }
    }
  }

  lemma PrefixSplit<T>(a: seq<T>, b: seq<T>, m: nat)
    requires a <= b && |a| <= m <= |b|
    ensures a + b[|a|..][..m - |a|] == b[..m]
  {
  }

  lemma NodeIsReplay(c: Settings, n0: Node<bytes>, s: Session)
    requires TraceInv(c, n0, s)
    ensures s.node == Replay(n0, s.ops) && FinOk(c, n0, s)
  {
  }

  lemma CutStart(l: Party, r: Party, left: bool, m: nat) returns (n: nat)
    requires m <= |Started(if left then l else r).ops|
    ensures var all := Schedule(l, r, []);
            n <= |all| && Side(Run32(l.e, r.e, all[..n]), left)
                       == Replay(Birth(if left then l else r), Started(if left then l else r).ops[..m])
  {
    hide Begin, TraceInv, Replay, EventsOf, Calls, Run32;
    BeginTrace(l.c, l.e, l.id, l.now);
    BeginTrace(r.c, r.e, r.id, r.now);
    CallsArrivals(New(l.e), Started(l), 0, []);
    CallsArrivals(New(r.e), Started(r), 0, Started(l).node.out);
    var a := EventsOf(true, Started(l).ops, 0, []);
    assert [] + a == a;
    assert Run32(l.e, r.e, []) == Start(l.e, r.e) by {
      RunNothing(l.e, r.e);
    }
    if left {
      n := CutEvents(l.e, r.e, [], true, Started(l).ops, m, 0, []);
      assert (a + EventsOf(false, Started(r).ops, 0, []))[..n] == a[..n];
    } else {
      Project(l.e, r.e, [], true, Started(l).ops, 0);
      NoHint(false, Started(r).ops, Started(l).node.out);
      n := CutEvents(l.e, r.e, a, false, Started(r).ops, m, 0, Started(l).node.out);
    }
  }

  lemma RunNothing(l: Endpoint, r: Endpoint)
    ensures Run32(l, r, []) == Start(l, r)
  {
  }

  lemma {:induction false} SentMute(n: Node<bytes>, ops: seq<Op>)
    requires forall i | 0 <= i < |ops| :: ops[i].Do? ==> !ops[i].act.DoSend?
    ensures Replay(n, ops).sent == n.sent
  {
    hide Input, Recv, Flush, Update, Packets;
    if ops != [] {
      SentMute(n, ops[..|ops| - 1]);
    }
  }

  /** At most the first call hands over data. */
  lemma SentOnce(n: Node<bytes>, ops: seq<Op>, data: bytes)
    requires forall i | 1 <= i < |ops| :: ops[i].Do? ==> !ops[i].act.DoSend?
    requires ops != [] && ops[0].Do? && ops[0].act.DoSend? ==> ops[0].act.data == data
    ensures var sent := Replay(n, ops).sent;
            sent == n.sent || exists fin :: fin <= data && sent == n.sent + [fin]
  {
    hide Input, Recv, Flush, Update, Packets, Replay;
    if ops == [] {
      ReplayNothing(n);
    } else {
      assert ops == [ops[0]] + ops[1..];
      ReplayAppend(n, [ops[0]], ops[1..]);
      ReplayOne(n, ops[0]);
      SentMute(Redo(n, ops[0]), ops[1..]);
      var n1 := Redo(n, ops[0]);
      if ops[0].Do? && ops[0].act.DoSend? {
        TakenPrefix(n.e.cfg, n.e.snd.queue, data);
        var fin := Send(n.e.cfg, n.e.snd.queue, data).taken;
        assert n1.sent == n.sent || n1.sent == n.sent + [fin];
      }
    }
  }

  lemma TakenPrefix(cfg: Config, queue: seq<Frag>, data: bytes)
    ensures Send(cfg, queue, data).taken <= data
  {
  }

  lemma ReplayOne(n: Node<bytes>, op: Op)
    ensures Replay(n, [op]) == Redo(n, op)
  {
    assert [op][..0] == [] && Replay(n, []) == n;
  }

  /**
    The first n fragments x numbered are all that x was given up to its FIN, and y holds every one
    of them, in order or under its number in `rcv_buf`.
  */
  ghost predicate HeldByPeer(x: Node<bytes>, fin: bytes, y: Node<bytes>, yU: Rcv, n: nat, m: nat) {
    && n <= |x.log| && m <= |x.sent|
    && Accepted(x.e.cfg, x.log[..n], [], x.sent[..m])
    && (forall i: nat | i < n :: Holds(yU, y.e.rcv, x.log, i))
    && (x.sent == x.sent[..m] || exists last :: last <= fin && x.sent == x.sent[..m] + [last])
  }

  /** When a sender has nothing to wait for, its peer holds all it ever numbered. */
  lemma DrainedHeld(l: Endpoint, r: Endpoint, evs: seq<Event>, left: bool)
    requires Unused(l) && Unused(r) && RunInTime(l, r, evs) && Idle(Side(Run32(l, r, evs), left).e)
    ensures var u := RunU(l, r, evs);
            var x, y := Side(u, left), Side(u, !left);
            && Accepted(x.e.cfg, x.log, [], x.sent) && forall i: nat | i < |x.log| :: Held(y.e.rcv, i)
  {
    hide EndpointInv, AllHonest, Held, FragData, AllFragments;
    RunSafe(l, r, evs);
    Simulates(l, r, evs);
    var u := RunU(l, r, evs);
    var x, y := Side(u, left), Side(u, !left);
    IdleWrap(x.e);
    assert x.log + [] == x.log;
    forall i: nat | i < |x.log|
      ensures Held(y.e.rcv, i)
    {
      assert !InBuffer(x.e.snd, i);
    }
  }

  /**
    Graceful close, for either side and over every run of the two sessions on the network: while its
    FIN is on its way or acknowledged, a session's input is closed and empty, and the peer's KCP
    holds every frame the session handed over before the FIN.
  */
  lemma GracefulClose(l: Party, r: Party, evs: seq<DuoEvent>, left: bool)
    requires Unused(l.e) && Unused(r.e) && RunInTime(l.e, r.e, Schedule(l, r, evs))
    ensures var d, c := RunDuo(l, r, evs), (if left then l else r).c;
            var s, peer := Mine(d, left), Mine(d, !left);
            var peerRcv := Side(RunU(l.e, r.e, Schedule(l, r, evs)), !left).e.rcv;
            && (FinOut(s.hs) ==> s.finAt.Some?)
            && (s.finAt.Some? ==>
              && s.inputClosed && !s.open && s.input == []
              && exists n, m :: HeldByPeer(s.node, c.key + s.id, peer.node, peerRcv, n, m))
  {
    hide Step, Begin, Replay, RunInTime, Run32, RunU, Schedule, RunDuo, Unused, Held, Accepted, Holds, SystemInv, Chain;
    var d, p := RunDuo(l, r, evs), if left then l else r;
    var s := Mine(d, left);
    DuoKeeps(l, r, evs);
    NodeIsReplay(p.c, Birth(p), s);
    if s.finAt.Some? {
      var all := Schedule(l, r, evs);
      Projects(l, r, evs);
      var cut := Cut(l, r, evs, left, s.finAt.value);
      InTimePrefix(l.e, r.e, all, cut);
      DrainedHeld(l.e, r.e, all[..cut], left);
      RunOnward(l.e, r.e, all, cut);
      var u0, u := RunU(l.e, r.e, all[..cut]), RunU(l.e, r.e, all);
      RunSafe(l.e, r.e, all);
      Simulates(l.e, r.e, all);
      Simulates(l.e, r.e, all[..cut]);
      DirectionOf(u, left);
      CloseParts(Side(u0, left), Side(u0, !left), Side(u, left), Side(u, !left));
      assert s.ops[..s.finAt.value] + s.ops[s.finAt.value..] == s.ops;
      ReplayAppend(Birth(p), s.ops[..s.finAt.value], s.ops[s.finAt.value..]);
      SentOnce(Replay(Birth(p), s.ops[..s.finAt.value]), s.ops[s.finAt.value..], p.c.key + s.id);
      var n, m := |Side(u0, left).log|, |Side(u0, left).sent|;
      assert s.node == WrapNode(Side(u, left));
      assert Mine(d, !left).node == WrapNode(Side(u, !left));
      assert HeldByPeer(s.node, p.c.key + s.id, Mine(d, !left).node, Side(u, !left).e.rcv, n, m);
    }
  }

  lemma DirectionOf(u: System<seq<Wire>>, left: bool)
    requires SystemInv(u)
    ensures Direction(Side(u, left), Side(u, !left))
  {
    hide EndpointInv, Direction, AllHonest;
  }

  lemma CloseParts(x0: Node<seq<Wire>>, y0: Node<seq<Wire>>, x: Node<seq<Wire>>, y: Node<seq<Wire>>)
    requires Onward(x0, x) && Onward(y0, y) && Direction(x, y)
    requires Accepted(x0.e.cfg, x0.log, [], x0.sent) && forall i: nat | i < |x0.log| :: Held(y0.e.rcv, i)
    ensures |x0.log| <= |x.log| && |x0.sent| <= |x.sent|
    ensures Accepted(x.e.cfg, x.log[..|x0.log|], [], x.sent[..|x0.sent|])
    ensures forall i: nat | i < |x0.log| :: Holds(y.e.rcv, WrapEndpoint(y.e).rcv, x.log, i)
  {
    hide Held, Holds, FragData, AllFragments, Wrap;
    assert x.log[..|x0.log|] == x0.log && x.sent[..|x0.sent|] == x0.sent;
    forall i: nat | i < |x0.log|
      ensures Holds(y.e.rcv, WrapEndpoint(y.e).rcv, x.log, i)
    {
      HoldsWrapped(x.log, y.e.rcv, i);
    }
  }

  /* ---------------------------------------------------------------- what a received FIN means */

  /** The only input that sets the flag is one with the FIN mark and without the RESET mark. */
  lemma RecvedByInput(c: Settings, s: Session, p: bytes, now: Word)
    requires KcpInput(c, s, p, now).finRecved && !s.finRecved
    ensures |p| > 4 && HasBit(p[4], KCP_FIN) && !HasBit(p[4], KCP_RESET)
  {
    hide FinTransit, SynHandshakeInput, Hear, HasBit, InputCode, Unmark;
  }

  lemma RecvedByStep(c: Settings, s: Session, ev: SEvent)
    requires !ev.FromNet?
    ensures Step(c, s, ev).finRecved == s.finRecved
  {
    hide OnInput, OnOutput, AfterPackets, Act, Check, TimeDiff, Wrap, OutgoingAll, Full;
    match ev
    case FromApp(now) => OnInputRecved(c, s, now);
    case ToApp(room) =>
      if s.frame.Some? {
        HandOverRecved(s.(frame := None, told := s.told + [Frame(s.frame.value)]), room);
        OnOutputIs(s, room);
      }
    case NetDone(space, now) => AfterPacketsRecved(c, s, space, now);
    case _ =>
  }

  lemma OnOutputIs(s: Session, room: nat)
    requires s.frame.Some?
    ensures OnOutput(s, room) == HandOver(s.(frame := None, told := s.told + [Frame(s.frame.value)]), room)
  {
  }

  lemma OnInputRecved(c: Settings, s: Session, now: Word)
    ensures OnInput(c, s, now).finRecved == s.finRecved
  {
    hide FinTransit, KcpFlush, DrainInput;
    var (t, closed) := DrainInput(c, s);
    DrainInputKeeps(c, s);
    FinTransitKeeps(c, t.(inputClosed := true), now);
  }

  lemma AfterPacketsRecved(c: Settings, s: Session, room: bool, now: Word)
    ensures AfterPackets(c, s, room, now).finRecved == s.finRecved
  {
    hide FinTransit, KcpFlush, KcpRecv, SynHandshakeRecv, FinLeaves;
    FinTransitRecved(c, s, now);
    SynRecved(c, s, room, now);
  }

  lemma FinTransitRecved(c: Settings, s: Session, now: Word)
    ensures FinTransit(c, s, now).finRecved == s.finRecved
  {
    hide FinTransit;
    FinTransitKeeps(c, s, now);
  }

  lemma {:induction false} HandOverRecved(s: Session, room: nat)
    ensures HandOver(s, room).finRecved == s.finRecved
    decreases room
  {
    hide KcpRecv;
    var (t, x) := KcpRecv(s, ForApplication);
    if x.Some? && room > 0 {
      HandOverRecved(t.(told := t.told + [Frame(x.value)]), room - 1);
    }
  }

  lemma SynRecved(c: Settings, s: Session, room: bool, now: Word)
    ensures SynHandshakeRecv(c, s, room, now).0.finRecved == s.finRecved
  {
    hide KcpRecv, Greet, ApplyNoDelay, HasKey;
  }

  /** A FIN is only ever seen after the peer has sent its own. */
  lemma {:induction false} FinIsFromPeer(l: Party, r: Party, evs: seq<DuoEvent>, left: bool)
    requires Unused(l.e) && Unused(r.e) && RunInTime(l.e, r.e, Schedule(l, r, evs))
    ensures var d := RunDuo(l, r, evs); Mine(d, left).finRecved ==> Mine(d, !left).finAt.Some?
  {
    hide Step, Begin, TraceInv, ControlInv, RunInTime, Run32, Calls, Unused, HasBit, Mark, PayloadData, EventsOf;
    if evs == [] {
      BeginRecved(l);
      BeginRecved(r);
    } else {
      var init := evs[..|evs| - 1];
      var before := Schedule(l, r, init);
      var d, ev := RunDuo(l, r, init), evs[|evs| - 1];
      assert Schedule(l, r, evs)[..|before|] == before;
      InTimePrefix(l.e, r.e, Schedule(l, r, evs), |before|);
      FinIsFromPeer(l, r, init, left);
      DuoKeeps(l, r, init);
      var p, s, peer := if ev.left then l else r, Mine(d, ev.left), Mine(d, !ev.left);
      if Possible(ev.what, peer) {
        StepTrace(p.c, Birth(p), s, Meaning(ev.what, peer));
        if ev.left == left {
          Projects(l, r, init);
          TraceFed(l, r, d);
          MoveRecved(l, r, p, s, peer, ev.what, ev.left, before);
        } else {
          MoveFin(p.c, s, peer, ev.what);
        }
      }
    }
  }

  lemma MoveFin(c: Settings, s: Session, peer: Session, what: Happening)
    requires Possible(what, peer) && (s.finAt.Some? ==> Step(c, s, Meaning(what, peer)).finAt.Some?)
    ensures s.finAt.Some? ==> Move(c, s, peer, what).finAt.Some?
  {
  }

  lemma BeginRecved(p: Party)
    ensures !Started(p).finRecved
  {
    hide Act, Greet;
  }

  lemma MoveRecved(l: Party, r: Party, p: Party, s: Session, peer: Session, what: Happening, left: bool,
                   evs: seq<Event>)
    requires Unused(l.e) && Unused(r.e) && RunInTime(l.e, r.e, evs)
    requires FedOk(peer) && Side(Run32(l.e, r.e, evs), !left) == peer.node && (s.finRecved ==> peer.finAt.Some?)
    ensures Move(p.c, s, peer, what).finRecved ==> peer.finAt.Some?
  {
    hide KcpInput, Run32, RunInTime, Unused, HasBit, PayloadData;
    if Possible(what, peer) {
      match what
      case Own(ev) => RecvedByStep(p.c, s, ev);
      case Reset(q, now) =>
        if KcpInput(p.c, s, q, now).finRecved && !s.finRecved {
          RecvedByInput(p.c, s, q, now);
        }
      case FromPeer(j, now) =>
        var q := peer.fed[j];
        if KcpInput(p.c, s, q, now).finRecved && !s.finRecved {
          RecvedByInput(p.c, s, q, now);
          OutIsCommand(l.e, r.e, evs, !left, j);
          if q == peer.node.out[j] {
            CommandBits(q[4]);
          }
        }
    }
  }

  /** y got everything x was given before its FIN. */
  ghost predicate GotAll(x: Node<bytes>, fin: bytes, y: Node<bytes>) {
    exists m: nat | m <= |x.sent| ::
      && (x.sent == x.sent[..m] || exists last :: last <= fin && x.sent == x.sent[..m] + [last])
      && if x.e.cfg.stream then Concat(x.sent[..m]) <= Concat(y.got) else x.sent[..m] <= y.got
  }

  lemma MoreFragments(mss: pos, some: seq<bytes>, all: seq<bytes>)
    requires some < all
    ensures |AllFragments(mss, some)| < |AllFragments(mss, all)|
  {
    hide Message;
    var more := all[|some|..];
    assert all == some + more;
    AllFragmentsAppend(mss, some, more);
    MessageShape(mss, more[0]);
  }

  /** The first n fragments are m frames; who has consumed n fragments has got m frames. */
  lemma ConsumedMeansGot(cfg: Config, log: seq<Frag>, sent: seq<bytes>, consumed: nat, got: seq<bytes>, n: nat, m: nat)
    requires n <= consumed <= |log| && m <= |sent|
    requires Delivered(cfg, log, sent, consumed, got) && Accepted(cfg, log[..n], [], sent[..m])
    ensures if cfg.stream then Concat(sent[..m]) <= Concat(got) else sent[..m] <= got
  {
    hide Message;
    assert log[..n] + [] == log[..n];
    if cfg.stream {
      assert log[..consumed] == log[..n] + log[n..consumed];
      FragDataAppend(log[..n], log[n..consumed]);
    } else if |got| < m {
      MoreFragments(cfg.mss, got, sent[..m]);
    }
  }

  lemma NothingUnread(yU: Rcv, y: Rcv, log: seq<Frag>, n: nat)
    requires y.queue == [] && y.buf == [] && forall i: nat | i < n :: Holds(yU, y, log, i)
    ensures n <= yU.nxt
  {
    if n > 0 {
      assert Holds(yU, y, log, n - 1);
    }
  }

  /**
    The guard of the last transition of the close means what it should: once a session has seen the
    peer's FIN and its KCP holds nothing unread, its KCP has handed over everything the peer was given.
  */
  lemma FinMeansComplete(l: Party, r: Party, evs: seq<DuoEvent>, left: bool)
    requires Unused(l.e) && Unused(r.e) && RunInTime(l.e, r.e, Schedule(l, r, evs))
    ensures var d, c := RunDuo(l, r, evs), (if left then r else l).c;
            var s, peer := Mine(d, left), Mine(d, !left);
            s.finRecved && Unread(s) == 0 ==> GotAll(peer.node, c.key + peer.id, s.node)
  {
    hide Step, Begin, Replay, RunInTime, Run32, RunU, Schedule, RunDuo, Unused, Held, Accepted, Holds, Concat,
         AllHonest, EndpointInv, TraceInv, ControlInv;
    var d := RunDuo(l, r, evs);
    var s, peer := Mine(d, left), Mine(d, !left);
    if s.finRecved && Unread(s) == 0 {
      var all, fin := Schedule(l, r, evs), (if left then r else l).c.key + peer.id;
      FinIsFromPeer(l, r, evs, left);
      GracefulClose(l, r, evs, !left);
      Projects(l, r, evs);
      RunSafe(l.e, r.e, all);
      Simulates(l.e, r.e, all);
      var x, y := Side(RunU(l.e, r.e, all), !left), Side(RunU(l.e, r.e, all), left);
      assert peer.node == WrapNode(x) && s.node == WrapNode(y);
      var n, m :| HeldByPeer(peer.node, fin, s.node, y.e.rcv, n, m);
      NothingUnread(y.e.rcv, s.node.e.rcv, peer.node.log, n);
      QueueLength(y.e.rcv);
      ConsumedMeansGot(x.e.cfg, x.log, x.sent, Consumed(y.e.rcv), y.got, n, m);
    }
  }

  lemma QueueLength(r: Rcv)
    ensures |WrapRcv(r).queue| == |r.queue|
  {
  }
}
