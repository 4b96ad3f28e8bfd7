/**
  What the sessions are for: what one application is told is what the other one wrote, in order,
  and nothing else.
*/
module Conversation {
  import opened Serial
  import opened WireFormat
  import opened Endpoints
  import opened Invariants
  import opened Packetization
  import opened Network
  import opened Safety
  import opened EndToEnd
  import opened Closing
  import opened Sessions
  import opened SessionSafety
  import opened SessionTrace
  import opened Shutdown
  import opened Frames
  import opened Writes
  import opened Identity

  ghost predicate Books(p: Party, s: Session) {
    ReadsOk(p.c, s) && SentOk(p.c, s) && ControlInv(s) && Introduced(p.c, s) && (s.client ==> s.id == p.id)
  }

  lemma {:induction false} DuoBooks(l: Party, r: Party, evs: seq<DuoEvent>)
    requires ConfigInv(l.e.cfg) && ConfigInv(r.e.cfg) && |l.id| == l.c.idLen && |r.id| == r.c.idLen
    ensures Books(l, RunDuo(l, r, evs).left) && Books(r, RunDuo(l, r, evs).right)
  {
    hide Step, Begin, ReadsOk, SentOk, ControlInv, Introduced, ConfigInv;
    if evs == [] {
      BooksOpen(l);
      BooksOpen(r);
    } else {
      DuoBooks(l, r, evs[..|evs| - 1]);
      var d, ev := RunDuo(l, r, evs[..|evs| - 1]), evs[|evs| - 1];
      BooksMove(if ev.left then l else r, Mine(d, ev.left), Mine(d, !ev.left), ev.what);
    }
  }

  lemma BooksOpen(p: Party)
    requires ConfigInv(p.e.cfg) && |p.id| == p.c.idLen
    ensures Books(p, Started(p))
  {
    hide Begin, ReadsOk, SentOk, ControlInv, Introduced;
    BeginKnown(p.c, p.e, p.id, p.now);
    BeginReads(p.c, p.e, p.id, p.now);
    BeginSent(p.c, p.e, p.id, p.now);
    BeginControl(p.c, p.e, p.id, p.now);
  }

  lemma BooksMove(p: Party, s: Session, peer: Session, what: Happening)
    requires Books(p, s)
    ensures Books(p, Move(p.c, s, peer, what))
  {
    hide Step, ReadsOk, SentOk, ControlInv, Introduced;
    if Possible(what, peer) {
      StepIntroduced(p.c, s, Meaning(what, peer));
      StepReads(p.c, s, Meaning(what, peer));
      StepSent(p.c, s, Meaning(what, peer));
      StepControl(p.c, s, Meaning(what, peer));
    }
  }

  /** Both sides have the same key and ID length, a client's ID has it, and the handshake frame is accepted. */
  predicate Matched(l: Party, r: Party) {
    && l.c.key == r.c.key && l.c.idLen == r.c.idLen && |l.id| == l.c.idLen && |r.id| == r.c.idLen
    && Proper(l.c, l.e.cfg) && Proper(r.c, r.e.cfg)
  }

  /* ---------------------------------------------------------------- the reads after the first */

  lemma {:induction false} ForAppTail(got: seq<bytes>, fates: seq<Fate>)
    requires |got| == |fates| && got != [] && fates[0] == ForHandshake
    ensures ForApp(got, fates) == ForApp(got[1..], fates[1..])
  {
    var n := |got| - 1;
    if n > 0 {
      ForAppTail(got[..n], fates[..n]);
      assert got[1..][..n - 1] == got[..n][1..] && fates[1..][..n - 1] == fates[..n][1..];
      assert got[1..][n - 1] == got[n] && fates[1..][n - 1] == fates[n];
    } else {
      assert got[..0] == [] && got[1..] == [] && fates[1..] == [];
    }
  }

  lemma {:induction false} ForAppAll(got: seq<bytes>, fates: seq<Fate>)
    requires |got| == |fates| && forall i | 0 <= i < |fates| :: fates[i] == ForApplication
    ensures ForApp(got, fates) == got
  {
    if got != [] {
      ForAppAll(got[..|got| - 1], fates[..|fates| - 1]);
    }
  }

  /** What y reads after the handshake is a front of what x gave after its greeting. */
  ghost predicate Follows(x: Session, y: Session) {
    y.node.got != [] &&
    if x.node.e.cfg.stream then Concat(y.node.got[1..]) <= Concat(x.ledger.handed + x.ledger.farewell)
    else y.node.got[1..] <= x.ledger.handed + x.ledger.farewell
  }

  lemma ConcatFirst(a: seq<bytes>)
    requires a != []
    ensures Concat(a) == a[0] + Concat(a[1..])
  {
  }

  lemma TailFollows(x: Session, y: Session, px: Party, py: Party)
    requires Books(px, x) && Books(py, y) && InOrder(x.node, y.node) && y.told != []
    requires px.c.key == py.c.key && px.c.idLen == py.c.idLen && Proper(px.c, x.node.e.cfg)
    ensures Follows(x, y)
  {
    hide ForApp, FramesTold, HandedOk, ControlInv, Concat, Proper;
    var l, got := x.ledger, y.node.got;
    var sent := l.greeting + l.handed + l.farewell;
    var hello := px.c.key + x.id;
    assert |got[0]| == |px.c.key| + px.c.idLen && got != [];
    if x.node.e.cfg.stream {
      ConcatFirst(got);
      NoBytes();
      assert l.greeting == [] ==> sent == [];
      assert sent == [hello] + (l.handed + l.farewell);
      ConcatFirst(sent);
      assert sent[1..] == l.handed + l.farewell;
      PrefixTail(got[0], Concat(got[1..]), hello, Concat(sent[1..]));
    } else {
      assert got[0] == sent[0];
      assert l.greeting != [];
      assert sent == [hello] + (l.handed + l.farewell);
      assert sent[1..] == l.handed + l.farewell;
    }
  }

  lemma NoBytes()
    ensures Concat<byte>([]) == []
  {
  }

  lemma PrefixTail(a: bytes, b: bytes, c: bytes, d: bytes)
    requires a + b <= c + d && |a| == |c|
    ensures b <= d
  {
    assert (a + b)[|a|..] == b && (c + d)[|c|..] == d;
  }

  /* ---------------------------------------------------------------- the theorem */

  lemma WriterShape(l: Party, r: Party, evs: seq<DuoEvent>, left: bool)
    requires Unused(l.e) && Unused(r.e) && RunInTime(l.e, r.e, Schedule(l, r, evs))
    ensures var cfg, e := Mine(RunDuo(l, r, evs), left).node.e.cfg, (if left then l else r).e;
            cfg.stream == e.cfg.stream && cfg.mss == e.cfg.mss
  {
    hide RunDuo, Schedule, RunInTime, Unused, SystemInv, Run32, Onward;
    var all := Schedule(l, r, evs);
    Projects(l, r, evs);
    Simulates(l.e, r.e, all);
    RunOnward(l.e, r.e, all, 0);
    StreamFlag(RunU(l.e, r.e, all));
    assert RunU(l.e, r.e, all[..0]) == Start(l.e, r.e);
    OnwardShape(Side(RunU(l.e, r.e, all[..0]), left), Side(RunU(l.e, r.e, all), left));
  }

  lemma OnwardShape(x: Node<seq<Wire>>, y: Node<seq<Wire>>)
    requires Onward(x, y)
    ensures x.e.cfg.stream == y.e.cfg.stream && x.e.cfg.mss == y.e.cfg.mss
  {
  }

  lemma SidesInOrder(l: Party, r: Party, evs: seq<DuoEvent>, left: bool)
    requires Unused(l.e) && Unused(r.e) && RunInTime(l.e, r.e, Schedule(l, r, evs))
    ensures var d := RunDuo(l, r, evs); InOrder(Mine(d, !left).node, Mine(d, left).node)
  {
    hide RunDuo, Schedule, RunInTime, Unused, InOrder, Run32;
    Projects(l, r, evs);
    ExactlyOnceInOrder(l.e, r.e, Schedule(l, r, evs));
  }

  /** The frames for y's application: told, and waiting. */
  function ForY(y: Session): seq<bytes> {
    FramesTold(y.told) + Waiting(y.frame)
  }

  /** Message by message, or byte by byte in stream mode, `some` is a front of `all`. */
  predicate Front(stream: bool, some: seq<bytes>, all: seq<bytes>) {
    if stream then Concat(some) <= Concat(all) else some <= all
  }

  /**
    What y's application is told, with the frame that waits: of the reads after the handshake, which
    are a front of what x's session took from its application (and of x's FIN), those not swallowed.
  */
  ghost predicate Conveyed(x: Session, y: Session) {
    var got, fates, l := y.node.got, y.ledger.fates, x.ledger;
    y.told != [] ==>
      && |got| == |fates| > 0
      && ForY(y) == ForApp(got[1..], fates[1..])
      && Front(x.node.e.cfg.stream, got[1..], l.handed + l.farewell)
      && (Swallowed !in fates ==> Front(x.node.e.cfg.stream, ForY(y), l.handed + l.farewell))
  }

  /** What x's session took is what its application wrote, as far as it is taken; all of it before the FIN. */
  ghost predicate Faithful(x: Session) {
    var l := x.ledger;
    && |x.input| <= |l.written| && TakenFrom(l.handed, l.written[..|l.written| - |x.input|])
    && ((forall f | f in l.written :: Fits(x.node.e.cfg, f)) ==> l.handed == l.written[..|l.written| - |x.input|])
    && (l.farewell != [] ==> x.input == [])
  }

  /**
    The end-to-end guarantee of the sessions, over every run on the network: what one application is
    told is what the other one wrote, in order.
  */
  lemma ToldIsWritten(l: Party, r: Party, evs: seq<DuoEvent>, left: bool)
    requires Unused(l.e) && Unused(r.e) && RunInTime(l.e, r.e, Schedule(l, r, evs)) && Matched(l, r)
    ensures var d := RunDuo(l, r, evs); Conveyed(Mine(d, !left), Mine(d, left)) && Faithful(Mine(d, !left))
  {
    hide RunDuo, Schedule, RunInTime, ForApp, FramesTold, Concat, InOrder, Proper, TakenFrom, Fits, Run32;
    var d := RunDuo(l, r, evs);
    var x, y := Mine(d, !left), Mine(d, left);
    var px, py := if left then r else l, if left then l else r;
    DuoBooks(l, r, evs);
    SidesInOrder(l, r, evs, left);
    WriterShape(l, r, evs, !left);
    if y.told != [] {
      ProperSame(px.c, px.e.cfg, x.node.e.cfg);
      TailFollows(x, y, px, py);
      ForAppTail(y.node.got, y.ledger.fates);
      if Swallowed !in y.ledger.fates {
        NoneSwallowed(y.ledger.fates);
        ForAppAll(y.node.got[1..], y.ledger.fates[1..]);
      }
    }
  }

  lemma ProperSame(c: Settings, cfg: Config, cfg': Config)
    requires Proper(c, cfg) && ConfigInv(cfg) && ConfigInv(cfg') && cfg'.mss == cfg.mss
    ensures Proper(c, cfg')
  {
  }

  lemma NoneSwallowed(fates: seq<Fate>)
    requires fates != [] && Swallowed !in fates && forall i | 1 <= i < |fates| :: fates[i] != ForHandshake
    ensures forall i | 0 <= i < |fates[1..]| :: fates[1..][i] == ForApplication
  {
    forall i | 0 <= i < |fates[1..]|
      ensures fates[1..][i] == ForApplication
    {
      assert fates[1..][i] == fates[i + 1] && fates[i + 1] in fates;
    }
  }

  /** The first frame y was handed is x's greeting. */
  lemma Greeted(x: Session, y: Session, px: Party, py: Party)
    requires Books(px, x) && Books(py, y) && InOrder(x.node, y.node) && y.told != []
    requires px.c.key == py.c.key && px.c.idLen == py.c.idLen && Proper(px.c, x.node.e.cfg)
    ensures y.node.got[0] == px.c.key + x.id
  {
    hide ForApp, FramesTold, HandedOk, ControlInv, ReadsOk, Concat;
    var l, got := x.ledger, y.node.got;
    var sent := l.greeting + l.handed + l.farewell;
    var hello := px.c.key + x.id;
    NoBytes();
    ConcatFirst(got);
    assert |got[0]| == |px.c.key| + px.c.idLen > 0;
    assert l.greeting == [] ==> sent == [];
    assert sent == [hello] + (l.handed + l.farewell);
    ConcatFirst(sent);
    if x.node.e.cfg.stream {
      PrefixHead(got[0], Concat(got[1..]), hello, Concat(sent[1..]));
    }
  }

  lemma PrefixHead(a: bytes, b: bytes, c: bytes, d: bytes)
    requires a + b <= c + d && |a| == |c|
    ensures a == c
  {
    assert a == (a + b)[..|a|] == (c + d)[..|a|] == c;
  }

  /**
    Over every run of two sessions on the network: a session that has told its application anything
    goes by the same ID as its peer, and a client by the one it was given.
  */
  lemma IdsAgree(l: Party, r: Party, evs: seq<DuoEvent>, left: bool)
    requires Unused(l.e) && Unused(r.e) && RunInTime(l.e, r.e, Schedule(l, r, evs)) && Matched(l, r)
    ensures var d := RunDuo(l, r, evs);
            var y := Mine(d, left);
            y.told != [] ==> y.id == Mine(d, !left).id && (y.client ==> y.id == (if left then l else r).id)
  {
    hide RunDuo, Schedule, RunInTime, InOrder, Proper, Run32, ReadsOk, SentOk, ControlInv;
    var d := RunDuo(l, r, evs);
    var x, y := Mine(d, !left), Mine(d, left);
    var px, py := if left then r else l, if left then l else r;
    DuoBooks(l, r, evs);
    SidesInOrder(l, r, evs, left);
    WriterShape(l, r, evs, !left);
    if y.told != [] {
      ProperSame(px.c, px.e.cfg, x.node.e.cfg) by {
        BooksConfig(px, x);
      }
      Greeted(x, y, px, py);
      assert y.id == y.node.got[0][|py.c.key|..];
    }
  }

  lemma BooksConfig(p: Party, s: Session)
    requires Books(p, s)
    ensures ConfigInv(s.node.e.cfg)
  {
  }

  /**
    With frames that fit and none swallowed: the frames told are a front of the frames written, or
    of all of them and the FIN.
  */
  lemma WrittenArrives(l: Party, r: Party, evs: seq<DuoEvent>, left: bool)
    requires Unused(l.e) && Unused(r.e) && RunInTime(l.e, r.e, Schedule(l, r, evs)) && Matched(l, r)
    ensures var d := RunDuo(l, r, evs);
            var x, y := Mine(d, !left), Mine(d, left);
            y.told != [] && Swallowed !in y.ledger.fates
            && (forall f | f in x.ledger.written :: Fits(x.node.e.cfg, f)) ==>
              Front(x.node.e.cfg.stream, ForY(y), x.ledger.written + x.ledger.farewell)
  {
    hide RunDuo, Schedule, RunInTime, ForY, TakenFrom, Fits, Unused, Matched, ForApp;
    var d := RunDuo(l, r, evs);
    var x, y := Mine(d, !left), Mine(d, left);
    ToldIsWritten(l, r, evs, left);
    if forall f | f in x.ledger.written :: Fits(x.node.e.cfg, f) {
      var h, f, w := x.ledger.handed, x.ledger.farewell, x.ledger.written;
      assert h + f <= w + f by {
        assert f == [] ==> h + f == h && w + f == w;
      }
      ConcatFront(h + f, w + f);
    }
  }

  /* ---------------------------------------------------------------- everything */

  /** Everything but the FIN's own frame has been read. */
  lemma ReadsAll(x: Session, y: Session, px: Party, py: Party)
    requires Books(px, x) && Books(py, y) && y.told != [] && x.finAt.Some?
    requires GotAll(x.node, px.c.key + x.id, y.node) && x.ledger.greeting == [px.c.key + x.id]
    requires |x.ledger.farewell| == 1 && y.node.got != [] && |y.node.got[0]| == |px.c.key + x.id|
    ensures Front(x.node.e.cfg.stream, x.ledger.handed, y.node.got[1..]) && x.input == []
  {
    hide ForApp, FramesTold, HandedOk, ControlInv, Concat, Proper;
    var l, got, sent := x.ledger, y.node.got, x.node.sent;
    var m: nat :| m <= |sent|
               && (sent == sent[..m] || exists last :: last <= px.c.key + x.id && sent == sent[..m] + [last])
               && if x.node.e.cfg.stream then Concat(sent[..m]) <= Concat(got) else sent[..m] <= got;
    var early := l.greeting + l.handed;
    assert sent == early + l.farewell && |l.farewell| == 1;
    assert |early| <= m;
    assert early == sent[..m][..|early|];
    assert early[1..] == l.handed && early[0] == px.c.key + x.id;
    if x.node.e.cfg.stream {
      ConcatFront(early, sent[..m]);
      ConcatFirst(early);
      ConcatFirst(got);
      PrefixTail(early[0], Concat(l.handed), got[0], Concat(got[1..]));
    }
  }

  /** After the handshake, exactly the `n` reads are for the application, and at most one more is swallowed. */
  predicate OnlyFinSwallowed(fates: seq<Fate>, n: nat) {
    forall i | 1 <= i < |fates| :: fates[i] == if i == n + 1 then Swallowed else ForApplication
  }

  lemma ForAppButLast(got: seq<bytes>, fates: seq<Fate>, n: nat)
    requires |got| == |fates| && n <= |got| <= n + 1
    requires forall i | 0 <= i < |fates| :: fates[i] == if i == n then Swallowed else ForApplication
    ensures ForApp(got, fates) == got[..n]
  {
    ForAppAll(got[..n], fates[..n]);
    if |got| == n {
      assert got[..n] == got && fates[..n] == fates;
    }
  }

  /**
    With the FIN seen and nothing unread: x's application has nothing left to send, and y was handed
    all of it. In message mode, if of y's reads only the FIN's frame was swallowed, its application
    has been told exactly what the other wrote, but for a frame that waits.
  */
  ghost predicate Arrived(x: Session, y: Session) {
    var l, got, fates := x.ledger, y.node.got, y.ledger.fates;
    y.told != [] && y.finRecved && Unread(y) == 0 ==>
      && x.input == [] && got != []
      && Front(x.node.e.cfg.stream, l.handed, got[1..])
      && ((forall f | f in l.written :: Fits(x.node.e.cfg, f)) ==>
            && l.handed == l.written
            && (!x.node.e.cfg.stream && OnlyFinSwallowed(fates, |l.written|) ==> ForY(y) == l.written))
  }

  lemma AllArrived(x: Session, y: Session, px: Party, py: Party)
    requires Books(px, x) && Books(py, y) && InOrder(x.node, y.node) && y.told != [] && x.finAt.Some?
    requires GotAll(x.node, px.c.key + x.id, y.node) && Conveyed(x, y) && Faithful(x)
    requires px.c.key == py.c.key && px.c.idLen == py.c.idLen && Proper(px.c, x.node.e.cfg)
    ensures Arrived(x, y)
  {
    hide ForApp, FramesTold, HandedOk, ControlInv, Concat, GotAll, TakenFrom, Fits, InOrder;
    var l, got, fates := x.ledger, y.node.got, y.ledger.fates;
    Greetings(x, y, px, py);
    ReadsAll(x, y, px, py);
    if (forall f | f in l.written :: Fits(x.node.e.cfg, f)) {
      assert l.written[..|l.written|] == l.written;
      if !x.node.e.cfg.stream && OnlyFinSwallowed(fates, |l.written|) {
        ForAppButLast(got[1..], fates[1..], |l.written|);
        assert got[1..][..|l.written|] == l.written;
      }
    }
  }

  lemma Greetings(x: Session, y: Session, px: Party, py: Party)
    requires Books(px, x) && Books(py, y) && y.told != [] && x.finAt.Some?
    requires px.c.key == py.c.key && px.c.idLen == py.c.idLen && Proper(px.c, x.node.e.cfg)
    ensures x.ledger.greeting == [px.c.key + x.id] && |x.ledger.farewell| == 1
    ensures y.node.got != [] && |y.node.got[0]| == |px.c.key + x.id|
  {
    hide ForApp, FramesTold, HandedOk, ControlInv;
  }

  /**
    A graceful close loses nothing: over every run of two sessions on the network, a session that has
    seen the FIN and has nothing unread was handed everything the other application wrote.
  */
  lemma EverythingArrives(l: Party, r: Party, evs: seq<DuoEvent>, left: bool)
    requires Unused(l.e) && Unused(r.e) && RunInTime(l.e, r.e, Schedule(l, r, evs)) && Matched(l, r)
    ensures var d := RunDuo(l, r, evs); Arrived(Mine(d, !left), Mine(d, left))
  {
    hide RunDuo, Schedule, RunInTime, GotAll, InOrder, Run32, Conveyed, Faithful, ForApp, FramesTold, HandedOk, Proper,
         ControlInv, OnlyFinSwallowed, Fits;
    var d := RunDuo(l, r, evs);
    var x, y := Mine(d, !left), Mine(d, left);
    if y.told != [] && y.finRecved && Unread(y) == 0 {
      DuoBooks(l, r, evs);
      ToldIsWritten(l, r, evs, left);
      FinMeansComplete(l, r, evs, left);
      FinIsFromPeer(l, r, evs, left);
      WriterShape(l, r, evs, !left);
      SidesInOrder(l, r, evs, left);
      ProperSame((if left then r else l).c, (if left then r else l).e.cfg, x.node.e.cfg);
      AllArrived(x, y, if left then r else l, if left then l else r);
    }
  }

  /**
    In message mode, a frame that y swallowed is x's FIN exactly when y had read everything before
    it that x's session was given; otherwise it is the next frame of x's application.
  */
  lemma SwallowedIsFin(l: Party, r: Party, evs: seq<DuoEvent>, left: bool, i: nat)
    requires Unused(l.e) && Unused(r.e) && RunInTime(l.e, r.e, Schedule(l, r, evs)) && Matched(l, r)
    requires var y := Mine(RunDuo(l, r, evs), left); 1 <= i < |y.ledger.fates| && y.ledger.fates[i] == Swallowed
    ensures var d := RunDuo(l, r, evs);
            var x, y := Mine(d, !left), Mine(d, left);
            y.told != [] && !x.node.e.cfg.stream ==> SwallowedAt(x.ledger, y.node.got, i)
  {
    hide RunDuo, Schedule, RunInTime, GotAll, InOrder, Run32, Faithful, ForApp, ForY, FramesTold, HandedOk, Proper,
         ControlInv, Fits;
    var d := RunDuo(l, r, evs);
    var x, y := Mine(d, !left), Mine(d, left);
    var px, py := if left then r else l, if left then l else r;
    ToldIsWritten(l, r, evs, left);
    DuoBooks(l, r, evs);
    if y.told != [] && !x.node.e.cfg.stream {
      WriterShape(l, r, evs, !left);
      ProperSame(px.c, px.e.cfg, x.node.e.cfg);
      assert Swallowed in y.ledger.fates;
      FinIsFromPeer(l, r, evs, left);
      Greetings(x, y, px, py);
      Position(x.ledger, y.node.got, i);
    }
  }

  lemma Position(l: Ledger, got: seq<bytes>, i: nat)
    requires 1 <= i < |got| && got[1..] <= l.handed + l.farewell && |l.farewell| == 1
    ensures SwallowedAt(l, got, i)
  {
    var all := l.handed + l.farewell;
    assert got[1..][i - 1] == got[i] && got[i] == all[i - 1];
    if |l.handed| < i {
      assert got[1..i] == got[1..][..i - 1] == all[..i - 1];
      assert l.handed == all[..|l.handed|];
    }
  }

  /** The read at `i` is the FIN's if all frames were read before, and the next frame if not. */
  predicate SwallowedAt(l: Ledger, got: seq<bytes>, i: nat) {
    && 1 <= i < |got|
    && if l.handed <= got[1..i] then i == |l.handed| + 1 && l.farewell != [] && got[i] == l.farewell[0]
       else i <= |l.handed| && got[i] == l.handed[i - 1]
  }

  lemma ConcatFront(a: seq<bytes>, b: seq<bytes>)
    requires a <= b
    ensures Concat(a) <= Concat(b)
  {
    assert b == a + b[|a|..];
    ConcatAppend(a, b[|a|..]);
  }
}
