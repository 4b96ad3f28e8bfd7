/** The listener's tables of `udp.rs`: sessions by conversation number and by session ID, and the backlog permits. */
module Listening {
  import opened Serial
  import opened WireFormat
  import opened Endpoints
  import opened Marking
  import opened Quarantine

  /** A socket address. */
  type Peer = nat

  /** An entry of `conv_map`; `birth` tells apart sessions that use a number after one another. */
  datatype Link = Link(conv: Word, sid: bytes, peer: Peer, permit: bool, birth: nat)

  /** An accepted stream in the channel to the application. */
  datatype Stream = Stream(birth: nat, conv: Word, peer: Peer)

  /** The two tables are each other's inverse. */
  predicate Inverse(convs: map<Word, Link>, sids: map<bytes, Word>) {
    && (forall c | c in convs :: convs[c].conv == c && convs[c].sid in sids && sids[convs[c].sid] == c)
    && (forall s | s in sids :: sids[s] in convs && convs[sids[s]].sid == s)
  }

  /** The sessions that still hold their permit. */
  function Holders(convs: map<Word, Link>): set<Word> {
    set c | c in convs && convs[c].permit
  }

  /** No session has given its permit twice: who holds one has given none, and births are unique. */
  ghost predicate OncePerBirth(convs: map<Word, Link>, given: seq<Stream>, births: nat) {
    && (forall c | c in convs :: convs[c].birth < births)
    && (forall c, d | c in convs && d in convs && c != d :: convs[c].birth != convs[d].birth)
    && (forall i | 0 <= i < |given| :: given[i].birth < births)
    && (forall i, j | 0 <= i < j < |given| :: given[i].birth != given[j].birth)
    && (forall c, i | c in convs && convs[c].permit && 0 <= i < |given| :: given[i].birth != convs[c].birth)
  }

  lemma HoldersInsert(convs: map<Word, Link>, c: Word, l: Link)
    requires c !in convs
    ensures |Holders(convs[c := l])| == |Holders(convs)| + (if l.permit then 1 else 0)
  {
    assert Holders(convs[c := l]) == Holders(convs) + (if l.permit then {c} else {});
  }

  lemma HoldersRelease(convs: map<Word, Link>, c: Word)
    requires c in convs && convs[c].permit
    ensures |Holders(convs[c := convs[c].(permit := false)])| == |Holders(convs)| - 1
  {
    assert Holders(convs[c := convs[c].(permit := false)]) == Holders(convs) - {c};
  }

  lemma HoldersRemove(convs: map<Word, Link>, c: Word)
    requires c in convs
    ensures |Holders(convs - {c})| == |Holders(convs)| - (if convs[c].permit then 1 else 0)
  {
    assert Holders(convs - {c}) == Holders(convs) - {c};
  }

  lemma LinkKeeps(convs: map<Word, Link>, sids: map<bytes, Word>, given: seq<Stream>, births: nat, l: Link)
    requires Inverse(convs, sids) && OncePerBirth(convs, given, births)
    requires l.conv !in convs && l.sid !in sids && l.birth == births
    ensures Inverse(convs[l.conv := l], sids[l.sid := l.conv])
    ensures OncePerBirth(convs[l.conv := l], given, births + 1)
  {
  }

  lemma GiveKeeps(convs: map<Word, Link>, sids: map<bytes, Word>, given: seq<Stream>, births: nat, c: Word)
    requires Inverse(convs, sids) && OncePerBirth(convs, given, births) && c in convs && convs[c].permit
    ensures Inverse(convs[c := convs[c].(permit := false)], sids)
    ensures OncePerBirth(convs[c := convs[c].(permit := false)],
                         given + [Stream(convs[c].birth, c, convs[c].peer)], births)
  {
  }

  lemma UnlinkKeeps(convs: map<Word, Link>, sids: map<bytes, Word>, given: seq<Stream>, births: nat, c: Word)
    requires Inverse(convs, sids) && OncePerBirth(convs, given, births) && c in convs
    ensures Inverse(convs - {c}, sids - {convs[c].sid}) && OncePerBirth(convs - {c}, given, births)
    ensures convs[c].conv == c
  {
  }

  /** `KcpStream::read_session_id`: the first payload without the session key. */
  function SessionId(key: bytes, packet: bytes): Option<bytes> {
    var data := PayloadData(packet);
    if data == [] || !(key <= data) then None else Some(data[|key|..])
  }

  /* ---------------------------------------------------------------- who used a number when */

  /** A session got the number, or the session that had it was killed. */
  datatype Event = Born(conv: Word, at: nat) | Died(conv: Word, at: nat)

  /** The number's last event is a birth. */
  predicate Alive(history: seq<Event>, conv: Word) {
    history != []
    && var last := history[|history| - 1];
       if last.conv == conv then last.Born? else Alive(history[..|history| - 1], conv)
  }

  /** When the number last lost its session. */
  function LastDeath(history: seq<Event>, conv: Word): Option<nat> {
    if history == [] then None
    else var last := history[|history| - 1];
         if last.conv == conv && last.Died? then Some(last.at) else LastDeath(history[..|history| - 1], conv)
  }

  /** What one more event has to respect: time goes on, births and deaths alternate, and the dead rest. */
  predicate Follows(history: seq<Event>, e: Event, timeout: nat) {
    && (history != [] ==> history[|history| - 1].at <= e.at)
    && (e.Born? <==> !Alive(history, e.conv))
    && (e.Born? && LastDeath(history, e.conv).Some? ==> e.at - LastDeath(history, e.conv).value >= timeout)
  }

  predicate Orderly(history: seq<Event>, timeout: nat) {
    history == []
    || (Orderly(history[..|history| - 1], timeout)
        && Follows(history[..|history| - 1], history[|history| - 1], timeout))
  }

  /** The cache remembers every death, or something later about the number. */
  ghost predicate Remembered(history: seq<Event>, calls: seq<Call>) {
    && (history != [] ==> history[|history| - 1].at <= Latest(calls))
    && forall c | LastDeath(history, c).Some? ::
         LastAdded(calls, c).Some? && LastDeath(history, c).value <= LastAdded(calls, c).value
  }

  /** The listener's sessions are the live numbers, each number rests, and the cache knows of all deaths. */
  ghost predicate Chronicle(history: seq<Event>, live: set<Word>, timeout: nat, calls: seq<Call>) {
    && Orderly(history, timeout) && Remembered(history, calls)
    && forall c :: c in live <==> Alive(history, c)
  }

  lemma {:induction false} OrderlyPrefix(history: seq<Event>, timeout: nat, n: nat)
    requires Orderly(history, timeout) && n <= |history|
    ensures Orderly(history[..n], timeout)
    decreases |history|
  {
    if n == |history| {
      assert history[..n] == history;
    } else {
      OrderlyPrefix(history[..|history| - 1], timeout, n);
      assert history[..|history| - 1][..n] == history[..n];
    }
  }

  lemma {:induction false} OrderlyTimes(history: seq<Event>, timeout: nat, i: nat, j: nat)
    requires Orderly(history, timeout) && i <= j < |history|
    ensures history[i].at <= history[j].at
    decreases j
  {
    if i < j {
      OrderlyTimes(history, timeout, i, j - 1);
      OrderlyPrefix(history, timeout, j + 1);
      assert history[..j + 1][..j] == history[..j];
    }
  }

  /** The last death is a death in the history, and none is later. */
  lemma {:induction false} LastDeathLast(history: seq<Event>, timeout: nat, i: nat)
    requires Orderly(history, timeout) && i < |history| && history[i].Died?
    ensures LastDeath(history, history[i].conv).Some?
    ensures history[i].at <= LastDeath(history, history[i].conv).value
    decreases |history|
  {
    var n := |history| - 1;
    OrderlyTimes(history, timeout, i, n);
    if i < n && !(history[n].conv == history[i].conv && history[n].Died?) {
      LastDeathLast(history[..n], timeout, i);
    }
  }

  /** A live number's last birth is not before its last death, so a born number that is not alive has died since. */
  lemma {:induction false} DiedSince(history: seq<Event>, i: nat)
    requires i < |history| && history[i].Born? && !Alive(history, history[i].conv)
    ensures exists k :: i < k < |history| && history[k].Died? && history[k].conv == history[i].conv
    decreases |history|
  {
    var n := |history| - 1;
    if history[n].conv == history[i].conv {
      assert i < n && history[n].Died?;
    } else {
      DiedSince(history[..n], i);
      var k :| i < k < |history[..n]| && history[..n][k].Died? && history[..n][k].conv == history[i].conv;
      assert history[k].Died? && history[k].conv == history[i].conv;
    }
  }

  /** A number killed at some time is not given to a session before that time plus the timeout. */
  lemma KilledRests(history: seq<Event>, timeout: nat, i: nat, j: nat)
    requires Orderly(history, timeout) && i < j < |history|
    requires history[i].Died? && history[j].Born? && history[i].conv == history[j].conv
    ensures history[j].at - history[i].at >= timeout
  {
    OrderlyPrefix(history, timeout, j + 1);
    assert history[..j + 1][..j] == history[..j];
    LastDeathLast(history[..j], timeout, i);
  }

  /**
    Two sessions never share a number: between two births under it the first session was killed,
    and at least the timeout passed from then to the second birth.
  */
  lemma NumbersRest(history: seq<Event>, timeout: nat, i: nat, j: nat)
    requires Orderly(history, timeout) && i < j < |history|
    requires history[i].Born? && history[j].Born? && history[i].conv == history[j].conv
    ensures exists k :: i < k < j && history[k].Died? && history[k].conv == history[i].conv
                        && history[j].at - history[k].at >= timeout
  {
    OrderlyPrefix(history, timeout, j + 1);
    assert history[..j + 1][..j] == history[..j];
    DiedSince(history[..j], i);
    var k :| i < k < j && history[k].Died? && history[k].conv == history[i].conv;
    KilledRests(history, timeout, k, j);
  }

  lemma AppendEvent(history: seq<Event>, e: Event)
    ensures (history + [e])[..|history|] == history
    ensures forall c :: Alive(history + [e], c) == if c == e.conv then e.Born? else Alive(history, c)
    ensures forall c :: LastDeath(history + [e], c) ==
                        if c == e.conv && e.Died? then Some(e.at) else LastDeath(history, c)
  {
    assert (history + [e])[..|history|] == history;
  }

  lemma BirthKeeps(history: seq<Event>, live: set<Word>, timeout: nat, calls: seq<Call>, conv: Word, now: nat)
    requires Chronicle(history, live, timeout, calls)
    requires Latest(calls) == now && conv !in live && !Blocked(calls, timeout, conv, now)
    ensures Chronicle(history + [Born(conv, now)], live + {conv}, timeout, calls)
  {
    AppendEvent(history, Born(conv, now));
  }

  /** However the cache is used, by this listener or by others, it remembers. */
  lemma CallsKeep(history: seq<Event>, live: set<Word>, timeout: nat, calls: seq<Call>, more: seq<Call>)
    requires Chronicle(history, live, timeout, calls) && Monotone(calls + more)
    ensures Chronicle(history, live, timeout, calls + more)
  {
    forall c | LastDeath(history, c).Some?
      ensures LastAdded(calls + more, c).Some?
      ensures LastDeath(history, c).value <= LastAdded(calls + more, c).value
    {
      LastAddedMoves(calls, more, c);
    }
    if calls != [] && more != [] {
      assert (calls + more)[|calls| - 1].now <= (calls + more)[|calls + more| - 1].now;
    }
    assert more == [] ==> calls + more == calls;
  }

  /** A call that puts nothing in blocks nothing. */
  lemma NoCallNoBlock(calls: seq<Call>, now: nat)
    ensures forall c :: LastAdded(calls + [Call([], now)], c) == LastAdded(calls, c)
  {
    assert (calls + [Call([], now)])[..|calls|] == calls;
  }

  lemma DeathKeeps(history: seq<Event>, live: set<Word>, timeout: nat, calls: seq<Call>, conv: Word, now: nat)
    requires Chronicle(history, live, timeout, calls) && Monotone(calls) && Latest(calls) <= now
    requires conv in live && ValidConv(conv)
    ensures Chronicle(history + [Died(conv, now)], live - {conv}, timeout, calls + [Call([conv], now)])
  {
    RunCall(timeout, calls, Call([conv], now));
    CallsKeep(history, live, timeout, calls, [Call([conv], now)]);
    AppendEvent(history, Died(conv, now));
  }

  class Listener {
    const key: bytes
    const idLen: nat
    const backlog: nat
    const cache: ConvCache
    var convMap: map<Word, Link>
    var sidMap: map<bytes, Word>
    var closing: bool
    /** Free places in the channel of accepted streams, and what waits in it. */
    var free: nat
    var waiting: seq<Stream>
    var births: nat
    /** Every stream ever put into the channel, and every birth and death of a session. */
    ghost var given: seq<Stream>
    ghost var history: seq<Event>

    ghost predicate Valid()
      reads this, cache
    {
      && cache.Valid() && Inverse(convMap, sidMap)
      && free + |Holders(convMap)| + |waiting| == backlog
      && OncePerBirth(convMap, given, births)
      && Chronicle(history, convMap.Keys, cache.timeout, cache.calls)
      && forall c | c in convMap :: ValidConv(c)
    }

    constructor (key: bytes, idLen: nat, backlog: nat, cache: ConvCache)
      requires cache.Valid()
      ensures Valid() && this.key == key && this.idLen == idLen && this.backlog == backlog && this.cache == cache
      ensures convMap == map[] && sidMap == map[] && !closing && waiting == [] && free == backlog
      ensures births == 0 && given == [] && history == []
    {
      this.key, this.idLen, this.backlog, this.cache := key, idLen, backlog, cache;
      convMap, sidMap, closing, free, waiting, births := map[], map[], false, backlog, [], 0;
      given, history := [], [];
      new;
      assert Holders(convMap) == {};
    }

    /** The packet asks for a session, under an ID nobody has, and there is a place for it in the backlog. */
    predicate Opens(packet: bytes)
      reads this
    {
      && |packet| >= OVERHEAD && Word32(packet) == SYN_CONV && SYN_CONV !in convMap && !closing && free > 0
      && SessionId(key, packet).Some?
      && SessionId(key, packet).value !in sidMap && |SessionId(key, packet).value| == idLen
    }

    /** Not in use, and not in quarantine. */
    ghost predicate Free(conv: Word, now: nat)
      reads this, cache
    {
      conv !in convMap && !Blocked(cache.calls, cache.timeout, conv, now)
    }

    /** The session of a received packet, made if the packet opens one; `draws` is what the generator yields. */
    method GetSession(packet: bytes, peer: Peer, draws: seq<Word>, now: nat) returns (conv: Option<Word>)
      requires Valid() && Latest(cache.calls) <= now && forall d | d in draws :: ValidConv(d)
      modifies this, cache
      ensures Valid() && closing == old(closing) && waiting == old(waiting) && given == old(given)
      // A known number, or a SYN with a known ID, finds its session, from the same address only.
      ensures |packet| >= OVERHEAD && Word32(packet) in old(convMap) ==>
                conv == if old(convMap)[Word32(packet)].peer == peer then Some(Word32(packet)) else None
      ensures |packet| >= OVERHEAD && Word32(packet) !in old(convMap)
              && SessionId(key, packet).Some? && SessionId(key, packet).value in old(sidMap) ==>
                var known := old(sidMap)[SessionId(key, packet).value];
                conv == if Word32(packet) == SYN_CONV && old(convMap)[known].peer == peer then Some(known) else None
      // Another packet finds nothing, unless it opens a session; then a free number is needed, and enough.
      ensures conv.Some? ==>
                && |packet| >= OVERHEAD
                && (old(Opens(packet)) || Word32(packet) in old(convMap)
                    || (SessionId(key, packet).Some? && SessionId(key, packet).value in old(sidMap)))
      ensures old(Opens(packet)) ==>
                && cache.calls == old(cache.calls) + [Call([], now)]
                && (conv.Some? <==> exists d :: d in draws && old(Free(d, now)))
                && (conv.Some? ==> conv.value in draws && old(Free(conv.value, now)))
      // Either nothing is added, or one new session with a permit.
      ensures !old(Opens(packet)) ==> cache.calls == old(cache.calls)
      ensures if old(Opens(packet)) && conv.Some? then
                && convMap == old(convMap)[conv.value :=
                                Link(conv.value, SessionId(key, packet).value, peer, true, old(births))]
                && sidMap == old(sidMap)[SessionId(key, packet).value := conv.value]
                && free == old(free) - 1 && births == old(births) + 1
                && history == old(history) + [Born(conv.value, now)]
              else
                && convMap == old(convMap) && sidMap == old(sidMap) && free == old(free) && births == old(births)
                && history == old(history)
    {
      hide PayloadData, Word32, Run, Monotone, OncePerBirth, Holders, Chronicle, Blocked;
      if |packet| < OVERHEAD {
        return None;
      }
      var target := Word32(packet);
      if target in convMap {
        return if convMap[target].peer == peer then Some(target) else None;
      }
      var data := ReadPayloadData(packet);
      if data == [] || !(key <= data) {
        return None;
      }
      var sid := data[|key|..];
      if sid in sidMap {
        var known := sidMap[sid];
        return if (known == target || target == SYN_CONV) && convMap[known].peer == peer then Some(known) else None;
      }
      if closing || target != SYN_CONV || |sid| != idLen || free == 0 {
        return None;
      }
      conv := NewConv(draws, now);
      if conv.Some? {
        AddLink(conv.value, sid, peer, now);
      }
    }

    method NewConv(draws: seq<Word>, now: nat) returns (conv: Option<Word>)
      requires Valid() && Latest(cache.calls) <= now && forall d | d in draws :: ValidConv(d)
      modifies cache
      ensures Valid() && cache.calls == old(cache.calls) + [Call([], now)]
      ensures conv.Some? ==> conv.value !in convMap && ValidConv(conv.value)
      ensures conv.Some? ==> !Blocked(old(cache.calls), cache.timeout, conv.value, now)
      ensures conv.Some? ==> !Blocked(cache.calls, cache.timeout, conv.value, now) && conv.value in draws
      ensures conv.None? ==> forall d | d in draws :: d in convMap || Blocked(old(cache.calls), cache.timeout, d, now)
    {
      hide Run, Inverse, OncePerBirth, Chronicle;
      RunCall(cache.timeout, cache.calls, Call([], now));
      CallsKeep(history, convMap.Keys, cache.timeout, cache.calls, [Call([], now)]);
      NoCallNoBlock(cache.calls, now);
      conv := cache.Allocate(convMap.Keys, draws, now);
    }

    method AddLink(conv: Word, sid: bytes, peer: Peer, now: nat)
      requires Valid() && Latest(cache.calls) == now && !Blocked(cache.calls, cache.timeout, conv, now)
      requires conv !in convMap && ValidConv(conv) && sid !in sidMap && free > 0
      modifies this`convMap, this`sidMap, this`free, this`births, this`history
      ensures Valid() && births == old(births) + 1 && free == old(free) - 1
      ensures convMap == old(convMap)[conv := Link(conv, sid, peer, true, old(births))]
      ensures sidMap == old(sidMap)[sid := conv]
      ensures history == old(history) + [Born(conv, now)]
    {
      hide Run, Monotone, Inverse, OncePerBirth, Holders, Chronicle, Blocked;
      BirthKeeps(history, convMap.Keys, cache.timeout, cache.calls, conv, now);
      history := history + [Born(conv, now)];
      assert convMap[conv := Link(conv, sid, peer, true, births)].Keys == convMap.Keys + {conv};
      var link := Link(conv, sid, peer, true, births);
      LinkKeeps(convMap, sidMap, given, births, link);
      HoldersInsert(convMap, conv, link);
      sidMap := sidMap[sid := conv];
      convMap := convMap[conv := link];
      free, births := free - 1, births + 1;
    }

    /** `Message::Connect`: the session hands its permit over, once. */
    method Connect(conv: Word)
      requires Valid()
      modifies this`convMap, this`waiting, this`given
      ensures Valid()
      ensures if conv in old(convMap) && old(convMap)[conv].permit then
                var l := old(convMap)[conv];
                && convMap == old(convMap)[conv := l.(permit := false)]
                && waiting == old(waiting) + [Stream(l.birth, conv, l.peer)]
                && given == old(given) + [Stream(l.birth, conv, l.peer)]
              else convMap == old(convMap) && waiting == old(waiting) && given == old(given)
    {
      hide Run, Monotone, Inverse, OncePerBirth, Holders, Chronicle;
      if conv in convMap && convMap[conv].permit {
        var l := convMap[conv];
        GiveKeeps(convMap, sidMap, given, births, conv);
        HoldersRelease(convMap, conv);
        var stream := Stream(l.birth, conv, l.peer);
        waiting, given := waiting + [stream], given + [stream];
        assert convMap[conv := l.(permit := false)].Keys == convMap.Keys;
        convMap := convMap[conv := l.(permit := false)];
      }
    }

    /** `Message::Disconnect`: the number goes into quarantine, and an unused permit back. */
    method Disconnect(conv: Word, now: nat)
      requires Valid() && Latest(cache.calls) <= now
      modifies this`convMap, this`sidMap, this`free, this`history, cache
      ensures Valid() && conv !in convMap && convMap == old(convMap) - {conv}
      ensures conv in old(convMap) ==>
                && sidMap == old(sidMap) - {old(convMap)[conv].sid}
                && free == old(free) + (if old(convMap)[conv].permit then 1 else 0)
                && history == old(history) + [Died(conv, now)]
                && cache.calls == old(cache.calls) + [Call([conv], now)]
      ensures conv !in old(convMap) ==>
                sidMap == old(sidMap) && free == old(free) && history == old(history)
                && cache.calls == old(cache.calls) && cache.entries == old(cache.entries)
    {
      hide Run, Inverse, OncePerBirth, Holders, Monotone, Chronicle;
      if conv in convMap {
        var l := convMap[conv];
        HoldersRemove(convMap, conv);
        UnlinkKeeps(convMap, sidMap, given, births, conv);
        DeathKeeps(history, convMap.Keys, cache.timeout, cache.calls, conv, now);
        history := history + [Died(conv, now)];
        assert (convMap - {conv}).Keys == convMap.Keys - {conv};
        convMap := convMap - {conv};
        cache.Add(l.conv, now);
        sidMap := sidMap - {l.sid};
        if l.permit {
          free := free + 1;
        }
      } else {
        assert convMap - {conv} == convMap;
      }
    }

    /** The application takes an accepted stream, which frees its place. */
    method Accept() returns (stream: Option<Stream>)
      requires Valid()
      modifies this`free, this`waiting
      ensures Valid()
      ensures if old(waiting) == [] then stream.None? && waiting == [] && free == old(free)
              else stream == Some(old(waiting)[0]) && waiting == old(waiting)[1..] && free == old(free) + 1
    {
      hide Run, Monotone, Inverse, OncePerBirth, Chronicle;
      if waiting == [] {
        return None;
      }
      stream := Some(waiting[0]);
      waiting, free := waiting[1..], free + 1;
    }
  }
}
