/**
  The quarantine of `conv.rs`: conversation numbers of dead sessions, in the order they died, each
  blocked for a time. `LinkedHashMap` is a sequence in insertion order; inserting a key that is
  there moves it to the back.
*/
module Quarantine {
  import opened Serial
  import opened Marking

  datatype Entry = Entry(conv: Word, at: nat)

  /** `Kcp::is_valid_conv`. */
  predicate ValidConv(conv: Word) {
    conv != 0 && conv < SYN_CONV
  }

  predicate Has(es: seq<Entry>, conv: Word) {
    exists i | 0 <= i < |es| :: es[i].conv == conv
  }

  /** What the cache should forget: everything of at least this age. */
  function Young(es: seq<Entry>, timeout: nat, now: nat): seq<Entry> {
    if es == [] then []
    else (if now - es[0].at < timeout then [es[0]] else []) + Young(es[1..], timeout, now)
  }

  function Without(es: seq<Entry>, conv: Word): seq<Entry> {
    if es == [] then []
    else (if es[0].conv == conv then [] else [es[0]]) + Without(es[1..], conv)
  }

  /** `LinkedHashMap::insert`. */
  function Insert(es: seq<Entry>, conv: Word, now: nat): seq<Entry> {
    Without(es, conv) + [Entry(conv, now)]
  }

  function InsertAll(es: seq<Entry>, convs: seq<Word>, now: nat): seq<Entry>
    decreases |convs|
  {
    if convs == [] then es
    else InsertAll(if ValidConv(convs[0]) then Insert(es, convs[0], now) else es, convs[1..], now)
  }

  /** List order is time order, and no number occurs twice. */
  predicate Ordered(es: seq<Entry>, clock: nat) {
    && (forall i | 0 <= i < |es| :: es[i].at <= clock)
    && (forall i, j | 0 <= i < j < |es| :: es[i].at <= es[j].at && es[i].conv != es[j].conv)
  }

  /* ---------------------------------------------------------------- the cache in place */

  class ConvCache {
    var entries: seq<Entry>
    const timeout: nat
    /** Every call so far. The cache is shared, so they need not all come from one listener. */
    ghost var calls: seq<Call>

    ghost predicate Valid()
      reads this
    {
      Monotone(calls) && entries == Run(timeout, calls)
    }

    constructor (timeout: nat)
      ensures Valid() && entries == [] && this.timeout == timeout && calls == []
    {
      this.timeout, entries, calls := timeout, [], [];
    }

    /** Pops from the front while the front is old; this is the filter. */
    method Update(now: nat)
      requires Ordered(entries, now)
      modifies `entries
      ensures entries == Young(old(entries), timeout, now) && Ordered(entries, now)
    {
      while entries != []
        invariant Ordered(entries, now)
        invariant Young(entries, timeout, now) == Young(old(entries), timeout, now)
        decreases |entries|
      {
        if now - entries[0].at < timeout {
          break;
        }
        entries := entries[1..];
      }
      AllYoung(entries, timeout, now);
    }

    method Add(conv: Word, now: nat)
      requires Valid() && Latest(calls) <= now
      modifies this
      ensures Valid() && calls == old(calls) + [Call([conv], now)]
    {
      RunOrdered(timeout, calls);
      RunCall(timeout, calls, Call([conv], now));
      Update(now);
      InsertAllOne(entries, conv, now);
      if ValidConv(conv) {
        entries := Insert(entries, conv, now);
      }
      calls := calls + [Call([conv], now)];
    }

    method Fill(convs: seq<Word>, now: nat)
      requires Valid() && Latest(calls) <= now
      modifies this
      ensures Valid() && calls == old(calls) + [Call(convs, now)]
    {
      RunOrdered(timeout, calls);
      RunCall(timeout, calls, Call(convs, now));
      Update(now);
      for i := 0 to |convs|
        invariant calls == old(calls)
        invariant InsertAll(entries, convs[i..], now) == InsertAll(Young(old(entries), timeout, now), convs, now)
      {
        assert convs[i..][1..] == convs[i + 1..];
        if ValidConv(convs[i]) {
          entries := Insert(entries, convs[i], now);
        }
      }
      calls := calls + [Call(convs, now)];
    }

    /** The blocked numbers, in the order they were put in. */
    method Dump(now: nat) returns (convs: seq<Word>)
      requires Valid() && Latest(calls) <= now
      modifies this
      ensures Valid() && calls == old(calls) + [Call([], now)]
      ensures |convs| == |entries| && forall i | 0 <= i < |convs| :: convs[i] == entries[i].conv
      ensures forall c :: c in convs <==> Blocked(old(calls), timeout, c, now)
    {
      RunOrdered(timeout, calls);
      RunCall(timeout, calls, Call([], now));
      Update(now);
      convs := seq(|entries|, i requires 0 <= i < |entries| reads this => entries[i].conv);
      forall c
        ensures c in convs <==> Blocked(calls, timeout, c, now)
      {
        QuarantineExact(timeout, calls, c, now);
        if Has(entries, c) {
          var i :| 0 <= i < |entries| && entries[i].conv == c;
          assert convs[i] == c;
        }
      }
      calls := calls + [Call([], now)];
    }

    /** The retry loop over random valid numbers; `draws` is what the generator yields. */
    method Allocate(taken: set<Word>, draws: seq<Word>, now: nat) returns (conv: Option<Word>)
      requires Valid() && Latest(calls) <= now
      modifies this
      ensures Valid() && calls == old(calls) + [Call([], now)]
      ensures conv.Some? ==>
                conv.value in draws && conv.value !in taken && !Blocked(old(calls), timeout, conv.value, now)
      ensures conv.None? ==> forall c | c in draws :: c in taken || Blocked(old(calls), timeout, c, now)
    {
      RunOrdered(timeout, calls);
      RunCall(timeout, calls, Call([], now));
      Update(now);
      ghost var before := calls;
      calls := calls + [Call([], now)];
      for i := 0 to |draws|
        invariant Valid() && calls == before + [Call([], now)] && entries == Young(Run(timeout, before), timeout, now)
        invariant forall j | 0 <= j < i :: draws[j] in taken || Blocked(before, timeout, draws[j], now)
      {
        QuarantineExact(timeout, before, draws[i], now);
        var blocked := Contains(draws[i]);
        if draws[i] !in taken && !blocked {
          return Some(draws[i]);
        }
      }
      conv := None;
    }

    method Contains(conv: Word) returns (found: bool)
      ensures found == Has(entries, conv)
    {
      for i := 0 to |entries|
        invariant forall j | 0 <= j < i :: entries[j].conv != conv
      {
        if entries[i].conv == conv {
          return true;
        }
      }
      found := false;
    }
  }

  /* ---------------------------------------------------------------- lemmas */

  /** With the front young, all are. */
  lemma {:induction false} AllYoung(es: seq<Entry>, timeout: nat, now: nat)
    requires forall i, j | 0 <= i < j < |es| :: es[i].at <= es[j].at
    requires es != [] ==> now - es[0].at < timeout
    ensures Young(es, timeout, now) == es
  {
    if es != [] {
      AllYoung(es[1..], timeout, now);
    }
  }

  lemma {:induction false} YoungElements(es: seq<Entry>, timeout: nat, now: nat, e: Entry)
    ensures e in Young(es, timeout, now) <==> e in es && now - e.at < timeout
  {
    if es != [] {
      YoungElements(es[1..], timeout, now, e);
      assert es == [es[0]] + es[1..];
    }
  }

  lemma {:induction false} WithoutElements(es: seq<Entry>, conv: Word, e: Entry)
    ensures e in Without(es, conv) <==> e in es && e.conv != conv
  {
    if es != [] {
      WithoutElements(es[1..], conv, e);
      assert es == [es[0]] + es[1..];
    }
  }

  lemma HeadFirst(es: seq<Entry>, clock: nat, e: Entry)
    requires es != [] && Ordered(es, clock) && e in es[1..]
    ensures es[0].at <= e.at && es[0].conv != e.conv
  {
    var i :| 0 <= i < |es[1..]| && es[1..][i] == e;
    assert es[i + 1] == e;
  }

  /** Leaving out elements keeps the order. */
  lemma ConsOrdered(es: seq<Entry>, rest: seq<Entry>, clock: nat)
    requires es != [] && Ordered(es, clock) && Ordered(rest, clock)
    requires forall i | 0 <= i < |rest| :: rest[i] in es[1..]
    ensures Ordered([es[0]] + rest, clock) && Ordered([] + rest, clock)
  {
    assert [] + rest == rest;
    var first, r := es[0], [es[0]] + rest;
    assert first.at <= clock;
    forall j | 0 <= j < |rest|
      ensures first.at <= rest[j].at && first.conv != rest[j].conv
    {
      HeadFirst(es, clock, rest[j]);
    }
    ConsFirst(first, rest, clock);
  }

  lemma ConsFirst(first: Entry, rest: seq<Entry>, clock: nat)
    requires Ordered(rest, clock) && first.at <= clock
    requires forall j | 0 <= j < |rest| :: first.at <= rest[j].at && first.conv != rest[j].conv
    ensures Ordered([first] + rest, clock)
  {
    var r := [first] + rest;
    forall i, j | 0 <= i < j < |r|
      ensures r[i].at <= r[j].at && r[i].conv != r[j].conv
    {
      assert r[j] == rest[j - 1];
      assert i > 0 ==> r[i] == rest[i - 1];
    }
  }

  lemma TailOrdered(es: seq<Entry>, clock: nat)
    requires es != [] && Ordered(es, clock)
    ensures Ordered(es[1..], clock)
  {
  }

  lemma {:induction false} WithoutOrdered(es: seq<Entry>, conv: Word, clock: nat)
    requires Ordered(es, clock)
    ensures Ordered(Without(es, conv), clock)
  {
    hide Ordered;
    if es != [] {
      TailOrdered(es, clock);
      WithoutOrdered(es[1..], conv, clock);
      var rest := Without(es[1..], conv);
      forall i | 0 <= i < |rest|
        ensures rest[i] in es[1..]
      {
        WithoutElements(es[1..], conv, rest[i]);
      }
      ConsOrdered(es, rest, clock);
    }
  }

  lemma {:induction false} YoungOrdered(es: seq<Entry>, timeout: nat, now: nat, clock: nat)
    requires Ordered(es, clock)
    ensures Ordered(Young(es, timeout, now), clock)
  {
    hide Ordered;
    if es != [] {
      TailOrdered(es, clock);
      YoungOrdered(es[1..], timeout, now, clock);
      var rest := Young(es[1..], timeout, now);
      forall i | 0 <= i < |rest|
        ensures rest[i] in es[1..]
      {
        YoungElements(es[1..], timeout, now, rest[i]);
      }
      ConsOrdered(es, rest, clock);
    }
  }

  lemma InsertOrdered(es: seq<Entry>, conv: Word, now: nat)
    requires Ordered(es, now)
    ensures Ordered(Insert(es, conv, now), now)
  {
    WithoutOrdered(es, conv, now);
    var rest := Without(es, conv);
    forall i | 0 <= i < |rest|
      ensures rest[i].conv != conv
    {
      WithoutElements(es, conv, rest[i]);
    }
  }

  /* ---------------------------------------------------------------- over a run */

  /** One call on the cache: `add` and `fill` put numbers in, `dump` and `allocate` put in none. */
  datatype Call = Call(convs: seq<Word>, now: nat)

  function After(es: seq<Entry>, timeout: nat, c: Call): seq<Entry> {
    InsertAll(Young(es, timeout, c.now), c.convs, c.now)
  }

  function Run(timeout: nat, calls: seq<Call>): seq<Entry> {
    if calls == [] then [] else After(Run(timeout, calls[..|calls| - 1]), timeout, calls[|calls| - 1])
  }

  function Latest(calls: seq<Call>): nat {
    if calls == [] then 0 else calls[|calls| - 1].now
  }

  /** `Instant::now` never goes back. */
  predicate Monotone(calls: seq<Call>) {
    forall i, j | 0 <= i < j < |calls| :: calls[i].now <= calls[j].now
  }

  /** The simple specification: when a number was last put in. */
  function LastAdded(calls: seq<Call>, conv: Word): Option<nat> {
    if calls == [] then None
    else if ValidConv(conv) && conv in calls[|calls| - 1].convs then Some(calls[|calls| - 1].now)
    else LastAdded(calls[..|calls| - 1], conv)
  }

  lemma InsertAllOne(es: seq<Entry>, conv: Word, now: nat)
    ensures InsertAll(es, [conv], now) == if ValidConv(conv) then Insert(es, conv, now) else es
  {
    assert [conv][1..] == [];
  }

  lemma {:induction false} InsertAllElements(es: seq<Entry>, convs: seq<Word>, now: nat, e: Entry)
    ensures e in InsertAll(es, convs, now) <==>
            if ValidConv(e.conv) && e.conv in convs then e.at == now else e in es
    decreases |convs|
  {
    if convs != [] {
      var es1 := if ValidConv(convs[0]) then Insert(es, convs[0], now) else es;
      InsertAllElements(es1, convs[1..], now, e);
      WithoutElements(es, convs[0], e);
      assert convs == [convs[0]] + convs[1..];
    }
  }

  lemma {:induction false} InsertAllOrdered(es: seq<Entry>, convs: seq<Word>, now: nat)
    requires Ordered(es, now)
    ensures Ordered(InsertAll(es, convs, now), now)
    decreases |convs|
  {
    if convs != [] {
      if ValidConv(convs[0]) {
        InsertOrdered(es, convs[0], now);
      }
      InsertAllOrdered(if ValidConv(convs[0]) then Insert(es, convs[0], now) else es, convs[1..], now);
    }
  }

  lemma {:induction false} RunOrdered(timeout: nat, calls: seq<Call>)
    requires Monotone(calls)
    ensures Ordered(Run(timeout, calls), Latest(calls))
  {
    if calls != [] {
      var init := calls[..|calls| - 1];
      RunOrdered(timeout, init);
      YoungOrdered(Run(timeout, init), timeout, calls[|calls| - 1].now, Latest(init));
      InsertAllOrdered(Young(Run(timeout, init), timeout, calls[|calls| - 1].now), calls[|calls| - 1].convs,
                       calls[|calls| - 1].now);
    }
  }

  /** What the list holds is what was added last; what was dropped was old by then. */
  lemma {:induction false} RunHolds(timeout: nat, calls: seq<Call>, e: Entry)
    requires Monotone(calls)
    ensures e in Run(timeout, calls) ==> LastAdded(calls, e.conv) == Some(e.at)
    ensures LastAdded(calls, e.conv) == Some(e.at) ==>
              e.at <= Latest(calls) && (e in Run(timeout, calls) || Latest(calls) - e.at >= timeout)
  {
    if calls != [] {
      var init, last := calls[..|calls| - 1], calls[|calls| - 1];
      RunHolds(timeout, init, e);
      var es := Run(timeout, init);
      YoungElements(es, timeout, last.now, e);
      InsertAllElements(Young(es, timeout, last.now), last.convs, last.now, e);
    }
  }

  /** The number was put in less than `timeout` ago. */
  predicate Blocked(calls: seq<Call>, timeout: nat, conv: Word, now: nat) {
    match LastAdded(calls, conv)
    case None => false
    case Some(at) => now - at < timeout
  }

  /**
    The quarantine is exact. Over any sequence of calls, at any later time, a number is refused by
    `allocate` for being in the cache if and only if it was put in less than `timeout` ago.
  */
  lemma QuarantineExact(timeout: nat, calls: seq<Call>, conv: Word, now: nat)
    requires Monotone(calls) && Latest(calls) <= now
    ensures Has(Young(Run(timeout, calls), timeout, now), conv) <==> Blocked(calls, timeout, conv, now)
  {
    var es := Young(Run(timeout, calls), timeout, now);
    if Has(es, conv) {
      var i :| 0 <= i < |es| && es[i].conv == conv;
      YoungElements(Run(timeout, calls), timeout, now, es[i]);
      RunHolds(timeout, calls, es[i]);
    }
    if Blocked(calls, timeout, conv, now) {
      var e := Entry(conv, LastAdded(calls, conv).value);
      RunHolds(timeout, calls, e);
      YoungElements(Run(timeout, calls), timeout, now, e);
      assert e in es;
    }
  }

  /** Later calls, by whomever, only move the time a number was last put in forward. */
  lemma {:induction false} LastAddedMoves(calls: seq<Call>, more: seq<Call>, conv: Word)
    requires Monotone(calls + more) && LastAdded(calls, conv).Some?
    ensures LastAdded(calls + more, conv).Some?
    ensures LastAdded(calls, conv).value <= LastAdded(calls + more, conv).value
  {
    if more == [] {
      assert calls + more == calls;
    } else {
      var all, init := calls + more, more[..|more| - 1];
      assert all[..|all| - 1] == calls + init;
      assert Monotone(calls + init);
      LastAddedMoves(calls, init, conv);
      LastAddedBound(calls + init, conv);
      var i :| 0 <= i < |calls + init| && all[i].now == LastAdded(calls + init, conv).value;
      assert all[i].now <= all[|all| - 1].now;
    }
  }

  lemma {:induction false} LastAddedBound(calls: seq<Call>, conv: Word)
    requires LastAdded(calls, conv).Some?
    ensures exists i :: 0 <= i < |calls| && calls[i].now == LastAdded(calls, conv).value
  {
    if ValidConv(conv) && conv in calls[|calls| - 1].convs {
      assert calls[|calls| - 1].now == LastAdded(calls, conv).value;
    } else {
      var init := calls[..|calls| - 1];
      LastAddedBound(init, conv);
      var i :| 0 <= i < |init| && init[i].now == LastAdded(init, conv).value;
      assert calls[i].now == LastAdded(calls, conv).value;
    }
  }

  lemma RunCall(timeout: nat, calls: seq<Call>, c: Call)
    requires Monotone(calls) && Latest(calls) <= c.now
    ensures var more := calls + [c];
            && Monotone(more) && Latest(more) == c.now && Run(timeout, more) == After(Run(timeout, calls), timeout, c)
            && forall v | ValidConv(v) && v in c.convs :: LastAdded(more, v) == Some(c.now)
  {
    var more := calls + [c];
    assert more[..|more| - 1] == calls;
    forall i | 0 <= i < |calls|
      ensures calls[i].now <= c.now
    {
      assert calls[|calls| - 1].now <= c.now;
    }
  }
}
