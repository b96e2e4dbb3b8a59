/**
 Whole histories of one ledger: any number of reservations, folds and sweeps in the order in which
 they took effect.
 */
module LedgerRuns {
  import opened Accounting
  import opened QuotaStore

  /** One mutation that took effect, with the clock reading it used. */
  datatype Event = Event(m: Mutation, now: int)

  function Final(st: Status, es: seq<Event>): Status
    decreases |es|
  {
    if es == [] then st else Final(Mutate(es[0].m, st, es[0].now).0, es[1..])
  }

  /** The answers given to the reservations of a run, in order. */
  function Answers(st: Status, es: seq<Event>): seq<bool>
    decreases |es|
  {
    if es == [] then []
    else
      var (next, ok) := Mutate(es[0].m, st, es[0].now);
      if es[0].m.MReserve? then [ok] + Answers(next, es[1..]) else Answers(next, es[1..])
  }

  /** The run with every sweep left out. */
  function Unswept(es: seq<Event>): seq<Event> {
    if es == [] then []
    else if es[0].m.MSweep? then Unswept(es[1..])
    else [es[0]] + Unswept(es[1..])
  }

  /** The clock readings start no earlier than since and never go back. */
  predicate Monotone(es: seq<Event>, since: int) {
    es == [] || (since <= es[0].now && Monotone(es[1..], es[0].now))
  }

  function LastReading(es: seq<Event>, since: int): int {
    if es == [] then since else LastReading(es[1..], es[0].now)
  }

  // ---- sweeping is invisible ----

  /** Equal up to reservations that have expired at now. */
  ghost predicate Alike(a: Status, b: Status, now: int) {
    a.confirmed == b.confirmed && Unexpired(a.reservations, now) == Unexpired(b.reservations, now)
  }

  lemma AlikeLater(a: Status, b: Status, now: int, later: int)
    requires Alike(a, b, now) && now <= later
    ensures Alike(a, b, later)
  {
    UnexpiredLater(a.reservations, now, later);
    UnexpiredLater(b.reservations, now, later);
  }

  /** Statuses that are alike answer alike. */
  lemma AlikeAnswers(a: Status, b: Status, now: int, key: string)
    requires Alike(a, b, now)
    ensures Tally(a, now) == Tally(b, now)
    ensures Holds(a, key, now) <==> Holds(b, key, now)
  {
    UnexpiredMembers(a.reservations, now);
    UnexpiredMembers(b.reservations, now);
    if Holds(a, key, now) {
      var r :| r in a.reservations && r.key == key && r.expiresAt > now;
      assert r in Unexpired(b.reservations, now);
    }
    if Holds(b, key, now) {
      var r :| r in b.reservations && r.key == key && r.expiresAt > now;
      assert r in Unexpired(a.reservations, now);
    }
  }

  lemma AlikeReserve(a: Status, b: Status, key: string, limit: Int32, now: int, ttl: int)
    requires Alike(a, b, now)
    ensures Reserve(a, key, limit, now, ttl).1 == Reserve(b, key, limit, now, ttl).1
    ensures Alike(Reserve(a, key, limit, now, ttl).0, Reserve(b, key, limit, now, ttl).0, now)
  {
    AlikeAnswers(a, b, now, key);
    var r := Reservation(key, now + ttl);
    UnexpiredAppend(a.reservations, r, now);
    UnexpiredAppend(b.reservations, r, now);
  }

  /** Every mutation takes statuses that are alike to statuses that are alike, with one answer. */
  lemma AlikeStep(m: Mutation, a: Status, b: Status, now: int)
    requires Alike(a, b, now)
    ensures Mutate(m, a, now).1 == Mutate(m, b, now).1
    ensures Alike(Mutate(m, a, now).0, Mutate(m, b, now).0, now)
  {
    match m
    case MReserve(key, limit, ttl) => AlikeReserve(a, b, key, limit, now, ttl);
    case MFold(liveKeys) =>
      FiltersCommute(a.reservations, now, KeySet(liveKeys));
      FiltersCommute(b.reservations, now, KeySet(liveKeys));
    case MSweep =>
      UnexpiredLater(a.reservations, now, now);
      UnexpiredLater(b.reservations, now, now);
  }

  lemma SweepIsAlike(st: Status, now: int)
    ensures Alike(Sweep(st, now), st, now)
  {
    UnexpiredLater(st.reservations, now, now);
  }

  lemma {:induction false} UnsweptRunsAlike(a: Status, b: Status, es: seq<Event>, since: int)
    requires Alike(a, b, since) && Monotone(es, since)
    ensures Answers(a, es) == Answers(b, Unswept(es))
    ensures Alike(Final(a, es), Final(b, Unswept(es)), LastReading(es, since))
    decreases |es|
  {
    if es != [] {
      var m, now := es[0].m, es[0].now;
      AlikeLater(a, b, since, now);
      if m.MSweep? {
        SweepIsAlike(a, now);
        UnsweptRunsAlike(Sweep(a, now), b, es[1..], now);
      } else {
        AlikeStep(m, a, b, now);
        UnsweptRunsAlike(Mutate(m, a, now).0, Mutate(m, b, now).0, es[1..], now);
        var u := Unswept(es);
        assert u[0] == es[0] && u[1..] == Unswept(es[1..]);
      }
    }
  }

  /** Leaving sweeps out of a run, or putting them in, changes no admission decision and no later
      count: two runs that differ only in their sweeps agree. */
  lemma SweepingIsInvisible(st: Status, es: seq<Event>, fs: seq<Event>, since: int, later: int)
    requires Monotone(es, since) && Monotone(fs, since)
    requires Unswept(es) == Unswept(fs)
    requires LastReading(es, since) <= later && LastReading(fs, since) <= later
    ensures Answers(st, es) == Answers(st, fs)
    ensures Used(Final(st, es), later) == Used(Final(st, fs), later)
    ensures forall key :: Holds(Final(st, es), key, later) <==> Holds(Final(st, fs), key, later)
  {
    UnsweptRunsAlike(st, st, es, since);
    UnsweptRunsAlike(st, st, fs, since);
    var common := Final(st, Unswept(es));
    AlikeLater(Final(st, es), common, LastReading(es, since), later);
    AlikeLater(Final(st, fs), common, LastReading(fs, since), later);
    forall key ensures Holds(Final(st, es), key, later) <==> Holds(Final(st, fs), key, later) {
      AlikeAnswers(Final(st, es), Final(st, fs), later, key);
    }
    AlikeAnswers(Final(st, es), Final(st, fs), later, "");
  }

  // ---- one slot per key ----

  lemma OnePerKeyStep(m: Mutation, st: Status, now: int, at: int)
    requires now <= at && OnePerKey(st.reservations, at)
    ensures OnePerKey(Mutate(m, st, now).0.reservations, at)
  {
    match m
    case MReserve(key, limit, ttl) => OnePerKeyUnderReserve(st, key, limit, now, ttl, at);
    case MFold(liveKeys) => OnePerKeyUnderFold(st.reservations, KeySet(liveKeys), at);
    case MSweep => OnePerKeyUnderSweep(st.reservations, now, at);
  }

  /** Every ledger reached from an empty one holds at most one unexpired reservation per key, at any
      instant that no decision has run ahead of; the readings need not be in order. */
  lemma {:induction false} OneSlotPerKey(st: Status, es: seq<Event>, at: int)
    requires OnePerKey(st.reservations, at)
    requires forall e :: e in es ==> e.now <= at
    ensures OnePerKey(Final(st, es).reservations, at)
    ensures |Unexpired(Final(st, es).reservations, at)| == |LiveKeys(Final(st, es).reservations, at)|
    decreases |es|
  {
    if es == [] {
      LiveKeysCount(st.reservations, at);
    } else {
      assert es[0] in es;
      OnePerKeyStep(es[0].m, st, es[0].now, at);
      OneSlotPerKey(Mutate(es[0].m, st, es[0].now).0, es[1..], at);
    }
  }

  /** Without a clock that runs ahead the bound is needed: a replica one second fast grants a second
      reservation for a key whose first is still unexpired on a replica that is on time. */
  lemma FastClockDoublesSlot(key: string)
    ensures var es := [Event(MReserve(key, 5, 10), 0), Event(MReserve(key, 5, 10), 10)];
            |Unexpired(Final(EMPTY, es).reservations, 9)| == 2
  {
    var r0, r1 := Reservation(key, 10), Reservation(key, 20);
    var e0, e1 := Event(MReserve(key, 5, 10), 0), Event(MReserve(key, 5, 10), 10);
    var st0 := EMPTY.(reservations := [r0]);
    var st1 := EMPTY.(reservations := [r0, r1]);
    UnexpiredAppend([], r0, 10);
    assert [] + [r0] == [r0] && [r0] + [r1] == [r0, r1];
    assert Mutate(e0.m, EMPTY, 0) == (st0, true);
    assert Mutate(e1.m, st0, 10) == (st1, true);
    assert [e0, e1][1..] == [e1] && [e1][1..] == [];
    assert Final(EMPTY, [e0, e1]) == Final(st0, [e1]) == Final(st1, []) == st1;
    UnexpiredAppend([], r0, 9);
    UnexpiredAppend([r0], r1, 9);
  }
}
