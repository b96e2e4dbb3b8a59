/**
 The invariants of the protocol machine and the no-overshoot theorem over its runs.
 */
module ProtocolSafety {
  import opened Accounting
  import opened QuotaStore
  import opened Protocol

  // ---- the invariants ----

  ghost predicate Shape(s: State) {
    && s.snap <= Oldest(s) <= s.seen < |s.hist|
    && (s.version == 0 ==> s.st == EMPTY)
  }

  /** What holds of every past and present set of live objects. */
  ghost predicate History(s: State) {
    && (forall m, o :: 0 <= m < |s.hist| && o in s.hist[m] ==> o.born <= m && NamedProperly(o))
    && (forall m :: 0 <= m < |s.hist| ==> |s.hist[m]| <= s.cap)
    && s.cap <= MAX_INT32
    && TokensDistinct(Live(s))
  }

  /** A live object has been live ever since its creation. */
  ghost predicate Persistent(s: State) {
    forall m, o :: 0 <= m < |s.hist| && o in Live(s) && o.born <= m ==> o in s.hist[m]
  }

  /** No listing still in use shows an earlier object under a live object's token. */
  ghost predicate NoStaleListing(s: State) {
    forall m, o :: Oldest(s) <= m < |s.hist| && o in Live(s) && m < o.born ==> o.token !in Names(s.hist[m])
  }

  /** Each live object is in the last folded snapshot or holds an unexpired reservation. */
  ghost predicate Covered(s: State) {
    s.snap < |s.hist| && forall o :: o in Live(s) && o !in s.hist[s.snap] ==>
      s.clock < o.due && Reservation(o.token, o.due) in s.st.reservations
  }

  /** confirmed is the size of the last folded snapshot. */
  ghost predicate Counted(s: State) {
    s.snap < |s.hist| && s.st.confirmed == |s.hist[s.snap]|
  }

  /** Live objects and unexpired reservations together, an object and its reservation counted once. */
  ghost function Held(s: State): set<string> {
    Tokens(Live(s)) + LiveKeys(s.st.reservations, s.clock)
  }

  ghost predicate Bounded(s: State) {
    |Held(s)| <= s.cap && OnePerKey(s.st.reservations, s.clock)
  }

  /** Reservations a process has read are still in the ledger, unless they expired or a listing shows
      their key. */
  ghost predicate Retained(s: State, r: Reservation, since: nat) {
    s.clock < r.expiresAt && Unlisted(s.hist, r.key, since) ==> r in s.st.reservations
  }

  ghost predicate TaskOk(s: State, p: nat, m: Mutation) {
    if p == RECONCILER then
      && m.MFold? && s.snap <= s.listing < |s.hist|
      && |m.liveKeys| == |s.hist[s.listing]| && KeySet(m.liveKeys) == Names(s.hist[s.listing])
    else !m.MFold?
  }

  /** A new reservation is decided below the limit, in exact arithmetic. */
  ghost predicate FreshGrant(m: Mutation, st: Status, now: int) {
    m.MReserve? ==> Tally(st, now) < m.limit && Mutate(m, st, now).1
                    && Mutate(m, st, now).0
                       == st.(reservations := st.reservations + [Reservation(m.key, now + m.ttl)])
  }

  ghost predicate ProcOk(s: State, p: nat, pr: Proc) {
    match pr
    case Idle => true
    case Trying(m) => TaskOk(s, p, m)
    case Got(m, st, version, since) =>
      && TaskOk(s, p, m) && version <= s.version && since <= Oldest(s)
      && (version == s.version ==> st == s.st)
      && (p == RECONCILER ==> st.confirmed == s.st.confirmed)
      && (forall r :: r in st.reservations ==> Retained(s, r, since))
    case Decided(m, out, version, since, now) =>
      && TaskOk(s, p, m) && version <= s.version && since <= Oldest(s) && now <= s.clock
      && (version == s.version ==> out == Mutate(m, s.st, now).0 && FreshGrant(m, s.st, now))
    case Granted(key, expiry, since) =>
      p != RECONCILER && since <= Oldest(s) && Retained(s, Reservation(key, expiry), since)
    case Refused(key) => p != RECONCILER
  }

  ghost predicate Procs(s: State) {
    forall p: nat :: ProcOk(s, p, At(s, p))
  }

  ghost predicate Inv(s: State) {
    Shape(s) && History(s) && Persistent(s) && NoStaleListing(s) && Covered(s) && Counted(s)
    && Bounded(s) && Procs(s)
  }

  // ---- sets ----

  lemma TokensCount(objs: set<Obj>)
    ensures |Tokens(objs)| <= |objs|
    ensures TokensDistinct(objs) ==> |Tokens(objs)| == |objs|
  {
    if objs != {} {
      var o :| o in objs;
      var rest := objs - {o};
      TokensCount(rest);
      assert Tokens(objs) == Tokens(rest) + {o.token};
      if TokensDistinct(objs) {
        assert TokensDistinct(rest);
        assert o.token !in Tokens(rest);
      }
    }
  }

  lemma SubsetCount<T>(a: set<T>, b: set<T>)
    requires a <= b
    ensures |a| <= |b|
  {
    assert b == a + (b - a);
  }

  lemma UnionCount<T>(a: set<T>, b: set<T>)
    ensures |a + b| <= |a| + |b|
  {
    assert |a + b| == |a| + |b| - |a * b|;
  }

  // ---- how the ledger may change under a process ----

  /** What any step leaves the other processes to rely on. */
  ghost predicate Evolves(s: State, s': State) {
    && s.clock <= s'.clock && s.hist <= s'.hist && Oldest(s) <= Oldest(s') && s.version <= s'.version
    && (s.version == s'.version ==> s.st == s'.st)
    && (forall r :: r in s.st.reservations && s'.clock < r.expiresAt && Unlisted(s'.hist, r.key, Oldest(s))
          ==> r in s'.st.reservations)
  }

  /** What the other processes leave the reconciler to rely on. */
  ghost predicate SparesReconciler(s: State, s': State) {
    s'.listing == s.listing && s'.snap == s.snap && s'.st.confirmed == s.st.confirmed
  }

  lemma RetainedEvolves(s: State, s': State, r: Reservation, since: nat)
    requires Evolves(s, s') && since <= Oldest(s) && Retained(s, r, since)
    ensures Retained(s', r, since)
  {
    if s'.clock < r.expiresAt && Unlisted(s'.hist, r.key, since) {
      assert Unlisted(s.hist, r.key, since) by {
        forall m | since <= m < |s.hist| ensures r.key !in Names(s.hist[m]) {
          assert s'.hist[m] == s.hist[m];
        }
      }
    }
  }

  lemma ProcEvolves(s: State, s': State, p: nat, pr: Proc)
    requires Evolves(s, s') && (p == RECONCILER ==> SparesReconciler(s, s'))
    requires ProcOk(s, p, pr)
    ensures ProcOk(s', p, pr)
  {
    match pr
    case Got(m, st, version, since) =>
      forall r | r in st.reservations ensures Retained(s', r, since) {
        RetainedEvolves(s, s', r, since);
      }
    case Granted(key, expiry, since) =>
      RetainedEvolves(s, s', Reservation(key, expiry), since);
    case _ =>
  }

  /** A step of one process that keeps its own obligations keeps everybody's. */
  lemma ProcsEvolve(s: State, s': State, p: nat)
    requires Procs(s) && Evolves(s, s')
    requires p == RECONCILER || SparesReconciler(s, s')
    requires forall q: nat :: q != p ==> At(s', q) == At(s, q)
    requires ProcOk(s', p, At(s', p))
    ensures Procs(s')
  {
    forall q: nat ensures ProcOk(s', q, At(s', q)) {
      if q != p {
        ProcEvolves(s, s', q, At(s, q));
      }
    }
  }

  /** A step of the outside world keeps every process's obligations. */
  lemma ProcsEvolveAll(s: State, s': State)
    requires Procs(s) && Evolves(s, s') && SparesReconciler(s, s') && s'.procs == s.procs
    ensures Procs(s')
  {
    forall q: nat ensures ProcOk(s', q, At(s', q)) {
      ProcEvolves(s, s', q, At(s, q));
    }
  }

  // ---- what an unchanged history keeps ----

  lemma HistoryStays(s: State, s': State)
    requires History(s) && Persistent(s)
    requires s'.hist == s.hist && s.cap <= s'.cap <= MAX_INT32
    ensures History(s') && Persistent(s')
  {
  }

  lemma ListingsStay(s: State, s': State)
    requires NoStaleListing(s)
    requires s'.hist == s.hist && Oldest(s) <= Oldest(s')
    ensures NoStaleListing(s')
  {
  }

  lemma LedgerStays(s: State, s': State)
    requires Covered(s) && Counted(s) && Bounded(s)
    requires s'.hist == s.hist && s'.snap == s.snap && s'.clock == s.clock && s'.st == s.st && s'.cap == s.cap
    ensures Covered(s') && Counted(s') && Bounded(s')
  {
  }

  /** The ledger, the history and the clock stay; one process moves on. */
  lemma LocalStep(s: State, s': State, p: nat)
    requires Inv(s)
    requires s'.clock == s.clock && s'.hist == s.hist && s'.cap == s.cap && s'.seen == s.seen
    requires s'.snap == s.snap && s'.st == s.st && s'.version >= s.version
    requires s'.version == s.version || s.version == 0
    requires Oldest(s) <= Oldest(s') <= s'.seen
    requires p == RECONCILER || s'.listing == s.listing
    requires forall q: nat :: q != p ==> At(s', q) == At(s, q)
    requires ProcOk(s', p, At(s', p))
    ensures Inv(s')
  {
    HistoryStays(s, s');
    ListingsStay(s, s');
    LedgerStays(s, s');
    ProcsEvolve(s, s', p);
  }

  // ---- steps that leave the ledger alone ----

  /** Beginning, listing and giving up rest on nothing. */
  lemma PlainStepKeepsInv(s: State, step: Step, p: nat)
    requires Inv(s) && Enabled(s, step)
    requires step.BeginReserve? || step.BeginSweep? || step.GiveUp? || step.List?
    requires p == if step.List? then RECONCILER else step.p
    ensures Inv(Do(s, step))
  {
    LocalStep(s, Do(s, step), p);
  }

  lemma GetKeepsInv(s: State, step: Step)
    requires Inv(s) && Enabled(s, step) && step.Get?
    ensures Inv(Do(s, step))
  {
    assert ProcOk(s, step.p, At(s, step.p));
    LocalStep(s, Do(s, step), step.p);
  }

  lemma CreateLedgerKeepsInv(s: State, step: Step)
    requires Inv(s) && Enabled(s, step) && step.CreateLedger?
    ensures Inv(Do(s, step))
  {
    assert ProcOk(s, step.p, At(s, step.p));
    LocalStep(s, Do(s, step), step.p);
  }

  /** With room in the counter, a new reservation is decided in exact arithmetic. */
  lemma FreshGrantExact(m: Mutation, st: Status, now: int)
    requires m.MReserve? ==> Tally(st, now) <= MAX_INT32
    requires Mutate(m, st, now).0 != st
    ensures FreshGrant(m, st, now)
  {
  }

  /** Something to write: the process keeps it for its compare-and-swap. */
  lemma DecideToWrite(s: State, step: Step)
    requires Inv(s) && Enabled(s, step) && step.Decide? && CountFits(s, step)
    requires Mutate(At(s, step.p).m, At(s, step.p).st, step.now).0 != At(s, step.p).st
    ensures Inv(Do(s, step))
  {
    var p, g := step.p, At(s, step.p);
    assert ProcOk(s, p, g);
    FreshGrantExact(g.m, g.st, step.now);
    LocalStep(s, Do(s, step), p);
  }

  /** Nothing to write: a grant rests on a reservation that the process has read. */
  lemma DecideNotToWrite(s: State, step: Step)
    requires Inv(s) && Enabled(s, step) && step.Decide? && !At(s, step.p).m.MFold?
    requires Mutate(At(s, step.p).m, At(s, step.p).st, step.now).0 == At(s, step.p).st
    ensures Inv(Do(s, step))
  {
    var p, g := step.p, At(s, step.p);
    assert ProcOk(s, p, g);
    if g.m.MReserve? && Mutate(g.m, g.st, step.now).1 {
      assert Holds(g.st, g.m.key, step.now);
      assert Retained(s, step.held, g.since);
    }
    LocalStep(s, Do(s, step), p);
  }

  // ---- folds ----

  /** An object the listing misses is younger than the listing, so the previous snapshot missed it
      too and it holds a reservation that no listed name matches. */
  lemma MissedByListing(s: State, o: Obj)
    requires Shape(s) && History(s) && Persistent(s) && NoStaleListing(s) && Covered(s)
    requires s.snap <= s.listing < |s.hist| && Oldest(s) == s.listing
    requires o in Live(s) && o !in s.hist[s.listing]
    ensures s.clock < o.due && Reservation(o.token, o.due) in s.st.reservations
    ensures o.token !in Names(s.hist[s.listing])
  {
    assert o.born > s.listing;
    assert o !in s.hist[s.snap];
  }

  /** The reconciler's listing becomes the snapshot; reservations it does not match are kept. */
  lemma SnapshotMoves(s: State, s': State)
    requires Shape(s) && History(s) && Persistent(s) && NoStaleListing(s) && Covered(s)
    requires s.snap <= s.listing < |s.hist| && Oldest(s) == s.listing
    requires s'.hist == s.hist && s'.clock == s.clock && s'.snap == s.listing
    requires forall r :: r in s.st.reservations && r.key !in Names(s.hist[s.listing])
                         ==> r in s'.st.reservations
    ensures Covered(s')
  {
    forall o | o in Live(s) && o !in s.hist[s.listing]
      ensures s.clock < o.due && Reservation(o.token, o.due) in s'.st.reservations
    {
      MissedByListing(s, o);
    }
  }

  /** What a fold in progress knows of its own listing. */
  lemma FoldTask(s: State, p: nat)
    requires Shape(s) && History(s) && ProcOk(s, p, At(s, p))
    requires (At(s, p).Got? || At(s, p).Decided?) && At(s, p).m.MFold?
    ensures p == RECONCILER && s.snap <= s.listing < |s.hist| && Oldest(s) == s.listing
    ensures var keys := At(s, p).m.liveKeys;
            |keys| == |s.hist[s.listing]| <= MAX_INT32 && KeySet(keys) == Names(s.hist[s.listing])
  {
    assert |s.hist[s.listing]| <= s.cap;
  }

  lemma FoldNothingEvolves(s: State, s': State)
    requires Bounded(s) && s.listing < |s.hist| && s.st.confirmed == |s.hist[s.listing]|
    requires s'.hist == s.hist && s'.clock == s.clock && s'.st == s.st && s'.version == s.version
    requires s'.cap == s.cap && s'.snap == s.listing
    requires Oldest(s) <= Oldest(s')
    ensures Evolves(s, s') && Bounded(s') && Counted(s')
  {
  }

  lemma FoldNothingKeepsInv(s: State, p: nat, now: int)
    requires Inv(s) && At(s, p).Got? && At(s, p).m.MFold?
    requires Mutate(At(s, p).m, At(s, p).st, now).0 == At(s, p).st
    ensures Inv(Put(s, p, Idle).(snap := s.listing))
  {
    var s' := Put(s, p, Idle).(snap := s.listing);
    assert ProcOk(s, p, At(s, p));
    FoldTask(s, p);
    HistoryStays(s, s');
    ListingsStay(s, s');
    SnapshotMoves(s, s');
    FoldNothingEvolves(s, s');
    ProcsEvolve(s, s', p);
  }

  lemma FoldEvolves(s: State, s': State, keys: seq<string>)
    requires Shape(s) && s.listing < |s.hist| && KeySet(keys) == Names(s.hist[s.listing])
    requires Oldest(s) == s.listing <= Oldest(s')
    requires s'.hist == s.hist && s'.clock == s.clock && s'.version == s.version + 1
    requires s'.st.reservations == Unmatched(s.st.reservations, KeySet(keys))
    ensures Evolves(s, s')
    ensures forall r :: r in s.st.reservations && r.key !in Names(s.hist[s.listing])
                        ==> r in s'.st.reservations
  {
    UnmatchedMembers(s.st.reservations, KeySet(keys));
  }

  lemma FoldBounded(s: State, s': State, keys: set<string>)
    requires Bounded(s)
    requires s'.hist == s.hist && s'.clock == s.clock && s'.cap == s.cap
    requires s'.st.reservations == Unmatched(s.st.reservations, keys)
    ensures Bounded(s')
  {
    UnmatchedMembers(s.st.reservations, keys);
    SubsetCount(Held(s'), Held(s));
    OnePerKeyUnderFold(s.st.reservations, keys, s.clock);
  }

  lemma FoldKeepsInv(s: State, p: nat)
    requires Inv(s) && At(s, p).Decided? && At(s, p).m.MFold? && At(s, p).version == s.version
    ensures Inv(Put(Commit(s, p), p, Idle))
  {
    var s', keys := Put(Commit(s, p), p, Idle), At(s, p).m.liveKeys;
    assert ProcOk(s, p, At(s, p));
    FoldTask(s, p);
    HistoryStays(s, s');
    ListingsStay(s, s');
    FoldEvolves(s, s', keys);
    SnapshotMoves(s, s');
    FoldBounded(s, s', KeySet(keys));
    ProcsEvolve(s, s', p);
  }

  // ---- sweeps and reservations ----

  lemma SweepEvolves(s: State, s': State, now: int)
    requires Covered(s) && Counted(s) && Bounded(s) && now <= s.clock
    requires s'.hist == s.hist && s'.clock == s.clock && s'.version == s.version + 1
    requires s'.cap == s.cap && s'.snap == s.snap && s'.st == Sweep(s.st, now)
    requires Oldest(s) <= Oldest(s')
    ensures Evolves(s, s') && Covered(s') && Counted(s')
    ensures LiveKeys(s'.st.reservations, s.clock) == LiveKeys(s.st.reservations, s.clock)
  {
    UnexpiredMembers(s.st.reservations, now);
  }

  lemma SweepBounded(s: State, s': State, now: int)
    requires Bounded(s) && s'.hist == s.hist && s'.clock == s.clock && s'.cap == s.cap
    requires s'.st == Sweep(s.st, now)
    requires LiveKeys(s'.st.reservations, s.clock) == LiveKeys(s.st.reservations, s.clock)
    ensures Bounded(s')
  {
    OnePerKeyUnderSweep(s.st.reservations, now, s.clock);
  }

  lemma SweepKeepsInv(s: State, p: nat)
    requires Inv(s) && At(s, p).Decided? && At(s, p).m.MSweep? && At(s, p).version == s.version
    ensures Inv(Put(Commit(s, p), p, Idle))
  {
    var s', now := Put(Commit(s, p), p, Idle), At(s, p).now;
    assert ProcOk(s, p, At(s, p));
    HistoryStays(s, s');
    ListingsStay(s, s');
    SweepEvolves(s, s', now);
    SweepBounded(s, s', now);
    ProcsEvolve(s, s', p);
  }

  /** The objects and reservations held never exceed what the ledger counts. */
  lemma NeverUndercounts(s: State, now: int)
    requires Covered(s) && Counted(s) && now <= s.clock
    ensures |Held(s)| <= Tally(s.st, now)
  {
    var rs := s.st.reservations;
    var seen := Tokens(s.hist[s.snap]);
    forall t | t in Tokens(Live(s)) ensures t in seen + LiveKeys(rs, s.clock) {
      var o :| o in Live(s) && o.token == t;
      if o !in s.hist[s.snap] {
        assert Reservation(o.token, o.due) in rs;
      }
    }
    SubsetCount(Held(s), seen + LiveKeys(rs, s.clock));
    UnionCount(seen, LiveKeys(rs, s.clock));
    TokensCount(s.hist[s.snap]);
    LiveKeysBound(rs, s.clock);
    UnexpiredLater(rs, now, s.clock);
  }

  lemma HeldPlusOne(s: State, s': State, r: Reservation)
    requires s'.hist == s.hist && s'.clock == s.clock
    requires s'.st.reservations == s.st.reservations + [r]
    ensures |Held(s')| <= |Held(s)| + 1
  {
    LiveKeysAppend(s.st.reservations, r, s.clock);
    SubsetCount(Held(s'), Held(s) + {r.key});
    UnionCount(Held(s), {r.key});
  }

  lemma OnePerKeyPlusOne(st: Status, r: Reservation, now: int, at: int)
    requires OnePerKey(st.reservations, at) && !Holds(st, r.key, now) && now <= at
    ensures OnePerKey(st.reservations + [r], at)
  {
    assert forall i :: 0 <= i < |st.reservations| ==> st.reservations[i] in st.reservations;
  }

  lemma ReserveEvolves(s: State, s': State, r: Reservation)
    requires Covered(s) && Counted(s)
    requires s'.hist == s.hist && s'.clock == s.clock && s'.version == s.version + 1 && s'.snap == s.snap
    requires s'.st == s.st.(reservations := s.st.reservations + [r])
    requires Oldest(s) <= Oldest(s')
    ensures Evolves(s, s') && Covered(s') && Counted(s')
    ensures r in s'.st.reservations
  {
    assert forall x :: x in s.st.reservations ==> x in s'.st.reservations;
  }

  /** The decided reservation, seen from the current ledger. */
  lemma ReserveTask(s: State, p: nat)
    requires ProcOk(s, p, At(s, p))
    requires At(s, p).Decided? && At(s, p).m.MReserve? && At(s, p).version == s.version
    ensures p != RECONCILER && At(s, p).now <= s.clock && At(s, p).since <= Oldest(s)
    ensures var d := At(s, p);
            && Tally(s.st, d.now) < d.m.limit && !Holds(s.st, d.m.key, d.now)
            && d.out == s.st.(reservations := s.st.reservations + [Reservation(d.m.key, d.now + d.m.ttl)])
  {
  }

  /** What the successful write of a reservation changes: the ledger, the cap and its own process. */
  ghost predicate Reserved(s: State, s': State, p: nat, pr: Proc)
    requires At(s, p).Decided? && At(s, p).m.MReserve?
  {
    && s'.clock == s.clock && s'.hist == s.hist && s'.seen == s.seen && s'.listing == s.listing
    && s'.snap == s.snap && s'.version == s.version + 1 && s'.st == At(s, p).out
    && s'.cap == Max(s.cap, At(s, p).m.limit) && Oldest(s') == Oldest(s)
    && At(s', p) == pr && forall q: nat :: q != p ==> At(s', q) == At(s, q)
  }

  lemma ReserveCommits(s: State, p: nat, pr: Proc)
    requires At(s, p).Decided? && At(s, p).m.MReserve? && p != RECONCILER
    ensures Reserved(s, Put(Commit(s, p), p, pr), p, pr)
  {
  }

  /** The reservation makes the ledger and what it holds grow by at most one, below the limit. */
  lemma ReserveKeepsLedger(s: State, s': State, p: nat, pr: Proc)
    requires Inv(s) && At(s, p).Decided? && At(s, p).m.MReserve? && At(s, p).version == s.version
    requires Reserved(s, s', p, pr)
    ensures p != RECONCILER && Evolves(s, s') && Covered(s') && Counted(s') && Bounded(s')
    ensures Reservation(At(s, p).m.key, At(s, p).now + At(s, p).m.ttl) in s'.st.reservations
    ensures SparesReconciler(s, s') && At(s, p).since <= Oldest(s')
  {
    var d := At(s, p);
    var r := Reservation(d.m.key, d.now + d.m.ttl);
    assert ProcOk(s, p, d);
    ReserveTask(s, p);
    ReserveEvolves(s, s', r);
    NeverUndercounts(s, d.now);
    HeldPlusOne(s, s', r);
    OnePerKeyPlusOne(s.st, r, d.now, s.clock);
  }

  lemma ReservedProcs(s: State, s': State, p: nat, pr: Proc)
    requires Procs(s) && Evolves(s, s') && SparesReconciler(s, s') && p != RECONCILER
    requires At(s, p).Decided? && At(s, p).m.MReserve? && Reserved(s, s', p, pr)
    requires Reservation(At(s, p).m.key, At(s, p).now + At(s, p).m.ttl) in s'.st.reservations
    requires At(s, p).since <= Oldest(s')
    requires pr == Idle
             || pr == Granted(At(s, p).m.key, At(s, p).now + At(s, p).m.ttl, At(s, p).since)
    ensures Procs(s')
  {
    assert ProcOk(s', p, pr);
    ProcsEvolve(s, s', p);
  }

  lemma ReservedHistory(s: State, s': State, p: nat, pr: Proc)
    requires Shape(s) && History(s) && Persistent(s) && NoStaleListing(s)
    requires At(s, p).Decided? && At(s, p).m.MReserve? && Reserved(s, s', p, pr)
    ensures Shape(s') && History(s') && Persistent(s') && NoStaleListing(s')
  {
    HistoryStays(s, s');
    ListingsStay(s, s');
  }

  lemma ReservedHasInv(s: State, s': State, p: nat, pr: Proc)
    requires Inv(s) && At(s, p).Decided? && At(s, p).m.MReserve? && At(s, p).version == s.version
    requires Reserved(s, s', p, pr)
    requires pr == Idle
             || pr == Granted(At(s, p).m.key, At(s, p).now + At(s, p).m.ttl, At(s, p).since)
    ensures Inv(s')
  {
    ReserveKeepsLedger(s, s', p, pr);
    ReservedHistory(s, s', p, pr);
    ReservedProcs(s, s', p, pr);
  }

  /** A write that takes effect; with the reply lost the process gives up. */
  lemma CommitKeepsInv(s: State, p: nat, pr: Proc)
    requires Inv(s) && At(s, p).Decided? && At(s, p).version == s.version
    requires pr == Idle
             || (At(s, p).m.MReserve? && pr == Granted(At(s, p).m.key, At(s, p).now + At(s, p).m.ttl, At(s, p).since))
    ensures Inv(Put(Commit(s, p), p, pr))
  {
    match At(s, p).m
    case MReserve(_, _, _) =>
      assert ProcOk(s, p, At(s, p));
      ReserveTask(s, p);
      ReserveCommits(s, p, pr);
      ReservedHasInv(s, Put(Commit(s, p), p, pr), p, pr);
    case MFold(_) => FoldKeepsInv(s, p);
    case MSweep => SweepKeepsInv(s, p);
  }

  lemma UpdateKeepsInv(s: State, p: nat)
    requires Inv(s) && At(s, p).Decided?
    ensures Inv(DoUpdate(s, p))
  {
    var d, s' := At(s, p), DoUpdate(s, p);
    if d.version != s.version {
      assert ProcOk(s, p, d);
      LocalStep(s, s', p);
    } else {
      assert s' == Put(Commit(s, p), p, At(s', p));
      CommitKeepsInv(s, p, At(s', p));
    }
  }

  // ---- the world outside the ledger ----

  lemma TickLedger(s: State, s': State)
    requires Covered(s) && Counted(s) && Bounded(s)
    requires s.clock <= s'.clock && s' == s.(clock := s'.clock)
    requires forall o :: o in Live(s) && o !in s.hist[s.snap] ==> s'.clock < o.due
    ensures Evolves(s, s') && Covered(s') && Counted(s') && Bounded(s')
  {
    SubsetCount(Held(s'), Held(s));
  }

  lemma TickKeepsInv(s: State, to: int)
    requires Inv(s) && s.clock <= to
    requires forall o :: o in Live(s) && o !in s.hist[s.snap] ==> to < o.due
    ensures Inv(s.(clock := to))
  {
    var s' := s.(clock := to);
    HistoryStays(s, s');
    ListingsStay(s, s');
    TickLedger(s, s');
    ProcsEvolveAll(s, s');
  }

  lemma SyncKeepsInv(s: State, upTo: nat)
    requires Inv(s) && s.seen <= upTo < |s.hist|
    ensures Inv(s.(seen := upTo))
  {
    var s' := s.(seen := upTo);
    HistoryStays(s, s');
    ListingsStay(s, s');
    LedgerStays(s, s');
    ProcsEvolveAll(s, s');
  }

  lemma DeleteHistory(s: State, s': State, o: Obj)
    requires s.hist != [] && History(s) && Persistent(s) && NoStaleListing(s) && o in Live(s)
    requires s'.hist == s.hist + [Live(s) - {o}] && s'.cap == s.cap && Oldest(s') == Oldest(s)
    ensures History(s') && Persistent(s') && NoStaleListing(s')
  {
    SubsetCount(Live(s'), Live(s));
  }

  lemma DeleteLedger(s: State, s': State, o: Obj)
    requires Covered(s) && Counted(s) && Bounded(s)
    requires s'.hist == s.hist + [Live(s) - {o}] && s'.cap == s.cap
    requires s'.snap == s.snap && s'.st == s.st && s'.clock == s.clock
    ensures Covered(s') && Counted(s') && Bounded(s')
  {
    SubsetCount(Held(s'), Held(s));
  }

  lemma DeleteKeepsInv(s: State, o: Obj)
    requires Inv(s) && o in Live(s)
    ensures Inv(s.(hist := s.hist + [Live(s) - {o}]))
  {
    var s' := s.(hist := s.hist + [Live(s) - {o}]);
    DeleteHistory(s, s', o);
    DeleteLedger(s, s', o);
    ProcsEvolveAll(s, s');
  }

  /** The created object takes over its reservation: nothing more is held than before. */
  lemma CreateLedgerStays(s: State, s': State, o: Obj)
    requires s.hist != [] && Covered(s) && Counted(s) && Bounded(s)
    requires s'.hist == s.hist + [Live(s) + {o}] && s'.cap == s.cap
    requires s'.snap == s.snap && s'.st == s.st && s'.clock == s.clock
    requires s.clock < o.due && Reservation(o.token, o.due) in s.st.reservations
    ensures Covered(s') && Counted(s') && Bounded(s')
    ensures |Tokens(Live(s'))| <= s.cap
  {
    assert Tokens(Live(s')) == Tokens(Live(s)) + {o.token};
    assert o.token in LiveKeys(s.st.reservations, s.clock);
    assert Held(s') == Held(s);
    SubsetCount(Tokens(Live(s')), Held(s));
  }

  lemma OneMoreToken(objs: set<Obj>, o: Obj)
    requires TokensDistinct(objs) && o.token !in Tokens(objs)
    ensures TokensDistinct(objs + {o}) && |objs + {o}| == |Tokens(objs + {o})|
  {
    TokensCount(objs + {o});
  }

  lemma CreateHistory(s: State, s': State, o: Obj)
    requires s.hist != [] && History(s)
    requires s'.hist == s.hist + [Live(s) + {o}] && s'.cap == s.cap
    requires o.born == |s.hist| && NamedProperly(o) && o.token !in Tokens(Live(s))
    requires |Tokens(Live(s'))| <= s.cap
    ensures History(s')
  {
    var objs := Live(s) + {o};
    OneMoreToken(Live(s), o);
    assert Live(s') == objs;
    forall m, x | 0 <= m < |s'.hist| && x in s'.hist[m] ensures x.born <= m && NamedProperly(x) {
      if m < |s.hist| {
        assert x in s.hist[m];
      } else if x != o {
        assert x in s.hist[|s.hist| - 1];
      }
    }
    forall m | 0 <= m < |s'.hist| ensures |s'.hist[m]| <= s'.cap {
      if m < |s.hist| {
        assert s'.hist[m] == s.hist[m];
      }
    }
  }

  lemma CreateListings(s: State, s': State, o: Obj)
    requires s.hist != [] && Persistent(s) && NoStaleListing(s)
    requires forall x :: x in Live(s) ==> x.born < |s.hist|
    requires s'.hist == s.hist + [Live(s) + {o}] && Oldest(s') >= Oldest(s)
    requires o.born == |s.hist| && Unlisted(s.hist, o.token, Oldest(s))
    ensures Persistent(s') && NoStaleListing(s')
  {
  }

  lemma LiveIsBornEarlier(s: State)
    requires s.hist != [] && History(s)
    ensures forall x :: x in Live(s) ==> x.born < |s.hist|
  {
  }

  /** Under the hypotheses a grant still has its reservation when its object is created. */
  lemma GrantStillHeld(s: State, g: Proc, p: nat)
    requires g.Granted? && ProcOk(s, p, g)
    requires s.clock < g.expiry && Unlisted(s.hist, g.key, g.since)
    ensures p != RECONCILER
    ensures Reservation(g.key, g.expiry) in s.st.reservations
    ensures Unlisted(s.hist, g.key, Oldest(s))
  {
  }

  lemma CreateEvolves(s: State, s': State, objs: set<Obj>)
    requires s'.hist == s.hist + [objs] && s'.clock == s.clock && s'.st == s.st && s'.version == s.version
    requires Oldest(s') == Oldest(s)
    ensures Evolves(s, s')
  {
  }

  lemma CreateKeepsInv(s: State, p: nat, name: string)
    requires Inv(s) && Enabled(s, CreateObject(p, name)) && Hypotheses(s, CreateObject(p, name))
    ensures Inv(Put(s, p, Idle).(hist :=
                  s.hist + [Live(s) + {Obj(At(s, p).key, name, |s.hist|, At(s, p).expiry)}]))
  {
    var g := At(s, p);
    var o := Obj(g.key, name, |s.hist|, g.expiry);
    var s' := Put(s, p, Idle).(hist := s.hist + [Live(s) + {o}]);
    assert ProcOk(s, p, g);
    GrantStillHeld(s, g, p);
    LiveIsBornEarlier(s);
    CreateLedgerStays(s, s', o);
    CreateHistory(s, s', o);
    CreateListings(s, s', o);
    CreateEvolves(s, s', Live(s) + {o});
    ProcsEvolve(s, s', p);
  }

  // ---- every reachable state ----

  lemma StepKeepsInv(s: State, step: Step)
    requires Inv(s) && Enabled(s, step) && Hypotheses(s, step)
    ensures Inv(Do(s, step))
  {
    match step
    case Tick(to) => TickKeepsInv(s, to);
    case Sync(upTo) => SyncKeepsInv(s, upTo);
    case BeginReserve(p, _, _, _) => PlainStepKeepsInv(s, step, p);
    case BeginSweep(p) => PlainStepKeepsInv(s, step, p);
    case List(_) => PlainStepKeepsInv(s, step, RECONCILER);
    case Get(_) => GetKeepsInv(s, step);
    case CreateLedger(_) => CreateLedgerKeepsInv(s, step);
    case Decide(p, now, _) =>
      if Mutate(At(s, p).m, At(s, p).st, now).0 != At(s, p).st {
        DecideToWrite(s, step);
      } else if At(s, p).m.MFold? {
        FoldNothingKeepsInv(s, p, now);
      } else {
        DecideNotToWrite(s, step);
      }
    case Update(p) => UpdateKeepsInv(s, p);
    case UpdateReplyLost(p) => CommitKeepsInv(s, p, Idle);
    case GiveUp(p) => PlainStepKeepsInv(s, step, p);
    case CreateObject(p, name) => CreateKeepsInv(s, p, name);
    case DeleteObject(o) => DeleteKeepsInv(s, o);
  }

  lemma InitHasInv(s: State)
    requires Init(s)
    ensures Inv(s)
  {
    assert LiveKeys(s.st.reservations, s.clock) == {};
    assert Held(s) == Tokens(Live(s));
    TokensCount(Live(s));
  }

  lemma {:induction false} RunKeepsInv(s: State, steps: seq<Step>)
    requires Inv(s) && Run(s, steps)
    ensures Inv(End(s, steps))
    decreases |steps|
  {
    if steps != [] {
      StepKeepsInv(s, steps[0]);
      RunKeepsInv(Do(s, steps[0]), steps[1..]);
    }
  }
}
