/**
 Exactly the limit: when many requests for different keys race for one ledger, through the separate
 read, decide and write steps of the protocol, beside any number of sweeps, and all of them are answered
 without an error, those whose key is reserved already are granted, and of the others as many as there
 were slots free, no more and no fewer.
 */
module Contest {
  import opened Accounting
  import opened QuotaStore
  import opened Protocol

  /** One race: who asks for which key, whose key is reserved already, the common limit and time to live, and
      the span of clock readings, during which nothing expires. */
  datatype Race = Race(keys: map<nat, string>, holders: set<nat>, limit: Int32, ttl: int, first: int, last: int, start: Status)

  /** The reservation does not expire during the race; it may have expired before. */
  predicate Steady(c: Race, r: Reservation) {
    r.expiresAt > c.last || r.expiresAt <= c.first
  }

  predicate Lasts(c: Race, r: Reservation) {
    r.expiresAt > c.last
  }

  ghost predicate HoldsLasting(c: Race, st: Status, key: string) {
    exists r :: r in st.reservations && Lasts(c, r) && r.key == key
  }

  ghost predicate Fair(c: Race) {
    && RECONCILER !in c.keys && c.first <= c.last < c.first + c.ttl
    && (forall p, q :: p in c.keys && q in c.keys && c.keys[p] == c.keys[q] ==> p == q)
    && (forall r :: r in c.start.reservations ==> Steady(c, r))
    && c.holders <= c.keys.Keys
    && (forall p :: p in c.keys ==> (p in c.holders <==> HoldsLasting(c, c.start, c.keys[p])))
    && Tally(c.start, c.last) + |c.keys| <= MAX_INT32
  }

  /** The winners who had to take a slot. */
  ghost function Takers(c: Race, s: State): set<nat> {
    set p | p in s.procs && s.procs[p].Granted? && p !in c.holders
  }

  ghost predicate Starts(c: Race, s: State) {
    s.procs == map[] && s.st == c.start && (s.version == 0 ==> s.st == EMPTY)
  }

  /** The steps of a race: the contestants' own, in any order, of which none fails; sweeps by others,
      which may; and the clock. */
  ghost predicate RaceStep(c: Race, s: State, step: Step) {
    && Enabled(s, step)
    && match step
       case Tick(_) => true
       case BeginReserve(p, key, limit, ttl) =>
         p in c.keys && key == c.keys[p] && limit == c.limit && ttl == c.ttl
       case BeginSweep(p) => p !in c.keys
       case Get(_) => true
       case CreateLedger(_) => true
       case Decide(_, now, _) => c.first <= now <= c.last
       case Update(_) => true
       case UpdateReplyLost(p) => p !in c.keys
       case GiveUp(p) => p !in c.keys
       case _ => false
  }

  ghost predicate RaceRun(c: Race, s: State, steps: seq<Step>, end: State)
    decreases |steps|
  {
    if steps == [] then s == end
    else RaceStep(c, s, steps[0]) && RaceRun(c, Do(s, steps[0]), steps[1..], end)
  }

  ghost function Winners(s: State): set<nat> {
    set p | p in s.procs && s.procs[p].Granted?
  }

  ghost function Losers(s: State): set<nat> {
    set p | p in s.procs && s.procs[p].Refused?
  }

  /** Every contestant has its answer. */
  ghost predicate Over(c: Race, s: State) {
    forall p :: p in c.keys ==> At(s, p).Granted? || At(s, p).Refused?
  }

  // ---- the invariant ----

  /** A ledger of this race in which p's key is free. */
  ghost predicate Open(c: Race, st: Status, p: nat)
    requires p in c.keys
  {
    && st.confirmed == c.start.confirmed
    && forall r :: r in st.reservations ==> Steady(c, r) && (Lasts(c, r) ==> r.key != c.keys[p])
  }

  /** What was reserved at the start and lasts is still there. */
  ghost predicate KeepsStart(c: Race, st: Status) {
    forall r :: r in c.start.reservations && Lasts(c, r) ==> r in st.reservations
  }

  ghost predicate HolderOk(c: Race, s: State, p: nat, pr: Proc)
    requires p in c.keys
  {
    var m := MReserve(c.keys[p], c.limit, c.ttl);
    match pr
    case Trying(x) => x == m
    case Got(x, st, version, _) =>
      x == m && KeepsStart(c, st) && version <= s.version && (version == s.version ==> st == s.st)
    case Granted(_, _, _) => true
    case _ => false
  }

  function Slot(c: Race, p: nat, now: int): Reservation
    requires p in c.keys
  {
    Reservation(c.keys[p], now + c.ttl)
  }

  ghost predicate RunnerOk(c: Race, s: State, p: nat, pr: Proc)
    requires p in c.keys
  {
    var m := MReserve(c.keys[p], c.limit, c.ttl);
    match pr
    case Idle => false
    case Trying(x) => x == m && Open(c, s.st, p)
    case Got(x, st, version, _) =>
      && x == m && Open(c, s.st, p) && Open(c, st, p) && Tally(st, c.last) <= Tally(s.st, c.last)
      && version <= s.version && (version == s.version ==> st == s.st)
    case Decided(x, out, version, _, now) =>
      && x == m && Open(c, s.st, p) && version <= s.version && c.first <= now
      && (version == s.version ==>
            && Tally(s.st, c.last) < c.limit
            && out == s.st.(reservations := s.st.reservations + [Slot(c, p, now)]))
    case Granted(_, _, _) => true
    case Refused(_) => Tally(s.st, c.last) >= c.limit
  }

  ghost predicate SweeperOk(c: Race, s: State, pr: Proc) {
    match pr
    case Idle => true
    case Trying(x) => x.MSweep?
    case Got(x, st, version, _) => x.MSweep? && version <= s.version && (version == s.version ==> st == s.st)
    case Decided(x, out, version, _, now) =>
      && x.MSweep? && version <= s.version && c.first <= now <= c.last
      && (version == s.version ==> out == Sweep(s.st, now))
    case Granted(_, _, _) => false
    case Refused(_) => false
  }

  ghost predicate ProcOk(c: Race, s: State, p: nat, pr: Proc) {
    if p in c.keys && p in c.holders then HolderOk(c, s, p, pr)
    else if p in c.keys then RunnerOk(c, s, p, pr)
    else SweeperOk(c, s, pr)
  }

  ghost predicate LedgerOk(c: Race, s: State) {
    && s.st.confirmed == c.start.confirmed
    && Tally(s.st, c.last) == Tally(c.start, c.last) + |Takers(c, s)|
    && (Takers(c, s) != {} ==> Tally(s.st, c.last) <= c.limit)
    && KeepsStart(c, s.st)
    && (s.version == 0 ==> s.st == EMPTY)
    && (forall r :: r in s.st.reservations ==> Steady(c, r))
    && (forall r, p :: r in s.st.reservations && Lasts(c, r) && p in c.keys && r.key == c.keys[p]
          ==> p in c.holders || p in Winners(s))
  }

  ghost predicate RaceInv(c: Race, s: State) {
    LedgerOk(c, s) && forall p :: p in s.procs ==> ProcOk(c, s, p, s.procs[p])
  }

  // ---- counting during the race ----

  /** With no expiry between two readings, they count the same. */
  lemma {:induction false} SteadyCount(c: Race, rs: seq<Reservation>, now: int)
    requires c.first <= now <= c.last && forall r :: r in rs ==> Steady(c, r)
    ensures Unexpired(rs, now) == Unexpired(rs, c.last)
  {
    if rs != [] {
      var init, last := rs[..|rs| - 1], rs[|rs| - 1];
      assert last in rs && forall r :: r in init ==> r in rs;
      SteadyCount(c, init, now);
    }
  }

  lemma OpenTally(c: Race, st: Status, p: nat, now: int)
    requires p in c.keys && Open(c, st, p) && c.first <= now <= c.last
    requires Tally(st, c.last) <= MAX_INT32 && MIN_INT32 <= st.confirmed
    ensures Used(st, now) == Tally(st, c.last) && !Holds(st, c.keys[p], now)
  {
    SteadyCount(c, st.reservations, now);
  }

  /** A sweep during the race drops what had expired before it and counts for nothing. */
  lemma SweptIsSteady(c: Race, st: Status, now: int)
    requires c.first <= now <= c.last && forall r :: r in st.reservations ==> Steady(c, r)
    ensures Tally(Sweep(st, now), c.last) == Tally(st, c.last)
    ensures forall r :: r in Sweep(st, now).reservations ==> r in st.reservations
    ensures KeepsStart(c, st) ==> KeepsStart(c, Sweep(st, now))
  {
    SweepMeaning(st, now, c.last);
  }

  lemma WinnersAsk(c: Race, s: State)
    requires forall p :: p in s.procs ==> ProcOk(c, s, p, s.procs[p])
    ensures Winners(s) <= c.keys.Keys
  {
    forall p | p in Winners(s) ensures p in c.keys {
      assert ProcOk(c, s, p, s.procs[p]);
    }
  }

  lemma OthersCount<T>(all: set<T>, some: set<T>, part: set<T>)
    requires some <= all && part <= all
    ensures |part - some| <= |all| - |some|
  {
    assert all == some + (all - some);
    assert all - some == (part - some) + ((all - some) - (part - some));
  }

  lemma WinnersFit(c: Race, s: State)
    requires RaceInv(c, s) && c.holders <= c.keys.Keys
    ensures Winners(s) <= c.keys.Keys && |Takers(c, s)| <= |c.keys| - |c.holders|
  {
    WinnersAsk(c, s);
    OthersCount(c.keys.Keys, c.holders, Winners(s));
    assert Takers(c, s) == Winners(s) - c.holders;
  }

  // ---- its steps ----

  /** One process moves on without touching the reservations. */
  lemma ProcMoves(c: Race, s: State, s': State, p: nat)
    requires RaceInv(c, s)
    requires s'.st == s.st && (s'.version == s.version || (s.version == 0 && s'.version == 1))
    requires s'.procs == s.procs[p := At(s', p)] && !At(s', p).Granted? && !At(s, p).Granted?
    requires ProcOk(c, s', p, At(s', p))
    ensures RaceInv(c, s')
  {
    assert Winners(s') == Winners(s) && Takers(c, s') == Takers(c, s);
    forall q | q in s'.procs ensures ProcOk(c, s', q, s'.procs[q]) {
      if q != p {
        assert ProcOk(c, s, q, s.procs[q]);
      }
    }
  }

  /** A holder is granted at once, without a slot. */
  lemma HolderMoves(c: Race, s: State, p: nat, now: int, held: Reservation)
    requires Fair(c) && p in c.holders && At(s, p).Got? && HolderOk(c, s, p, At(s, p)) && now <= c.last
    ensures var s' := DoDecide(s, p, now, held);
            && s'.procs == s.procs[p := At(s', p)] && s'.st == s.st && s'.version == s.version
            && At(s', p).Granted?
  {
    var g := At(s, p);
    var r :| r in c.start.reservations && Lasts(c, r) && r.key == c.keys[p];
    assert r in g.st.reservations;
  }

  lemma HolderDecides(c: Race, s: State, p: nat, now: int, held: Reservation)
    requires Fair(c) && RaceInv(c, s) && p in c.holders && At(s, p).Got? && c.first <= now <= c.last
    ensures RaceInv(c, DoDecide(s, p, now, held))
  {
    assert ProcOk(c, s, p, s.procs[p]);
    HolderMoves(c, s, p, now, held);
    HolderWins(c, s, DoDecide(s, p, now, held), p);
  }

  lemma HolderWins(c: Race, s: State, s': State, p: nat)
    requires RaceInv(c, s) && p in c.holders && p in c.keys
    requires s'.procs == s.procs[p := At(s', p)] && s'.st == s.st && s'.version == s.version
    requires At(s', p).Granted?
    ensures RaceInv(c, s')
  {
    assert Takers(c, s') == Takers(c, s) && Winners(s) <= Winners(s');
    forall q | q in s'.procs ensures ProcOk(c, s', q, s'.procs[q]) {
      if q != p {
        assert ProcOk(c, s, q, s.procs[q]);
      }
    }
  }

  lemma ContestantDecides(c: Race, s: State, p: nat, now: int, held: Reservation)
    requires Fair(c) && RaceInv(c, s) && p in c.keys && p !in c.holders && At(s, p).Got? && c.first <= now <= c.last
    ensures RaceInv(c, DoDecide(s, p, now, held))
  {
    var s' := DoDecide(s, p, now, held);
    assert ProcOk(c, s, p, s.procs[p]);
    WinnersFit(c, s);
    ContestantMoves(c, s, p, now, held);
    assert !At(s', p).Granted?;
    ProcMoves(c, s, s', p);
  }

  /** It finds its key free; below the limit it has a reservation to write, at the limit it is refused. */
  lemma ContestantMoves(c: Race, s: State, p: nat, now: int, held: Reservation)
    requires Fair(c) && p in c.keys && At(s, p).Got? && c.first <= now <= c.last
    requires RunnerOk(c, s, p, At(s, p)) && Tally(s.st, c.last) <= MAX_INT32
    ensures var s' := DoDecide(s, p, now, held);
            && s'.procs == s.procs[p := At(s', p)] && s'.st == s.st && s'.version == s.version
            && !At(s', p).Granted? && RunnerOk(c, s', p, At(s', p))
  {
    OpenTally(c, At(s, p).st, p, now);
  }

  /** A successful write of a contestant makes one more winner and one more reservation. */
  lemma WinInRace(c: Race, s: State, p: nat)
    requires Fair(c) && RaceInv(c, s) && p in c.keys && p !in c.holders
    requires At(s, p).Decided? && At(s, p).version == s.version
    ensures RaceInv(c, DoUpdate(s, p))
  {
    var s', r := DoUpdate(s, p), Slot(c, p, At(s, p).now);
    assert ProcOk(c, s, p, s.procs[p]);
    WinTakes(c, s, p);
    WinKeepsLedger(c, s, s', p, r);
    WinKeepsProcs(c, s, s', p, r);
  }

  /** One more slot taken, one more winner. */
  lemma WinTakes(c: Race, s: State, p: nat)
    requires p in c.keys && p !in c.holders && At(s, p).Decided? && At(s, p).version == s.version
    requires RunnerOk(c, s, p, At(s, p)) && c.last < c.first + c.ttl
    ensures var s', r := DoUpdate(s, p), Slot(c, p, At(s, p).now);
            && s'.st == s.st.(reservations := s.st.reservations + [r]) && s'.version == s.version + 1
            && Lasts(c, r) && Tally(s'.st, c.last) == Tally(s.st, c.last) + 1 && Tally(s.st, c.last) < c.limit
            && s'.procs == s.procs[p := At(s', p)] && At(s', p).Granted?
            && Winners(s') == Winners(s) + {p} && Takers(c, s') == Takers(c, s) + {p} && p !in Takers(c, s)
  {
    UnexpiredAppend(s.st.reservations, Slot(c, p, At(s, p).now), c.last);
  }

  lemma WinKeepsProcs(c: Race, s: State, s': State, p: nat, r: Reservation)
    requires Fair(c) && RaceInv(c, s) && p in c.keys && p !in c.holders
    requires s'.st == s.st.(reservations := s.st.reservations + [r]) && s'.version == s.version + 1
    requires Tally(s'.st, c.last) == Tally(s.st, c.last) + 1
    requires r.key == c.keys[p] && Lasts(c, r)
    requires s'.procs == s.procs[p := At(s', p)] && At(s', p).Granted?
    ensures forall q :: q in s'.procs ==> ProcOk(c, s', q, s'.procs[q])
  {
    forall q | q in s'.procs ensures ProcOk(c, s', q, s'.procs[q]) {
      if q != p {
        assert ProcOk(c, s, q, s.procs[q]);
        WinKeepsProc(c, s, s', p, r, q, s.procs[q]);
      }
    }
  }

  lemma WinKeepsLedger(c: Race, s: State, s': State, p: nat, r: Reservation)
    requires Fair(c) && LedgerOk(c, s) && p in c.keys && p !in Takers(c, s)
    requires s'.st == s.st.(reservations := s.st.reservations + [r])
    requires Tally(s'.st, c.last) == Tally(s.st, c.last) + 1
    requires r.key == c.keys[p] && Lasts(c, r) && s'.version == s.version + 1
    requires Tally(s.st, c.last) < c.limit
    requires Winners(s') == Winners(s) + {p} && Takers(c, s') == Takers(c, s) + {p}
    ensures LedgerOk(c, s')
  {
  }

  lemma WinKeepsProc(c: Race, s: State, s': State, p: nat, r: Reservation, q: nat, pr: Proc)
    requires Fair(c) && p in c.keys && q != p && ProcOk(c, s, q, pr)
    requires s'.st == s.st.(reservations := s.st.reservations + [r])
    requires Tally(s'.st, c.last) == Tally(s.st, c.last) + 1
    requires r.key == c.keys[p] && Lasts(c, r) && s'.version == s.version + 1
    ensures ProcOk(c, s', q, pr)
  {
  }

  /** A successful sweep changes neither the winners nor anything they count on. */
  lemma SweepInRace(c: Race, s: State, p: nat)
    requires Fair(c) && RaceInv(c, s) && p !in c.keys
    requires At(s, p).Decided? && At(s, p).version == s.version
    ensures RaceInv(c, Put(Commit(s, p), p, Idle))
  {
    var s' := Put(Commit(s, p), p, Idle);
    assert ProcOk(c, s, p, s.procs[p]);
    SweptIsSteady(c, s.st, At(s, p).now);
    assert Winners(s') == Winners(s) && Takers(c, s') == Takers(c, s);
    forall q | q in s'.procs ensures ProcOk(c, s', q, s'.procs[q]) {
      if q != p {
        assert ProcOk(c, s, q, s.procs[q]);
        SweepKeepsProc(c, s, s', q, s.procs[q]);
      }
    }
  }

  lemma SweepKeepsProc(c: Race, s: State, s': State, q: nat, pr: Proc)
    requires ProcOk(c, s, q, pr)
    requires s'.st.confirmed == s.st.confirmed && Tally(s'.st, c.last) == Tally(s.st, c.last)
    requires forall r :: r in s'.st.reservations ==> r in s.st.reservations
    requires s'.version == s.version + 1
    ensures ProcOk(c, s', q, pr)
  {
  }

  /** Beginning, reading and giving up, and what a sweep decides, touch no reservation. */
  lemma MovesInRace(c: Race, s: State, step: Step)
    requires Fair(c) && RaceInv(c, s) && RaceStep(c, s, step)
    requires !step.Tick? && !step.Update? && !step.UpdateReplyLost? && (step.Decide? ==> step.p !in c.keys)
    ensures RaceInv(c, Do(s, step))
  {
    assert step.p in s.procs ==> ProcOk(c, s, step.p, s.procs[step.p]);
    ProcMoves(c, s, Do(s, step), step.p);
  }

  lemma RaceStepKeepsInv(c: Race, s: State, step: Step)
    requires Fair(c) && RaceInv(c, s) && RaceStep(c, s, step)
    ensures RaceInv(c, Do(s, step))
  {
    if step.Tick? {
      assert Winners(Do(s, step)) == Winners(s) && Takers(c, Do(s, step)) == Takers(c, s);
      assert forall p :: p in s.procs ==> ProcOk(c, s, p, s.procs[p]);
    } else if step.Decide? && step.p in c.holders {
      HolderDecides(c, s, step.p, step.now, step.held);
    } else if step.Decide? && step.p in c.keys {
      ContestantDecides(c, s, step.p, step.now, step.held);
    } else if !(step.Update? || step.UpdateReplyLost?) {
      MovesInRace(c, s, step);
    } else {
      assert ProcOk(c, s, step.p, s.procs[step.p]);
      if At(s, step.p).version != s.version {
        ProcMoves(c, s, Do(s, step), step.p);
      } else if step.p in c.keys {
        WinInRace(c, s, step.p);
      } else {
        SweepInRace(c, s, step.p);
      }
    }
  }

  lemma {:induction false} RaceKeepsInv(c: Race, s: State, steps: seq<Step>, end: State)
    requires Fair(c) && RaceInv(c, s) && RaceRun(c, s, steps, end)
    ensures RaceInv(c, end)
    decreases |steps|
  {
    if steps != [] {
      RaceStepKeepsInv(c, s, steps[0]);
      RaceKeepsInv(c, Do(s, steps[0]), steps[1..], end);
    }
  }

  // ---- the result ----

  function Min(a: int, b: int): int {
    if a < b then a else b
  }

  lemma OverIsCounted(c: Race, s: State)
    requires RaceInv(c, s) && Over(c, s) && c.holders <= c.keys.Keys
    ensures c.holders <= Winners(s)
    ensures Losers(s) == {} ==> Winners(s) == c.keys.Keys
    ensures Losers(s) != {} ==> Tally(s.st, c.last) >= c.limit
  {
    forall p | p in Winners(s) + Losers(s) ensures p in c.keys {
      assert ProcOk(c, s, p, s.procs[p]);
    }
    forall p | p in c.keys ensures p in Winners(s) + Losers(s) && (p in c.holders ==> p in Winners(s)) {
      assert At(s, p).Granted? || At(s, p).Refused?;
      assert ProcOk(c, s, p, s.procs[p]);
    }
    if p :| p in Losers(s) {
      assert ProcOk(c, s, p, s.procs[p]);
    }
  }

  lemma StartIsOk(c: Race, s: State)
    requires Fair(c) && Starts(c, s)
    ensures RaceInv(c, s)
  {
    assert Winners(s) == {} && Takers(c, s) == {};
  }

  /** Of n requests for different keys, all answered, the h whose key is reserved already are granted, and
      of the others exactly min(n - h, max(0, limit - used)), however their steps interleave with one
      another and with sweeps. */
  lemma ExactlyTheLimit(c: Race, s: State, steps: seq<Step>, end: State)
    requires Fair(c) && Starts(c, s) && RaceRun(c, s, steps, end) && Over(c, end)
    ensures c.holders <= Winners(end)
    ensures |Winners(end)|
            == |c.holders| + Min(|c.keys| - |c.holders|, Max(0, c.limit - Used(c.start, c.last)))
  {
    StartIsOk(c, s);
    RaceKeepsInv(c, s, steps, end);
    OverIsCounted(c, end);
    WinnersFit(c, end);
    WinnersSplit(c, end);
    UsedAtStart(c);
    AddUp(|c.keys|, |c.holders|, |Takers(c, end)|, Tally(c.start, c.last), c.limit, Losers(end) == {});
  }

  lemma UsedAtStart(c: Race)
    requires Tally(c.start, c.last) <= MAX_INT32
    ensures Used(c.start, c.last) == Tally(c.start, c.last)
  {
  }

  lemma WinnersSplit(c: Race, s: State)
    requires c.holders <= Winners(s)
    ensures |Winners(s)| == |c.holders| + |Takers(c, s)|
  {
    assert Winners(s) == c.holders + Takers(c, s) && c.holders !! Takers(c, s);
  }

  lemma AddUp(n: nat, h: nat, t: nat, used: int, limit: int, nobodyRefused: bool)
    requires h + t <= n && (t > 0 ==> used + t <= limit)
    requires if nobodyRefused then h + t == n else used + t >= limit
    ensures t == Min(n - h, Max(0, limit - used))
  {
  }
}
