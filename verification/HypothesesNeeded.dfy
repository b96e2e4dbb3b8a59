/**
 Each hypothesis of the no-overshoot theorem is needed: for each there is a short run that breaks only
 that hypothesis and ends with one live object more than the limit, which is 1, or for the width of the
 counter the largest limit there is.
 */
module HypothesesNeeded {
  import opened Accounting
  import opened QuotaStore
  import opened Protocol
  import opened NoOvershoot

  datatype Hypothesis = Timeliness | FreshNames | UidOnce | Forward | Width | Nothing

  function Limit(h: Hypothesis): Int32 {
    if h == Width then MAX_INT32 else 1
  }

  /** The step is possible, any reservation it starts has the run's limit, and it meets every
      hypothesis except, perhaps, h; with Nothing for h it meets them all. */
  ghost predicate AllBut(s: State, step: Step, h: Hypothesis) {
    && Enabled(s, step) && (step.BeginReserve? ==> step.limit == Limit(h))
    && (InTime(s, step) || h == Timeliness)
    && (NoStaleName(s, step) || h == FreshNames)
    && (OneObjectPerUid(s, step) || h == UidOnce)
    && (ForwardOnly(s, step) || h == Forward)
    && (CountFits(s, step) || h == Width)
  }

  ghost predicate Leads(s: State, steps: seq<Step>, h: Hypothesis, end: State)
    decreases |steps|
  {
    if steps == [] then s == end
    else AllBut(s, steps[0], h) && Leads(Do(s, steps[0]), steps[1..], h, end)
  }

  lemma {:induction false} LeadsOn(a: State, x: seq<Step>, b: State, y: seq<Step>, c: State, h: Hypothesis)
    requires Leads(a, x, h, b) && Leads(b, y, h, c)
    ensures Leads(a, x + y, h, c)
    decreases |x|
  {
    if x == [] {
      assert x + y == y;
    } else {
      LeadsOn(Do(a, x[0]), x[1..], b, y, c, h);
      assert (x + y)[1..] == x[1..] + y;
    }
  }

  /** Some steps lead from a to b. */
  ghost predicate Reaches(a: State, h: Hypothesis, b: State) {
    exists steps :: Leads(a, steps, h, b)
  }

  lemma ReachesOn(a: State, b: State, c: State, h: Hypothesis)
    requires Reaches(a, h, b) && Reaches(b, h, c)
    ensures Reaches(a, h, c)
  {
    var x :| Leads(a, x, h, b);
    var y :| Leads(b, y, h, c);
    LeadsOn(a, x, b, y, c, h);
  }

  lemma OneStep(s: State, step: Step, h: Hypothesis)
    requires AllBut(s, step, h)
    ensures Reaches(s, h, Do(s, step))
  {
    assert [step][1..] == [];
    assert Leads(s, [step], h, Do(s, step));
  }

  /** Runs are built by adding steps at the end. */
  lemma Then(s: State, at: State, step: Step, h: Hypothesis)
    requires Reaches(s, h, at) && AllBut(at, step, h)
    ensures Reaches(s, h, Do(at, step))
  {
    OneStep(at, step, h);
    ReachesOn(s, at, Do(at, step), h);
  }

  // ---- stretches of a run ----

  /** Process p starts a reservation and reads the ledger. */
  lemma Reads(s: State, p: nat, m: Mutation, h: Hypothesis)
    requires p != RECONCILER && At(s, p).Idle? && s.version != 0 && m.MReserve? && m.limit == Limit(h)
    ensures Reaches(s, h, Put(s, p, Got(m, s.st, s.version, Oldest(s))))
  {
    var s1 := Put(s, p, Trying(m));
    OneStep(s, BeginReserve(p, m.key, m.limit, m.ttl), h);
    assert Do(s1, Get(p)) == Put(s, p, Got(m, s.st, s.version, Oldest(s)));
    Then(s, s1, Get(p), h);
  }

  /** The ledger and the process after a new reservation. */
  function Granting(s: State, p: nat, key: string, ttl: int, since: nat, h: Hypothesis): State {
    Put(s, p, Granted(key, s.clock + ttl, since))
      .(version := s.version + 1, cap := Max(s.cap, Limit(h)),
        st := s.st.(reservations := s.st.reservations + [Reservation(key, s.clock + ttl)]))
  }

  lemma DecidesToAdd(s: State, p: nat, m: Mutation, since: nat, h: Hypothesis, out: Status)
    requires p != RECONCILER && m.MReserve? && At(s, p) == Got(m, s.st, s.version, since)
    requires Tally(s.st, s.clock) <= MAX_INT32 || h == Width
    requires !Holds(s.st, m.key, s.clock) && Used(s.st, s.clock) < m.limit
    requires out == s.st.(reservations := s.st.reservations + [Reservation(m.key, s.clock + m.ttl)])
    ensures Reaches(s, h, Put(s, p, Decided(m, out, s.version, since, s.clock)))
  {
    OneStep(s, Decide(p, s.clock, Reservation("", 0)), h);
  }

  /** ... decides to add a reservation, and writes it with nobody in between. */
  lemma Writes(s: State, p: nat, m: Mutation, since: nat, h: Hypothesis)
    requires p != RECONCILER && m.MReserve? && m.limit == Limit(h) && At(s, p) == Got(m, s.st, s.version, since)
    requires Tally(s.st, s.clock) <= MAX_INT32 || h == Width
    requires !Holds(s.st, m.key, s.clock) && Used(s.st, s.clock) < Limit(h)
    ensures Reaches(s, h, Granting(s, p, m.key, m.ttl, since, h))
  {
    var out := s.st.(reservations := s.st.reservations + [Reservation(m.key, s.clock + m.ttl)]);
    var s1 := Put(s, p, Decided(m, out, s.version, since, s.clock));
    DecidesToAdd(s, p, m, since, h, out);
    assert DoUpdate(s1, p) == Granting(s, p, m.key, m.ttl, since, h);
    Then(s, s1, Update(p), h);
  }

  /** Process p reserves a slot at the present instant. */
  lemma Reserves(s: State, p: nat, key: string, ttl: int, h: Hypothesis)
    requires p != RECONCILER && At(s, p).Idle? && s.version != 0
    requires Tally(s.st, s.clock) <= MAX_INT32 || h == Width
    requires !Holds(s.st, key, s.clock) && Used(s.st, s.clock) < Limit(h)
    ensures Reaches(s, h, Granting(s, p, key, ttl, Oldest(s), h))
  {
    var m := MReserve(key, Limit(h), ttl);
    var s1 := Put(s, p, Got(m, s.st, s.version, Oldest(s)));
    Reads(s, p, m, h);
    Writes(s1, p, m, Oldest(s), h);
    assert Granting(s1, p, key, ttl, Oldest(s), h) == Granting(s, p, key, ttl, Oldest(s), h);
    ReachesOn(s, s1, Granting(s, p, key, ttl, Oldest(s), h), h);
  }

  /** Process p asks again for a key that is still reserved; nothing is written. */
  lemma ReservesAgain(s: State, p: nat, key: string, ttl: int, held: Reservation, h: Hypothesis)
    requires p != RECONCILER && At(s, p).Idle? && s.version != 0
    requires Tally(s.st, s.clock) <= MAX_INT32
    requires held in s.st.reservations && held.key == key && held.expiresAt > s.clock
    ensures Reaches(s, h, Put(s, p, Granted(key, held.expiresAt, Oldest(s))))
  {
    var m := MReserve(key, Limit(h), ttl);
    var s1 := Put(s, p, Got(m, s.st, s.version, Oldest(s)));
    Reads(s, p, m, h);
    assert Holds(s.st, key, s.clock);
    assert Do(s1, Decide(p, s.clock, held)) == Put(s, p, Granted(key, held.expiresAt, Oldest(s)));
    Then(s, s1, Decide(p, s.clock, held), h);
  }

  /** The reconciler lists what the informer has seen and reads the ledger. */
  lemma FoldStarts(s: State, keys: seq<string>, h: Hypothesis)
    requires Enabled(s, List(keys)) && s.version != 0
    ensures Reaches(s, h, Put(s, RECONCILER, Got(MFold(keys), s.st, s.version, s.seen)).(listing := s.seen))
  {
    var s1 := Do(s, List(keys));
    OneStep(s, List(keys), h);
    assert Do(s1, Get(RECONCILER))
        == Put(s, RECONCILER, Got(MFold(keys), s.st, s.version, s.seen)).(listing := s.seen);
    Then(s, s1, Get(RECONCILER), h);
  }

  /** The reconciler writes the fold of its listing. */
  lemma FoldEnds(s: State, keys: seq<string>, since: nat, h: Hypothesis)
    requires At(s, RECONCILER) == Got(MFold(keys), s.st, s.version, since)
    requires ComputeConfirmed(s.st, keys) != s.st
    ensures Reaches(s, h, Put(s, RECONCILER, Idle)
              .(version := s.version + 1, st := ComputeConfirmed(s.st, keys), snap := s.listing))
  {
    var out := ComputeConfirmed(s.st, keys);
    var s1 := Put(s, RECONCILER, Decided(MFold(keys), out, s.version, since, s.clock));
    OneStep(s, Decide(RECONCILER, s.clock, Reservation("", 0)), h);
    assert Do(s1, Update(RECONCILER))
        == Put(s, RECONCILER, Idle).(version := s.version + 1, st := out, snap := s.listing);
    Then(s, s1, Update(RECONCILER), h);
  }

  /** The reconciler is shown a moment without objects, lists it and writes the fold. */
  lemma FoldsNothing(s: State, moment: nat, h: Hypothesis)
    requires AllBut(s, Sync(moment), h) && s.hist[moment] == {}
    requires At(s, RECONCILER).Idle? && s.version != 0 && s.st.reservations == [] && s.st.confirmed != 0
    ensures Reaches(s, h, Put(s, RECONCILER, Idle)
              .(version := s.version + 1, st := EMPTY, seen := moment, listing := moment, snap := moment))
  {
    var s1 := s.(seen := moment);
    OneStep(s, Sync(moment), h);
    assert KeySet([]) == Names({});
    var s2 := Put(s1, RECONCILER, Got(MFold([]), s.st, s.version, moment)).(listing := moment);
    FoldStarts(s1, [], h);
    ReachesOn(s, s1, s2, h);
    var s3 := Put(s, RECONCILER, Idle)
              .(version := s.version + 1, st := EMPTY, seen := moment, listing := moment, snap := moment);
    FoldEnds(s2, [], moment, h);
    assert Put(s2, RECONCILER, Idle)
           .(version := s2.version + 1, st := ComputeConfirmed(s2.st, []), snap := s2.listing) == s3;
    ReachesOn(s, s2, s3, h);
  }

  /** What every example shows: at most the limit to begin with, one more at the end. */
  ghost predicate Overshoots(s: State, h: Hypothesis, end: State) {
    Reaches(s, h, end) && |Live(s)| <= Limit(h) && |Live(end)| == Limit(h) + 1
  }

  /** Some run from a proper start breaks only h and overshoots. */
  ghost predicate Needed(h: Hypothesis) {
    exists s, end :: Init(s) && Overshoots(s, h, end)
  }

  const START := State(0, 1, EMPTY, [{}], 0, 0, 0, 0, map[])

  // ---- small ledgers ----

  lemma NoneCounted(st: Status, key: string, now: int)
    requires st.reservations == []
    ensures Used(st, now) == st.confirmed && !Holds(st, key, now)
  {
  }

  lemma ExpiredNotCounted(st: Status, key: string, r: Reservation, now: int)
    requires st.reservations == [r] && r.expiresAt <= now
    ensures Used(st, now) == st.confirmed && !Holds(st, key, now)
  {
    assert [r][..0] == [];
  }

  lemma FoldOfOne(st: Status, r: Reservation)
    requires st.reservations == [r]
    ensures ComputeConfirmed(st, [r.key]) == Status(1, [])
  {
    assert r.key in KeySet([r.key]);
    assert [r][..0] == [];
  }

  // ---- the runs ----

  lemma MayAppear(at: State, p: nat, name: string, o: Obj, h: Hypothesis)
    requires At(at, p).Granted? && At(at, p).key == name && at.clock < At(at, p).expiry
    requires at.hist != [] && Live(at) == {o} && o.token != name && o.name != name && !IsUid(name)
    requires Unlisted(at.hist, name, At(at, p).since)
    ensures AllBut(at, CreateObject(p, name), h)
  {
  }

  lemma TwoLive(end: State, at: State, o: Obj, b: Obj)
    requires Live(at) == {o} && o.token != b.token && end.hist == at.hist + [Live(at) + {b}]
    ensures |Live(end)| == 2
  {
    assert Live(end) == {o, b};
  }

  /** The last act of each run: with one object live and nothing counted, "b" is admitted. */
  lemma OneMore(s: State, at: State, o: Obj, h: Hypothesis) returns (end: State)
    requires Reaches(s, h, at) && |Live(s)| <= 1 && h != Width
    requires at.hist != [] && Live(at) == {o} && o.token != "b" && o.name != "b"
    requires at.version != 0 && At(at, 3).Idle? && Tally(at.st, at.clock) <= MAX_INT32
    requires Used(at.st, at.clock) == 0 && !Holds(at.st, "b", at.clock)
    requires Unlisted(at.hist, "b", Oldest(at))
    ensures Overshoots(s, h, end)
  {
    var s1 := Granting(at, 3, "b", 60, Oldest(at), h);
    Reserves(at, 3, "b", 60, h);
    ReachesOn(s, at, s1, h);
    MayAppear(s1, 3, "b", o, h);
    Then(s, s1, CreateObject(3, "b"), h);
    end := Do(s1, CreateObject(3, "b"));
    TwoLive(end, s1, o, Obj("b", "b", |s1.hist|, at.clock + 60));
  }

  // Timeliness: an object that is not folded before the recorded expiry.

  const A60 := Reservation("a", 60)
  const LAPSING := State(59, 2, Status(0, [A60]), [{}], 0, 0, 0, 1, map[1 := Idle])
  const AGAIN := LAPSING.(procs := map[1 := Idle, 2 := Granted("a", 60, 0)])
  const LATE := State(59, 2, Status(0, [A60]), [{}, {Obj("a", "a", 1, 60)}], 0, 0, 0, 1, map[1 := Idle, 2 := Idle])
  const LAPSED := LATE.(clock := 61)

  /** A request for "a" is granted and its process goes away; 59 ticks pass. */
  lemma Lapsing()
    ensures Reaches(START, Timeliness, LAPSING)
  {
    NoneCounted(EMPTY, "a", 0);
    var s1 := Granting(START, 1, "a", 60, 0, Timeliness);
    Reserves(START, 1, "a", 60, Timeliness);
    Then(START, s1, GiveUp(1), Timeliness);
    var s2 := Do(s1, GiveUp(1));
    Then(START, s2, Tick(59), Timeliness);
    assert Do(s2, Tick(59)) == LAPSING;
  }

  /** A second request for "a" is granted without renewing the expiry; the object appears at once, and
      two ticks later its reservation has expired. */
  lemma Lapsed()
    ensures Reaches(LAPSING, Timeliness, LAPSED)
  {
    ReservesAgain(LAPSING, 2, "a", 60, A60, Timeliness);
    assert Put(LAPSING, 2, Granted("a", 60, 0)) == AGAIN;
    assert Live(AGAIN) + {Obj("a", "a", 1, 60)} == {Obj("a", "a", 1, 60)};
    Then(LAPSING, AGAIN, CreateObject(2, "a"), Timeliness);
    assert Do(AGAIN, CreateObject(2, "a")) == LATE;
    Then(LAPSING, LATE, Tick(61), Timeliness);
  }

  /** The object is two ticks old, far less than the time to live, and no longer covered. */
  lemma TimelinessNeeded()
    ensures Needed(Timeliness)
  {
    Lapsing();
    Lapsed();
    ReachesOn(START, LAPSING, LAPSED, Timeliness);
    ExpiredNotCounted(LAPSED.st, "b", A60, 61);
    var end := OneMore(START, LAPSED, Obj("a", "a", 1, 60), Timeliness);
    assert Init(START) && Overshoots(START, Timeliness, end);
  }

  // Two stretches the next examples share: "a" is admitted, created and seen by the informer; then the
  // reconciler lists it and reads the ledger.

  const A100 := Reservation("a", 100)
  const FIRST_A := Obj("a", "a", 1, 100)
  const SECOND_A := Obj("a", "a", 3, 100)

  const ADMITTED := State(
    0, 2, Status(0, [A100]), [{}], 0, 0, 0, 1, map[1 := Granted("a", 100, 0)])

  const VISIBLE := State(
    0, 2, Status(0, [A100]), [{}, {FIRST_A}], 1, 0, 0, 1, map[1 := Idle])

  const LISTED := State(
    0, 2, Status(0, [A100]), [{}, {FIRST_A}], 1, 1, 0, 1,
    map[1 := Idle, 0 := Got(MFold(["a"]), Status(0, [A100]), 2, 1)])

  lemma BecomesAdmitted(h: Hypothesis)
    requires h != Width
    ensures Reaches(START, h, ADMITTED)
  {
    NoneCounted(EMPTY, "a", 0);
    Reserves(START, 1, "a", 100, h);
    assert Granting(START, 1, "a", 100, 0, h) == ADMITTED;
  }

  lemma BecomesVisible(h: Hypothesis)
    requires h != Width
    ensures Reaches(START, h, VISIBLE)
  {
    BecomesAdmitted(h);
    assert Live(ADMITTED) + {FIRST_A} == {FIRST_A};
    Then(START, ADMITTED, CreateObject(1, "a"), h);
    var s1 := VISIBLE.(seen := 0);
    assert Do(ADMITTED, CreateObject(1, "a")) == s1;
    Then(START, s1, Sync(1), h);
  }

  lemma BecomesListed(h: Hypothesis)
    requires h != Width
    ensures Reaches(START, h, LISTED)
  {
    BecomesVisible(h);
    assert KeySet(["a"]) == Names({FIRST_A});
    FoldStarts(VISIBLE, ["a"], h);
    assert Put(VISIBLE, 0, Got(MFold(["a"]), VISIBLE.st, 2, 1)).(listing := 1) == LISTED;
    ReachesOn(START, VISIBLE, LISTED, h);
  }

  // Fresh names: a name is used again while a fold still works from a listing that shows its first
  // object.

  /** "a" was created and listed, the fold has read the ledger, and "a" was deleted. */
  const STALE := State(
    0, 2, Status(0, [A100]), [{}, {FIRST_A}, {}], 1, 1, 0, 1,
    map[1 := Idle, 0 := Got(MFold(["a"]), Status(0, [A100]), 2, 1)])

  /** "a" was admitted again on its old reservation, which the fold then dropped. */
  const READMITTED := STALE.(procs := STALE.procs[1 := Granted("a", 100, 1)])

  const DROPPED := State(
    0, 3, Status(1, []), [{}, {FIRST_A}, {}], 1, 1, 1, 1,
    map[1 := Granted("a", 100, 1), 0 := Idle])

  /** The next fold finds nothing; then "a" appears and is not counted. */
  const EMPTIED := State(
    0, 4, EMPTY, [{}, {FIRST_A}, {}], 2, 2, 2, 1, map[1 := Granted("a", 100, 1), 0 := Idle])

  const UNCOUNTED := State(
    0, 4, EMPTY, [{}, {FIRST_A}, {}, {SECOND_A}], 2, 2, 2, 1, map[1 := Idle, 0 := Idle])

  lemma BecomesStale()
    ensures Reaches(START, FreshNames, STALE)
  {
    BecomesListed(FreshNames);
    Then(START, LISTED, DeleteObject(FIRST_A), FreshNames);
    assert {FIRST_A} - {FIRST_A} == {};
    assert Do(LISTED, DeleteObject(FIRST_A)) == STALE;
  }

  lemma BecomesDropped()
    ensures Reaches(STALE, FreshNames, DROPPED)
  {
    ReservesAgain(STALE, 1, "a", 100, A100, FreshNames);
    assert Put(STALE, 1, Granted("a", 100, 1)) == READMITTED;
    FoldOfOne(STALE.st, A100);
    FoldEnds(READMITTED, ["a"], 1, FreshNames);
    assert Put(READMITTED, 0, Idle).(version := 3, st := Status(1, []), snap := 1) == DROPPED;
    ReachesOn(STALE, READMITTED, DROPPED, FreshNames);
  }

  lemma BecomesUncounted()
    ensures Reaches(DROPPED, FreshNames, UNCOUNTED)
  {
    FoldsNothing(DROPPED, 2, FreshNames);
    assert Put(DROPPED, 0, Idle).(version := 4, st := EMPTY, seen := 2, listing := 2, snap := 2) == EMPTIED;
    assert Live(EMPTIED) + {SECOND_A} == {SECOND_A};
    Then(DROPPED, EMPTIED, CreateObject(1, "a"), FreshNames);
    assert Do(EMPTIED, CreateObject(1, "a")) == UNCOUNTED;
  }

  lemma FreshNamesNeeded()
    ensures Needed(FreshNames)
  {
    BecomesStale();
    BecomesDropped();
    ReachesOn(START, STALE, DROPPED, FreshNames);
    BecomesUncounted();
    ReachesOn(START, DROPPED, UNCOUNTED, FreshNames);
    NoneCounted(EMPTY, "b", 0);
    var end := OneMore(START, UNCOUNTED, SECOND_A, FreshNames);
    assert Init(START) && Overshoots(START, FreshNames, end);
  }

  // Forward: the informer's view goes back to a moment before the object.

  const FOLDED := State(
    0, 3, Status(1, []), [{}, {FIRST_A}], 1, 1, 1, 1, map[1 := Idle, 0 := Idle])

  const FORGOTTEN := State(
    0, 4, EMPTY, [{}, {FIRST_A}], 0, 0, 0, 1, map[1 := Idle, 0 := Idle])

  lemma BecomesForgotten()
    ensures Reaches(START, Forward, FORGOTTEN)
  {
    BecomesListed(Forward);
    FoldOfOne(LISTED.st, A100);
    FoldEnds(LISTED, ["a"], 1, Forward);
    assert Put(LISTED, 0, Idle).(version := 3, st := Status(1, []), snap := 1) == FOLDED;
    ReachesOn(START, LISTED, FOLDED, Forward);
    FoldsNothing(FOLDED, 0, Forward);
    assert Put(FOLDED, 0, Idle).(version := 4, st := EMPTY, seen := 0, listing := 0, snap := 0) == FORGOTTEN;
    ReachesOn(START, FOLDED, FORGOTTEN, Forward);
  }

  lemma ForwardNeeded()
    ensures Needed(Forward)
  {
    BecomesForgotten();
    NoneCounted(EMPTY, "b", 0);
    var end := OneMore(START, FORGOTTEN, FIRST_A, Forward);
    assert Init(START) && Overshoots(START, Forward, end);
  }

  // One object per UID: the same request UID admits two objects on one slot.

  const U := "uid:1"
  const U100 := Reservation(U, 100)

  const FIRST_U := Obj(U, "x", 1, 100)

  const ONCE := State(0, 2, Status(0, [U100]), [{}], 0, 0, 0, 1, map[1 := Granted(U, 100, 0)])
  const BOTH := ONCE.(procs := map[1 := Granted(U, 100, 0), 2 := Granted(U, 100, 0)])
  const TWICE := State(
    0, 2, Status(0, [U100]), [{}, {FIRST_U}], 0, 0, 0, 1, map[1 := Idle, 2 := Granted(U, 100, 0)])

  lemma BecomesOnce()
    ensures Reaches(START, UidOnce, ONCE)
  {
    NoneCounted(EMPTY, U, 0);
    Reserves(START, 1, U, 100, UidOnce);
    assert Granting(START, 1, U, 100, 0, UidOnce) == ONCE;
  }

  lemma CountOfOne(st: Status, r: Reservation, now: int)
    requires st == Status(0, [r])
    ensures Tally(st, now) <= 1
  {
  }

  lemma BecomesBoth()
    ensures Reaches(START, UidOnce, BOTH)
  {
    BecomesOnce();
    CountOfOne(ONCE.st, U100, 0);
    ReservesAgain(ONCE, 2, U, 100, U100, UidOnce);
    assert Put(ONCE, 2, Granted(U, 100, 0)) == BOTH;
    ReachesOn(START, ONCE, BOTH, UidOnce);
  }

  lemma BecomesTwice()
    ensures Reaches(START, UidOnce, TWICE)
  {
    BecomesBoth();
    assert Live(BOTH) + {FIRST_U} == {FIRST_U};
    Then(START, BOTH, CreateObject(1, "x"), UidOnce);
    assert Do(BOTH, CreateObject(1, "x")) == TWICE;
  }

  lemma UidOnceNeeded()
    ensures Needed(UidOnce)
  {
    BecomesTwice();
    UidMayAppear(TWICE, 2, U, "y", FIRST_U);
    Then(START, TWICE, CreateObject(2, "y"), UidOnce);
    var end := Do(TWICE, CreateObject(2, "y"));
    assert Live(end) == {FIRST_U, Obj(U, "y", 2, 100)};
    assert Init(START) && Overshoots(START, UidOnce, end);
  }

  lemma UidMayAppear(at: State, p: nat, uid: string, name: string, o: Obj)
    requires At(at, p).Granted? && At(at, p).key == uid && at.clock < At(at, p).expiry
    requires at.hist != [] && Live(at) == {o} && o.name != name && !IsUid(name) && IsUid(uid)
    requires Unlisted(at.hist, uid, At(at, p).since)
    ensures AllBut(at, CreateObject(p, name), UidOnce)
  {
  }

  // The starting ledger: Apply creates it with nothing confirmed.

  const PREEXISTING := State(0, 1, EMPTY, [{Obj("x", "x", 0, 0)}], 0, 0, 0, 0, map[])

  lemma {:induction false} LeadsIsRun(s: State, steps: seq<Step>, end: State)
    requires Leads(s, steps, Nothing, end)
    ensures Run(s, steps) && End(s, steps) == end
    ensures forall step :: step in steps && step.BeginReserve? ==> step.limit == 1
    decreases |steps|
  {
    if steps != [] {
      LeadsIsRun(Do(s, steps[0]), steps[1..], end);
      assert steps == [steps[0]] + steps[1..];
    }
  }

  /** With an object from before the ledger, which a fresh ledger does not count, a run with limit 1
      passes the limit although every step meets every hypothesis. */
  lemma CountedStartNeeded() returns (steps: seq<Step>)
    ensures Init(PREEXISTING.(st := Status(1, []), cap := 1))
    ensures Run(PREEXISTING, steps)
    ensures forall step :: step in steps && step.BeginReserve? ==> step.limit == 1
    ensures |Live(PREEXISTING)| == 1 && |Live(End(PREEXISTING, steps))| == 2
  {
    NoneCounted(EMPTY, "b", 0);
    assert Leads(PREEXISTING, [], Nothing, PREEXISTING);
    var end := OneMore(PREEXISTING, PREEXISTING, Obj("x", "x", 0, 0), Nothing);
    steps :| Leads(PREEXISTING, steps, Nothing, end);
    LeadsIsRun(PREEXISTING, steps, end);
  }

  // Width: one object short of what 32 bits can count, a generateName request is granted, and the fold
  // counts its object beside its unexpired reservation. The sum wraps below every limit.

  const CROWD: nat := MAX_INT32 - 1

  function Nth(i: nat): string {
    seq(i, _ => 'n')
  }

  function Crowd(n: nat): set<Obj> {
    set i: nat | i < n :: Obj(Nth(i), Nth(i), 0, 0)
  }

  lemma {:induction false} CrowdCount(n: nat)
    ensures |Crowd(n)| == n
  {
    if n > 0 {
      var o := Obj(Nth(n - 1), Nth(n - 1), 0, 0);
      assert Crowd(n) == Crowd(n - 1) + {o};
      assert o !in Crowd(n - 1) by {
        assert forall i: nat :: i < n - 1 ==> |Nth(i)| != |Nth(n - 1)|;
      }
      CrowdCount(n - 1);
    }
  }

  const NEWCOMER := Obj(U, "x", 1, 100)

  /** Everybody's name once. */
  function Roll(n: nat): seq<string> {
    ["x"] + seq(n, i requires 0 <= i => Nth(i))
  }

  lemma RollCall(n: nat)
    ensures |Roll(n)| == |Crowd(n) + {NEWCOMER}| == n + 1
    ensures KeySet(Roll(n)) == Names(Crowd(n) + {NEWCOMER})
  {
    CrowdCount(n);
    assert NEWCOMER !in Crowd(n);
    var objs := Crowd(n) + {NEWCOMER};
    forall k ensures k in Roll(n) <==> k in Names(objs) {
      if k in Roll(n) && k != "x" {
        var i :| 0 <= i < n && Nth(i) == k;
        assert Obj(k, k, 0, 0) in objs;
      }
      if k == "x" {
        assert NEWCOMER in objs && Roll(n)[0] == k;
      }
      if k in Names(objs) && k != "x" {
        var i: nat :| i < n && Nth(i) == k;
        assert Roll(n)[i + 1] == k;
      }
    }
  }

  /** Nobody in the crowd has a name that the run uses. */
  lemma CrowdNames(n: nat)
    ensures Names(Crowd(n)) == Tokens(Crowd(n))
    ensures forall k :: k in Names(Crowd(n)) ==> k != "x" && k != "b" && !IsUid(k)
  {
    forall k | k in Names(Crowd(n)) ensures k != "x" && k != "b" && !IsUid(k) {
      var i: nat :| i < n && Nth(i) == k;
      assert i == 0 || k[0] == 'n';
    }
  }

  const EVERYBODY := Crowd(CROWD) + {NEWCOMER}

  const CROWDED := State(0, 1, Status(CROWD, []), [Crowd(CROWD)], 0, 0, 0, CROWD, map[])

  const EXPECTING := State(0, 2, Status(CROWD, [U100]), [Crowd(CROWD)], 0, 0, 0, MAX_INT32,
                           map[1 := Granted(U, 100, 0)])

  const FULL := State(0, 2, Status(CROWD, [U100]), [Crowd(CROWD), EVERYBODY], 1, 0, 0, MAX_INT32,
                      map[1 := Idle])

  const WRAPPED := State(0, 3, Status(MAX_INT32, [U100]), [Crowd(CROWD), EVERYBODY], 1, 1, 1, MAX_INT32,
                         map[1 := Idle, 0 := Idle])

  lemma EverybodysNames()
    ensures "b" !in Names(EVERYBODY) && U !in Names(EVERYBODY)
    ensures "b" !in Tokens(EVERYBODY)
    ensures |EVERYBODY| == MAX_INT32
  {
    CrowdNames(CROWD);
    RollCall(CROWD);
    forall o | o in EVERYBODY ensures o.name != "b" && o.name != U && o.token != "b" {
      if o != NEWCOMER {
        assert o.name in Names(Crowd(CROWD)) && o.token in Tokens(Crowd(CROWD));
      }
    }
  }

  lemma CrowdedIsInit()
    ensures Init(CROWDED)
  {
    CrowdCount(CROWD);
    CrowdNames(CROWD);
  }

  lemma BecomesExpecting()
    ensures Reaches(CROWDED, Width, EXPECTING)
  {
    NoneCounted(CROWDED.st, U, 0);
    Reserves(CROWDED, 1, U, 100, Width);
    assert Granting(CROWDED, 1, U, 100, 0, Width) == EXPECTING;
  }

  lemma NewcomerMayAppear()
    ensures AllBut(EXPECTING, CreateObject(1, "x"), Width)
  {
    CrowdNames(CROWD);
    assert Live(EXPECTING) == Crowd(CROWD);
  }

  lemma BecomesFull()
    ensures Reaches(EXPECTING, Width, FULL)
  {
    NewcomerMayAppear();
    OneStep(EXPECTING, CreateObject(1, "x"), Width);
    var s1 := FULL.(seen := 0);
    assert Do(EXPECTING, CreateObject(1, "x")) == s1;
    Then(EXPECTING, s1, Sync(1), Width);
  }

  lemma FoldOfEverybody(keys: seq<string>)
    requires keys == Roll(CROWD)
    ensures |keys| == |EVERYBODY| == MAX_INT32 && KeySet(keys) == Names(EVERYBODY)
    ensures ComputeConfirmed(FULL.st, keys) == WRAPPED.st
  {
    RollCall(CROWD);
    EverybodysNames();
    NothingToDrop([U100], 0, KeySet(keys));
  }

  lemma BecomesWrapped()
    ensures Reaches(FULL, Width, WRAPPED)
  {
    var keys := Roll(CROWD);
    FoldOfEverybody(keys);
    var s1 := Put(FULL, RECONCILER, Got(MFold(keys), FULL.st, 2, 1)).(listing := 1);
    FoldStarts(FULL, keys, Width);
    FoldEnds(s1, keys, 1, Width);
    assert Put(s1, RECONCILER, Idle).(version := 3, st := WRAPPED.st, snap := 1) == WRAPPED;
    ReachesOn(FULL, s1, WRAPPED, Width);
  }

  lemma OneOver(st: Status)
    requires st.confirmed == MAX_INT32 && st.reservations == [U100]
    ensures Tally(st, 0) == MAX_INT32 + 1
  {
    NothingToDrop([U100], 0, {});
  }

  lemma OnlyUidHeld(st: Status)
    requires st.reservations == [U100]
    ensures !Holds(st, "b", 0)
  {
    assert U100.key[0] == 'u' && "b"[0] == 'b';
  }

  lemma WrappedStillGrants(st: Status)
    requires st.confirmed == MAX_INT32 && st.reservations == [U100]
    ensures Used(st, 0) < MAX_INT32 && !Holds(st, "b", 0)
  {
    OneOver(st);
    assert Wrap32(MAX_INT32 + 1) == MIN_INT32;
    OnlyUidHeld(st);
  }

  const OVERDRAWN := WRAPPED.(version := 4, st := Status(MAX_INT32, [U100, Reservation("b", 60)]),
                              procs := WRAPPED.procs[3 := Granted("b", 60, 1)])

  lemma BecomesOverdrawn()
    ensures Reaches(WRAPPED, Width, OVERDRAWN)
  {
    WrappedStillGrants(WRAPPED.st);
    Reserves(WRAPPED, 3, "b", 60, Width);
    assert Granting(WRAPPED, 3, "b", 60, 1, Width) == OVERDRAWN;
  }

  lemma LastMayAppear()
    ensures AllBut(OVERDRAWN, CreateObject(3, "b"), Width)
  {
    EverybodysNames();
    assert Live(OVERDRAWN) == EVERYBODY;
  }

  /** A ledger that holds the largest limit in objects, and a reservation beside them, grants again. */
  lemma WidthNeeded()
    ensures Needed(Width)
  {
    CrowdedIsInit();
    CrowdCount(CROWD);
    BecomesExpecting();
    BecomesFull();
    ReachesOn(CROWDED, EXPECTING, FULL, Width);
    BecomesWrapped();
    ReachesOn(CROWDED, FULL, WRAPPED, Width);
    BecomesOverdrawn();
    ReachesOn(CROWDED, WRAPPED, OVERDRAWN, Width);
    LastMayAppear();
    Then(CROWDED, OVERDRAWN, CreateObject(3, "b"), Width);
    var end, last := Do(OVERDRAWN, CreateObject(3, "b")), Obj("b", "b", 2, 60);
    EverybodysNames();
    assert last !in EVERYBODY by { assert last in EVERYBODY ==> "b" in Names(EVERYBODY); }
    assert Live(end) == EVERYBODY + {last};
    assert Init(CROWDED) && Overshoots(CROWDED, Width, end);
  }

  // ---- altogether ----

  lemma NothingMissingNoOvershoot(s: State, end: State)
    requires Init(s)
    ensures !Overshoots(s, Nothing, end)
  {
    if Overshoots(s, Nothing, end) {
      var steps :| Leads(s, steps, Nothing, end);
      LeadsIsRun(s, steps, end);
      LimitIsNeverExceeded(s, steps, 1);
    }
  }

  /** A run from a proper start can pass the limit by breaking any one hypothesis alone, and by breaking
      none it cannot. */
  lemma EachHypothesisIsNeeded(h: Hypothesis)
    ensures Needed(h) <==> h != Nothing
  {
    match h
    case Timeliness => TimelinessNeeded();
    case FreshNames => FreshNamesNeeded();
    case UidOnce => UidOnceNeeded();
    case Forward => ForwardNeeded();
    case Width => WidthNeeded();
    case Nothing =>
      if s, end :| Init(s) && Overshoots(s, Nothing, end) {
        NothingMissingNoOvershoot(s, end);
      }
  }
}
