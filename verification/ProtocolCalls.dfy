/**
 Calls of the compare-and-swap loop, seen from the protocol machine: what Apply promises of a call on a
 ledger with a given history is exactly what the steps of one process do while others write the other
 versions of that history.
 */
module ProtocolCalls {
  import opened Accounting
  import opened QuotaStore
  import opened Protocol

  /** A step of the process itself, or time passing and others writing on up to some version. */
  datatype Move = Own(step: Step) | Others(clock: int, version: nat)

  predicate StepOf(step: Step, p: nat) {
    match step
    case Get(q) => q == p
    case CreateLedger(q) => q == p
    case Decide(q, _, _) => q == p
    case Update(q) => q == p
    case UpdateReplyLost(q) => q == p
    case GiveUp(q) => q == p
    case _ => false
  }

  function Current(h: seq<Status>): Status {
    if h == [] then EMPTY else h[|h| - 1]
  }

  /** The ledger is at a version of h and holds what h says. */
  ghost predicate On(h: seq<Status>, s: State) {
    s.version <= |h| && s.st == Current(h[..s.version])
  }

  predicate Over(pr: Proc) {
    pr.Idle? || pr.Granted? || pr.Refused?
  }

  ghost predicate Possible(h: seq<Status>, s: State, mv: Move, p: nat) {
    match mv
    case Own(step) =>
      StepOf(step, p) && Enabled(s, step) && On(h, Do(s, step)) && (step.GiveUp? ==> !Over(At(s, p)))
    case Others(clock, version) => s.clock <= clock && s.version <= version <= |h|
  }

  function After(h: seq<Status>, s: State, mv: Move, p: nat): State
    requires Possible(h, s, mv, p)
  {
    match mv
    case Own(step) => Do(s, step)
    case Others(clock, version) => s.(clock := clock, version := version, st := Current(h[..version]))
  }

  /** The compare-and-swap of this move finds the version its process read. */
  ghost predicate Commits(s: State, mv: Move) {
    mv.Own? && (mv.step.Update? || mv.step.UpdateReplyLost?) && Enabled(s, mv.step)
    && At(s, mv.step.p).version == s.version
  }

  /** The moves lead from a to b along h, and writes are the versions the process writes on the way. */
  ghost predicate Moves(h: seq<Status>, a: State, mvs: seq<Move>, writes: seq<nat>, b: State, p: nat)
    decreases |mvs|
  {
    if mvs == [] then a == b && writes == []
    else
      && Possible(h, a, mvs[0], p)
      && if Commits(a, mvs[0]) then
           writes != [] && writes[0] == a.version + 1
           && Moves(h, After(h, a, mvs[0], p), mvs[1..], writes[1..], b, p)
         else Moves(h, After(h, a, mvs[0], p), mvs[1..], writes, b, p)
  }

  predicate Failing(mv: Move) {
    mv.Own? && (mv.step.GiveUp? || mv.step.UpdateReplyLost?)
  }

  /** The process gives up, or is left without the reply to its write. */
  predicate Fails(mvs: seq<Move>) {
    exists mv :: mv in mvs && Failing(mv)
  }

  // ---- a call on a history ----

  function Runner(m: Mutation): nat {
    if m.MFold? then RECONCILER else 1
  }

  /** The ledger with this history, at this time, and one process. */
  function World(h: seq<Status>, clock: int, m: Mutation, pr: Proc): State {
    State(clock, |h|, Current(h), [{}], 0, 0, 0, 0, map[Runner(m) := pr])
  }

  /** The process has its answer. */
  ghost predicate Answered(pr: Proc, m: Mutation, flag: bool) {
    if m.MReserve? then (if flag then pr.Granted? && pr.key == m.key else pr == Proc.Refused(m.key))
    else pr.Idle? && !flag
  }

  /** A call begun on h0, with h the history in the end, which does not fail and has this answer. */
  ghost predicate AnsweredCall(m: Mutation, h0: seq<Status>, h: seq<Status>, writes: seq<nat>, flag: bool) {
    exists clock, mvs, end ::
      && Moves(h, World(h0, clock, m, Trying(m)), mvs, writes, end, Runner(m)) && !Fails(mvs)
      && Answered(At(end, Runner(m)), m, flag)
  }

  ghost predicate FailedCall(m: Mutation, h0: seq<Status>, h: seq<Status>, writes: seq<nat>) {
    exists clock, mvs, end ::
      Moves(h, World(h0, clock, m, Trying(m)), mvs, writes, end, Runner(m)) && Fails(mvs)
  }

  // ---- what Apply promises is what a process does ----

  lemma {:induction false} MovesOn(
    h: seq<Status>, a: State, x: seq<Move>, u: seq<nat>, b: State, mv: Move, c: State, p: nat)
    requires Moves(h, a, x, u, b, p) && Possible(h, b, mv, p) && After(h, b, mv, p) == c
    ensures Moves(h, a, x + [mv], if Commits(b, mv) then u + [b.version + 1] else u, c, p)
    decreases |x|
  {
    if x == [] {
      assert [mv][1..] == [];
    } else {
      assert (x + [mv])[1..] == x[1..] + [mv];
      var a' := After(h, a, x[0], p);
      if Commits(a, x[0]) {
        MovesOn(h, a', x[1..], u[1..], b, mv, c, p);
        assert Commits(b, mv) ==> (u + [b.version + 1])[1..] == u[1..] + [b.version + 1];
      } else {
        MovesOn(h, a', x[1..], u, b, mv, c, p);
      }
    }
  }

  ghost predicate Quietly(h: seq<Status>, a: State, writes: seq<nat>, b: State, p: nat) {
    exists mvs :: Moves(h, a, mvs, writes, b, p) && !Fails(mvs)
  }

  lemma Then(h: seq<Status>, a: State, u: seq<nat>, b: State, mv: Move, c: State, p: nat)
    requires Quietly(h, a, u, b, p) && Possible(h, b, mv, p) && After(h, b, mv, p) == c
    requires !Failing(mv)
    ensures Quietly(h, a, if Commits(b, mv) then u + [b.version + 1] else u, c, p)
  {
    var x :| Moves(h, a, x, u, b, p) && !Fails(x);
    MovesOn(h, a, x, u, b, mv, c, p);
    assert !Fails(x + [mv]);
  }

  lemma StartsQuietly(h: seq<Status>, a: State, p: nat)
    ensures Quietly(h, a, [], a, p)
  {
    assert Moves(h, a, [], [], a, p) && !Fails([]);
  }

  /** The process has read version at, which was current. */
  function Reading(h: seq<Status>, at: nat, now: int, m: Mutation): State
    requires at <= |h|
  {
    World(h[..at], now, m, Got(m, Current(h[..at]), at, 0))
  }

  lemma ReadsVersion(h0: seq<Status>, h: seq<Status>, m: Mutation, at: nat, now: int)
    requires h0 <= h && |h0| <= at <= |h| && 1 <= at
    ensures Quietly(h, World(h0, now, m, Trying(m)), [], Reading(h, at, now, m), Runner(m))
  {
    var p, a, b := Runner(m), World(h0, now, m, Trying(m)), World(h[..at], now, m, Trying(m));
    StartsQuietly(h, a, p);
    Then(h, a, [], a, Others(now, at), b, p);
    assert Do(b, Get(p)) == Reading(h, at, now, m);
    Then(h, a, [], b, Own(Get(p)), Reading(h, at, now, m), p);
  }

  /** A reservation that answers a repeated request, if there is one. */
  ghost predicate Answers(m: Mutation, st: Status, now: int, held: Reservation) {
    m.MReserve? && Holds(st, m.key, now) ==> held in st.reservations && held.key == m.key && held.expiresAt > now
  }

  lemma SomeAnswer(m: Mutation, st: Status, now: int) returns (held: Reservation)
    ensures Answers(m, st, now, held)
  {
    held := Reservation("", 0);
    if m.MReserve? && Holds(st, m.key, now) {
      held :| held in st.reservations && held.key == m.key && held.expiresAt > now;
    }
  }

  lemma Decides(a: State, h: seq<Status>, m: Mutation, at: nat, now: int) returns (s: State)
    requires 1 <= at <= |h| && Quietly(h, a, [], Reading(h, at, now, m), Runner(m))
    ensures Quietly(h, a, [], s, Runner(m)) && s.version == at && On(h, s)
    ensures var (out, ok) := Mutate(m, h[at - 1], now);
            if out == h[at - 1] then Answered(At(s, Runner(m)), m, ok)
            else At(s, Runner(m)) == Decided(m, out, at, 0, now)
  {
    var p := Runner(m);
    var held := SomeAnswer(m, h[at - 1], now);
    s := DoDecide(Reading(h, at, now, m), p, now, held);
    Then(h, a, [], Reading(h, at, now, m), Own(Decide(p, now, held)), s, p);
  }

  lemma AnswerIsACall(m: Mutation, h0: seq<Status>, h: seq<Status>, at: nat, now: int, flag: bool)
    requires h0 <= h && |h0| <= at <= |h| && 1 <= at && Mutate(m, h[at - 1], now) == (h[at - 1], flag)
    ensures AnsweredCall(m, h0, h, [], flag)
  {
    ReadsVersion(h0, h, m, at, now);
    var s := Decides(World(h0, now, m, Trying(m)), h, m, at, now);
  }

  lemma Committed(h: seq<Status>, s: State, m: Mutation, at: nat, now: int)
    requires 1 <= at < |h| && s.version == at && On(h, s) && h[at] == Mutate(m, h[at - 1], now).0
    requires At(s, Runner(m)) == Decided(m, h[at], at, 0, now) && Mutate(m, h[at - 1], now).0 != h[at - 1]
    ensures On(h, DoUpdate(s, Runner(m))) && On(h, Put(Commit(s, Runner(m)), Runner(m), Idle))
    ensures Answered(At(DoUpdate(s, Runner(m)), Runner(m)), m, Mutate(m, h[at - 1], now).1)
  {
    assert h[..at + 1][at] == h[at];
  }

  lemma CommitsQuietly(h: seq<Status>, a: State, s: State, m: Mutation, at: nat, now: int)
    requires 1 <= at < |h| && s.version == at && On(h, s) && h[at] == Mutate(m, h[at - 1], now).0
    requires At(s, Runner(m)) == Decided(m, h[at], at, 0, now) && Mutate(m, h[at - 1], now).0 != h[at - 1]
    requires Quietly(h, a, [], s, Runner(m))
    ensures Quietly(h, a, [at + 1], DoUpdate(s, Runner(m)), Runner(m))
  {
    var p := Runner(m);
    Committed(h, s, m, at, now);
    Then(h, a, [], s, Own(Update(p)), DoUpdate(s, p), p);
    assert [] + [at + 1] == [at + 1];
  }

  lemma WriteIsACall(m: Mutation, h0: seq<Status>, h: seq<Status>, at: nat, now: int)
    requires h0 <= h && |h0| <= at < |h| && 1 <= at && h[at - 1] != h[at] == Mutate(m, h[at - 1], now).0
    ensures AnsweredCall(m, h0, h, [at + 1], Mutate(m, h[at - 1], now).1)
  {
    var a := World(h0, now, m, Trying(m));
    ReadsVersion(h0, h, m, at, now);
    var s := Decides(a, h, m, at, now);
    Committed(h, s, m, at, now);
    CommitsQuietly(h, a, s, m, at, now);
  }

  lemma PromiseIsACall(m: Mutation, h0: seq<Status>, h: seq<Status>, writes: seq<nat>, at: nat, now: int, flag: bool)
    requires h0 <= h && ActedOnce(m, |h0|, h, writes, at, now, flag)
    ensures AnsweredCall(m, h0, h, writes, flag)
  {
    if writes == [] {
      AnswerIsACall(m, h0, h, at, now, flag);
    } else {
      WriteIsACall(m, h0, h, at, now);
    }
  }

  /** The failing move comes last. */
  lemma EndsFailing(
    h: seq<Status>, h0: seq<Status>, clock: int, m: Mutation, s: State, mv: Move, writes: seq<nat>)
    requires Quietly(h, World(h0, clock, m, Trying(m)), [], s, Runner(m))
    requires Possible(h, s, mv, Runner(m)) && Failing(mv)
    requires writes == if Commits(s, mv) then [s.version + 1] else []
    ensures FailedCall(m, h0, h, writes)
  {
    var p, a := Runner(m), World(h0, clock, m, Trying(m));
    var x :| Moves(h, a, x, [], s, p) && !Fails(x);
    MovesOn(h, a, x, [], s, mv, After(h, s, mv, p), p);
    assert [] + [s.version + 1] == [s.version + 1];
    assert Fails(x + [mv]) by {
      assert mv in x + [mv];
    }
  }

  lemma LostReplyIsACall(m: Mutation, h0: seq<Status>, h: seq<Status>, at: nat, now: int)
    requires h0 <= h && |h0| <= at < |h| && 1 <= at && h[at - 1] != h[at] == Mutate(m, h[at - 1], now).0
    ensures FailedCall(m, h0, h, [at + 1])
  {
    ReadsVersion(h0, h, m, at, now);
    var s := Decides(World(h0, now, m, Trying(m)), h, m, at, now);
    Committed(h, s, m, at, now);
    EndsFailing(h, h0, now, m, s, Own(UpdateReplyLost(Runner(m))), [at + 1]);
  }

  lemma GivingUpIsACall(m: Mutation, h0: seq<Status>, h: seq<Status>)
    requires h0 <= h
    ensures FailedCall(m, h0, h, [])
  {
    var a := World(h0, 0, m, Trying(m));
    StartsQuietly(h, a, Runner(m));
    assert h[..|h0|] == h0;
    EndsFailing(h, h0, 0, m, a, Own(GiveUp(Runner(m))), []);
  }

  // ---- ... and what a process does is what Apply promises ----

  /** Where the process stands in a call that began at version since and has written nothing yet. */
  ghost predicate Standing(h: seq<Status>, s: State, m: Mutation, since: nat, pr: Proc) {
    && On(h, s) && since <= s.version
    && match pr
       case Trying(x) => x == m
       case Got(x, st, version, _) =>
         x == m && since <= version <= s.version && 1 <= version && st == h[version - 1]
       case Decided(x, out, version, _, now) =>
         && x == m && since <= version <= s.version && 1 <= version
         && out == Mutate(m, h[version - 1], now).0 != h[version - 1]
         && (m.MReserve? ==> Mutate(m, h[version - 1], now).1)
       case _ => false
  }

  /** Once it is over the process does nothing. */
  lemma {:induction false} OverStaysOver(
    h: seq<Status>, s: State, mvs: seq<Move>, writes: seq<nat>, end: State, p: nat)
    requires Over(At(s, p)) && Moves(h, s, mvs, writes, end, p)
    ensures writes == [] && At(end, p) == At(s, p)
    decreases |mvs|
  {
    if mvs != [] {
      var s' := After(h, s, mvs[0], p);
      OverStaysOver(h, s', mvs[1..], writes, end, p);
    }
  }

  /** It acted once, and has the answer. */
  ghost predicate Resolved(h: seq<Status>, m: Mutation, since: nat, writes: seq<nat>, pr: Proc) {
    exists at, now, flag :: ActedOnce(m, since, h, writes, at, now, flag) && Answered(pr, m, flag)
  }

  lemma DecideResolves(h: seq<Status>, s: State, m: Mutation, since: nat, p: nat, now: int, held: Reservation)
    requires p == Runner(m) && At(s, p).Got? && Standing(h, s, m, since, At(s, p))
    requires Enabled(s, Decide(p, now, held))
    ensures var s' := DoDecide(s, p, now, held);
            Standing(h, s', m, since, At(s', p)) || (Over(At(s', p)) && Resolved(h, m, since, [], At(s', p)))
  {
    var g, s' := At(s, p), DoDecide(s, p, now, held);
    var (out, ok) := Mutate(m, g.st, now);
    if out == g.st {
      assert ActedOnce(m, since, h, [], g.version, now, ok);
      assert Answered(At(s', p), m, ok);
    }
  }

  lemma CommitResolves(h: seq<Status>, s: State, m: Mutation, since: nat, mv: Move, p: nat)
    requires p == Runner(m) && At(s, p).Decided? && Standing(h, s, m, since, At(s, p))
    requires Possible(h, s, mv, p) && Commits(s, mv)
    ensures var s', writes := After(h, s, mv, p), [s.version + 1];
            && Over(At(s', p)) && AtMostOneEffect(m, since, h, writes)
            && (!Failing(mv) ==> Resolved(h, m, since, writes, At(s', p)))
  {
    var d, s', writes := At(s, p), After(h, s, mv, p), [s.version + 1];
    assert h[..s.version + 1][s.version] == h[s.version] == d.out;
    var (out, ok) := Mutate(m, h[d.version - 1], d.now);
    assert ActedOnce(m, since, h, writes, d.version, d.now, ok);
  }

  /** Any other move leaves the process standing, or ends the call without a write. */
  lemma MoveStands(h: seq<Status>, s: State, m: Mutation, since: nat, mv: Move, p: nat)
    requires p == Runner(m) && Standing(h, s, m, since, At(s, p))
    requires Possible(h, s, mv, p) && !Commits(s, mv) && !Failing(mv)
    ensures var s' := After(h, s, mv, p);
            Standing(h, s', m, since, At(s', p)) || (Over(At(s', p)) && Resolved(h, m, since, [], At(s', p)))
  {
    if mv.Own? && mv.step.Decide? {
      DecideResolves(h, s, m, since, p, mv.step.now, mv.step.held);
    }
  }

  lemma CommitIsLast(
    h: seq<Status>, s: State, m: Mutation, since: nat, mvs: seq<Move>, writes: seq<nat>, end: State)
    requires Standing(h, s, m, since, At(s, Runner(m))) && Moves(h, s, mvs, writes, end, Runner(m))
    requires mvs != [] && Commits(s, mvs[0])
    ensures AtMostOneEffect(m, since, h, writes)
    ensures !Failing(mvs[0]) ==> Resolved(h, m, since, writes, At(end, Runner(m)))
  {
    var p, s' := Runner(m), After(h, s, mvs[0], Runner(m));
    CommitResolves(h, s, m, since, mvs[0], p);
    OverStaysOver(h, s', mvs[1..], writes[1..], end, p);
    assert writes == [s.version + 1];
  }

  lemma FailsSomewhere(mvs: seq<Move>)
    requires mvs != []
    ensures Fails(mvs) <==> Failing(mvs[0]) || Fails(mvs[1..])
  {
    assert mvs == [mvs[0]] + mvs[1..];
  }

  lemma {:induction false} RunHasOutcome(
    h: seq<Status>, s: State, m: Mutation, since: nat, mvs: seq<Move>, writes: seq<nat>, end: State)
    requires Standing(h, s, m, since, At(s, Runner(m))) && Moves(h, s, mvs, writes, end, Runner(m))
    ensures AtMostOneEffect(m, since, h, writes)
    ensures !Fails(mvs) && Over(At(end, Runner(m))) ==> Resolved(h, m, since, writes, At(end, Runner(m)))
    decreases |mvs|
  {
    if mvs != [] {
      var p, mv, rest := Runner(m), mvs[0], mvs[1..];
      var s' := After(h, s, mv, p);
      FailsSomewhere(mvs);
      if Commits(s, mv) {
        CommitIsLast(h, s, m, since, mvs, writes, end);
      } else if Failing(mv) {
        OverStaysOver(h, s', rest, writes, end, p);
      } else {
        MoveStands(h, s, m, since, mv, p);
        if Over(At(s', p)) {
          OverStaysOver(h, s', rest, writes, end, p);
        } else {
          RunHasOutcome(h, s', m, since, rest, writes, end);
        }
      }
    }
  }

  // ---- exactly ----

  /** The calls that end with this answer are those of which Apply promises it: the process reads the version
      it acts on, decides, and ends there or by a successful compare-and-swap. */
  lemma AnsweredCallsExactly(m: Mutation, h0: seq<Status>, h: seq<Status>, writes: seq<nat>, flag: bool)
    requires h0 <= h
    ensures AnsweredCall(m, h0, h, writes, flag)
            <==> exists at, now :: ActedOnce(m, |h0|, h, writes, at, now, flag)
  {
    if at, now :| ActedOnce(m, |h0|, h, writes, at, now, flag) {
      PromiseIsACall(m, h0, h, writes, at, now, flag);
    }
    if AnsweredCall(m, h0, h, writes, flag) {
      var clock, mvs, end :|
        && Moves(h, World(h0, clock, m, Trying(m)), mvs, writes, end, Runner(m)) && !Fails(mvs)
        && Answered(At(end, Runner(m)), m, flag);
      assert h[..|h0|] == h0;
      RunHasOutcome(h, World(h0, clock, m, Trying(m)), m, |h0|, mvs, writes, end);
    }
  }

  /** The calls that fail are those of which Apply promises at most one effect. */
  lemma FailedCallsExactly(m: Mutation, h0: seq<Status>, h: seq<Status>, writes: seq<nat>)
    requires h0 <= h
    ensures FailedCall(m, h0, h, writes) <==> AtMostOneEffect(m, |h0|, h, writes)
  {
    if AtMostOneEffect(m, |h0|, h, writes) {
      if writes == [] {
        GivingUpIsACall(m, h0, h);
      } else {
        var at, now :| |h0| <= at < |h| && 1 <= at && writes == [at + 1] && h[at - 1] != h[at] == Mutate(m, h[at - 1], now).0;
        LostReplyIsACall(m, h0, h, at, now);
      }
    }
    if FailedCall(m, h0, h, writes) {
      var clock, mvs, end :| Moves(h, World(h0, clock, m, Trying(m)), mvs, writes, end, Runner(m));
      assert h[..|h0|] == h0;
      RunHasOutcome(h, World(h0, clock, m, Trying(m)), m, |h0|, mvs, writes, end);
    }
  }
}
