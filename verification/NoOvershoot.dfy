/**
 What the protocol guarantees on every run. A prefix of a run is a run, so whatever holds at the end
 of every run holds at every moment of every run.
 */
module NoOvershoot {
  import opened Accounting
  import opened QuotaStore
  import opened Protocol
  import opened ProtocolSafety

  /** Keys admitted and not yet resolved, whose creation the hypotheses still allow. */
  ghost function Pending(s: State): set<string> {
    set p | p in s.procs && MayCreate(s, s.procs[p]) :: s.procs[p].key
  }

  ghost predicate MayCreate(s: State, pr: Proc) {
    pr.Granted? && s.clock < pr.expiry && Unlisted(s.hist, pr.key, pr.since)
  }

  /** Live objects, admitted objects about to be created, and reserved slots, each counted once. */
  ghost function Committed(s: State): set<string> {
    Tokens(Live(s)) + Pending(s) + LiveKeys(s.st.reservations, s.clock)
  }

  lemma PendingIsReserved(s: State)
    requires Procs(s)
    ensures Pending(s) <= LiveKeys(s.st.reservations, s.clock)
  {
    forall key | key in Pending(s) ensures key in LiveKeys(s.st.reservations, s.clock) {
      var p :| p in s.procs && MayCreate(s, s.procs[p]) && s.procs[p].key == key;
      assert ProcOk(s, p, At(s, p));
      assert Reservation(key, s.procs[p].expiry) in s.st.reservations;
    }
  }

  // ---- the largest limit ----

  ghost predicate LimitsUpTo(steps: seq<Step>, limit: int) {
    forall step :: step in steps && step.BeginReserve? ==> step.limit <= limit
  }

  ghost predicate AsksUpTo(pr: Proc, limit: int) {
    && (pr.Trying? && pr.m.MReserve? ==> pr.m.limit <= limit)
    && (pr.Got? && pr.m.MReserve? ==> pr.m.limit <= limit)
    && (pr.Decided? && pr.m.MReserve? ==> pr.m.limit <= limit)
  }

  ghost predicate CapUpTo(s: State, limit: int) {
    s.cap <= limit && forall p: nat :: AsksUpTo(At(s, p), limit)
  }

  lemma CapUpToStep(s: State, step: Step, limit: int)
    requires CapUpTo(s, limit) && Enabled(s, step)
    requires step.BeginReserve? ==> step.limit <= limit
    ensures CapUpTo(Do(s, step), limit)
  {
    var s' := Do(s, step);
    forall p: nat ensures AsksUpTo(At(s', p), limit) {
      assert AsksUpTo(At(s, p), limit);
    }
    if step.Update? || step.UpdateReplyLost? {
      assert AsksUpTo(At(s, step.p), limit);
    }
  }

  lemma {:induction false} CapUpToRun(s: State, steps: seq<Step>, limit: int)
    requires CapUpTo(s, limit) && Run(s, steps) && LimitsUpTo(steps, limit)
    ensures CapUpTo(End(s, steps), limit)
    decreases |steps|
  {
    if steps != [] {
      assert steps[0] in steps;
      CapUpToStep(s, steps[0], limit);
      CapUpToRun(Do(s, steps[0]), steps[1..], limit);
    }
  }

  // ---- at one state ----

  lemma Reached(s: State, steps: seq<Step>)
    requires Init(s) && Run(s, steps)
    ensures Inv(End(s, steps))
  {
    InitHasInv(s);
    RunKeepsInv(s, steps);
  }

  lemma CommittedIsHeld(e: State)
    requires Procs(e)
    ensures Committed(e) == Held(e)
  {
    PendingIsReserved(e);
  }

  lemma LiveIsHeld(e: State)
    requires TokensDistinct(Live(e))
    ensures |Live(e)| <= |Held(e)|
  {
    TokensCount(Live(e));
    SubsetCount(Tokens(Live(e)), Held(e));
  }

  lemma InitCap(s: State, limit: int)
    requires Init(s) && |Live(s)| <= limit
    ensures CapUpTo(s, limit)
  {
  }

  lemma SettledCount(e: State)
    requires TokensDistinct(Live(e)) && Counted(e) && Bounded(e)
    requires e.hist[e.snap] == Live(e) && Tokens(Live(e)) !! LiveKeys(e.st.reservations, e.clock)
    ensures Tally(e.st, e.clock) == |Held(e)|
  {
    TokensCount(Live(e));
    LiveKeysCount(e.st.reservations, e.clock);
  }

  lemma WriteIsImage(e: State, p: nat)
    requires At(e, p).Decided? && At(e, p).version == e.version && ProcOk(e, p, At(e, p))
    ensures At(e, p).now <= e.clock
    ensures Commit(e, p).st == Mutate(At(e, p).m, e.st, At(e, p).now).0
  {
    assert Commit(e, p).st == At(e, p).out;
  }

  /** The compare-and-swap of step finds the version its process read. */
  ghost predicate Writes(e: State, step: Step)
    requires Enabled(e, step)
  {
    (step.Update? || step.UpdateReplyLost?) && At(e, step.p).version == e.version
  }

  lemma OnlyWritesChange(e: State, step: Step)
    requires Shape(e) && Enabled(e, step)
    ensures if Writes(e, step) then Do(e, step).st == Commit(e, step.p).st && Do(e, step).version == e.version + 1
            else Do(e, step).st == e.st
  {
  }

  // ---- the guarantees ----

  /** No overshoot. However the steps interleave, objects, creations in flight and reserved slots
      together never exceed the largest limit a grant was given under (or the number of objects there
      were at the start), and so never the largest limit anybody asked for. */
  lemma LimitIsNeverExceeded(s: State, steps: seq<Step>, limit: int)
    requires Init(s) && Run(s, steps)
    requires |Live(s)| <= limit && LimitsUpTo(steps, limit)
    ensures var e := End(s, steps);
            && |Live(e)| <= |Committed(e)| <= e.cap <= limit
  {
    Reached(s, steps);
    InitCap(s, limit);
    CapUpToRun(s, steps, limit);
    CommittedIsHeld(End(s, steps));
    LiveIsHeld(End(s, steps));
  }

  /** Coverage. Every live object is in the last folded snapshot or holds an unexpired reservation, and
      every creation in flight holds one, although listing and folding are not one step. */
  lemma CoverageIsKept(s: State, steps: seq<Step>)
    requires Init(s) && Run(s, steps)
    ensures Covered(End(s, steps))
    ensures Pending(End(s, steps)) <= LiveKeys(End(s, steps).st.reservations, End(s, steps).clock)
  {
    Reached(s, steps);
    PendingIsReserved(End(s, steps));
  }

  /** The ledger errs on the strict side only: on any clock, what it counts is at least what there is. */
  lemma LedgerNeverUndercounts(s: State, steps: seq<Step>, now: int)
    requires Init(s) && Run(s, steps) && now <= End(s, steps).clock
    ensures |Committed(End(s, steps))| <= Tally(End(s, steps).st, now)
  {
    Reached(s, steps);
    CommittedIsHeld(End(s, steps));
    NeverUndercounts(End(s, steps), now);
  }

  /** ... and it is exact when the snapshot is current and no reservation outlives its own object. */
  lemma LedgerIsExactWhenSettled(s: State, steps: seq<Step>)
    requires Init(s) && Run(s, steps) && End(s, steps).snap < |End(s, steps).hist|
    requires var e := End(s, steps);
             && e.hist[e.snap] == Live(e)
             && Tokens(Live(e)) !! LiveKeys(e.st.reservations, e.clock)
    ensures Tally(End(s, steps).st, End(s, steps).clock) == |Committed(End(s, steps))|
  {
    Reached(s, steps);
    CommittedIsHeld(End(s, steps));
    SettledCount(End(s, steps));
  }

  /** In every reachable ledger a key holds at most one slot on the fastest clock. */
  lemma OneSlotPerKeyInRuns(s: State, steps: seq<Step>)
    requires Init(s) && Run(s, steps)
    ensures OnePerKey(End(s, steps).st.reservations, End(s, steps).clock)
  {
    Reached(s, steps);
  }

  /** Only a successful compare-and-swap changes the status, and then to the image of the version
      before it under the very mutation its process carries, at the reading it decided by. */
  lemma VersionsAreImages(s: State, steps: seq<Step>, step: Step)
    requires Init(s) && Run(s, steps) && Enabled(End(s, steps), step)
    ensures var e := End(s, steps);
            var e' := Do(e, step);
            || e'.st == e.st
            || (Writes(e, step) && e'.version == e.version + 1
                && At(e, step.p).now <= e.clock
                && e'.st == Mutate(At(e, step.p).m, e.st, At(e, step.p).now).0)
  {
    var e := End(s, steps);
    Reached(s, steps);
    OnlyWritesChange(e, step);
    if Writes(e, step) {
      assert ProcOk(e, step.p, At(e, step.p));
      WriteIsImage(e, step.p);
    }
  }
}
