/**
 What a reader can do to meet the hypotheses of the policy machine: never go back in what it reads of a
 quota, and read the current configuration before it removes an entry.
 */
module PolicyReaders {
  import opened PolicyMachine
  import opened PolicySafety

  /** Reads of a quota never go back. */
  ghost predicate ForwardReads(s: State, step: Step) {
    step.Sync? ==> Seen(s, step.q) <= step.upTo
  }

  /** A removal reads the configuration as it is. */
  ghost predicate CurrentRemoval(s: State, step: Step) {
    step.ReadForRemoval? ==> s.seenConfig + 1 == |s.configs|
  }

  /** A run of readers who go forward, and whose removals read the current configuration or are told
      rightly that there is none. */
  ghost predicate CarefulRun(s: State, steps: seq<Step>, end: State)
    decreases |steps|
  {
    if steps == [] then s == end
    else
      && Enabled(s, steps[0]) && ForwardReads(s, steps[0])
      && (CurrentRemoval(s, steps[0]) || FreshNotFound(s, steps[0]))
      && CarefulRun(Do(s, steps[0]), steps[1..], end)
  }

  /** From version at on the quota has kept its finalizer, and its identity if it had one at at. */
  ghost predicate Stays(vs: seq<Version>, at: nat) {
    forall j :: at <= j < |vs| ==> Finalized(vs[j]) && (vs[at].Present? && vs[at].stamped ==> vs[j].stamped)
  }

  /** What can still be read as alive and finalized has stayed finalized, and a removal works on nothing
      that is still to be read. */
  ghost predicate Ahead(s: State, q: string) {
    var vs, ph := Versions(s, q), PhaseOf(s, q);
    && Seen(s, q) < |vs|
    && (forall i :: Seen(s, q) <= i < |vs| && Finalized(vs[i]) && !vs[i].deleting ==> Stays(vs, i))
    && (ph.Removing? || ph.Filtering? || ph.Unfinalizing? ==> ph.at <= Seen(s, q))
  }

  lemma AheadIsFresh(s: State, step: Step)
    requires Enabled(s, step) && Ahead(s, step.q)
    ensures FreshGet(s, step)
  {
  }

  lemma CurrentIsFresh(s: State, step: Step)
    requires Enabled(s, step) && CurrentRemoval(s, step)
    ensures FreshNotFound(s, step)
  {
  }

  /** q is read no earlier, and gets at most one more version, which lets go of a finalizer only when the
      present version is being deleted and nothing older is still to be read. */
  lemma AheadGrows(s: State, s': State, q: string, v: Version)
    requires Ahead(s, q) && Versions(s', q) == Versions(s, q) + [v] && Seen(s', q) == Seen(s, q)
    requires Finalized(Last(s, q)) ==>
               || (Finalized(v) && (Last(s, q).stamped ==> v.stamped))
               || (Seen(s, q) + 1 == |Versions(s, q)| && Last(s, q).deleting && v.Gone?)
    requires PhaseOf(s', q).Removing? || PhaseOf(s', q).Filtering? || PhaseOf(s', q).Unfinalizing? ==>
               PhaseOf(s', q).at <= Seen(s', q)
    ensures Ahead(s', q)
  {
    var vs := Versions(s, q);
    forall i | Seen(s, q) <= i < |vs| && Finalized(vs[i]) && !vs[i].deleting ensures Stays(vs + [v], i) {
      assert Stays(vs, i) && Last(s, q) == vs[|vs| - 1];
    }
  }

  /** A step adds at most one version to its quota, and never turns back what it reads. */
  lemma OwnVersions(s: State, step: Step)
    requires Inv(s) && Enabled(s, step) && Ahead(s, step.q)
    ensures var q, s' := step.q, Do(s, step);
            Versions(s', q) == Versions(s, q)
            || (&& Versions(s', q) == Versions(s, q) + [Last(s', q)] && Seen(s', q) == Seen(s, q)
                && (Finalized(Last(s, q)) ==>
                      || (Finalized(Last(s', q)) && (Last(s, q).stamped ==> Last(s', q).stamped))
                      || (Seen(s, q) + 1 == |Versions(s, q)| && Last(s, q).deleting && Last(s', q).Gone?)))
  {
    assert PhaseOk(s, step.q, PhaseOf(s, step.q));
  }

  lemma OwnPhase(s: State, step: Step)
    requires Enabled(s, step) && ForwardReads(s, step) && Ahead(s, step.q)
    ensures var ph, s' := PhaseOf(Do(s, step), step.q), Do(s, step);
            ph.Removing? || ph.Filtering? || ph.Unfinalizing? ==> ph.at <= Seen(s', step.q)
    ensures Versions(Do(s, step), step.q) == Versions(s, step.q) ==>
              Seen(s, step.q) <= Seen(Do(s, step), step.q) < |Versions(s, step.q)|
  {
  }

  lemma StepStaysAhead(s: State, step: Step, q: string)
    requires Inv(s) && Enabled(s, step) && ForwardReads(s, step) && Ahead(s, q)
    ensures Ahead(Do(s, step), q)
  {
    if q != step.q {
      OthersUntouched(s, step, q);
    } else {
      OwnVersions(s, step);
      OwnPhase(s, step);
      if Versions(Do(s, step), q) != Versions(s, q) {
        AheadGrows(s, Do(s, step), q, Last(Do(s, step), q));
      }
    }
  }

  lemma {:induction false} CarefulRunIsFresh(s: State, steps: seq<Step>, end: State)
    requires Inv(s) && (forall q :: Ahead(s, q)) && CarefulRun(s, steps, end)
    ensures FreshRun(s, steps, end)
    decreases |steps|
  {
    if steps != [] {
      var step := steps[0];
      AheadIsFresh(s, step);
      if CurrentRemoval(s, step) {
        CurrentIsFresh(s, step);
      }
      StepKeepsInv(s, step);
      forall q ensures Ahead(Do(s, step), q) {
        StepStaysAhead(s, step, q);
      }
      CarefulRunIsFresh(Do(s, step), steps[1..], end);
    }
  }

  /** Readers who are careful in this way orphan no entry. */
  lemma CarefulReadersOrphanNothing(s: State, steps: seq<Step>, end: State)
    requires Init(s) && CarefulRun(s, steps, end)
    ensures FreshRun(s, steps, end) && NoOrphans(end)
  {
    InitHasInv(s);
    CarefulRunIsFresh(s, steps, end);
    NoOrphanedEntry(s, steps, end);
  }
}
