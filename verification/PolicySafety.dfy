/**
 No orphaned webhook entry, in every run of the policy machine.
 */
module PolicySafety {
  import opened PolicyMachine

  // ---- what a step of one quota's reconcile leaves the others ----

  ghost predicate ConfigEvolves(s: State, s': State) {
    s'.names == s.names && s.configs <= s'.configs && s'.seenConfig < |s'.configs|
  }

  ghost predicate Untouched(s: State, s': State, r: string) {
    Versions(s', r) == Versions(s, r) && Seen(s', r) == Seen(s, r) && PhaseOf(s', r) == PhaseOf(s, r)
  }

  lemma PhaseEvolves(s: State, s': State, r: string)
    requires PhaseOk(s, r, PhaseOf(s, r)) && ConfigEvolves(s, s') && Untouched(s, s', r)
    ensures PhaseOk(s', r, PhaseOf(s', r))
  {
  }

  lemma OwnedEvolves(s: State, s': State, q: string)
    requires Owned(s) && s'.names == s.names && Entries(s') <= Entries(s)
    requires forall r :: r != q ==> Untouched(s, s', r)
    requires forall entry :: Owner(s, q, entry) && entry in Entries(s') ==> Owner(s', q, entry)
    ensures Owned(s')
  {
    forall entry | entry in Entries(s') && entry in s'.names.Values
      ensures exists r :: Owner(s', r, entry)
    {
      var r :| Owner(s, r, entry);
      assert Owner(s', r, entry) by {
        if r != q {
          assert Untouched(s, s', r);
        }
      }
    }
  }

  /** A step of q that keeps q's own obligations and its entry keeps everybody's. */
  lemma Evolve(s: State, s': State, q: string)
    requires Inv(s) && ConfigEvolves(s, s') && Entries(s') <= Entries(s)
    requires forall r :: r != q ==> Untouched(s, s', r)
    requires forall entry :: Owner(s, q, entry) && entry in Entries(s') ==> Owner(s', q, entry)
    requires Seen(s', q) < |Versions(s', q)| && PhaseOk(s', q, PhaseOf(s', q))
    ensures Inv(s')
  {
    OwnedEvolves(s, s', q);
    forall r ensures Seen(s', r) < |Versions(s', r)| && PhaseOk(s', r, PhaseOf(s', r)) {
      if r != q {
        assert Untouched(s, s', r);
        PhaseEvolves(s, s', r);
      }
    }
  }

  /** Only q's phase changes. */
  lemma PhaseMoves(s: State, s': State, q: string, ph: Phase)
    requires Inv(s) && s' == Go(s, q, ph) && PhaseOk(s', q, ph)
    requires forall entry :: Owner(s, q, entry) && entry in Entries(s) ==> Owner(s', q, entry)
    ensures Inv(s')
  {
    assert Seen(s, q) < |Versions(s, q)|;
    Evolve(s, s', q);
  }

  /** Only q gets a new version, which keeps its finalizer and identity if it had them. */
  lemma VersionGrows(s: State, s': State, q: string, v: Version)
    requires Inv(s) && s' == Append(s, q, v)
    requires Finalized(Last(s, q)) ==> Finalized(v)
    requires Last(s, q).Present? && Last(s, q).stamped ==> v.Present? && v.stamped
    ensures Inv(s')
  {
    assert Seen(s, q) < |Versions(s, q)| && PhaseOk(s, q, PhaseOf(s, q));
    assert Last(s', q) == v;
    Evolve(s, s', q);
  }

  // ---- the steps ----

  lemma UserKeepsInv(s: State, step: Step)
    requires Inv(s) && Enabled(s, step)
    requires step.CreateQuota? || step.TouchQuota? || step.DeleteQuota?
    ensures Inv(Do(s, step))
  {
    var q := step.q;
    if step.CreateQuota? {
      VersionGrows(s, Do(s, step), q, Present(false, false, false));
    } else if step.TouchQuota? {
      VersionGrows(s, Do(s, step), q, Last(s, q));
    } else if Last(s, q).finalizer {
      VersionGrows(s, Do(s, step), q, Last(s, q).(deleting := true));
    } else {
      UnfinalizedGoes(s, Do(s, step), q);
    }
  }

  /** A quota without the finalizer is gone as soon as it is deleted. */
  lemma UnfinalizedGoes(s: State, s': State, q: string)
    requires Inv(s) && s' == Append(s, q, Gone) && !Finalized(Last(s, q))
    ensures Inv(s')
  {
    assert Seen(s, q) < |Versions(s, q)| && PhaseOk(s, q, PhaseOf(s, q));
    Evolve(s, s', q);
  }

  lemma SyncKeepsInv(s: State, q: string, upTo: nat)
    requires Inv(s) && upTo < |Versions(s, q)|
    ensures Inv(s.(seen := s.seen[q := upTo]))
  {
    assert PhaseOk(s, q, PhaseOf(s, q));
    Evolve(s, s.(seen := s.seen[q := upTo]), q);
  }

  lemma SyncConfigKeepsInv(s: State, q: string, upTo: nat)
    requires Inv(s) && upTo < |s.configs|
    ensures Inv(s.(seenConfig := upTo))
  {
    assert Seen(s, q) < |Versions(s, q)| && PhaseOk(s, q, PhaseOf(s, q));
    Evolve(s, s.(seenConfig := upTo), q);
  }

  lemma GetKeepsInv(s: State, q: string)
    requires Inv(s) && Enabled(s, Get(q)) && FreshGet(s, Get(q))
    ensures Inv(Do(s, Get(q)))
  {
    if Versions(s, q)[Seen(s, q)].Present? {
      PhaseMoves(s, Do(s, Get(q)), q, PhaseOf(Do(s, Get(q)), q));
    }
  }

  lemma FailKeepsInv(s: State, q: string)
    requires Inv(s)
    ensures Inv(Go(s, q, Idle))
  {
    PhaseMoves(s, Go(s, q, Idle), q, Idle);
  }

  lemma AddFinalizerKeepsInv(s: State, q: string, fate: Fate)
    requires Inv(s) && Enabled(s, AddFinalizer(q, fate))
    ensures Inv(Do(s, AddFinalizer(q, fate)))
  {
    var at := PhaseOf(s, q).at;
    if Takes(s, q, at, fate) {
      var v := Versions(s, q)[at].(finalizer := true);
      VersionGrows(s, Append(s, q, v), q, v);
      FailKeepsInv(Append(s, q, v), q);
    } else {
      FailKeepsInv(s, q);
    }
  }

  lemma ResolveKeepsInv(s: State, q: string)
    requires Inv(s) && Enabled(s, Resolve(q))
    ensures Inv(Do(s, Resolve(q)))
  {
    assert PhaseOk(s, q, PhaseOf(s, q));
    PhaseMoves(s, Do(s, Resolve(q)), q, PhaseOf(Do(s, Resolve(q)), q));
  }

  lemma StampKeepsInv(s: State, q: string, fate: Fate)
    requires Inv(s) && Enabled(s, Stamp(q, fate))
    ensures Inv(Do(s, Stamp(q, fate)))
  {
    var at, vs := PhaseOf(s, q).at, Versions(s, q);
    assert PhaseOk(s, q, PhaseOf(s, q));
    if Takes(s, q, at, fate) {
      var v := vs[at].(stamped := true);
      var s1 := Append(s, q, v);
      VersionGrows(s, s1, q, v);
      assert (vs + [v])[at + 1] == v == Last(s1, q);
      PhaseMoves(s1, Do(s, Stamp(q, fate)), q, PhaseOf(Do(s, Stamp(q, fate)), q));
    } else {
      FailKeepsInv(s, q);
    }
  }

  lemma ReadConfigKeepsInv(s: State, q: string)
    requires Inv(s) && Enabled(s, ReadConfig(q))
    ensures Inv(Do(s, ReadConfig(q)))
  {
    assert PhaseOk(s, q, PhaseOf(s, q));
    PhaseMoves(s, Do(s, ReadConfig(q)), q, PhaseOf(Do(s, ReadConfig(q)), q));
  }

  /** The installed entry has an owner: the quota that installs it. */
  lemma InstallerOwns(s: State, s': State, q: string)
    requires q in s.names && PhaseOf(s, q).Writing? && PhaseOk(s, q, PhaseOf(s, q))
    requires Versions(s', q) == Versions(s, q) && PhaseOf(s', q) == Idle && s'.names == s.names
    ensures Owner(s', q, s.names[q])
  {
  }

  lemma WriteConfigKeepsInv(s: State, q: string, fate: Fate)
    requires Inv(s) && Enabled(s, WriteConfig(q, fate))
    ensures Inv(DoWriteConfig(s, q, fate))
  {
    var s', ph := DoWriteConfig(s, q, fate), PhaseOf(s, q);
    assert PhaseOk(s, q, ph) && Seen(s, q) < |Versions(s, q)|;
    if s'.configs == s.configs {
      FailKeepsInv(s, q);
    } else {
      InstallerOwns(s, s', q);
      forall entry | entry in Entries(s') && entry in s'.names.Values
        ensures exists r :: Owner(s', r, entry)
      {
        if entry != s.names[q] {
          var r :| Owner(s, r, entry);
          assert r != q ==> Untouched(s, s', r);
          assert Owner(s', r, entry);
        }
      }
      forall r ensures Seen(s', r) < |Versions(s', r)| && PhaseOk(s', r, PhaseOf(s', r)) {
        if r != q {
          assert Seen(s, r) < |Versions(s, r)| && PhaseOk(s, r, PhaseOf(s, r));
          PhaseEvolves(s, s', r);
        }
      }
    }
  }

  /** Once q's entry is out of the list, or q works on a version without identity, q owns nothing that
      a finished removal could take away. */
  lemma NothingLeftToOwn(s: State, s': State, q: string, at: nat, entry: string)
    requires at < |Versions(s, q)| && Owner(s, q, entry) && entry in Entries(s')
    requires s'.names == s.names && Versions(s', q) == Versions(s, q)
    requires PhaseOf(s', q) == Unfinalizing(at)
    requires Entries(s') !! Removed(s, q, Versions(s, q)[at])
    ensures Owner(s', q, entry)
  {
  }

  lemma ReadForRemovalKeepsInv(s: State, q: string)
    requires Inv(s) && Enabled(s, ReadForRemoval(q)) && FreshNotFound(s, ReadForRemoval(q))
    ensures Inv(Do(s, ReadForRemoval(q)))
  {
    var s' := Do(s, ReadForRemoval(q));
    assert PhaseOk(s, q, PhaseOf(s, q));
    PhaseMoves(s, s', q, PhaseOf(s', q));
  }

  lemma WriteRemovalKeepsInv(s: State, q: string, fate: Fate)
    requires Inv(s) && Enabled(s, WriteRemoval(q, fate))
    ensures Inv(DoWriteRemoval(s, q, fate))
  {
    var s', ph := DoWriteRemoval(s, q, fate), PhaseOf(s, q);
    assert PhaseOk(s, q, ph) && Seen(s, q) < |Versions(s, q)|;
    if s'.configs == s.configs {
      FailKeepsInv(s, q);
    } else {
      assert Entries(s') <= Entries(s) && Entries(s') !! Removed(s, q, Versions(s, q)[ph.at]);
      forall entry | Owner(s, q, entry) && entry in Entries(s') ensures Owner(s', q, entry) {
        if fate == Served {
          NothingLeftToOwn(s, s', q, ph.at, entry);
        }
      }
      Evolve(s, s', q);
    }
  }

  /** The object goes only after its removal has finished on its present version. */
  lemma UnfinalizeKeepsInv(s: State, q: string, fate: Fate)
    requires Inv(s) && Enabled(s, Unfinalize(q, fate))
    ensures Inv(Do(s, Unfinalize(q, fate)))
  {
    var at, vs := PhaseOf(s, q).at, Versions(s, q);
    assert PhaseOk(s, q, PhaseOf(s, q)) && Seen(s, q) < |vs|;
    if vs[at].finalizer && Takes(s, q, at, fate) {
      var s' := Go(Append(s, q, Gone), q, Idle);
      assert Versions(s', q) == vs + [Gone];
      Evolve(s, s', q);
    } else {
      FailKeepsInv(s, q);
    }
  }

  lemma StepKeepsInv(s: State, step: Step)
    requires Inv(s) && Enabled(s, step) && Fresh(s, step)
    ensures Inv(Do(s, step))
  {
    match step
    case CreateQuota(_) => UserKeepsInv(s, step);
    case DeleteQuota(_) => UserKeepsInv(s, step);
    case TouchQuota(_) => UserKeepsInv(s, step);
    case Sync(q, upTo) => SyncKeepsInv(s, q, upTo);
    case SyncConfig(q, upTo) => SyncConfigKeepsInv(s, q, upTo);
    case Get(q) => GetKeepsInv(s, q);
    case AddFinalizer(q, fate) => AddFinalizerKeepsInv(s, q, fate);
    case Resolve(q) => ResolveKeepsInv(s, q);
    case Stamp(q, fate) => StampKeepsInv(s, q, fate);
    case ReadConfig(q) => ReadConfigKeepsInv(s, q);
    case WriteConfig(q, fate) => WriteConfigKeepsInv(s, q, fate);
    case ReadForRemoval(q) => ReadForRemovalKeepsInv(s, q);
    case WriteRemoval(q, fate) => WriteRemovalKeepsInv(s, q, fate);
    case Unfinalize(q, fate) => UnfinalizeKeepsInv(s, q, fate);
    case Fail(q) => FailKeepsInv(s, q);
  }

  lemma InitHasInv(s: State)
    requires Init(s)
    ensures Inv(s)
  {
    assert Installed(s) in s.configs;
  }

  lemma {:induction false} RunKeepsInv(s: State, steps: seq<Step>, end: State)
    requires Inv(s) && FreshRun(s, steps, end)
    ensures Inv(end)
    decreases |steps|
  {
    if steps != [] {
      StepKeepsInv(s, steps[0]);
      RunKeepsInv(Do(s, steps[0]), steps[1..], end);
    }
  }

  // ---- the guarantees ----

  /** An installed entry of ours belongs to a quota that still exists, carries the finalizer and has its
      identity stamped. */
  ghost predicate NoOrphans(s: State) {
    forall entry :: entry in Entries(s) && entry in s.names.Values ==>
      exists q :: q in s.names && s.names[q] == entry && Settled(Last(s, q))
  }

  lemma OwnedMeansNoOrphans(s: State)
    requires Owned(s)
    ensures NoOrphans(s)
  {
    forall entry | entry in Entries(s) && entry in s.names.Values
      ensures exists q :: q in s.names && s.names[q] == entry && Settled(Last(s, q))
    {
      var q :| Owner(s, q, entry);
      assert s.names[q] == entry;
    }
  }

  /** No orphaned entry, at every moment of every run whose answers are fresh. */
  lemma NoOrphanedEntry(s: State, steps: seq<Step>, end: State)
    requires Init(s) && FreshRun(s, steps, end)
    ensures NoOrphans(end)
  {
    InitHasInv(s);
    RunKeepsInv(s, steps, end);
    OwnedMeansNoOrphans(end);
  }

  lemma GoneOwnsNothing(s: State, q: string)
    requires Owned(s) && q in s.names && Last(s, q).Gone?
    requires forall r :: r in s.names && r != q ==> s.names[r] != s.names[q]
    ensures s.names[q] !in Entries(s)
  {
    assert s.names[q] in s.names.Values;
    assert forall r :: !Owner(s, r, s.names[q]);
  }

  lemma NamesStay(s: State, step: Step)
    requires Enabled(s, step)
    ensures Do(s, step).names == s.names && s.configs <= Do(s, step).configs
  {
  }

  lemma OthersUntouched(s: State, step: Step, q: string)
    requires Enabled(s, step) && q != step.q
    ensures Untouched(s, Do(s, step), q)
  {
  }

  /** A quota cannot disappear while it is the only one behind an installed entry. */
  lemma NotGoneBeforeItsEntry(s: State, steps: seq<Step>, end: State, step: Step, q: string)
    requires Init(s) && FreshRun(s, steps, end) && Enabled(end, step) && Fresh(end, step)
    requires Last(end, q).Present? && Last(Do(end, step), q).Gone? && q in end.names
    requires forall r :: r in end.names && r != q ==> end.names[r] != end.names[q]
    ensures end.names[q] !in Entries(Do(end, step))
  {
    InitHasInv(s);
    RunKeepsInv(s, steps, end);
    StepKeepsInv(end, step);
    NamesStay(end, step);
    GoneOwnsNothing(Do(end, step), q);
  }
}
