/**
 Recovery step by step: exactly when a step leaves every referenced key running, being started or waiting
 to be restarted, and why honouring every deferral is enough.
 */
module ManagerRecovery {
  import opened ManagerBooks
  import opened ManagerMachine
  import opened ManagerSafety

  ghost predicate Served(s: State, key: string) {
    Busy(s.b, key) || Waiting(s, key)
  }

  /** A waiting retry goes on waiting unless it is the process that moves. */
  lemma WaitingStays(s: State, s': State, key: string)
    requires forall p :: p in s.procs && s.procs[p] == RetryWaiting(key) ==>
               p in s'.procs && s'.procs[p] == s.procs[p]
    requires Waiting(s, key)
    ensures Waiting(s', key)
  {
    var p :| p in s.procs && s.procs[p] == RetryWaiting(key);
    assert p in s'.procs && s'.procs[p] == RetryWaiting(key);
  }

  // ---- kept steps recover ----

  /** What an Ensure or a Remove does to a key: somebody's last reference goes, or it is as before. */
  lemma DropServes(s: State, b': Books, ref: string, keep: string, k: string)
    requires Recovering(s) && Dropped(s.b, b', ref, keep) && k in b'.refs
    ensures Busy(b', k) || Waiting(s, k)
  {
  }

  lemma EnsureServes(s: State, p: nat, ref: string, key: string, k: string)
    requires Recovering(s) && RefsTidy(s.b) && Enabled(s, Ensure(p, ref, key))
    requires k in DoEnsure(s, p, ref, key).b.refs
    ensures Served(DoEnsure(s, p, ref, key), k)
  {
    DropRefMeaning(s.b, ref, key);
    if k != key {
      DropServes(s, DropRef(s.b, ref, key), ref, key, k);
      if Waiting(s, k) {
        WaitingStays(s, DoEnsure(s, p, ref, key), k);
      }
    }
  }

  lemma RollbackServes(s: State, p: nat, k: string)
    requires Recovering(s) && RefsTidy(s.b) && NothingToOverwrite(s)
    requires Enabled(s, StartFails(p)) && s.procs[p].EnsureStarting? && Kept(s, StartFails(p))
    requires k in Do(s, StartFails(p)).b.refs
    ensures Served(Do(s, StartFails(p)), k)
  {
    var s', pr := Do(s, StartFails(p)), s.procs[p];
    DropRefMeaning(s.b.(starting := s.b.starting - {pr.key}), pr.ref, "");
    assert RefsOf(s'.b, k) != {} && RefsOf(s'.b, pr.key) == RefsOf(s.b, pr.key) - {pr.ref};
    if Waiting(s, k) {
      WaitingStays(s, s', k);
    }
  }

  lemma FailServes(s: State, p: nat, k: string)
    requires Recovering(s) && Enabled(s, StartFails(p)) && s.procs[p].RetryStarting? && k in s.b.refs
    ensures Served(Do(s, StartFails(p)), k)
  {
    var s' := Do(s, StartFails(p));
    assert s'.procs[p] == RetryWaiting(s.procs[p].key);
    if k != s.procs[p].key && Waiting(s, k) {
      WaitingStays(s, s', k);
    }
  }

  lemma LockServes(s: State, w: nat, k: string)
    requires Recovering(s) && RefsTidy(s.b) && Enabled(s, WatcherLocks(w)) && k in s.b.refs
    ensures Served(Do(s, WatcherLocks(w)), k)
  {
    var s' := Do(s, WatcherLocks(w));
    if Waiting(s, k) {
      WaitingStays(s, s', k);
    } else if k == s.procs[w].key && k !in s'.b.sets && k !in s'.b.starting {
      assert s'.procs[w] == RetryWaiting(k);
    }
  }

  lemma WakeServes(s: State, p: nat, k: string)
    requires Recovering(s) && RefsTidy(s.b) && Enabled(s, RetryWakes(p)) && k in s.b.refs
    ensures Served(Do(s, RetryWakes(p)), k)
  {
    if k != s.procs[p].key && Waiting(s, k) {
      WaitingStays(s, Do(s, RetryWakes(p)), k);
    }
  }

  lemma StepServes(s: State, step: Step, k: string)
    requires Safe(s) && Recovering(s) && !s.rootDone && Enabled(s, step) && Kept(s, step)
    requires k in Do(s, step).b.refs
    ensures Served(Do(s, step), k)
  {
    if step.Ensure? {
      EnsureServes(s, step.p, step.ref, step.key, k);
    } else if step.RemoveQuota? {
      DropRefMeaning(s.b, step.ref, "");
      DropServes(s, Do(s, step).b, step.ref, "", k);
      if Waiting(s, k) {
        WaitingStays(s, Do(s, step), k);
      }
    } else if step.StartFails? {
      if s.procs[step.p].EnsureStarting? {
        RollbackServes(s, step.p, k);
      } else {
        FailServes(s, step.p, k);
      }
    } else if step.WatcherLocks? {
      LockServes(s, step.w, k);
    } else if step.RetryWakes? {
      WakeServes(s, step.p, k);
    } else if Waiting(s, k) {
      WaitingStays(s, Do(s, step), k);
    }
  }

  // ---- the others strand a key ----

  lemma UnkeptStrands(s: State, step: Step)
    requires Safe(s) && !s.rootDone && Enabled(s, step) && !Kept(s, step)
    ensures !Recovering(Do(s, step))
  {
    var s', pr := Do(s, step), s.procs[step.p];
    assert !Waiting(s', pr.key) by {
      assert forall p :: p in s'.procs ==> p in s.procs && s'.procs[p] == s.procs[p];
    }
    if step.StartFails? {
      var other :| other in RefsOf(s.b, pr.key) && other != pr.ref;
      DropRefMeaning(s.b.(starting := s.b.starting - {pr.key}), pr.ref, "");
      assert other in RefsOf(s'.b, pr.key);
    }
  }

  /** While the root context lives, recovery survives a step exactly when the step is kept. */
  lemma RecoversExactlyWhenKept(s: State, step: Step)
    requires Safe(s) && Recovering(s) && !s.rootDone && Enabled(s, step)
    ensures Recovering(Do(s, step)) <==> Kept(s, step)
  {
    if Kept(s, step) {
      forall k | k in Do(s, step).b.refs ensures Served(Do(s, step), k) {
        StepServes(s, step, k);
      }
    } else {
      UnkeptStrands(s, step);
    }
  }

  // ---- honoured deferrals are kept ----

  lemma HonouredIsKept(s: State, step: Step)
    requires Fallbacks(s) && Enabled(s, step) && DeferralsHonoured(s, step)
    ensures Kept(s, step)
  {
    if step.StartFails? || step.StartReturns? {
      assert FallbackOk(s, s.procs[step.p]);
    }
  }

  /** A process keeps its fallback while its references, its deferral and the retries stay. */
  lemma SameFallback(s: State, s': State, pr: Proc)
    requires FallbackOk(s, pr)
    requires InStart(pr) ==>
               && (pr.key in s.b.sets ==> pr.key in s'.b.sets || pr.key !in s'.b.refs)
               && (pr.key in s.deferred ==> pr.key in s'.deferred)
               && RefsOf(s'.b, pr.key) <= RefsOf(s.b, pr.key) && (pr.key in s'.b.refs ==> pr.key in s.b.refs)
               && (Waiting(s, pr.key) ==> Waiting(s', pr.key))
    ensures FallbackOk(s', pr)
  {
  }

  /** Somebody who counts under a key with a start in flight defers to it; a start of one's own finds the
      other references, if any, with a retry. */
  lemma EnsureFallback(s: State, p: nat, ref: string, key: string, q: nat)
    requires Safe(s) && Fallbacks(s) && Enabled(s, Ensure(p, ref, key)) && q in s.procs
    ensures FallbackOk(DoEnsure(s, p, ref, key), s.procs[q])
  {
    var s', pr := DoEnsure(s, p, ref, key), s.procs[q];
    DropRefMeaning(s.b, ref, key);
    assert FallbackOk(s, pr);
    if InStart(pr) {
      assert StartOf(s, q, pr.key);
      if Waiting(s, pr.key) {
        WaitingStays(s, s', pr.key);
      }
      if pr.key != key {
        SameFallback(s, s', pr);
      }
    }
  }

  lemma NewStartFallback(s: State, p: nat, ref: string, key: string)
    requires RefsTidy(s.b) && Recovering(s) && Enabled(s, Ensure(p, ref, key))
    requires p in DoEnsure(s, p, ref, key).procs
    ensures FallbackOk(DoEnsure(s, p, ref, key), DoEnsure(s, p, ref, key).procs[p])
  {
    DropRefMeaning(s.b, ref, key);
    if RefsOf(s.b, key) != {} {
      assert key in s.b.refs;
      WaitingStays(s, DoEnsure(s, p, ref, key), key);
    }
  }

  lemma WakeFallback(s: State, p: nat, q: nat)
    requires Safe(s) && Fallbacks(s) && Enabled(s, RetryWakes(p)) && q in s.procs && q != p
    ensures FallbackOk(Do(s, RetryWakes(p)), s.procs[q])
  {
    var pr := s.procs[q];
    assert FallbackOk(s, pr);
    if InStart(pr) {
      assert StartOf(s, q, pr.key);
      if pr.key != s.procs[p].key {
        if Waiting(s, pr.key) {
          WaitingStays(s, Do(s, RetryWakes(p)), pr.key);
        }
        SameFallback(s, Do(s, RetryWakes(p)), pr);
      }
    }
  }

  lemma FailFallback(s: State, p: nat, q: nat)
    requires Safe(s) && Fallbacks(s) && Enabled(s, StartFails(p)) && q in s.procs && q != p
    ensures FallbackOk(Do(s, StartFails(p)), s.procs[q])
  {
    var s', pr := Do(s, StartFails(p)), s.procs[p];
    assert FallbackOk(s, s.procs[q]);
    if InStart(s.procs[q]) && Waiting(s, s.procs[q].key) {
      WaitingStays(s, s', s.procs[q].key);
    }
    if pr.EnsureStarting? {
      DropRefMeaning(s.b.(starting := s.b.starting - {pr.key}), pr.ref, "");
    }
    SameFallback(s, s', s.procs[q]);
  }

  lemma LockFallback(s: State, w: nat, q: nat)
    requires Safe(s) && Fallbacks(s) && Enabled(s, WatcherLocks(w)) && q in s.procs && q != w
    ensures FallbackOk(Do(s, WatcherLocks(w)), s.procs[q])
  {
    var s', pr := Do(s, WatcherLocks(w)), s.procs[q];
    assert FallbackOk(s, pr);
    if InStart(pr) {
      if Waiting(s, pr.key) {
        WaitingStays(s, s', pr.key);
      } else if pr.key in s.b.sets && pr.key !in s'.b.sets && pr.key in s.b.refs {
        assert s'.procs[w] == RetryWaiting(pr.key);
      } else {
        SameFallback(s, s', pr);
      }
    }
  }

  lemma PlainFallback(s: State, step: Step, q: nat)
    requires Safe(s) && Fallbacks(s) && !s.rootDone && Enabled(s, step)
    requires !step.Ensure? && !step.StartFails? && !step.WatcherLocks? && !step.RetryWakes?
    requires q in s.procs && q in Do(s, step).procs && Do(s, step).procs[q] == s.procs[q]
    ensures FallbackOk(Do(s, step), s.procs[q])
  {
    var s' := Do(s, step);
    assert FallbackOk(s, s.procs[q]);
    if Waiting(s, s.procs[q].key) {
      WaitingStays(s, s', s.procs[q].key);
    }
    if step.RemoveQuota? {
      DropRefMeaning(s.b, step.ref, "");
    }
    SameFallback(s, s', s.procs[q]);
  }

  lemma StepFallback(s: State, step: Step, q: nat)
    requires Safe(s) && Recovering(s) && Fallbacks(s) && !s.rootDone && Enabled(s, step)
    requires q in Do(s, step).procs
    ensures FallbackOk(Do(s, step), Do(s, step).procs[q])
  {
    var s' := Do(s, step);
    if step.Ensure? {
      if q == step.p {
        NewStartFallback(s, step.p, step.ref, step.key);
      } else {
        EnsureFallback(s, step.p, step.ref, step.key, q);
      }
    } else if q in s.procs && s'.procs[q] == s.procs[q] {
      assert FallbackOk(s, s.procs[q]);
      if step.StartFails? {
        FailFallback(s, step.p, q);
      } else if step.WatcherLocks? {
        LockFallback(s, step.w, q);
      } else if step.RetryWakes? {
        WakeFallback(s, step.p, q);
      } else {
        PlainFallback(s, step, q);
      }
    }
  }

  lemma StepKeepsFallbacks(s: State, step: Step)
    requires Safe(s) && Recovering(s) && Fallbacks(s) && !s.rootDone && Enabled(s, step)
    ensures Fallbacks(Do(s, step))
  {
    forall q | q in Do(s, step).procs ensures FallbackOk(Do(s, step), Do(s, step).procs[q]) {
      StepFallback(s, step, q);
    }
  }
}
