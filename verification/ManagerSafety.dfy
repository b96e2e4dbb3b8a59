/**
 Safety of the accounting sets in every interleaving.
 */
module ManagerSafety {
  import opened ManagerBooks
  import opened ManagerMachine

  // ---- what dropping a reference does ----

  lemma AddRefMeaning(b: Books, ref: string, key: string)
    requires RefsTidy(b)
    ensures RefsTidy(AddRef(b, ref, key))
    ensures RefsOf(AddRef(b, ref, key), key) == RefsOf(b, key) + {ref}
    ensures forall k :: k != key ==> RefsOf(AddRef(b, ref, key), k) == RefsOf(b, k) - {ref}
  {
    DropRefMeaning(b, ref, key);
    var d, b' := DropRef(b, ref, key), AddRef(b, ref, key);
    forall k, l, r | k in b'.refs && l in b'.refs && r in b'.refs[k] && r in b'.refs[l]
      ensures k == l
    {
      assert k != key ==> r in RefsOf(d, k);
      assert l != key ==> r in RefsOf(d, l);
    }
  }

  // ---- small steps the big ones are made of ----

  /** A reference is dropped. */
  ghost predicate DropStep(s: State, s': State, ref: string, keep: string) {
    && Dropped(s.b, s'.b, ref, keep) && RefsTidy(s'.b)
    && s'.procs == s.procs && s'.launched == s.launched
    && s'.orphaned == s.orphaned + OrphanedBy(s.b, ref, keep)
  }

  lemma DropKeepsStarts(s: State, s': State, ref: string, keep: string)
    requires StartsOk(s) && NothingToOverwrite(s) && DropStep(s, s', ref, keep)
    ensures StartsOk(s') && NothingToOverwrite(s')
  {
    assert forall p, key :: StartOf(s', p, key) <==> StartOf(s, p, key);
  }

  lemma DropKeepsSets(s: State, s': State, ref: string, keep: string)
    requires NoLeak(s) && Watched(s) && DropStep(s, s', ref, keep)
    ensures NoLeak(s') && Watched(s')
  {
    forall key | key in s'.b.sets ensures exists w :: WatchedBy(s', key, s'.b.sets[key], w) {
      var w :| WatchedBy(s, key, s.b.sets[key], w);
      assert WatchedBy(s', key, s'.b.sets[key], w);
    }
    forall w | w in s'.procs ensures WatcherOk(s', s'.procs[w]) {
      assert WatcherOk(s, s.procs[w]);
    }
    assert forall w, id :: WatcherOf(s', w, id) <==> WatcherOf(s, w, id);
  }

  lemma DropKeepsOrphans(s: State, s': State, ref: string, keep: string)
    requires OrphansExplained(s) && DropStep(s, s', ref, keep)
    ensures OrphansExplained(s')
  {
    forall k | Busy(s'.b, k) && k !in s'.b.refs ensures k in s'.orphaned {
      if k in s.b.refs {
        assert Tears(s.b, ref, keep, k);
      } else {
        assert Busy(s.b, k);
      }
    }
  }

  lemma DropKeepsSafe(s: State, s': State, ref: string, keep: string)
    requires Safe(s) && DropStep(s, s', ref, keep)
    ensures Safe(s')
  {
    DropKeepsStarts(s, s', ref, keep);
    DropKeepsSets(s, s', ref, keep);
    DropKeepsOrphans(s, s', ref, keep);
  }

  /** A start begins: the key is free and gets a process of its own. */
  lemma BeginKeepsSafe(s: State, s': State, p: nat, pr: Proc)
    requires Safe(s) && InStart(pr) && (p in s.procs ==> s.procs[p].RetryWaiting?)
    requires !Busy(s.b, pr.key) && pr.key in s.b.refs && (pr.EnsureStarting? ==> pr.key != "")
    requires s'.b == s.b.(starting := s.b.starting + {pr.key}) && s'.procs == s.procs[p := pr]
    requires s'.launched == s.launched && s'.orphaned == s.orphaned
    ensures Safe(s')
  {
    forall q, key ensures StartOf(s', q, key) <==> StartOf(s, q, key) || (q == p && key == pr.key) {
    }
    forall key | key in s'.b.starting ensures exists q :: StartOf(s', q, key) {
      if key == pr.key {
        assert StartOf(s', p, key);
      } else {
        var q :| StartOf(s, q, key);
        assert StartOf(s', q, key);
      }
    }
    SameWatchers(s, s');
  }

  lemma SameWatcherOf(s: State, s': State, w: nat, id: nat)
    requires w in s'.procs && IsWatcher(s'.procs[w]) ==> w in s.procs && s.procs[w] == s'.procs[w]
    requires WatcherOf(s', w, id)
    ensures WatcherOf(s, w, id)
  {
  }

  /** Processes that are no watchers come and go without effect on the watching. */
  lemma SameWatchers(s: State, s': State)
    requires Watched(s) && s'.b.sets == s.b.sets && s'.b.cancelled == s.b.cancelled
    requires s'.launched == s.launched
    requires forall w :: w in s.procs && IsWatcher(s.procs[w]) ==> w in s'.procs && s'.procs[w] == s.procs[w]
    requires forall w :: w in s'.procs && IsWatcher(s'.procs[w]) ==> w in s.procs && s.procs[w] == s'.procs[w]
    ensures Watched(s')
  {
    forall key | key in s'.b.sets ensures exists w :: WatchedBy(s', key, s'.b.sets[key], w) {
      var w :| WatchedBy(s, key, s.b.sets[key], w);
      assert WatchedBy(s', key, s'.b.sets[key], w);
    }
    forall w | w in s'.procs ensures WatcherOk(s', s'.procs[w]) {
      if IsWatcher(s'.procs[w]) {
        assert WatcherOk(s, s.procs[w]);
      }
    }
    forall v, w, id | WatcherOf(s', v, id) && WatcherOf(s', w, id) ensures v == w {
      SameWatcherOf(s, s', v, id);
      SameWatcherOf(s, s', w, id);
    }
  }

  /** A start ends: its key leaves starting and its process is gone or waits. */
  lemma EndKeepsSafe(s: State, s': State, p: nat)
    requires Safe(s) && p in s.procs && InStart(s.procs[p])
    requires s'.b == s.b.(starting := s.b.starting - {s.procs[p].key})
    requires s'.procs == s.procs - {p} || s'.procs == s.procs[p := RetryWaiting(s.procs[p].key)]
    requires s'.launched == s.launched && s'.orphaned == s.orphaned
    ensures Safe(s')
  {
    assert StartOf(s, p, s.procs[p].key);
    forall q, key ensures StartOf(s', q, key) <==> StartOf(s, q, key) && q != p {
    }
    forall key | key in s'.b.starting ensures exists q :: StartOf(s', q, key) {
      var q :| StartOf(s, q, key);
      assert StartOf(s', q, key);
    }
    SameWatchers(s, s');
  }

  /** A quota is counted under key. */
  lemma AddKeepsSafe(s: State, s': State, key: string, refs: set<string>)
    requires Safe(s) && refs != {} && RefsTidy(s'.b)
    requires s'.b == s.b.(refs := s.b.refs[key := refs]) && s'.orphaned == s.orphaned - {key}
    requires s'.procs == s.procs && s'.launched == s.launched
    ensures Safe(s')
  {
    assert forall p, k :: StartOf(s', p, k) <==> StartOf(s, p, k);
    SameWatchers(s, s');
    forall k | Busy(s'.b, k) && k !in s'.b.refs ensures k in s'.orphaned {
      assert Busy(s.b, k) && k !in s.b.refs;
    }
  }

  // ---- the steps ----

  lemma EnsureKeepsSafe(s: State, p: nat, ref: string, key: string)
    requires Safe(s) && Enabled(s, Ensure(p, ref, key))
    ensures Safe(DoEnsure(s, p, ref, key))
  {
    DropRefMeaning(s.b, ref, key);
    AddRefMeaning(s.b, ref, key);
    var dropped := DropRef(s.b, ref, key);
    var s1 := s.(b := dropped, orphaned := s.orphaned + OrphanedBy(s.b, ref, key));
    DropKeepsSafe(s, s1, ref, key);
    var refs := RefsOf(dropped, key) + {ref};
    var s2 := s1.(b := AddRef(s.b, ref, key), orphaned := s1.orphaned - {key});
    assert ref in refs;
    AddKeepsSafe(s1, s2, key, refs);
    var s' := DoEnsure(s, p, ref, key);
    if Busy(s2.b, key) {
      assert s' == s2.(deferred := s'.deferred);
      SameStarts(s2, s');
      SameWatchers(s2, s');
    } else {
      BeginKeepsSafe(s2, s', p, EnsureStarting(ref, key));
    }
  }

  lemma RegisterKeepsWatched(s: State, s': State, p: nat, w: nat, id: nat, key: string)
    requires Watched(s) && NoLeak(s) && p in s.procs && !IsWatcher(s.procs[p]) && w !in s.procs
    requires id !in s.launched && key !in s.b.sets
    requires s'.b == Register(s.b, key, id) && s'.launched == s.launched[id := key]
    requires w in s'.procs && s'.procs[w] == Watching(key, id)
    requires id !in s.b.cancelled
    requires p in s'.procs && !IsWatcher(s'.procs[p])
    requires forall q :: q != p && q != w ==>
               (q in s'.procs <==> q in s.procs) && (q in s.procs ==> s'.procs[q] == s.procs[q])
    ensures Watched(s')
  {
    forall k | k in s'.b.sets ensures exists v :: WatchedBy(s', k, s'.b.sets[k], v) {
      if k == key {
        assert WatchedBy(s', k, id, w);
      } else {
        var v :| WatchedBy(s, k, s.b.sets[k], v);
        assert WatchedBy(s', k, s'.b.sets[k], v);
      }
    }
    forall v | v in s'.procs ensures WatcherOk(s', s'.procs[v]) {
      if v != p && v != w {
        assert WatcherOk(s, s.procs[v]);
      }
    }
    forall v, i | WatcherOf(s', v, i) ensures (v == w && i == id) || WatcherOf(s, v, i) {
    }
    forall v, i | WatcherOf(s, v, i) ensures i != id {
      assert WatcherOk(s, s.procs[v]);
    }
  }

  lemma RegisterKeepsStarts(s: State, s': State, p: nat, w: nat, id: nat)
    requires StartsOk(s) && NothingToOverwrite(s) && Enabled(s, StartRegisters(p, w, id))
    requires s' == Do(s, StartRegisters(p, w, id))
    ensures StartsOk(s') && NothingToOverwrite(s')
  {
    assert StartOf(s, p, s.procs[p].key);
    forall q, k ensures StartOf(s', q, k) <==> StartOf(s, q, k) {
    }
    forall q | q in s'.procs && (s'.procs[q].EnsureStarting? || s'.procs[q].RetryStarting?)
      ensures s'.procs[q].key !in s'.b.sets
    {
      assert StartOf(s, q, s.procs[q].key);
    }
  }

  lemma RegisterKeepsSafe(s: State, p: nat, w: nat, id: nat)
    requires Safe(s) && Enabled(s, StartRegisters(p, w, id))
    ensures Safe(Do(s, StartRegisters(p, w, id)))
  {
    var s' := Do(s, StartRegisters(p, w, id));
    assert StartOf(s, p, s.procs[p].key);
    RegisterKeepsStarts(s, s', p, w, id);
    RegisterKeepsWatched(s, s', p, w, id, s.procs[p].key);
  }

  lemma FailKeepsSafe(s: State, p: nat)
    requires Safe(s) && Enabled(s, StartFails(p))
    ensures Safe(Do(s, StartFails(p)))
  {
    var s', pr := Do(s, StartFails(p)), s.procs[p];
    var done := s.b.(starting := s.b.starting - {pr.key});
    if pr.EnsureStarting? {
      var s1 := s.(b := done, procs := s.procs - {p});
      EndKeepsSafe(s, s1, p);
      DropRefMeaning(done, pr.ref, "");
      DropKeepsSafe(s1, s', pr.ref, "");
    } else {
      EndKeepsSafe(s, s', p);
    }
  }

  /** A watcher, or a waiting retry, moves on; no start is touched. */
  lemma SameStarts(s: State, s': State)
    requires StartsOk(s) && NothingToOverwrite(s)
    requires s'.b.starting == s.b.starting && s'.b.sets.Keys <= s.b.sets.Keys
    requires forall p :: p in s.procs && InStart(s.procs[p]) ==> p in s'.procs && s'.procs[p] == s.procs[p]
    requires forall p :: p in s'.procs && InStart(s'.procs[p]) ==> p in s.procs && s.procs[p] == s'.procs[p]
    ensures StartsOk(s') && NothingToOverwrite(s')
  {
    forall p, k ensures StartOf(s', p, k) <==> StartOf(s, p, k) {
    }
    forall k | k in s'.b.starting ensures exists p :: StartOf(s', p, k) {
      var p :| StartOf(s, p, k);
      assert StartOf(s', p, k);
    }
  }

  lemma StopKeepsWatched(s: State, s': State, w: nat)
    requires Watched(s) && NoLeak(s) && w in s.procs && s.procs[w].Watching?
    requires s' == Do(s, ManagerStops(w))
    ensures Watched(s') && NoLeak(s')
  {
    var id := s.procs[w].id;
    assert WatcherOk(s, s.procs[w]);
    forall key | key in s'.b.sets ensures exists v :: WatchedBy(s', key, s'.b.sets[key], v) {
      var v :| WatchedBy(s, key, s.b.sets[key], v);
      if v != w && s.b.sets[key] == id {
        assert WatcherOf(s, v, id) && WatcherOf(s, w, id);
      }
      assert WatchedBy(s', key, s'.b.sets[key], v);
    }
    forall v | v in s'.procs ensures WatcherOk(s', s'.procs[v]) {
      if v != w {
        assert WatcherOk(s, s.procs[v]);
      }
    }
    assert forall v, i :: WatcherOf(s', v, i) <==> WatcherOf(s, v, i);
  }

  lemma LockKeepsWatched(s: State, s': State, w: nat)
    requires Watched(s) && NoLeak(s) && w in s.procs && s.procs[w].Stopped?
    requires s' == Do(s, WatcherLocks(w))
    ensures Watched(s') && NoLeak(s')
  {
    var gone, id := s.procs[w].key, s.procs[w].id;
    assert WatcherOk(s, s.procs[w]);
    forall key | key in s'.b.sets ensures exists v :: WatchedBy(s', key, s'.b.sets[key], v) {
      var v :| WatchedBy(s, key, s.b.sets[key], v);
      assert v != w;
      assert WatchedBy(s', key, s'.b.sets[key], v);
    }
    forall v | v in s'.procs ensures WatcherOk(s', s'.procs[v]) {
      if v != w {
        assert WatcherOk(s, s.procs[v]);
      }
    }
    forall v, i | WatcherOf(s', v, i) ensures WatcherOf(s, v, i) {
    }
  }

  lemma LockKeepsSafe(s: State, w: nat)
    requires Safe(s) && Enabled(s, WatcherLocks(w))
    ensures Safe(Do(s, WatcherLocks(w)))
  {
    SameStarts(s, Do(s, WatcherLocks(w)));
    LockKeepsWatched(s, Do(s, WatcherLocks(w)), w);
  }

  lemma WakeKeepsSafe(s: State, p: nat)
    requires Safe(s) && Enabled(s, RetryWakes(p))
    ensures Safe(Do(s, RetryWakes(p)))
  {
    var s', key := Do(s, RetryWakes(p)), s.procs[p].key;
    if RetryBegin(s.b, key).1 {
      BeginKeepsSafe(s, s', p, RetryStarting(key));
    } else {
      SameStarts(s, s');
      SameWatchers(s, s');
    }
  }

  lemma StepKeepsSafe(s: State, step: Step)
    requires Safe(s) && Enabled(s, step)
    ensures Safe(Do(s, step))
  {
    match step
    case Ensure(p, ref, key) => EnsureKeepsSafe(s, p, ref, key);
    case RemoveQuota(ref) =>
      DropRefMeaning(s.b, ref, "");
      DropKeepsSafe(s, Do(s, step), ref, "");
    case StartRegisters(p, w, id) => RegisterKeepsSafe(s, p, w, id);
    case StartFails(p) => FailKeepsSafe(s, p);
    case StartReturns(p) => EndKeepsSafe(s, Do(s, step), p);
    case ManagerStops(w) =>
      SameStarts(s, Do(s, step));
      StopKeepsWatched(s, Do(s, step), w);
    case WatcherLocks(w) => LockKeepsSafe(s, w);
    case RetryWakes(p) => WakeKeepsSafe(s, p);
    case RetryAborts(_) =>
      SameStarts(s, Do(s, step));
      SameWatchers(s, Do(s, step));
    case RootDone =>
      SameStarts(s, Do(s, step));
      SameWatchers(s, Do(s, step));
  }
}
