/**
 What the accounting manager guarantees over whole runs, and the two natural claims that fail.
 */
module ManagerGuarantees {
  import opened KeysAndNames
  import opened ManagerBooks
  import opened ManagerMachine
  import opened ManagerSafety
  import opened ManagerRecovery

  lemma StartIsSafe()
    ensures Safe(START) && Recovering(START) && Fallbacks(START)
  {
  }

  lemma {:induction false} RunKeepsSafe(s: State, steps: seq<Step>, end: State)
    requires Safe(s) && Run(s, steps, end)
    ensures Safe(end)
    decreases |steps|
  {
    if steps != [] {
      StepKeepsSafe(s, steps[0]);
      RunKeepsSafe(Do(s, steps[0]), steps[1..], end);
    }
  }

  // ---- recovery ----

  ghost predicate RecoversThroughout(s: State, steps: seq<Step>)
    decreases |steps|
  {
    Recovering(s) && (steps != [] && Enabled(s, steps[0]) ==> RecoversThroughout(Do(s, steps[0]), steps[1..]))
  }

  ghost predicate KeptThroughout(s: State, steps: seq<Step>)
    decreases |steps|
  {
    steps != [] && Enabled(s, steps[0]) ==> Kept(s, steps[0]) && KeptThroughout(Do(s, steps[0]), steps[1..])
  }

  lemma {:induction false} RunRecoversExactly(s: State, steps: seq<Step>, end: State)
    requires Safe(s) && Recovering(s) && !s.rootDone && Run(s, steps, end) && RootDone !in steps
    ensures RecoversThroughout(s, steps) <==> KeptThroughout(s, steps)
    decreases |steps|
  {
    if steps != [] {
      var s' := Do(s, steps[0]);
      assert steps[0] in steps && forall step :: step in steps[1..] ==> step in steps;
      RecoversExactlyWhenKept(s, steps[0]);
      StepKeepsSafe(s, steps[0]);
      if Recovering(s') {
        RunRecoversExactly(s', steps[1..], end);
      }
    }
  }

  lemma {:induction false} HonestRunRecovers(s: State, steps: seq<Step>, end: State)
    requires Safe(s) && (s.rootDone || (Recovering(s) && Fallbacks(s))) && HonestRun(s, steps, end)
    ensures Safe(end) && (end.rootDone || Recovering(end))
    decreases |steps|
  {
    if steps != [] {
      StepKeepsSafe(s, steps[0]);
      if !s.rootDone {
        HonouredIsKept(s, steps[0]);
        RecoversExactlyWhenKept(s, steps[0]);
        StepKeepsFallbacks(s, steps[0]);
      }
      HonestRunRecovers(Do(s, steps[0]), steps[1..], end);
    }
  }

  // ---- the guarantees ----

  /** Set id was launched for key and is not cancelled. */
  ghost predicate Alive(s: State, id: nat, key: string) {
    id in s.launched && s.launched[id] == key && id !in s.b.cancelled
  }

  /** No leaked or duplicate manager: in every interleaving each launched set is registered under its
      key or cancelled, so no key has two sets alive; and a registration never overwrites another. */
  lemma NoLeakedOrDuplicateSet(steps: seq<Step>, end: State)
    requires Run(START, steps, end)
    ensures forall id :: id in end.launched && id !in end.b.cancelled ==>
              end.launched[id] in end.b.sets && end.b.sets[end.launched[id]] == id
    ensures forall i, j, k :: Alive(end, i, k) && Alive(end, j, k) ==> i == j
    ensures forall p, w, id :: Enabled(end, StartRegisters(p, w, id)) ==> end.procs[p].key !in end.b.sets
  {
    StartIsSafe();
    RunKeepsSafe(START, steps, end);
  }

  /** No dead set stays registered: whenever a cancelled set is still in the books, its goroutine has
      stopped and will remove it, and starting is never left set without a start in flight. */
  lemma NothingStaysStuck(steps: seq<Step>, end: State)
    requires Run(START, steps, end)
    ensures forall k :: k in end.b.sets && end.b.sets[k] in end.b.cancelled ==>
              exists w :: w in end.procs && end.procs[w] == Stopped(k, end.b.sets[k])
    ensures forall k :: k in end.b.starting ==> exists p :: StartOf(end, p, k)
  {
    StartIsSafe();
    RunKeepsSafe(START, steps, end);
    forall k | k in end.b.sets && end.b.sets[k] in end.b.cancelled
      ensures exists w :: w in end.procs && end.procs[w] == Stopped(k, end.b.sets[k])
    {
      var w :| WatchedBy(end, k, end.b.sets[k], w);
      assert end.procs[w] == Stopped(k, end.b.sets[k]);
    }
  }

  /** Reference bookkeeping: each quota counts under at most one key, no reference set is empty, and a
      registered set is referenced exactly when its key is not one whose last reference went while its start
      was in flight, with none since. */
  lemma ReferencesAreTidy(steps: seq<Step>, end: State)
    requires Run(START, steps, end)
    ensures RefsTidy(end.b)
    ensures forall k :: k in end.b.sets ==> (k in end.b.refs <==> k !in end.orphaned)
  {
    StartIsSafe();
    RunKeepsSafe(START, steps, end);
  }

  /** Removing a quota, at any moment of any run, takes its reference away everywhere, tears down exactly the
      sets that only it referenced, and leaves the rest alone. */
  lemma RemoveTearsDown(steps: seq<Step>, s: State, ref: string)
    requires Run(START, steps, s)
    ensures Removed(s.b, Do(s, RemoveQuota(ref)).b, ref)
  {
    DropRefMeaning(s.b, ref, "");
  }

  /** The key under which ref counts after a step, if it counted under word before: its own Ensure counts it
      anew, its Remove and a failed start of its own take it back. */
  ghost function WordAfter(s: State, step: Step, ref: string, word: Option<string>): Option<string>
    requires Enabled(s, step)
  {
    if step.Ensure? && step.ref == ref then Some(step.key)
    else if step.RemoveQuota? && step.ref == ref then None
    else if step.StartFails? && s.procs[step.p].EnsureStarting? && s.procs[step.p].ref == ref then None
    else word
  }

  ghost function LastWord(s: State, steps: seq<Step>, ref: string, word: Option<string>): Option<string>
    decreases |steps|
  {
    if steps == [] || !Enabled(s, steps[0]) then word
    else LastWord(Do(s, steps[0]), steps[1..], ref, WordAfter(s, steps[0], ref, word))
  }

  ghost predicate CountsUnder(b: Books, ref: string, word: Option<string>) {
    "" !in b.refs && forall k :: ref in RefsOf(b, k) <==> word == Some(k)
  }

  lemma EnsureCounts(b: Books, quota: string, key: string, ref: string, word: Option<string>)
    requires CountsUnder(b, ref, word) && key != ""
    ensures CountsUnder(EnsureBegin(b, quota, key).0, ref, if quota == ref then Some(key) else word)
  {
    DropRefMeaning(b, quota, key);
  }

  lemma DropCounts(b: Books, quota: string, ref: string, word: Option<string>)
    requires CountsUnder(b, ref, word)
    ensures CountsUnder(DropRef(b, quota, ""), ref, if quota == ref then None else word)
  {
    DropRefMeaning(b, quota, "");
  }

  lemma StepFollowsWord(s: State, step: Step, ref: string, word: Option<string>)
    requires Enabled(s, step) && CountsUnder(s.b, ref, word)
    ensures CountsUnder(Do(s, step).b, ref, WordAfter(s, step, ref, word))
  {
    if step.Ensure? {
      EnsureCounts(s.b, step.ref, step.key, ref, word);
    } else if step.RemoveQuota? {
      DropCounts(s.b, step.ref, ref, word);
    } else if step.StartFails? && s.procs[step.p].EnsureStarting? {
      var done := s.b.(starting := s.b.starting - {s.procs[step.p].key});
      assert CountsUnder(done, ref, word);
      DropCounts(done, s.procs[step.p].ref, ref, word);
    }
  }

  lemma {:induction false} RunFollowsWord(s: State, steps: seq<Step>, end: State, ref: string, word: Option<string>)
    requires Run(s, steps, end) && CountsUnder(s.b, ref, word)
    ensures CountsUnder(end.b, ref, LastWord(s, steps, ref, word))
    decreases |steps|
  {
    if steps != [] {
      StepFollowsWord(s, steps[0], ref, word);
      RunFollowsWord(Do(s, steps[0]), steps[1..], end, ref, WordAfter(s, steps[0], ref, word));
    }
  }

  /** Over a whole run, a quota counts under a key exactly when its last Ensure named that key, and neither its
      Remove nor a failed start of its own has come since. */
  lemma ReferencesFollowLastWord(steps: seq<Step>, end: State, ref: string)
    requires Run(START, steps, end)
    ensures forall k :: ref in RefsOf(end.b, k) <==> LastWord(START, steps, ref, None) == Some(k)
  {
    RunFollowsWord(START, steps, end, ref, None);
  }

  /** Recovery: while the root context lives, every referenced key is running, being started or waiting to
      be restarted at every moment of a run, exactly when no step of it fails the start of an Ensure that
      others rely on, or returns from one whose set has gone, with no retry waiting. */
  lemma RecoversThroughoutExactlyWhenKept(steps: seq<Step>, end: State)
    requires Run(START, steps, end) && RootDone !in steps
    ensures RecoversThroughout(START, steps) <==> KeptThroughout(START, steps)
  {
    StartIsSafe();
    RunRecoversExactly(START, steps, end);
  }

  /** In particular: if every start that somebody deferred to ended with its set registered, a referenced
      key is always running, being started by a process in flight, or waiting to be restarted. */
  lemma ReferencedKeysRecover(steps: seq<Step>, end: State)
    requires HonestRun(START, steps, end) && !end.rootDone
    ensures forall k :: k in end.b.refs ==>
              k in end.b.sets || (exists p :: StartOf(end, p, k)) || Waiting(end, k)
  {
    StartIsSafe();
    HonestRunRecovers(START, steps, end);
  }

  // ---- the claims that fail ----

  const K := "g/r/h"
  const Q := "c/q"
  const R := "c/r"

  /** Quota Q's set was started, stopped by itself, and waits to be restarted. */
  const RETRYING := State(
    Books(map[], map[K := {Q}], {}, {7}), map[2 := RetryWaiting(K)], map[7 := K], false, {}, {})

  ghost predicate Reachable(s: State) {
    exists steps :: Run(START, steps, s)
  }

  lemma {:induction false} RunOn(a: State, x: seq<Step>, b: State, step: Step)
    requires Run(a, x, b) && Enabled(b, step)
    ensures Run(a, x + [step], Do(b, step))
    decreases |x|
  {
    if x == [] {
      assert [step][1..] == [];
    } else {
      RunOn(Do(a, x[0]), x[1..], b, step);
      assert (x + [step])[1..] == x[1..] + [step];
    }
  }

  lemma Then(s: State, step: Step, s': State)
    requires Reachable(s) && Enabled(s, step) && Do(s, step) == s'
    ensures Reachable(s')
  {
    var x :| Run(START, x, s);
    RunOn(START, x, s, step);
  }

  const S1 := State(Books(map[], map[K := {Q}], {K}, {}), map[1 := EnsureStarting(Q, K)], map[], false, {}, {})
  const S2 := State(Books(map[K := 7], map[K := {Q}], {K}, {}),
                    map[1 := EnsureRegistered(Q, K), 2 := Watching(K, 7)], map[7 := K], false, {}, {})
  const S3 := State(Books(map[K := 7], map[K := {Q}], {}, {}), map[2 := Watching(K, 7)], map[7 := K], false, {}, {})
  const S4 := State(Books(map[K := 7], map[K := {Q}], {}, {7}), map[2 := Stopped(K, 7)], map[7 := K], false, {}, {})

  lemma BecomesStarted()
    ensures Do(START, Ensure(1, Q, K)) == S1
    ensures Do(S1, StartRegisters(1, 2, 7)) == S2
    ensures Do(S2, StartReturns(1)) == S3
  {
    assert DropRef(START.b, Q, K) == START.b;
    assert RefsOf(START.b, K) + {Q} == {Q};
    assert AddRef(START.b, Q, K) == Books(map[], map[K := {Q}], {}, {});
    assert OrphanedBy(START.b, Q, K) == {};
  }

  lemma BecomesStopped()
    ensures Do(S3, ManagerStops(2)) == S4
    ensures Do(S4, WatcherLocks(2)) == RETRYING
  {
  }

  lemma BecomesRetrying()
    ensures Reachable(RETRYING)
  {
    BecomesStarted();
    BecomesStopped();
    assert Run(START, [], START);
    Then(START, Ensure(1, Q, K), S1);
    Then(S1, StartRegisters(1, 2, 7), S2);
    Then(S2, StartReturns(1), S3);
    Then(S3, ManagerStops(2), S4);
    Then(S4, WatcherLocks(2), RETRYING);
  }

  const S6 := State(
    Books(map[], map[K := {Q}], {K}, {7}), map[2 := RetryStarting(K)], map[7 := K], false, {}, {})
  const S7 := State(Books(map[], map[], {K}, {7}), map[2 := RetryStarting(K)], map[7 := K], false, {}, {K})
  const UNREFERENCED := State(
    Books(map[K := 8], map[], {K}, {7}), map[2 := RetryRegistered(K), 3 := Watching(K, 8)],
    map[7 := K, 8 := K], false, {}, {K})

  lemma BecomesUnreferenced()
    ensures Do(S6, RemoveQuota(Q)) == S7
    ensures Do(S7, StartRegisters(2, 3, 8)) == UNREFERENCED
  {
    assert Tears(S6.b, Q, "", K);
    assert DropRef(S6.b, Q, "") == S7.b;
  }

  /** "Registered means referenced" fails: the last quota goes while a retry is inside its start. */
  lemma RegisteredWithoutReference()
    ensures Reachable(UNREFERENCED)
    ensures K in UNREFERENCED.b.sets && UNREFERENCED.b.sets[K] !in UNREFERENCED.b.cancelled
    ensures K !in UNREFERENCED.b.refs
  {
    BecomesRetrying();
    BecomesUnreferenced();
    Then(RETRYING, RetryWakes(2), S6);
    Then(S6, RemoveQuota(Q), S7);
    Then(S7, StartRegisters(2, 3, 8), UNREFERENCED);
  }

  const T6 := State(
    Books(map[], map[K := {Q, R}], {K}, {7}), map[2 := RetryWaiting(K), 4 := EnsureStarting(R, K)],
    map[7 := K], false, {}, {})
  const T7 := State(
    Books(map[], map[K := {Q, R}], {K}, {7}), map[4 := EnsureStarting(R, K)], map[7 := K], false, {K}, {})
  const ABANDONED := State(
    Books(map[], map[K := {Q}], {}, {7}), map[], map[7 := K], false, {K}, {})

  lemma BecomesShared()
    ensures Do(RETRYING, Ensure(4, R, K)) == T6
  {
    assert DropRef(RETRYING.b, R, K) == RETRYING.b;
    assert {Q} + {R} == {Q, R};
  }

  lemma BecomesBusy()
    ensures Reachable(T6)
  {
    BecomesRetrying();
    BecomesShared();
    Then(RETRYING, Ensure(4, R, K), T6);
  }

  lemma BecomesDeferred()
    ensures Reachable(T7)
  {
    BecomesBusy();
    Then(T6, RetryWakes(2), T7);
  }

  lemma BecomesAbandoned()
    ensures Do(T7, StartFails(4)) == ABANDONED
  {
    var done := T7.b.(starting := {});
    assert Q != R;
    assert done.refs[K] - {R} == {Q};
    assert done.refs[K] != {R} by {
      assert Q in done.refs[K];
    }
    assert DropRef(done, R, "") == ABANDONED.b;
    assert OrphanedBy(done, R, "") == {};
  }

  /** "Referenced means running, being started or retried" fails: a retry leaves in favour of another
      quota's Ensure, whose start then fails and takes back only its own reference. */
  lemma ReferencedButAbandoned()
    ensures Reachable(ABANDONED)
    ensures K in ABANDONED.b.refs && !Busy(ABANDONED.b, K) && ABANDONED.procs == map[] && !ABANDONED.rootDone
  {
    BecomesDeferred();
    BecomesAbandoned();
    Then(T7, StartFails(4), ABANDONED);
  }
}
