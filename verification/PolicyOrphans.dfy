/**
 When the policy machine goes wrong: the exact conditions under which a stale read orphans an entry or a
 delete loses one, with runs that show each.
 */
module PolicyOrphans {
  import opened PolicyMachine
  import opened PolicySafety

  // ---- reads that orphan ----

  ghost predicate Alone(s: State, q: string) {
    q in s.names && forall r :: r in s.names && r != q ==> s.names[r] != s.names[q]
  }

  /** The entry is still installed, and its only owner is let go. */
  lemma StaleNotFoundOrphans(s: State, q: string)
    requires Inv(s) && Enabled(s, ReadForRemoval(q)) && s.configs[s.seenConfig].NoConfig? && Alone(s, q)
    requires !FreshNotFound(s, ReadForRemoval(q))
    ensures !NoOrphans(DoUnfinalize(Do(s, ReadForRemoval(q)), q, PhaseOf(s, q).at, Served))
  {
    var s2 := DoUnfinalize(Do(s, ReadForRemoval(q)), q, PhaseOf(s, q).at, Served);
    assert PhaseOk(s, q, PhaseOf(s, q));
    assert s.names[q] in Entries(s) && s.names[q] in s.names.Values;
    var r :| Owner(s, r, s.names[q]);
    assert r == q;
    assert Last(s2, q) == Gone && Entries(s2) == Entries(s) && s2.names == s.names;
  }

  /** A removal that is told there is no configuration is safe exactly when it is told so rightly: then,
      and only then, the next step, which lets the quota go, leaves no orphan. */
  lemma NotFoundIsSafeExactlyWhenFresh(s: State, q: string)
    requires Inv(s) && Enabled(s, ReadForRemoval(q)) && s.configs[s.seenConfig].NoConfig? && Alone(s, q)
    ensures var s1 := Do(s, ReadForRemoval(q));
            && Enabled(s1, Unfinalize(q, Served))
            && (FreshNotFound(s, ReadForRemoval(q)) <==> NoOrphans(Do(s1, Unfinalize(q, Served))))
  {
    var s1 := Do(s, ReadForRemoval(q));
    assert PhaseOk(s, q, PhaseOf(s, q));
    if FreshNotFound(s, ReadForRemoval(q)) {
      StepKeepsInv(s, ReadForRemoval(q));
      StepKeepsInv(s1, Unfinalize(q, Served));
      OwnedMeansNoOrphans(Do(s1, Unfinalize(q, Served)));
    } else {
      StaleNotFoundOrphans(s, q);
    }
  }

  /** What a reconcile does with a quota it reads alive, finalized and stamped, when nothing fails and it
      reads the current configuration. */
  function Installation(s: State, q: string): State
    requires q in s.names && s.configs != []
  {
    var installed := if s.names[q] in Entries(s) then s else PutConfig(s, Config(Entries(s) + {s.names[q]}));
    Go(installed, q, Idle).(seenConfig := |s.configs| - 1)
  }

  lemma InstallationReads(s: State, q: string)
    requires q in s.names && s.configs != []
    ensures var at, n := Seen(s, q), |s.configs| - 1;
            Do(Go(s, q, Installing(at)).(seenConfig := n), ReadConfig(q))
            == Go(s, q, Writing(at, n, s.configs[n])).(seenConfig := n)
  {
  }

  lemma InstallationWrites(s: State, q: string)
    requires q in s.names && s.configs != []
    ensures var n := |s.configs| - 1;
            Do(Go(s, q, Writing(Seen(s, q), n, s.configs[n])).(seenConfig := n), WriteConfig(q, Served))
            == Installation(s, q)
  {
  }

  /** Some steps, fresh or not, lead from a to b. */
  ghost predicate CanReach(a: State, b: State) {
    exists steps :: Run(a, steps, b)
  }

  lemma Before(a: State, step: Step, b: State, c: State)
    requires Enabled(a, step) && Do(a, step) == b && CanReach(b, c)
    ensures CanReach(a, c)
  {
    var x :| Run(b, x, c);
    assert ([step] + x)[1..] == x;
    assert Run(a, [step] + x, c);
  }

  lemma InstallationEnds(s: State, q: string)
    requires q in s.names && s.configs != []
    ensures CanReach(Go(s, q, Installing(Seen(s, q))), Installation(s, q))
  {
    var at, n, s' := Seen(s, q), |s.configs| - 1, Installation(s, q);
    var s2 := Go(s, q, Installing(at));
    var s3, s4 := s2.(seenConfig := n), Go(s, q, Writing(at, n, s.configs[n])).(seenConfig := n);
    InstallationReads(s, q);
    InstallationWrites(s, q);
    assert Run(s', [], s');
    Before(s4, WriteConfig(q, Served), s', s');
    Before(s3, ReadConfig(q), s4, s');
    Before(s2, SyncConfig(q, n), s3, s');
  }

  /** Reading, resolving, reading the configuration, writing: the installation is a run. */
  lemma InstallationIsARun(s: State, q: string)
    requires Inv(s) && Enabled(s, Get(q)) && Installs(Versions(s, q)[Seen(s, q)])
    ensures CanReach(s, Installation(s, q))
  {
    var at := Seen(s, q);
    var s1, s2 := Go(s, q, Resolving(at)), Go(s, q, Installing(at));
    InstallationEnds(s, q);
    assert Do(s1, Resolve(q)) == s2;
    Before(s1, Resolve(q), s2, Installation(s, q));
    Before(s, Get(q), s1, Installation(s, q));
  }

  /** A read that shows the quota alive, finalized and stamped is safe exactly when it is fresh: then, and
      only then, the installation it leads to leaves no orphan. */
  lemma GetIsSafeExactlyWhenFresh(s: State, q: string)
    requires Inv(s) && Enabled(s, Get(q)) && Installs(Versions(s, q)[Seen(s, q)]) && Alone(s, q)
    ensures FreshGet(s, Get(q)) <==> NoOrphans(Installation(s, q))
  {
    var s', entry := Installation(s, q), s.names[q];
    assert entry in Entries(s') && entry in s'.names.Values && Last(s', q) == Last(s, q);
    OwnedMeansNoOrphans(s);
    if FreshGet(s, Get(q)) {
      forall e | e in Entries(s') && e in s'.names.Values
        ensures exists r :: r in s'.names && s'.names[r] == e && Settled(Last(s', r))
      {
        if e != entry {
          var r :| r in s.names && s.names[r] == e && Settled(Last(s, r));
          assert Last(s', r) == Last(s, r);
        }
      }
    }
  }

  // ---- deletes that lose an entry ----

  /** The configuration is deleted by somebody who read it before its present version. */
  ghost predicate BlindDelete(s: State, step: Step)
    requires Enabled(s, step)
  {
    step.WriteRemoval? && step.fate != Refused && PhaseOf(s, step.q).kept == {}
    && PhaseOf(s, step.q).version + 1 < |s.configs|
  }

  /** The quota's own removal takes effect. */
  ghost predicate OwnRemoval(s: State, step: Step, q: string)
    requires Enabled(s, step) && q in s.names
  {
    step.WriteRemoval? && step.q == q && step.fate != Refused && s.names[q] !in PhaseOf(s, q).kept
    && (PhaseOf(s, q).kept == {} || PhaseOf(s, q).version + 1 == |s.configs|)
  }

  /** A write to come remembers a version of the configuration and what was read there. */
  ghost predicate Remembers(s: State, q: string) {
    var ph := PhaseOf(s, q);
    && (ph.Writing? ==> ph.version < |s.configs| && ph.read == s.configs[ph.version])
    && (ph.Filtering? ==>
          && ph.version < |s.configs|
          && var read := EntriesOf(s.configs[ph.version]);
             ph.kept == read || (q in s.names && ph.kept == read - {s.names[q]}))
  }

  ghost predicate AllRemember(s: State) {
    forall q :: Remembers(s, q)
  }

  /** However stale what was read, and whatever is orphaned: every step of every run keeps that. */
  lemma StepRemembers(s: State, step: Step)
    requires AllRemember(s) && Enabled(s, step)
    ensures AllRemember(Do(s, step))
  {
    forall q ensures Remembers(Do(s, step), q) {
      assert Remembers(s, q);
      if q == step.q {
        OwnStepRemembers(s, step);
      } else {
        NamesStay(s, step);
        OthersUntouched(s, step, q);
      }
    }
  }

  lemma OwnStepRemembers(s: State, step: Step)
    requires Enabled(s, step) && Remembers(s, step.q)
    ensures Remembers(Do(s, step), step.q)
  {
  }

  lemma OnlyWritesChangeEntries(s: State, step: Step)
    requires Enabled(s, step)
    ensures step.WriteConfig? || step.WriteRemoval? || Entries(Do(s, step)) == Entries(s)
  {
  }

  lemma InstallKeepsEntries(s: State, q: string, fate: Fate)
    requires Remembers(s, q) && Enabled(s, WriteConfig(q, fate))
    ensures Entries(s) <= Entries(DoWriteConfig(s, q, fate))
  {
  }

  lemma RemovalLosesExactly(s: State, r: string, fate: Fate, q: string)
    requires Remembers(s, r) && Enabled(s, WriteRemoval(r, fate)) && Alone(s, q) && s.names[q] in Entries(s)
    ensures var step := WriteRemoval(r, fate);
            s.names[q] in Entries(DoWriteRemoval(s, r, fate))
            <==> !(OwnRemoval(s, step, q) || (r != q && BlindDelete(s, step)))
  {
  }

  /** An installed entry is lost exactly to its own removal, or to somebody else's blind delete. */
  lemma EntryLostExactly(s: State, step: Step, q: string)
    requires AllRemember(s) && Enabled(s, step) && Alone(s, q) && s.names[q] in Entries(s)
    ensures s.names[q] in Entries(Do(s, step))
            <==> !(OwnRemoval(s, step, q) || (step.q != q && BlindDelete(s, step)))
  {
    OnlyWritesChangeEntries(s, step);
    assert Remembers(s, step.q);
    if step.WriteConfig? {
      InstallKeepsEntries(s, step.q, step.fate);
    } else if step.WriteRemoval? {
      RemovalLosesExactly(s, step.q, step.fate, q);
    }
  }

  ghost predicate InstalledThroughout(s: State, steps: seq<Step>, q: string)
    requires q in s.names
    decreases |steps|
  {
    s.names[q] in Entries(s) &&
    (steps != [] && Enabled(s, steps[0]) && q in Do(s, steps[0]).names ==>
       InstalledThroughout(Do(s, steps[0]), steps[1..], q))
  }

  ghost predicate NothingLoses(s: State, steps: seq<Step>, q: string)
    requires q in s.names
    decreases |steps|
  {
    steps != [] && Enabled(s, steps[0]) && q in Do(s, steps[0]).names ==>
      && !OwnRemoval(s, steps[0], q) && (steps[0].q == q || !BlindDelete(s, steps[0]))
      && NothingLoses(Do(s, steps[0]), steps[1..], q)
  }

  /** Over a whole run: once installed, an entry is installed at every moment exactly when its quota's own
      removal does not take effect and nobody else deletes blindly. */
  lemma {:induction false} EntryStaysExactly(s: State, steps: seq<Step>, end: State, q: string)
    requires AllRemember(s) && Run(s, steps, end) && Alone(s, q) && s.names[q] in Entries(s)
    ensures InstalledThroughout(s, steps, q) <==> NothingLoses(s, steps, q)
    decreases |steps|
  {
    if steps != [] {
      var s' := Do(s, steps[0]);
      NamesStay(s, steps[0]);
      EntryLostExactly(s, steps[0], q);
      StepRemembers(s, steps[0]);
      if s.names[q] in Entries(s') {
        EntryStaysExactly(s', steps[1..], end, q);
      }
    }
  }

  /** A reconcile that read the current configuration and is answered leaves its entry installed. */
  lemma CurrentInstallSucceeds(s: State, q: string)
    requires AllRemember(s) && Enabled(s, WriteConfig(q, Served)) && PhaseOf(s, q).version + 1 == |s.configs|
    ensures s.names[q] in Entries(Do(s, WriteConfig(q, Served)))
  {
    assert Remembers(s, q);
  }

  /** Whatever is read in a run from the start, all this holds in it. */
  lemma {:induction false} RunRemembers(s: State, steps: seq<Step>, end: State)
    requires AllRemember(s) && Run(s, steps, end)
    ensures AllRemember(end)
    decreases |steps|
  {
    if steps != [] {
      StepRemembers(s, steps[0]);
      RunRemembers(Do(s, steps[0]), steps[1..], end);
    }
  }

  lemma InitRemembers(s: State)
    requires Init(s)
    ensures AllRemember(s)
  {
  }

  // ---- runs ----

  ghost predicate Reaches(a: State, b: State) {
    exists steps :: FreshRun(a, steps, b)
  }

  lemma {:induction false} RunOn(a: State, x: seq<Step>, b: State, step: Step)
    requires FreshRun(a, x, b) && Enabled(b, step) && Fresh(b, step)
    ensures FreshRun(a, x + [step], Do(b, step))
    decreases |x|
  {
    if x == [] {
      assert [step][1..] == [];
    } else {
      RunOn(Do(a, x[0]), x[1..], b, step);
      assert (x + [step])[1..] == x[1..] + [step];
    }
  }

  lemma Then(a: State, b: State, step: Step, c: State)
    requires Reaches(a, b) && Enabled(b, step) && Fresh(b, step) && Do(b, step) == c
    ensures Reaches(a, c)
  {
    var x :| FreshRun(a, x, b);
    RunOn(a, x, b, step);
  }

  const BARE := Present(false, false, false)
  const FINAL := Present(true, false, false)
  const STAMPED := Present(true, false, true)
  const LEAVING := Present(true, true, true)

  const V1 := [Gone, BARE]
  const V2 := [Gone, BARE, FINAL]
  const V3 := [Gone, BARE, FINAL, STAMPED]
  const V4 := [Gone, BARE, FINAL, STAMPED, LEAVING]
  const V5 := [Gone, BARE, FINAL, STAMPED, LEAVING, Gone]

  /** s, but for one quota's versions, the one a read returns and where its reconcile stands. */
  function With(s: State, q: string, vs: seq<Version>, seen: nat, ph: Phase): State {
    s.(quotas := s.quotas[q := vs], seen := s.seen[q := seen], phases := s.phases[q := ph])
  }

  /** A quota nobody has heard of, while reads of the configuration are current. */
  ghost predicate Unheard(s: State, q: string) {
    && q in s.names && q !in s.quotas && q !in s.seen && q !in s.phases
    && s.configs != [] && s.seenConfig == |s.configs| - 1 && s.names[q] !in Entries(s)
  }

  function Created(s: State, q: string): State
    requires q in s.names
  {
    With(PutConfig(s, Config(Entries(s) + {s.names[q]})), q, V3, 2, Idle)
  }

  lemma FirstSteps(s: State, q: string)
    requires Unheard(s, q)
    ensures var s1 := s.(quotas := s.quotas[q := V1]);
            var s2 := s1.(seen := s.seen[q := 1]);
            && Do(s, CreateQuota(q)) == s1 && Do(s1, Sync(q, 1)) == s2
            && Do(s2, Get(q)) == With(s, q, V1, 1, AddingFinalizer(1))
  {
    assert [Gone] + [BARE] == V1;
  }

  lemma FinalizerSteps(s: State, q: string)
    requires Unheard(s, q)
    ensures Do(With(s, q, V1, 1, AddingFinalizer(1)), AddFinalizer(q, Served)) == With(s, q, V2, 1, Idle)
    ensures Do(With(s, q, V2, 1, Idle), Sync(q, 2)) == With(s, q, V2, 2, Idle)
  {
    assert V1 + [FINAL] == V2;
  }

  lemma ResolveSteps(s: State, q: string)
    requires Unheard(s, q)
    ensures Do(With(s, q, V2, 2, Idle), Get(q)) == With(s, q, V2, 2, Resolving(2))
    ensures Do(With(s, q, V2, 2, Resolving(2)), Resolve(q)) == With(s, q, V2, 2, Stamping(2))
  {
  }

  lemma StampStep(s: State, q: string)
    requires Unheard(s, q)
    ensures Do(With(s, q, V2, 2, Stamping(2)), Stamp(q, Served)) == With(s, q, V3, 2, Installing(3))
  {
    assert V2 + [STAMPED] == V3;
  }

  lemma WriteSteps(s: State, q: string)
    requires Unheard(s, q)
    ensures var n, c := s.seenConfig, s.configs[s.seenConfig];
            && Do(With(s, q, V3, 2, Installing(3)), ReadConfig(q)) == With(s, q, V3, 2, Writing(3, n, c))
            && Do(With(s, q, V3, 2, Writing(3, n, c)), WriteConfig(q, Served)) == Created(s, q)
  {
  }

  /** A quota is created and reconciled until its entry is installed. */
  lemma Creates(a: State, s: State, q: string)
    requires Reaches(a, s) && Unheard(s, q)
    ensures Reaches(a, Created(s, q))
  {
    var s1 := s.(quotas := s.quotas[q := V1]);
    var s2 := s1.(seen := s.seen[q := 1]);
    FirstSteps(s, q);
    Then(a, s, CreateQuota(q), s1);
    Then(a, s1, Sync(q, 1), s2);
    Then(a, s2, Get(q), With(s, q, V1, 1, AddingFinalizer(1)));
    Finalizes(a, s, q);
    var n, c := s.seenConfig, s.configs[s.seenConfig];
    StampStep(s, q);
    WriteSteps(s, q);
    Then(a, With(s, q, V2, 2, Stamping(2)), Stamp(q, Served), With(s, q, V3, 2, Installing(3)));
    Then(a, With(s, q, V3, 2, Installing(3)), ReadConfig(q), With(s, q, V3, 2, Writing(3, n, c)));
    Then(a, With(s, q, V3, 2, Writing(3, n, c)), WriteConfig(q, Served), Created(s, q));
  }

  lemma Finalizes(a: State, s: State, q: string)
    requires Unheard(s, q) && Reaches(a, With(s, q, V1, 1, AddingFinalizer(1)))
    ensures Reaches(a, With(s, q, V2, 2, Stamping(2)))
  {
    FinalizerSteps(s, q);
    ResolveSteps(s, q);
    Then(a, With(s, q, V1, 1, AddingFinalizer(1)), AddFinalizer(q, Served), With(s, q, V2, 1, Idle));
    Then(a, With(s, q, V2, 1, Idle), Sync(q, 2), With(s, q, V2, 2, Idle));
    Then(a, With(s, q, V2, 2, Idle), Get(q), With(s, q, V2, 2, Resolving(2)));
    Then(a, With(s, q, V2, 2, Resolving(2)), Resolve(q), With(s, q, V2, 2, Stamping(2)));
  }

  /** ... and then deleted by its user, which the next reconcile reads. */
  lemma LeavingSteps(s: State, q: string)
    requires q in s.names
    ensures Do(With(s, q, V3, 2, Idle), DeleteQuota(q)) == With(s, q, V4, 2, Idle)
    ensures Do(With(s, q, V4, 2, Idle), Sync(q, 4)) == With(s, q, V4, 4, Idle)
    ensures Do(With(s, q, V4, 4, Idle), Get(q)) == With(s, q, V4, 4, Removing(4))
  {
    assert V3 + [LEAVING] == V4;
  }

  lemma Leaves(a: State, s: State, q: string)
    requires q in s.names && Reaches(a, With(s, q, V3, 2, Idle))
    ensures Reaches(a, With(s, q, V4, 4, Removing(4)))
  {
    LeavingSteps(s, q);
    Then(a, With(s, q, V3, 2, Idle), DeleteQuota(q), With(s, q, V4, 2, Idle));
    Then(a, With(s, q, V4, 2, Idle), Sync(q, 4), With(s, q, V4, 4, Idle));
    Then(a, With(s, q, V4, 4, Idle), Get(q), With(s, q, V4, 4, Removing(4)));
  }

  const Q := "q"
  const R := "r"
  const E := "e"
  const F := "f"

  const START := State(map[Q := E, R := F], map[], map[], map[], [NoConfig], 0)

  const ONE := PutConfig(START, Config({E}))

  /** q is being deleted and its entry is installed; reads of the configuration still show the first. */
  const LETTING_GO := With(ONE, Q, V4, 4, Removing(4))

  lemma BecomesLettingGo()
    ensures Reaches(START, LETTING_GO)
  {
    assert FreshRun(START, [], START);
    Creates(START, START, Q);
    assert {} + {E} == {E};
    assert Created(START, Q) == With(ONE, Q, V3, 2, Idle);
    Leaves(START, ONE, Q);
  }

  lemma LetsGo(s: State)
    requires Q in s.names
    ensures Do(With(s, Q, V4, 4, Unfinalizing(4)), Unfinalize(Q, Served)) == With(s, Q, V5, 4, Idle)
  {
    assert V4 + [Gone] == V5;
  }

  const ORPHANED := With(ONE, Q, V5, 4, Idle)

  lemma LetsGoUnread()
    ensures CanReach(LETTING_GO, ORPHANED)
  {
    var s1 := With(ONE, Q, V4, 4, Unfinalizing(4));
    LetsGo(ONE);
    assert Run(ORPHANED, [], ORPHANED);
    Before(s1, Unfinalize(Q, Served), ORPHANED, ORPHANED);
    assert Do(LETTING_GO, ReadForRemoval(Q)) == s1;
    Before(LETTING_GO, ReadForRemoval(Q), s1, ORPHANED);
  }

  /** From nothing, by fresh steps only, to a removal that reads the configuration from before the
      entry: it is told that there is none, the quota goes and its entry stays. */
  lemma OrphanedByStaleRead()
    ensures Init(START) && Reaches(START, LETTING_GO)
    ensures Enabled(LETTING_GO, ReadForRemoval(Q)) && !FreshNotFound(LETTING_GO, ReadForRemoval(Q))
    ensures CanReach(LETTING_GO, ORPHANED)
    ensures E in Entries(ORPHANED) && Last(ORPHANED, Q).Gone? && !NoOrphans(ORPHANED)
  {
    BecomesLettingGo();
    LetsGoUnread();
    assert ORPHANED.names[Q] == E;
  }

  // A read of a quota goes back, as after a restart onto an older view.

  /** q's removal has read the current configuration and is about to delete it. */
  const ABOUT_TO_DELETE := With(ONE, Q, V4, 4, Filtering(4, 1, {})).(seenConfig := 1)

  const NONE := PutConfig(ONE, NoConfig).(seenConfig := 1)
  const GONE := With(NONE, Q, V5, 4, Idle)
  const BACK := With(NONE, Q, V5, 3, Idle)

  lemma BecomesAboutToDelete()
    ensures Reaches(START, ABOUT_TO_DELETE)
  {
    BecomesLettingGo();
    var s1 := LETTING_GO.(seenConfig := 1);
    Then(START, LETTING_GO, SyncConfig(Q, 1), s1);
    assert {E} - {E} == {};
    Then(START, s1, ReadForRemoval(Q), ABOUT_TO_DELETE);
  }

  lemma BecomesGone()
    ensures Reaches(START, GONE)
  {
    BecomesAboutToDelete();
    var s1 := With(NONE, Q, V4, 4, Unfinalizing(4));
    assert Do(ABOUT_TO_DELETE, WriteRemoval(Q, Served)) == s1;
    Then(START, ABOUT_TO_DELETE, WriteRemoval(Q, Served), s1);
    LetsGo(NONE);
    Then(START, s1, Unfinalize(Q, Served), GONE);
  }

  lemma BecomesBack()
    ensures Reaches(START, BACK)
  {
    BecomesGone();
    assert Do(GONE, Sync(Q, 3)) == BACK;
    Then(START, GONE, Sync(Q, 3), BACK);
  }

  /** With every removal told rightly and every configuration read current: a quota is gone, its entry
      removed, and a read that goes back to its last live version installs the entry again. */
  lemma OrphanedByBackwardRead()
    ensures Init(START) && Reaches(START, BACK)
    ensures Enabled(BACK, Get(Q)) && !FreshGet(BACK, Get(Q)) && CanReach(BACK, Installation(BACK, Q))
    ensures E in Entries(Installation(BACK, Q)) && Last(Installation(BACK, Q), Q).Gone?
    ensures !NoOrphans(Installation(BACK, Q))
  {
    BecomesBack();
    var steps :| FreshRun(START, steps, BACK);
    InitHasInv(START);
    RunKeepsInv(START, steps, BACK);
    InstallationIsARun(BACK, Q);
    GetIsSafeExactlyWhenFresh(BACK, Q);
  }

  // Another quota installs its entry while the emptied configuration is about to be deleted.

  const BOTH := Created(ABOUT_TO_DELETE, R)
  const LOST := Do(BOTH, WriteRemoval(Q, Served))

  /** By fresh steps only: r is reconciled and has its entry; then q's removal, which read the
      configuration before, deletes it whole. */
  lemma LostToBlindDelete()
    ensures Init(START) && Reaches(START, BOTH) && F in Entries(BOTH)
    ensures BlindDelete(BOTH, WriteRemoval(Q, Served))
    ensures Reaches(START, LOST) && Last(LOST, R) == STAMPED && PhaseOf(LOST, R).Idle? && Entries(LOST) == {}
  {
    BecomesAboutToDelete();
    Creates(START, ABOUT_TO_DELETE, R);
    Then(START, BOTH, WriteRemoval(Q, Served), LOST);
  }
}
