/**
 The life of accounting sets: reconciles calling Ensure and Remove, starts in flight, a goroutine
 watching each launched set, and retries after an unexpected stop, interleaved at every point where the
 code releases its lock.
 */
module ManagerMachine {
  import opened ManagerBooks

  /** Starting: inside startFn, nothing registered yet. Registered: startFn has registered the set and
      its goroutine runs, but startFn's caller has not taken the lock again. Waiting: retryStart sleeps. */
  datatype Proc =
    | EnsureStarting(ref: string, key: string)
    | EnsureRegistered(ref: string, key: string)
    | RetryWaiting(key: string)
    | RetryStarting(key: string)
    | RetryRegistered(key: string)
    | Watching(key: string, id: nat)
    | Stopped(key: string, id: nat)

  /** launched is every set ever registered. deferred holds the keys whose start in flight, not
      registered yet or no longer registered, somebody else relied on instead of starting; orphaned the
      keys that lost their last reference while a start was in flight. */
  datatype State = State(
    b: Books, procs: map<nat, Proc>, launched: map<nat, string>, rootDone: bool,
    deferred: set<string>, orphaned: set<string>)

  datatype Step =
    | Ensure(p: nat, ref: string, key: string)
    | RemoveQuota(ref: string)
    | StartRegisters(p: nat, w: nat, id: nat)
    | StartFails(p: nat)
    | StartReturns(p: nat)
    | ManagerStops(w: nat)
    | WatcherLocks(w: nat)
    | RetryWakes(p: nat)
    | RetryAborts(p: nat)
    | RootDone

  const START := State(Books(map[], map[], {}, {}), map[], map[], false, {}, {})

  ghost predicate Enabled(s: State, step: Step) {
    match step
    case Ensure(p, _, key) => p !in s.procs && key != ""
    case RemoveQuota(_) => true
    case StartRegisters(p, w, id) =>
      && p in s.procs && (s.procs[p].EnsureStarting? || s.procs[p].RetryStarting?)
      && w !in s.procs && id !in s.launched
    case StartFails(p) => p in s.procs && (s.procs[p].EnsureStarting? || s.procs[p].RetryStarting?)
    case StartReturns(p) => p in s.procs && (s.procs[p].EnsureRegistered? || s.procs[p].RetryRegistered?)
    case ManagerStops(w) => w in s.procs && s.procs[w].Watching?
    case WatcherLocks(w) => w in s.procs && s.procs[w].Stopped?
    case RetryWakes(p) => p in s.procs && s.procs[p].RetryWaiting?
    case RetryAborts(p) => p in s.procs && s.procs[p].RetryWaiting? && s.rootDone
    case RootDone => true
  }

  /** Keys that dropping ref tears down while their start is in flight. */
  function OrphanedBy(b: Books, ref: string, keep: string): set<string> {
    set k | k in b.starting && Tears(b, ref, keep, k)
  }

  /** Whoever finds key busy relies on the start in flight when no set is registered. */
  function DeferredBy(b: Books, key: string): set<string> {
    if key in b.starting && key !in b.sets then {key} else {}
  }

  function Do(s: State, step: Step): State
    requires Enabled(s, step)
  {
    match step
    case Ensure(p, ref, key) => DoEnsure(s, p, ref, key)
    case RemoveQuota(ref) =>
      s.(b := Remove(s.b, ref), orphaned := s.orphaned + OrphanedBy(s.b, ref, ""))
    case StartRegisters(p, w, id) =>
      var pr := s.procs[p];
      var next := if pr.EnsureStarting? then EnsureRegistered(pr.ref, pr.key) else RetryRegistered(pr.key);
      s.(b := Register(s.b, pr.key, id), launched := s.launched[id := pr.key],
         procs := s.procs[p := next][w := Watching(pr.key, id)])
    case StartFails(p) =>
      if s.procs[p].EnsureStarting? then
        var done := s.b.(starting := s.b.starting - {s.procs[p].key});
        s.(b := EnsureEnd(s.b, s.procs[p].ref, s.procs[p].key, true), procs := s.procs - {p},
           orphaned := s.orphaned + OrphanedBy(done, s.procs[p].ref, ""))
      else s.(b := RetryEnd(s.b, s.procs[p].key), procs := s.procs[p := RetryWaiting(s.procs[p].key)])
    case StartReturns(p) =>
      if s.procs[p].EnsureRegistered? then
        s.(b := EnsureEnd(s.b, s.procs[p].ref, s.procs[p].key, false), procs := s.procs - {p})
      else s.(b := RetryEnd(s.b, s.procs[p].key), procs := s.procs - {p})
    case ManagerStops(w) =>
      s.(b := Cancel(s.b, s.procs[w].id),
         procs := s.procs[w := Stopped(s.procs[w].key, s.procs[w].id)])
    case WatcherLocks(w) =>
      var (b, retry) := WatcherEnd(s.b, s.procs[w].key, s.procs[w].id);
      s.(b := b, procs := if retry then s.procs[w := RetryWaiting(s.procs[w].key)] else s.procs - {w})
    case RetryWakes(p) =>
      var key := s.procs[p].key;
      var (b, start) := RetryBegin(s.b, key);
      if start then s.(b := b, procs := s.procs[p := RetryStarting(key)], deferred := s.deferred - {key})
      else
        s.(b := b, procs := s.procs - {p},
           deferred := if RefsOf(s.b, key) == {} then s.deferred else s.deferred + DeferredBy(s.b, key))
    case RetryAborts(p) => s.(procs := s.procs - {p})
    case RootDone => s.(rootDone := true)
  }

  function DoEnsure(s: State, p: nat, ref: string, key: string): State {
    var (b, start) := EnsureBegin(s.b, ref, key);
    var s1 := s.(b := b, orphaned := s.orphaned + OrphanedBy(s.b, ref, key) - {key});
    if start then s1.(procs := s.procs[p := EnsureStarting(ref, key)], deferred := s.deferred - {key})
    else s1.(deferred := s.deferred + DeferredBy(AddRef(s.b, ref, key), key))
  }

  /** A start that somebody deferred to ends with its set still registered. */
  ghost predicate DeferralsHonoured(s: State, step: Step)
    requires Enabled(s, step)
  {
    && (step.StartFails? ==> s.procs[step.p].key !in s.deferred)
    && (step.StartReturns? && s.procs[step.p].key in s.deferred ==> s.procs[step.p].key in s.b.sets)
  }

  ghost predicate Run(s: State, steps: seq<Step>, end: State)
    decreases |steps|
  {
    if steps == [] then s == end
    else Enabled(s, steps[0]) && Run(Do(s, steps[0]), steps[1..], end)
  }

  /** A run in which every deferral is honoured. */
  ghost predicate HonestRun(s: State, steps: seq<Step>, end: State)
    decreases |steps|
  {
    if steps == [] then s == end
    else
      && Enabled(s, steps[0]) && DeferralsHonoured(s, steps[0])
      && HonestRun(Do(s, steps[0]), steps[1..], end)
  }

  // ---- the invariants ----

  predicate InStart(pr: Proc) {
    pr.EnsureStarting? || pr.EnsureRegistered? || pr.RetryStarting? || pr.RetryRegistered?
  }

  predicate IsWatcher(pr: Proc) {
    pr.Watching? || pr.Stopped?
  }

  ghost predicate StartOf(s: State, p: nat, key: string) {
    p in s.procs && InStart(s.procs[p]) && s.procs[p].key == key
  }

  /** starting names exactly the keys with a start in flight, and no key has two. */
  ghost predicate StartsOk(s: State) {
    && (forall p, key :: StartOf(s, p, key) ==> key in s.b.starting)
    && (forall key :: key in s.b.starting ==> exists p :: StartOf(s, p, key))
    && (forall p, q, key :: StartOf(s, p, key) && StartOf(s, q, key) ==> p == q)
  }

  /** While a start has not registered its set, its key has none. (Accounting keys are never empty.) */
  ghost predicate NothingToOverwrite(s: State) {
    && (forall p :: p in s.procs && s.procs[p].EnsureStarting? ==> s.procs[p].key != "")
    && forall p :: p in s.procs && (s.procs[p].EnsureStarting? || s.procs[p].RetryStarting?)
                ==> s.procs[p].key !in s.b.sets
  }

  /** Every set ever launched is registered under its key or cancelled. */
  ghost predicate NoLeak(s: State) {
    && s.b.cancelled <= s.launched.Keys
    && (forall k :: k in s.b.sets ==> s.b.sets[k] in s.launched && s.launched[s.b.sets[k]] == k)
    && (forall id :: id in s.launched ==>
          id in s.b.cancelled || (s.launched[id] in s.b.sets && s.b.sets[s.launched[id]] == id))
  }

  ghost predicate WatchedBy(s: State, key: string, id: nat, w: nat) {
    w in s.procs && (s.procs[w] == Stopped(key, id) || (s.procs[w] == Watching(key, id) && id !in s.b.cancelled))
  }

  ghost predicate WatcherOf(s: State, w: nat, id: nat) {
    w in s.procs && IsWatcher(s.procs[w]) && s.procs[w].id == id
  }

  ghost predicate WatcherOk(s: State, pr: Proc) {
    && (IsWatcher(pr) ==> pr.id in s.launched && s.launched[pr.id] == pr.key)
    && (pr.Stopped? ==> pr.id in s.b.cancelled)
  }

  /** Every registered set has its goroutine; if it is cancelled, the goroutine has stopped and is on
      its way to remove it. */
  ghost predicate Watched(s: State) {
    && (forall key :: key in s.b.sets ==> exists w :: WatchedBy(s, key, s.b.sets[key], w))
    && (forall w :: w in s.procs ==> WatcherOk(s, s.procs[w]))
    && (forall v, w, id :: WatcherOf(s, v, id) && WatcherOf(s, w, id) ==> v == w)
  }

  /** A key with a set or a start but no references lost its last one while a start was in flight, and
      none of those keys has been referenced since. */
  ghost predicate OrphansExplained(s: State) {
    && (forall k :: Busy(s.b, k) && k !in s.b.refs ==> k in s.orphaned)
    && (forall k :: k in s.orphaned ==> k !in s.b.refs)
  }

  ghost predicate Safe(s: State) {
    StartsOk(s) && NothingToOverwrite(s) && NoLeak(s) && Watched(s) && RefsTidy(s.b) && OrphansExplained(s)
  }

  // ---- recovery ----

  ghost predicate Waiting(s: State, key: string) {
    exists p :: p in s.procs && s.procs[p] == RetryWaiting(key)
  }

  /** A referenced key is running, being started, or waiting to be restarted. */
  ghost predicate Recovering(s: State) {
    forall k :: k in s.b.refs ==> Busy(s.b, k) || Waiting(s, k)
  }

  /** The guard that would keep recovery: the start of an Ensure fails only if nobody else references its
      key or a retry waits, and a start returns only if its set is still there, nobody references its key,
      or a retry waits. */
  ghost predicate Kept(s: State, step: Step)
    requires Enabled(s, step)
  {
    && (step.StartFails? && s.procs[step.p].EnsureStarting? ==>
          var pr := s.procs[step.p]; RefsOf(s.b, pr.key) <= {pr.ref} || Waiting(s, pr.key))
    && (step.StartReturns? ==>
          var key := s.procs[step.p].key; key in s.b.sets || key !in s.b.refs || Waiting(s, key))
  }

  /** The guard holds of every start in flight that nobody defers to. */
  ghost predicate FallbackOk(s: State, pr: Proc) {
    && (pr.EnsureStarting? && pr.key !in s.deferred ==>
          RefsOf(s.b, pr.key) <= {pr.ref} || Waiting(s, pr.key))
    && ((pr.EnsureRegistered? || pr.RetryRegistered?) && pr.key !in s.deferred ==>
          pr.key in s.b.sets || pr.key !in s.b.refs || Waiting(s, pr.key))
  }

  ghost predicate Fallbacks(s: State) {
    forall p :: p in s.procs ==> FallbackOk(s, s.procs[p])
  }
}
