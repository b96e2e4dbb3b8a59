/**
 The quota protocol on one ledger as a machine of interleaved steps. Any number of webhook replicas
 reserve through the get / mutate / compare-and-swap loop, one reconciler lists and later folds, sweeps
 run, the API server creates and deletes objects, and clocks advance. Every step of every process is
 separate, so other processes may act between a read and the write that depends on it.
 */
module Protocol {
  import opened Accounting
  import opened QuotaStore

  /** A live object: the reservation key it was admitted under (its token), the key the reconciler
      lists it by (its name), the moment of its creation and the recorded expiry of its reservation.
      Objects created at different moments differ, even under one name. */
  datatype Obj = Obj(token: string, name: string, born: nat, due: int)

  /** A process in the loop of Apply. since is the oldest listing a fold could still use when the
      process read the ledger. */
  datatype Proc =
    | Idle
    | Trying(m: Mutation)
    | Got(m: Mutation, st: Status, version: nat, since: nat)
    | Decided(m: Mutation, out: Status, version: nat, since: nat, now: int)
    | Granted(key: string, expiry: int, since: nat)
    | Refused(key: string)

  /** clock is the reading of the fastest clock; every reading a process takes is at most that.
      version 0 means that the ledger object does not exist. hist holds every set of live objects so
      far, the last one being the present; the informer has seen hist[seen], the reconciler works from
      hist[listing] and last folded hist[snap]. cap is the largest limit a new grant was given under.
      Process 0 is the reconciler. */
  datatype State = State(
    clock: int, version: nat, st: Status,
    hist: seq<set<Obj>>, seen: nat, listing: nat, snap: nat,
    cap: int, procs: map<nat, Proc>)

  datatype Step =
    | Tick(to: int)
    | Sync(upTo: nat)
    | BeginReserve(p: nat, key: string, limit: Int32, ttl: int)
    | BeginSweep(p: nat)
    | List(keys: seq<string>)
    | Get(p: nat)
    | CreateLedger(p: nat)
    | Decide(p: nat, now: int, held: Reservation)
    | Update(p: nat)
    | UpdateReplyLost(p: nat)
    | GiveUp(p: nat)
    | CreateObject(p: nat, name: string)
    | DeleteObject(o: Obj)

  const RECONCILER: nat := 0

  function At(s: State, p: nat): Proc {
    if p in s.procs then s.procs[p] else Idle
  }

  function Put(s: State, p: nat, pr: Proc): State {
    s.(procs := s.procs[p := pr])
  }

  function Live(s: State): set<Obj> {
    if s.hist == [] then {} else s.hist[|s.hist| - 1]
  }

  function Tokens(objs: set<Obj>): set<string> {
    set o | o in objs :: o.token
  }

  function Names(objs: set<Obj>): set<string> {
    set o | o in objs :: o.name
  }

  /** Reservation keys of generateName requests (creation_validator.go). */
  predicate IsUid(key: string) {
    "uid:" <= key
  }

  function Max(a: int, b: int): int {
    if a < b then b else a
  }

  /** The oldest listing that a fold may still be built from. */
  function Oldest(s: State): nat {
    if At(s, RECONCILER).Idle? then s.seen else s.listing
  }

  /** Since listing number since, no listing has shown an object under this key. */
  ghost predicate Unlisted(hist: seq<set<Obj>>, key: string, since: nat) {
    forall m :: since <= m < |hist| ==> key !in Names(hist[m])
  }

  ghost predicate Enabled(s: State, step: Step) {
    match step
    case Tick(to) => s.clock <= to
    case Sync(upTo) => upTo < |s.hist|
    case BeginReserve(p, _, _, _) => p != RECONCILER && At(s, p).Idle?
    case BeginSweep(p) => p != RECONCILER && At(s, p).Idle?
    case List(keys) =>
      && At(s, RECONCILER).Idle? && s.seen < |s.hist|
      && |keys| == |s.hist[s.seen]| && KeySet(keys) == Names(s.hist[s.seen])
    case Get(p) => At(s, p).Trying? && s.version != 0
    case CreateLedger(p) => At(s, p).Trying? && s.version == 0
    case Decide(p, now, held) =>
      && At(s, p).Got? && now <= s.clock
      && (At(s, p).m.MReserve? && Holds(At(s, p).st, At(s, p).m.key, now) ==>
            held in At(s, p).st.reservations && held.key == At(s, p).m.key && held.expiresAt > now)
    case Update(p) => At(s, p).Decided?
    case UpdateReplyLost(p) => At(s, p).Decided? && At(s, p).version == s.version
    case GiveUp(p) => true
    case CreateObject(p, name) =>
      && At(s, p).Granted? && s.hist != []
      && name !in Names(Live(s)) && !IsUid(name)
      && (name == At(s, p).key || IsUid(At(s, p).key))
    case DeleteObject(o) => o in Live(s)
  }

  /** The write of a successful compare-and-swap. */
  function Commit(s: State, p: nat): State
    requires At(s, p).Decided?
  {
    var d := At(s, p);
    var written := s.(version := s.version + 1, st := d.out);
    match d.m
    case MReserve(_, limit, _) => written.(cap := Max(s.cap, limit))
    case MFold(_) => written.(snap := s.listing)
    case MSweep => written
  }

  function Do(s: State, step: Step): State
    requires Enabled(s, step)
  {
    match step
    case Tick(to) => s.(clock := to)
    case Sync(upTo) => s.(seen := upTo)
    case BeginReserve(p, key, limit, ttl) => Put(s, p, Trying(MReserve(key, limit, ttl)))
    case BeginSweep(p) => Put(s, p, Trying(MSweep))
    case List(keys) => Put(s, RECONCILER, Trying(MFold(keys))).(listing := s.seen)
    case Get(p) => Put(s, p, Got(At(s, p).m, s.st, s.version, Oldest(s)))
    case CreateLedger(p) => Put(s, p, Got(At(s, p).m, EMPTY, 1, Oldest(s))).(version := 1, st := EMPTY)
    case Decide(p, now, held) => DoDecide(s, p, now, held)
    case Update(p) => DoUpdate(s, p)
    case UpdateReplyLost(p) => Put(Commit(s, p), p, Idle)
    case GiveUp(p) => Put(s, p, Idle)
    case CreateObject(p, name) =>
      var g := At(s, p);
      Put(s, p, Idle).(hist := s.hist + [Live(s) + {Obj(g.key, name, |s.hist|, g.expiry)}])
    case DeleteObject(o) => s.(hist := s.hist + [Live(s) - {o}])
  }

  /** The mutation runs on what the process read. With nothing to write the loop ends here. */
  function DoDecide(s: State, p: nat, now: int, held: Reservation): State
    requires At(s, p).Got?
  {
    var g := At(s, p);
    var (out, ok) := Mutate(g.m, g.st, now);
    if out != g.st then Put(s, p, Decided(g.m, out, g.version, g.since, now))
    else
      match g.m
      case MReserve(key, _, _) =>
        Put(s, p, if ok then Granted(key, held.expiresAt, g.since) else Proc.Refused(key))
      case MFold(_) => Put(s, p, Idle).(snap := s.listing)
      case MSweep => Put(s, p, Idle)
  }

  /** Compare and swap: it succeeds exactly when the version read is still the current one. */
  function DoUpdate(s: State, p: nat): State
    requires At(s, p).Decided?
  {
    var d := At(s, p);
    if d.version != s.version then Put(s, p, Trying(d.m))
    else if d.m.MReserve? then
      Put(Commit(s, p), p, Granted(d.m.key, d.now + d.m.ttl, d.since))
    else Put(Commit(s, p), p, Idle)
  }

  // ---- the hypotheses ----

  /** Objects are created, and observed by a fold, before their reservation's recorded expiry. */
  ghost predicate InTime(s: State, step: Step)
    requires Enabled(s, step)
  {
    && (step.Tick? && s.snap < |s.hist| ==>
          forall o :: o in Live(s) && o !in s.hist[s.snap] ==> step.to < o.due)
    && (step.CreateObject? ==> s.clock < At(s, step.p).expiry)
  }

  /** A name is used again only when no listing taken since the grant was read, or still in use then,
      shows the earlier object of that name. */
  ghost predicate NoStaleName(s: State, step: Step)
    requires Enabled(s, step)
  {
    step.CreateObject? ==> Unlisted(s.hist, At(s, step.p).key, At(s, step.p).since)
  }

  /** One object per request UID. */
  ghost predicate OneObjectPerUid(s: State, step: Step)
    requires Enabled(s, step)
  {
    step.CreateObject? ==> At(s, step.p).key !in Tokens(Live(s))
  }

  /** The informer's view of the live objects never goes back. */
  ghost predicate ForwardOnly(s: State, step: Step) {
    step.Sync? ==> s.seen <= step.upTo
  }

  /** What a reservation counts when it is decided fits the 32-bit counter: by WrapDecision exactly when
      the counter decides as exact arithmetic does. */
  ghost predicate CountFits(s: State, step: Step)
    requires Enabled(s, step)
  {
    step.Decide? && At(s, step.p).m.MReserve? ==> Tally(At(s, step.p).st, step.now) <= MAX_INT32
  }

  ghost predicate Hypotheses(s: State, step: Step)
    requires Enabled(s, step)
  {
    InTime(s, step) && NoStaleName(s, step) && OneObjectPerUid(s, step) && ForwardOnly(s, step)
    && CountFits(s, step)
  }

  ghost predicate TokensDistinct(objs: set<Obj>) {
    forall a, b :: a in objs && b in objs && a.token == b.token ==> a == b
  }

  ghost predicate NamedProperly(o: Obj) {
    !IsUid(o.name) && (o.token == o.name || IsUid(o.token))
  }

  /** The start: the ledger counts exactly the objects that already exist. */
  ghost predicate Init(s: State) {
    && |s.hist| == 1 && s.seen == 0 && s.snap == 0 && s.procs == map[]
    && TokensDistinct(s.hist[0])
    && (forall o :: o in s.hist[0] ==> o.born == 0 && NamedProperly(o))
    && s.st.reservations == [] && s.st.confirmed == |s.hist[0]|
    && (s.version == 0 ==> s.st == EMPTY)
    && s.cap == |s.hist[0]|
  }

  /** Every step of the run is possible when it is taken and meets the hypotheses. */
  ghost predicate Run(s: State, steps: seq<Step>)
    decreases |steps|
  {
    steps == [] || (Enabled(s, steps[0]) && Hypotheses(s, steps[0]) && Run(Do(s, steps[0]), steps[1..]))
  }

  ghost function End(s: State, steps: seq<Step>): State
    requires Run(s, steps)
    decreases |steps|
  {
    if steps == [] then s else End(Do(s, steps[0]), steps[1..])
  }
}
